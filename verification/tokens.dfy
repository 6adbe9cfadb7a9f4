/**
 * The token kinds the statement parser reads (package de.werkelmann.interpreter.tokens).
 * Each class carries a constant type tag, returned by getType, and a text value.
 */
module Tokens {
  import opened Wrappers

  /**
   * The type tags. OperatorToken.TOKEN_TYPE is "Operator"; the other token classes
   * are not part of this model, and their tags are taken to be distinct strings.
   */
  datatype TokenType = IntegerType | IdentifierType | OperatorType | SignType | BracketType | EndOfFileType
  {
    /** The TOKEN_TYPE string of the class. */
    function Name(): string {
      match this
      case IntegerType => "Integer"
      case IdentifierType => "Identifier"
      case OperatorType => "Operator"
      case SignType => "Sign"
      case BracketType => "Bracket"
      case EndOfFileType => "EndOfFile"
    }
  }

  /** The closed set of tokens; the end-of-file token has no value (null). */
  datatype Token =
    | IntegerToken(text: string)
    | IdentifierToken(text: string)
    | OperatorToken(text: string)
    | SignToken(text: string)
    | BracketToken(text: string)
    | EndOfFileToken
  {
    /** Token.getType: the class's constant tag, independent of the value. */
    function GetType(): TokenType {
      match this
      case IntegerToken(_) => IntegerType
      case IdentifierToken(_) => IdentifierType
      case OperatorToken(_) => OperatorType
      case SignToken(_) => SignType
      case BracketToken(_) => BracketType
      case EndOfFileToken => EndOfFileType
    }

    /** Token.getValue. */
    function GetValue(): Option<string> {
      if EndOfFileToken? then None else Some(text)
    }
  }

  /** new OperatorToken(String value): stores the value unchanged. */
  function OperatorFromString(value: string): (t: Token)
    ensures t.GetType() == OperatorType
    ensures t.GetValue() == Some(value)
  {
    OperatorToken(value)
  }

  /** String.valueOf(char). */
  function ValueOf(c: char): (s: string)
    ensures |s| == 1 && s[0] == c
  {
    [c]
  }

  /** new OperatorToken(Character value): delegates to the String constructor with String.valueOf(value). */
  function OperatorFromChar(c: char): (t: Token)
    ensures t.GetType() == OperatorType
    ensures t.GetValue().Some? && |t.GetValue().value| == 1 && t.GetValue().value[0] == c
  {
    OperatorFromString(ValueOf(c))
  }

  /** getType of an operator token is "Operator" whatever its value, and no other kind carries that tag. */
  lemma OperatorTypeIsConstant(t: Token)
    ensures t.OperatorToken? <==> t.GetType().Name() == "Operator"
  {
  }

  /** Building from a char and from String.valueOf of that char gives the same kind and value. */
  lemma CharAndStringConstructorsAgree(c: char)
    ensures OperatorFromChar(c).GetType() == OperatorFromString(ValueOf(c)).GetType()
    ensures OperatorFromChar(c).GetValue() == OperatorFromString(ValueOf(c)).GetValue()
  {
  }
}
