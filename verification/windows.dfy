/**
 * Windows: a sequence w standing at index i of a longer sequence. Used to place
 * the rendering of a tree inside a token stream.
 */
module Windows {

  /** The elements from index i on begin with w. */
  ghost predicate At<T>(toks: seq<T>, i: nat, w: seq<T>)
    decreases |w|
  {
    |w| == 0 || (i < |toks| && toks[i] == w[0] && At(toks, i + 1, w[1..]))
  }

  /** A window is a window of each of its two parts, and conversely. */
  lemma {:induction false} AtSplit<T>(toks: seq<T>, i: nat, a: seq<T>, b: seq<T>)
    ensures At(toks, i, a + b) <==> At(toks, i, a) && At(toks, i + |a|, b)
    decreases |a|
  {
    if |a| > 0 {
      assert (a + b)[0] == a[0];
      assert (a + b)[1..] == a[1..] + b;
      AtSplit(toks, i + 1, a[1..], b);
    } else {
      assert a + b == b;
    }
  }

  lemma AtSplit3<T>(toks: seq<T>, i: nat, a: seq<T>, b: seq<T>, c: seq<T>)
    requires At(toks, i, a + b + c)
    ensures At(toks, i, a) && At(toks, i + |a|, b) && At(toks, i + |a| + |b|, c)
  {
    AtSplit(toks, i, a + b, c);
    AtSplit(toks, i, a, b);
  }

  /** Every suffix of a sequence is a window of it. */
  lemma {:induction false} AtSuffix<T>(toks: seq<T>, i: nat)
    requires i <= |toks|
    ensures At(toks, i, toks[i..])
    decreases |toks| - i
  {
    if i < |toks| {
      assert toks[i..][1..] == toks[i + 1..];
      AtSuffix(toks, i + 1);
    }
  }

  /** A sequence is a window of itself. */
  lemma AtWhole<T>(toks: seq<T>)
    ensures At(toks, 0, toks)
  {
    AtSuffix(toks, 0);
    assert toks[0..] == toks;
  }

  /** The k-th element of a window. */
  lemma {:induction false} AtIndex<T>(toks: seq<T>, i: nat, w: seq<T>, k: nat)
    requires At(toks, i, w) && k < |w|
    ensures i + k < |toks| && toks[i + k] == w[k]
    decreases k
  {
    if k > 0 {
      AtIndex(toks, i + 1, w[1..], k - 1);
    }
  }
}
