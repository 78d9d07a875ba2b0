/** Order-preserving subsequences. */
module Subsequences {

  /** a can be obtained from b by deleting elements, keeping the order. */
  predicate Subseq<T(==)>(a: seq<T>, b: seq<T>)
  {
    if a == [] then true
    else if b == [] then false
    else
      || (a[|a| - 1] == b[|b| - 1] && Subseq(a[..|a| - 1], b[..|b| - 1]))
      || Subseq(a, b[..|b| - 1])
  }

  lemma {:induction false} SubseqLength<T>(a: seq<T>, b: seq<T>)
    requires Subseq(a, b)
    ensures |a| <= |b|
  {
    if a != [] && b != [] {
      if a[|a| - 1] == b[|b| - 1] && Subseq(a[..|a| - 1], b[..|b| - 1]) {
        SubseqLength(a[..|a| - 1], b[..|b| - 1]);
      } else {
        SubseqLength(a, b[..|b| - 1]);
      }
    }
  }

  lemma SubseqPush<T>(a: seq<T>, b: seq<T>, x: T)
    requires Subseq(a, b)
    ensures Subseq(a + [x], b + [x])
    ensures Subseq(a, b + [x])
  {
    assert (a + [x])[..|a|] == a;
    assert (b + [x])[..|b|] == b;
  }

  /** A subsequence of b still is one after deleting its last element. */
  lemma {:induction false} SubseqPop<T>(a: seq<T>, x: T, b: seq<T>)
    requires Subseq(a + [x], b)
    ensures Subseq(a, b)
  {
    assert (a + [x])[..|a|] == a;
    if b != [] {
      var b' := b[..|b| - 1];
      assert b == b' + [b[|b| - 1]];
      if x == b[|b| - 1] && Subseq(a, b') {
      } else {
        SubseqPop(a, x, b');
      }
      SubseqPush(a, b', b[|b| - 1]);
    }
  }

  /** Deleting a contiguous block from the middle. */
  lemma {:induction false} SubseqCut<T>(a: seq<T>, m: seq<T>, c: seq<T>, b: seq<T>)
    requires Subseq(a + m + c, b)
    ensures Subseq(a + c, b)
    decreases |m| + |c| + |b|
  {
    if c == [] {
      assert a + c == a && a + m + c == a + m;
      if m == [] {
        assert a + m == a;
      } else {
        var n := |m| - 1;
        assert a + m == a + m[..n] + [m[n]];
        SubseqPop(a + m[..n], m[n], b);
        assert a + m[..n] + [] == a + m[..n];
        SubseqCut(a, m[..n], [], b);
      }
    } else {
      var n := |c| - 1;
      var b' := b[..|b| - 1];
      assert (a + m + c)[..|a + m + c| - 1] == a + m + c[..n];
      assert (a + c)[..|a + c| - 1] == a + c[..n];
      if c[n] == b[|b| - 1] && Subseq(a + m + c[..n], b') {
        SubseqCut(a, m, c[..n], b');
      } else {
        SubseqCut(a, m, c, b');
      }
    }
  }

  /** What Subseq means index by index: an increasing embedding. */
  ghost predicate Embeds<T(!new)>(a: seq<T>, b: seq<T>, at: seq<nat>)
  {
    && |at| == |a|
    && (forall i :: 0 <= i < |a| ==> at[i] < |b| && a[i] == b[at[i]])
    && (forall i, j :: 0 <= i < j < |a| ==> at[i] < at[j])
  }

  lemma {:induction false} SubseqEmbeds<T(!new)>(a: seq<T>, b: seq<T>)
    requires Subseq(a, b)
    ensures exists at: seq<nat> :: Embeds(a, b, at)
  {
    if a == [] {
      assert Embeds(a, b, []);
    } else if a[|a| - 1] == b[|b| - 1] && Subseq(a[..|a| - 1], b[..|b| - 1]) {
      SubseqEmbeds(a[..|a| - 1], b[..|b| - 1]);
      var at: seq<nat> :| Embeds(a[..|a| - 1], b[..|b| - 1], at);
      assert Embeds(a, b, at + [|b| - 1]);
    } else {
      SubseqEmbeds(a, b[..|b| - 1]);
      var at: seq<nat> :| Embeds(a, b[..|b| - 1], at);
      assert Embeds(a, b, at);
    }
  }
}
