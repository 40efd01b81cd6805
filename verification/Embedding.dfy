/** Subsequences, with the positions of their elements as witness. */
module Embedding {

  /** f lists, in increasing order, where the elements of a are found in b. */
  predicate Embeds<T(==)>(f: seq<int>, a: seq<T>, b: seq<T>) {
    && |f| == |a|
    && (forall i :: 0 <= i < |f| ==> 0 <= f[i] < |b| && a[i] == b[f[i]])
    && (forall i, j :: 0 <= i < j < |f| ==> f[i] < f[j])
  }

  ghost predicate Subsequence<T>(a: seq<T>, b: seq<T>) {
    exists f :: Embeds(f, a, b)
  }

  lemma SubsequenceSnoc<T>(a: seq<T>, b: seq<T>, x: T)
    requires Subsequence(a, b)
    ensures Subsequence(a, b + [x]) && Subsequence(a + [x], b + [x])
  {
    var f :| Embeds(f, a, b);
    assert Embeds(f, a, b + [x]);
    assert Embeds(f + [|b|], a + [x], b + [x]);
  }

  lemma SubsequenceDrop<T>(a: seq<T>, b: seq<T>, i: nat)
    requires Subsequence(a, b) && i < |a|
    ensures Subsequence(a[..i] + a[i + 1..], b)
  {
    var f :| Embeds(f, a, b);
    assert Embeds(f[..i] + f[i + 1..], a[..i] + a[i + 1..], b);
  }

  lemma SubsequenceTrans<T>(a: seq<T>, b: seq<T>, c: seq<T>)
    requires Subsequence(a, b) && Subsequence(b, c)
    ensures Subsequence(a, c)
  {
    var f :| Embeds(f, a, b);
    var g :| Embeds(g, b, c);
    var h := seq(|f|, i requires 0 <= i < |f| => g[f[i]]);
    assert Embeds(h, a, c);
  }

  lemma PrefixIsSubsequence<T>(a: seq<T>, b: seq<T>)
    requires a <= b
    ensures Subsequence(a, b)
  {
    var f := seq(|a|, i => i);
    assert Embeds(f, a, b);
  }
}
