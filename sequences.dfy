/** Facts about reordered sequences shared by the order-independence lemmas. */
module Sequences {

  /** If `b` is a reordering of `a`, the element at `i` in `a` also occurs in
      `b`, and taking it out of both leaves two reorderings of each other. */
  lemma MatchingIndex<T>(a: seq<T>, b: seq<T>, i: nat) returns (k: nat)
    requires multiset(a) == multiset(b)
    requires i < |a|
    ensures k < |b| && b[k] == a[i]
    ensures multiset(a[..i] + a[i + 1..]) == multiset(b[..k] + b[k + 1..])
  {
    SplitAt(a, i);
    assert a[i] in multiset(b);
    k :| 0 <= k < |b| && b[k] == a[i];
    SplitAt(b, k);
    Cancel(multiset(a[..i] + a[i + 1..]), multiset(b[..k] + b[k + 1..]), a[i]);
  }

  lemma Cancel<T>(p: multiset<T>, q: multiset<T>, x: T)
    requires p + multiset{x} == q + multiset{x}
    ensures p == q
  {
    assert p == (p + multiset{x}) - multiset{x};
    assert q == (q + multiset{x}) - multiset{x};
  }

  /** A sequence is the element at `i` together with the rest, as a multiset. */
  lemma SplitAt<T>(s: seq<T>, i: nat)
    requires i < |s|
    ensures multiset(s) == multiset(s[..i] + s[i + 1..]) + multiset{s[i]}
  {
    assert s == s[..i] + [s[i]] + s[i + 1..];
  }
}
