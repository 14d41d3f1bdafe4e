/** Generic sequence helpers: first occurrence, distinct values in order of first
  appearance (pandas `unique`), order-preserving selection, sums. */
module Seqs {

  /** No value occurs twice. */
  predicate Distinct<T(==)>(s: seq<T>) {
    forall i, j :: 0 <= i < j < |s| ==> s[i] != s[j]
  }

  /** Position of the first occurrence of `x`. */
  function IndexOf<T(==)>(s: seq<T>, x: T): (i: nat)
    requires x in s
    ensures i < |s| && s[i] == x
    ensures x !in s[..i]
  {
    if s[0] == x then 0
    else
      var i := 1 + IndexOf(s[1..], x);
      assert s[..i] == [s[0]] + s[1..][..i - 1];
      i
  }

  /** The first occurrence of a value of a prefix is its first occurrence in the whole sequence. */
  lemma {:induction false} IndexOfInit<T>(s: seq<T>, k: nat, x: T)
    requires k <= |s| && x in s[..k]
    ensures IndexOf(s, x) == IndexOf(s[..k], x)
  {
  }

  /** Distinct values of `s`, each once, in the order of their first appearance. */
  function Unique<T(==,!new)>(s: seq<T>): (u: seq<T>)
    ensures Distinct(u)
    ensures forall x :: x in u <==> x in s
    ensures forall i, j :: 0 <= i < j < |u| ==> IndexOf(s, u[i]) < IndexOf(s, u[j])
  {
    if |s| == 0 then []
    else
      var init := s[..|s| - 1];
      var last := s[|s| - 1];
      var u := Unique(init);
      assert s == init + [last];
      assert forall x :: x in u ==> IndexOf(s, x) == IndexOf(init, x) && IndexOf(init, x) < |init| by {
        forall x | x in u {
          IndexOfInit(s, |s| - 1, x);
        }
      }
      if last in u then u
      else
        assert last !in init;
        assert IndexOf(s, last) == |s| - 1;
        u + [last]
  }

  /** The elements of `s` that satisfy `p`, in their original order. */
  function Filter<T(==,!new)>(s: seq<T>, p: T -> bool): (r: seq<T>)
    ensures |r| <= |s|
    ensures forall x :: x in r ==> x in s && p(x)
  {
    if |s| == 0 then []
    else
      var init := s[..|s| - 1];
      var last := s[|s| - 1];
      assert s == init + [last];
      Filter(init, p) + (if p(last) then [last] else [])
  }

  /** Each value is kept exactly as many times as it occurs, when it satisfies `p`,
    and never otherwise. */
  lemma {:induction false} FilterMultiset<T(!new)>(s: seq<T>, p: T -> bool)
    ensures forall x :: multiset(Filter(s, p))[x] == if p(x) then multiset(s)[x] else 0
  {
    if |s| > 0 {
      var init := s[..|s| - 1];
      var last := s[|s| - 1];
      assert s == init + [last];
      FilterMultiset(init, p);
    }
  }

  /** Selection distributes over concatenation: the kept elements of `a` come
    before the kept elements of `b`, so the original order is preserved. */
  lemma {:induction false} FilterAppend<T(!new)>(a: seq<T>, b: seq<T>, p: T -> bool)
    ensures Filter(a + b, p) == Filter(a, p) + Filter(b, p)
    decreases |b|
  {
    if |b| == 0 {
      assert a + b == a;
    } else {
      var binit := b[..|b| - 1];
      var last := b[|b| - 1];
      assert b == binit + [last];
      var ab := a + b;
      assert ab[..|ab| - 1] == a + binit;
      assert ab[|ab| - 1] == last;
      FilterAppend(a, binit, p);
      calc {
        Filter(ab, p);
        Filter(a + binit, p) + (if p(last) then [last] else []);
        Filter(a, p) + Filter(binit, p) + (if p(last) then [last] else []);
        Filter(a, p) + Filter(b, p);
      }
    }
  }

  /** Sum of a sequence of reals; zero when empty. */
  function Sum(xs: seq<real>): real {
    if |xs| == 0 then 0.0 else Sum(xs[..|xs| - 1]) + xs[|xs| - 1]
  }

  lemma {:induction false} SumAppend(a: seq<real>, b: seq<real>)
    ensures Sum(a + b) == Sum(a) + Sum(b)
    decreases |b|
  {
    if |b| == 0 {
      assert a + b == a;
    } else {
      var binit := b[..|b| - 1];
      assert (a + b)[..|a + b| - 1] == a + binit;
      SumAppend(a, binit);
    }
  }
}
