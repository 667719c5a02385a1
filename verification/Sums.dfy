/** Helpers.  Sums of a weight over the values of a finite map.  Threads are kept in a map from thread to
    program point and queues in a map from mailbox to contents, so "how many threads are at this
    point" and "in how many slots does this pointer sit" are both such sums.  Below them, counting in
    sequences and subsequences. */
module Sums {

  ghost function Sum<K(!new), V(!new)>(m: map<K, V>, w: V -> nat): nat {
    if m == map[] then 0
    else
      var k :| k in m;
      w(m[k]) + Sum(m - {k}, w)
  }

  /** Any key may be taken out first. */
  lemma {:induction false} SumPick<K(!new), V(!new)>(m: map<K, V>, k: K, w: V -> nat)
    requires k in m
    ensures Sum(m, w) == w(m[k]) + Sum(m - {k}, w)
    decreases |m|
  {
    var j :| j in m && Sum(m, w) == w(m[j]) + Sum(m - {j}, w);
    if j != k {
      SumPick(m - {j}, k, w);
      SumPick(m - {k}, j, w);
      assert m - {j} - {k} == m - {k} - {j};
    }
  }

  lemma SumUpdate<K(!new), V(!new)>(m: map<K, V>, k: K, v: V, w: V -> nat)
    requires k in m
    ensures Sum(m[k := v], w) + w(m[k]) == Sum(m, w) + w(v)
    ensures Sum(m, w) >= w(m[k]) && Sum(m[k := v], w) >= w(v)
  {
    SumPick(m, k, w);
    SumPick(m[k := v], k, w);
    assert m[k := v] - {k} == m - {k};
  }

  lemma SumTwo<K(!new), V(!new)>(m: map<K, V>, j: K, k: K, w: V -> nat)
    requires j in m && k in m && j != k
    ensures Sum(m, w) >= w(m[j]) + w(m[k])
  {
    SumPick(m, j, w);
    SumPick(m - {j}, k, w);
  }

  lemma {:induction false} SumZero<K(!new), V(!new)>(m: map<K, V>, w: V -> nat)
    requires forall k :: k in m ==> w(m[k]) == 0
    ensures Sum(m, w) == 0
    decreases |m|
  {
    if m != map[] {
      var k :| k in m && Sum(m, w) == w(m[k]) + Sum(m - {k}, w);
      SumZero(m - {k}, w);
    }
  }

  lemma OneMoreTimes(b: nat, n: nat)
    ensures b * (n + 1) == b * n + b
  {
  }

  lemma {:induction false} SumAtMost<K(!new), V(!new)>(m: map<K, V>, w: V -> nat, bound: nat)
    requires forall k :: k in m ==> w(m[k]) <= bound
    ensures Sum(m, w) <= bound * |m.Keys|
    decreases |m|
  {
    if m != map[] {
      var k :| k in m && Sum(m, w) == w(m[k]) + Sum(m - {k}, w);
      var rest := m - {k};
      assert rest.Keys == m.Keys - {k};
      SumAtMost(rest, w, bound);
      OneMoreTimes(bound, |rest.Keys|);
      assert |m.Keys| == |rest.Keys| + 1;
    }
  }

  lemma {:induction false} SumWitness<K(!new), V(!new)>(m: map<K, V>, w: V -> nat)
    requires Sum(m, w) > 0
    ensures exists k :: k in m && w(m[k]) > 0
    decreases |m|
  {
    var k :| k in m && Sum(m, w) == w(m[k]) + Sum(m - {k}, w);
    if w(m[k]) == 0 {
      SumWitness(m - {k}, w);
      var j :| j in m - {k} && w((m - {k})[j]) > 0;
      assert j in m && w(m[j]) > 0;
    }
  }

  /** How often x occurs in s. */
  ghost function Occ<T>(s: seq<T>, x: T): nat {
    multiset(s)[x]
  }

  lemma OccConcat<T>(a: seq<T>, b: seq<T>, x: T)
    ensures Occ(a + b, x) == Occ(a, x) + Occ(b, x)
  {
  }

  lemma OccOne<T>(y: T, x: T)
    ensures Occ([y], x) == if y == x then 1 else 0
  {
  }

  lemma OccHead<T>(s: seq<T>, x: T)
    requires s != []
    ensures Occ(s, x) == (if s[0] == x then 1 else 0) + Occ(s[1..], x)
  {
    assert s == [s[0]] + s[1..];
  }

  /** Two positions of one sequence holding the same value make its count at least two. */
  lemma OccTwice<T>(s: seq<T>, i: nat, j: nat)
    requires i < j < |s| && s[i] == s[j]
    ensures Occ(s, s[i]) >= 2
  {
    assert s == s[..j] + s[j..];
    assert s[i] == s[..j][i] && s[j] == s[j..][0];
  }

  ghost predicate Subsequence<T>(a: seq<T>, b: seq<T>)
    decreases |b|
  {
    if a == [] then true
    else if b == [] then false
    else
      || (a[|a| - 1] == b[|b| - 1] && Subsequence(a[..|a| - 1], b[..|b| - 1]))
      || Subsequence(a, b[..|b| - 1])
  }

  lemma {:induction false} SubsequenceExtend<T>(a: seq<T>, b: seq<T>, more: seq<T>)
    requires Subsequence(a, b)
    ensures Subsequence(a, b + more)
    decreases |more|
  {
    if more == [] {
      assert b + more == b;
    } else {
      SubsequenceExtend(a, b, more[..|more| - 1]);
      assert (b + more)[..|b + more| - 1] == b + more[..|more| - 1];
    }
  }

  /** f of the elements satisfying p, in order */
  function Pick<A, B>(s: seq<A>, p: A -> bool, f: A -> B): seq<B>
    decreases |s|
  {
    if s == [] then []
    else Pick(s[..|s| - 1], p, f) + (if p(s[|s| - 1]) then [f(s[|s| - 1])] else [])
  }

  lemma {:induction false} PickSubsequence<A, B>(s: seq<A>, p: A -> bool, f: A -> B, all: seq<B>)
    requires |all| == |s| && forall i :: 0 <= i < |s| ==> all[i] == f(s[i])
    ensures Subsequence(Pick(s, p, f), all)
    decreases |s|
  {
    if s != [] {
      var front := s[..|s| - 1];
      PickSubsequence(front, p, f, all[..|all| - 1]);
      if p(s[|s| - 1]) {
        assert Pick(s, p, f)[..|Pick(s, p, f)| - 1] == Pick(front, p, f);
      } else {
        assert Pick(s, p, f) == Pick(front, p, f);
      }
    }
  }
}
