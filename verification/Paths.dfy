/** Sequences of states in which each one follows from the one before. */
module Paths {

  ghost predicate IsPath<S(!new)>(next: (S, S) -> bool, tr: seq<S>) {
    tr != [] && forall i :: 0 <= i < |tr| - 1 ==> next(tr[i], tr[i + 1])
  }

  ghost predicate Leads<S(!new)>(next: (S, S) -> bool, s: S, s': S) {
    exists tr :: IsPath(next, tr) && tr[0] == s && tr[|tr| - 1] == s'
  }

  lemma Stay<S(!new)>(next: (S, S) -> bool, s: S)
    ensures Leads(next, s, s)
  {
    assert IsPath(next, [s]) && [s][0] == s && [s][|[s]| - 1] == s;
  }

  lemma Then<S(!new)>(next: (S, S) -> bool, s: S, s1: S, s2: S)
    requires Leads(next, s, s1) && next(s1, s2)
    ensures Leads(next, s, s2)
  {
    assert IsPath(next, [s1, s2]) && [s1, s2][0] == s1 && [s1, s2][|[s1, s2]| - 1] == s2;
    Trans(next, s, s1, s2);
  }

  lemma Trans<S(!new)>(next: (S, S) -> bool, s: S, s1: S, s2: S)
    requires Leads(next, s, s1) && Leads(next, s1, s2)
    ensures Leads(next, s, s2)
  {
    var a :| IsPath(next, a) && a[0] == s && a[|a| - 1] == s1;
    var b :| IsPath(next, b) && b[0] == s1 && b[|b| - 1] == s2;
    var tr := a + b[1..];
    forall i | 0 <= i < |tr| - 1 ensures next(tr[i], tr[i + 1]) {
      if i < |a| - 1 {
        assert next(a[i], a[i + 1]);
      } else {
        assert next(b[i - |a| + 1], b[i - |a| + 1 + 1]);
      }
    }
    assert IsPath(next, tr) && tr[0] == s && tr[|tr| - 1] == s2;
  }
}
