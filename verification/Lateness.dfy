/** When the correspondence between interleaved and whole calls can fail: with keep-update a producer that has
    turned to the use list may find free nodes again.  In which configurations that can happen, exactly.
    (src/utils/node_list/node_list.c:57-63, 117-126) */
module Lateness {
  import Paths
  import opened CallRuns
  import opened Linearization
  import opened NodeProtocol
  import opened Stranding
  import E = Exchange

  /** Thread t's next step is its point on the use list, and the free list is not empty. */
  predicate LateAt(c: Config, s: State, t: Tid) {
    t in s.pcs && Enabled(s, Advance(t)) && !Timely(c, s, Advance(t))
  }

  ghost predicate SomeLate(c: Config, s: State) {
    exists t :: LateAt(c, s, t)
  }

  lemma LateNeeds(c: Config, s: State, t: Tid)
    requires Reaches(c, Init(c), s) && LateAt(c, s, t)
    ensures c.keepUpdate && |c.threads| >= 2 && (c.nodes >= 2 || (c.nodes >= 1 && !c.block))
  {
    var tr := RunTo(c, s);
    var i := |tr| - 1;
    RunThreads(c, tr, i);
    ExclusiveOwnership(c, tr, i);
    NeverTakesFromEmpty(c, tr, i);
    hide IsRun, Reaches;
    var x := s.free.nodes[0];
    assert x in s.free.nodes;
    if s.pcs[t].GetTake? {
      assert Claims(Use, tr[i].pcs[t]) && tr[i].Of(Use).nodes != [];
      TwoNodes(c, tr, i);
    }
    assert Overwriting(s.pcs[t]);
    var j := OverwriterSawEmpty(c, tr, i, t);
    if |c.threads| <= 1 {
      Single(c.threads, t);
      LoneOverwriter(c, tr, j, i, t);
    }
  }

  /** A node on each list makes two. */
  lemma TwoNodes(c: Config, tr: seq<State>, i: nat)
    requires IsRun(c, tr) && i < |tr| && tr[i].free.nodes != [] && tr[i].use.nodes != []
    ensures c.nodes >= 2
  {
    ExclusiveOwnership(c, tr, i);
    var x, y := tr[i].free.nodes[0], tr[i].use.nodes[0];
    assert x in tr[i].free.nodes && y in tr[i].use.nodes;
    assert Places(tr[i], y) > 0;
  }

  /** With one node and a list that does not block: the producer turns to the use list, a consumer takes
      and releases the node, and the producer gives up. */
  lemma LateNull(c: Config, p: Tid, q: Tid) returns (s: State)
    requires p in c.threads && q in c.threads && p != q && c.keepUpdate && c.nodes >= 1 && !c.block
    ensures Reaches(c, Init(c), s) && LateAt(c, s, p)
  {
    hide Reaches;
    var s1 := TakeAll(c, p, c.nodes);
    assert Iota(c.nodes)[c.nodes..] == [];
    var s2 := PublishNext(c, s1, p, 0);
    assert View(c, s2) == E.Exchange([], 0, 0, [0], 1, 1, true, false);
    var s3 := Begin(c, s2, p, FreeCheck);
    s3 := Walk(c, s2, s3, p);
    Paths.Trans(Steps(c), Init(c), s2, s3);
    assert s3.pcs == s2.pcs[p := UseCheck(Producer)];
    var s4 := ReceiveNext(c, s3, q);
    assert View(c, s4) == E.Exchange([], 0, 0, [], 0, 0, true, false);
    s := ReleaseNext(c, s4, q, 0);
  }

  /** The producer takes every node and publishes two. */
  lemma TwoPublished(c: Config, p: Tid) returns (s: State)
    requires p in c.threads && c.keepUpdate && c.nodes >= 2
    ensures Reaches(c, Init(c), s) && Quiet(s) && s.pcs == Init(c).pcs
    ensures View(c, s) == E.Exchange([], 0, 0, [0, 1], 2, 2, true, c.block)
  {
    hide Reaches;
    var s1 := TakeAll(c, p, c.nodes);
    assert Iota(c.nodes)[c.nodes..] == [];
    s := PublishNext(c, s1, p, 0);
    s := PublishNext(c, s, p, 1);
  }

  /** It waits for one of them while another thread takes and releases the other. */
  lemma OneEach(c: Config, p: Tid, q: Tid) returns (s: State)
    requires p in c.threads && q in c.threads && p != q && c.keepUpdate && c.nodes >= 2
    ensures Reaches(c, Init(c), s) && View(c, s) == E.Exchange([0], 1, 1, [1], 1, 1, true, c.block)
    ensures s.pcs == Init(c).pcs[p := Wait(Use, Producer)] && Quiet(s)
  {
    var s2 := TwoPublished(c, p);
    var s3 := RequestSide(c, s2, p, Use);
    Paths.Trans(Steps(c), Init(c), s2, s3);
    hide Reaches;
    var s4 := ReceiveNext(c, s3, q);
    assert View(c, s4) == E.Exchange([], 0, 0, [1], 1, 1, true, c.block);
    s := ReleaseNext(c, s4, q, 0);
  }

  /** With two nodes: then it gets past the wait. */
  lemma LateTaken(c: Config, p: Tid, q: Tid) returns (s: State)
    requires p in c.threads && q in c.threads && p != q && c.keepUpdate && c.nodes >= 2
    ensures Reaches(c, Init(c), s) && LateAt(c, s, p)
  {
    hide Reaches;
    var s5 := OneEach(c, p, q);
    var s6 := WaitRun(c, Init(c), s5, p, Use, Producer);
    s := Walk(c, Init(c), s6, p);
  }

  /** A run can leave the call model exactly in keep-update mode with two threads and either two nodes, or one
      and a list that does not block. */
  lemma LateIff(c: Config)
    ensures (exists s :: Reaches(c, Init(c), s) && SomeLate(c, s))
       <==> c.keepUpdate && |c.threads| >= 2 && (c.nodes >= 2 || (c.nodes >= 1 && !c.block))
  {
    hide Reaches;
    if s :| Reaches(c, Init(c), s) && SomeLate(c, s) {
      var t :| LateAt(c, s, t);
      LateNeeds(c, s, t);
    }
    if c.keepUpdate && |c.threads| >= 2 && (c.nodes >= 2 || (c.nodes >= 1 && !c.block)) {
      var p, q := TwoThreads(c.threads);
      if c.nodes >= 2 {
        var s := LateTaken(c, p, q);
        assert SomeLate(c, s);
      } else {
        var s := LateNull(c, p, q);
        assert SomeLate(c, s);
      }
    }
  }
}
