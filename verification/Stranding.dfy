/** What interleaving adds to the call-granularity model of the node exchange: a producer left waiting although
    a free node is there.  In which configurations that can come about, exactly.
    (src/utils/node_list/node_list.c:57-76) */
module Stranding {
  import Paths
  import opened NodeProtocol
  import opened CallRuns
  import E = Exchange

  lemma RunTo(c: Config, s: State) returns (tr: seq<State>)
    requires Reaches(c, Init(c), s)
    ensures IsRun(c, tr) && tr[|tr| - 1] == s
  {
    tr :| Paths.IsPath(Steps(c), tr) && tr[0] == Init(c) && tr[|tr| - 1] == s;
  }

  lemma ReachableInv(c: Config, s: State)
    requires Reaches(c, Init(c), s)
    ensures Inv(c, s)
  {
    var tr := RunTo(c, s);
    RunInv(c, tr, |tr| - 1);
  }

  // The four calls again, continuing a run from Init.

  lemma ReceiveNext(c: Config, s: State, t: Tid) returns (s': State)
    requires Reaches(c, Init(c), s) && Quiet(s) && t in s.pcs && s.pcs[t] == Idle
    ensures Reaches(c, Init(c), s') && View(c, s') == E.GetUse(View(c, s)).0
    ensures E.GetUse(View(c, s)).1.Got? ==>
              s'.pcs == s.pcs && Quiet(s')
              && s'.clients == s.clients.(consumers := s.clients.consumers + {s.use.nodes[0]})
    ensures E.GetUse(View(c, s)).1 == E.Blocks ==>
              s'.pcs == s.pcs[t := Wait(Use, Consumer)] && Quiet(s')
  {
    ReachableInv(c, s);
    s' := ReceiveRun(c, s, t);
    Paths.Trans(Steps(c), Init(c), s, s');
    if E.GetUse(View(c, s)).1.Got? { QuietIdle(c, s, s'); }
  }

  /** Locks are free whenever every thread is where it was in a quiet state. */
  lemma QuietIdle(c: Config, s: State, s': State)
    requires Inv(c, s) && Quiet(s) && Reaches(c, s, s') && Reaches(c, Init(c), s') && s'.pcs == s.pcs
    ensures Quiet(s')
  {
    hide PartitionLaw, LogLaw, SeenLaw, RoleLaw, TokenLaw, Reaches;
    ReachableInv(c, s');
    assert forall t, side :: t in s.pcs ==> !Inside(side, s.pcs[t]) by {
      assert MutexLaw(s.Of(Free), s.pcs, Free) && MutexLaw(s.Of(Use), s.pcs, Use);
    }
  }

  lemma RequestNext(c: Config, s: State, t: Tid) returns (s': State)
    requires Reaches(c, Init(c), s) && Quiet(s) && t in s.pcs && s.pcs[t] == Idle
    requires s.free.nodes != [] && s.free.sem > 0
    ensures Reaches(c, Init(c), s') && View(c, s') == E.GetFree(View(c, s)).0 && s'.pcs == s.pcs && Quiet(s')
    ensures s'.clients == s.clients.(producers := s.clients.producers + {s.free.nodes[0]})
  {
    s' := RequestGot(c, s, t, Free);
    Paths.Trans(Steps(c), Init(c), s, s');
    assert s.pcs[t := Idle] == s.pcs;
  }

  lemma PublishNext(c: Config, s: State, t: Tid, x: NodeId) returns (s': State)
    requires Reaches(c, Init(c), s) && Quiet(s) && t in s.pcs && s.pcs[t] == Idle && x in s.clients.producers
    ensures Reaches(c, Init(c), s') && View(c, s') == E.PutUse(View(c, s), x) && s'.pcs == s.pcs && Quiet(s')
    ensures s'.clients == s.clients.(producers := s.clients.producers - {x})
  {
    ReachableInv(c, s);
    s' := PublishRun(c, s, t, x);
    Paths.Trans(Steps(c), Init(c), s, s');
    QuietIdle(c, s, s');
  }

  lemma ReleaseNext(c: Config, s: State, t: Tid, x: NodeId) returns (s': State)
    requires Reaches(c, Init(c), s) && Quiet(s) && t in s.pcs && s.pcs[t] == Idle && x in s.clients.consumers
    ensures Reaches(c, Init(c), s') && View(c, s') == E.PutFree(View(c, s), x) && s'.pcs == s.pcs && Quiet(s')
    ensures s'.clients == s.clients.(consumers := s.clients.consumers - {x})
  {
    ReachableInv(c, s);
    s' := ReleaseRun(c, s, t, x);
    Paths.Trans(Steps(c), Init(c), s, s');
    QuietIdle(c, s, s');
  }

  // ----- when it can happen -----

  /** A producer waits although a free node is there, and no thread in a call can move. */
  ghost predicate Stranded(s: State) {
    && s.free.nodes != []
    && (exists p :: ProducerWaits(s, p))
    && (forall t :: t in s.pcs ==> !Ready(s, s.pcs[t]))
  }

  predicate ProducerWaits(s: State, p: Tid) {
    p in s.pcs && s.pcs[p].Wait? && s.pcs[p].role == Producer
  }

  /** Moreover no thread is outside a call, so nothing will ever happen again. */
  ghost predicate Deadlocked(s: State) {
    Stranded(s) && forall t :: t in s.pcs ==> s.pcs[t] != Idle
  }

  /** With a single thread, a producer on the overwrite path keeps finding the free list empty. */
  lemma LoneStep(c: Config, s: State, a: Action, p: Tid)
    requires Enabled(s, a) && s.pcs.Keys == {p} && Overwriting(s.pcs[p])
    ensures Apply(c, s, a).free.nodes == s.free.nodes && Apply(c, s, a).pcs.Keys == {p}
  {
    assert a.Advance? ==> a.t == p;
  }

  lemma {:induction false} LoneOverwriter(c: Config, tr: seq<State>, j: nat, i: nat, p: Tid)
    requires IsRun(c, tr) && j < i < |tr| && c.threads == {p}
    requires p in tr[j].pcs && tr[j].pcs[p] == FreeCheck && tr[j].free.nodes == []
    requires forall k :: j < k <= i ==> p in tr[k].pcs && Overwriting(tr[k].pcs[p])
    ensures tr[i].free.nodes == []
    decreases i
  {
    hide *;
    RunThreads(c, tr, i - 1);
    var a := ActionAt(c, tr, i - 1);
    if j == i - 1 {
      CheckStep(c, tr[j], a, p);
    } else {
      LoneOverwriter(c, tr, j, i - 1, p);
      LoneStep(c, tr[i - 1], a, p);
    }
  }

  lemma RunThreads(c: Config, tr: seq<State>, i: nat)
    requires IsRun(c, tr) && i < |tr|
    ensures tr[i].pcs.Keys == c.threads
  {
    RunInv(c, tr, i);
  }

  lemma CheckStep(c: Config, s: State, a: Action, p: Tid)
    requires Enabled(s, a) && s.pcs.Keys == {p} && s.pcs[p] == FreeCheck
    ensures Apply(c, s, a).free.nodes == s.free.nodes
  {
    assert a.Advance? ==> a.t == p;
  }

  /** It takes keep-update mode, a node and two threads. */
  lemma StrandedNeeds(c: Config, s: State)
    requires Reaches(c, Init(c), s) && Stranded(s)
    ensures c.keepUpdate && c.nodes >= 1 && |c.threads| >= 2
    ensures exists p :: p in s.pcs && s.pcs[p] == Wait(Use, Producer)
    ensures forall t :: t in s.pcs && s.pcs[t] != Idle ==> s.pcs[t].Wait? && s.pcs[t].side == Use && s.use.nodes == []
  {
    var tr := RunTo(c, s);
    var i := |tr| - 1;
    var p :| ProducerWaits(s, p);
    RunInv(c, tr, i);
    hide IsRun;
    forall t | t in s.pcs && s.pcs[t] != Idle ensures s.pcs[t].Wait? && s.pcs[t].side == Use && s.use.nodes == [] {
      StandstillOnlyOnEmpty(c, tr, i, t);
    }
    ExclusiveOwnership(c, tr, i);
    assert s.free.nodes[0] in s.free.nodes;
    assert Overwriting(s.pcs[p]);
    var j := OverwriterSawEmpty(c, tr, i, p);
    if |c.threads| <= 1 {
      Single(c.threads, p);
      LoneOverwriter(c, tr, j, i, p);
    }
  }

  lemma Single(ts: set<Tid>, p: Tid)
    requires p in ts && |ts| <= 1
    ensures ts == {p}
  {
    assert |ts - {p}| == 0;
  }

  /** The first k nodes in a producer's hands, the others free, nothing else under way */
  predicate Holding(c: Config, s: State, k: nat) {
    && k <= c.nodes && Quiet(s) && s.pcs == Init(c).pcs
    && View(c, s) == E.Exchange(Iota(c.nodes)[k..], c.nodes - k, c.nodes - k, [], 0, 0, c.keepUpdate, c.block)
    && s.clients.consumers == {} && forall x: NodeId :: x < k ==> x in s.clients.producers
  }

  lemma {:induction false} TakeAll(c: Config, p: Tid, k: nat) returns (s: State)
    requires p in c.threads && k <= c.nodes
    ensures Reaches(c, Init(c), s) && Holding(c, s, k)
  {
    if k == 0 {
      s := Init(c);
      Paths.Stay(Steps(c), s);
      assert Iota(c.nodes)[0..] == Iota(c.nodes);
    } else {
      var s0 := TakeAll(c, p, k - 1);
      s := RequestNext(c, s0, p);
      assert Iota(c.nodes)[k - 1..][1..] == Iota(c.nodes)[k..];
      assert Iota(c.nodes)[k - 1..][0] == k - 1;
    }
  }

  /** Producer p takes every node, publishes one, finds the free list empty and commits to the use list;
      thread q takes and releases that node. */
  lemma Strand(c: Config, p: Tid, q: Tid) returns (s: State)
    requires p in c.threads && q in c.threads && p != q && c.keepUpdate && c.nodes >= 1
    ensures Reaches(c, Init(c), s) && Quiet(s) && View(c, s) == E.Exchange([0], 1, 1, [], 0, 0, true, c.block)
    ensures s.pcs == Init(c).pcs[p := Wait(Use, Producer)]
  {
    var s1 := TakeAll(c, p, c.nodes);
    assert Iota(c.nodes)[c.nodes..] == [];
    var s2 := PublishNext(c, s1, p, 0);
    assert View(c, s2) == E.Exchange([], 0, 0, [0], 1, 1, true, c.block);
    var s3 := RequestSide(c, s2, p, Use);
    Paths.Trans(Steps(c), Init(c), s2, s3);
    var s4 := ReceiveNext(c, s3, q);
    assert View(c, s4) == E.Exchange([], 0, 0, [], 0, 0, true, c.block);
    s := ReleaseNext(c, s4, q, 0);
  }

  /** In blocking mode the threads outside a call may all come to receive, and wait. */
  lemma {:induction false} JoinIn(c: Config, s: State, idle: set<Tid>) returns (s': State)
    requires Reaches(c, Init(c), s) && Quiet(s) && View(c, s) == E.Exchange([0], 1, 1, [], 0, 0, true, true)
    requires forall t :: t in idle ==> t in s.pcs && s.pcs[t] == Idle
    ensures Reaches(c, Init(c), s') && View(c, s') == View(c, s) && s'.pcs.Keys == s.pcs.Keys
    ensures forall t :: t in s.pcs ==> s'.pcs[t] == if t in idle then Wait(Use, Consumer) else s.pcs[t]
    decreases |idle|
  {
    if idle == {} {
      s' := s;
    } else {
      var t :| t in idle;
      var s1 := ReceiveNext(c, s, t);
      s' := JoinIn(c, s1, idle - {t});
    }
  }

  /** What call granularity hides, and exactly when it can happen.  The producer's emptiness test is not
      under a lock: another thread may take and release every published node before the producer waits,
      which then waits at the empty use list with a node on the free list and nobody in a call able to
      move.  The list need only be in keep-update mode with a node and two threads; whether it blocks makes no
      difference. */
  lemma StrandedIff(c: Config)
    ensures (exists s :: Reaches(c, Init(c), s) && Stranded(s))
       <==> c.keepUpdate && c.nodes >= 1 && |c.threads| >= 2
  {
    if s :| Reaches(c, Init(c), s) && Stranded(s) {
      StrandedNeeds(c, s);
    }
    if c.keepUpdate && c.nodes >= 1 && |c.threads| >= 2 {
      var p, q := TwoThreads(c.threads);
      var s := Strand(c, p, q);
      assert ProducerWaits(s, p) && Stranded(s);
    }
  }

  lemma TwoThreads(ts: set<Tid>) returns (p: Tid, q: Tid)
    requires |ts| >= 2
    ensures p in ts && q in ts && p != q
  {
    p :| p in ts;
    assert |ts - {p}| >= 1;
    q :| q in ts - {p};
  }

  /** Without blocking there is always a thread elsewhere than at the use list's wait, or a node on it. */
  ghost predicate SomebodyElsewhere(s: State) {
    s.use.nodes != [] || exists t :: Elsewhere(s, t)
  }

  predicate Elsewhere(s: State, t: Tid) {
    t in s.pcs && !(s.pcs[t].Wait? && s.pcs[t].side == Use)
  }

  lemma {:induction false} NonBlockingRun(c: Config, tr: seq<State>, i: nat)
    requires IsRun(c, tr) && i < |tr| && !c.block && c.threads != {}
    ensures SomebodyElsewhere(tr[i])
  {
    if i == 0 {
      var t :| t in c.threads;
      assert Elsewhere(tr[0], t);
    } else {
      hide IsRun;
      NonBlockingRun(c, tr, i - 1);
      var a := ActionAt(c, tr, i - 1);
      NonBlockingStep(c, tr[i - 1], a);
    }
  }

  lemma NonBlockingStep(c: Config, s: State, a: Action)
    requires Enabled(s, a) && SomebodyElsewhere(s) && !c.block
    ensures SomebodyElsewhere(Apply(c, s, a))
  {
    var s' := Apply(c, s, a);
    match a
    case Start(t, pc) => assert Elsewhere(s', t);
    case Advance(t) =>
      assert Elsewhere(s', t) || s'.use.nodes != [];
    case Fill(_, _) =>
      if s.use.nodes == [] {
        var t :| Elsewhere(s, t);
        assert Elsewhere(s', t);
      }
  }

  /** That every thread ends up waiting for good takes blocking mode as well. */
  lemma DeadlockNeeds(c: Config, s: State)
    requires Reaches(c, Init(c), s) && Deadlocked(s)
    ensures c.keepUpdate && c.block && c.nodes >= 1 && |c.threads| >= 2
  {
    StrandedNeeds(c, s);
    var tr := RunTo(c, s);
    if !c.block {
      NonBlockingRun(c, tr, |tr| - 1);
    }
  }

  lemma Deadlock(c: Config) returns (s: State)
    requires c.keepUpdate && c.block && c.nodes >= 1 && |c.threads| >= 2
    ensures Reaches(c, Init(c), s) && Deadlocked(s)
  {
    hide Reaches;
    var p, q := TwoThreads(c.threads);
    var s1 := Strand(c, p, q);
    s := JoinIn(c, s1, c.threads - {p});
    assert ProducerWaits(s, p);
  }

  lemma DeadlockedIff(c: Config)
    ensures (exists s :: Reaches(c, Init(c), s) && Deadlocked(s))
       <==> c.keepUpdate && c.block && c.nodes >= 1 && |c.threads| >= 2
  {
    hide Reaches, Deadlocked;
    if s :| Reaches(c, Init(c), s) && Deadlocked(s) {
      DeadlockNeeds(c, s);
    }
    if c.keepUpdate && c.block && c.nodes >= 1 && |c.threads| >= 2 {
      var s := Deadlock(c);
    }
  }

  /** Two nodes, two threads: producer and consumer both wait on the use list, a node being free. */
  lemma BothLeftWaiting(c: Config) returns (s: State)
    requires c == Config(2, true, true, {0, 1})
    ensures Reaches(c, Init(c), s) && Deadlocked(s)
    ensures s.pcs == map[0 := Wait(Use, Producer), 1 := Wait(Use, Consumer)]
  {
    var s1 := Strand(c, 0, 1);
    s := ReceiveNext(c, s1, 1);
    assert ProducerWaits(s, 0);
  }
}
