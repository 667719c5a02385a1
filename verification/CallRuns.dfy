/** How the two views of the node exchange fit together: a call made while no locked section is occupied
    and run without interruption does what the call-granularity model says. */
module CallRuns {
  import Paths
  import opened NodeProtocol
  import E = Exchange

  function View(c: Config, s: State): E.Exchange<NodeId> {
    E.Exchange(s.free.nodes, s.free.cnt, s.free.sem, s.use.nodes, s.use.cnt, s.use.sem, c.keepUpdate, c.block)
  }

  /** Thread t carries out a get on `side` from its semaphore wait on. */
  function Got(c: Config, s: State, t: Tid, side: Side, r: Role): State
    requires s.Of(side).nodes != [] && s.Of(side).sem > 0
  {
    var h := s.Of(side);
    var h' := Half(h.nodes[1..], h.cnt - 1, h.sem - 1, Unlocked);
    State(if side == Free then h' else s.free, if side == Use then h' else s.use, s.pcs[t := Idle],
          StepClients(s.clients, s.free.nodes, s.use.nodes, GetUnlock(side, r, h.nodes[0])),
          StepLog(s.log, s.use.nodes, GetTake(side, r)))
  }

  /** Thread t carries out a put on `side` from its lock on. */
  function PutDone(s: State, t: Tid, side: Side, x: NodeId): State {
    var h := s.Of(side);
    var h' := Half(h.nodes + [x], h.cnt + 1, h.sem + 1, Unlocked);
    State(if side == Free then h' else s.free, if side == Use then h' else s.use, s.pcs[t := Idle],
          s.clients, StepLog(s.log, s.use.nodes, PutLink(side, x)))
  }

  lemma Act(c: Config, s: State, s1: State, a: Action) returns (s2: State)
    requires Reaches(c, s, s1) && Enabled(s1, a)
    ensures s2 == Apply(c, s1, a) && Reaches(c, s, s2)
  {
    s2 := Apply(c, s1, a);
    assert Next(c, s1, s2);
    Paths.Then(Steps(c), s, s1, s2);
  }

  lemma Walk(c: Config, s: State, s1: State, t: Tid) returns (s2: State)
    requires Reaches(c, s, s1) && t in s1.pcs && Ready(s1, s1.pcs[t])
    ensures s2 == Step(c, s1, t) && Reaches(c, s, s2)
  {
    s2 := Act(c, s, s1, Advance(t));
  }

  /** A thread begins a call. */
  lemma Begin(c: Config, s: State, t: Tid, pc: Pc) returns (s': State)
    requires t in s.pcs && s.pcs[t] == Idle && MayStart(s.clients, pc)
    ensures s' == Apply(c, s, Start(t, pc)) && Reaches(c, s, s')
  {
    Paths.Stay(Steps(c), s);
    s' := Act(c, s, s, Start(t, pc));
  }

  /** Past the wait and, on the use list, past the recheck. */
  lemma WaitRun(c: Config, s0: State, s: State, t: Tid, side: Side, r: Role) returns (s': State)
    requires Reaches(c, s0, s) && t in s.pcs && s.pcs[t] == Wait(side, r)
    requires s.Of(side).nodes != [] && s.Of(side).sem > 0
    ensures Reaches(c, s0, s') && s'.pcs == s.pcs[t := GetLock(side, r)]
    ensures s'.clients == s.clients && s'.log == s.log
    ensures s'.free == if side == Free then s.free.(sem := s.free.sem - 1) else s.free
    ensures s'.use == if side == Use then s.use.(sem := s.use.sem - 1) else s.use
  {
    hide Reaches;
    s' := Walk(c, s0, s, t);
    if side == Use {
      assert s'.pcs == s.pcs[t := Recheck(r)];
      s' := Walk(c, s0, s', t);
    }
  }

  /** Lock and take. */
  lemma TakeRun(c: Config, s0: State, s: State, t: Tid, side: Side, r: Role) returns (s': State)
    requires Reaches(c, s0, s) && t in s.pcs && s.pcs[t] == GetLock(side, r)
    requires s.Of(side).nodes != [] && s.Of(side).lock == Unlocked
    ensures Reaches(c, s0, s') && s'.pcs == s.pcs[t := GetCount(side, r, s.Of(side).nodes[0])]
    ensures s'.clients == s.clients && s'.log == StepLog(s.log, s.use.nodes, GetTake(side, r))
    ensures s'.free == if side == Free then s.free.(nodes := s.free.nodes[1..], lock := LockedBy(t)) else s.free
    ensures s'.use == if side == Use then s.use.(nodes := s.use.nodes[1..], lock := LockedBy(t)) else s.use
  {
    hide Reaches;
    var s1 := Walk(c, s0, s, t);
    assert s1.pcs == s.pcs[t := GetTake(side, r)];
    s' := Walk(c, s0, s1, t);
  }

  /** Count, unlock and return. */
  lemma ReturnRun(c: Config, s0: State, s: State, t: Tid, side: Side, r: Role, x: NodeId) returns (s': State)
    requires Reaches(c, s0, s) && t in s.pcs && s.pcs[t] == GetCount(side, r, x)
    ensures Reaches(c, s0, s') && s'.pcs == s.pcs[t := Idle]
    ensures s'.clients == StepClients(s.clients, [], [], GetUnlock(side, r, x)) && s'.log == s.log
    ensures s'.free == if side == Free then s.free.(cnt := s.free.cnt - 1, lock := Unlocked) else s.free
    ensures s'.use == if side == Use then s.use.(cnt := s.use.cnt - 1, lock := Unlocked) else s.use
  {
    hide Reaches;
    var s1 := Walk(c, s0, s, t);
    assert s1.pcs == s.pcs[t := GetUnlock(side, r, x)];
    s' := Walk(c, s0, s1, t);
  }

  lemma GetRun(c: Config, s0: State, s: State, t: Tid, side: Side, r: Role)
    requires Reaches(c, s0, s) && t in s.pcs && s.pcs[t] == Wait(side, r)
    requires s.Of(side).nodes != [] && s.Of(side).sem > 0 && s.Of(side).lock == Unlocked
    ensures Reaches(c, s0, Got(c, s, t, side, r))
  {
    hide Reaches;
    var s1 := WaitRun(c, s0, s, t, side, r);
    var s2 := TakeRun(c, s0, s1, t, side, r);
    var s3 := ReturnRun(c, s0, s2, t, side, r, s.Of(side).nodes[0]);
    assert s3.pcs == s.pcs[t := Idle];
    assert s3 == Got(c, s, t, side, r);
  }

  // The statements of a put, one by one

  function WithHalf(s: State, side: Side, h: Half): State {
    if side == Free then s.(free := h) else s.(use := h)
  }

  lemma PutLockStep(c: Config, s: State, t: Tid, side: Side, x: NodeId)
    requires t in s.pcs && s.pcs[t] == PutLock(side, x)
    ensures Step(c, s, t) == WithHalf(s, side, s.Of(side).(lock := LockedBy(t))).(pcs := s.pcs[t := PutLink(side, x)])
  {
  }

  lemma PutLinkStep(c: Config, s: State, t: Tid, side: Side, x: NodeId)
    requires t in s.pcs && s.pcs[t] == PutLink(side, x)
    ensures Step(c, s, t) == WithHalf(s, side, s.Of(side).(nodes := s.Of(side).nodes + [x])).(
                               pcs := s.pcs[t := PutCount(side)], log := StepLog(s.log, s.use.nodes, PutLink(side, x)))
  {
  }

  lemma PutCountStep(c: Config, s: State, t: Tid, side: Side)
    requires t in s.pcs && s.pcs[t] == PutCount(side)
    ensures Step(c, s, t)
         == WithHalf(s, side, s.Of(side).(cnt := s.Of(side).cnt + 1)).(pcs := s.pcs[t := PutPost(side)])
  {
  }

  lemma PutPostStep(c: Config, s: State, t: Tid, side: Side)
    requires t in s.pcs && s.pcs[t] == PutPost(side)
    ensures Step(c, s, t)
         == WithHalf(s, side, s.Of(side).(sem := s.Of(side).sem + 1)).(pcs := s.pcs[t := PutUnlock(side)])
  {
  }

  lemma PutUnlockStep(c: Config, s: State, t: Tid, side: Side)
    requires t in s.pcs && s.pcs[t] == PutUnlock(side)
    ensures Step(c, s, t) == WithHalf(s, side, s.Of(side).(lock := Unlocked)).(pcs := s.pcs[t := Idle])
  {
  }

  /** Lock and link */
  lemma LinkRun(c: Config, s0: State, s: State, t: Tid, side: Side, x: NodeId) returns (s': State)
    requires Reaches(c, s0, s) && t in s.pcs && s.pcs[t] == PutLock(side, x) && s.Of(side).lock == Unlocked
    ensures Reaches(c, s0, s')
    ensures s' == WithHalf(s, side, s.Of(side).(nodes := s.Of(side).nodes + [x], lock := LockedBy(t))).(
                    pcs := s.pcs[t := PutCount(side)], log := StepLog(s.log, s.use.nodes, PutLink(side, x)))
  {
    hide Reaches, Step, StepLog;
    PutLockStep(c, s, t, side, x);
    var s1 := Walk(c, s0, s, t);
    PutLinkStep(c, s1, t, side, x);
    s' := Walk(c, s0, s1, t);
    assert s'.pcs == s.pcs[t := PutCount(side)];
  }

  /** Count, post and unlock */
  lemma PostRun(c: Config, s0: State, s: State, t: Tid, side: Side) returns (s': State)
    requires Reaches(c, s0, s) && t in s.pcs && s.pcs[t] == PutCount(side)
    ensures Reaches(c, s0, s')
    ensures var h := s.Of(side);
            s' == WithHalf(s, side, Half(h.nodes, h.cnt + 1, h.sem + 1, Unlocked)).(pcs := s.pcs[t := Idle])
  {
    hide Reaches, Step;
    PutCountStep(c, s, t, side);
    var s1 := Walk(c, s0, s, t);
    PutPostStep(c, s1, t, side);
    var s2 := Walk(c, s0, s1, t);
    PutUnlockStep(c, s2, t, side);
    s' := Walk(c, s0, s2, t);
    assert s'.pcs == s.pcs[t := Idle];
  }

  lemma PutRun(c: Config, s0: State, s: State, t: Tid, side: Side, x: NodeId)
    requires Reaches(c, s0, s) && t in s.pcs && s.pcs[t] == PutLock(side, x) && s.Of(side).lock == Unlocked
    ensures Reaches(c, s0, PutDone(s, t, side, x))
  {
    hide Reaches, StepLog;
    var s1 := LinkRun(c, s0, s, t, side, x);
    var s2 := PostRun(c, s0, s1, t, side);
    assert s2 == PutDone(s, t, side, x);
  }

  /** Nobody is inside a locked section. */
  predicate Quiet(s: State) {
    s.free.lock == Unlocked && s.use.lock == Unlocked
  }

  lemma TokensCovered(c: Config, s: State)
    requires Inv(c, s)
    ensures s.free.sem <= |s.free.nodes| && s.use.sem <= |s.use.nodes|
  {
  }

  /** What a completed get looks like to the call model */
  lemma GotView(c: Config, s: State, t: Tid, side: Side, r: Role)
    requires s.Of(side).nodes != [] && s.Of(side).sem > 0 && Quiet(s) && t in s.pcs
    ensures View(c, Got(c, s, t, side, r)).keepUpdate == c.keepUpdate
    ensures side == Use ==>
      && View(c, Got(c, s, t, side, r)) == E.GetUse(View(c, s)).0 && E.GetUse(View(c, s)).1 == E.Got(s.use.nodes[0])
    ensures side == Free ==>
      && View(c, Got(c, s, t, side, r)) == E.GetFree(View(c, s)).0 && E.GetFree(View(c, s)).1 == E.Got(s.free.nodes[0])
    ensures var x := s.Of(side).nodes[0];
            Got(c, s, t, side, r).clients
              == if r == Producer then s.clients.(producers := s.clients.producers + {x})
                 else s.clients.(consumers := s.clients.consumers + {x})
    ensures Got(c, s, t, side, r).pcs == s.pcs[t := Idle]
  {
  }

  /** Get_Use_Node up to its wait, or to the NULL of an empty list without blocking */
  lemma ReceiveSide(c: Config, s: State, t: Tid) returns (s': State)
    requires t in s.pcs && s.pcs[t] == Idle
    ensures Reaches(c, s, s')
    ensures s' == s.(pcs := s.pcs[t := if s.use.nodes == [] && !c.block then Idle else Wait(Use, Consumer)])
  {
    hide Reaches;
    var s1 := Begin(c, s, t, UseCheck(Consumer));
    s' := Walk(c, s, s1, t);
    assert s'.pcs == s.pcs[t := if s.use.nodes == [] && !c.block then Idle else Wait(Use, Consumer)];
  }

  /** Get_Use_Node from thread t: the call model's outcome is what an uninterrupted run comes to. */
  lemma ReceiveRun(c: Config, s: State, t: Tid) returns (s': State)
    requires Inv(c, s) && Quiet(s) && t in s.pcs && s.pcs[t] == Idle
    ensures Reaches(c, s, s') && View(c, s') == E.GetUse(View(c, s)).0
    ensures match E.GetUse(View(c, s)).1
            case Got(x) => s'.pcs == s.pcs && s'.clients == s.clients.(consumers := s.clients.consumers + {x})
            case Null => s' == s
            case Blocks => s' == s.(pcs := s.pcs[t := Wait(Use, Consumer)]) && !Ready(s', s'.pcs[t])
  {
    hide Inv, Reaches, Got;
    TokensCovered(c, s);
    assert s.pcs[t := Idle] == s.pcs;
    if E.GetUse(View(c, s)).1.Got? {
      s' := ReceiveGot(c, s, t);
    } else {
      s' := ReceiveSide(c, s, t);
    }
  }

  lemma ReceiveGot(c: Config, s: State, t: Tid) returns (s': State)
    requires Quiet(s) && t in s.pcs && s.pcs[t] == Idle && s.use.nodes != [] && s.use.sem > 0
    ensures Reaches(c, s, s') && View(c, s') == E.GetUse(View(c, s)).0 && s'.pcs == s.pcs
    ensures s'.clients == s.clients.(consumers := s.clients.consumers + {s.use.nodes[0]})
  {
    hide Reaches, Got, E.GetUse, E.GetFree;
    var s1 := ReceiveSide(c, s, t);
    GotView(c, s1, t, Use, Consumer);
    GetRun(c, s, s1, t, Use, Consumer);
    s' := Got(c, s1, t, Use, Consumer);
    assert s'.pcs == s.pcs;
  }

  /** Get_Free_Node from thread t, up to the semaphore it waits at: the use list's in keep-update mode
      when the free list is empty. */
  lemma RequestSide(c: Config, s: State, t: Tid, side: Side) returns (s': State)
    requires t in s.pcs && s.pcs[t] == Idle
    requires side == if s.free.nodes == [] && c.keepUpdate then Use else Free
    requires side == Use && s.use.nodes == [] ==> c.block
    ensures Reaches(c, s, s') && s' == s.(pcs := s.pcs[t := Wait(side, Producer)])
  {
    hide Reaches;
    var s1 := Begin(c, s, t, FreeCheck);
    s' := Walk(c, s, s1, t);
    if side == Use {
      assert s'.pcs == s.pcs[t := UseCheck(Producer)];
      s' := Walk(c, s, s', t);
    }
    assert s'.pcs == s.pcs[t := Wait(side, Producer)];
  }

  /** Get_Free_Node in keep-update mode without blocking, when both lists are empty. */
  lemma RequestNull(c: Config, s: State, t: Tid)
    requires t in s.pcs && s.pcs[t] == Idle
    requires s.free.nodes == [] && c.keepUpdate && s.use.nodes == [] && !c.block
    ensures Reaches(c, s, s.(pcs := s.pcs[t := Idle]))
  {
    hide Reaches;
    var s0 := Begin(c, s, t, FreeCheck);
    var s1 := Walk(c, s, s0, t);
    assert s1.pcs == s.pcs[t := UseCheck(Producer)];
    var s2 := Walk(c, s, s1, t);
    assert s2.pcs == s.pcs[t := Idle];
  }

  lemma RequestGot(c: Config, s: State, t: Tid, side: Side) returns (s': State)
    requires Quiet(s) && t in s.pcs && s.pcs[t] == Idle
    requires side == if s.free.nodes == [] && c.keepUpdate then Use else Free
    requires s.Of(side).nodes != [] && s.Of(side).sem > 0
    ensures Reaches(c, s, s') && s' == Got(c, s, t, side, Producer)
  {
    hide Reaches;
    var s1 := RequestSide(c, s, t, side);
    GetRun(c, s, s1, t, side, Producer);
    s' := Got(c, s1, t, side, Producer);
    assert s'.pcs == s.pcs[t := Idle];
  }

  /** Get_Free_Node from thread t, overwrite path included. */
  lemma RequestRun(c: Config, s: State, t: Tid) returns (s': State)
    requires Inv(c, s) && Quiet(s) && t in s.pcs && s.pcs[t] == Idle
    ensures s.free.nodes == [] ==> s.free.sem == 0
    ensures Reaches(c, s, s') && View(c, s') == E.GetFree(View(c, s)).0
    ensures match E.GetFree(View(c, s)).1
            case Got(x) => s'.pcs == s.pcs && s'.clients == s.clients.(producers := s.clients.producers + {x})
            case Null => s' == s
            case Blocks =>
              t in s'.pcs && s'.pcs[t].Wait? && s' == s.(pcs := s.pcs[t := s'.pcs[t]]) && !Ready(s', s'.pcs[t])
  {
    TokensCovered(c, s);
    hide Inv, Reaches, Got;
    assert s.pcs[t := Idle] == s.pcs;
    var side := if s.free.nodes == [] && c.keepUpdate then Use else Free;
    match E.GetFree(View(c, s)).1
    case Null =>
      RequestNull(c, s, t);
      s' := s;
    case Blocks => s' := RequestSide(c, s, t, side);
    case Got(x) =>
      GotView(c, s, t, side, Producer);
      s' := RequestGot(c, s, t, side);
  }

  /** Put_Use_Node by a producer and Put_Free_Node by a consumer, each holding x. */
  lemma PublishRun(c: Config, s: State, t: Tid, x: NodeId) returns (s': State)
    requires Inv(c, s) && Quiet(s) && t in s.pcs && s.pcs[t] == Idle && x in s.clients.producers
    ensures Reaches(c, s, s') && View(c, s') == E.PutUse(View(c, s), x) && s'.pcs == s.pcs
    ensures s'.clients == s.clients.(producers := s.clients.producers - {x})
  {
    hide Inv, Reaches, StepLog;
    var s1 := Begin(c, s, t, PutLock(Use, x));
    PutRun(c, s, s1, t, Use, x);
    s' := PutDone(s1, t, Use, x);
    assert s'.pcs == s.pcs;
  }

  lemma ReleaseRun(c: Config, s: State, t: Tid, x: NodeId) returns (s': State)
    requires Inv(c, s) && Quiet(s) && t in s.pcs && s.pcs[t] == Idle && x in s.clients.consumers
    ensures Reaches(c, s, s') && View(c, s') == E.PutFree(View(c, s), x) && s'.pcs == s.pcs
    ensures s'.clients == s.clients.(consumers := s.clients.consumers - {x})
  {
    hide Inv, Reaches, StepLog;
    var s1 := Begin(c, s, t, PutLock(Free, x));
    PutRun(c, s, s1, t, Free, x);
    s' := PutDone(s1, t, Free, x);
    assert s'.pcs == s.pcs;
  }
}
