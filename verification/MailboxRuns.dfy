/** How the two views of a mailbox fit together: a write or a read that runs without interruption does
    what MailboxSpec says, from any state the fine-grained protocol can be in; and what successive
    uninterrupted reads then come to. */
module MailboxRuns {
  import Paths
  import opened MailboxProtocol
  import opened PoolSpec
  import Sums
  import M = MailboxSpec

  /** Something malloc may return */
  function Above(s: seq<Ptr>): (p: Ptr)
    ensures forall x :: x in s ==> x < p
  {
    if s == [] then 0
    else
      var p := Above(s[1..]);
      assert forall x :: x in s ==> x == s[0] || x in s[1..];
      if p <= s[0] then s[0] + 1 else p
  }

  function Unused(pool: Pool<Ptr>): (p: Ptr)
    ensures p !in pool.use && p !in pool.free
  {
    assert forall x :: x in pool.use || x in pool.free ==> x in pool.use + pool.free;
    Above(pool.use + pool.free)
  }

  lemma Act(s0: State, s: State, a: Action) returns (s': State)
    requires Reaches(s0, s) && Enabled(s, a)
    ensures s' == Apply(s, a) && Reaches(s0, s')
  {
    s' := Apply(s, a);
    assert Next(s, s');
    Paths.Then(Next, s0, s, s');
  }

  lemma Walk(s0: State, s: State, t: Tid) returns (s': State)
    requires Reaches(s0, s) && t in s.pcs && Ready(s, s.pcs[t])
    ensures s' == Step(s, t, Unused(s.pool)) && Reaches(s0, s')
  {
    s' := Act(s0, s, Advance(t, Unused(s.pool)));
  }

  /** A thread begins a call. */
  lemma Begin(s: State, t: Tid, pc: Pc) returns (s': State)
    requires t in s.pcs && s.pcs[t] == Idle && MayStart(s.ctls, pc)
    ensures s' == s.(pcs := s.pcs[t := pc]) && Reaches(s, s')
  {
    Paths.Stay(Next, s);
    s' := Act(s, s, Start(t, pc));
  }

  /** The laws hold wherever steps lead. */
  lemma {:induction false} InvAlong(tr: seq<State>, i: nat)
    requires Paths.IsPath(Next, tr) && i < |tr| && Inv(tr[0])
    ensures Inv(tr[i])
  {
    hide Inv, Next;
    if i > 0 {
      InvAlong(tr, i - 1);
      InvNext(tr[i - 1], tr[i]);
    }
  }

  lemma InvNext(s: State, s': State)
    requires Inv(s) && Next(s, s')
    ensures Inv(s')
  {
    hide Inv;
    var a :| Enabled(s, a) && s' == Apply(s, a);
    ActionInv(s, a);
  }

  lemma InvReaches(s: State, s': State)
    requires Inv(s) && Reaches(s, s')
    ensures Inv(s')
  {
    hide Inv;
    var tr :| Paths.IsPath(Next, tr) && tr[0] == s && tr[|tr| - 1] == s';
    InvAlong(tr, |tr| - 1);
  }

  /** The queue after an uninterrupted write */
  function Written(q: Queue, mem: map<Ptr, Content>, m: Msg): Queue {
    if |q.live| == M.CAPACITY then Append(Front(q, mem, Overwritten), m) else Append(q, m)
  }

  /** write_msg from its lookup to its eviction */
  lemma EvictRun(s: State, t: Tid, to: Key, m: Msg) returns (s': State)
    requires t in s.pcs && s.pcs[t] == Find(to, m)
    requires to in s.queues && to.box in s.ctls && s.ctls[to.box].lock == Unlocked
    ensures Reaches(s, s') && s'.pcs == s.pcs[t := Store(to, m)]
    ensures s'.queues == if Full(s.queues, to) then s.queues[to := Front(s.queues[to], s.mem, Overwritten)]
                         else s.queues
    ensures var h := s.ctls[to.box];
            var drops := if Full(s.queues, to) then h.drops + 1 else h.drops;
            s'.ctls == s.ctls[to.box := Ctl(h.sem, LockedBy(t), drops, h.nulls)]
    ensures s'.pool == (if Full(s.queues, to) then Free(s.pool, s.queues[to].live[0]) else s.pool)
    ensures s'.mem == s.mem && s'.abandoned == s.abandoned
  {
    hide Free, Reaches, Step, Full, Front;
    StayedReaches(s);
    LookupStep(s, t, to, m);
    var s1 := Walk(s, s, t);
    EnterStep(s1, t, to, m);
    var s2 := Walk(s, s1, t);
    EvictStep(s2, t, to, m);
    s' := Walk(s, s2, t);
    assert s'.pcs == s.pcs[t := Store(to, m)];
  }

  lemma LookupStep(s: State, t: Tid, to: Key, m: Msg)
    requires t in s.pcs && s.pcs[t] == Find(to, m) && to in s.queues && to.box in s.ctls
    ensures forall f :: Step(s, t, f) == s.(pcs := s.pcs[t := WriteLock(to, m)])
  {
    assert s.ctls[to.box := s.ctls[to.box]] == s.ctls;
  }

  lemma EnterStep(s: State, t: Tid, to: Key, m: Msg)
    requires t in s.pcs && s.pcs[t] == WriteLock(to, m) && to.box in s.ctls
    ensures forall f :: Step(s, t, f) == s.(pcs := s.pcs[t := Evict(to, m)],
            ctls := s.ctls[to.box := s.ctls[to.box].(lock := LockedBy(t))])
  {
  }

  lemma EvictStep(s: State, t: Tid, to: Key, m: Msg)
    requires t in s.pcs && s.pcs[t] == Evict(to, m) && to in s.queues && to.box in s.ctls
    ensures Full(s.queues, to) ==> s.queues[to].live != []
    ensures forall f :: Step(s, t, f) == s.(
              pcs := s.pcs[t := Store(to, m)],
              queues := if Full(s.queues, to) then s.queues[to := Front(s.queues[to], s.mem, Overwritten)]
                        else s.queues,
              ctls := s.ctls[to.box := if Full(s.queues, to) then s.ctls[to.box].(drops := s.ctls[to.box].drops + 1)
                                       else s.ctls[to.box]],
              pool := if Full(s.queues, to) then Free(s.pool, s.queues[to].live[0]) else s.pool)
  {
  }

  /** write_msg from its lookup on */
  lemma WriteRun(s: State, t: Tid, to: Key, m: Msg) returns (s': State)
    requires t in s.pcs && s.pcs[t] == Find(to, m)
    requires to in s.queues && to.box in s.ctls && s.ctls[to.box].lock == Unlocked
    ensures Reaches(s, s') && s'.pcs == s.pcs[t := Idle]
    ensures s'.queues == s.queues[to := Written(s.queues[to], s.mem, m)]
    ensures var h := s.ctls[to.box];
            var drops := if Full(s.queues, to) then h.drops + 1 else h.drops;
            s'.ctls == s.ctls[to.box := Ctl(h.sem + 1, Unlocked, drops, h.nulls)]
    ensures s'.pool == (if Full(s.queues, to) then Free(s.pool, s.queues[to].live[0]) else s.pool)
    ensures s'.mem == s.mem && s'.abandoned == s.abandoned
  {
    hide Free, Reaches, Step;
    var s3 := EvictRun(s, t, to, m);
    StoreStep(s3, t, to, m);
    var s4 := Walk(s, s3, t);
    ReleaseStep(s4, t, to);
    var s5 := Walk(s, s4, t);
    PostStep(s5, t, to);
    s' := Walk(s, s5, t);
    assert s'.pcs == s.pcs[t := Idle];
  }

  lemma StoreStep(s: State, t: Tid, to: Key, m: Msg)
    requires t in s.pcs && s.pcs[t] == Store(to, m) && to in s.queues && to.box in s.ctls
    ensures forall f :: Step(s, t, f) == s.(pcs := s.pcs[t := WriteUnlock(to)],
            queues := s.queues[to := Append(s.queues[to], m)])
  {
    assert s.ctls[to.box := s.ctls[to.box]] == s.ctls;
  }

  lemma ReleaseStep(s: State, t: Tid, to: Key)
    requires t in s.pcs && s.pcs[t] == WriteUnlock(to) && to.box in s.ctls
    ensures forall f :: Step(s, t, f) == s.(pcs := s.pcs[t := Post(to)],
            ctls := s.ctls[to.box := s.ctls[to.box].(lock := Unlocked)])
  {
  }

  lemma PostStep(s: State, t: Tid, to: Key)
    requires t in s.pcs && s.pcs[t] == Post(to) && to.box in s.ctls
    ensures forall f :: Step(s, t, f) == s.(pcs := s.pcs[t := Idle],
            ctls := s.ctls[to.box := s.ctls[to.box].(sem := s.ctls[to.box].sem + 1)])
  {
  }

  lemma Keys(s: State, b: ModuleId)
    requires Inv(s) && b in s.ctls
    ensures forall pri: nat :: pri < M.PRIORITIES ==> Key(b, pri) in s.queues
    ensures M.Shape(AsBox(s, b))
    ensures forall pri: nat :: Key(b, pri) in s.queues ==> pri < M.PRIORITIES
  {
  }

  /** An uninterrupted write is a write on the mailbox as a value: the same box afterwards, and the message
      the full queue gives up goes back to the pool. */
  lemma WriteIsWrite(s: State, t: Tid, to: Key, m: Msg) returns (s': State)
    requires Inv(s) && t in s.pcs && s.pcs[t] == Find(to, m)
    requires to in s.queues && to.box in s.ctls && s.ctls[to.box].lock == Unlocked
    ensures Reaches(s, s') && Inv(s') && s'.pcs == s.pcs[t := Idle] && to.box in s'.ctls
    ensures forall pri: nat :: pri < M.PRIORITIES ==> Key(to.box, pri) in s.queues && Key(to.box, pri) in s'.queues
    ensures to.pri < M.PRIORITIES && M.Shape(AsBox(s, to.box))
    ensures var (box, victim) := M.Write(AsBox(s, to.box), to.pri, m.ptr);
            && AsBox(s', to.box) == box
            && s'.pool == if victim.Dropped? then Free(s.pool, victim.m) else s.pool
  {
    hide Inv, Reaches, Free;
    s' := WriteRun(s, t, to, m);
    InvReaches(s, s');
    Keys(s, to.box);
    Keys(s', to.box);
    WrittenBox(s, s', to, m);
  }

  lemma WrittenBox(s: State, s': State, to: Key, m: Msg)
    requires to.box in s.ctls && to.box in s'.ctls && to in s.queues && to.pri < M.PRIORITIES
    requires forall pri: nat :: pri < M.PRIORITIES ==> Key(to.box, pri) in s.queues && Key(to.box, pri) in s'.queues
    requires M.Shape(AsBox(s, to.box))
    requires s'.queues == s.queues[to := Written(s.queues[to], s.mem, m)]
    requires s'.ctls[to.box].sem == s.ctls[to.box].sem + 1
    ensures AsBox(s', to.box) == M.Write(AsBox(s, to.box), to.pri, m.ptr).0
    ensures AsBox(s, to.box).queues[to.pri] == s.queues[to].live
  {
    assert to == Key(to.box, to.pri);
    var q := s.queues[to].live;
    assert |q| == M.CAPACITY ==> q[1..] + [m.ptr] == s'.queues[to].live;
  }

  /** What a read makes of the queues: the front of the highest non-empty one goes. */
  function Taken(queues: map<Key, Queue>, mem: map<Ptr, Content>, b: ModuleId): map<Key, Queue> {
    var k := PickKey(queues, b);
    if Live(queues, k) then queues[k := Front(queues[k], mem, Delivered)] else queues
  }

  function Seen(queues: map<Key, Queue>, mem: map<Ptr, Content>, b: ModuleId): Fetched {
    var k := PickKey(queues, b);
    if Live(queues, k) then Fetched(Msg(queues[k].live[0], ReadMem(mem, queues[k].live[0]))) else Nothing
  }

  /** Where a reader is between two reads: outside smcf2_recv_msg, or at the top of its message loop */
  function Home(b: ModuleId, auto: bool): Pc {
    if auto then ReadFind(b, true) else Idle
  }

  /** read_msg past its wait, from the lock to the unlock */
  lemma LookRun(s0: State, s: State, t: Tid, b: ModuleId, auto: bool) returns (s': State)
    requires Reaches(s0, s) && t in s.pcs && s.pcs[t] == ReadLock(b, auto) && b in s.ctls
             && s.ctls[b].lock == Unlocked
    ensures Reaches(s0, s') && s'.pool == s.pool && s'.mem == s.mem && s'.abandoned == s.abandoned
    ensures s'.queues == Taken(s.queues, s.mem, b)
    ensures s'.pcs == s.pcs[t := AfterLook(b, auto, Seen(s.queues, s.mem, b))]
    ensures var h := s.ctls[b];
            s'.ctls == s.ctls[b := if Live(s.queues, PickKey(s.queues, b)) then h else h.(nulls := h.nulls + 1)]
  {
    hide Reaches, Step, Taken, Seen, PickKey, Live;
    LockStep(s, t, b, auto);
    var s1 := Walk(s0, s, t);
    LookStep(s1, t, b, auto);
    var s2 := Walk(s0, s1, t);
    UnlockStep(s2, t, b, auto, Seen(s.queues, s.mem, b));
    s' := Walk(s0, s2, t);
    assert s'.pcs == s.pcs[t := AfterLook(b, auto, Seen(s.queues, s.mem, b))];
  }

  /** Where a reader goes from its unlock */
  function AfterLook(b: ModuleId, auto: bool, got: Fetched): Pc {
    match got
    case Nothing => Home(b, auto)
    case Fetched(m) => Process(b, auto, m)
  }

  // The statements of the locked part of read_msg

  lemma LockStep(s: State, t: Tid, b: ModuleId, auto: bool)
    requires t in s.pcs && s.pcs[t] == ReadLock(b, auto) && b in s.ctls
    ensures forall f :: Step(s, t, f) == s.(pcs := s.pcs[t := Look(b, auto)],
            ctls := s.ctls[b := s.ctls[b].(lock := LockedBy(t))])
  {
  }

  lemma LookStep(s: State, t: Tid, b: ModuleId, auto: bool)
    requires t in s.pcs && s.pcs[t] == Look(b, auto) && b in s.ctls
    ensures forall f :: Step(s, t, f) == s.(
              pcs := s.pcs[t := ReadUnlock(b, auto, Seen(s.queues, s.mem, b))], queues := Taken(s.queues, s.mem, b),
              ctls := s.ctls[b := if Live(s.queues, PickKey(s.queues, b)) then s.ctls[b]
                                  else s.ctls[b].(nulls := s.ctls[b].nulls + 1)])
  {
  }

  lemma UnlockStep(s: State, t: Tid, b: ModuleId, auto: bool, got: Fetched)
    requires t in s.pcs && s.pcs[t] == ReadUnlock(b, auto, got) && b in s.ctls
    ensures forall f :: Step(s, t, f) == s.(pcs := s.pcs[t := AfterLook(b, auto, got)],
            ctls := s.ctls[b := s.ctls[b].(lock := Unlocked)])
  {
  }

  /** What becomes of a message that was read: smcf2_recv_msg abandons it, the message loop frees it. */
  function PoolAfter(pool: Pool<Ptr>, auto: bool, out: M.Outcome<Ptr>): Pool<Ptr> {
    if auto && out.Message? then Free(pool, out.m) else pool
  }

  function AbandonedAfter(abandoned: seq<Ptr>, auto: bool, out: M.Outcome<Ptr>): seq<Ptr> {
    if !auto && out.Message? then abandoned + [out.m] else abandoned
  }

  /** One read, by smcf2_recv_msg past its registry checks or by a round of the message loop: an
      uninterrupted one reads the mailbox as a value does.  NULL is counted, and without a token the thread
      stays at its wait. */
  lemma ReadIsRead(s: State, t: Tid, b: ModuleId, auto: bool) returns (s': State)
    requires Inv(s) && t in s.pcs && s.pcs[t] == Home(b, auto) && b in s.ctls && s.ctls[b].lock == Unlocked
    ensures Reaches(s, s') && Inv(s') && b in s'.ctls && s'.ctls[b].lock == Unlocked
    ensures forall pri: nat :: pri < M.PRIORITIES ==> Key(b, pri) in s.queues && Key(b, pri) in s'.queues
    ensures M.Shape(AsBox(s, b)) && AsBox(s', b) == M.ReadShape(AsBox(s, b))
    ensures var out := M.Read(AsBox(s, b)).1;
            && s'.pool == PoolAfter(s.pool, auto, out) && s'.abandoned == AbandonedAfter(s.abandoned, auto, out)
            && s'.mem == s.mem && s'.ctls[b].drops == s.ctls[b].drops
            && s'.ctls[b].nulls == (if out == M.NoMessage then s.ctls[b].nulls + 1 else s.ctls[b].nulls)
            && s'.queues == (if out == M.Waits then s.queues else Taken(s.queues, s.mem, b))
            && (if out == M.Waits then s'.pcs == s.pcs[t := ReadWait(b, auto)] && !Ready(s', s'.pcs[t])
                else s'.pcs == s.pcs)
  {
    hide Inv, Reaches, Step, Ready, Taken, FirstOf, RestOf, Free;
    Keys(s, b);
    var s2 := ArriveRun(s, t, b, auto);
    if s.ctls[b].sem == 0 {
      s' := s2;
      InvReaches(s, s');
    } else {
      s' := FetchRun(s, s2, t, b, auto);
      InvReaches(s, s');
      BoxRead(s, s', b);
      assert s'.pcs == s.pcs[t := Home(b, auto)] == s.pcs;
      Keys(s', b);
    }
  }

  /** What is taken in the protocol is what a read of the value takes. */
  lemma BoxRead(s: State, s': State, b: ModuleId)
    requires b in s.ctls && b in s'.ctls && s.ctls[b].sem > 0 && s'.ctls[b].sem == s.ctls[b].sem - 1
    requires forall pri: nat :: pri < M.PRIORITIES ==> Key(b, pri) in s.queues && Key(b, pri) in s'.queues
    requires QueuesOf(s'.queues, b) == RestOf(QueuesOf(s.queues, b)) && M.Shape(AsBox(s, b))
    ensures AsBox(s', b) == M.ReadShape(AsBox(s, b)) && M.Read(AsBox(s, b)).1 == FirstOf(QueuesOf(s.queues, b))
  {
    assert AsBox(s, b).queues == QueuesOf(s.queues, b) && AsBox(s', b).queues == QueuesOf(s'.queues, b);
  }

  /** Up to the wait, and past it if there is a token */
  lemma ArriveRun(s: State, t: Tid, b: ModuleId, auto: bool) returns (s': State)
    requires t in s.pcs && s.pcs[t] == Home(b, auto) && b in s.ctls
    ensures Reaches(s, s')
    ensures if s.ctls[b].sem == 0 then s' == s.(pcs := s.pcs[t := ReadWait(b, auto)]) && !Ready(s', s'.pcs[t])
            else s' == s.(pcs := s.pcs[t := ReadLock(b, auto)],
                          ctls := s.ctls[b := s.ctls[b].(sem := s.ctls[b].sem - 1)])
  {
    hide Reaches, Step;
    var s1 := FindRun(s, t, b, auto);
    FindStep(s1, t, b, auto);
    s' := Walk(s, s1, t);
    assert s' == s.(pcs := s.pcs[t := ReadWait(b, auto)]);
    if s.ctls[b].sem > 0 {
      WaitStep(s', t, b, auto);
      s' := Walk(s, s', t);
      assert s'.pcs == s.pcs[t := ReadLock(b, auto)];
    }
  }

  lemma FindStep(s: State, t: Tid, b: ModuleId, auto: bool)
    requires t in s.pcs && s.pcs[t] == ReadFind(b, auto) && b in s.ctls
    ensures forall f :: Step(s, t, f) == s.(pcs := s.pcs[t := ReadWait(b, auto)])
  {
    assert s.ctls[b := s.ctls[b]] == s.ctls;
  }

  lemma WaitStep(s: State, t: Tid, b: ModuleId, auto: bool)
    requires t in s.pcs && s.pcs[t] == ReadWait(b, auto) && b in s.ctls && s.ctls[b].sem > 0
    ensures forall f :: Step(s, t, f) == s.(pcs := s.pcs[t := ReadLock(b, auto)],
            ctls := s.ctls[b := s.ctls[b].(sem := s.ctls[b].sem - 1)])
  {
  }

  lemma FindRun(s: State, t: Tid, b: ModuleId, auto: bool) returns (s': State)
    requires t in s.pcs && s.pcs[t] == Home(b, auto) && b in s.ctls
    ensures Reaches(s, s') && s' == s.(pcs := s.pcs[t := ReadFind(b, auto)])
  {
    hide Reaches, Step;
    if auto {
      StayedReaches(s);
      s' := s;
      assert s.pcs[t := ReadFind(b, true)] == s.pcs;
    } else {
      s' := Begin(s, t, ReadFind(b, false));
    }
  }

  /** From past the wait to the end of the call or round */
  lemma FetchRun(s0: State, s: State, t: Tid, b: ModuleId, auto: bool) returns (s': State)
    requires Reaches(s0, s) && t in s.pcs && s.pcs[t] == ReadLock(b, auto) && b in s.ctls
             && s.ctls[b].lock == Unlocked
    requires forall pri: nat :: pri < M.PRIORITIES ==> Key(b, pri) in s.queues
    ensures Reaches(s0, s') && s'.pcs == s.pcs[t := Home(b, auto)] && s'.mem == s.mem
    ensures s'.queues == Taken(s.queues, s.mem, b)
    ensures b in s'.ctls && s'.ctls[b].lock == Unlocked && s'.ctls[b].sem == s.ctls[b].sem
            && s'.ctls[b].drops == s.ctls[b].drops
    ensures forall pri: nat :: pri < M.PRIORITIES ==> Key(b, pri) in s'.queues
    ensures QueuesOf(s'.queues, b) == RestOf(QueuesOf(s.queues, b))
    ensures var out := FirstOf(QueuesOf(s.queues, b));
            && s'.pool == PoolAfter(s.pool, auto, out) && s'.abandoned == AbandonedAfter(s.abandoned, auto, out)
            && s'.ctls[b].nulls == (if out == M.NoMessage then s.ctls[b].nulls + 1 else s.ctls[b].nulls)
  {
    hide Reaches, Step, Taken, Seen, Front, Free, FirstOf, RestOf, Live, PickKey;
    s' := LookRun(s0, s, t, b, auto);
    TakenBox(s.queues, s.mem, b);
    if s'.pcs[t].Process? { s' := ReturnRun(s0, s', t, b, auto); }
    assert s'.pcs == s.pcs[t := Home(b, auto)];
  }

  /** What follows a message: smcf2_recv_msg returns, the message loop frees it and goes on. */
  lemma ReturnRun(s0: State, s: State, t: Tid, b: ModuleId, auto: bool) returns (s': State)
    requires Reaches(s0, s) && t in s.pcs && s.pcs[t].Process? && s.pcs[t].auto == auto && s.pcs[t].box == b
    ensures Reaches(s0, s') && s'.pcs == s.pcs[t := Home(b, auto)]
    ensures s'.queues == s.queues && s'.ctls == s.ctls && s'.mem == s.mem
    ensures var out := M.Message(s.pcs[t].m.ptr);
            s'.pool == PoolAfter(s.pool, auto, out) && s'.abandoned == AbandonedAfter(s.abandoned, auto, out)
  {
    hide Reaches, Free;
    s' := Walk(s0, s, t);
    assert s'.queues == s.queues && s'.ctls == s.ctls;
    if auto {
      assert s'.pcs == s.pcs[t := FreeMsg(b, s.pcs[t].m)];
      s' := Walk(s0, s', t);
      assert s'.queues == s.queues && s'.ctls == s.ctls;
    }
  }

  function QueuesOf(queues: map<Key, Queue>, b: ModuleId): (qs: seq<seq<Ptr>>)
    requires forall pri: nat :: pri < M.PRIORITIES ==> Key(b, pri) in queues
    ensures |qs| == 3
  {
    [queues[Key(b, 0)].live, queues[Key(b, 1)].live, queues[Key(b, 2)].live]
  }

  /** The first message in read order, and what is left without it */
  function FirstOf(qs: seq<seq<Ptr>>): M.Outcome<Ptr>
    requires |qs| == 3
  {
    if qs[0] != [] then M.Message(qs[0][0]) else if qs[1] != [] then M.Message(qs[1][0])
    else if qs[2] != [] then M.Message(qs[2][0]) else M.NoMessage
  }

  function RestOf(qs: seq<seq<Ptr>>): seq<seq<Ptr>>
    requires |qs| == 3
  {
    if qs[0] != [] then [qs[0][1..], qs[1], qs[2]] else if qs[1] != [] then [qs[0], qs[1][1..], qs[2]]
    else if qs[2] != [] then [qs[0], qs[1], qs[2][1..]] else qs
  }

  lemma TakenBox(queues: map<Key, Queue>, mem: map<Ptr, Content>, b: ModuleId)
    requires forall pri: nat :: pri < M.PRIORITIES ==> Key(b, pri) in queues
    ensures forall pri: nat :: pri < M.PRIORITIES ==> Key(b, pri) in Taken(queues, mem, b)
    ensures QueuesOf(Taken(queues, mem, b), b) == RestOf(QueuesOf(queues, b))
    ensures Live(queues, PickKey(queues, b)) <==> FirstOf(QueuesOf(queues, b)) != M.NoMessage
    ensures match Seen(queues, mem, b)
            case Nothing => FirstOf(QueuesOf(queues, b)) == M.NoMessage
            case Fetched(m) => FirstOf(QueuesOf(queues, b)) == M.Message(m.ptr)
  {
  }

  // ----- draining -----

  /** A queue all of whose messages have been delivered, each with what memory says */
  function Emptied(q: Queue, mem: map<Ptr, Content>): Queue {
    q.(live := [], removed := q.removed + All(q.live, mem))
  }

  function All(live: seq<Ptr>, mem: map<Ptr, Content>): (rs: seq<Removal>) {
    seq(|live|, i requires 0 <= i < |live| => Removal(ReadMem(mem, live[i]), Delivered))
  }

  /** Delivering one message first makes no difference. */
  lemma FrontEmptied(q: Queue, mem: map<Ptr, Content>)
    requires q.live != []
    ensures Emptied(Front(q, mem, Delivered), mem) == Emptied(q, mem)
  {
    assert All(q.live, mem) == [Removal(ReadMem(mem, q.live[0]), Delivered)] + All(q.live[1..], mem);
  }

  /** All three queues of b have been emptied. */
  ghost predicate BoxEmptied(queues: map<Key, Queue>, queues': map<Key, Queue>, mem: map<Ptr, Content>, b: ModuleId) {
    forall pri: nat :: pri < M.PRIORITIES ==>
      Key(b, pri) in queues && Key(b, pri) in queues' && queues'[Key(b, pri)] == Emptied(queues[Key(b, pri)], mem)
  }

  lemma EmptiedOn(queues: map<Key, Queue>, queues': map<Key, Queue>, mem: map<Ptr, Content>, b: ModuleId)
    requires BoxEmptied(Taken(queues, mem, b), queues', mem, b)
    requires forall pri: nat :: pri < M.PRIORITIES ==> Key(b, pri) in queues
    ensures BoxEmptied(queues, queues', mem, b)
  {
    hide Taken, Emptied;
    forall pri: nat | pri < M.PRIORITIES ensures queues'[Key(b, pri)] == Emptied(queues[Key(b, pri)], mem) {
      TakenEmptied(queues, mem, b, Key(b, pri));
    }
  }

  lemma TakenEmptied(queues: map<Key, Queue>, mem: map<Ptr, Content>, b: ModuleId, k: Key)
    requires k in queues
    ensures k in Taken(queues, mem, b) && Emptied(Taken(queues, mem, b)[k], mem) == Emptied(queues[k], mem)
  {
    if k == PickKey(queues, b) && queues[k].live != [] { FrontEmptied(queues[k], mem); }
  }

  /** The mailbox of b is there and in nobody's hands, and t is about to read it. */
  ghost predicate ReaderAt(s: State, t: Tid, b: ModuleId, auto: bool) {
    Inv(s) && t in s.pcs && s.pcs[t] == Home(b, auto) && b in s.ctls && s.ctls[b].lock == Unlocked
  }

  /** What has been read, and what has become of it, after reading `order` */
  ghost predicate Got(s: State, s': State, auto: bool, order: seq<Ptr>) {
    && s'.pool == (if auto then FreeAll(s.pool, order) else s.pool)
    && s'.abandoned == (if auto then s.abandoned else s.abandoned + order)
  }

  lemma GotMore(s: State, s1: State, s2: State, auto: bool, p: Ptr, rest: seq<Ptr>)
    requires s1.pool == PoolAfter(s.pool, auto, M.Message(p))
    requires s1.abandoned == AbandonedAfter(s.abandoned, auto, M.Message(p))
    requires Got(s1, s2, auto, rest)
    ensures Got(s, s2, auto, [p] + rest)
  {
    if auto { FreeFirst(s.pool, p, rest); }
  }

  lemma {:induction false} FreeFirst(pool: Pool<Ptr>, p: Ptr, rest: seq<Ptr>)
    ensures FreeAll(pool, [p] + rest) == FreeAll(Free(pool, p), rest)
    decreases |rest|
  {
    var ps := [p] + rest;
    if rest == [] {
      assert ps[..0] == [];
    } else {
      assert ps[..|ps| - 1] == [p] + rest[..|rest| - 1];
      FreeFirst(pool, p, rest[..|rest| - 1]);
    }
  }

  lemma NothingQueued(s: State, b: ModuleId)
    requires forall pri: nat :: pri < M.PRIORITIES ==> Key(b, pri) in s.queues
    requires b in s.ctls && M.Shape(AsBox(s, b)) && M.ReadOrder(AsBox(s, b)) == []
    ensures BoxEmptied(s.queues, s.queues, s.mem, b) && Queued(s.queues, b) == 0
  {
    forall pri: nat | pri < M.PRIORITIES ensures s.queues[Key(b, pri)] == Emptied(s.queues[Key(b, pri)], s.mem) {
      assert AsBox(s, b).queues[pri] == s.queues[Key(b, pri)].live == [];
    }
  }

  lemma QueuedIsOrder(s: State, b: ModuleId)
    requires forall pri: nat :: pri < M.PRIORITIES ==> Key(b, pri) in s.queues
    requires b in s.ctls && M.Shape(AsBox(s, b))
    ensures Queued(s.queues, b) == |M.ReadOrder(AsBox(s, b))|
  {
  }

  /** As long as there are tokens for them, the messages come first. */
  lemma {:induction false} MessagesRun(s: State, t: Tid, b: ModuleId, auto: bool) returns (s': State)
    requires ReaderAt(s, t, b, auto) && s.ctls[b].sem >= Queued(s.queues, b)
    ensures Reaches(s, s') && ReaderAt(s', t, b, auto) && s'.pcs == s.pcs && s'.mem == s.mem
    ensures BoxEmptied(s.queues, s'.queues, s.mem, b)
    ensures s'.ctls[b].nulls == s.ctls[b].nulls && s'.ctls[b].drops == s.ctls[b].drops
    ensures s'.ctls[b].sem == s.ctls[b].sem - Queued(s.queues, b)
    ensures M.Shape(AsBox(s, b)) && Got(s, s', auto, M.ReadOrder(AsBox(s, b)))
    decreases Queued(s.queues, b)
  {
    hide Inv, Reaches, Got, Queued, Taken, BoxEmptied, PoolAfter, AbandonedAfter;
    Keys(s, b);
    QueuedIsOrder(s, b);
    var order := M.ReadOrder(AsBox(s, b));
    if order == [] {
      StayedReaches(s);
      s' := s;
      NothingQueued(s, b);
      NothingGot(s, auto);
    } else {
      M.ReadFront(AsBox(s, b));
      hide M.ReadOrder, M.Read;
      var s1 := ReadIsRead(s, t, b, auto);
      assert s1.pcs == s.pcs && s1.mem == s.mem;
      Keys(s1, b);
      QueuedIsOrder(s1, b);
      s' := MessagesRun(s1, t, b, auto);
      ReachesOn(s, s1, s');
      GotMore(s, s1, s', auto, order[0], order[1..]);
      assert order == [order[0]] + order[1..];
      EmptiedOn(s.queues, s'.queues, s.mem, b);
    }
  }

  lemma StayedReaches(s: State)
    ensures Reaches(s, s)
  {
    Paths.Stay(Next, s);
  }

  lemma ReachesOn(s: State, s1: State, s2: State)
    requires Reaches(s, s1) && Reaches(s1, s2)
    ensures Reaches(s, s2)
  {
    Paths.Trans(Next, s, s1, s2);
  }

  lemma NothingGot(s: State, auto: bool)
    ensures Got(s, s, auto, [])
  {
  }

  /** A read that finds a token and no message, and one that finds neither */
  lemma NullRead(s: State, b: ModuleId)
    requires Inv(s) && b in s.ctls && Queued(s.queues, b) == 0
    ensures M.Shape(AsBox(s, b)) && Taken(s.queues, s.mem, b) == s.queues
    ensures M.Read(AsBox(s, b)).1 == if s.ctls[b].sem > 0 then M.NoMessage else M.Waits
    ensures M.ReadShape(AsBox(s, b)).sem == if s.ctls[b].sem > 0 then s.ctls[b].sem - 1 else 0
  {
    hide Inv;
    Keys(s, b);
    if s.ctls[b].sem > 0 { M.ReadFront(AsBox(s, b)); }
  }

  /** From an empty mailbox every token yields a NULL; then the reader waits. */
  lemma {:induction false} NullsRun(s: State, t: Tid, b: ModuleId, auto: bool) returns (s': State)
    requires ReaderAt(s, t, b, auto) && Queued(s.queues, b) == 0
    ensures Reaches(s, s') && b in s'.ctls && s'.queues == s.queues && s'.pool == s.pool && s'.abandoned == s.abandoned
    ensures s'.ctls[b].nulls == s.ctls[b].nulls + s.ctls[b].sem && s'.ctls[b].drops == s.ctls[b].drops
    ensures s'.pcs == s.pcs[t := ReadWait(b, auto)] && !Ready(s', s'.pcs[t])
    decreases s.ctls[b].sem
  {
    hide Inv, Reaches, Queued, Taken, M.Read, M.ReadShape;
    NullRead(s, b);
    s' := ReadIsRead(s, t, b, auto);
    if s.ctls[b].sem > 0 {
      var s1 := s';
      s' := NullsRun(s1, t, b, auto);
      ReachesOn(s, s1, s');
    }
  }

  /** Draining, on the fine-grained protocol.  From any reachable state in which nobody is busy with mailbox
      b, one reader - calling smcf2_recv_msg again and again, or running the message loop - first receives
      exactly what is queued, high, middle, low and each in order, every message saying what memory says and
      no NULL among them; then it gets NULL once for every drop not yet paid out; and then it waits. */
  lemma DrainRun(s: State, t: Tid, b: ModuleId, auto: bool) returns (s1: State, s2: State)
    requires ReaderAt(s, t, b, auto) && forall u :: u in s.pcs ==> !Pends(b, s.pcs[u])
    ensures Reaches(s, s1) && Reaches(s1, s2) && b in s1.ctls && b in s2.ctls
    ensures BoxEmptied(s.queues, s1.queues, s.mem, b)
    ensures M.Shape(AsBox(s, b)) && Got(s, s1, auto, M.ReadOrder(AsBox(s, b)))
    ensures s1.pcs == s.pcs && s1.ctls[b].nulls == s.ctls[b].nulls && s1.ctls[b].drops == s.ctls[b].drops
    ensures s2.queues == s1.queues && s2.pool == s1.pool && s2.abandoned == s1.abandoned
    ensures s2.ctls[b].nulls == s2.ctls[b].drops == s.ctls[b].drops
    ensures s2.pcs == s.pcs[t := ReadWait(b, auto)] && !Ready(s2, s2.pcs[t])
  {
    TokensIdle(s, b);
    hide Inv, Reaches, Got;
    s1 := MessagesRun(s, t, b, auto);
    assert Queued(s1.queues, b) == 0;
    s2 := NullsRun(s1, t, b, auto);
  }

  lemma TokensIdle(s: State, b: ModuleId)
    requires Inv(s) && b in s.ctls && forall u :: u in s.pcs ==> !Pends(b, s.pcs[u])
    ensures s.ctls[b].sem + s.ctls[b].nulls == Queued(s.queues, b) + s.ctls[b].drops
    ensures s.ctls[b].nulls <= s.ctls[b].drops
  {
    assert BoxLaws(s, b);
    Sums.SumZero(s.pcs, Pending(b));
  }
}
