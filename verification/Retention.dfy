/** How many messages the pool of the message system keeps in use: what is queued, what threads hold, and what
    receives and failed sends have never given back.  (src/async_msg.c:148-291, src/mem.c:29-76) */
module Retention {
  import Paths
  import opened MailboxProtocol
  import opened MailboxSpec
  import opened PoolSpec
  import opened Sums

  function Queued(): Queue -> nat {
    (q: Queue) => |q.live|
  }

  predicate Holds(pc: Pc) {
    match pc
    case FillMsg(_, _) => true
    case Find(_, _) => true
    case WriteLock(_, _) => true
    case Evict(_, _) => true
    case Store(_, _) => true
    case ReadUnlock(_, _, got) => got.Fetched?
    case Process(_, _, _) => true
    case FreeMsg(_, _) => true
    case _ => false
  }

  function Holding(): Pc -> nat {
    (pc: Pc) => if Holds(pc) then 1 else 0
  }

  /** Every message in use is in a queue, in a thread's hands or abandoned. */
  ghost predicate CountLaw(s: State) {
    |s.pool.use| == Sum(s.queues, Queued()) + Sum(s.pcs, Holding()) + |s.abandoned|
  }

  /** What a thread carries or is about to evict is in use. */
  lemma InUse(s: State, t: Tid, p: Ptr)
    requires Inv(s) && t in s.pcs && (Carries(s.pcs[t], p) || (exists k :: k in s.queues && p in s.queues[k].live))
    ensures p in s.pool.use
  {
    assert Owned(s, p);
    if Carries(s.pcs[t], p) {
      SumPick(s.pcs, t, Carrying(p));
    } else {
      var k :| k in s.queues && p in s.queues[k].live;
      SumPick(s.queues, k, Slots(p));
    }
  }

  /** What a step does to the number of messages queued */
  lemma QueueShare(s: State, pc: Pc)
    requires pc.Store? ==> pc.to in s.queues
    ensures Sum(StepQueues(s.queues, s.mem, pc), Queued())
              + (if pc.Evict? && Full(s.queues, pc.to) then 1 else 0)
              + (if pc.Look? && Live(s.queues, PickKey(s.queues, pc.box)) then 1 else 0)
         == Sum(s.queues, Queued()) + (if pc.Store? then 1 else 0)
  {
    hide PickKey, ReadMem;
    match pc
    case Evict(k, _) =>
      if Full(s.queues, k) { SumUpdate(s.queues, k, Front(s.queues[k], s.mem, Overwritten), Queued()); }
    case Store(k, m) => SumUpdate(s.queues, k, Append(s.queues[k], m), Queued());
    case Look(box, _) =>
      var k := PickKey(s.queues, box);
      if Live(s.queues, k) { SumUpdate(s.queues, k, Front(s.queues[k], s.mem, Delivered), Queued()); }
    case _ =>
  }

  /** And to the number in use */
  lemma PoolShare(s: State, t: Tid, pc: Pc, f: Ptr)
    requires Inv(s) && t in s.pcs && s.pcs[t] == pc
    ensures |StepPool(s.pool, s.queues, pc, f).use|
              + (if pc.FreeMsg? then 1 else 0) + (if pc.Evict? && Full(s.queues, pc.to) then 1 else 0)
         == |s.pool.use| + (if pc.AllocMsg? then 1 else 0)
  {
    hide Inv;
    match pc
    case Evict(k, _) => if Full(s.queues, k) { InUse(s, t, s.queues[k].live[0]); }
    case FreeMsg(_, m) => InUse(s, t, m.ptr);
    case _ =>
  }

  /** To what the thread holds */
  lemma HandShare(s: State, pc: Pc, f: Ptr)
    ensures Holding()(StepPc(s, pc, f))
              + (if pc.Store? then 1 else 0) + (if pc.FreeMsg? then 1 else 0) + (if Forgets(s, pc) then 1 else 0)
         == Holding()(pc)
              + (if pc.AllocMsg? then 1 else 0)
              + (if pc.Look? && Live(s.queues, PickKey(s.queues, pc.box)) then 1 else 0)
  {
  }

  /** The thread is about to return without giving its message back: a send that has found no mailbox, or
      smcf2_recv_msg with a message. */
  predicate Forgets(s: State, pc: Pc) {
    Receives(pc) || Misses(s.queues, pc)
  }

  predicate Receives(pc: Pc) {
    pc.Process? && !pc.auto
  }

  predicate Misses(queues: map<Key, Queue>, pc: Pc) {
    pc.Find? && pc.to !in queues
  }

  lemma AbandonedShare(s: State, pc: Pc)
    ensures |StepAbandoned(s.abandoned, s.queues, pc)| == |s.abandoned| + if Forgets(s, pc) then 1 else 0
  {
  }

  lemma CountStep(s: State, t: Tid, f: Ptr)
    requires Inv(s) && Enabled(s, Advance(t, f)) && CountLaw(s)
    ensures CountLaw(Step(s, t, f))
  {
    hide Inv, StepPc, StepQueues, StepPool, StepAbandoned, StepCtls, StepMem, Live, Full, PickKey, Forgets, Ready;
    var pc := s.pcs[t];
    SumUpdate(s.pcs, t, StepPc(s, pc, f), Holding());
    StoreKnown(s, t);
    QueueShare(s, pc);
    PoolShare(s, t, pc, f);
    HandShare(s, pc, f);
    AbandonedShare(s, pc);
  }

  lemma StoreKnown(s: State, t: Tid)
    requires Inv(s) && t in s.pcs
    ensures s.pcs[t].Store? ==> s.pcs[t].to in s.queues
  {
  }

  // ----- over whole runs -----

  lemma {:induction false} RunCount(c: Config, tr: seq<State>, i: nat)
    requires IsRun(c, tr) && i < |tr|
    ensures CountLaw(tr[i])
  {
    hide *;
    if i == 0 {
      StartCount(c, tr);
    } else {
      RunCount(c, tr, i - 1);
      RunInv(c, tr, i - 1);
      var a := ActionAt(c, tr, i - 1);
      ApplyCount(tr[i - 1], a);
    }
  }

  lemma StartCount(c: Config, tr: seq<State>)
    requires IsRun(c, tr)
    ensures CountLaw(tr[0])
  {
    SumZero(tr[0].queues, Queued());
    SumZero(tr[0].pcs, Holding());
  }

  lemma ApplyCount(s: State, a: Action)
    requires Inv(s) && Enabled(s, a) && CountLaw(s)
    ensures CountLaw(Apply(s, a))
  {
    hide Inv, Ready, Step;
    match a
    case Start(t, pc) => SumUpdate(s.pcs, t, pc, Holding());
    case Advance(t, f) => CountStep(s, t, f);
  }

  /** In this step of a run a thread returns from smcf2_recv_msg with a message, or from a send that has found
      no mailbox. */
  ghost predicate ReceiptAt(s: State, s': State) {
    exists t :: t in s.pcs && t in s'.pcs && Receives(s.pcs[t]) && s'.pcs[t] == Idle
  }

  ghost predicate MissAt(s: State, s': State) {
    exists t :: t in s.pcs && t in s'.pcs && Misses(s.queues, s.pcs[t]) && s'.pcs[t] == Idle
  }

  ghost function Receipts(tr: seq<State>, i: nat): nat
    requires i < |tr|
  {
    if i == 0 then 0 else Receipts(tr, i - 1) + if ReceiptAt(tr[i - 1], tr[i]) then 1 else 0
  }

  ghost function MissedSends(tr: seq<State>, i: nat): nat
    requires i < |tr|
  {
    if i == 0 then 0 else MissedSends(tr, i - 1) + if MissAt(tr[i - 1], tr[i]) then 1 else 0
  }

  lemma AbandonStep(s: State, a: Action)
    requires Enabled(s, a)
    ensures var s' := Apply(s, a);
            |s'.abandoned| == |s.abandoned| + (if ReceiptAt(s, s') then 1 else 0) + if MissAt(s, s') then 1 else 0
  {
    var s' := Apply(s, a);
    match a
    case Start(t, pc) =>
    case Advance(t, f) =>
      assert s'.pcs[t] == StepPc(s, s.pcs[t], f);
      if Receives(s.pcs[t]) { assert ReceiptAt(s, s'); }
      if Misses(s.queues, s.pcs[t]) { assert MissAt(s, s'); }
  }

  /** Exactly the messages returned by smcf2_recv_msg and those of sends to unknown modules are never given
      back. */
  lemma {:induction false} Abandoned(c: Config, tr: seq<State>, i: nat)
    requires IsRun(c, tr) && i < |tr|
    ensures |tr[i].abandoned| == Receipts(tr, i) + MissedSends(tr, i)
  {
    if i > 0 {
      hide IsRun;
      Abandoned(c, tr, i - 1);
      var a := ActionAt(c, tr, i - 1);
      AbandonStep(tr[i - 1], a);
    }
  }

  lemma {:induction false} KeyCount(ks: set<Key>, ms: set<ModuleId>)
    requires forall k :: k in ks ==> k.box in ms && k.pri < PRIORITIES
    ensures |ks| <= PRIORITIES * |ms|
    decreases ms
  {
    if ks != {} {
      var k0 :| k0 in ks;
      var b := k0.box;
      var three := {Key(b, 0), Key(b, 1), Key(b, 2)};
      KeyCount(ks - three, ms - {b});
      assert ks <= (ks - three) + three;
      Fits(ks, ks - three, three);
    }
  }

  lemma Fits<T>(s: set<T>, a: set<T>, b: set<T>)
    requires s <= a + b
    ensures |s| <= |a| + |b|
    decreases s
  {
    if x :| x in s {
      Fits(s - {x}, a - {x}, b - {x});
    }
  }

  lemma SlotCount(c: Config, tr: seq<State>, i: nat)
    requires IsRun(c, tr) && i < |tr|
    ensures Sum(tr[i].queues, Queued()) <= CAPACITY * PRIORITIES * |c.modules|
    ensures Sum(tr[i].pcs, Holding()) <= |c.threads|
  {
    hide IsRun, BoxLaws, QueueLaws, ContentLaw, OwnerLaw, PcBound;
    RunInv(c, tr, i);
    var s := tr[i];
    SumAtMost(s.queues, Queued(), CAPACITY);
    SumAtMost(s.pcs, Holding(), 1);
    forall k | k in s.queues.Keys ensures k.box in c.modules && k.pri < PRIORITIES {
      assert Key(k.box, k.pri) in s.queues;
    }
    KeyCount(s.queues.Keys, c.modules);
  }

  /** In every state of every run the pool has no more messages in use than the rings have slots and threads
      have hands, plus one for each receipt and each send that has found no mailbox. */
  lemma MemoryBound(c: Config, tr: seq<State>, i: nat)
    requires IsRun(c, tr) && i < |tr|
    ensures |tr[i].pool.use|
         <= CAPACITY * PRIORITIES * |c.modules| + |c.threads| + Receipts(tr, i) + MissedSends(tr, i)
  {
    hide IsRun;
    RunCount(c, tr, i);
    Abandoned(c, tr, i);
    SlotCount(c, tr, i);
  }
}
