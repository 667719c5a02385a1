/** The asynchronous message system at the grain of its separate steps: any number of threads send,
    receive and process messages through the mailboxes of all modules and one shared pool, interleaving
    freely; each pool call is one step.  (src/async_msg.c:148-291, src/core.c:29-45, src/mem.c:29-76) */
module MailboxProtocol {
  import Paths
  import opened Sums
  import opened PoolSpec
  import opened MailboxSpec

  type Tid = nat
  type Ptr = nat
  type ModuleId = int
  /** sender id, message id and the 16 bytes of data */
  datatype Content = Content(sender: ModuleId, msgid: int, data: seq<int>)

  datatype Key = Key(box: ModuleId, pri: nat)
  datatype Lock = Unlocked | LockedBy(holder: Tid)
  /** A message: where it is and what it says. */
  datatype Msg = Msg(ptr: Ptr, content: Content)
  datatype Fetched = Nothing | Fetched(m: Msg)

  /** Where a thread is.  `auto` marks the message loop of a module, the others are smcf2_recv_msg calls. */
  datatype Pc =
    | Idle
    | AllocMsg(to: Key, content: Content)
    | FillMsg(to: Key, m: Msg)
    | Find(to: Key, m: Msg)
    | WriteLock(to: Key, m: Msg)
    | Evict(to: Key, m: Msg)
    | Store(to: Key, m: Msg)
    | WriteUnlock(to: Key)
    | Post(to: Key)
    | ReadFind(box: ModuleId, auto: bool)
    | ReadWait(box: ModuleId, auto: bool)
    | ReadLock(box: ModuleId, auto: bool)
    | Look(box: ModuleId, auto: bool)
    | ReadUnlock(box: ModuleId, auto: bool, got: Fetched)
    | Process(box: ModuleId, auto: bool, m: Msg)
    | FreeMsg(box: ModuleId, m: Msg)

  datatype How = Delivered | Overwritten
  datatype Removal = Removal(content: Content, how: How)

  /** A ring as the sequence of messages in it, everything ever stored in it, and what has left it. */
  datatype Queue = Queue(live: seq<Ptr>, sent: seq<Content>, removed: seq<Removal>)

  /** The rest of a mailbox; `drops` and `nulls` count evictions and reads that found nothing. */
  datatype Ctl = Ctl(sem: nat, lock: Lock, drops: nat, nulls: nat)

  datatype State = State(
    queues: map<Key, Queue>, ctls: map<ModuleId, Ctl>, pcs: map<Tid, Pc>,
    pool: Pool<Ptr>, abandoned: seq<Ptr>, mem: map<Ptr, Content>)

  /** The modules whose mailboxes are bound, and the threads of the run. */
  datatype Config = Config(modules: set<ModuleId>, threads: set<Tid>)

  function Init(c: Config): State {
    State(map id: ModuleId, pri: nat | id in c.modules && 0 <= pri < PRIORITIES :: Key(id, pri) := Queue([], [], []),
          map id | id in c.modules :: Ctl(0, Unlocked, 0, 0),
          map t | t in c.threads :: Idle, Pool([], []), [], map[])
  }

  predicate Live(queues: map<Key, Queue>, k: Key) {
    k in queues && queues[k].live != []
  }

  /** The priority a read takes from: the highest with anything queued. */
  function PickKey(queues: map<Key, Queue>, box: ModuleId): Key {
    if Live(queues, Key(box, 0)) then Key(box, 0)
    else if Live(queues, Key(box, 1)) then Key(box, 1)
    else Key(box, 2)
  }

  function ReadMem(mem: map<Ptr, Content>, p: Ptr): Content {
    if p in mem then mem[p] else Content(0, 0, [])
  }

  // ----- what a thread's next statement does; `unit` is what malloc would return -----

  function StepPc(s: State, pc: Pc, unit: Ptr): Pc {
    match pc
    case Idle => Idle
    case AllocMsg(to, content) => FillMsg(to, Msg(Alloc(s.pool, unit).1, content))
    case FillMsg(to, m) => Find(to, m)
    case Find(to, m) => if to in s.queues then WriteLock(to, m) else Idle
    case WriteLock(to, m) => Evict(to, m)
    case Evict(to, m) => Store(to, m)
    case Store(to, m) => WriteUnlock(to)
    case WriteUnlock(to) => Post(to)
    case Post(to) => Idle
    case ReadFind(box, auto) => if box in s.ctls then ReadWait(box, auto) else if auto then pc else Idle
    case ReadWait(box, auto) => ReadLock(box, auto)
    case ReadLock(box, auto) => Look(box, auto)
    case Look(box, auto) =>
      var k := PickKey(s.queues, box);
      ReadUnlock(box, auto,
        if Live(s.queues, k) then Fetched(Msg(s.queues[k].live[0], ReadMem(s.mem, s.queues[k].live[0]))) else Nothing)
    case ReadUnlock(box, auto, got) =>
      if got.Fetched? then Process(box, auto, got.m) else if auto then ReadFind(box, auto) else Idle
    case Process(box, auto, m) => if auto then FreeMsg(box, m) else Idle
    case FreeMsg(box, _) => ReadFind(box, true)
  }

  predicate Full(queues: map<Key, Queue>, k: Key) {
    k in queues && |queues[k].live| == CAPACITY
  }

  /** Evicting and fetching take the front of a queue, storing appends. */
  function StepQueues(queues: map<Key, Queue>, mem: map<Ptr, Content>, pc: Pc): map<Key, Queue> {
    match pc
    case Evict(k, _) => if Full(queues, k) then queues[k := Front(queues[k], mem, Overwritten)] else queues
    case Store(k, m) => if k in queues then queues[k := Append(queues[k], m)] else queues
    case Look(box, _) =>
      var k := PickKey(queues, box);
      if Live(queues, k) then queues[k := Front(queues[k], mem, Delivered)] else queues
    case _ => queues
  }

  function Front(q: Queue, mem: map<Ptr, Content>, how: How): Queue
    requires q.live != []
  {
    q.(live := q.live[1..], removed := q.removed + [Removal(ReadMem(mem, q.live[0]), how)])
  }

  function Append(q: Queue, m: Msg): Queue {
    q.(live := q.live + [m.ptr], sent := q.sent + [m.content])
  }

  function StepCtls(ctls: map<ModuleId, Ctl>, queues: map<Key, Queue>, t: Tid, pc: Pc): map<ModuleId, Ctl> {
    var b := Box(pc);
    if b !in ctls then ctls else ctls[b := StepCtl(ctls[b], queues, t, pc)]
  }

  function StepCtl(h: Ctl, queues: map<Key, Queue>, t: Tid, pc: Pc): Ctl {
    match pc
    case WriteLock(_, _) => h.(lock := LockedBy(t))
    case Evict(k, _) => if Full(queues, k) then h.(drops := h.drops + 1) else h
    case WriteUnlock(_) => h.(lock := Unlocked)
    case Post(_) => h.(sem := h.sem + 1)
    case ReadWait(_, _) => if h.sem > 0 then h.(sem := h.sem - 1) else h
    case ReadLock(_, _) => h.(lock := LockedBy(t))
    case Look(box, _) => if Live(queues, PickKey(queues, box)) then h else h.(nulls := h.nulls + 1)
    case ReadUnlock(_, _, _) => h.(lock := Unlocked)
    case _ => h
  }

  /** The mailbox a thread is busy with. */
  function Box(pc: Pc): ModuleId {
    match pc
    case Idle => 0
    case AllocMsg(to, _) => to.box
    case FillMsg(to, _) => to.box
    case Find(to, _) => to.box
    case WriteLock(to, _) => to.box
    case Evict(to, _) => to.box
    case Store(to, _) => to.box
    case WriteUnlock(to) => to.box
    case Post(to) => to.box
    case ReadFind(box, _) => box
    case ReadWait(box, _) => box
    case ReadLock(box, _) => box
    case Look(box, _) => box
    case ReadUnlock(box, _, _) => box
    case Process(box, _, _) => box
    case FreeMsg(box, _) => box
  }

  /** alloc_msg takes a message, an eviction and the message loop give one back. */
  function StepPool(pool: Pool<Ptr>, queues: map<Key, Queue>, pc: Pc, unit: Ptr): Pool<Ptr> {
    match pc
    case AllocMsg(_, _) => Alloc(pool, unit).0
    case Evict(k, _) => if Full(queues, k) then Free(pool, queues[k].live[0]) else pool
    case FreeMsg(_, m) => Free(pool, m.ptr)
    case _ => pool
  }

  /** A send that finds no mailbox and smcf2_recv_msg both return without giving their message back. */
  function StepAbandoned(abandoned: seq<Ptr>, queues: map<Key, Queue>, pc: Pc): seq<Ptr> {
    match pc
    case Find(to, m) => if to in queues then abandoned else abandoned + [m.ptr]
    case Process(_, auto, m) => if auto then abandoned else abandoned + [m.ptr]
    case _ => abandoned
  }

  function StepMem(mem: map<Ptr, Content>, pc: Pc): map<Ptr, Content> {
    if pc.FillMsg? then mem[pc.m.ptr := pc.m.content] else mem
  }

  function Step(s: State, t: Tid, unit: Ptr): State
    requires t in s.pcs
  {
    var pc := s.pcs[t];
    State(StepQueues(s.queues, s.mem, pc), StepCtls(s.ctls, s.queues, t, pc),
          s.pcs[t := StepPc(s, pc, unit)], StepPool(s.pool, s.queues, pc, unit),
          StepAbandoned(s.abandoned, s.queues, pc), StepMem(s.mem, pc))
  }

  /** A send with a valid priority, a manual receive, or the start of a module's message loop.  A free block
      carries module id 0 and would be taken for the mailbox of module 0, so id 0 is used only if bound. */
  predicate MayStart(ctls: map<ModuleId, Ctl>, pc: Pc) {
    && ((pc.AllocMsg? && pc.to.pri < PRIORITIES) || pc.ReadFind?)
    && (Box(pc) == 0 ==> 0 in ctls)
  }

  /** Blocked only at a semaphore without tokens or at a mutex someone holds. */
  predicate Ready(s: State, pc: Pc) {
    match pc
    case Idle => false
    case ReadWait(box, _) => box in s.ctls && s.ctls[box].sem > 0
    case WriteLock(to, _) => to.box in s.ctls && s.ctls[to.box].lock == Unlocked
    case ReadLock(box, _) => box in s.ctls && s.ctls[box].lock == Unlocked
    case _ => true
  }

  datatype Action = Start(t: Tid, pc: Pc) | Advance(t: Tid, unit: Ptr)

  predicate Enabled(s: State, a: Action) {
    match a
    case Start(t, pc) => t in s.pcs && s.pcs[t] == Idle && MayStart(s.ctls, pc)
    case Advance(t, f) => t in s.pcs && Ready(s, s.pcs[t]) && f !in s.pool.use && f !in s.pool.free
  }

  function Apply(s: State, a: Action): State
    requires Enabled(s, a)
  {
    match a
    case Start(t, pc) => s.(pcs := s.pcs[t := pc])
    case Advance(t, f) => Step(s, t, f)
  }

  ghost predicate Next(s: State, s': State) {
    exists a :: Enabled(s, a) && s' == Apply(s, a)
  }

  ghost predicate IsRun(c: Config, tr: seq<State>) {
    Paths.IsPath(Next, tr) && tr[0] == Init(c)
  }

  ghost predicate Reaches(s: State, s': State) {
    Paths.Leads(Next, s, s')
  }

  // ----- the laws -----

  predicate Pends(b: ModuleId, pc: Pc) {
    match pc
    case WriteUnlock(to) => to.box == b
    case Post(to) => to.box == b
    case ReadLock(box, _) => box == b
    case Look(box, _) => box == b
    case _ => false
  }

  /** A writer that has stored and not posted, or a reader past its wait that has not looked. */
  function Pending(b: ModuleId): Pc -> nat {
    (pc: Pc) => if Pends(b, pc) then 1 else 0
  }

  function Len(queues: map<Key, Queue>, k: Key): nat {
    if k in queues then |queues[k].live| else 0
  }

  /** Queued messages of all three priorities. */
  function Queued(queues: map<Key, Queue>, b: ModuleId): nat {
    Len(queues, Key(b, 0)) + Len(queues, Key(b, 1)) + Len(queues, Key(b, 2))
  }

  ghost predicate TokenLaw(h: Ctl, queues: map<Key, Queue>, pcs: map<Tid, Pc>, b: ModuleId) {
    && h.sem + Sum(pcs, Pending(b)) + h.nulls == Queued(queues, b) + h.drops
    && h.nulls <= h.drops
  }

  predicate Inside(b: ModuleId, pc: Pc) {
    match pc
    case Evict(to, _) => to.box == b
    case Store(to, _) => to.box == b
    case WriteUnlock(to) => to.box == b
    case Look(box, _) => box == b
    case ReadUnlock(box, _, _) => box == b
    case _ => false
  }

  ghost predicate MutexLaw(h: Ctl, pcs: map<Tid, Pc>, b: ModuleId) {
    && (forall t :: t in pcs ==> (Inside(b, pcs[t]) <==> h.lock == LockedBy(t)))
    && (h.lock.LockedBy? ==> h.lock.holder in pcs)
  }

  /** Three queues to every bound mailbox; past the lookup, threads deal with bound mailboxes only. */
  ghost predicate ShapeLaw(s: State) {
    && (forall b, pri: nat :: Key(b, pri) in s.queues <==> b in s.ctls && pri < PRIORITIES)
    && (forall t :: t in s.pcs ==> PcBound(s.queues, s.ctls, s.pcs[t]))
  }

  predicate PcBound(queues: map<Key, Queue>, ctls: map<ModuleId, Ctl>, pc: Pc) {
    match pc
    case WriteLock(to, _) => to in queues
    case Evict(to, _) => to in queues
    case Store(to, _) => to in queues
    case WriteUnlock(to) => to in queues
    case Post(to) => to in queues
    case ReadWait(box, _) => box in ctls
    case ReadLock(box, _) => box in ctls
    case Look(box, _) => box in ctls
    case ReadUnlock(box, _, _) => box in ctls
    case Process(box, _, _) => box in ctls
    case FreeMsg(box, _) => box in ctls
    case _ => true
  }

  /** A queue never holds more than 128 messages, and fewer when one is about to be stored. */
  ghost predicate CapacityLaw(queues: map<Key, Queue>, pcs: map<Tid, Pc>) {
    && (forall k :: k in queues ==> |queues[k].live| <= CAPACITY)
    && (forall t :: t in pcs && pcs[t].Store? && pcs[t].to in queues ==> |queues[pcs[t].to].live| < CAPACITY)
  }

  function Contents(removed: seq<Removal>): (cs: seq<Content>) {
    seq(|removed|, i requires 0 <= i < |removed| => removed[i].content)
  }

  function Current(live: seq<Ptr>, mem: map<Ptr, Content>): (cs: seq<Content>) {
    seq(|live|, i requires 0 <= i < |live| => ReadMem(mem, live[i]))
  }

  /** Stored = gone ++ still queued, by content. */
  ghost predicate LogLaw(q: Queue, mem: map<Ptr, Content>) {
    q.sent == Contents(q.removed) + Current(q.live, mem)
  }

  /** A message is overwritten only when 128 later ones of its priority are there or about to be. */
  ghost predicate DropLaw(q: Queue, k: Key, h: Ctl, pcs: map<Tid, Pc>) {
    forall i :: 0 <= i < |q.removed| && q.removed[i].how == Overwritten ==>
      || i + CAPACITY < |q.sent|
      || (i + CAPACITY == |q.sent| && Storing(k, h, pcs))
  }

  ghost predicate Storing(k: Key, h: Ctl, pcs: map<Tid, Pc>) {
    h.lock.LockedBy? && h.lock.holder in pcs && pcs[h.lock.holder].Store? && pcs[h.lock.holder].to == k
  }

  predicate Carries(pc: Pc, p: Ptr) {
    match pc
    case FillMsg(_, m) => m.ptr == p
    case FreeMsg(_, m) => m.ptr == p
    case _ => CarriesFilled(pc, p)
  }

  predicate CarriesFilled(pc: Pc, p: Ptr) {
    match pc
    case Find(_, m) => m.ptr == p
    case WriteLock(_, m) => m.ptr == p
    case Evict(_, m) => m.ptr == p
    case Store(_, m) => m.ptr == p
    case ReadUnlock(_, _, got) => got.Fetched? && got.m.ptr == p
    case Process(_, _, m) => m.ptr == p
    case _ => false
  }

  function Carrying(p: Ptr): Pc -> nat {
    (pc: Pc) => if Carries(pc, p) then 1 else 0
  }

  ghost function Slots(p: Ptr): Queue -> nat {
    (q: Queue) => Occ(q.live, p)
  }

  /** What a thread carries says what was sent. */
  function Says(pc: Pc): Content {
    match pc
    case Find(_, m) => m.content
    case WriteLock(_, m) => m.content
    case Evict(_, m) => m.content
    case Store(_, m) => m.content
    case ReadUnlock(_, _, got) => if got.Fetched? then got.m.content else Content(0, 0, [])
    case Process(_, _, m) => m.content
    case _ => Content(0, 0, [])
  }

  ghost predicate ContentLaw(mem: map<Ptr, Content>, pcs: map<Tid, Pc>) {
    forall t, p :: t in pcs && CarriesFilled(pcs[t], p) ==> ReadMem(mem, p) == Says(pcs[t])
  }

  /** The pool's use list is the disjoint union of what sits in queue slots, what threads carry and what
      has been abandoned. */
  ghost predicate OwnerLaw(s: State) {
    forall p: Ptr :: Owned(s, p)
  }

  ghost predicate Owned(s: State, p: Ptr) {
    && Occ(s.pool.use, p) == Sum(s.queues, Slots(p)) + Sum(s.pcs, Carrying(p)) + Occ(s.abandoned, p)
    && Occ(s.pool.use, p) + Occ(s.pool.free, p) <= 1
  }

  ghost predicate BoxLaws(s: State, b: ModuleId)
    requires b in s.ctls
  {
    && TokenLaw(s.ctls[b], s.queues, s.pcs, b)
    && MutexLaw(s.ctls[b], s.pcs, b)
  }

  ghost predicate QueueLaws(s: State, k: Key)
    requires k in s.queues && k.box in s.ctls
  {
    && LogLaw(s.queues[k], s.mem)
    && DropLaw(s.queues[k], k, s.ctls[k.box], s.pcs)
  }

  ghost predicate Inv(s: State) {
    && ShapeLaw(s)
    && (forall b :: b in s.ctls ==> BoxLaws(s, b))
    && (forall k :: k in s.queues && k.box in s.ctls ==> QueueLaws(s, k))
    && CapacityLaw(s.queues, s.pcs)
    && ContentLaw(s.mem, s.pcs)
    && OwnerLaw(s)
  }

  // ----- every step keeps every law -----

  lemma InitBox(c: Config, b: ModuleId)
    requires b in c.modules
    ensures BoxLaws(Init(c), b)
  {
    SumZero(Init(c).pcs, Pending(b));
  }

  lemma InitOwner(c: Config, p: Ptr)
    ensures Owned(Init(c), p)
  {
    SumZero(Init(c).queues, Slots(p));
    SumZero(Init(c).pcs, Carrying(p));
  }

  lemma InitInv(c: Config)
    ensures Inv(Init(c))
  {
    hide TokenLaw, MutexLaw, Owned;
    var s := Init(c);
    forall b | b in s.ctls ensures BoxLaws(s, b) {
      InitBox(c, b);
    }
    forall p: Ptr ensures Owned(s, p) {
      InitOwner(c, p);
    }
  }

  /** A message some thread carries is nowhere else. */
  lemma CarriedOnce(s: State, t: Tid, p: Ptr)
    requires OwnerLaw(s) && t in s.pcs && Carries(s.pcs[t], p)
    ensures forall k :: k in s.queues ==> p !in s.queues[k].live
    ensures forall u :: u in s.pcs && u != t ==> !Carries(s.pcs[u], p)
    ensures p !in s.abandoned && p in s.pool.use && p !in s.pool.free
  {
    assert Owned(s, p);
    SumUpdate(s.pcs, t, s.pcs[t], Carrying(p));
    forall k | k in s.queues ensures p !in s.queues[k].live {
      SumUpdate(s.queues, k, s.queues[k], Slots(p));
    }
    forall u | u in s.pcs && u != t ensures !Carries(s.pcs[u], p) {
      SumTwo(s.pcs, t, u, Carrying(p));
    }
  }

  /** A message in a queue slot is nowhere else. */
  lemma QueuedOnce(s: State, k: Key, i: nat)
    requires OwnerLaw(s) && k in s.queues && i < |s.queues[k].live|
    ensures var p := s.queues[k].live[i];
            && (forall j :: 0 <= j < |s.queues[k].live| && j != i ==> s.queues[k].live[j] != p)
            && (forall k' :: k' in s.queues && k' != k ==> p !in s.queues[k'].live)
            && (forall t :: t in s.pcs ==> !Carries(s.pcs[t], p))
            && p !in s.abandoned && p in s.pool.use && p !in s.pool.free
  {
    var live, p := s.queues[k].live, s.queues[k].live[i];
    assert Owned(s, p);
    SumUpdate(s.queues, k, s.queues[k], Slots(p));
    forall j | 0 <= j < |live| && j != i ensures live[j] != p {
      if live[j] == p { OccTwice(live, if i < j then i else j, if i < j then j else i); }
    }
    forall k' | k' in s.queues && k' != k ensures p !in s.queues[k'].live {
      SumTwo(s.queues, k, k', Slots(p));
    }
    forall t | t in s.pcs ensures !Carries(s.pcs[t], p) {
      SumUpdate(s.pcs, t, s.pcs[t], Carrying(p));
    }
  }

  /** Replacing one queue changes the number of queued messages by the difference of the two. */
  lemma QueuedUpdate(queues: map<Key, Queue>, k: Key, q: Queue, b: ModuleId)
    requires k in queues && k.pri < PRIORITIES
    ensures Queued(queues[k := q], b) + (if k.box == b then |queues[k].live| else 0)
         == Queued(queues, b) + (if k.box == b then |q.live| else 0)
  {
    assert k == Key(k.box, k.pri);
  }

  /** How a step changes the number of queued messages of mailbox b. */
  lemma QueuedStep(queues: map<Key, Queue>, mem: map<Ptr, Content>, pc: Pc, b: ModuleId)
    requires forall b, pri: nat :: Key(b, pri) in queues ==> pri < PRIORITIES
    requires pc.Store? ==> pc.to in queues
    ensures Queued(StepQueues(queues, mem, pc), b)
              + (if pc.Evict? && pc.to.box == b && Full(queues, pc.to) then 1 else 0)
              + (if pc.Look? && pc.box == b && Live(queues, PickKey(queues, b)) then 1 else 0)
         == Queued(queues, b) + (if pc.Store? && pc.to.box == b then 1 else 0)
  {
    hide Queued;
    match pc
    case Evict(k, _) =>
      assert k == Key(k.box, k.pri);
      if Full(queues, k) { QueuedUpdate(queues, k, Front(queues[k], mem, Overwritten), b); }
    case Store(k, m) =>
      assert k == Key(k.box, k.pri);
      QueuedUpdate(queues, k, Append(queues[k], m), b);
    case Look(box, _) =>
      var k := PickKey(queues, box);
      if Live(queues, k) { QueuedUpdate(queues, k, Front(queues[k], mem, Delivered), b); }
    case _ =>
  }

  lemma NothingPicked(queues: map<Key, Queue>, b: ModuleId)
    requires !Live(queues, PickKey(queues, b))
    ensures Queued(queues, b) == 0
  {
  }

  // What one statement does to one thread's share of a law, and to the mailbox's counters.

  lemma PendShare(s: State, pc: Pc, f: Ptr, b: ModuleId)
    ensures Pending(b)(StepPc(s, pc, f))
              + (if pc.Post? && pc.to.box == b then 1 else 0) + (if pc.Look? && pc.box == b then 1 else 0)
         == Pending(b)(pc)
              + (if pc.Store? && pc.to.box == b then 1 else 0) + (if pc.ReadWait? && pc.box == b then 1 else 0)
  {
  }

  lemma CtlShare(ctls: map<ModuleId, Ctl>, queues: map<Key, Queue>, t: Tid, pc: Pc, b: ModuleId)
    requires b in ctls && (pc.ReadWait? && pc.box == b ==> ctls[b].sem > 0)
    ensures b in StepCtls(ctls, queues, t, pc)
    ensures var h, h' := ctls[b], StepCtls(ctls, queues, t, pc)[b];
            && h'.sem + (if pc.ReadWait? && pc.box == b then 1 else 0) == h.sem + (if pc.Post? && pc.to.box == b
              then 1 else 0)
            && h'.drops == h.drops + (if pc.Evict? && pc.to.box == b && Full(queues, pc.to) then 1 else 0)
            && h'.nulls == h.nulls + (if pc.Look? && pc.box == b && !Live(queues, PickKey(queues, b)) then 1 else 0)
  {
  }

  lemma TokenStep(s: State, t: Tid, f: Ptr, b: ModuleId)
    requires ShapeLaw(s) && b in s.ctls && TokenLaw(s.ctls[b], s.queues, s.pcs, b)
    requires t in s.pcs && Ready(s, s.pcs[t])
    ensures var s' := Step(s, t, f); b in s'.ctls && TokenLaw(s'.ctls[b], s'.queues, s'.pcs, b)
  {
    hide StepPc, StepCtls, StepQueues, StepPool, StepMem, StepAbandoned, Queued, Live, Full, PickKey;
    var pc := s.pcs[t];
    PendShare(s, pc, f, b);
    CtlShare(s.ctls, s.queues, t, pc, b);
    QueuedStep(s.queues, s.mem, pc, b);
    if pc.Look? && pc.box == b && !Live(s.queues, PickKey(s.queues, b)) { NothingPicked(s.queues, b); }
    hide ShapeLaw, Ready;
    SumUpdate(s.pcs, t, StepPc(s, pc, f), Pending(b));
  }

  lemma MutexShare(s: State, t: Tid, pc: Pc, f: Ptr, b: ModuleId)
    requires b in s.ctls && (Inside(b, pc) <==> s.ctls[b].lock == LockedBy(t)) && Ready(s, pc)
    ensures b in StepCtls(s.ctls, s.queues, t, pc)
    ensures var lock, lock' := s.ctls[b].lock, StepCtls(s.ctls, s.queues, t, pc)[b].lock;
            && (Inside(b, StepPc(s, pc, f)) <==> lock' == LockedBy(t))
            && (forall u :: u != t ==> (lock' == LockedBy(u) <==> lock == LockedBy(u)))
  {
  }

  lemma MutexStep(s: State, t: Tid, f: Ptr, b: ModuleId)
    requires b in s.ctls && MutexLaw(s.ctls[b], s.pcs, b)
    requires t in s.pcs && Ready(s, s.pcs[t])
    ensures var s' := Step(s, t, f); b in s'.ctls && MutexLaw(s'.ctls[b], s'.pcs, b)
  {
    MutexShare(s, t, s.pcs[t], f, b);
    hide StepPc, StepCtls, StepQueues, StepPool, StepMem, StepAbandoned, Ready;
  }

  lemma ShapeStep(s: State, t: Tid, f: Ptr)
    requires ShapeLaw(s) && t in s.pcs && Ready(s, s.pcs[t])
    ensures ShapeLaw(Step(s, t, f))
  {
    var s' := Step(s, t, f);
    assert s'.queues.Keys == s.queues.Keys && s'.ctls.Keys == s.ctls.Keys;
    assert s.pcs[t].Find? ==> s.pcs[t].to == Key(s.pcs[t].to.box, s.pcs[t].to.pri);
  }

  lemma CapacityStep(s: State, t: Tid, f: Ptr)
    requires ShapeLaw(s) && CapacityLaw(s.queues, s.pcs) && t in s.pcs && Ready(s, s.pcs[t])
    requires forall b :: b in s.ctls ==> MutexLaw(s.ctls[b], s.pcs, b)
    ensures CapacityLaw(Step(s, t, f).queues, Step(s, t, f).pcs)
  {
    var s' := Step(s, t, f);
    forall u | u in s'.pcs && s'.pcs[u].Store? && s'.pcs[u].to in s'.queues
      ensures |s'.queues[s'.pcs[u].to].live| < CAPACITY
    {
      StoreRoom(s, t, f, u);
    }
  }

  /** While a thread is about to store, only it can be working on that mailbox. */
  lemma StoreRoom(s: State, t: Tid, f: Ptr, u: Tid)
    requires ShapeLaw(s) && CapacityLaw(s.queues, s.pcs) && t in s.pcs && Ready(s, s.pcs[t])
    requires forall b :: b in s.ctls ==> MutexLaw(s.ctls[b], s.pcs, b)
    requires var s' := Step(s, t, f); u in s'.pcs && s'.pcs[u].Store? && s'.pcs[u].to in s'.queues
    ensures var s' := Step(s, t, f); |s'.queues[s'.pcs[u].to].live| < CAPACITY
  {
    if u != t {
      var k := s.pcs[u].to;
      assert k == Key(k.box, k.pri) && MutexLaw(s.ctls[k.box], s.pcs, k.box);
      assert Inside(k.box, s.pcs[u]) && !(Inside(k.box, s.pcs[t]));
    }
  }

  lemma ContentStep(s: State, t: Tid, f: Ptr)
    requires ContentLaw(s.mem, s.pcs) && OwnerLaw(s) && t in s.pcs
    ensures ContentLaw(Step(s, t, f).mem, Step(s, t, f).pcs)
  {
    if s.pcs[t].FillMsg? {
      CarriedOnce(s, t, s.pcs[t].m.ptr);
      var s', m := Step(s, t, f), s.pcs[t].m;
      forall u, p | u in s'.pcs && CarriesFilled(s'.pcs[u], p) ensures ReadMem(s'.mem, p) == Says(s'.pcs[u]) {
        if u == t {
          assert p == m.ptr && s'.mem[p] == m.content;
        } else {
          assert Carries(s.pcs[u], p) && p != m.ptr;
          assert ReadMem(s.mem, p) == Says(s.pcs[u]);
        }
      }
    }
  }

  lemma LogStep(s: State, t: Tid, f: Ptr, k: Key)
    requires ContentLaw(s.mem, s.pcs) && OwnerLaw(s) && t in s.pcs
    requires k in s.queues && LogLaw(s.queues[k], s.mem)
    ensures var s' := Step(s, t, f); k in s'.queues && LogLaw(s'.queues[k], s'.mem)
  {
    var pc := s.pcs[t];
    if pc.FillMsg? {
      CarriedOnce(s, t, pc.m.ptr);
      assert Current(s.queues[k].live, Step(s, t, f).mem) == Current(s.queues[k].live, s.mem);
    } else {
      assert pc.Store? ==> CarriesFilled(pc, pc.m.ptr);
      hide OwnerLaw;
      QueueLogStep(s.queues, s.mem, pc, k);
    }
  }

  lemma QueueLogStep(queues: map<Key, Queue>, mem: map<Ptr, Content>, pc: Pc, k: Key)
    requires k in queues && LogLaw(queues[k], mem) && (pc.Store? ==> ReadMem(mem, pc.m.ptr) == pc.m.content)
    ensures k in StepQueues(queues, mem, pc) && LogLaw(StepQueues(queues, mem, pc)[k], mem)
  {
    var q, q' := queues[k], StepQueues(queues, mem, pc)[k];
    if q'.removed != q.removed {
      assert Current(q.live, mem) == [ReadMem(mem, q.live[0])] + Current(q'.live, mem);
      assert Contents(q'.removed) == Contents(q.removed) + [ReadMem(mem, q.live[0])];
    } else if pc.Store? && pc.to == k {
      assert Current(q'.live, mem) == Current(q.live, mem) + [pc.m.content];
    }
  }

  lemma DropStep(s: State, t: Tid, f: Ptr, k: Key)
    requires ShapeLaw(s) && t in s.pcs && Ready(s, s.pcs[t])
    requires k in s.queues && k.box in s.ctls && MutexLaw(s.ctls[k.box], s.pcs, k.box)
    requires QueueLaws(s, k)
    ensures var s' := Step(s, t, f);
            && k in s'.queues && k.box in s'.ctls
            && DropLaw(s'.queues[k], k, s'.ctls[k.box], s'.pcs)
  {
    var s', pc := Step(s, t, f), s.pcs[t];
    var q, q', h, h' := s.queues[k], s'.queues[k], s.ctls[k.box], s'.ctls[k.box];
    assert |q.sent| == |q.removed| + |q.live|;
    if Storing(k, h, s.pcs) && h.lock.holder == t {
      assert q'.removed == q.removed && |q'.sent| == |q.sent| + 1;
    } else {
      assert Storing(k, h, s.pcs) ==> Storing(k, h', s'.pcs);
      assert q'.removed == q.removed || q'.removed == q.removed + [q'.removed[|q.removed|]];
      if q'.removed != q.removed && q'.removed[|q.removed|].how == Overwritten {
        assert pc.Evict? && pc.to == k && Storing(k, h', s'.pcs);
      }
    }
  }

  // The three shares of the pool's use list, step by step.

  lemma SlotStep(queues: map<Key, Queue>, mem: map<Ptr, Content>, pc: Pc, p: Ptr)
    ensures Sum(StepQueues(queues, mem, pc), Slots(p))
              + (if pc.Evict? && Full(queues, pc.to) && queues[pc.to].live[0] == p then 1 else 0)
              + (if pc.Look? && Live(queues, PickKey(queues, pc.box))
                    && queues[PickKey(queues, pc.box)].live[0] == p then 1 else 0)
         == Sum(queues, Slots(p)) + (if pc.Store? && pc.to in queues && pc.m.ptr == p then 1 else 0)
  {
    hide Occ;
    match pc
    case Evict(k, _) => if Full(queues, k) { FrontOut(queues, mem, k, Overwritten, p); }
    case Store(k, m) =>
      if k in queues {
        OccConcat(queues[k].live, [m.ptr], p);
        OccOne(m.ptr, p);
        SumUpdate(queues, k, Append(queues[k], m), Slots(p));
      }
    case Look(box, _) =>
      var k := PickKey(queues, box);
      if Live(queues, k) { FrontOut(queues, mem, k, Delivered, p); }
    case _ =>
  }

  lemma FrontOut(queues: map<Key, Queue>, mem: map<Ptr, Content>, k: Key, how: How, p: Ptr)
    requires k in queues && queues[k].live != []
    ensures Sum(queues[k := Front(queues[k], mem, how)], Slots(p)) + (if queues[k].live[0] == p then 1
            else 0) == Sum(queues, Slots(p))
  {
    OccHead(queues[k].live, p);
    SumUpdate(queues, k, Front(queues[k], mem, how), Slots(p));
  }

  lemma PoolStep(pool: Pool<Ptr>, queues: map<Key, Queue>, pc: Pc, f: Ptr, p: Ptr)
    requires Occ(pool.use, p) + Occ(pool.free, p) <= 1
    requires f !in pool.use && f !in pool.free
    requires pc.Evict? && Full(queues, pc.to) ==> queues[pc.to].live[0] in pool.use
    requires pc.FreeMsg? ==> pc.m.ptr in pool.use
    ensures var pool' := StepPool(pool, queues, pc, f);
            && Occ(pool'.use, p)
                 + (if pc.Evict? && Full(queues, pc.to) && queues[pc.to].live[0] == p then 1 else 0)
                 + (if pc.FreeMsg? && pc.m.ptr == p then 1 else 0)
               == Occ(pool.use, p) + (if pc.AllocMsg? && Alloc(pool, f).1 == p then 1 else 0)
            && Occ(pool'.use, p) + Occ(pool'.free, p) <= 1
  {
    hide Occ;
    match pc
    case AllocMsg(_, _) => AllocOcc(pool, f, p);
    case Evict(k, _) => if Full(queues, k) { FreeOcc(pool, queues[k].live[0], p); }
    case FreeMsg(_, m) => FreeOcc(pool, m.ptr, p);
    case _ =>
  }

  lemma AllocOcc(pool: Pool<Ptr>, f: Ptr, p: Ptr)
    requires Occ(pool.use, p) + Occ(pool.free, p) <= 1
    requires f !in pool.use && f !in pool.free
    ensures var (pool', m) := Alloc(pool, f);
            && Occ(pool'.use, p) == Occ(pool.use, p) + (if m == p then 1 else 0)
            && Occ(pool'.use, p) + Occ(pool'.free, p) <= 1
  {
    OccConcat([Alloc(pool, f).1], pool.use, p);
    if pool.free != [] { OccHead(pool.free, p); }
  }

  lemma FreeOcc(pool: Pool<Ptr>, m: Ptr, p: Ptr)
    requires m in pool.use
    ensures Occ(Free(pool, m).use, p) == Occ(pool.use, p) - (if m == p then 1 else 0)
    ensures Occ(Free(pool, m).free, p) == Occ(pool.free, p) + (if m == p then 1 else 0)
  {
    RemoveOcc(pool.use, m, p);
    OccConcat([m], pool.free, p);
  }

  /** What a step makes the thread pick up and put down. */
  lemma CarryStep(s: State, pc: Pc, f: Ptr, p: Ptr)
    requires PcBound(s.queues, s.ctls, pc)
    ensures Carrying(p)(StepPc(s, pc, f))
              + (if pc.Store? && pc.to in s.queues && pc.m.ptr == p then 1 else 0)
              + (if pc.FreeMsg? && pc.m.ptr == p then 1 else 0)
              + (if pc.Find? && pc.to !in s.queues && pc.m.ptr == p then 1 else 0)
              + (if pc.Process? && !pc.auto && pc.m.ptr == p then 1 else 0)
         == Carrying(p)(pc)
              + (if pc.AllocMsg? && Alloc(s.pool, f).1 == p then 1 else 0)
              + (if pc.Look? && Live(s.queues, PickKey(s.queues, pc.box))
                    && s.queues[PickKey(s.queues, pc.box)].live[0] == p then 1 else 0)
  {
  }

  lemma OwnerStep(s: State, t: Tid, f: Ptr, p: Ptr)
    requires ShapeLaw(s) && OwnerLaw(s) && t in s.pcs && f !in s.pool.use && f !in s.pool.free
    ensures Owned(Step(s, t, f), p)
  {
    var pc := s.pcs[t];
    assert Owned(s, p);
    Given(s, t, f);
    SumUpdate(s.pcs, t, StepPc(s, pc, f), Carrying(p));
    CarryStep(s, pc, f, p);
    SlotStep(s.queues, s.mem, pc, p);
    PoolStep(s.pool, s.queues, pc, f, p);
    AbandonedStep(s.abandoned, s.queues, pc, p);
  }

  /** What a step gives back to the pool is in use. */
  lemma Given(s: State, t: Tid, f: Ptr)
    requires OwnerLaw(s) && t in s.pcs
    ensures var pc := s.pcs[t];
            && (pc.Evict? && Full(s.queues, pc.to) ==> s.queues[pc.to].live[0] in s.pool.use)
            && (pc.FreeMsg? ==> pc.m.ptr in s.pool.use)
  {
    var pc := s.pcs[t];
    if pc.Evict? && Full(s.queues, pc.to) { QueuedOnce(s, pc.to, 0); }
    if pc.FreeMsg? { CarriedOnce(s, t, pc.m.ptr); }
  }

  lemma AbandonedStep(abandoned: seq<Ptr>, queues: map<Key, Queue>, pc: Pc, p: Ptr)
    ensures Occ(StepAbandoned(abandoned, queues, pc), p)
         == Occ(abandoned, p) + (if pc.Find? && pc.to !in queues && pc.m.ptr == p then 1 else 0)
                              + (if pc.Process? && !pc.auto && pc.m.ptr == p then 1 else 0)
  {
    if pc.Find? || pc.Process? { OccConcat(abandoned, [pc.m.ptr], p); }
  }

  /** Every mailbox and every queue keeps its laws. */
  lemma BoxLawsStep(s: State, t: Tid, f: Ptr, b: ModuleId)
    requires Inv(s) && Enabled(s, Advance(t, f)) && b in s.ctls
    ensures b in Step(s, t, f).ctls && BoxLaws(Step(s, t, f), b)
  {
    assert BoxLaws(s, b);
    hide TokenLaw, MutexLaw, Step;
    TokenStep(s, t, f, b);
    MutexStep(s, t, f, b);
  }

  lemma QueueLawsStep(s: State, t: Tid, f: Ptr, k: Key)
    requires Inv(s) && Enabled(s, Advance(t, f)) && k in s.queues && k.box in s.ctls
    ensures var s' := Step(s, t, f); k in s'.queues && k.box in s'.ctls && QueueLaws(s', k)
  {
    assert QueueLaws(s, k) && BoxLaws(s, k.box);
    hide TokenLaw, MutexLaw, LogLaw, DropLaw, Step;
    LogStep(s, t, f, k);
    DropStep(s, t, f, k);
  }

  lemma AllMutex(s: State)
    requires Inv(s)
    ensures forall b :: b in s.ctls ==> MutexLaw(s.ctls[b], s.pcs, b)
  {
    forall b | b in s.ctls ensures MutexLaw(s.ctls[b], s.pcs, b) {
      assert BoxLaws(s, b);
    }
  }

  lemma SameKeys(s: State, t: Tid, f: Ptr)
    requires t in s.pcs
    ensures Step(s, t, f).queues.Keys == s.queues.Keys && Step(s, t, f).ctls.Keys == s.ctls.Keys
  {
  }

  lemma AdvanceInv(s: State, t: Tid, f: Ptr)
    requires Inv(s) && Enabled(s, Advance(t, f))
    ensures Inv(Step(s, t, f))
  {
    hide ShapeLaw, BoxLaws, MutexLaw, QueueLaws, CapacityLaw, ContentLaw, OwnerLaw, Step, Ready;
    SameKeys(s, t, f);
    OwnerLawStep(s, t, f);
    forall b | b in s.ctls ensures BoxLaws(Step(s, t, f), b) {
      BoxLawsStep(s, t, f, b);
    }
    forall k | k in s.queues && k.box in s.ctls ensures QueueLaws(Step(s, t, f), k) {
      QueueLawsStep(s, t, f, k);
    }
    RestStep(s, t, f);
  }

  lemma OwnerLawStep(s: State, t: Tid, f: Ptr)
    requires Inv(s) && Enabled(s, Advance(t, f))
    ensures OwnerLaw(Step(s, t, f))
  {
    hide Owned, Step;
    forall p: Ptr ensures Owned(Step(s, t, f), p) {
      OwnerStep(s, t, f, p);
    }
  }

  lemma RestStep(s: State, t: Tid, f: Ptr)
    requires Inv(s) && Enabled(s, Advance(t, f))
    ensures ShapeLaw(Step(s, t, f)) && CapacityLaw(Step(s, t, f).queues, Step(s, t, f).pcs)
    ensures ContentLaw(Step(s, t, f).mem, Step(s, t, f).pcs)
  {
    AllMutex(s);
    hide ShapeLaw, BoxLaws, MutexLaw, QueueLaws, CapacityLaw, ContentLaw, OwnerLaw, Step, Ready;
    ShapeStep(s, t, f);
    CapacityStep(s, t, f);
    ContentStep(s, t, f);
  }

  lemma StartLaws(s: State, t: Tid, pc: Pc, b: ModuleId)
    requires t in s.pcs && s.pcs[t] == Idle && MayStart(s.ctls, pc) && b in s.ctls && BoxLaws(s, b)
    ensures BoxLaws(s.(pcs := s.pcs[t := pc]), b)
  {
    assert !Inside(b, s.pcs[t]) && !Inside(b, pc);
    SumUpdate(s.pcs, t, pc, Pending(b));
  }

  lemma StartInv(s: State, t: Tid, pc: Pc)
    requires Inv(s) && Enabled(s, Start(t, pc))
    ensures Inv(Apply(s, Start(t, pc)))
  {
    hide TokenLaw, MutexLaw, LogLaw, Owned;
    var s' := Apply(s, Start(t, pc));
    forall b | b in s'.ctls ensures BoxLaws(s', b) {
      StartLaws(s, t, pc, b);
    }
    forall k | k in s'.queues && k.box in s'.ctls ensures QueueLaws(s', k) {
      assert QueueLaws(s, k);
    }
    forall p: Ptr ensures Owned(s', p) {
      StartOwner(s, t, pc, p);
    }
  }

  lemma StartOwner(s: State, t: Tid, pc: Pc, p: Ptr)
    requires Owned(s, p) && t in s.pcs && s.pcs[t] == Idle && (pc.AllocMsg? || pc.ReadFind?)
    ensures Owned(s.(pcs := s.pcs[t := pc]), p)
  {
    SumUpdate(s.pcs, t, pc, Carrying(p));
  }

  /** The action between two states of a run */
  lemma ActionAt(c: Config, tr: seq<State>, i: nat) returns (a: Action)
    requires IsRun(c, tr) && i + 1 < |tr|
    ensures Enabled(tr[i], a) && tr[i + 1] == Apply(tr[i], a)
  {
    assert Next(tr[i], tr[i + 1]);
    a :| Enabled(tr[i], a) && tr[i + 1] == Apply(tr[i], a);
  }

  lemma ActionInv(s: State, a: Action)
    requires Inv(s) && Enabled(s, a)
    ensures Inv(Apply(s, a)) && Apply(s, a).ctls.Keys == s.ctls.Keys && Apply(s, a).pcs.Keys == s.pcs.Keys
  {
    hide Inv;
    match a
    case Start(t, pc) => StartInv(s, t, pc);
    case Advance(t, f) => AdvanceInv(s, t, f);
  }

  lemma RunStart(c: Config, tr: seq<State>)
    requires IsRun(c, tr)
    ensures Inv(tr[0]) && tr[0].ctls.Keys == c.modules && tr[0].pcs.Keys == c.threads
  {
    InitInv(c);
  }

  lemma {:induction false} RunInv(c: Config, tr: seq<State>, i: nat)
    requires IsRun(c, tr) && i < |tr|
    ensures Inv(tr[i]) && tr[i].ctls.Keys == c.modules && tr[i].pcs.Keys == c.threads
  {
    hide *;
    if i == 0 {
      RunStart(c, tr);
    } else {
      RunInv(c, tr, i - 1);
      var a := ActionAt(c, tr, i - 1);
      ActionInv(tr[i - 1], a);
    }
  }

  // ----- what the laws mean for every run -----

  /** Token accounting of a mailbox, and every NULL read is paid for by an earlier drop. */
  lemma TokenAccounting(c: Config, tr: seq<State>, i: nat, b: ModuleId)
    requires IsRun(c, tr) && i < |tr| && b in c.modules
    ensures var s := tr[i];
            && b in s.ctls
            && s.ctls[b].sem + Sum(s.pcs, Pending(b)) == Queued(s.queues, b) + s.ctls[b].drops - s.ctls[b].nulls
            && s.ctls[b].nulls <= s.ctls[b].drops
  {
    RunInv(c, tr, i);
    assert BoxLaws(tr[i], b);
  }

  /** A reader that looks and finds nothing: strictly more messages have been dropped than NULLs read. */
  lemma NullIsPaidFor(c: Config, tr: seq<State>, i: nat, t: Tid)
    requires IsRun(c, tr) && i < |tr| && t in tr[i].pcs && tr[i].pcs[t].Look?
    ensures var s, b := tr[i], tr[i].pcs[t].box;
            b in s.ctls && (Queued(s.queues, b) == 0 ==> s.ctls[b].nulls < s.ctls[b].drops)
  {
    RunInv(c, tr, i);
    var s := tr[i];
    var b := s.pcs[t].box;
    assert PcBound(s.queues, s.ctls, s.pcs[t]) && BoxLaws(s, b);
    SumUpdate(s.pcs, t, s.pcs[t], Pending(b));
  }

  /** No lost wakeup: with messages queued there is a token, or a thread that has yet to post its own or
      to look. */
  lemma NoLostWakeup(c: Config, tr: seq<State>, i: nat, b: ModuleId)
    requires IsRun(c, tr) && i < |tr| && b in c.modules && Queued(tr[i].queues, b) > 0
    ensures b in tr[i].ctls && (tr[i].ctls[b].sem > 0 || exists t :: t in tr[i].pcs && Pends(b, tr[i].pcs[t]))
  {
    TokenAccounting(c, tr, i, b);
    if tr[i].ctls[b].sem == 0 {
      SumWitness(tr[i].pcs, Pending(b));
    }
  }

  /** Either some thread can move, or every thread in a call waits at the semaphore of a mailbox that is
      empty and has no NULL left to give. */
  lemma StandstillOnlyOnEmpty(c: Config, tr: seq<State>, i: nat, t: Tid)
    requires IsRun(c, tr) && i < |tr| && t in tr[i].pcs && tr[i].pcs[t] != Idle
    ensures var s := tr[i];
            || (exists u :: u in s.pcs && Ready(s, s.pcs[u]))
            || (s.pcs[t].ReadWait? && s.pcs[t].box in s.ctls && Queued(s.queues, s.pcs[t].box) == 0
                && s.ctls[s.pcs[t].box].nulls == s.ctls[s.pcs[t].box].drops)
  {
    RunInv(c, tr, i);
    var s, pc := tr[i], tr[i].pcs[t];
    if !Ready(s, pc) {
      var b := Box(pc);
      assert PcBound(s.queues, s.ctls, pc) && BoxLaws(s, b);
      if s.ctls[b].lock.LockedBy? {
        HolderReady(s, b);
      } else if Sum(s.pcs, Pending(b)) > 0 {
        SumWitness(s.pcs, Pending(b));
        var u :| u in s.pcs && Pends(b, s.pcs[u]);
        assert Ready(s, s.pcs[u]);
      }
    }
  }

  lemma HolderReady(s: State, b: ModuleId)
    requires b in s.ctls && MutexLaw(s.ctls[b], s.pcs, b) && s.ctls[b].lock.LockedBy?
    ensures s.ctls[b].lock.holder in s.pcs && Ready(s, s.pcs[s.ctls[b].lock.holder])
  {
    assert Inside(b, s.pcs[s.ctls[b].lock.holder]);
  }

  /** Ownership across the whole system: a message is in use exactly as often as it sits in a slot, is
      carried or abandoned, which is at most once; so no two slots, no slot and no thread, and no two
      threads share one. */
  lemma Ownership(c: Config, tr: seq<State>, i: nat, p: Ptr)
    requires IsRun(c, tr) && i < |tr|
    ensures var s := tr[i];
            && Occ(s.pool.use, p) == Sum(s.queues, Slots(p)) + Sum(s.pcs, Carrying(p)) + Occ(s.abandoned, p)
            && Occ(s.pool.use, p) + Occ(s.pool.free, p) <= 1
  {
    RunInv(c, tr, i);
    hide IsRun;
    assert Owned(tr[i], p);
  }

  lemma SlotsDistinct(c: Config, tr: seq<State>, i: nat, k: Key, j: nat, k': Key, j': nat)
    requires IsRun(c, tr) && i < |tr| && k in tr[i].queues && k' in tr[i].queues
    requires j < |tr[i].queues[k].live| && j' < |tr[i].queues[k'].live| && (k, j) != (k', j')
    ensures tr[i].queues[k].live[j] != tr[i].queues[k'].live[j']
  {
    hide IsRun, ShapeLaw, BoxLaws, QueueLaws, CapacityLaw, ContentLaw, OwnerLaw;
    RunInv(c, tr, i);
    QueuedOnce(tr[i], k, j);
    hide *;
  }

  lemma CarriedAlone(c: Config, tr: seq<State>, i: nat, t: Tid, p: Ptr)
    requires IsRun(c, tr) && i < |tr| && t in tr[i].pcs && Carries(tr[i].pcs[t], p)
    ensures p in tr[i].pool.use && p !in tr[i].pool.free && p !in tr[i].abandoned
    ensures forall k :: k in tr[i].queues ==> p !in tr[i].queues[k].live
    ensures forall u :: u in tr[i].pcs && u != t ==> !Carries(tr[i].pcs[u], p)
  {
    RunInv(c, tr, i);
    CarriedOnce(tr[i], t, p);
  }

  /** Order and content.  Per mailbox and priority what was sent is what has gone followed by what is
      queued, the content in memory being the content sent; what a reader holds is what was sent. */
  lemma DeliveredAsSent(c: Config, tr: seq<State>, i: nat, k: Key)
    requires IsRun(c, tr) && i < |tr| && k.box in c.modules && k.pri < PRIORITIES
    ensures var s := tr[i];
            && k in s.queues && |s.queues[k].live| <= CAPACITY
            && s.queues[k].sent == Contents(s.queues[k].removed) + Current(s.queues[k].live, s.mem)
    ensures forall t, p :: t in tr[i].pcs && CarriesFilled(tr[i].pcs[t], p) ==>
              ReadMem(tr[i].mem, p) == Says(tr[i].pcs[t])
  {
    RunInv(c, tr, i);
    assert k == Key(k.box, k.pri) && QueueLaws(tr[i], k);
  }

  /** Deliveries of one mailbox and priority are a subsequence of the sends, in order. */
  lemma DeliveredInOrder(c: Config, tr: seq<State>, i: nat, k: Key)
    requires IsRun(c, tr) && i < |tr| && k.box in c.modules && k.pri < PRIORITIES
    ensures k in tr[i].queues
    ensures Subsequence(Pick(tr[i].queues[k].removed, (r: Removal) => r.how == Delivered, (r: Removal) => r.content),
                        tr[i].queues[k].sent)
  {
    DeliveredAsSent(c, tr, i, k);
    var q := tr[i].queues[k];
    PickSubsequence(q.removed, (r: Removal) => r.how == Delivered, (r: Removal) => r.content, Contents(q.removed));
    SubsequenceExtend(Pick(q.removed, (r: Removal) => r.how == Delivered, (r: Removal) => r.content),
                      Contents(q.removed), Current(q.live, tr[i].mem));
  }

  /** The j-th message of a mailbox and priority is overwritten only after 128 later ones of the same
      mailbox and priority have been sent, the last of which may still be on its way into its slot. */
  lemma OverwrittenLate(c: Config, tr: seq<State>, i: nat, k: Key, j: nat)
    requires IsRun(c, tr) && i < |tr| && k.box in c.modules && k.pri < PRIORITIES
    requires k in tr[i].queues && j < |tr[i].queues[k].removed| && tr[i].queues[k].removed[j].how == Overwritten
    ensures var s := tr[i];
            && k.box in s.ctls && j < |s.queues[k].sent|
            && s.queues[k].removed[j].content == s.queues[k].sent[j]
            && |s.queues[k].sent| - 1 - j + (if Storing(k, s.ctls[k.box], s.pcs) then 1 else 0) >= CAPACITY
  {
    RunInv(c, tr, i);
    assert QueueLaws(tr[i], k);
    assert Contents(tr[i].queues[k].removed)[j] == tr[i].queues[k].sent[j];
  }

  /** A read takes the front of the highest non-empty priority. */
  lemma HighestFirst(c: Config, tr: seq<State>, i: nat, k: Key, e: Content)
    requires IsRun(c, tr) && i + 1 < |tr| && k in tr[i].queues && k in tr[i + 1].queues
    requires tr[i + 1].queues[k].removed == tr[i].queues[k].removed + [Removal(e, Delivered)]
    ensures forall pri: nat :: pri < k.pri ==> Len(tr[i].queues, Key(k.box, pri)) == 0
    ensures tr[i].queues[k].live != [] && tr[i + 1].queues[k].live == tr[i].queues[k].live[1..]
    ensures e == ReadMem(tr[i].mem, tr[i].queues[k].live[0])
  {
    var a := ActionAt(c, tr, i);
    assert tr[i + 1].queues[k].removed != tr[i].queues[k].removed;
    FrontTaken(tr[i].queues, tr[i].mem, tr[i].pcs[a.t], k, e);
  }

  lemma FrontTaken(queues: map<Key, Queue>, mem: map<Ptr, Content>, pc: Pc, k: Key, e: Content)
    requires k in queues && k in StepQueues(queues, mem, pc)
    requires StepQueues(queues, mem, pc)[k].removed == queues[k].removed + [Removal(e, Delivered)]
    ensures forall pri: nat :: pri < k.pri ==> Len(queues, Key(k.box, pri)) == 0
    ensures queues[k].live != [] && StepQueues(queues, mem, pc)[k].live == queues[k].live[1..]
    ensures e == ReadMem(mem, queues[k].live[0])
  {
    var removed' := StepQueues(queues, mem, pc)[k].removed;
    assert removed'[|queues[k].removed|] == Removal(e, Delivered);
    assert pc.Look? && k == PickKey(queues, pc.box);
  }

  /** A mailbox nobody is busy with, as a value: reads from it drain it as MailboxSpec.Drain says, with
      one NULL to spare for each drop not yet paid out. */
  function AsBox(s: State, b: ModuleId): MailboxSpec.Box<Ptr>
    requires b in s.ctls && forall pri: nat :: pri < PRIORITIES ==> Key(b, pri) in s.queues
  {
    MailboxSpec.Box([s.queues[Key(b, 0)].live, s.queues[Key(b, 1)].live, s.queues[Key(b, 2)].live], s.ctls[b].sem)
  }

  lemma DrainsFromAnyRun(c: Config, tr: seq<State>, i: nat, b: ModuleId, n: nat)
    requires IsRun(c, tr) && i < |tr| && b in c.modules
    requires forall t :: t in tr[i].pcs ==> !Pends(b, tr[i].pcs[t])
    ensures b in tr[i].ctls && forall pri: nat :: pri < PRIORITIES ==> Key(b, pri) in tr[i].queues
    ensures var box := AsBox(tr[i], b);
            && Shape(box) && tr[i].ctls[b].nulls <= tr[i].ctls[b].drops
            && var owed := tr[i].ctls[b].drops - tr[i].ctls[b].nulls;
            forall k :: 0 <= k < n ==>
              Reads(box, n)[k] == if k < |ReadOrder(box)| then Message(ReadOrder(box)[k])
                                  else if k < |ReadOrder(box)| + owed then NoMessage
                                  else Waits
  {
    RunInv(c, tr, i);
    hide IsRun;
    AsBoxTokens(tr[i], b);
    hide *;
    Drain(AsBox(tr[i], b), tr[i].ctls[b].drops - tr[i].ctls[b].nulls, n);
    InReadOrder(AsBox(tr[i], b));
  }

  lemma AsBoxTokens(s: State, b: ModuleId)
    requires Inv(s) && b in s.ctls && forall t :: t in s.pcs ==> !Pends(b, s.pcs[t])
    ensures forall pri: nat :: pri < PRIORITIES ==> Key(b, pri) in s.queues
    ensures var box := AsBox(s, b);
            && Shape(box) && s.ctls[b].nulls <= s.ctls[b].drops
            && box.sem == MailboxSpec.Queued(box) + (s.ctls[b].drops - s.ctls[b].nulls)
  {
    assert BoxLaws(s, b);
    SumZero(s.pcs, Pending(b));
  }

  lemma InReadOrder(box: MailboxSpec.Box<Ptr>)
    requires Shape(box)
    ensures |ReadOrder(box)| == MailboxSpec.Queued(box)
  {
  }
}
