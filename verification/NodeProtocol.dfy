/** The node exchange at the grain of its separate steps: emptiness checks and semaphore waits run
    outside the locks, every locked section is entered, carried out statement by statement and left,
    and any number of threads interleave freely.  (src/utils/node_list/node_list.c:50-156, for runs
    in which neither Drop_Use_Node nor Node_List_Set_Block is called.) */
module NodeProtocol {
  import Paths
  import opened Sums

  type Tid = nat
  type NodeId = nat
  type Payload = seq<int>

  datatype Side = Free | Use
  datatype Role = Producer | Consumer
  datatype Lock = Unlocked | LockedBy(holder: Tid)

  /** What Node_List_Init is called with, and the threads of the run. */
  datatype Config = Config(nodes: nat, keepUpdate: bool, block: bool, threads: set<Tid>)

  /** One of the two lists with its counter, semaphore and mutex. */
  datatype Half = Half(nodes: seq<NodeId>, cnt: int, sem: nat, lock: Lock)

  /** Where a thread is.  `Recheck`, `GetLock` and `GetTake` lie past the semaphore wait; `PutCount`
      and `PutPost` lie between linking the node and posting the semaphore. */
  datatype Pc =
    | Idle
    | FreeCheck
    | UseCheck(role: Role)
    | Wait(side: Side, role: Role)
    | Recheck(role: Role)
    | GetLock(side: Side, role: Role)
    | GetTake(side: Side, role: Role)
    | GetCount(side: Side, role: Role, node: NodeId)
    | GetUnlock(side: Side, role: Role, node: NodeId)
    | PutLock(side: Side, node: NodeId)
    | PutLink(side: Side, node: NodeId)
    | PutCount(side: Side)
    | PutPost(side: Side)
    | PutUnlock(side: Side)

  datatype Entry = Entry(node: NodeId, payload: Payload)
  /** An entry taken off the use list: by a consumer (delivered) or by a producer (overwritten). */
  datatype Removal = Removal(entry: Entry, taker: Role)

  /** What the calls leave behind.  `mem` is the payload each node's data field leads to, `seen` what a
      consumer found there when it took the node. */
  datatype Log = Log(mem: map<NodeId, Payload>, seen: map<NodeId, Payload>,
                     published: seq<Entry>, removed: seq<Removal>)

  /** `producers` and `consumers` are the nodes in the hands of each kind of client between calls.
      `corrupt` is raised by a take from an empty list, `lateNulls` counts NULLs returned after a wait. */
  datatype Clients = Clients(producers: set<NodeId>, consumers: set<NodeId>, corrupt: bool, lateNulls: nat)

  datatype State = State(free: Half, use: Half, pcs: map<Tid, Pc>, clients: Clients, log: Log)
  {
    function Of(side: Side): Half {
      if side == Free then free else use
    }
  }

  function Read(mem: map<NodeId, Payload>, x: NodeId): Payload {
    if x in mem then mem[x] else []
  }

  function Iota(n: nat): (s: seq<NodeId>) {
    seq(n, i => i)
  }

  /** The state Node_List_Init leaves: every node freed in turn. */
  function Init(c: Config): State {
    State(
      Half(Iota(c.nodes), c.nodes, c.nodes, Unlocked), Half([], 0, 0, Unlocked),
      map t | t in c.threads :: Idle, Clients({}, {}, false, 0), Log(map[], map[], [], []))
  }

  // ----- what a thread's next statement does -----

  /** Where the thread goes. */
  function StepPc(c: Config, free: seq<NodeId>, use: seq<NodeId>, pc: Pc): Pc {
    match pc
    case Idle => Idle
    case FreeCheck => if free == [] && c.keepUpdate then UseCheck(Producer) else Wait(Free, Producer)
    case UseCheck(r) => if use == [] && !c.block then Idle else Wait(Use, r)
    case Wait(side, r) => if side == Free then GetLock(Free, r) else Recheck(r)
    case Recheck(r) => if use == [] then Idle else GetLock(Use, r)
    case GetLock(side, r) => GetTake(side, r)
    case GetTake(side, r) =>
      var nodes := if side == Free then free else use;
      if nodes == [] then Idle else GetCount(side, r, nodes[0])
    case GetCount(side, r, x) => GetUnlock(side, r, x)
    case GetUnlock(_, _, _) => Idle
    case PutLock(side, x) => PutLink(side, x)
    case PutLink(side, _) => PutCount(side)
    case PutCount(side) => PutPost(side)
    case PutPost(side) => PutUnlock(side)
    case PutUnlock(_) => Idle
  }

  /** What happens to the list of side `side`, its counter, semaphore and mutex. */
  function StepHalf(h: Half, side: Side, t: Tid, pc: Pc): Half {
    match pc
    case Wait(q, _) => if q == side && h.sem > 0 then h.(sem := h.sem - 1) else h
    case GetLock(q, _) => if q == side then h.(lock := LockedBy(t)) else h
    case GetTake(q, _) => if q == side && h.nodes != [] then h.(nodes := h.nodes[1..]) else h
    case GetCount(q, _, _) => if q == side then h.(cnt := h.cnt - 1) else h
    case GetUnlock(q, _, _) => if q == side then h.(lock := Unlocked) else h
    case PutLock(q, _) => if q == side then h.(lock := LockedBy(t)) else h
    case PutLink(q, x) => if q == side then h.(nodes := h.nodes + [x]) else h
    case PutCount(q) => if q == side then h.(cnt := h.cnt + 1) else h
    case PutPost(q) => if q == side then h.(sem := h.sem + 1) else h
    case PutUnlock(q) => if q == side then h.(lock := Unlocked) else h
    case _ => h
  }

  /** What the clients get: the node on return, a NULL after the wait, or a node that is none. */
  function StepClients(cl: Clients, free: seq<NodeId>, use: seq<NodeId>, pc: Pc): Clients {
    match pc
    case GetUnlock(_, r, x) =>
      if r == Producer then cl.(producers := cl.producers + {x}) else cl.(consumers := cl.consumers + {x})
    case Recheck(_) => if use == [] then cl.(lateNulls := cl.lateNulls + 1) else cl
    case GetTake(side, _) =>
      if (if side == Free then free else use) == [] then cl.(corrupt := true) else cl
    case _ => cl
  }

  /** What is recorded: linking into the use list publishes, taking from it removes. */
  function StepLog(l: Log, use: seq<NodeId>, pc: Pc): Log {
    if pc.PutLink? && pc.side == Use then
      l.(published := l.published + [Entry(pc.node, Read(l.mem, pc.node))])
    else if pc.GetTake? && pc.side == Use && use != [] then
      var p := Read(l.mem, use[0]);
      l.(removed := l.removed + [Removal(Entry(use[0], p), pc.role)],
         seen := if pc.role == Consumer then l.seen[use[0] := p] else l.seen)
    else l
  }

  function Step(c: Config, s: State, t: Tid): State
    requires t in s.pcs
  {
    var pc := s.pcs[t];
    State(StepHalf(s.free, Free, t, pc), StepHalf(s.use, Use, t, pc),
          s.pcs[t := StepPc(c, s.free.nodes, s.use.nodes, pc)],
          StepClients(s.clients, s.free.nodes, s.use.nodes, pc), StepLog(s.log, s.use.nodes, pc))
  }

  /** A client starts a call or fills a node it holds; a thread in a call takes its next step. */
  datatype Action =
    | Start(t: Tid, pc: Pc)
    | Fill(node: NodeId, payload: Payload)
    | Advance(t: Tid)

  /** Handles are used once, by whoever obtained them: a producer publishes what producers hold, a
      consumer releases what consumers hold. */
  predicate MayStart(cl: Clients, pc: Pc) {
    match pc
    case FreeCheck => true
    case UseCheck(r) => r == Consumer
    case PutLock(Use, x) => x in cl.producers
    case PutLock(Free, x) => x in cl.consumers
    case _ => false
  }

  function GiveUp(cl: Clients, pc: Pc): Clients {
    match pc
    case PutLock(Use, x) => cl.(producers := cl.producers - {x})
    case PutLock(Free, x) => cl.(consumers := cl.consumers - {x})
    case _ => cl
  }

  /** Blocked only at a semaphore without tokens or at a mutex someone holds. */
  predicate Ready(s: State, pc: Pc) {
    match pc
    case Idle => false
    case Wait(side, _) => s.Of(side).sem > 0
    case GetLock(side, _) => s.Of(side).lock == Unlocked
    case PutLock(side, _) => s.Of(side).lock == Unlocked
    case _ => true
  }

  predicate Enabled(s: State, a: Action) {
    match a
    case Start(t, pc) => t in s.pcs && s.pcs[t] == Idle && MayStart(s.clients, pc)
    case Fill(x, _) => x in s.clients.producers
    case Advance(t) => t in s.pcs && Ready(s, s.pcs[t])
  }

  function Apply(c: Config, s: State, a: Action): State
    requires Enabled(s, a)
  {
    match a
    case Start(t, pc) => s.(pcs := s.pcs[t := pc], clients := GiveUp(s.clients, pc))
    case Fill(x, p) => s.(log := s.log.(mem := s.log.mem[x := p]))
    case Advance(t) => Step(c, s, t)
  }

  ghost predicate Next(c: Config, s: State, s': State) {
    exists a :: Enabled(s, a) && s' == Apply(c, s, a)
  }

  ghost function Steps(c: Config): (State, State) -> bool {
    (s, s') => Next(c, s, s')
  }

  ghost predicate IsRun(c: Config, tr: seq<State>) {
    Paths.IsPath(Steps(c), tr) && tr[0] == Init(c)
  }

  ghost predicate Reaches(c: Config, s: State, s': State) {
    Paths.Leads(Steps(c), s, s')
  }

  // ----- the laws -----

  /** Owes or is owed one token of `side`: past its wait and not yet taken, or linked and not yet posted. */
  function Claiming(side: Side): Pc -> nat {
    (pc: Pc) => if Claims(side, pc) then 1 else 0
  }

  predicate Claims(side: Side, pc: Pc) {
    match pc
    case PutCount(q) => q == side
    case PutPost(q) => q == side
    case Recheck(_) => side == Use
    case GetLock(q, _) => q == side
    case GetTake(q, _) => q == side
    case _ => false
  }

  function TakenUncounted(side: Side): Pc -> nat {
    (pc: Pc) => if pc.GetCount? && pc.side == side then 1 else 0
  }

  function LinkedUncounted(side: Side): Pc -> nat {
    (pc: Pc) => if pc == PutCount(side) then 1 else 0
  }

  function Carrying(x: NodeId): Pc -> nat {
    (pc: Pc) => if Carries(pc, x) then 1 else 0
  }

  predicate Carries(pc: Pc, x: NodeId) {
    match pc
    case GetCount(_, _, y) => x == y
    case GetUnlock(_, _, y) => x == y
    case PutLock(_, y) => x == y
    case PutLink(_, y) => x == y
    case _ => false
  }

  predicate Inside(side: Side, pc: Pc) {
    match pc
    case GetTake(q, _) => q == side
    case GetCount(q, _, _) => q == side
    case GetUnlock(q, _, _) => q == side
    case PutLink(q, _) => q == side
    case PutCount(q) => q == side
    case PutPost(q) => q == side
    case PutUnlock(q) => q == side
    case _ => false
  }

  ghost predicate TokenLaw(h: Half, pcs: map<Tid, Pc>, side: Side) {
    h.sem + Sum(pcs, Claiming(side)) == |h.nodes|
  }

  ghost predicate CountLaw(h: Half, pcs: map<Tid, Pc>, side: Side) {
    h.cnt + Sum(pcs, LinkedUncounted(side)) == |h.nodes| + Sum(pcs, TakenUncounted(side))
  }

  ghost predicate MutexLaw(h: Half, pcs: map<Tid, Pc>, side: Side) {
    && (forall t :: t in pcs ==> (Inside(side, pcs[t]) <==> h.lock == LockedBy(t)))
    && (h.lock.LockedBy? ==> h.lock.holder in pcs)
  }

  /** The number of places node x is in. */
  ghost function Places(s: State, x: NodeId): nat {
    Occ(s.free.nodes, x) + Occ(s.use.nodes, x) + InHand(s.clients, x) + Sum(s.pcs, Carrying(x))
  }

  function InHand(cl: Clients, x: NodeId): nat {
    (if x in cl.producers then 1 else 0) + (if x in cl.consumers then 1 else 0)
  }

  ghost predicate PartitionLaw(c: Config, s: State) {
    forall x: NodeId :: Places(s, x) == if x < c.nodes then 1 else 0
  }

  function Entries(removed: seq<Removal>): (es: seq<Entry>) {
    seq(|removed|, i requires 0 <= i < |removed| => removed[i].entry)
  }

  function Current(use: seq<NodeId>, mem: map<NodeId, Payload>): seq<Entry> {
    seq(|use|, i requires 0 <= i < |use| => Entry(use[i], Read(mem, use[i])))
  }

  /** Published = removed ++ still on the use list, nodes and payloads alike. */
  ghost predicate LogLaw(l: Log, use: seq<NodeId>) {
    l.published == Entries(l.removed) + Current(use, l.mem)
  }

  /** x is on its way out of a consumer's Get_Use_Node or into its Put_Free_Node. */
  predicate ConsumerCarries(pc: Pc, x: NodeId) {
    match pc
    case GetCount(_, r, y) => r == Consumer && x == y
    case GetUnlock(_, r, y) => r == Consumer && x == y
    case PutLock(side, y) => side == Free && x == y
    case PutLink(side, y) => side == Free && x == y
    case _ => false
  }

  /** As long as a consumer holds a node, its payload is the one found on taking it, which is recorded
      as delivered. */
  ghost predicate SeenLaw(l: Log, cl: Clients, pcs: map<Tid, Pc>) {
    && (forall x :: x in l.seen ==> Removal(Entry(x, l.seen[x]), Consumer) in l.removed)
    && (forall x :: x in cl.consumers ==> x in l.seen && l.seen[x] == Read(l.mem, x))
    && (forall t, x :: t in pcs && ConsumerCarries(pcs[t], x) ==> x in l.seen && l.seen[x] == Read(l.mem, x))
  }

  /** Only producers use the free list; producers reach the use list in keep-update mode only. */
  predicate PcLaw(c: Config, pc: Pc) {
    match pc
    case UseCheck(r) => r == Producer ==> c.keepUpdate
    case Recheck(r) => r == Producer ==> c.keepUpdate
    case Wait(side, r) => SideRole(c, side, r)
    case GetLock(side, r) => SideRole(c, side, r)
    case GetTake(side, r) => SideRole(c, side, r)
    case GetCount(side, r, _) => SideRole(c, side, r)
    case GetUnlock(side, r, _) => SideRole(c, side, r)
    case _ => true
  }

  predicate SideRole(c: Config, side: Side, r: Role) {
    if side == Free then r == Producer else r == Producer ==> c.keepUpdate
  }

  ghost predicate RoleLaw(c: Config, pcs: map<Tid, Pc>, l: Log) {
    && (forall t :: t in pcs ==> PcLaw(c, pcs[t]))
    && (forall i :: 0 <= i < |l.removed| && l.removed[i].taker == Producer ==> c.keepUpdate)
  }

  ghost predicate SideLaws(s: State, side: Side) {
    && TokenLaw(s.Of(side), s.pcs, side)
    && CountLaw(s.Of(side), s.pcs, side)
    && MutexLaw(s.Of(side), s.pcs, side)
  }

  ghost predicate Inv(c: Config, s: State) {
    && SideLaws(s, Free) && SideLaws(s, Use)
    && PartitionLaw(c, s)
    && LogLaw(s.log, s.use.nodes)
    && SeenLaw(s.log, s.clients, s.pcs)
    && RoleLaw(c, s.pcs, s.log)
    && !s.clients.corrupt && s.clients.lateNulls == 0
    && s.pcs.Keys == c.threads
  }

  // ----- every step keeps every law -----

  lemma IotaOcc(n: nat, x: NodeId)
    ensures Occ(Iota(n), x) == if x < n then 1 else 0
  {
    if n > 0 {
      IotaOcc(n - 1, x);
      assert Iota(n) == Iota(n - 1) + [n - 1];
    }
  }

  lemma InitSide(c: Config, side: Side)
    ensures SideLaws(Init(c), side)
  {
    var pcs := Init(c).pcs;
    assert |Iota(c.nodes)| == c.nodes;
    SumZero(pcs, Claiming(side));
    SumZero(pcs, LinkedUncounted(side));
    SumZero(pcs, TakenUncounted(side));
  }

  lemma InitPlaces(c: Config, x: NodeId)
    ensures Places(Init(c), x) == if x < c.nodes then 1 else 0
  {
    SumZero(Init(c).pcs, Carrying(x));
    IotaOcc(c.nodes, x);
  }

  lemma InitInv(c: Config)
    ensures Inv(c, Init(c))
  {
    hide SideLaws, Places, Iota;
    InitSide(c, Free);
    InitSide(c, Use);
    forall x: NodeId ensures Places(Init(c), x) == if x < c.nodes then 1 else 0 {
      InitPlaces(c, x);
    }
  }

  /** A thread holding a claim finds the list non-empty: its own token stands for a node. */
  lemma ClaimNonEmpty(h: Half, pcs: map<Tid, Pc>, side: Side, t: Tid)
    requires TokenLaw(h, pcs, side) && t in pcs && Claims(side, pcs[t])
    ensures h.nodes != []
  {
    SumUpdate(pcs, t, pcs[t], Claiming(side));
  }

  // What one statement does to one thread's share of each law, and so to the law.

  function ListOf(side: Side, free: seq<NodeId>, use: seq<NodeId>): seq<NodeId> {
    if side == Free then free else use
  }

  lemma TokenShare(c: Config, free: seq<NodeId>, use: seq<NodeId>, h: Half, side: Side, t: Tid, pc: Pc)
    requires h.nodes == ListOf(side, free, use) && (pc.Wait? && pc.side == side ==> h.sem > 0)
    requires Claims(side, pc) ==> h.nodes != []
    ensures var h' := StepHalf(h, side, t, pc);
            h'.sem + Claiming(side)(StepPc(c, free, use, pc)) + |h.nodes| == h.sem + Claiming(side)(pc) + |h'.nodes|
  {
  }

  lemma TokenStep(c: Config, s: State, t: Tid, side: Side)
    requires TokenLaw(s.Of(side), s.pcs, side) && t in s.pcs && Ready(s, s.pcs[t])
    ensures TokenLaw(Step(c, s, t).Of(side), Step(c, s, t).pcs, side)
  {
    var pc := s.pcs[t];
    if Claims(side, pc) { ClaimNonEmpty(s.Of(side), s.pcs, side, t); }
    TokenShare(c, s.free.nodes, s.use.nodes, s.Of(side), side, t, pc);
    hide StepPc, StepHalf, StepClients, StepLog;
    SumUpdate(s.pcs, t, StepPc(c, s.free.nodes, s.use.nodes, pc), Claiming(side));
  }

  lemma CountShare(c: Config, free: seq<NodeId>, use: seq<NodeId>, h: Half, side: Side, t: Tid, pc: Pc)
    requires h.nodes == ListOf(side, free, use)
    ensures var h', pc' := StepHalf(h, side, t, pc), StepPc(c, free, use, pc);
            h'.cnt + LinkedUncounted(side)(pc') + TakenUncounted(side)(pc) + |h.nodes|
              == h.cnt + LinkedUncounted(side)(pc) + TakenUncounted(side)(pc') + |h'.nodes|
  {
  }

  lemma CountStep(c: Config, s: State, t: Tid, side: Side)
    requires CountLaw(s.Of(side), s.pcs, side) && t in s.pcs && Ready(s, s.pcs[t])
    ensures CountLaw(Step(c, s, t).Of(side), Step(c, s, t).pcs, side)
  {
    var pc' := StepPc(c, s.free.nodes, s.use.nodes, s.pcs[t]);
    CountShare(c, s.free.nodes, s.use.nodes, s.Of(side), side, t, s.pcs[t]);
    hide StepPc, StepHalf, StepClients, StepLog;
    SumUpdate(s.pcs, t, pc', LinkedUncounted(side));
    SumUpdate(s.pcs, t, pc', TakenUncounted(side));
  }

  lemma MutexShare(c: Config, free: seq<NodeId>, use: seq<NodeId>, h: Half, side: Side, t: Tid, pc: Pc)
    requires h.nodes == ListOf(side, free, use) && (Inside(side, pc) <==> h.lock == LockedBy(t))
    requires pc.GetTake? && pc.side == side ==> h.nodes != []
    requires (pc.GetLock? || pc.PutLock?) && pc.side == side ==> h.lock == Unlocked
    ensures var lock' := StepHalf(h, side, t, pc).lock;
            && (Inside(side, StepPc(c, free, use, pc)) <==> lock' == LockedBy(t))
            && (forall u :: u != t ==> (lock' == LockedBy(u) <==> h.lock == LockedBy(u)))
  {
  }

  lemma MutexStep(c: Config, s: State, t: Tid, side: Side)
    requires TokenLaw(s.Of(side), s.pcs, side) && MutexLaw(s.Of(side), s.pcs, side)
    requires t in s.pcs && Ready(s, s.pcs[t])
    ensures MutexLaw(Step(c, s, t).Of(side), Step(c, s, t).pcs, side)
  {
    if s.pcs[t].GetTake? && s.pcs[t].side == side { ClaimNonEmpty(s.Of(side), s.pcs, side, t); }
    hide TokenLaw;
    MutexShare(c, s.free.nodes, s.use.nodes, s.Of(side), side, t, s.pcs[t]);
    hide StepPc, StepHalf, StepClients, StepLog;
  }

  /** Only linking and taking change how often a node is on a list. */
  lemma OccStep(h: Half, side: Side, t: Tid, pc: Pc, x: NodeId)
    requires pc.GetTake? && pc.side == side ==> h.nodes != []
    ensures Occ(StepHalf(h, side, t, pc).nodes, x)
              + (if pc.GetTake? && pc.side == side && h.nodes[0] == x then 1 else 0)
         == Occ(h.nodes, x) + (if pc == PutLink(side, x) then 1 else 0)
  {
    hide Occ;
    match pc
    case GetTake(q, _) => if q == side { OccHead(h.nodes, x); }
    case PutLink(q, y) =>
      if q == side {
        OccConcat(h.nodes, [y], x);
        OccOne(y, x);
      }
    case _ =>
  }

  /** What a step makes the thread pick up and put down. */
  lemma CarryShare(c: Config, free: seq<NodeId>, use: seq<NodeId>, pc: Pc, x: NodeId)
    requires pc.GetTake? ==> ListOf(pc.side, free, use) != []
    ensures Carrying(x)(StepPc(c, free, use, pc))
              + (if pc.GetUnlock? && pc.node == x then 1 else 0) + (if pc.PutLink? && pc.node == x then 1 else 0)
         == Carrying(x)(pc) + (if pc.GetTake? && ListOf(pc.side, free, use)[0] == x then 1 else 0)
  {
  }

  lemma PartitionStep(c: Config, s: State, t: Tid, x: NodeId)
    requires TokenLaw(s.free, s.pcs, Free) && TokenLaw(s.use, s.pcs, Use)
    requires PartitionLaw(c, s) && t in s.pcs
    ensures Places(Step(c, s, t), x) == Places(s, x)
  {
    var pc := s.pcs[t];
    if pc.GetTake? { ClaimNonEmpty(s.Of(pc.side), s.pcs, pc.side, t); }
    if pc.GetUnlock? { CarriedOnce(c, s, pc.node, t); }
    hide TokenLaw, PartitionLaw, StepPc, StepHalf, StepClients, StepLog, Occ, InHand;
    SumUpdate(s.pcs, t, StepPc(c, s.free.nodes, s.use.nodes, pc), Carrying(x));
    CarryShare(c, s.free.nodes, s.use.nodes, pc, x);
    OccStep(s.free, Free, t, pc, x);
    OccStep(s.use, Use, t, pc, x);
    InHandStep(s.clients, s.free.nodes, s.use.nodes, pc, x);
  }

  lemma InHandStep(cl: Clients, free: seq<NodeId>, use: seq<NodeId>, pc: Pc, x: NodeId)
    requires pc.GetUnlock? ==> pc.node !in cl.producers && pc.node !in cl.consumers
    ensures InHand(StepClients(cl, free, use, pc), x)
         == InHand(cl, x) + (if pc.GetUnlock? && pc.node == x then 1 else 0)
  {
  }

  /** A node a thread carries is in no client's hands, on no list and carried by no other thread. */
  lemma CarriedOnce(c: Config, s: State, x: NodeId, t: Tid)
    requires PartitionLaw(c, s) && t in s.pcs && Carries(s.pcs[t], x)
    ensures x !in s.clients.producers && x !in s.clients.consumers && x !in s.free.nodes && x !in s.use.nodes
    ensures forall u :: u in s.pcs && u != t ==> !Carries(s.pcs[u], x)
  {
    assert Places(s, x) <= 1;
    SumUpdate(s.pcs, t, s.pcs[t], Carrying(x));
    forall u | u in s.pcs && u != t ensures !Carries(s.pcs[u], x) {
      SumTwo(s.pcs, t, u, Carrying(x));
    }
  }

  /** A node in a client's hands is in no other client's hands, on no list and carried by no thread. */
  lemma HeldOnce(c: Config, s: State, x: NodeId)
    requires PartitionLaw(c, s) && (x in s.clients.producers || x in s.clients.consumers)
    ensures !(x in s.clients.producers && x in s.clients.consumers) && x !in s.free.nodes && x !in s.use.nodes
    ensures forall t :: t in s.pcs ==> !Carries(s.pcs[t], x)
  {
    assert Places(s, x) <= 1;
    forall t | t in s.pcs ensures !Carries(s.pcs[t], x) {
      SumUpdate(s.pcs, t, s.pcs[t], Carrying(x));
    }
  }

  lemma LogStep(c: Config, s: State, t: Tid)
    requires TokenLaw(s.use, s.pcs, Use) && LogLaw(s.log, s.use.nodes) && t in s.pcs
    ensures LogLaw(Step(c, s, t).log, Step(c, s, t).use.nodes)
  {
    var pc, use, l := s.pcs[t], s.use.nodes, s.log;
    var l', use' := StepLog(l, use, pc), StepHalf(s.use, Use, t, pc).nodes;
    if pc.GetTake? && pc.side == Use {
      ClaimNonEmpty(s.use, s.pcs, Use, t);
      var e := Entry(use[0], Read(l.mem, use[0]));
      assert Entries(l'.removed) == Entries(l.removed) + [e];
      assert Current(use, l.mem) == [e] + Current(use', l.mem);
    } else if pc.PutLink? && pc.side == Use {
      assert Current(use', l.mem) == Current(use, l.mem) + [Entry(pc.node, Read(l.mem, pc.node))];
    }
  }

  /** Nothing is taken off the use list: what was seen stays as it was. */
  lemma SeenOther(c: Config, s: State, t: Tid)
    requires SeenLaw(s.log, s.clients, s.pcs) && RoleLaw(c, s.pcs, s.log) && t in s.pcs
    requires !(s.pcs[t].GetTake? && s.pcs[t].side == Use)
    ensures var s' := Step(c, s, t); SeenLaw(s'.log, s'.clients, s'.pcs)
  {
    var pc, pc' := s.pcs[t], StepPc(c, s.free.nodes, s.use.nodes, s.pcs[t]);
    assert PcLaw(c, pc);
    assert forall x :: ConsumerCarries(pc', x) ==> ConsumerCarries(pc, x);
  }

  /** A take from the use list sees what the node says. */
  lemma SeenTake(c: Config, s: State, t: Tid)
    requires TokenLaw(s.use, s.pcs, Use) && SeenLaw(s.log, s.clients, s.pcs) && t in s.pcs
    requires s.pcs[t].GetTake? && s.pcs[t].side == Use
    ensures var s' := Step(c, s, t); SeenLaw(s'.log, s'.clients, s'.pcs)
  {
    hide TokenLaw;
    ClaimNonEmpty(s.use, s.pcs, Use, t);
    var l, l' := s.log, StepLog(s.log, s.use.nodes, s.pcs[t]);
    var r := Removal(Entry(s.use.nodes[0], Read(l.mem, s.use.nodes[0])), s.pcs[t].role);
    assert l'.removed == l.removed + [r];
    forall x | x in l'.seen ensures Removal(Entry(x, l'.seen[x]), Consumer) in l'.removed {
      assert r in l'.removed;
    }
  }

  lemma SeenStep(c: Config, s: State, t: Tid)
    requires TokenLaw(s.use, s.pcs, Use) && SeenLaw(s.log, s.clients, s.pcs) && RoleLaw(c, s.pcs, s.log)
    requires t in s.pcs
    ensures var s' := Step(c, s, t); SeenLaw(s'.log, s'.clients, s'.pcs)
  {
    hide SeenLaw, RoleLaw, TokenLaw, Step;
    if s.pcs[t].GetTake? && s.pcs[t].side == Use {
      SeenTake(c, s, t);
    } else {
      SeenOther(c, s, t);
    }
  }

  lemma RoleStep(c: Config, s: State, t: Tid)
    requires RoleLaw(c, s.pcs, s.log) && t in s.pcs
    ensures var s' := Step(c, s, t); RoleLaw(c, s'.pcs, s'.log)
  {
    var l' := StepLog(s.log, s.use.nodes, s.pcs[t]);
    assert l'.removed == s.log.removed || l'.removed == s.log.removed + [l'.removed[|l'.removed| - 1]];
  }

  lemma SideLawsStep(c: Config, s: State, t: Tid, side: Side)
    requires SideLaws(s, side) && t in s.pcs && Ready(s, s.pcs[t])
    ensures SideLaws(Step(c, s, t), side)
  {
    hide TokenLaw, CountLaw, MutexLaw, Step;
    TokenStep(c, s, t, side);
    CountStep(c, s, t, side);
    MutexStep(c, s, t, side);
  }

  /** No take from an empty list and no NULL after a wait, this time either. */
  lemma ClientsStep(c: Config, s: State, t: Tid)
    requires SideLaws(s, Free) && SideLaws(s, Use) && t in s.pcs
    requires !s.clients.corrupt && s.clients.lateNulls == 0
    ensures !Step(c, s, t).clients.corrupt && Step(c, s, t).clients.lateNulls == 0
  {
    match s.pcs[t]
    case GetTake(side, _) => ClaimNonEmpty(s.Of(side), s.pcs, side, t);
    case Recheck(_) => ClaimNonEmpty(s.use, s.pcs, Use, t);
    case _ =>
  }

  lemma AdvanceInv(c: Config, s: State, t: Tid)
    requires Inv(c, s) && t in s.pcs && Ready(s, s.pcs[t])
    ensures Inv(c, Step(c, s, t))
  {
    SideLawsStep(c, s, t, Free);
    SideLawsStep(c, s, t, Use);
    ClientsStep(c, s, t);
    assert Step(c, s, t).pcs.Keys == s.pcs.Keys;
    LogStep(c, s, t);
    SeenStep(c, s, t);
    RoleStep(c, s, t);
    hide TokenLaw, CountLaw, MutexLaw, LogLaw, SeenLaw, RoleLaw, Places, Step;
    forall x: NodeId ensures Places(Step(c, s, t), x) == Places(s, x) {
      PartitionStep(c, s, t, x);
    }
  }

  /** A thread at the start of a call owes nothing, and is inside no locked section. */
  predicate AtStart(pc: Pc) {
    pc == FreeCheck || pc.UseCheck? || pc.PutLock?
  }

  lemma StartSide(h: Half, pcs: map<Tid, Pc>, side: Side, t: Tid, pc: Pc)
    requires t in pcs && pcs[t] == Idle && AtStart(pc)
    ensures TokenLaw(h, pcs, side) ==> TokenLaw(h, pcs[t := pc], side)
    ensures CountLaw(h, pcs, side) ==> CountLaw(h, pcs[t := pc], side)
  {
    SumUpdate(pcs, t, pc, Claiming(side));
    SumUpdate(pcs, t, pc, LinkedUncounted(side));
    SumUpdate(pcs, t, pc, TakenUncounted(side));
  }

  lemma StartMutex(h: Half, pcs: map<Tid, Pc>, side: Side, t: Tid, pc: Pc)
    requires t in pcs && pcs[t] == Idle && AtStart(pc) && MutexLaw(h, pcs, side)
    ensures MutexLaw(h, pcs[t := pc], side)
  {
    assert !Inside(side, pcs[t]) && !Inside(side, pc);
  }

  /** Starting a call moves the node from the client's hands to the call; nothing else changes. */
  lemma StartInv(c: Config, s: State, t: Tid, pc: Pc)
    requires Inv(c, s) && t in s.pcs && s.pcs[t] == Idle && MayStart(s.clients, pc)
    ensures Inv(c, Apply(c, s, Start(t, pc)))
  {
    hide Places, TokenLaw, CountLaw, MutexLaw;
    var s' := Apply(c, s, Start(t, pc));
    StartSide(s.free, s.pcs, Free, t, pc);
    StartSide(s.use, s.pcs, Use, t, pc);
    StartMutex(s.free, s.pcs, Free, t, pc);
    StartMutex(s.use, s.pcs, Use, t, pc);
    forall x: NodeId ensures Places(s', x) == Places(s, x) {
      StartPlaces(c, s, t, pc, x);
    }
  }

  lemma StartPlaces(c: Config, s: State, t: Tid, pc: Pc, x: NodeId)
    requires PartitionLaw(c, s) && t in s.pcs && s.pcs[t] == Idle && MayStart(s.clients, pc)
    ensures Places(Apply(c, s, Start(t, pc)), x) == Places(s, x)
  {
    SumUpdate(s.pcs, t, pc, Carrying(x));
  }

  /** Filling a node a producer holds disturbs nothing that is published or being read. */
  lemma FillInv(c: Config, s: State, y: NodeId, p: Payload)
    requires Inv(c, s) && y in s.clients.producers
    ensures Inv(c, Apply(c, s, Fill(y, p)))
  {
    var s' := Apply(c, s, Fill(y, p));
    HeldOnce(c, s, y);
    FillLogs(s.log, s.clients, s.pcs, s.use.nodes, y, p);
    hide Places, TokenLaw, CountLaw, MutexLaw, RoleLaw, LogLaw, SeenLaw;
    forall x: NodeId ensures Places(s', x) == Places(s, x) {
      SamePlaces(s, s', x);
    }
  }

  lemma FillLogs(l: Log, cl: Clients, pcs: map<Tid, Pc>, use: seq<NodeId>, y: NodeId, p: Payload)
    requires LogLaw(l, use) && SeenLaw(l, cl, pcs) && y !in use && y !in cl.consumers
    requires forall t :: t in pcs ==> !Carries(pcs[t], y)
    ensures LogLaw(l.(mem := l.mem[y := p]), use) && SeenLaw(l.(mem := l.mem[y := p]), cl, pcs)
  {
    assert Current(use, l.mem[y := p]) == Current(use, l.mem);
    forall t, x | t in pcs && ConsumerCarries(pcs[t], x) ensures x != y {
      assert Carries(pcs[t], x);
    }
  }

  lemma SamePlaces(s: State, s': State, x: NodeId)
    requires s'.free == s.free && s'.use == s.use && s'.clients == s.clients && s'.pcs == s.pcs
    ensures Places(s', x) == Places(s, x)
  {
  }

  /** The action between two states of a run */
  lemma ActionAt(c: Config, tr: seq<State>, i: nat) returns (a: Action)
    requires IsRun(c, tr) && i + 1 < |tr|
    ensures Enabled(tr[i], a) && tr[i + 1] == Apply(c, tr[i], a)
  {
    assert Steps(c)(tr[i], tr[i + 1]);
    a :| Enabled(tr[i], a) && tr[i + 1] == Apply(c, tr[i], a);
  }

  lemma ActionInv(c: Config, s: State, a: Action)
    requires Inv(c, s) && Enabled(s, a)
    ensures Inv(c, Apply(c, s, a))
  {
    hide Inv;
    match a
    case Start(t, pc) => StartInv(c, s, t, pc);
    case Fill(x, p) => FillInv(c, s, x, p);
    case Advance(t) => AdvanceInv(c, s, t);
  }

  lemma RunStart(c: Config, tr: seq<State>)
    requires IsRun(c, tr)
    ensures tr[0] == Init(c) && Inv(c, tr[0])
  {
    InitInv(c);
  }

  lemma {:induction false} RunInv(c: Config, tr: seq<State>, i: nat)
    requires IsRun(c, tr) && i < |tr|
    ensures Inv(c, tr[i])
  {
    hide *;
    if i == 0 {
      RunStart(c, tr);
    } else {
      RunInv(c, tr, i - 1);
      var a := ActionAt(c, tr, i - 1);
      ActionInv(c, tr[i - 1], a);
    }
  }

  // ----- what the laws mean for every run -----

  /** Semaphore accounting: tokens, plus threads past their wait that have not taken and threads that
      have linked but not posted, are exactly the nodes on the list. */
  lemma TokenAccounting(c: Config, tr: seq<State>, i: nat, side: Side)
    requires IsRun(c, tr) && i < |tr|
    ensures tr[i].Of(side).sem + Sum(tr[i].pcs, Claiming(side)) == |tr[i].Of(side).nodes|
  {
    RunInv(c, tr, i);
  }

  /** No thread ever dequeues from an empty list or gets NULL after its wait, and a thread past its wait
      sees a non-empty list at every point up to its take. */
  lemma NeverTakesFromEmpty(c: Config, tr: seq<State>, i: nat)
    requires IsRun(c, tr) && i < |tr|
    ensures !tr[i].clients.corrupt && tr[i].clients.lateNulls == 0
    ensures forall t, side :: t in tr[i].pcs && Claims(side, tr[i].pcs[t]) ==> tr[i].Of(side).nodes != []
  {
    RunInv(c, tr, i);
    var s := tr[i];
    forall t, side | t in s.pcs && Claims(side, s.pcs[t]) ensures s.Of(side).nodes != [] {
      ClaimNonEmpty(s.Of(side), s.pcs, side, t);
    }
  }

  /** At most one thread is inside the locked section of a list, and with nobody inside the counter is
      the length. */
  lemma LockedSections(c: Config, tr: seq<State>, i: nat, side: Side)
    requires IsRun(c, tr) && i < |tr|
    ensures var pcs := tr[i].pcs;
            forall t, u :: t in pcs && u in pcs && Inside(side, pcs[t]) && Inside(side, pcs[u]) ==> t == u
    ensures tr[i].Of(side).lock == Unlocked ==> tr[i].Of(side).cnt == |tr[i].Of(side).nodes|
  {
    RunSide(c, tr, i, side);
    hide *;
    var s := tr[i];
    OneInside(s.Of(side), s.pcs, side);
    if s.Of(side).lock == Unlocked { CountExact(s.Of(side), s.pcs, side); }
  }

  lemma RunSide(c: Config, tr: seq<State>, i: nat, side: Side)
    requires IsRun(c, tr) && i < |tr|
    ensures TokenLaw(tr[i].Of(side), tr[i].pcs, side) && CountLaw(tr[i].Of(side), tr[i].pcs, side)
    ensures MutexLaw(tr[i].Of(side), tr[i].pcs, side)
  {
    hide IsRun, TokenLaw, CountLaw, MutexLaw;
    RunInv(c, tr, i);
  }

  lemma OneInside(h: Half, pcs: map<Tid, Pc>, side: Side)
    requires MutexLaw(h, pcs, side)
    ensures forall t, u :: t in pcs && u in pcs && Inside(side, pcs[t]) && Inside(side, pcs[u]) ==> t == u
  {
  }

  lemma CountExact(h: Half, pcs: map<Tid, Pc>, side: Side)
    requires MutexLaw(h, pcs, side) && CountLaw(h, pcs, side) && h.lock == Unlocked
    ensures h.cnt == |h.nodes|
  {
    SumZero(pcs, LinkedUncounted(side));
    SumZero(pcs, TakenUncounted(side));
  }

  /** Exclusive ownership: every node of the list is in exactly one place, anything else in none; so the
      lists hold no node twice and share none. */
  lemma ExclusiveOwnership(c: Config, tr: seq<State>, i: nat)
    requires IsRun(c, tr) && i < |tr|
    ensures forall x: NodeId :: Places(tr[i], x) == if x < c.nodes then 1 else 0
    ensures forall j, k :: 0 <= j < k < |tr[i].free.nodes| ==> tr[i].free.nodes[j] != tr[i].free.nodes[k]
    ensures forall j, k :: 0 <= j < k < |tr[i].use.nodes| ==> tr[i].use.nodes[j] != tr[i].use.nodes[k]
    ensures forall x :: x in tr[i].free.nodes ==> x < c.nodes && x !in tr[i].use.nodes
  {
    RunInv(c, tr, i);
    var s := tr[i];
    forall x | x in s.free.nodes ensures x < c.nodes && x !in s.use.nodes {
      assert Places(s, x) <= 1;
    }
    forall j, k | 0 <= j < k < |s.free.nodes| ensures s.free.nodes[j] != s.free.nodes[k] {
      assert Places(s, s.free.nodes[j]) <= 1;
      if s.free.nodes[j] == s.free.nodes[k] { OccTwice(s.free.nodes, j, k); }
    }
    forall j, k | 0 <= j < k < |s.use.nodes| ensures s.use.nodes[j] != s.use.nodes[k] {
      assert Places(s, s.use.nodes[j]) <= 1;
      if s.use.nodes[j] == s.use.nodes[k] { OccTwice(s.use.nodes, j, k); }
    }
  }

  /** The payloads the consumers took, in the order taken. */
  function Delivered(removed: seq<Removal>): seq<Payload> {
    Pick(removed, (r: Removal) => r.taker == Consumer, (r: Removal) => r.entry.payload)
  }

  function Payloads(es: seq<Entry>): (ps: seq<Payload>) {
    seq(|es|, i requires 0 <= i < |es| => es[i].payload)
  }

  /** End to end: what the consumers see is, in order, a subsequence of what was published, the use list
      is the most recent publications in order, and a payload a consumer holds is a published one that
      was recorded as delivered and has not changed since. */
  lemma PayloadIntegrity(c: Config, tr: seq<State>, i: nat)
    requires IsRun(c, tr) && i < |tr|
    ensures var l := tr[i].log; Subsequence(Delivered(l.removed), Payloads(l.published))
    ensures var l := tr[i].log;
            |l.removed| <= |l.published| && Current(tr[i].use.nodes, l.mem) == l.published[|l.removed|..]
    ensures var l := tr[i].log; forall x :: x in tr[i].clients.consumers ==>
              exists k :: 0 <= k < |l.removed| && l.removed[k] == Removal(l.published[k], Consumer)
                       && l.published[k] == Entry(x, Read(l.mem, x))
  {
    RunLog(c, tr, i);
    hide *;
    InLogOrder(tr[i].log, tr[i].use.nodes);
    forall x | x in tr[i].clients.consumers
      ensures var l := tr[i].log;
              exists k :: 0 <= k < |l.removed| && l.removed[k] == Removal(l.published[k], Consumer)
                       && l.published[k] == Entry(x, Read(l.mem, x))
    {
      HeldRecorded(tr[i].log, tr[i].use.nodes, tr[i].clients, tr[i].pcs, x);
    }
  }

  lemma RunLog(c: Config, tr: seq<State>, i: nat)
    requires IsRun(c, tr) && i < |tr|
    ensures LogLaw(tr[i].log, tr[i].use.nodes) && SeenLaw(tr[i].log, tr[i].clients, tr[i].pcs)
  {
    hide IsRun, LogLaw, SeenLaw;
    RunInv(c, tr, i);
  }

  lemma InLogOrder(l: Log, use: seq<NodeId>)
    requires LogLaw(l, use)
    ensures Subsequence(Delivered(l.removed), Payloads(l.published))
    ensures |l.removed| <= |l.published| && Current(use, l.mem) == l.published[|l.removed|..]
  {
    PickSubsequence(l.removed, (r: Removal) => r.taker == Consumer, (r: Removal) => r.entry.payload,
      Payloads(Entries(l.removed)));
    SubsequenceExtend(Delivered(l.removed), Payloads(Entries(l.removed)), Payloads(Current(use, l.mem)));
    assert Payloads(l.published) == Payloads(Entries(l.removed)) + Payloads(Current(use, l.mem));
  }

  lemma HeldRecorded(l: Log, use: seq<NodeId>, cl: Clients, pcs: map<Tid, Pc>, x: NodeId)
    requires LogLaw(l, use) && SeenLaw(l, cl, pcs) && x in cl.consumers
    ensures exists k :: 0 <= k < |l.removed| && l.removed[k] == Removal(l.published[k], Consumer)
                     && l.published[k] == Entry(x, Read(l.mem, x))
  {
    assert Removal(Entry(x, l.seen[x]), Consumer) in l.removed;
    var k :| 0 <= k < |l.removed| && l.removed[k] == Removal(Entry(x, l.seen[x]), Consumer);
    assert Entries(l.removed)[k] == l.published[k];
  }

  /** Every removal takes the oldest publication not yet removed, for the role of the thread that takes it. */
  lemma RemovesOldest(c: Config, tr: seq<State>, i: nat)
    requires IsRun(c, tr) && i + 1 < |tr| && tr[i + 1].log.removed != tr[i].log.removed
    ensures var k := |tr[i].log.removed|;
            && k < |tr[i].log.published|
            && exists t, r :: t in tr[i].pcs && tr[i].pcs[t] == GetTake(Use, r)
                              && tr[i + 1].log.removed == tr[i].log.removed + [Removal(tr[i].log.published[k], r)]
  {
    RunInv(c, tr, i);
    RunInv(c, tr, i + 1);
    var s := tr[i];
    var a := ActionAt(c, tr, i);
    var k := |s.log.removed|;
    var r := s.pcs[a.t].role;
    assert a.t in s.pcs && s.pcs[a.t] == GetTake(Use, r);
    assert tr[i + 1].log.removed
        == s.log.removed + [Removal(Entry(s.use.nodes[0], Read(s.log.mem, s.use.nodes[0])), r)];
    assert s.log.published[k] == Current(s.use.nodes, s.log.mem)[0];
  }

  /** On the overwrite path of Get_Free_Node. */
  predicate Overwriting(pc: Pc) {
    match pc
    case UseCheck(r) => r == Producer
    case Recheck(r) => r == Producer
    case Wait(side, r) => side == Use && r == Producer
    case GetLock(side, r) => side == Use && r == Producer
    case GetTake(side, r) => side == Use && r == Producer
    case _ => false
  }

  /** A producer that overwrites has seen the free list empty in this very call, in keep-update mode. */
  lemma {:induction false} OverwriterSawEmpty(c: Config, tr: seq<State>, i: nat, t: Tid) returns (j: nat)
    requires IsRun(c, tr) && i < |tr| && t in tr[i].pcs && Overwriting(tr[i].pcs[t])
    ensures j < i && t in tr[j].pcs && tr[j].pcs[t] == FreeCheck && tr[j].free.nodes == [] && c.keepUpdate
    ensures forall k :: j < k <= i ==> t in tr[k].pcs && Overwriting(tr[k].pcs[t])
  {
    assert i > 0;
    hide *;
    var a := ActionAt(c, tr, i - 1);
    OverwriteEntry(c, tr[i - 1], a, t);
    if Overwriting(tr[i - 1].pcs[t]) {
      j := OverwriterSawEmpty(c, tr, i - 1, t);
    } else {
      j := i - 1;
    }
    forall k | j < k <= i ensures t in tr[k].pcs && Overwriting(tr[k].pcs[t]) {
      assert k < i || k == i;
    }
  }

  lemma OverwriteEntry(c: Config, s: State, a: Action, t: Tid)
    requires Enabled(s, a) && t in Apply(c, s, a).pcs && Overwriting(Apply(c, s, a).pcs[t])
    ensures t in s.pcs
    ensures Overwriting(s.pcs[t]) || (s.pcs[t] == FreeCheck && s.free.nodes == [] && c.keepUpdate)
  {
  }

  /** No lost wakeup: with nodes on the list but no token, somebody holds a claim on one. */
  lemma NoLostToken(c: Config, tr: seq<State>, i: nat, side: Side)
    requires IsRun(c, tr) && i < |tr|
    requires tr[i].Of(side).nodes != [] && tr[i].Of(side).sem == 0
    ensures exists t :: t in tr[i].pcs && Claims(side, tr[i].pcs[t])
  {
    RunInv(c, tr, i);
    assert SideLaws(tr[i], side);
    SumWitness(tr[i].pcs, Claiming(side));
  }

  /** A thread that cannot enter a locked section is kept out by one that can move. */
  lemma HolderReady(s: State, side: Side)
    requires MutexLaw(s.Of(side), s.pcs, side) && s.Of(side).lock.LockedBy?
    ensures s.Of(side).lock.holder in s.pcs && Ready(s, s.pcs[s.Of(side).lock.holder])
  {
    assert Inside(side, s.pcs[s.Of(side).lock.holder]);
  }

  /** The only way to stand still: either some thread can move, or every thread in a call waits at the
      semaphore of a list that really is empty. */
  lemma StandstillOnlyOnEmpty(c: Config, tr: seq<State>, i: nat, t: Tid)
    requires IsRun(c, tr) && i < |tr| && t in tr[i].pcs && tr[i].pcs[t] != Idle
    ensures (exists u :: u in tr[i].pcs && Ready(tr[i], tr[i].pcs[u]))
            || (tr[i].pcs[t].Wait? && tr[i].Of(tr[i].pcs[t].side).nodes == [])
  {
    RunInv(c, tr, i);
    var s := tr[i];
    if !Ready(s, s.pcs[t]) {
      var side := s.pcs[t].side;
      assert SideLaws(s, side);
      if s.Of(side).lock.LockedBy? {
        HolderReady(s, side);
      } else if s.Of(side).nodes != [] {
        NoLostToken(c, tr, i, side);
        var u :| u in s.pcs && Claims(side, s.pcs[u]);
        assert Ready(s, s.pcs[u]);
      }
    }
  }
}
