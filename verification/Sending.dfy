/** From the arguments of smcf2_send_msg to what is stored and received.  (src/async_msg.c:237-291) */
module Sending {
  import opened MailboxProtocol
  import opened MailboxRuns
  import opened PoolSpec
  import Paths
  import M = MailboxSpec

  // ----- one send, uninterrupted -----

  lemma AllocStep(s: State, t: Tid, to: Key, content: Content)
    requires t in s.pcs && s.pcs[t] == AllocMsg(to, content) && to.box in s.ctls
    ensures forall f :: Step(s, t, f) == s.(pcs := s.pcs[t := FillMsg(to, Msg(Alloc(s.pool, f).1, content))],
            pool := Alloc(s.pool, f).0)
  {
    assert s.ctls[to.box := s.ctls[to.box]] == s.ctls;
  }

  lemma FillStep(s: State, t: Tid, to: Key, m: Msg)
    requires t in s.pcs && s.pcs[t] == FillMsg(to, m) && to.box in s.ctls
    ensures forall f :: Step(s, t, f) == s.(pcs := s.pcs[t := Find(to, m)], mem := s.mem[m.ptr := m.content])
  {
    assert s.ctls[to.box := s.ctls[to.box]] == s.ctls;
  }

  /** Up to the lookup */
  lemma ComposeRun(s: State, t: Tid, to: Key, content: Content) returns (s': State, p: Ptr)
    requires t in s.pcs && s.pcs[t] == Idle && to.pri < M.PRIORITIES && to.box in s.ctls
    ensures Reaches(s, s') && p == Alloc(s.pool, Unused(s.pool)).1
    ensures s' == s.(pcs := s.pcs[t := Find(to, Msg(p, content))], pool := Alloc(s.pool, Unused(s.pool)).0,
                     mem := s.mem[p := content])
  {
    hide Reaches, Step, Alloc, Unused;
    var s1 := MailboxRuns.Begin(s, t, AllocMsg(to, content));
    AllocStep(s1, t, to, content);
    var s2 := Walk(s, s1, t);
    p := Alloc(s.pool, Unused(s.pool)).1;
    FillStep(s2, t, to, Msg(p, content));
    s' := Walk(s, s2, t);
    assert s'.pcs == s.pcs[t := Find(to, Msg(p, content))];
  }

  /** smcf2_send_msg from its start to its return, by a thread that is not interrupted: the queue it was called
      for records exactly what it was called with and ends in a message that says so; nobody held that
      message before; all other queues, and what all other messages say, are as before. */
  lemma SendRun(s: State, t: Tid, to: Key, content: Content) returns (s': State, p: Ptr)
    requires Inv(s) && t in s.pcs && s.pcs[t] == Idle && to in s.queues
    requires to.box in s.ctls ==> s.ctls[to.box].lock == Unlocked
    ensures Reaches(s, s') && Inv(s') && s'.pcs == s.pcs && s'.abandoned == s.abandoned
    ensures p !in s.pool.use && (s.pool.free != [] ==> p == s.pool.free[0])
    ensures s'.queues.Keys == s.queues.Keys && s'.queues[to].sent == s.queues[to].sent + [content]
    ensures var live, live' := s.queues[to].live, s'.queues[to].live;
            live' == (if |live| == M.CAPACITY then live[1..] else live) + [p]
    ensures p in s'.mem && s'.mem[p] == content
    ensures forall k :: k in s.queues && k != to ==> s'.queues[k] == s.queues[k]
    ensures forall q :: q != p ==> ReadMem(s'.mem, q) == ReadMem(s.mem, q)
    ensures to.box in s.ctls && to.box in s'.ctls && s'.ctls[to.box].sem == s.ctls[to.box].sem + 1
  {
    hide *;
    KeyBound(s, to);
    UnusedNow(s.pool);
    Fresh(s, Unused(s.pool));
    var s1;
    s1, p := ComposeRun(s, t, to, content);
    s' := WriteRun(s1, t, to, Msg(p, content));
    ReachesOn(s, s1, s');
    InvReaches(s, s');
    assert s'.pcs == s.pcs;
    WrittenMeans(s.queues[to], s1.mem, Msg(p, content));
    SaysNow(s.mem, p, content);
  }

  lemma KeyBound(s: State, k: Key)
    requires Inv(s) && k in s.queues
    ensures k.box in s.ctls && k.pri < M.PRIORITIES
  {
    assert k == Key(k.box, k.pri);
  }

  lemma UnusedNow(pool: Pool<Ptr>)
    ensures Unused(pool) !in pool.use && Unused(pool) !in pool.free
  {
  }

  lemma WrittenMeans(q: Queue, mem: map<Ptr, Content>, m: Msg)
    ensures Written(q, mem, m).sent == q.sent + [m.content]
    ensures Written(q, mem, m).live == (if |q.live| == M.CAPACITY then q.live[1..] else q.live) + [m.ptr]
  {
  }

  lemma SaysNow(mem: map<Ptr, Content>, p: Ptr, content: Content)
    ensures forall q :: q != p ==> ReadMem(mem[p := content], q) == ReadMem(mem, q)
  {
  }

  lemma Fresh(s: State, f: Ptr)
    requires Inv(s) && f !in s.pool.use && f !in s.pool.free
    ensures Alloc(s.pool, f).1 !in s.pool.use && Alloc(s.pool, f).1 == if s.pool.free != [] then s.pool.free[0] else f
  {
    var p := Alloc(s.pool, f).1;
    assert Owned(s, p);
  }

  // ----- any interleaving -----

  predicate Makes(a: Action, s: State, s': State) {
    Enabled(s, a) && s' == Apply(s, a)
  }

  /** A run with the actions it consists of */
  ghost predicate ActedOut(c: Config, tr: seq<State>, acts: seq<Action>) {
    && IsRun(c, tr) && |tr| == |acts| + 1
    && forall i :: 0 <= i < |acts| ==> Makes(acts[i], tr[i], tr[i + 1])
  }

  /** Every run is one. */
  lemma {:induction false} ActionsUpTo(c: Config, tr: seq<State>, n: nat) returns (acts: seq<Action>)
    requires IsRun(c, tr) && n < |tr|
    ensures |acts| == n && forall i :: 0 <= i < n ==> Makes(acts[i], tr[i], tr[i + 1])
  {
    if n == 0 {
      acts := [];
    } else {
      hide *;
      acts := ActionsUpTo(c, tr, n - 1);
      var a := ActionMade(c, tr, n - 1);
      acts := acts + [a];
    }
  }

  lemma ActionMade(c: Config, tr: seq<State>, i: nat) returns (a: Action)
    requires IsRun(c, tr) && i + 1 < |tr|
    ensures Makes(a, tr[i], tr[i + 1])
  {
    a := ActionAt(c, tr, i);
  }

  lemma ActionsOf(c: Config, tr: seq<State>) returns (acts: seq<Action>)
    requires IsRun(c, tr)
    ensures ActedOut(c, tr, acts)
  {
    acts := ActionsUpTo(c, tr, |tr| - 1);
  }

  lemma Acted(c: Config, tr: seq<State>, acts: seq<Action>)
    requires ActedOut(c, tr, acts)
    ensures IsRun(c, tr) && |tr| == |acts| + 1
  {
  }

  lemma ActAt(c: Config, tr: seq<State>, acts: seq<Action>, i: nat)
    requires ActedOut(c, tr, acts) && i < |acts|
    ensures |tr| == |acts| + 1 && Makes(acts[i], tr[i], tr[i + 1])
  {
  }

  /** The thread is in a call of smcf2_send_msg with these arguments and has not stored yet. */
  predicate Sends(pc: Pc, k: Key, content: Content) {
    match pc
    case AllocMsg(to, c) => to == k && c == content
    case FillMsg(to, m) => to == k && m.content == content
    case Find(to, m) => to == k && m.content == content
    case WriteLock(to, m) => to == k && m.content == content
    case Evict(to, m) => to == k && m.content == content
    case Store(to, m) => to == k && m.content == content
    case _ => false
  }

  predicate HasStored(pc: Pc) {
    pc.WriteUnlock? || pc.Post?
  }

  predicate By(a: Action, t: Tid) {
    a.Advance? && a.t == t
  }

  /** No queue records anything new. */
  predicate NothingSent(s: State, s': State) {
    forall k :: k in s.queues && k in s'.queues ==> s'.queues[k].sent == s.queues[k].sent
  }

  /** Queue k records `content`, and no other queue anything. */
  predicate Records(s: State, s': State, k: Key, content: Content) {
    && k in s.queues && k in s'.queues && s'.queues[k].sent == s.queues[k].sent + [content]
    && forall j :: j in s.queues && j in s'.queues && j != k ==> s'.queues[j].sent == s.queues[j].sent
  }

  // What a step means for what t is sending

  lemma OthersStep(s: State, a: Action, s': State, t: Tid)
    requires Makes(a, s, s') && t in s.pcs && !By(a, t) && s.pcs[t] != Idle
    ensures t in s'.pcs && s'.pcs[t] == s.pcs[t]
  {
  }

  lemma OwnStep(s: State, a: Action, s': State, t: Tid, k: Key, content: Content)
    requires Makes(a, s, s') && t in s.pcs && By(a, t) && Sends(s.pcs[t], k, content)
    ensures t in s'.pcs
    ensures if s.pcs[t].Store? then HasStored(s'.pcs[t]) && (k in s.queues ==> Records(s, s', k, content))
            else
              && NothingSent(s, s')
              && (s'.pcs[t] == Idle <==> s.pcs[t].Find? && k !in s.queues)
              && (s'.pcs[t] != Idle ==> Sends(s'.pcs[t], k, content))
  {
  }

  lemma LaterStep(s: State, a: Action, s': State, t: Tid)
    requires Makes(a, s, s') && t in s.pcs && By(a, t) && HasStored(s.pcs[t])
    ensures t in s'.pcs && NothingSent(s, s') && (s'.pcs[t] == Idle || HasStored(s'.pcs[t]))
  {
  }

  lemma SendStarts(s: State, s': State, t: Tid, k: Key, content: Content)
    requires Makes(Start(t, AllocMsg(k, content)), s, s')
    ensures t in s'.pcs && Sends(s'.pcs[t], k, content) && k.pri < M.PRIORITIES
  {
  }

  /** How far the send that t began with action j has come at state i, p being the action that stored, or -1 */
  ghost predicate Tracked(tr: seq<State>, acts: seq<Action>, j: nat, i: nat, t: Tid, k: Key, content: Content, p: int)
    requires j < i < |tr| == |acts| + 1
  {
    && t in tr[i].pcs
    && (forall q :: j < q < i && By(acts[q], t) && q != p ==> NothingSent(tr[q], tr[q + 1]))
    && if p < 0 then Sends(tr[i].pcs[t], k, content)
       else
         && HasStored(tr[i].pcs[t]) && j < p < i && By(acts[p], t)
         && Records(tr[p], tr[p + 1], k, content)
  }

  lemma TrackFirst(tr: seq<State>, acts: seq<Action>, j: nat, t: Tid, k: Key, content: Content)
    requires j + 1 < |tr| == |acts| + 1 && t in tr[j + 1].pcs && Sends(tr[j + 1].pcs[t], k, content)
    ensures Tracked(tr, acts, j, j + 1, t, k, content, -1)
  {
  }

  lemma TrackNext(c: Config, tr: seq<State>, acts: seq<Action>, j: nat, i: nat, t: Tid, k: Key, content: Content,
    p: int) returns (p': int)
    requires j < i && i + 1 < |tr| == |acts| + 1
    requires Tracked(tr, acts, j, i, t, k, content, p)
    requires Makes(acts[i], tr[i], tr[i + 1])
    requires Inv(tr[i]) && tr[i].pcs.Keys == tr[i + 1].pcs.Keys == c.threads && t in tr[i].pcs
    requires tr[i].pcs[t] != Idle && tr[i + 1].pcs[t] != Idle
    ensures Tracked(tr, acts, j, i + 1, t, k, content, p')
  {
    hide *;
    StoresBound(tr[i], t, k, content);
    TrackedMeans(tr, acts, j, i, t, k, content, p);
    p' := p;
    if !By(acts[i], t) {
      OthersStep(tr[i], acts[i], tr[i + 1], t);
    } else if p >= 0 {
      LaterStep(tr[i], acts[i], tr[i + 1], t);
    } else {
      OwnStep(tr[i], acts[i], tr[i + 1], t, k, content);
      if tr[i].pcs[t].Store? { p' := i; }
    }
    TrackedIf(tr, acts, j, i + 1, t, k, content, p');
  }

  lemma TrackedIf(tr: seq<State>, acts: seq<Action>, j: nat, i: nat, t: Tid, k: Key, content: Content, p: int)
    requires j < i < |tr| == |acts| + 1 && t in tr[i].pcs
    requires forall q :: j < q < i && By(acts[q], t) && q != p ==> NothingSent(tr[q], tr[q + 1])
    requires if p < 0 then Sends(tr[i].pcs[t], k, content)
             else HasStored(tr[i].pcs[t]) && j < p < i && By(acts[p], t) && Records(tr[p], tr[p + 1], k, content)
    ensures Tracked(tr, acts, j, i, t, k, content, p)
  {
  }

  lemma {:induction false} Track(c: Config, tr: seq<State>, acts: seq<Action>, j: nat, i: nat, t: Tid, k: Key,
    content: Content) returns (p: int)
    requires ActedOut(c, tr, acts) && j < i < |tr| && acts[j] == Start(t, AllocMsg(k, content))
    requires forall q :: j < q <= i && t in tr[q].pcs ==> tr[q].pcs[t] != Idle
    ensures Tracked(tr, acts, j, i, t, k, content, p)
    decreases i
  {
    hide *;
    Acted(c, tr, acts);
    ActAt(c, tr, acts, j);
    ActAt(c, tr, acts, i - 1);
    if i == j + 1 {
      SendStarts(tr[j], tr[j + 1], t, k, content);
      p := -1;
      TrackFirst(tr, acts, j, t, k, content);
    } else {
      p := Track(c, tr, acts, j, i - 1, t, k, content);
      RunInv(c, tr, i - 1);
      RunInv(c, tr, i);
      TrackedMeans(tr, acts, j, i - 1, t, k, content, p);
      p := TrackNext(c, tr, acts, j, i - 1, t, k, content, p);
    }
  }

  lemma StoresBound(s: State, t: Tid, k: Key, content: Content)
    requires Inv(s) && t in s.pcs
    ensures Sends(s.pcs[t], k, content) && s.pcs[t].Store? ==> k in s.queues
  {
    assert PcBound(s.queues, s.ctls, s.pcs[t]);
  }

  lemma TrackedMeans(tr: seq<State>, acts: seq<Action>, j: nat, i: nat, t: Tid, k: Key, content: Content, p: int)
    requires j < i < |tr| == |acts| + 1 && Tracked(tr, acts, j, i, t, k, content, p)
    ensures t in tr[i].pcs
    ensures forall q :: j < q < i && By(acts[q], t) && q != p ==> NothingSent(tr[q], tr[q + 1])
    ensures if p < 0 then Sends(tr[i].pcs[t], k, content)
            else HasStored(tr[i].pcs[t]) && j < p < i && By(acts[p], t) && Records(tr[p], tr[p + 1], k, content)
  {
  }

  lemma NotIdle(pc: Pc)
    ensures pc == Idle ==> !HasStored(pc)
  {
  }

  lemma RecordsIn(s: State, s': State, k: Key, content: Content)
    requires Records(s, s', k, content)
    ensures k in s.queues
  {
  }

  /** A call of smcf2_send_msg, begun with action j and returning with action i of any interleaved run.  If the
      receiver has a mailbox, exactly one of its steps records something: what the call was started with, in
      the queue it was started for.  If not, none does. */
  lemma SentIsStored(c: Config, tr: seq<State>, acts: seq<Action>, j: nat, i: nat, t: Tid, k: Key, content: Content)
    returns (p: int)
    requires ActedOut(c, tr, acts) && j < i < |acts| && acts[j] == Start(t, AllocMsg(k, content))
    requires forall q :: j < q <= i && t in tr[q].pcs ==> tr[q].pcs[t] != Idle
    requires t in tr[i + 1].pcs && tr[i + 1].pcs[t] == Idle
    ensures if k.box in c.modules then j < p < i && By(acts[p], t) && Records(tr[p], tr[p + 1], k, content)
            else p == -1
    ensures forall q :: j < q <= i && By(acts[q], t) && q != p ==> NothingSent(tr[q], tr[q + 1])
  {
    hide *;
    Acted(c, tr, acts);
    ActAt(c, tr, acts, j);
    ActAt(c, tr, acts, i);
    SendStarts(tr[j], tr[j + 1], t, k, content);
    p := Track(c, tr, acts, j, i, t, k, content);
    TrackedMeans(tr, acts, j, i, t, k, content, p);
    if !By(acts[i], t) {
      OthersStep(tr[i], acts[i], tr[i + 1], t);
    } else if p >= 0 {
      LaterStep(tr[i], acts[i], tr[i + 1], t);
      RecordsIn(tr[p], tr[p + 1], k, content);
      BoundAt(c, tr, p, k);
    } else {
      OwnStep(tr[i], acts[i], tr[i + 1], t, k, content);
      NotIdle(tr[i + 1].pcs[t]);
      BoundAt(c, tr, i, k);
      p := -1;
    }
  }

  lemma BoundAt(c: Config, tr: seq<State>, i: nat, k: Key)
    requires IsRun(c, tr) && i < |tr|
    ensures k in tr[i].queues <==> k.box in c.modules && k.pri < M.PRIORITIES
  {
    RunInv(c, tr, i);
    assert k == Key(k.box, k.pri);
  }

  // ----- and back: whatever is stored was sent, whatever is received was stored -----

  /** A thread that is sending began to do so with these arguments. */
  lemma {:induction false} SendBegan(c: Config, tr: seq<State>, acts: seq<Action>, i: nat, t: Tid, k: Key,
    content: Content) returns (j: nat)
    requires ActedOut(c, tr, acts) && i < |tr| && t in tr[i].pcs && Sends(tr[i].pcs[t], k, content)
    ensures j < i && acts[j] == Start(t, AllocMsg(k, content))
    ensures forall q :: j < q <= i ==> t in tr[q].pcs && Sends(tr[q].pcs[t], k, content)
    decreases i
  {
    hide Sends;
    if i == 0 {
      IdleFirst(c, tr, t, k, content);
    } else {
      SendEntry(tr[i - 1], acts[i - 1], tr[i], t, k, content);
      if acts[i - 1] == Start(t, AllocMsg(k, content)) {
        j := i - 1;
      } else {
        j := SendBegan(c, tr, acts, i - 1, t, k, content);
      }
      forall q | j < q <= i ensures t in tr[q].pcs && Sends(tr[q].pcs[t], k, content) {
        assert q < i || q == i;
      }
    }
  }

  lemma IdleFirst(c: Config, tr: seq<State>, t: Tid, k: Key, content: Content)
    requires IsRun(c, tr) && t in tr[0].pcs
    ensures !Sends(tr[0].pcs[t], k, content)
  {
  }

  lemma SendEntry(s: State, a: Action, s': State, t: Tid, k: Key, content: Content)
    requires Makes(a, s, s') && t in s'.pcs && Sends(s'.pcs[t], k, content)
    ensures t in s.pcs && (Sends(s.pcs[t], k, content) || a == Start(t, AllocMsg(k, content)))
  {
  }

  /** Only a store changes what a queue records. */
  lemma Storer(s: State, a: Action, s': State, k: Key)
    requires Makes(a, s, s') && k in s.queues && k in s'.queues
    ensures a.t in s.pcs
    ensures if a.Advance? && s.pcs[a.t].Store? && s.pcs[a.t].to == k then
              && By(a, a.t) && Sends(s.pcs[a.t], k, s.pcs[a.t].m.content)
              && s'.queues[k].sent == s.queues[k].sent + [s.pcs[a.t].m.content]
            else s'.queues[k].sent == s.queues[k].sent
  {
  }

  /** Position n of what a queue has recorded comes from a call of smcf2_send_msg with exactly that content for
      exactly that queue: action j began it, action p stored. */
  lemma {:induction false} StoredWasSent(c: Config, tr: seq<State>, acts: seq<Action>, i: nat, k: Key, n: nat)
    returns (j: nat, p: nat, t: Tid)
    requires ActedOut(c, tr, acts) && i < |tr| && k in tr[i].queues && n < |tr[i].queues[k].sent|
    ensures j < p < i && acts[j] == Start(t, AllocMsg(k, tr[i].queues[k].sent[n])) && By(acts[p], t)
    ensures k in tr[p].queues && |tr[p].queues[k].sent| == n
    ensures Records(tr[p], tr[p + 1], k, tr[i].queues[k].sent[n])
    ensures forall q :: j < q <= p ==> t in tr[q].pcs && Sends(tr[q].pcs[t], k, tr[i].queues[k].sent[n])
    decreases i
  {
    hide *;
    Acted(c, tr, acts);
    BoundAt(c, tr, i, k);
    if i == 0 {
      NoneSent(c, tr, k);
    } else {
      BoundAt(c, tr, i - 1, k);
      ActAt(c, tr, acts, i - 1);
      var s, a := tr[i - 1], acts[i - 1];
      Storer(s, a, tr[i], k);
      if n < |s.queues[k].sent| {
        j, p, t := StoredWasSent(c, tr, acts, i - 1, k, n);
      } else {
        p, t := i - 1, a.t;
        j := SendBegan(c, tr, acts, i - 1, t, k, tr[i].queues[k].sent[n]);
        OwnStep(s, a, tr[i], t, k, tr[i].queues[k].sent[n]);
      }
    }
  }

  lemma NoneSent(c: Config, tr: seq<State>, k: Key)
    requires IsRun(c, tr) && k in tr[0].queues
    ensures tr[0].queues[k].sent == []
  {
  }

  /** A message of mailbox b with this content has been delivered. */
  ghost predicate Handed(queues: map<Key, Queue>, b: ModuleId, content: Content) {
    exists k, n :: HandedAt(queues, b, content, k, n)
  }

  predicate HandedAt(queues: map<Key, Queue>, b: ModuleId, content: Content, k: Key, n: nat) {
    k in queues && k.box == b && n < |queues[k].removed| && queues[k].removed[n] == Removal(content, Delivered)
  }

  /** The thread has got a message from mailbox b, which it is about to return or to handle or has handled. */
  predicate HasGot(pc: Pc, b: ModuleId, m: Msg) {
    match pc
    case ReadUnlock(box, _, got) => box == b && got == Fetched(m)
    case Process(box, _, n) => box == b && n == m
    case FreeMsg(box, n) => box == b && n == m
    case _ => false
  }

  ghost predicate HandedLaw(s: State) {
    forall t, b, m :: t in s.pcs && HasGot(s.pcs[t], b, m) ==> Handed(s.queues, b, m.content)
  }

  lemma HandedStays(s: State, a: Action, s': State, b: ModuleId, content: Content)
    requires Makes(a, s, s') && Handed(s.queues, b, content)
    ensures Handed(s'.queues, b, content)
  {
    var k, n :| HandedAt(s.queues, b, content, k, n);
    assert HandedAt(s'.queues, b, content, k, n);
  }

  lemma GotStep(s: State, a: Action, s': State, t: Tid, b: ModuleId, m: Msg)
    requires Makes(a, s, s') && t in s'.pcs && HasGot(s'.pcs[t], b, m)
    ensures t in s.pcs && (HasGot(s.pcs[t], b, m) || Handed(s'.queues, b, m.content))
  {
    if !HasGot(s.pcs[t], b, m) {
      var k := PickKey(s.queues, b);
      assert HandedAt(s'.queues, b, m.content, k, |s.queues[k].removed|);
    }
  }

  lemma {:induction false} HandedRun(c: Config, tr: seq<State>, i: nat)
    requires IsRun(c, tr) && i < |tr|
    ensures HandedLaw(tr[i])
  {
    if i == 0 {
      NoneGot(c, tr);
    } else {
      HandedRun(c, tr, i - 1);
      var a := ActionMade(c, tr, i - 1);
      hide IsRun, Makes, HasGot, Handed;
      forall t, b, m | t in tr[i].pcs && HasGot(tr[i].pcs[t], b, m) ensures Handed(tr[i].queues, b, m.content) {
        GotStep(tr[i - 1], a, tr[i], t, b, m);
        if HasGot(tr[i - 1].pcs[t], b, m) { HandedStays(tr[i - 1], a, tr[i], b, m.content); }
      }
    }
  }

  lemma NoneGot(c: Config, tr: seq<State>)
    requires IsRun(c, tr)
    ensures HandedLaw(tr[0])
  {
  }

  lemma HandedOver(s: State, t: Tid) returns (k: Key, n: nat)
    requires HandedLaw(s) && t in s.pcs && s.pcs[t].Process?
    ensures k in s.queues && k.box == s.pcs[t].box && n < |s.queues[k].removed|
    ensures s.queues[k].removed[n].content == s.pcs[t].m.content
  {
    var b, m := s.pcs[t].box, s.pcs[t].m;
    assert HasGot(s.pcs[t], b, m) && Handed(s.queues, b, m.content);
    k, n :| HandedAt(s.queues, b, m.content, k, n);
  }

  lemma LoggedAt(q: Queue, mem: map<Ptr, Content>, n: nat)
    requires LogLaw(q, mem) && n < |q.removed|
    ensures n < |q.sent| && q.sent[n] == q.removed[n].content
  {
    assert q.sent[n] == Contents(q.removed)[n];
  }

  /** Nobody receives what was not sent to him: a message that smcf2_recv_msg is about to return to a module, or
      that a message loop hands to its handler, comes from an earlier call of smcf2_send_msg for this module
      with exactly this sender, message id and data. */
  lemma ReceivedWasSent(c: Config, tr: seq<State>, acts: seq<Action>, i: nat, t: Tid)
    returns (j: nat, u: Tid, k: Key)
    requires ActedOut(c, tr, acts) && i < |tr| && t in tr[i].pcs && tr[i].pcs[t].Process?
    ensures j < i && k.box == tr[i].pcs[t].box && acts[j] == Start(u, AllocMsg(k, tr[i].pcs[t].m.content))
  {
    var n;
    HandedRun(c, tr, i);
    k, n := HandedOver(tr[i], t);
    BoundAt(c, tr, i, k);
    DeliveredAsSent(c, tr, i, k);
    LoggedAt(tr[i].queues[k], tr[i].mem, n);
    hide *;
    var p;
    j, p, u := StoredWasSent(c, tr, acts, i, k, n);
  }
}
