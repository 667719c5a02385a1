/** How interleaved runs of the node exchange relate to the call-granularity model: each call takes effect at one
    of its steps, a get at its take - or, if it comes back with NULL, at its emptiness test - and a put at
    its link.  (src/utils/node_list/node_list.c:50-156) */
module Linearization {
  import opened NodeProtocol
  import opened Sums
  import E = Exchange

  /** The exchange as the call model sees it: the two lists, with a counter and tokens to match */
  function Ideal(c: Config, s: State): E.Exchange<NodeId> {
    E.Exchange(s.free.nodes, |s.free.nodes|, |s.free.nodes|, s.use.nodes, |s.use.nodes|, |s.use.nodes|,
               c.keepUpdate, c.block)
  }

  /** x is on its way to a client in role r, or on its way back from one. */
  predicate CarriesFor(pc: Pc, x: NodeId, r: Role) {
    match pc
    case GetCount(_, q, y) => q == r && x == y
    case GetUnlock(_, q, y) => q == r && x == y
    case PutLock(side, y) => r == Giver(side) && x == y
    case PutLink(side, y) => r == Giver(side) && x == y
    case _ => false
  }

  function Giver(side: Side): Role {
    if side == Use then Producer else Consumer
  }

  function Bearing(r: Role, x: NodeId): Pc -> nat {
    (pc: Pc) => if CarriesFor(pc, x, r) then 1 else 0
  }

  function Has(cl: Clients, r: Role, x: NodeId): nat {
    if x in (if r == Producer then cl.producers else cl.consumers) then 1 else 0
  }

  /** Clients in role r hold x, or a call is handing it to them or taking it from them. */
  ghost function HeldFor(s: State, r: Role, x: NodeId): nat {
    Has(s.clients, r, x) + Sum(s.pcs, Bearing(r, x))
  }

  /** The world of the call model is where the run is. */
  ghost predicate Matches(c: Config, s: State, w: E.World<NodeId>) {
    && w.x == Ideal(c, s)
    && forall x: NodeId :: w.producers[x] == HeldFor(s, Producer, x) && w.consumers[x] == HeldFor(s, Consumer, x)
  }

  /** The call that takes effect with this action, if any */
  function Point(c: Config, s: State, a: Action): (calls: seq<E.Call<NodeId>>)
    ensures |calls| <= 1
  {
    if a.Advance? && a.t in s.pcs then
      match s.pcs[a.t]
      case UseCheck(r) => if s.use.nodes == [] && !c.block then [Get(r)] else []
      case GetTake(_, r) => [Get(r)]
      case PutLink(Use, x) => [E.Publish(x)]
      case PutLink(Free, x) => [E.Release(x)]
      case _ => []
    else []
  }

  function Get(r: Role): E.Call<NodeId> {
    if r == Producer then E.Request else E.Receive
  }

  /** Without keep-update every action is timely.  With it, a producer that has turned to the use list may find
      free nodes there by the time it takes a node or gives up: the call model would have it take one. */
  predicate Timely(c: Config, s: State, a: Action) {
    a.Advance? && a.t in s.pcs && Late(c, s, s.pcs[a.t]) ==> s.free.nodes == []
  }

  predicate Late(c: Config, s: State, pc: Pc) {
    pc == GetTake(Use, Producer) || (pc == UseCheck(Producer) && s.use.nodes == [] && !c.block)
  }

  // ----- one step -----

  /** The call may be made, and what then becomes of the world */
  ghost predicate Does(w: E.World<NodeId>, calls: seq<E.Call<NodeId>>, w': E.World<NodeId>)
    requires |calls| <= 1
  {
    if calls == [] then w' == w
    else E.Settled(w.x) && E.May(w, calls[0]) && w' == E.After(w, calls[0])
  }

  lemma Alone(c: Config, s: State, t: Tid, x: NodeId, r: Role)
    requires PartitionLaw(c, s) && t in s.pcs && CarriesFor(s.pcs[t], x, r)
    ensures Has(s.clients, Producer, x) == 0 && Has(s.clients, Consumer, x) == 0
  {
    SumPick(s.pcs, t, Carrying(x));
    assert Places(s, x) == if x < c.nodes then 1 else 0;
  }

  predicate Gives(s: State, a: Action, r: Role, x: NodeId) {
    a.Advance? && a.t in s.pcs
    && var pc := s.pcs[a.t];
       pc.PutLink? && Giver(pc.side) == r && pc.node == x
  }

  predicate Takes(s: State, a: Action, r: Role, x: NodeId) {
    a.Advance? && a.t in s.pcs
    && var pc := s.pcs[a.t];
       pc.GetTake? && pc.role == r && s.Of(pc.side).nodes != [] && s.Of(pc.side).nodes[0] == x
  }

  /** What an action does to a thread's share of what is held, and to the clients' */
  lemma BearShare(c: Config, s: State, t: Tid, r: Role, x: NodeId)
    requires Enabled(s, Advance(t))
    ensures Bearing(r, x)(StepPc(c, s.free.nodes, s.use.nodes, s.pcs[t]))
              + (if Gives(s, Advance(t), r, x) then 1 else 0) + (if Returns(s.pcs[t], r, x) then 1 else 0)
         == Bearing(r, x)(s.pcs[t]) + (if Takes(s, Advance(t), r, x) then 1 else 0)
  {
  }

  lemma HasShare(c: Config, s: State, t: Tid, r: Role, x: NodeId)
    requires PartitionLaw(c, s) && Enabled(s, Advance(t))
    ensures Has(StepClients(s.clients, s.free.nodes, s.use.nodes, s.pcs[t]), r, x)
         == Has(s.clients, r, x) + if Returns(s.pcs[t], r, x) then 1 else 0
  {
    hide PartitionLaw, Ready;
    if s.pcs[t].GetUnlock? { Alone(c, s, t, s.pcs[t].node, s.pcs[t].role); }
  }

  predicate Returns(pc: Pc, r: Role, x: NodeId) {
    pc.GetUnlock? && pc.role == r && pc.node == x
  }

  /** How many hold x for a role after an action */
  lemma HeldStep(c: Config, s: State, a: Action, r: Role, x: NodeId)
    requires PartitionLaw(c, s) && Enabled(s, a)
    ensures HeldFor(Apply(c, s, a), r, x) + (if Gives(s, a, r, x) then 1 else 0)
         == HeldFor(s, r, x) + (if Takes(s, a, r, x) then 1 else 0)
  {
    match a
    case Start(t, pc) => HeldStart(c, s, t, pc, r, x);
    case Advance(t) => HeldAdvance(c, s, t, r, x);
    case Fill(_, _) =>
  }

  lemma HeldStart(c: Config, s: State, t: Tid, pc: Pc, r: Role, x: NodeId)
    requires Enabled(s, Start(t, pc))
    ensures HeldFor(Apply(c, s, Start(t, pc)), r, x) == HeldFor(s, r, x)
  {
    SumUpdate(s.pcs, t, pc, Bearing(r, x));
  }

  lemma HeldAdvance(c: Config, s: State, t: Tid, r: Role, x: NodeId)
    requires PartitionLaw(c, s) && Enabled(s, Advance(t))
    ensures HeldFor(Apply(c, s, Advance(t)), r, x) + (if Gives(s, Advance(t), r, x) then 1 else 0)
         == HeldFor(s, r, x) + (if Takes(s, Advance(t), r, x) then 1 else 0)
  {
    hide PartitionLaw, Ready, StepPc, StepClients, StepHalf, StepLog, Gives, Takes, Returns, Has;
    BearShare(c, s, t, r, x);
    HasShare(c, s, t, r, x);
    SumUpdate(s.pcs, t, StepPc(c, s.free.nodes, s.use.nodes, s.pcs[t]), Bearing(r, x));
  }

  lemma AllHeld(c: Config, s: State, a: Action)
    requires PartitionLaw(c, s) && Enabled(s, a)
    ensures forall r, x :: HeldFor(Apply(c, s, a), r, x) + (if Gives(s, a, r, x) then 1 else 0)
                        == HeldFor(s, r, x) + (if Takes(s, a, r, x) then 1 else 0)
  {
    forall r, x
      ensures HeldFor(Apply(c, s, a), r, x) + (if Gives(s, a, r, x) then 1 else 0)
           == HeldFor(s, r, x) + (if Takes(s, a, r, x) then 1 else 0)
    {
      HeldStep(c, s, a, r, x);
    }
  }

  /** What the two gets come to in the call model, from lists matched token by token */
  lemma WorldGets(w: E.World<NodeId>)
    requires E.Settled(w.x) && w.x.useSem == |w.x.use|
    ensures w.x.use != [] ==>
      && E.After(w, E.Receive).x == UseTaken(w.x) && E.After(w, E.Receive).producers == w.producers
      && E.After(w, E.Receive).consumers == w.consumers + multiset{w.x.use[0]}
    ensures w.x.free != [] ==>
      && E.After(w, E.Request).x == FreeTaken(w.x) && E.After(w, E.Request).consumers == w.consumers
      && E.After(w, E.Request).producers == w.producers + multiset{w.x.free[0]}
    ensures w.x.free == [] && w.x.keepUpdate && w.x.use != [] ==>
      && E.After(w, E.Request).x == UseTaken(w.x) && E.After(w, E.Request).consumers == w.consumers
      && E.After(w, E.Request).producers == w.producers + multiset{w.x.use[0]}
  {
  }

  lemma WorldNulls(w: E.World<NodeId>)
    requires E.Settled(w.x) && w.x.useSem == |w.x.use| && w.x.use == [] && !w.x.block
    ensures var v := E.After(w, E.Receive); v.x == w.x && v.producers == w.producers && v.consumers == w.consumers
    ensures w.x.free == [] && w.x.keepUpdate ==>
      var v := E.After(w, E.Request);
      v.x == w.x && v.producers == w.producers && v.consumers == w.consumers
    ensures w.x.free != [] ==> |E.After(w, E.Request).x.free| == |w.x.free| - 1
  {
  }

  lemma WorldPuts(w: E.World<NodeId>, x: NodeId)
    requires E.Settled(w.x)
    ensures x in w.producers ==>
      && E.After(w, E.Publish(x)).x == E.PutUse(w.x, x) && E.After(w, E.Publish(x)).consumers == w.consumers
      && E.After(w, E.Publish(x)).producers == w.producers - multiset{x}
    ensures x in w.consumers ==>
      && E.After(w, E.Release(x)).x == E.PutFree(w.x, x) && E.After(w, E.Release(x)).producers == w.producers
      && E.After(w, E.Release(x)).consumers == w.consumers - multiset{x}
  {
  }

  function UseTaken(x: E.Exchange<NodeId>): E.Exchange<NodeId>
    requires x.use != [] && x.useSem > 0
  {
    x.(use := x.use[1..], useCnt := x.useCnt - 1, useSem := x.useSem - 1)
  }

  function FreeTaken(x: E.Exchange<NodeId>): E.Exchange<NodeId>
    requires x.free != [] && x.freeSem > 0
  {
    x.(free := x.free[1..], freeCnt := x.freeCnt - 1, freeSem := x.freeSem - 1)
  }

  /** What the laws say about a thread at its take, its test or its link */
  lemma Placement(c: Config, s: State, t: Tid)
    requires Inv(c, s) && t in s.pcs
    ensures PartitionLaw(c, s) && PcLaw(c, s.pcs[t])
    ensures s.pcs[t].GetTake? ==> s.Of(s.pcs[t].side).nodes != []
  {
    var pc := s.pcs[t];
    if pc.GetTake? {
      assert TokenLaw(s.Of(pc.side), s.pcs, pc.side);
      ClaimNonEmpty(s.Of(pc.side), s.pcs, pc.side, t);
    }
  }

  lemma TakeMatches(c: Config, s: State, t: Tid, w: E.World<NodeId>) returns (w': E.World<NodeId>)
    requires Inv(c, s) && Enabled(s, Advance(t)) && Matches(c, s, w) && s.pcs[t].GetTake?
    ensures Does(w, Point(c, s, Advance(t)), w')
    ensures Timely(c, s, Advance(t)) <==> Matches(c, Apply(c, s, Advance(t)), w')
  {
    hide Inv, PartitionLaw, E.After, Ready, Timely, Matches, Apply;
    MatchedSettled(c, s, w);
    w' := E.After(w, Get(s.pcs[t].role));
    if s.pcs[t].side == Free {
      FreeTake(c, s, t, w);
    } else if s.pcs[t].role == Consumer {
      UseTake(c, s, t, w);
    } else if s.free.nodes == [] {
      Overwrite(c, s, t, w);
    } else {
      LateTake(c, s, t, w);
    }
  }

  lemma MatchedSettled(c: Config, s: State, w: E.World<NodeId>)
    requires Matches(c, s, w)
    ensures E.Settled(w.x) && w.x.useSem == |w.x.use|
  {
  }

  lemma FreeTake(c: Config, s: State, t: Tid, w: E.World<NodeId>)
    requires Inv(c, s) && Enabled(s, Advance(t)) && Matches(c, s, w)
    requires s.pcs[t].GetTake? && s.pcs[t].side == Free
    ensures s.pcs[t].role == Producer && Timely(c, s, Advance(t)) && E.Settled(w.x)
    ensures Matches(c, Apply(c, s, Advance(t)), E.After(w, E.Request))
  {
    hide Inv, HeldFor, PartitionLaw, E.After, Ready;
    Placement(c, s, t);
    AllHeld(c, s, Advance(t));
    WorldGets(w);
  }

  lemma UseTake(c: Config, s: State, t: Tid, w: E.World<NodeId>)
    requires Inv(c, s) && Enabled(s, Advance(t)) && Matches(c, s, w) && s.pcs[t] == GetTake(Use, Consumer)
    ensures Timely(c, s, Advance(t)) && E.Settled(w.x)
    ensures Matches(c, Apply(c, s, Advance(t)), E.After(w, E.Receive))
  {
    hide Inv, HeldFor, PartitionLaw, E.After, Ready;
    Placement(c, s, t);
    AllHeld(c, s, Advance(t));
    WorldGets(w);
  }

  lemma Overwrite(c: Config, s: State, t: Tid, w: E.World<NodeId>)
    requires Inv(c, s) && Enabled(s, Advance(t)) && Matches(c, s, w)
    requires s.pcs[t] == GetTake(Use, Producer) && s.free.nodes == []
    ensures Timely(c, s, Advance(t)) && E.Settled(w.x)
    ensures Matches(c, Apply(c, s, Advance(t)), E.After(w, E.Request))
  {
    hide Inv, HeldFor, PartitionLaw, E.After, Ready;
    Placement(c, s, t);
    AllHeld(c, s, Advance(t));
    WorldGets(w);
  }

  lemma LateTake(c: Config, s: State, t: Tid, w: E.World<NodeId>)
    requires Enabled(s, Advance(t)) && Matches(c, s, w) && s.pcs[t] == GetTake(Use, Producer) && s.free.nodes != []
    ensures !Timely(c, s, Advance(t)) && E.Settled(w.x)
    ensures !Matches(c, Apply(c, s, Advance(t)), E.After(w, E.Request))
  {
    hide HeldFor, E.After, Ready;
    WorldGets(w);
    assert |E.After(w, E.Request).x.free| != |Apply(c, s, Advance(t)).free.nodes|;
  }

  /** An emptiness test that ends the call */
  lemma TestMatches(c: Config, s: State, t: Tid, w: E.World<NodeId>) returns (w': E.World<NodeId>)
    requires Inv(c, s) && Enabled(s, Advance(t)) && Matches(c, s, w)
    requires s.pcs[t].UseCheck? && s.use.nodes == [] && !c.block
    ensures Does(w, Point(c, s, Advance(t)), w')
    ensures Timely(c, s, Advance(t)) <==> Matches(c, Apply(c, s, Advance(t)), w')
  {
    hide Inv, HeldFor, PartitionLaw, E.After, Ready;
    Placement(c, s, t);
    AllHeld(c, s, Advance(t));
    WorldNulls(w);
    w' := E.After(w, Get(s.pcs[t].role));
    if !Timely(c, s, Advance(t)) {
      assert |w'.x.free| != |Apply(c, s, Advance(t)).free.nodes|;
    }
  }

  /** A link */
  lemma LinkMatches(c: Config, s: State, t: Tid, w: E.World<NodeId>) returns (w': E.World<NodeId>)
    requires Inv(c, s) && Enabled(s, Advance(t)) && Matches(c, s, w) && s.pcs[t].PutLink?
    ensures Does(w, Point(c, s, Advance(t)), w')
    ensures Matches(c, Apply(c, s, Advance(t)), w')
  {
    hide Inv, PartitionLaw, Ready, HeldFor, E.After, E.PutUse, E.PutFree;
    Placement(c, s, t);
    AllHeld(c, s, Advance(t));
    Borne(s, t);
    WorldPuts(w, s.pcs[t].node);
    w' := E.After(w, Point(c, s, Advance(t))[0]);
    LinkIdeal(c, s, t);
  }

  lemma LinkIdeal(c: Config, s: State, t: Tid)
    requires Enabled(s, Advance(t)) && s.pcs[t].PutLink?
    ensures Ideal(c, Apply(c, s, Advance(t)))
         == if s.pcs[t].side == Use then E.PutUse(Ideal(c, s), s.pcs[t].node) else E.PutFree(Ideal(c, s), s.pcs[t].node)
  {
  }

  lemma Borne(s: State, t: Tid)
    requires t in s.pcs && s.pcs[t].PutLink?
    ensures HeldFor(s, Giver(s.pcs[t].side), s.pcs[t].node) > 0
  {
    SumPick(s.pcs, t, Bearing(Giver(s.pcs[t].side), s.pcs[t].node));
  }

  /** Any other action changes neither the lists nor what is held. */
  lemma SilentMatches(c: Config, s: State, a: Action, w: E.World<NodeId>)
    requires Inv(c, s) && Enabled(s, a) && Matches(c, s, w) && Point(c, s, a) == []
    ensures Matches(c, Apply(c, s, a), w)
  {
    hide Inv, HeldFor, Ready;
    LawOf(c, s);
    AllHeld(c, s, a);
  }

  lemma LawOf(c: Config, s: State)
    requires Inv(c, s)
    ensures PartitionLaw(c, s)
  {
  }

  /** One action against the call that takes effect with it: the call model follows exactly when the action
      is timely. */
  lemma ActionMatches(c: Config, s: State, a: Action, w: E.World<NodeId>) returns (w': E.World<NodeId>)
    requires Inv(c, s) && Enabled(s, a) && Matches(c, s, w)
    ensures Does(w, Point(c, s, a), w')
    ensures Timely(c, s, a) <==> Matches(c, Apply(c, s, a), w')
  {
    hide Inv, Matches, Ready, Apply, Does;
    if Point(c, s, a) == [] {
      SilentMatches(c, s, a, w);
      w' := w;
      SilentDoes(w);
    } else if s.pcs[a.t].GetTake? {
      w' := TakeMatches(c, s, a.t, w);
    } else if s.pcs[a.t].PutLink? {
      w' := LinkMatches(c, s, a.t, w);
    } else {
      w' := TestMatches(c, s, a.t, w);
    }
  }

  lemma SilentDoes(w: E.World<NodeId>)
    ensures Does(w, [], w)
  {
  }

  /** From its start to its return a call takes effect exactly once: threads that have yet to act lose that
      status in the very step that is the call's point. */
  lemma PointOnce(c: Config, s: State, a: Action)
    requires Inv(c, s) && Enabled(s, a) && a.Advance?
    ensures |Point(c, s, a)| + (if Pending(Apply(c, s, a).pcs[a.t]) then 1 else 0) == if Pending(s.pcs[a.t]) then 1
                                else 0
    ensures forall t :: t in s.pcs && t != a.t ==> Apply(c, s, a).pcs[t] == s.pcs[t]
  {
    hide PartitionLaw, LogLaw, SeenLaw, MutexLaw, CountLaw;
    assert TokenLaw(s.use, s.pcs, Use);
    if Claims(Use, s.pcs[a.t]) { ClaimNonEmpty(s.use, s.pcs, Use, a.t); }
    if Claims(Free, s.pcs[a.t]) {
      assert TokenLaw(s.free, s.pcs, Free);
      ClaimNonEmpty(s.free, s.pcs, Free, a.t);
    }
  }

  predicate Pending(pc: Pc) {
    pc.FreeCheck? || pc.UseCheck? || pc.Wait? || pc.Recheck? || pc.GetLock? || pc.GetTake? || pc.PutLock? || pc.PutLink?
  }

  /** A call that starts has yet to act. */
  lemma StartsPending(s: State, t: Tid, pc: Pc)
    requires Enabled(s, Start(t, pc))
    ensures Pending(pc) && !Pending(s.pcs[t])
  {
  }

  // ----- whole runs -----

  /** These are the calls that take effect in the first i steps of the run, in this order. */
  ghost predicate Placed(c: Config, tr: seq<State>, i: nat, calls: seq<E.Call<NodeId>>)
    requires i < |tr|
    decreases i
  {
    if i == 0 then calls == []
    else
      var s, s' := tr[i - 1], tr[i];
      exists a, front :: Extends(c, s, s', a, front, calls) && Placed(c, tr, i - 1, front)
  }

  ghost predicate Extends(c: Config, s: State, s': State, a: Action,
                          front: seq<E.Call<NodeId>>, calls: seq<E.Call<NodeId>>)
  {
    Enabled(s, a) && s' == Apply(c, s, a) && calls == front + Point(c, s, a)
  }

  /** Whatever action led from s to s' was timely. */
  ghost predicate InTime(c: Config, s: State, s': State) {
    forall a :: Enabled(s, a) && s' == Apply(c, s, a) ==> Timely(c, s, a)
  }

  lemma StartMatches(c: Config, tr: seq<State>)
    requires IsRun(c, tr)
    ensures Matches(c, tr[0], E.Start(Iota(c.nodes), c.keepUpdate, c.block))
  {
    forall r, x ensures HeldFor(tr[0], r, x) == 0 {
      SumZero(tr[0].pcs, Bearing(r, x));
    }
  }

  lemma NoCalls(w: E.World<NodeId>)
    ensures E.Leads(w, [], w)
  {
  }

  lemma TimelyAt(c: Config, s: State, s': State, a: Action)
    requires InTime(c, s, s') && Enabled(s, a) && s' == Apply(c, s, a)
    ensures Timely(c, s, a)
  {
  }

  lemma DoesLeads(w0: E.World<NodeId>, front: seq<E.Call<NodeId>>, w: E.World<NodeId>, calls: seq<E.Call<NodeId>>,
                  w': E.World<NodeId>)
    requires E.Leads(w0, front, w) && |calls| <= 1 && Does(w, calls, w')
    ensures E.Leads(w0, front + calls, w')
  {
    if calls == [] {
      assert front + calls == front;
    } else {
      assert (front + calls)[..|front|] == front;
    }
  }

  /** Every run of interleaved calls is matched by a run of whole calls, each placed at its own step, as long as
      no producer turns to the use list and finds free nodes again by the time it takes or gives up. */
  lemma {:induction false} Linearized(c: Config, tr: seq<State>, i: nat)
    returns (calls: seq<E.Call<NodeId>>, w: E.World<NodeId>)
    requires IsRun(c, tr) && i < |tr| && forall j :: 0 <= j < i ==> InTime(c, tr[j], tr[j + 1])
    ensures Placed(c, tr, i, calls)
    ensures E.Leads(E.Start(Iota(c.nodes), c.keepUpdate, c.block), calls, w) && Matches(c, tr[i], w)
  {
    hide Matches, Inv, IsRun, Does, Timely, Enabled, Apply, Point, E.Leads, Init;
    if i == 0 {
      calls, w := [], E.Start(Iota(c.nodes), c.keepUpdate, c.block);
      StartMatches(c, tr);
      NoCalls(w);
    } else {
      var front, v := Linearized(c, tr, i - 1);
      var a := ActionAt(c, tr, i - 1);
      RunInv(c, tr, i - 1);
      TimelyAt(c, tr[i - 1], tr[i], a);
      w := ActionMatches(c, tr[i - 1], a, v);
      DoesLeads(E.Start(Iota(c.nodes), c.keepUpdate, c.block), front, v, Point(c, tr[i - 1], a), w);
      calls := front + Point(c, tr[i - 1], a);
      assert Extends(c, tr[i - 1], tr[i], a, front, calls);
    }
  }

  /** Without keep-update that is every run. */
  lemma Linearizable(c: Config, tr: seq<State>, i: nat) returns (calls: seq<E.Call<NodeId>>, w: E.World<NodeId>)
    requires IsRun(c, tr) && i < |tr| && !c.keepUpdate
    ensures Placed(c, tr, i, calls)
    ensures E.Leads(E.Start(Iota(c.nodes), false, c.block), calls, w) && Matches(c, tr[i], w)
  {
    forall j | 0 <= j < i ensures InTime(c, tr[j], tr[j + 1]) {
      RunInv(c, tr, j);
      NeverLate(c, tr[j]);
    }
    calls, w := Linearized(c, tr, i);
  }

  lemma NeverLate(c: Config, s: State)
    requires Inv(c, s) && !c.keepUpdate
    ensures forall a :: Enabled(s, a) ==> Timely(c, s, a)
  {
  }
}
