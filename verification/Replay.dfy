/** What any sequence of read_data and write_data calls comes to, as a function of registry, table and calls alone.
    (src/data.c:343-517) */
module Replay {
  import opened Journal
  import opened Registration
  import opened Routes
  import opened Routing

  /** What clients do next: a read_data, or a write_data for the i-th of the nodes they hold */
  datatype Op = Ask(id: int, chn: nat, chnType: int) | GiveBack(i: nat, data: seq<int>)

  /** The call that got a node which a client holds */
  datatype Claim = Claim(id: int, chn: nat, chnType: int)

  /** A channel: how many nodes are free, and the payloads published and not yet taken */
  datatype Tray = Tray(free: nat, cargo: seq<seq<int>>)

  datatype Floor = Floor(trays: seq<Tray>, claims: seq<Claim>, history: seq<seq<Event>>)

  predicate Sized(w: Floor) {
    |w.trays| == |w.history| && forall c :: c in w.claims ==> c.chn < MAX_MODULE_CHANNEL_CNT
  }

  /** A sender gets a free node, or else the oldest published one, whose payload is lost; a receiver gets the oldest
      published one with its payload; if there is none, the call would wait and is passed over. */
  function Asked(w: Floor, c: Claim, k: nat, sending: bool): (w': Floor)
    requires Sized(w) && k < |w.trays| && c.chn < MAX_MODULE_CHANNEL_CNT
    ensures Sized(w') && |w'.trays| == |w.trays|
  {
    var tray := w.trays[k];
    if sending && tray.free > 0 then
      Floor(w.trays[k := Tray(tray.free - 1, tray.cargo)], w.claims + [c], w.history[k := w.history[k] + [Quiet]])
    else if tray.cargo == [] then w
    else
      var e := if sending then Overwritten else Received(tray.cargo[0]);
      Floor(w.trays[k := Tray(tray.free, tray.cargo[1..])], w.claims + [c], w.history[k := w.history[k] + [e]])
  }

  /** A sender publishes, a receiver frees the node. */
  function Returned(w: Floor, i: nat, k: nat, sending: bool, payload: seq<int>): (w': Floor)
    requires Sized(w) && k < |w.trays| && i < |w.claims|
    ensures Sized(w') && |w'.trays| == |w.trays|
  {
    var tray, rest := w.trays[k], w.claims[..i] + w.claims[i + 1..];
    if sending then
      Floor(w.trays[k := Tray(tray.free, tray.cargo + [payload])], rest,
            w.history[k := w.history[k] + [Sent(payload)]])
    else Floor(w.trays[k := Tray(tray.free + 1, tray.cargo)], rest, w.history)
  }

  function Turn(modules: seq<Module>, es: seq<Entry>, w: Floor, op: Op): (w': Floor)
    requires Sized(w) && |w.trays| == |es| && (op.Ask? ==> op.chn < MAX_MODULE_CHANNEL_CNT)
    requires forall m :: m in modules ==> WellFormed(m)
    ensures Sized(w') && |w'.trays| == |w.trays|
  {
    match op
    case Ask(id, chn, chnType) =>
      var route := RouteOf(modules, es, id, chn, chnType);
      if route == NoRoute then w else Asked(w, Claim(id, chn, chnType), route.k, route.sending)
    case GiveBack(i, data) =>
      if i >= |w.claims| then w
      else
        var c := w.claims[i];
        var route := RouteOf(modules, es, c.id, c.chn, c.chnType);
        if route == NoRoute || (!route.sending && ReleaseOf(modules, c.id, c.chn, c.chnType) == None) then w
        else Returned(w, i, route.k, route.sending, Copied(modules, c.id, c.chn, c.chnType, data))
  }

  /** All calls of a script, one after the other */
  function Played(modules: seq<Module>, es: seq<Entry>, w: Floor, script: seq<Op>): (w': Floor)
    requires Sized(w) && |w.trays| == |es|
    requires forall op :: op in script && op.Ask? ==> op.chn < MAX_MODULE_CHANNEL_CNT
    requires forall m :: m in modules ==> WellFormed(m)
    ensures Sized(w') && |w'.trays| == |w.trays|
    decreases |script|
  {
    if script == [] then w
    else Turn(modules, es, Played(modules, es, w, script[..|script| - 1]), script[|script| - 1])
  }

  lemma PlayedNext(modules: seq<Module>, es: seq<Entry>, w: Floor, script: seq<Op>, i: nat)
    requires Sized(w) && |w.trays| == |es| && i < |script|
    requires forall op :: op in script && op.Ask? ==> op.chn < MAX_MODULE_CHANNEL_CNT
    requires forall m :: m in modules ==> WellFormed(m)
    ensures Played(modules, es, w, script[..i + 1]) == Turn(modules, es, Played(modules, es, w, script[..i]), script[i])
  {
    assert script[..i + 1][..i] == script[..i];
  }

  lemma PlayedNone(modules: seq<Module>, es: seq<Entry>, w: Floor)
    requires Sized(w) && |w.trays| == |es| && forall m :: m in modules ==> WellFormed(m)
    ensures Played(modules, es, w, []) == w
  {
  }

  /** There is no such node to give back. */
  lemma ReturnNone(modules: seq<Module>, es: seq<Entry>, w: Floor, i: nat, data: seq<int>)
    requires Sized(w) && |w.trays| == |es| && forall m :: m in modules ==> WellFormed(m)
    ensures i >= |w.claims| ==> Turn(modules, es, w, GiveBack(i, data)) == w
  {
  }

  /** One turn, field by field */
  lemma AskTurn(modules: seq<Module>, es: seq<Entry>, w: Floor, id: int, chn: nat, chnType: int)
    requires Sized(w) && |w.trays| == |es| && chn < MAX_MODULE_CHANNEL_CNT
    requires forall m :: m in modules ==> WellFormed(m)
    ensures var w' := Turn(modules, es, w, Ask(id, chn, chnType));
            match RouteOf(modules, es, id, chn, chnType)
            case NoRoute => w' == w
            case To(k, sending) =>
              && k < |w.trays| == |w'.trays|
              && var t, t' := w.trays[k], w'.trays[k];
              && (forall j :: 0 <= j < |w.trays| && j != k ==> w'.trays[j] == w.trays[j])
              && if t.cargo == [] && !(sending && t.free > 0) then w' == w
                 else
                   && w'.claims == w.claims + [Claim(id, chn, chnType)]
                   && t' == (if sending && t.free > 0 then Tray(t.free - 1, t.cargo) else Tray(t.free, t.cargo[1..]))
                   && var e := ReadEvent(sending, if t.cargo == [] then [] else t.cargo[0], t.free == 0);
                      w'.history == w.history[k := w.history[k] + [e]]
  {
    hide RouteOf, WellFormed;
  }

  lemma ReturnTurn(modules: seq<Module>, es: seq<Entry>, w: Floor, i: nat, data: seq<int>)
    requires Sized(w) && |w.trays| == |es| && i < |w.claims|
    requires forall m :: m in modules ==> WellFormed(m)
    ensures var w', c := Turn(modules, es, w, GiveBack(i, data)), w.claims[i];
            match RouteOf(modules, es, c.id, c.chn, c.chnType)
            case NoRoute => w' == w
            case To(k, sending) =>
              && k < |w.trays| == |w'.trays|
              && var t, t' := w.trays[k], w'.trays[k];
              && (forall j :: 0 <= j < |w.trays| && j != k ==> w'.trays[j] == w.trays[j])
              && if !sending && ReleaseOf(modules, c.id, c.chn, c.chnType) == None then w' == w
                 else
                   && w'.claims == w.claims[..i] + w.claims[i + 1..]
                   && var d := Copied(modules, c.id, c.chn, c.chnType, data);
                      if sending then
                        t' == Tray(t.free, t.cargo + [d]) && w'.history == w.history[k := w.history[k] + [Sent(d)]]
                      else t' == Tray(t.free + 1, t.cargo) && w'.history == w.history
  {
    hide RouteOf, WellFormed, Copied, ReleaseOf;
  }

  // ----- what this function says -----

  /** How many of the nodes held came from channel k */
  function On(modules: seq<Module>, es: seq<Entry>, claims: seq<Claim>, k: nat): nat
    requires forall m :: m in modules ==> WellFormed(m)
    requires forall c :: c in claims ==> c.chn < MAX_MODULE_CHANNEL_CNT
  {
    if claims == [] then 0
    else
      var last := claims[|claims| - 1];
      var route := RouteOf(modules, es, last.id, last.chn, last.chnType);
      On(modules, es, claims[..|claims| - 1], k) + if route.To? && route.k == k then 1 else 0
  }

  /** Taking one out */
  lemma {:induction false} OnWithout(modules: seq<Module>, es: seq<Entry>, claims: seq<Claim>, i: nat, k: nat)
    requires forall m :: m in modules ==> WellFormed(m)
    requires i < |claims| && forall c :: c in claims ==> c.chn < MAX_MODULE_CHANNEL_CNT
    ensures var route := RouteOf(modules, es, claims[i].id, claims[i].chn, claims[i].chnType);
            On(modules, es, claims[..i] + claims[i + 1..], k)
              == On(modules, es, claims, k) - if route.To? && route.k == k then 1 else 0
    decreases |claims|
  {
    hide RouteOf;
    var front, rest := claims[..|claims| - 1], claims[..i] + claims[i + 1..];
    if i == |claims| - 1 {
      assert rest == front;
    } else {
      OnWithout(modules, es, front, i, k);
      assert rest[..|rest| - 1] == front[..i] + front[i + 1..];
      assert rest[|rest| - 1] == claims[|claims| - 1];
    }
  }

  /** What the history of each channel says is what is published on it. */
  ghost predicate Told(w: Floor) {
    |w.trays| == |w.history| && forall k :: 0 <= k < |w.trays| ==> Leaves(w.history[k], w.trays[k].cargo)
  }

  lemma TurnKeeps(modules: seq<Module>, es: seq<Entry>, w: Floor, op: Op, k: nat)
    requires Sized(w) && |w.trays| == |es| && (op.Ask? ==> op.chn < MAX_MODULE_CHANNEL_CNT) && k < |w.trays|
    requires forall m :: m in modules ==> WellFormed(m)
    ensures var w' := Turn(modules, es, w, op);
            w'.trays[k].free + |w'.trays[k].cargo| + On(modules, es, w'.claims, k)
              == w.trays[k].free + |w.trays[k].cargo| + On(modules, es, w.claims, k)
  {
    hide RouteOf, Copied, ReleaseOf;
    var w' := Turn(modules, es, w, op);
    if op.GiveBack? && op.i < |w.claims| { OnWithout(modules, es, w.claims, op.i, k); }
    if |w'.claims| == |w.claims| + 1 { assert w'.claims[..|w.claims|] == w.claims; }
  }

  lemma TurnTells(modules: seq<Module>, es: seq<Entry>, w: Floor, op: Op)
    requires Sized(w) && |w.trays| == |es| && (op.Ask? ==> op.chn < MAX_MODULE_CHANNEL_CNT) && Told(w)
    requires forall m :: m in modules ==> WellFormed(m)
    ensures Told(Turn(modules, es, w, op))
  {
    hide RouteOf, Copied, ReleaseOf, Leaves, WellFormed;
    var w' := Turn(modules, es, w, op);
    forall j | 0 <= j < |w'.trays| ensures Leaves(w'.history[j], w'.trays[j].cargo) {
      if |w'.history[j]| > |w.history[j]| {
        LeavesNext(w.history[j], w.trays[j].cargo, w'.history[j][|w.history[j]|], w'.trays[j].cargo);
      }
    }
  }

  /** Whatever the script: no channel gains or loses a node, and every channel delivers in order, losing nothing
      unless something was overwritten. */
  lemma {:induction false} PlayedLaws(modules: seq<Module>, es: seq<Entry>, w: Floor, script: seq<Op>, k: nat)
    requires Sized(w) && |w.trays| == |es| && k < |w.trays| && Told(w)
    requires forall op :: op in script && op.Ask? ==> op.chn < MAX_MODULE_CHANNEL_CNT
    requires forall m :: m in modules ==> WellFormed(m)
    ensures var w' := Played(modules, es, w, script);
            && Told(w')
            && w'.trays[k].free + |w'.trays[k].cargo| + On(modules, es, w'.claims, k)
               == w.trays[k].free + |w.trays[k].cargo| + On(modules, es, w.claims, k)
            && (Overwritten !in w'.history[k] ==>
                  AllSent(w'.history[k]) == AllReceived(w'.history[k]) + w'.trays[k].cargo)
    decreases |script|
  {
    if script != [] {
      var front, op := script[..|script| - 1], script[|script| - 1];
      PlayedLaws(modules, es, w, front, k);
      TurnKeeps(modules, es, Played(modules, es, w, front), op, k);
      TurnTells(modules, es, Played(modules, es, w, front), op);
    }
    var w' := Played(modules, es, w, script);
    EndToEnd(w'.history[k], w'.trays[k].cargo);
  }
}
