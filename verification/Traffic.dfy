/** Any sequence of read_data and write_data calls over an attached channel table: each channel's payloads are
    received in the order in which they were sent. */
module Traffic {
  import opened CircularList
  import opened DataChannels
  import opened Journal
  import opened Registration
  import opened Replay
  import opened Routes
  import opened Routing
  import opened Sums
  import X = Exchange

  /** A node a client has got, and the call that got it */
  datatype Loan = Loan(node: Node, id: int, chn: nat, chnType: int)

  function Claims(loans: seq<Loan>): (cs: seq<Claim>) {
    seq(|loans|, i requires 0 <= i < |loans| => Claim(loans[i].id, loans[i].chn, loans[i].chnType))
  }

  lemma ClaimsMore(loans: seq<Loan>, l: Loan)
    ensures Claims(loans + [l]) == Claims(loans) + [Claim(l.id, l.chn, l.chnType)]
  {
  }

  lemma ClaimsLess(loans: seq<Loan>, i: nat)
    requires i < |loans|
    ensures Claims(loans[..i] + loans[i + 1..]) == Claims(loans)[..i] + Claims(loans)[i + 1..]
  {
  }

  class Traffic {
    const channels: DataChannels
    /** What the calls routed to each entry have come to so far */
    ghost var history: seq<seq<Event>>

    ghost predicate Valid()
      reads this, channels, channels.info, channels.regions
      reads channels.modules, channels.modules.cells, channels.table, channels.table.cells
    {
      && channels.Registered() && channels.Valid() && channels.Fitted()
      && |history| == |channels.lists|
      && forall k :: 0 <= k < |history| ==> Accounted(k)
    }

    ghost predicate Accounted(k: nat)
      requires k < |history| && k < |channels.lists| && channels.Valid()
      reads this, channels, channels.info, channels.regions
    {
      channels.LiveInside(k);
      Leaves(history[k], channels.Cargo(k)) && Counted(k, Overwrites(history[k]))
    }

    /** The shadow counters of entry k are off by this number: the free one is too low, the use one too high. */
    ghost predicate Counted(k: nat, drift: int)
      requires k < |channels.lists| && channels.Valid()
      reads channels, channels.info, channels.regions
    {
      channels.LiveInside(k);
      && channels.info[k].useCnt == |channels.Cargo(k)| + drift
      && channels.info[k].freeCnt == |channels.lists[k].freeNodes| - drift
    }

    /** A table that attach_module_channel has just filled */
    constructor (channels: DataChannels)
      requires channels.Registered() && channels.Valid() && channels.Fitted()
      requires |channels.served| == |channels.lists| <= channels.info.Length
      requires forall k :: 0 <= k < |channels.lists| ==> channels.StockedAt(k)
      ensures Valid() && this.channels == channels && history == seq(|channels.lists|, _ => [])
    {
      this.channels := channels;
      history := seq(|channels.lists|, _ => []);
      new;
      forall k | 0 <= k < |history| ensures Accounted(k) {
        assert channels.StockedAt(k);
      }
    }

    /** The channel that a call is routed to: the only one that it touches */
    ghost function Target(id: int, chn: nat, chnType: int): Route
      requires channels.Registered() && |channels.lists| <= channels.info.Length && chn < MAX_MODULE_CHANNEL_CNT
      reads channels, channels.info, channels.modules, channels.modules.cells, channels.table, channels.table.cells
    {
      RouteOf(channels.modules.modules, channels.Table(), id, chn, chnType)
    }

    lemma Outside()
      requires channels.Valid()
      ensures this !in channels.regions && channels !in channels.regions && channels.info !in channels.regions
      ensures channels.modules !in channels.regions
      ensures |channels.region| == |channels.lists| <= channels.info.Length
      ensures forall j :: 0 <= j < |channels.lists| ==> channels.region[j] <= channels.regions
    {
    }

    /** What belongs to entry j, its list and what is published on it, is out of reach. */
    ghost predicate Clear(j: nat, touched: set<object>)
      requires j < |channels.lists| && j < |channels.region|
      reads channels, channels.lists[j]
    {
      && channels.region[j] !! touched && channels.lists[j] in channels.region[j]
      && forall x :: x in channels.lists[j].useNodes ==> x in channels.region[j]
    }

    lemma OthersClear(id: int, chn: nat, chnType: int)
      requires channels.Registered() && channels.Valid() && chn < MAX_MODULE_CHANNEL_CNT
      ensures |channels.lists| == |channels.region| <= channels.info.Length
      ensures channels.Touched(id, chn, chnType) <= channels.regions
      ensures var route := Target(id, chn, chnType);
              && (route.To? ==> route.k < |channels.lists|)
              && forall j :: 0 <= j < |channels.lists| && !(route.To? && route.k == j)
                             ==> Clear(j, channels.Touched(id, chn, chnType))
    {
      channels.TableFits();
      var route := Target(id, chn, chnType);
      Outside();
      hide DataChannels.Valid;
      forall j | 0 <= j < |channels.lists| && !(route.To? && route.k == j)
        ensures Clear(j, channels.Touched(id, chn, chnType))
      {
        channels.LiveInside(j);
        if route.To? { channels.OthersApart(route.k); }
      }
    }

    /** The call routed to entry k came to e. */
    ghost method Note(k: nat, e: Event, before: seq<seq<int>>)
      requires channels.Registered() && channels.Valid() && channels.Fitted() && |history| == |channels.lists|
      requires k < |history| && Leaves(history[k], before) && Carried(before, e, channels.Cargo(k))
      requires Counted(k, Overwrites(history[k]) + if e == Overwritten then 1 else 0)
      requires forall j :: 0 <= j < |history| && j != k ==> Accounted(j)
      modifies `history
      ensures Valid() && history == old(history)[k := old(history)[k] + [e]]
    {
      hide DataChannels.Registered, DataChannels.Valid, DataChannels.Fitted, DataChannels.Cargo, Leaves;
      Outside();
      LeavesNext(history[k], before, e, channels.Cargo(k));
      OverwritesNext(history[k], e);
      history := history[k := history[k] + [e]];
      forall j | 0 <= j < |history| ensures Accounted(j) {
        if j != k { assert old(Accounted(j)); }
      }
    }

    /** Registry, records and table are as before, and so is every channel besides the one with index k. */
    twostate predicate Elsewhere(route: Route)
      requires old(channels.Valid()) && channels.Valid()
      reads channels, channels.info, channels.regions, channels.modules
    {
      && unchanged(channels) && unchanged(channels.modules) && channels.Table() == old(channels.Table())
      && forall j :: 0 <= j < |channels.lists| && !(route.To? && route.k == j) ==> Unmoved(j) && HandsOff(j, {})
    }

    /** Both lists of channel j, the payloads published on it, its counters and the nodes held are as before. */
    twostate predicate Unmoved(j: nat)
      requires old(channels.Valid()) && channels.Valid() && j < |channels.lists| && j < |old(channels.lists)|
      reads channels, channels.info, channels.regions
    {
      channels.LiveInside(j);
      && channels.info[j] == old(channels.info[j])
      && channels.lists[j].freeNodes == old(channels.lists[j].freeNodes)
      && channels.Cargo(j) == old(channels.Cargo(j)) && channels.Held(j) == old(channels.Held(j))
    }

    /** What clients hold of channel j says what it did, `but` excepted. */
    twostate predicate HandsOff(j: nat, but: set<Node>)
      requires old(channels.Valid()) && channels.Valid() && j < |channels.lists| && j < |old(channels.lists)|
      reads channels, channels.info, channels.regions
    {
      forall x :: x in old(channels.Held(j)) && x !in but && x in channels.regions ==> x.data == old(x.data)
    }

    /** What read_data on channel k comes to: it waits exactly when there is nothing to take; a node handed out
        is the client's until it is given back. */
    twostate predicate Took(k: nat, sending: bool, new handle: Handle, data: seq<int>)
      requires old(channels.Valid()) && channels.Valid() && k < |channels.lists| && k < |old(channels.lists)|
      reads channels, channels.info, channels.regions
    {
      channels.LiveInside(k);
      var free, none := old(channels.lists[k].freeNodes), old(channels.Cargo(k)) == [];
      && HandsOff(k, {}) && handle != Failed
      && (handle == Waits <==> none && (sending ==> free == []))
      && if handle == Waits then Unmoved(k)
         else
           && Carried(old(channels.Cargo(k)), ReadEvent(sending, data, free == []), channels.Cargo(k))
           && channels.lists[k].freeNodes == (if sending && free != [] then free[1..] else free)
           && channels.info[k].useCnt == old(channels.info[k].useCnt) - (if sending then 0 else 1)
           && channels.info[k].freeCnt == old(channels.info[k].freeCnt) - (if sending then 1 else 0)
           && handle.node !in old(channels.Held(k)) && channels.Held(k) == old(channels.Held(k)) + {handle.node}
    }

    /** What write_data on channel k comes to: a node given back is no longer the client's. */
    twostate predicate Gave(k: nat, sending: bool, node: Node, payload: seq<int>, refused: bool)
      requires old(channels.Valid()) && channels.Valid() && k < |channels.lists| && k < |old(channels.lists)|
      reads channels, channels.info, channels.regions
    {
      channels.LiveInside(k);
      var free := old(channels.lists[k].freeNodes);
      && HandsOff(k, if sending then {node} else {})
      && if refused then Unmoved(k)
         else
           && channels.Held(k) == old(channels.Held(k)) - {node}
           && channels.lists[k].freeNodes == (if sending then free else free + [node])
           && channels.info[k].useCnt == old(channels.info[k].useCnt) + (if sending then 1 else 0)
           && channels.info[k].freeCnt == old(channels.info[k].freeCnt) + (if sending then 0 else 1)
           && channels.Cargo(k) == old(channels.Cargo(k)) + (if sending then [payload] else [])
    }

    method Take(id: int, chn: nat, chnType: int) returns (handle: Handle, data: seq<int>)
      requires channels.Registered() && channels.Valid() && channels.Fitted()
      requires |channels.lists| <= channels.info.Length
      requires chn < MAX_MODULE_CHANNEL_CNT
      modifies channels.info, channels.Touched(id, chn, chnType)
      ensures channels.Registered() && channels.Valid() && channels.Fitted()
      ensures |channels.lists| == |channels.region| <= channels.info.Length && Elsewhere(old(Target(id, chn, chnType)))
      ensures match old(Target(id, chn, chnType))
              case NoRoute => handle == Failed
              case To(k, sending) =>
                && k < |channels.lists| && Took(k, sending, handle, data)
                && (handle.NodeOf? && !sending ==> data == handle.node.data)
    {
      hide DataChannels.Registered, DataChannels.Valid, DataChannels.Fitted, DataChannels.Cargo, DataChannels.Taken,
           RouteOf, X.GetUse, X.GetFree, Carried, ReadEvent;
      Outside();
      OthersClear(id, chn, chnType);
      ghost var route := Target(id, chn, chnType);
      if route.To? {
        channels.LiveInside(route.k);
        channels.TakenMeans(route.k, route.sending);
      }
      handle, data := channels.ReadData(id, chn, chnType);
      forall j | 0 <= j < |channels.lists| && !(route.To? && route.k == j) ensures Unmoved(j) && HandsOff(j, {}) {
        assert old(Clear(j, channels.Touched(id, chn, chnType)));
      }
    }

    method Give(node: Node, id: int, chn: nat, chnType: int, data: seq<int>)
      returns (ret: int, released: Option<seq<int>>)
      requires channels.Registered() && channels.Valid() && channels.Fitted()
      requires |channels.lists| == |channels.region| <= channels.info.Length && chn < MAX_MODULE_CHANNEL_CNT
      requires channels.HandedOut(node, id, chn, chnType) && channels.LongEnough(data, id, chn, chnType)
      modifies channels.info, channels.Touched(id, chn, chnType)
      ensures channels.Registered() && channels.Valid() && channels.Fitted()
      ensures |channels.lists| == |channels.region| <= channels.info.Length && Elsewhere(old(Target(id, chn, chnType)))
      ensures match old(Target(id, chn, chnType))
              case NoRoute => ret == -1
              case To(k, sending) =>
                && k < |channels.lists| && (ret == 0 || ret == -1)
                && (ret != 0 <==> !sending && ReleaseOf(channels.modules.modules, id, chn, chnType) == None)
                && Gave(k, sending, node, Copied(channels.modules.modules, id, chn, chnType, data), ret != 0)
    {
      hide DataChannels.Registered, DataChannels.Valid, DataChannels.Fitted, DataChannels.Cargo, RouteOf, Copied,
           ReleaseOf;
      Outside();
      OthersClear(id, chn, chnType);
      ghost var route := Target(id, chn, chnType);
      ret, released := channels.WriteData(node, id, chn, chnType, data);
      forall j | 0 <= j < |channels.lists| && !(route.To? && route.k == j) ensures Unmoved(j) && HandsOff(j, {}) {
        assert old(Clear(j, channels.Touched(id, chn, chnType)));
      }
    }

    /** read_data */
    method Read(id: int, chn: nat, chnType: int) returns (handle: Handle, data: seq<int>)
      requires Valid() && |channels.lists| <= channels.info.Length && chn < MAX_MODULE_CHANNEL_CNT
      modifies this`history, channels.info, channels.Touched(id, chn, chnType)
      ensures Valid() && |channels.lists| == |channels.region| <= channels.info.Length
      ensures Elsewhere(old(Target(id, chn, chnType)))
      ensures handle.NodeOf? ==> channels.HandedOut(handle.node, id, chn, chnType)
      ensures match old(Target(id, chn, chnType))
              case NoRoute => handle == Failed && history == old(history)
              case To(k, sending) =>
                && k < |channels.lists| == |old(history)| && Took(k, sending, handle, data)
                && (handle.NodeOf? && !sending ==> data == handle.node.data)
                && if handle == Waits then history == old(history)
                   else
                     var e := ReadEvent(sending, data, old(channels.lists[k].freeNodes) == []);
                     history == old(history)[k := old(history)[k] + [e]]
    {
      hide DataChannels.Registered, DataChannels.Valid, DataChannels.Fitted, DataChannels.Cargo, DataChannels.Held,
           Leaves,
           RouteOf, HandsOff;
      Outside();
      OthersClear(id, chn, chnType);
      ghost var route := Target(id, chn, chnType);
      assert forall j :: 0 <= j < |history| ==> Accounted(j);
      handle, data := Take(id, chn, chnType);
      forall j | 0 <= j < |history| && !(route.To? && route.k == j && handle.NodeOf?) ensures Accounted(j) {
        assert old(Accounted(j)) && Unmoved(j);
      }
      if route.To? && handle.NodeOf? {
        assert old(Accounted(route.k));
        Note(route.k, ReadEvent(route.sending, data, old(channels.lists[route.k].freeNodes) == []),
             old(channels.Cargo(route.k)));
        InHand(route.k, handle.node, id, chn, chnType);
      }
    }

    /** write_data */
    method Write(node: Node, id: int, chn: nat, chnType: int, data: seq<int>)
      returns (ret: int, released: Option<seq<int>>)
      requires Valid() && |channels.lists| == |channels.region| <= channels.info.Length && chn < MAX_MODULE_CHANNEL_CNT
      requires channels.HandedOut(node, id, chn, chnType) && channels.LongEnough(data, id, chn, chnType)
      modifies this`history, channels.info, channels.Touched(id, chn, chnType)
      ensures Valid() && |channels.lists| == |channels.region| <= channels.info.Length
      ensures Elsewhere(old(Target(id, chn, chnType)))
      ensures match old(Target(id, chn, chnType))
              case NoRoute => ret == -1 && history == old(history)
              case To(k, sending) =>
                && k < |channels.lists| == |old(history)| && (ret == 0 || ret == -1)
                && (ret != 0 <==> !sending && ReleaseOf(channels.modules.modules, id, chn, chnType) == None)
                && var d := Copied(channels.modules.modules, id, chn, chnType, data);
                && Gave(k, sending, node, d, ret != 0)
                && history == if sending then old(history)[k := old(history)[k] + [Sent(d)]] else old(history)
    {
      hide DataChannels.Registered, DataChannels.Valid, DataChannels.Fitted, DataChannels.Cargo, DataChannels.Held,
           Leaves,
           RouteOf, HandsOff, Copied, ReleaseOf;
      Outside();
      OthersClear(id, chn, chnType);
      ghost var route := Target(id, chn, chnType);
      assert forall j :: 0 <= j < |history| ==> Accounted(j);
      ret, released := Give(node, id, chn, chnType, data);
      forall j | 0 <= j < |history| && !(route.To? && route.k == j && route.sending) ensures Accounted(j) {
        assert old(Accounted(j));
        if !(route.To? && route.k == j) { assert Unmoved(j); }
        assert old(channels.Cargo(j)) + [] == old(channels.Cargo(j));
      }
      if route.To? && route.sending {
        assert old(Accounted(route.k));
        Note(route.k, Sent(Copied(channels.modules.modules, id, chn, chnType, data)), old(channels.Cargo(route.k)));
      }
    }

    /** At any time, on every channel: what receivers were handed is, in order, among what senders put; what
        is still published is the last of it; and nothing is missing unless it was overwritten. */
    lemma InOrder(k: nat)
      requires Valid() && k < |history|
      ensures k < |channels.lists|
      ensures Subsequence(AllReceived(history[k]), AllSent(history[k]))
      ensures |channels.Cargo(k)| <= |AllSent(history[k])|
      ensures AllSent(history[k])[|AllSent(history[k])| - |channels.Cargo(k)|..] == channels.Cargo(k)
      ensures Overwritten !in history[k] ==> AllSent(history[k]) == AllReceived(history[k]) + channels.Cargo(k)
      ensures k < channels.info.Length
      ensures channels.info[k].useCnt - |channels.Cargo(k)| == Overwrites(history[k])
              == |channels.lists[k].freeNodes| - channels.info[k].freeCnt
    {
      channels.LiveInside(k);
      assert Accounted(k);
      EndToEnd(history[k], channels.Cargo(k));
    }

    // ----- any sequence of calls -----

    /** The nodes clients hold, channel by channel */
    ghost function Holdings(): (hs: seq<set<Node>>)
      requires |channels.lists| == |channels.region|
      reads channels, channels.lists
      ensures |hs| == |channels.lists| && forall k :: 0 <= k < |hs| ==> hs[k] == channels.Held(k)
    {
      seq(|channels.lists|, k requires 0 <= k < |channels.lists| && |channels.lists| == |channels.region|
                              reads channels, channels.lists => channels.Held(k))
    }

    /** The loan is of a node held on the channel it came from. */
    ghost predicate Lent(l: Loan)
      requires channels.Registered() && |channels.lists| == |channels.region| <= channels.info.Length
      reads channels, channels.info, channels.lists
      reads channels.modules, channels.modules.cells, channels.table, channels.table.cells
    {
      l.chn < MAX_MODULE_CHANNEL_CNT && Inside(Holdings(), Target(l.id, l.chn, l.chnType), l.node)
    }

    /** These are nodes that clients hold, each held once. */
    ghost predicate Ledger(loans: seq<Loan>)
      reads this, channels, channels.info, channels.regions, channels.lists
      reads channels.modules, channels.modules.cells, channels.table, channels.table.cells
    {
      && Valid() && |channels.lists| == |channels.region| <= channels.info.Length
      && (forall i :: 0 <= i < |loans| ==> Lent(loans[i]))
      && (forall i, j :: 0 <= i < j < |loans| ==> loans[i].node != loans[j].node)
    }

    /** Payload buffers are as long as any copy made from them. */
    ghost predicate Ample(data: seq<int>)
      reads channels.modules
    {
      forall m, c :: m in channels.modules.modules && c in m.chn ==> c.size <= |data|
    }

    lemma AmpleEnough(data: seq<int>, id: int, chn: nat, chnType: int)
      requires Ample(data) && channels.Registered() && |channels.lists| <= channels.info.Length
      requires chn < MAX_MODULE_CHANNEL_CNT
      ensures channels.LongEnough(data, id, chn, chnType)
    {
      FindModuleMeans(channels.modules.modules, id);
    }

    /** Different channels' nodes are different. */
    lemma HoldingsApart()
      requires channels.Valid() && |channels.lists| == |channels.region|
      ensures forall j, k :: 0 <= j < k < |channels.lists| ==> Holdings()[j] !! Holdings()[k]
    {
    }

    /** The channels are as w says, and so are the nodes clients hold. */
    ghost predicate Stands(w: Floor, loans: seq<Loan>)
      reads this, channels, channels.info, channels.regions, channels.lists
      reads channels.modules, channels.modules.cells, channels.table, channels.table.cells
    {
      && Ledger(loans) && w.history == history && w.claims == Claims(loans) && |w.trays| == |channels.lists|
      && forall k :: 0 <= k < |w.trays| ==> Shows(k, w.trays[k])
    }

    ghost predicate Shows(k: nat, tray: Tray)
      requires channels.Valid() && k < |channels.lists|
      reads channels, channels.info, channels.regions
    {
      channels.LiveInside(k);
      tray == Tray(|channels.lists[k].freeNodes|, channels.Cargo(k))
    }

    lemma StandsSized(w: Floor, loans: seq<Loan>)
      requires Stands(w, loans)
      ensures Sized(w) && |w.trays| == |channels.lists| <= channels.info.Length && |channels.Table()| == |w.trays|
      ensures forall m :: m in channels.modules.modules ==> WellFormed(m)
    {
      forall c | c in w.claims ensures c.chn < MAX_MODULE_CHANNEL_CNT {
        var i :| 0 <= i < |loans| && Claims(loans)[i] == c;
        assert Lent(loans[i]);
      }
    }

    lemma StandsMeans(w: Floor, loans: seq<Loan>)
      requires Stands(w, loans)
      ensures Valid() && |history| == |channels.lists| && w.history == history && Ledger(loans)
    {
    }

    /** A read_data, and what it does to the channels and to the nodes held */
    method AskNode(id: int, chn: nat, chnType: int, ghost w: Floor, ghost loans: seq<Loan>) returns (handle: Handle)
      requires Stands(w, loans) && chn < MAX_MODULE_CHANNEL_CNT
      requires Sized(w) && |w.trays| == |channels.Table()|
      requires forall m :: m in channels.modules.modules ==> WellFormed(m)
      modifies this`history, channels.info, channels.regions
      ensures Valid() && |channels.lists| == |channels.region| <= channels.info.Length
      ensures unchanged(channels) && unchanged(channels.modules) && channels.Table() == old(channels.Table())
      ensures var w' := Turn(channels.modules.modules, channels.Table(), w, Ask(id, chn, chnType));
              && w'.history == history && |w'.trays| == |channels.lists|
              && (forall k :: 0 <= k < |w'.trays| ==> Shows(k, w'.trays[k]))
              && w'.claims == if handle.NodeOf? then w.claims + [Claim(id, chn, chnType)] else w.claims
      ensures var route, was := Target(id, chn, chnType), old(Holdings());
              && (handle.NodeOf? ==> route.To? && route.k < |was| && handle.node !in was[route.k])
              && forall k :: 0 <= k < |was| ==>
                   Holdings()[k]
                     == if route.To? && route.k == k && handle.NodeOf? then was[k] + {handle.node} else was[k]
    {
      hide DataChannels.Registered, DataChannels.Valid, DataChannels.Fitted, DataChannels.Cargo, DataChannels.Held,
           Accounted, RouteOf, HandsOff, WellFormed, Turn, Lent;
      OthersClear(id, chn, chnType);
      AskTurn(channels.modules.modules, channels.Table(), w, id, chn, chnType);
      ghost var route, was := Target(id, chn, chnType), Holdings();
      ghost var w' := Turn(channels.modules.modules, channels.Table(), w, Ask(id, chn, chnType));
      var data;
      handle, data := Read(id, chn, chnType);
      forall k | 0 <= k < |was|
        ensures Shows(k, w'.trays[k])
        ensures Holdings()[k] == if route.To? && route.k == k && handle.NodeOf? then was[k] + {handle.node} else was[k]
      {
        assert old(Shows(k, w.trays[k]));
        if !(route.To? && route.k == k) { assert Unmoved(k); }
      }
    }

    /** A read_data; a node it yields joins those held. */
    method AskOne(loans: seq<Loan>, id: int, chn: nat, chnType: int, ghost w: Floor) returns (loans': seq<Loan>)
      requires Stands(w, loans) && chn < MAX_MODULE_CHANNEL_CNT
      requires Sized(w) && |w.trays| == |channels.Table()|
      requires forall m :: m in channels.modules.modules ==> WellFormed(m)
      modifies this`history, channels.info, channels.regions
      ensures unchanged(channels) && unchanged(channels.modules) && channels.Table() == old(channels.Table())
      ensures Stands(Turn(channels.modules.modules, channels.Table(), w, Ask(id, chn, chnType)), loans')
    {
      hide DataChannels.Registered, DataChannels.Valid, DataChannels.Fitted, DataChannels.Held, Accounted, RouteOf,
           Turn, Shows, WellFormed;
      var handle := AskNode(id, chn, chnType, w, loans);
      HoldingsApart();
      forall i | 0 <= i < |loans| ensures Lent(loans[i]) && (handle.NodeOf? ==> loans[i].node != handle.node) {
        assert old(Lent(loans[i]));
      }
      if handle.NodeOf? { ClaimsMore(loans, Loan(handle.node, id, chn, chnType)); }
      loans' := if handle.NodeOf? then loans + [Loan(handle.node, id, chn, chnType)] else loans;
    }

    /** A write_data by the client the node was handed to: other loans are not affected. */
    method Settle(i: nat, data: seq<int>, loans: seq<Loan>, ghost w: Floor) returns (ret: int)
      requires Stands(w, loans) && i < |loans| && Ample(data)
      requires Sized(w) && |w.trays| == |channels.Table()|
      requires forall m :: m in channels.modules.modules ==> WellFormed(m)
      modifies this`history, channels.info, channels.regions
      ensures Valid() && unchanged(channels) && unchanged(channels.modules)
      ensures channels.Table() == old(channels.Table())
      ensures forall j :: 0 <= j < |loans| && (ret != 0 || j != i) ==> Lent(loans[j])
      ensures var w' := Turn(channels.modules.modules, channels.Table(), w, GiveBack(i, data));
              && w'.history == history && |w'.trays| == |channels.lists|
              && (forall k :: 0 <= k < |w'.trays| ==> Shows(k, w'.trays[k]))
              && w'.claims == if ret == 0 then w.claims[..i] + w.claims[i + 1..] else w.claims
    {
      hide DataChannels.Registered, DataChannels.Valid, DataChannels.Fitted, DataChannels.Cargo, DataChannels.Held,
           Accounted, RouteOf, HandsOff, ReleaseOf, Copied, WellFormed, Turn;
      var l := loans[i];
      ReturnTurn(channels.modules.modules, channels.Table(), w, i, data);
      assert Lent(l);
      OthersClear(l.id, l.chn, l.chnType);
      AmpleEnough(data, l.id, l.chn, l.chnType);
      HandedOutTo(l);
      ghost var k, was := Target(l.id, l.chn, l.chnType).k, Holdings();
      ghost var w' := Turn(channels.modules.modules, channels.Table(), w, GiveBack(i, data));
      var released;
      ret, released := Write(l.node, l.id, l.chn, l.chnType, data);
      forall j | 0 <= j < |channels.lists|
        ensures Holdings()[j] == if ret == 0 && k == j then was[j] - {l.node} else was[j]
        ensures Shows(j, w'.trays[j])
      {
        assert old(Shows(j, w.trays[j]));
        if k != j { assert Unmoved(j); }
      }
      forall j | 0 <= j < |loans| && (ret != 0 || j != i) ensures Lent(loans[j]) {
        assert old(Lent(loans[j]));
      }
    }

    /** A write_data for a node held, which is then held no longer, unless the release was refused. */
    method ReturnOne(loans: seq<Loan>, i: nat, data: seq<int>, ghost w: Floor) returns (loans': seq<Loan>)
      requires Stands(w, loans) && i < |loans| && Ample(data)
      requires Sized(w) && |w.trays| == |channels.Table()|
      requires forall m :: m in channels.modules.modules ==> WellFormed(m)
      modifies this`history, channels.info, channels.regions
      ensures unchanged(channels) && unchanged(channels.modules) && channels.Table() == old(channels.Table())
      ensures Stands(Turn(channels.modules.modules, channels.Table(), w, GiveBack(i, data)), loans')
    {
      hide DataChannels.Registered, DataChannels.Valid, DataChannels.Fitted, Accounted, Lent, Ample, Turn, Shows;
      channels.TableFits();
      var ret := Settle(i, data, loans, w);
      ClaimsLess(loans, i);
      loans' := if ret == 0 then loans[..i] + loans[i + 1..] else loans;
    }

    lemma HandedOutTo(l: Loan)
      requires channels.Registered() && |channels.lists| == |channels.region| <= channels.info.Length && Lent(l)
      ensures channels.HandedOut(l.node, l.id, l.chn, l.chnType)
    {
    }

    /** Any sequence of calls by any modules: whatever nodes they ask for, whenever they give them back and
        with whatever payloads, the channels, the nodes held and what has been sent and received end up as
        Played says.  A call that would wait gives way to the next one. */
    method Play(script: seq<Op>, ghost w: Floor) returns (loans: seq<Loan>)
      requires Stands(w, []) && Sized(w) && |w.trays| == |channels.Table()|
      requires forall m :: m in channels.modules.modules ==> WellFormed(m)
      requires forall op :: op in script ==> if op.Ask? then op.chn < MAX_MODULE_CHANNEL_CNT else Ample(op.data)
      modifies this`history, channels.info, channels.regions
      ensures unchanged(channels) && unchanged(channels.modules) && channels.Table() == old(channels.Table())
      ensures Stands(Played(channels.modules.modules, channels.Table(), w, script), loans)
      ensures |history| == |channels.lists|
      ensures forall k :: 0 <= k < |history| ==> Subsequence(AllReceived(history[k]), AllSent(history[k]))
      ensures forall k :: 0 <= k < |history| && Overwritten !in history[k] ==>
                AllSent(history[k]) == AllReceived(history[k]) + channels.Cargo(k)
      ensures |history| <= channels.info.Length
      ensures forall k :: 0 <= k < |history| ==>
                channels.info[k].useCnt - |channels.Cargo(k)| == Overwrites(history[k])
                == |channels.lists[k].freeNodes| - channels.info[k].freeCnt
    {
      hide DataChannels.Registered, DataChannels.Valid, DataChannels.Fitted, DataChannels.Cargo, Accounted, Lent,
           Shows, Turn, Played;
      Outside();
      loans := [];
      ghost var modules, es := channels.modules.modules, channels.Table();
      var i := 0;
      assert script[..0] == [];
      PlayedNone(modules, es, w);
      while i < |script|
        invariant 0 <= i <= |script|
        invariant unchanged(channels) && unchanged(channels.modules) && channels.Table() == es
        invariant Stands(Played(modules, es, w, script[..i]), loans)
      {
        ghost var v := Played(modules, es, w, script[..i]);
        PlayedNext(modules, es, w, script, i);
        match script[i] {
          case Ask(id, chn, chnType) =>
            loans := AskOne(loans, id, chn, chnType, v);
          case GiveBack(j, data) =>
            ReturnNone(modules, es, v, j, data);
            if j < |loans| {
              loans := ReturnOne(loans, j, data, v);
            }
        }
        i := i + 1;
      }
      assert script[..i] == script;
      forall k | 0 <= k < |history| {
        InOrder(k);
      }
    }

    /** From a sender to a receiver of the same channel, one payload after the other: every one arrives. */
    method Relay(k: nat, id: int, chn: nat, id': int, chn': nat, chnType: int, payloads: seq<seq<int>>)
      returns (got: seq<seq<int>>)
      requires Valid() && |channels.lists| == |channels.region| <= channels.info.Length && k < |history|
      requires chn < MAX_MODULE_CHANNEL_CNT && chn' < MAX_MODULE_CHANNEL_CNT
      requires Target(id, chn, chnType) == To(k, true) && Target(id', chn', chnType) == To(k, false)
      requires ReleaseOf(channels.modules.modules, id', chn', chnType) != None
      requires channels.Cargo(k) == [] && channels.lists[k].freeNodes != []
      requires forall p :: p in payloads ==> Ample(p)
      modifies this`history, channels.info, channels.regions
      ensures Valid() && unchanged(channels) && unchanged(channels.modules) && channels.Table() == old(channels.Table())
      ensures |got| == |payloads| && channels.Cargo(k) == [] && channels.lists[k].freeNodes != []
      ensures channels.Held(k) == old(channels.Held(k))
      ensures chnType == HOOK_CHN ==> got == payloads
      ensures chnType == NORMAL_CHN ==>
                var m := FindModule(channels.modules.modules, id);
                && m.Some? && chn < |m.value.chn|
                && forall i :: 0 <= i < |got| ==> Delivers(got[i], payloads[i], m.value.chn[chn].size)
    {
      hide DataChannels.Registered, DataChannels.Valid, DataChannels.Fitted, DataChannels.Cargo, DataChannels.Held,
           Accounted, RouteOf, HandsOff, ReleaseOf, Copied, FindModule, Ample;
      Outside();
      got := [];
      while |got| < |payloads|
        invariant |got| <= |payloads|
        invariant Valid() && unchanged(channels) && unchanged(channels.modules)
        invariant channels.Table() == old(channels.Table())
        invariant channels.Cargo(k) == [] && channels.lists[k].freeNodes != []
        invariant channels.Held(k) == old(channels.Held(k))
        invariant forall i :: 0 <= i < |got| ==>
                    got[i] == Copied(channels.modules.modules, id, chn, chnType, payloads[i])
      {
        var d := RelayOne(k, id, chn, id', chn', chnType, payloads[|got|]);
        got := got + [d];
      }
      Arrived(id, chn, chnType, payloads, got);
    }

    /** What has been copied, byte by byte */
    lemma Arrived(id: int, chn: nat, chnType: int, payloads: seq<seq<int>>, got: seq<seq<int>>)
      requires channels.Registered() && |channels.lists| <= channels.info.Length && chn < MAX_MODULE_CHANNEL_CNT
      requires Target(id, chn, chnType).To? && forall p :: p in payloads ==> Ample(p)
      requires |got| == |payloads|
      requires forall i :: 0 <= i < |got| ==> got[i] == Copied(channels.modules.modules, id, chn, chnType, payloads[i])
      ensures chnType == HOOK_CHN ==> got == payloads
      ensures chnType == NORMAL_CHN ==>
                var m := FindModule(channels.modules.modules, id);
                && m.Some? && chn < |m.value.chn|
                && forall i :: 0 <= i < |got| ==> Delivers(got[i], payloads[i], m.value.chn[chn].size)
    {
      RelayTarget(id, chn, chnType);
      hide RouteOf, FindModule, Copied, Ample, DataChannels.Registered;
      forall i | 0 <= i < |got|
        ensures chnType == HOOK_CHN ==> got[i] == payloads[i]
        ensures chnType == NORMAL_CHN ==>
                  Delivers(got[i], payloads[i], FindModule(channels.modules.modules, id).value.chn[chn].size)
      {
        CopiedMeans(channels.modules.modules, id, chn, chnType, payloads[i]);
        AmpleSize(payloads[i], id, chn);
      }
    }

    lemma RelayTarget(id: int, chn: nat, chnType: int)
      requires channels.Registered() && |channels.lists| <= channels.info.Length && chn < MAX_MODULE_CHANNEL_CNT
      requires Target(id, chn, chnType).To?
      ensures var m := FindModule(channels.modules.modules, id); m.Some? && chn < |m.value.chn|
    {
      channels.Found(id);
    }

    lemma AmpleSize(data: seq<int>, id: int, chn: nat)
      requires Ample(data) && FindModule(channels.modules.modules, id).Some?
      requires chn < |FindModule(channels.modules.modules, id).value.chn|
      ensures FindModule(channels.modules.modules, id).value.chn[chn].size <= |data|
    {
      FindModuleMeans(channels.modules.modules, id);
    }

    /** Request, put, get and release */
    method RelayOne(k: nat, id: int, chn: nat, id': int, chn': nat, chnType: int, payload: seq<int>)
      returns (got: seq<int>)
      requires Valid() && |channels.lists| == |channels.region| <= channels.info.Length && k < |history|
      requires chn < MAX_MODULE_CHANNEL_CNT && chn' < MAX_MODULE_CHANNEL_CNT
      requires Target(id, chn, chnType) == To(k, true) && Target(id', chn', chnType) == To(k, false)
      requires ReleaseOf(channels.modules.modules, id', chn', chnType) != None
      requires channels.Cargo(k) == [] && channels.lists[k].freeNodes != [] && Ample(payload)
      modifies this`history, channels.info, channels.regions
      ensures Valid() && unchanged(channels) && unchanged(channels.modules) && channels.Table() == old(channels.Table())
      ensures channels.Cargo(k) == [] && channels.lists[k].freeNodes != []
      ensures channels.Held(k) == old(channels.Held(k))
      ensures got == Copied(channels.modules.modules, id, chn, chnType, payload)
    {
      hide DataChannels.Registered, DataChannels.Valid, DataChannels.Fitted, DataChannels.Cargo, DataChannels.Held,
           Accounted, RouteOf, HandsOff, ReleaseOf, Copied;
      OthersClear(id, chn, chnType);
      AmpleEnough(payload, id, chn, chnType);
      var handle, _ := Read(id, chn, chnType);
      InHand(k, handle.node, id, chn, chnType);
      OthersClear(id, chn, chnType);
      AmpleEnough(payload, id, chn, chnType);
      var ret, released := Write(handle.node, id, chn, chnType, payload);
      OthersClear(id', chn', chnType);
      handle, got := Read(id', chn', chnType);
      InHand(k, handle.node, id', chn', chnType);
      OthersClear(id', chn', chnType);
      AmpleEnough(payload, id', chn', chnType);
      ret, released := Write(handle.node, id', chn', chnType, payload);
    }

    lemma InHand(k: nat, node: Node, id: int, chn: nat, chnType: int)
      requires channels.Registered() && |channels.lists| == |channels.region| <= channels.info.Length
      requires chn < MAX_MODULE_CHANNEL_CNT && k < |channels.lists| && node in channels.Held(k)
      requires Target(id, chn, chnType).To? && Target(id, chn, chnType).k == k
      ensures channels.HandedOut(node, id, chn, chnType)
    {
    }
  }

  /** What has been got is the first `size` bytes of what was put. */
  predicate Delivers(got: seq<int>, put: seq<int>, size: nat) {
    |got| == size <= |put| && forall j :: 0 <= j < |got| ==> got[j] == put[j]
  }

  /** The node is among those held on the channel the route leads to. */
  ghost predicate Inside(holdings: seq<set<Node>>, route: Route, node: Node) {
    route.To? && route.k < |holdings| && node in holdings[route.k]
  }
}
