/** The channel table of src/data.c: attaching the recorded channels, and handing nodes and payloads
    through it. */
module DataChannels {
  import opened CircularList
  import opened Journal
  import L = Layout
  import X = Exchange
  import NL = NodeList
  import opened SinglyLinked
  import opened Routing
  import opened Routes
  import opened Registration

  const MAX_CHN_THRESHOLD: nat := 128

  /** channel_info_t */
  datatype ChannelInfo = ChannelInfo(list: NL.NodeList?, entry: Entry, useCnt: int, freeCnt: int)

  function Blank(): ChannelInfo {
    ChannelInfo(null, Entry(0, 0, 0, 0, 0, 0), 0, 0)
  }

  /** Lists and counters of the entries, without producers and consumers */
  function Stock(info: seq<ChannelInfo>): (r: seq<ChannelInfo>) {
    seq(|info|, k requires 0 <= k < |info| => info[k].(entry := Blank().entry))
  }

  /** create_module_channel succeeds: the module is registered and asks for at least two nodes. */
  predicate CanCreate(modules: seq<Module>, r: Rec) {
    var m := FindModule(modules, r.mid);
    m.Some? && r.chn < |ChnsOf(m.value, r.kind)| && ChnsOf(m.value, r.kind)[r.chn].num >= 2
  }

  function NodeCount(modules: seq<Module>, r: Rec): nat
    requires CanCreate(modules, r)
  {
    ChnsOf(FindModule(modules, r.mid).value, r.kind)[r.chn].num
  }

  function NodeSize(modules: seq<Module>, r: Rec): nat
    requires CanCreate(modules, r)
  {
    if r.kind == Normal then ChnsOf(FindModule(modules, r.mid).value, r.kind)[r.chn].size else 0
  }

  /** A channel that can be created asks for no more memory than 32 bits can address; create_module_channel
      does not check it. */
  predicate Addressable(modules: seq<Module>, r: Rec) {
    r.Sender? && CanCreate(modules, r) ==> NodeCount(modules, r) * (L.NODE_HEADER + NodeSize(modules, r)) < L.WORD
  }

  datatype Handle = Failed | NodeOf(node: Node) | Waits

  /** A list as Node_List_Init leaves it, with n nodes */
  ghost predicate Brought(list: NL.NodeList, n: nat)
    reads list
  {
    |list.freeNodes| == n && list.Abs() == X.Create(list.freeNodes, true, true)
  }

  predicate Plain<N>(x: X.Exchange<N>) {
    x.keepUpdate && x.block && x.useSem == |x.use|
  }

  ghost function Payloads(ns: seq<Node>): (ds: seq<seq<int>>)
    reads ns
  {
    seq(|ns|, i requires 0 <= i < |ns| reads ns => ns[i].data)
  }

  /** A list's head is none of its entries. */
  lemma HeadOutside(head: Node, s: seq<Node>)
    requires Holds(head, s)
    ensures head !in s
  {
    var c := [head] + s;
    forall x | x in s ensures x != head {
      var i :| 0 <= i < |s| && s[i] == x;
      assert c[0] != c[i + 1];
    }
  }

  /** Put_Use_Node or Put_Free_Node on a list without spare tokens */
  method Put(list: NL.NodeList, node: Node, toUse: bool, ghost region: set<object>)
    requires list.Valid() && Plain(list.Abs()) && node !in list.Repr()
    modifies list.Repr(), node
    ensures list.Valid() && Plain(list.Abs()) && list.Repr() == old(list.Repr()) + {node}
    ensures list.Abs() == if toUse then X.PutUse(old(list.Abs()), node) else X.PutFree(old(list.Abs()), node)
    ensures forall x: Node :: x in region && x != list.free && x != list.use ==> x.data == old(x.data)
  {
    if toUse {
      list.PutUseNode(node);
    } else {
      list.PutFreeNode(node);
    }
  }

  /** Get_Free_Node or Get_Use_Node on a list without spare tokens: never NULL */
  method Get(list: NL.NodeList, fromFree: bool, ghost region: set<object>) returns (out: X.Outcome<Node>)
    requires list.Valid() && Plain(list.Abs())
    modifies list.Repr()
    ensures list.Valid() && Plain(list.Abs())
    ensures old(list.Repr()) == if out.Got? then list.Repr() + {out.node} else list.Repr()
    ensures var (x', o) := if fromFree then X.GetFree(old(list.Abs())) else X.GetUse(old(list.Abs()));
            list.Abs() == x' && out == o && out != X.Null
    ensures out.Got? ==> out.node in old(list.Repr()) && out.node !in list.Repr() && out.node.data == old(out.node.data)
    ensures forall x: Node :: x in region && x != list.free && x != list.use ==> x.data == old(x.data)
  {
    if fromFree {
      out := list.GetFreeNode();
    } else {
      out := list.GetUseNode();
    }
  }

  class DataChannels {
    const modules: ModuleTable
    const table: ChnTable
    var total: int
    const info: array<ChannelInfo>

    /** The node lists of entries 0 .. total-1 */
    ghost var lists: seq<NL.NodeList>
    /** What belongs to each list, whether on it or in a client's hands; and all of it together */
    ghost var region: seq<set<object>>
    ghost var regions: set<object>
    /** The sender records they were made for */
    ghost var served: seq<Rec>

    /** Modules and records are in order; both are only read from here on. */
    ghost predicate Registered()
      reads modules, modules.cells, table, table.cells
    {
      && modules.Valid() && table.Valid()
      && (forall m :: m in modules.modules ==> WellFormed(m))
      && (forall r :: r in table.recs ==> r.chn < MAX_MODULE_CHANNEL_CNT && Addressable(modules.modules, r))
    }

    /** Every entry has a node list of its own, in blocking keep-update mode without spare tokens. */
    ghost predicate Valid()
      reads this, info, regions
    {
      Laid() && Entered() && forall k :: 0 <= k < |lists| ==> Live(k)
    }

    /** Entries beyond the last one are blank; what belongs to different lists is disjoint. */
    ghost predicate Laid()
      reads this, info
    {
      && info.Length == MAX_CHN_THRESHOLD
      && 0 <= total == |lists| == |served| == |region| <= MAX_CHN_THRESHOLD
      && (forall k :: 0 <= k < |lists| ==> lists[k] in region[k] && region[k] <= regions)
      && this !in regions && info !in regions
      && (forall j, k :: 0 <= j < k < |lists| ==> region[j] !! region[k])
      && (forall o: object :: o in regions ==> o is Node || o is NL.NodeList)
      && (forall k :: total <= k < info.Length ==> info[k] == Blank())
    }

    ghost predicate Entered()
      requires Laid()
      reads this, info
    {
      forall k :: 0 <= k < |lists| ==> EnteredAt(k)
    }

    ghost predicate EnteredAt(k: nat)
      requires k < |lists| && k < |served| && k < info.Length
      reads this, info
    {
      info[k].list == lists[k] && SameProducer(info[k].entry, EntryOf(served[k])) && served[k].Sender?
    }

    ghost predicate Live(k: nat)
      requires k < |lists| && k < |region| && lists[k] in region[k]
      reads this, region[k]
    {
      && lists[k].Repr() <= region[k] && lists[k].Valid() && Plain(lists[k].Abs())
    }

    /** Every node of a normal channel, wherever it is, has a buffer of exactly the size the sender copies. */
    ghost predicate Fitted()
      reads this, regions, modules
    {
      forall k: nat, o :: k < |region| && o in region[k] && o in regions ==> FitsAt(k, o)
    }

    ghost predicate FitsAt(k: nat, o: object)
      reads this, o, modules
    {
      k < |lists| && k < |served| && served[k].kind == Normal && o is Node && !IsHead(k, o) ==>
        |(o as Node).data| == SizeOf(modules.modules, served[k].mid, served[k].chn)
    }

    ghost predicate IsHead(k: nat, o: object)
      requires k < |lists|
      reads this
    {
      o == lists[k].free || o == lists[k].use
    }

    /** The payloads published on channel k and not yet taken, oldest first */
    ghost function Cargo(k: nat): (ds: seq<seq<int>>)
      requires k < |lists|
      reads this, lists[k], lists[k].useNodes
    {
      Payloads(lists[k].useNodes)
    }

    /** The nodes of channel k that clients hold */
    ghost function Held(k: nat): (held: set<Node>)
      requires k < |lists| && k < |region|
      reads this, lists[k]
    {
      set x: Node | x in region[k] && x !in lists[k].Repr()
    }

    constructor (modules: ModuleTable, table: ChnTable)
      ensures Fitted()
      ensures Valid() && total == 0 && lists == [] && served == [] && regions == {}
      ensures this.modules == modules && this.table == table && fresh(info)
    {
      this.modules := modules;
      this.table := table;
      total := 0;
      lists, region, regions, served := [], [], {}, [];
      info := new ChannelInfo[MAX_CHN_THRESHOLD](_ => Blank());
    }

    /** create_module_channel: a new node list, unless fewer than two nodes are asked for. */
    method CreateModuleChannel(m: Module, chn: nat, kind: Kind) returns (ok: bool)
      requires Valid() && total < MAX_CHN_THRESHOLD && chn < |ChnsOf(m, kind)|
      modifies this, info
      ensures Valid() && ok == (ChnsOf(m, kind)[chn].num >= 2) && fresh(regions - old(regions))
      ensures !ok ==> unchanged(this) && info[..] == old(info[..])
      ensures ok ==>
        && |lists| == |old(lists)| + 1 && lists[..|old(lists)|] == old(lists)
        && fresh(lists[|old(lists)|].Repr()) && Brought(lists[|old(lists)|], ChnsOf(m, kind)[chn].num)
        && lists[|old(lists)|].useNodes == []
        && region == old(region) + [lists[|old(lists)|].Repr()] && old(regions) <= regions
        && (kind == Normal ==> forall x :: x in lists[|old(lists)|].freeNodes ==> |x.data| == ChnsOf(m, kind)[chn].size)
        && served == old(served) + [Sender(kind, m.id, chn)]
        && info[|old(lists)|].entry == EntryOf(Sender(kind, m.id, chn))
        && info[|old(lists)|].useCnt == 0 && info[|old(lists)|].freeCnt == ChnsOf(m, kind)[chn].num
        && forall k :: 0 <= k < |old(lists)| ==> info[k] == old(info[k])
    {
      hide NL.NodeList.Valid;
      var c := ChnsOf(m, kind)[chn];
      var list := NL.NodeListInit(if kind == Normal then c.size else 0, c.num, true, true,
                                  if kind == Normal then NL.NODE_DATA_TYPE_BUFFER else NL.NODE_DATA_TYPE_POINTER);
      if list == null {
        return false;
      }
      var e := info[total].entry;
      AddEntry(list, ChannelInfo(list,
        if kind == Normal then e.(producerId := m.id, producerChn := chn, producerHchn := -1)
        else e.(producerId := m.id, producerChn := -1, producerHchn := chn),
        0, c.num), Sender(kind, m.id, chn));
      return true;
    }

    /** The next entry of the table */
    method AddEntry(list: NL.NodeList, ci: ChannelInfo, ghost r: Rec)
      requires Valid() && total < MAX_CHN_THRESHOLD && ci.list == list && ci.entry == EntryOf(r) && r.Sender?
      requires list.Valid() && Plain(list.Abs())
      requires list.Repr() !! regions && info !in list.Repr() && this !in list.Repr() && list in list.Repr()
      requires forall o: object :: o in list.Repr() ==> o is Node || o is NL.NodeList
      modifies this, info
      ensures Valid() && lists == old(lists) + [list] && served == old(served) + [r] && info[|old(lists)|] == ci
      ensures region == old(region) + [list.Repr()] && regions == old(regions) + list.Repr()
      ensures forall k :: 0 <= k < |old(lists)| ==> info[k] == old(info[k])
    {
      hide NL.NodeList.Valid, NL.NodeList.Abs, NL.NodeList.Repr, Plain;
      assert forall k :: 0 <= k < |lists| ==> Live(k) && EnteredAt(k);
      info[total] := ci;
      total := total + 1;
      lists, served := lists + [list], served + [r];
      region, regions := region + [list.Repr()], regions + list.Repr();
      forall k | 0 <= k < |lists| ensures Live(k) && EnteredAt(k) {
        if k < |lists| - 1 { assert old(Live(k)) && old(EnteredAt(k)); }
      }
    }

    /** Each entry has a list of the size its sender asked for, just initialised, and counters to match. */
    ghost predicate Supplied()
      requires |served| == |lists| <= info.Length
      reads this, info, lists, modules
    {
      forall k :: 0 <= k < |lists| ==> SuppliedAt(k)
    }

    ghost predicate SuppliedAt(k: nat)
      requires k < |served| == |lists| <= info.Length
      reads this, info, lists[k], modules
    {
      StockedAt(k) && info[k].entry == EntryOf(served[k])
    }

    ghost predicate StockedAt(k: nat)
      requires k < |served| == |lists| <= info.Length
      reads this, info, lists[k], modules
    {
      && CanCreate(modules.modules, served[k])
      && Brought(lists[k], NodeCount(modules.modules, served[k]))
      && info[k].useCnt == 0 && info[k].freeCnt == NodeCount(modules.modules, served[k])
    }

    /** The nodes of entry k with their buffers, where Node_List_Init puts them */
    ghost predicate PlacedAt(k: nat)
      requires k < |served|
      reads this, modules
    {
      CanCreate(modules.modules, served[k]) ==>
        L.WellPlaced(NodeCount(modules.modules, served[k]), L.NODE_HEADER, NodeSize(modules.modules, served[k]))
    }

    lemma BuffersPlaced(k: nat)
      requires Registered() && k < |served| && served[k] in table.recs && served[k].Sender?
      ensures PlacedAt(k)
    {
      assert Addressable(modules.modules, served[k]);
      if CanCreate(modules.modules, served[k]) {
        L.FitsIsPlaced(NodeCount(modules.modules, served[k]), L.NODE_HEADER, NodeSize(modules.modules, served[k]));
      }
    }

    lemma AllPlaced()
      requires Registered() && Valid() && served == Senders(table.recs)
      ensures |lists| == |served| && forall k :: 0 <= k < |lists| ==> PlacedAt(k)
    {
      hide Registered, Valid, PlacedAt;
      TableFits();
      forall k | 0 <= k < |lists| ensures PlacedAt(k) {
        assert served[k] in Senders(table.recs);
        BuffersPlaced(k);
      }
    }

    lemma RegionsCover()
      requires Valid()
      ensures |region| == |lists| && forall k :: 0 <= k < |region| ==> region[k] <= regions
    {
    }

    lemma TableFits()
      requires Valid()
      ensures total == |served| == |lists| <= info.Length == MAX_CHN_THRESHOLD && info !in regions
    {
    }

    /** One sender record: its module is looked up and its channel created. */
    method CreateOne(a: Attr, ghost r: Rec) returns (ok: bool)
      requires Registered() && Valid() && |lists| < MAX_CHN_THRESHOLD && Supplied()
      requires Shows(a, r) && r.Sender? && r.chn < MAX_MODULE_CHANNEL_CNT
      modifies this, info
      ensures Registered() && Valid() && ok == CanCreate(modules.modules, r)
      ensures served == if ok then old(served) + [r] else old(served)
      ensures Supplied() && (old(Fitted()) ==> Fitted()) && fresh(regions - old(regions))
    {
      hide Registered, Valid, Supplied, Fitted, WellFormed;
      Found(a.smid);
      var m := modules.SearchModule(a.smid);
      if m == None {
        return false;
      }
      ok := CreateFor(m.value, a.schnid, if a.attr == NORMAL_CHN then Normal else Hook);
    }

    method CreateFor(m: Module, chn: nat, kind: Kind) returns (ok: bool)
      requires Valid() && |lists| < MAX_CHN_THRESHOLD && chn < |ChnsOf(m, kind)| && Supplied()
      requires FindModule(modules.modules, m.id) == Some(m)
      modifies this, info
      ensures Valid() && ok == CanCreate(modules.modules, Sender(kind, m.id, chn))
      ensures served == if ok then old(served) + [Sender(kind, m.id, chn)] else old(served)
      ensures Supplied() && (old(Fitted()) ==> Fitted()) && fresh(regions - old(regions))
    {
      hide Valid, Brought;
      TableFits();
      RegionsCover();
      assert forall k :: 0 <= k < |lists| ==> SuppliedAt(k);
      ok := CreateModuleChannel(m, chn, kind);
      TableFits();
      forall k | 0 <= k < |lists| ensures SuppliedAt(k) {
        if k < |old(lists)| { assert old(SuppliedAt(k)); }
      }
      if old(Fitted()) {
        forall k: nat, o | k < |region| && o in region[k] && o in regions ensures FitsAt(k, o) {
          if k < |old(lists)| {
            assert o in old(region)[k];
            assert old(FitsAt(k, o));
          }
        }
      }
    }

    lemma RecordAt(i: nat)
      requires Registered() && i < |table.recs|
      ensures |table.cells| == |table.recs| && table.recs[i].chn < MAX_MODULE_CHANNEL_CNT
      ensures table.cells[i].next == At(table.cells, i + 1) && Shows(table.cells[i].item, table.recs[i])
    {
      assert table.recs[i] in table.recs;
    }

    lemma RecordRole(i: nat)
      requires Registered() && i < |table.recs| && i < |table.cells|
      ensures table.recs[i].Sender? <==> table.cells[i].item.role != DATA_CHANNEL_RECEIVER
    {
    }

    lemma RecordFirst()
      requires Registered()
      ensures |table.cells| == |table.recs| && table.dca == At(table.cells, 0)
    {
    }

    /** The loop of attach_module_channel: an entry for every sender record, in record order, up to the
        first that cannot be created. */
    method CreateAll() returns (ok: bool)
      requires Registered() && Valid() && lists == [] && |Senders(table.recs)| <= MAX_CHN_THRESHOLD && Fitted()
      modifies this, info
      ensures Registered() && Valid()
      ensures ok <==> forall r :: r in Senders(table.recs) ==> CanCreate(modules.modules, r)
      ensures served <= Senders(table.recs) && Supplied() && Fitted() && fresh(regions - old(regions))
      ensures ok ==> served == Senders(table.recs)
      ensures !ok ==> served != Senders(table.recs) && !CanCreate(modules.modules, Senders(table.recs)[|served|])
    {
      hide Registered, Valid, Supplied, Fitted, CanCreate, Senders, Shows;
      TableFits();
      RecordFirst();
      ghost var i := 0;
      var dca := table.dca;
      ghost var recs := table.recs;
      SendersNone(recs);
      NoneSupplied();
      while dca != null
        invariant i <= |recs| && dca == At(table.cells, i)
        invariant Registered() && Valid() && |served| == |lists| <= info.Length
        invariant served == Senders(recs[..i]) && Supplied() && Fitted() && fresh(regions - old(regions))
        invariant forall r :: r in Senders(recs[..i]) ==> CanCreate(modules.modules, r)
        decreases |recs| - i
      {
        RecordAt(i);
        SendersNext(recs, i);
        if dca.item.role == DATA_CHANNEL_SENDER {
          ok := CreateOne(dca.item, recs[i]);
          if !ok {
            return;
          }
          TableFits();
        }
        dca := dca.next;
        i := i + 1;
      }
      assert recs[..i] == recs;
      return true;
    }

    lemma NoneSupplied()
      requires lists == [] && served == [] && 0 <= info.Length
      ensures Supplied()
    {
    }

    /** The entries, without lists and counters */
    ghost function Table(): (es: seq<Entry>)
      requires |lists| <= info.Length
      reads this, info
      ensures |es| == |lists| && forall k :: 0 <= k < |es| ==> es[k] == info[k].entry
    {
      seq(|lists|, k requires 0 <= k < |lists| && k < info.Length reads this, info => info[k].entry)
    }

    /** The inner loop of attach_sender_receiver_chn_info; the test at its end for "no sender found" comes
        before the loop counter can reach the count, so a receiver nobody serves is passed over. */
    method AttachRecord(a: Attr, ghost r: Rec)
      requires Valid() && Shows(a, r) && r.Receiver?
      modifies info
      ensures Valid() && Table() == AttachOne(old(Table()), r) && Stock(info[..]) == Stock(old(info[..]))
      ensures |Table()| == |old(Table())|
      ensures var k := Resolve(old(Table()), r.fromMid, r.kind, r.fromChn);
              && (forall j :: 0 <= j < |Table()| && j != k ==> Table()[j] == old(Table())[j])
              && (k >= 0 ==>
                    && SameProducer(Table()[k], old(Table())[k]) && Table()[k].consumerId == r.mid
                    && (r.kind == Normal ==> Table()[k].consumerChn == r.chn
                                             && Table()[k].consumerHchn == old(Table())[k].consumerHchn)
                    && (r.kind == Hook ==> Table()[k].consumerHchn == r.chn
                                           && Table()[k].consumerChn == old(Table())[k].consumerChn))
    {
      TableFits();
      ghost var es, j := Table(), Resolve(Table(), r.fromMid, r.kind, r.fromChn);
      var k := 0;
      while k < total
        invariant 0 <= k <= total && (j >= 0 ==> k <= j)
        invariant Table() == es && Valid() && info[..] == old(info[..])
      {
        assert es[k] == info[k].entry;
        if info[k].entry.producerId == a.rsmid {
          if a.attr == NORMAL_CHN {
            if info[k].entry.producerChn == a.rschnid {
              SetConsumer(k, info[k].entry.(consumerId := a.rmid, consumerChn := a.rchnid));
              return;
            }
          } else if a.attr == HOOK_CHN {
            if info[k].entry.producerHchn == a.rschnid {
              SetConsumer(k, info[k].entry.(consumerId := a.rmid, consumerHchn := a.rchnid));
              return;
            }
          }
        }
        k := k + 1;
      }
    }

    method SetConsumer(k: nat, e: Entry)
      requires Valid() && k < total && SameProducer(info[k].entry, e)
      modifies info
      ensures Valid() && Table() == old(Table())[k := e]
      ensures forall j :: 0 <= j < info.Length ==> info[j] == if j == k then old(info[j]).(entry := e) else old(info[j])
    {
      hide Registered, Valid, Live;
      TableFits();
      OthersApart(k);
      assert forall j :: 0 <= j < |lists| ==> EnteredAt(j);
      info[k] := info[k].(entry := e);
      forall j | 0 <= j < |lists| ensures EnteredAt(j) {
        assert old(EnteredAt(j));
      }
      ValidAgain();
    }

    /** attach_sender_receiver_chn_info: the walk is counted, and the counts are those of the list.  With
        different counts it does nothing. */
    method AttachReceivers()
      requires Registered() && Valid()
      modifies info
      ensures Registered() && Valid() && Stock(info[..]) == Stock(old(info[..]))
      ensures Table() == if |Senders(table.recs)| * 2 == |table.recs| then AttachAll(old(Table()), table.recs)
                         else old(Table())
    {
      hide Registered, Valid, Shows, AttachAll, AttachOne, Stock, SameProducer, Senders;
      TableFits();
      RecordFirst();
      CountsFit();
      ghost var es, recs := Table(), table.recs;
      if table.schannelCnt != table.rchannelCnt {
        return;
      }
      var channelCnt := table.schannelCnt + table.rchannelCnt;
      var search := table.dca;
      var i := 0;
      AttachNone(es, recs);
      while i < channelCnt
        invariant 0 <= i <= channelCnt == |recs| && search == At(table.cells, i)
        invariant Registered() && Valid() && Table() == AttachAll(es, recs[..i])
        invariant Stock(info[..]) == Stock(old(info[..]))
      {
        RecordAt(i);
        AttachNext(es, recs, i);
        RecordRole(i);
        if search.item.role == DATA_CHANNEL_RECEIVER {
          AttachRecord(search.item, recs[i]);
        }
        search := search.next;
        i := i + 1;
      }
      assert recs[..i] == recs;
    }

    lemma TableReady()
      requires Registered()
      ensures table.Valid()
    {
    }

    lemma CountsFit()
      requires Registered()
      ensures table.schannelCnt + table.rchannelCnt == |table.recs|
      ensures table.schannelCnt == |Senders(table.recs)|
    {
    }

    method EnterConsumers()
      requires Registered() && Valid() && Supplied() && |Senders(table.recs)| * 2 == |table.recs|
      modifies info
      ensures Registered() && Valid() && Table() == AttachAll(Entries(served), table.recs)
      ensures (forall k :: 0 <= k < |lists| ==> StockedAt(k)) && (old(Fitted()) ==> Fitted())
    {
      hide Registered, Valid, Fitted, Brought;
      TableFits();
      CountsFit();
      forall k | 0 <= k < |lists| ensures Table()[k] == Entries(served)[k] && StockedAt(k) {
        assert SuppliedAt(k);
      }
      assert Table() == Entries(served);
      AttachReceivers();
      forall k | 0 <= k < |lists| ensures StockedAt(k) {
        assert old(StockedAt(k));
        assert Stock(info[..])[k] == Stock(old(info[..]))[k];
      }
    }

    /** attach_module_channel: succeeds exactly when there are as many receiver records as sender records
        and every sender's channel can be created; then there is one entry with one list for each sender
        record, in record order, and receivers have been entered as consumers. */
    method AttachModuleChannel() returns (ret: int)
      requires Registered() && Valid() && table.recs != [] && lists == [] && Fitted()
      requires |Senders(table.recs)| <= MAX_CHN_THRESHOLD
      modifies this, info
      ensures Registered() && Valid() && (ret == 0 || ret == -1) && fresh(regions - old(regions))
      ensures ret == 0 <==>
        && |Senders(table.recs)| * 2 == |table.recs|
        && forall r :: r in Senders(table.recs) ==> CanCreate(modules.modules, r)
      ensures ret == 0 ==>
        && served == Senders(table.recs)
        && Table() == AttachAll(Entries(Senders(table.recs)), table.recs)
        && (forall k :: 0 <= k < |lists| ==> StockedAt(k) && PlacedAt(k))
        && Fitted()
      ensures ret != 0 ==>
        if |Senders(table.recs)| * 2 != |table.recs| then unchanged(this) && unchanged(info)
        else
          && served <= Senders(table.recs) && served != Senders(table.recs)
          && !CanCreate(modules.modules, Senders(table.recs)[|served|])
          && |lists| == |served| <= info.Length && Supplied() && Fitted()
    {
      hide Registered, Valid, Supplied, Fitted, CanCreate, StockedAt, PlacedAt, AttachAll, Entries;
      TableReady();
      ret := table.CheckCorrespondence();
      if ret != 0 {
        return;
      }
      var ok := CreateAll();
      if !ok {
        TableFits();
        return -1;
      }
      EnterConsumers();
      AllPlaced();
      return 0;
    }

    /** The search loops of read_data and write_data */
    method FindEntry(mid: int, kind: Kind, cid: int) returns (k: int)
      requires Valid()
      ensures |lists| <= info.Length && k == (var r := Resolve(Table(), mid, kind, cid); if r < 0 then |lists| else r)
    {
      TableFits();
      ghost var es := Table();
      k := 0;
      while k < total
        invariant 0 <= k <= total
        invariant forall j :: 0 <= j < k ==> !Serves(es[j], mid, kind, cid)
      {
        var e := info[k].entry;
        assert es[k] == e;
        if e.producerId == mid && (if kind == Normal then e.producerChn else e.producerHchn) == cid {
          return;
        }
        k := k + 1;
      }
    }

    /** The entry a call goes to, and in which role */
    method FindRoute(id: int, chn: nat, chnType: int) returns (route: Route, m: Option<Module>, src: Port)
      requires Registered() && Valid() && chn < MAX_MODULE_CHANNEL_CNT
      ensures |lists| <= info.Length && route == RouteOf(modules.modules, Table(), id, chn, chnType)
      ensures route.To? ==>
        && route.k < |lists| && m.Some? && WellFormed(m.value) && m.value.id == id
        && m == FindModule(modules.modules, id)
        && |m.value.chn| == |m.value.hchn| == MAX_MODULE_CHANNEL_CNT
        && (var c := (if chnType == NORMAL_CHN then m.value.chn else m.value.hchn)[chn];
            && src == (if c.role == DATA_CHANNEL_SENDER then Port(id, chn) else Port(c.moduleId, c.channel))
            && (c.role == DATA_CHANNEL_SENDER || c.role == DATA_CHANNEL_RECEIVER)
            && (route.sending <==> c.role == DATA_CHANNEL_SENDER))
        && src == Source(m.value, KindOf(chnType), chn) && 0 <= src.cid < MAX_MODULE_CHANNEL_CNT
        && (chnType == NORMAL_CHN || chnType == HOOK_CHN)
    {
      hide Registered, Valid, Resolve;
      Found(id);
      TableFits();
      src := Port(0, 0);
      m := modules.SearchModule(id);
      if m == None || (chnType != NORMAL_CHN && chnType != HOOK_CHN) {
        return NoRoute, m, src;
      }
      SourceAt(m.value, KindOf(chnType), chn);
      var c := ChnsOf(m.value, KindOf(chnType))[chn];
      if c.role == DATA_CHANNEL_SENDER {
        src := Port(id, chn);
      } else if c.role == DATA_CHANNEL_RECEIVER {
        src := Port(c.moduleId, c.channel);
      } else {
        return NoRoute, m, src;
      }
      var k := FindEntry(src.mid, KindOf(chnType), src.cid);
      if k == total {
        return NoRoute, m, src;
      }
      return To(k, c.role == DATA_CHANNEL_SENDER), m, src;
    }

    /** How entry k lies to the table and the registry */
    lemma EntryFacts(k: nat)
      requires Registered() && Valid() && k < |lists|
      ensures total == |lists| == |region| == |served| <= info.Length && region[k] <= regions
      ensures this !in region[k] && info !in region[k] && modules !in region[k]
      ensures modules.Valid() && forall c :: c in modules.cells ==> c !in region[k]
    {
      RecordsApart();
    }

    /** What a get on the list of entry k comes to, on the free list or on the use list */
    ghost function Taken(k: nat, fromFree: bool): (X.Exchange<Node>, X.Outcome<Node>)
      requires Valid() && k < |lists|
      reads this, info, regions
    {
      assert Live(k);
      if fromFree then X.GetFree(lists[k].Abs()) else X.GetUse(lists[k].Abs())
    }

    /** It waits exactly when there is nothing to take, and never yields NULL. */
    lemma TakenMeans(k: nat, fromFree: bool)
      requires Valid() && k < |lists|
      ensures var x, (x', out) := lists[k].Abs(), Taken(k, fromFree);
              && out != X.Null && (out == X.Blocks <==> x.use == [] && (fromFree ==> x.free == []))
              && (out == X.Blocks ==> x' == x)
              && (out.Got? ==>
                    if fromFree && x.free != [] then x'.free == x.free[1..] && x'.use == x.use
                    else x'.free == x.free && x'.use == x.use[1..])
    {
      assert Live(k);
    }

    /** That get */
    method GetAt(k: nat, fromFree: bool) returns (out: X.Outcome<Node>)
      requires Registered() && Valid() && k < |lists|
      modifies region[k]
      ensures Registered() && Valid()
      ensures forall j :: 0 <= j < |lists| && j != k ==> lists[j].Abs() == old(lists[j].Abs())
      ensures var (x', o) := old(Taken(k, fromFree)); lists[k].Abs() == x' && out == o && out != X.Null
      ensures old(lists[k].Repr()) == if out.Got? then lists[k].Repr() + {out.node} else lists[k].Repr()
      ensures out.Got? ==> out.node in old(region)[k] && out.node !in lists[k].Repr()
      ensures out.Got? ==> out.node.data == old(out.node.data)
      ensures forall x: Node :: x in region[k] && x != lists[k].free && x != lists[k].use ==> x.data == old(x.data)
    {
      hide Registered, Valid, Laid, Live, Entered, X.GetFree, X.GetUse, NL.NodeList.Abs, NL.NodeList.Repr;
      OthersApart(k);
      RecordsApart();
      out := GetLive(k, fromFree);
      ValidAgain();
    }

    /** The get itself */
    method GetLive(k: nat, fromFree: bool) returns (out: X.Outcome<Node>)
      requires k < |lists| && k < |region| && k < info.Length && lists[k] in region[k] && info[k].list == lists[k]
      requires Live(k) && this !in region[k] && info !in region[k]
      modifies region[k]
      ensures Live(k)
      ensures var (x', o) := if fromFree then X.GetFree(old(lists[k].Abs())) else X.GetUse(old(lists[k].Abs()));
              lists[k].Abs() == x' && out == o && out != X.Null
      ensures old(lists[k].Repr()) == if out.Got? then lists[k].Repr() + {out.node} else lists[k].Repr()
      ensures out.Got? ==> out.node.data == old(out.node.data) && out.node in region[k] && out.node !in lists[k].Repr()
      ensures forall x: Node :: x in region[k] && x != lists[k].free && x != lists[k].use ==> x.data == old(x.data)
    {
      hide NL.NodeList.Valid, NL.NodeList.Abs, NL.NodeList.Repr, X.GetFree, X.GetUse;
      out := Get(info[k].list, fromFree, region[k]);
    }

    method PutLive(k: nat, node: Node, toUse: bool)
      requires k < |lists| && k < |region| && k < info.Length && lists[k] in region[k] && info[k].list == lists[k]
      requires Live(k) && this !in region[k] && info !in region[k] && node in region[k] && node !in lists[k].Repr()
      modifies region[k]
      ensures Live(k)
      ensures lists[k].Abs() == if toUse then X.PutUse(old(lists[k].Abs()), node)
                                else X.PutFree(old(lists[k].Abs()), node)
      ensures lists[k].Repr() == old(lists[k].Repr()) + {node}
      ensures forall x: Node :: x in region[k] && x != lists[k].free && x != lists[k].use ==> x.data == old(x.data)
      ensures node.data == old(node.data)
    {
      assert node != lists[k].free && node != lists[k].use;
      hide NL.NodeList.Valid, NL.NodeList.Abs, NL.NodeList.Repr, X.PutUse, X.PutFree;
      Put(info[k].list, node, toUse, region[k]);
    }

    /** Away from the lists */
    lemma RecordsApart()
      requires Registered() && Valid()
      ensures modules !in regions && table !in regions
      ensures forall c :: c in modules.cells ==> c !in regions
      ensures forall c :: c in table.cells ==> c !in regions
    {
    }

    /** What Valid says, seen from entry k */
    lemma OthersApart(k: nat)
      requires Valid() && k < |lists|
      ensures Laid() && Entered() && |served| == |region| == |lists| <= info.Length && info[k].list == lists[k]
      ensures this !in regions && info !in regions && this !in region[k] && info !in region[k]
      ensures forall j :: 0 <= j < |lists| ==> lists[j] in region[j] && region[j] <= regions && Live(j)
      ensures forall j :: 0 <= j < |lists| && j != k ==> region[j] !! region[k] && lists[j] !in region[k]
    {
      assert EnteredAt(k) && Live(k);
    }

    /** And back */
    lemma ValidAgain()
      requires Laid() && Entered() && forall j :: 0 <= j < |lists| ==> Live(j)
      ensures Valid()
    {
    }

    /** A put on the list of entry k of a node that belongs to it and is in a client's hands */
    method PutAt(k: nat, node: Node, toUse: bool)
      requires Registered() && Valid() && k < |lists| && node in region[k] && node !in lists[k].Repr()
      modifies region[k]
      ensures Registered() && Valid()
      ensures forall j :: 0 <= j < |lists| && j != k ==> lists[j].Abs() == old(lists[j].Abs())
      ensures lists[k].Abs() == if toUse then X.PutUse(old(lists[k].Abs()), node)
                                else X.PutFree(old(lists[k].Abs()), node)
      ensures lists[k].Repr() == old(lists[k].Repr()) + {node}
      ensures node.data == old(node.data)
      ensures forall x: Node :: x in region[k] && x != lists[k].free && x != lists[k].use ==> x.data == old(x.data)
    {
      hide Registered, Valid, Laid, Live, Entered, X.PutFree, X.PutUse, NL.NodeList.Abs, NL.NodeList.Repr;
      OthersApart(k);
      RecordsApart();
      PutLive(k, node, toUse);
      ValidAgain();
    }

    /** The same, with every buffer still of its size */
    method GetFitted(k: nat, fromFree: bool) returns (out: X.Outcome<Node>)
      requires Registered() && Valid() && Fitted() && k < |lists|
      modifies region[k]
      ensures Registered() && Valid() && Fitted()
      ensures forall j :: 0 <= j < |lists| && j != k ==> lists[j].Abs() == old(lists[j].Abs())
      ensures var (x', o) := old(Taken(k, fromFree)); lists[k].Abs() == x' && out == o && out != X.Null
      ensures old(lists[k].Repr()) == if out.Got? then lists[k].Repr() + {out.node} else lists[k].Repr()
      ensures out.Got? ==> out.node in old(region)[k] && out.node !in lists[k].Repr()
      ensures out.Got? ==> out.node.data == old(out.node.data)
      ensures forall x: Node :: x in region[k] && x != lists[k].free && x != lists[k].use ==> x.data == old(x.data)
    {
      hide Registered, Valid, NL.NodeList.Abs;
      OthersApart(k);
      out := GetAt(k, fromFree);
      forall j: nat, o | j < |region| && o in region[j] && o in regions ensures FitsAt(j, o) {
        assert old(FitsAt(j, o));
        assert j != k ==> o !in region[k];
      }
    }

    method PutFitted(k: nat, node: Node, toUse: bool)
      requires Registered() && Valid() && Fitted() && k < |lists| && node in region[k] && node !in lists[k].Repr()
      modifies region[k]
      ensures Registered() && Valid() && Fitted()
      ensures forall j :: 0 <= j < |lists| && j != k ==> lists[j].Abs() == old(lists[j].Abs())
      ensures lists[k].Abs() == if toUse then X.PutUse(old(lists[k].Abs()), node)
                                else X.PutFree(old(lists[k].Abs()), node)
      ensures lists[k].Repr() == old(lists[k].Repr()) + {node}
      ensures node.data == old(node.data)
      ensures forall x: Node :: x in region[k] && x != lists[k].free && x != lists[k].use ==> x.data == old(x.data)
    {
      hide Registered, Valid, NL.NodeList.Abs;
      OthersApart(k);
      PutAt(k, node, toUse);
      forall j: nat, o | j < |region| && o in region[j] && o in regions ensures FitsAt(j, o) {
        assert old(FitsAt(j, o));
        assert j != k ==> o !in region[k];
      }
    }

    lemma LiveInside(k: nat)
      requires Valid() && k < |lists|
      ensures lists[k] in region[k] && UseInside(k) && Plain(lists[k].Abs())
      ensures |Cargo(k)| == |lists[k].useNodes|
    {
      assert Live(k);
      HeadOutside(lists[k].use, lists[k].useNodes);
    }

    /** What is published on entry j is out of reach of calls routed to entry k. */
    lemma CargoClear(j: nat, k: nat)
      requires Valid() && j < |lists| && k < |lists| && j != k
      ensures lists[j] !in region[k] && forall x :: x in lists[j].useNodes ==> x !in region[k]
    {
      hide Valid;
      OthersApart(k);
      LiveInside(j);
    }

    /** What is published on a list belongs to it and is none of its heads. */
    ghost predicate UseInside(j: nat)
      requires j < |lists| && j < |region|
      reads this, lists[j]
    {
      forall x :: x in lists[j].useNodes ==> x in region[j] && x != lists[j].free && x != lists[j].use
    }

    /** The same, and what clients hold: the node joins it, and what it said stays so. */
    method GetHeld(k: nat, fromFree: bool) returns (out: X.Outcome<Node>)
      requires Registered() && Valid() && Fitted() && k < |lists|
      modifies region[k]
      ensures Registered() && Valid() && Fitted() && SameLists(k)
      ensures var (x', o) := old(Taken(k, fromFree)); lists[k].Abs() == x' && out == o && out != X.Null
      ensures Held(k) == (if out.Got? then old(Held(k)) + {out.node} else old(Held(k)))
      ensures (out.Got? ==> out.node !in old(Held(k))) && forall x :: x in old(Held(k)) ==> x.data == old(x.data)
      ensures out.Got? ==> out.node in old(region)[k] && out.node !in lists[k].Repr()
      ensures out.Got? ==> out.node.data == old(out.node.data)
      ensures forall x :: x in old(lists[k].useNodes) ==> x.data == old(x.data)
    {
      hide Registered, Valid, Fitted, NL.NodeList.Abs, X.GetUse, X.GetFree, Taken;
      EntryFacts(k);
      LiveInside(k);
      out := GetFitted(k, fromFree);
    }

    /** The same, and what becomes of the payloads: those of other channels stay, this one gives up its oldest
        if the node came off the use list. */
    method GetCarried(k: nat, fromFree: bool) returns (out: X.Outcome<Node>)
      requires Registered() && Valid() && Fitted() && k < |lists|
      modifies region[k]
      ensures Registered() && Valid() && Fitted() && SameLists(k)
      ensures var (x', o) := old(Taken(k, fromFree)); lists[k].Abs() == x' && out == o && out != X.Null
      ensures Held(k) == (if out.Got? then old(Held(k)) + {out.node} else old(Held(k)))
      ensures (out.Got? ==> out.node !in old(Held(k))) && forall x :: x in old(Held(k)) ==> x.data == old(x.data)
      ensures out.Got? ==> out.node in old(region)[k] && out.node !in lists[k].Repr()
      ensures out.Got? ==> out.node.data == old(out.node.data)
      ensures if out.Got? && !(fromFree && old(lists[k].Abs()).free != []) then
                old(Cargo(k)) != [] && Cargo(k) == old(Cargo(k))[1..] && out.node.data == old(Cargo(k))[0]
              else Cargo(k) == old(Cargo(k))
    {
      hide Registered, Valid, Fitted, Held, NL.NodeList.Repr;
      EntryFacts(k);
      LiveInside(k);
      out := GetHeld(k, fromFree);
      assert lists[k].useNodes == lists[k].Abs().use;
    }

    method PutCarried(k: nat, node: Node, toUse: bool)
      requires Registered() && Valid() && Fitted() && k < |lists| && node in region[k] && node !in lists[k].Repr()
      modifies region[k]
      ensures Registered() && Valid() && Fitted() && SameLists(k)
      ensures lists[k].Abs() == if toUse then X.PutUse(old(lists[k].Abs()), node)
                                else X.PutFree(old(lists[k].Abs()), node)
      ensures Held(k) == old(Held(k)) - {node} && forall x :: x in old(Held(k)) && x != node ==> x.data == old(x.data)
      ensures node.data == old(node.data)
      ensures Cargo(k) == if toUse then old(Cargo(k)) + [node.data] else old(Cargo(k))
    {
      hide Registered, Valid, Fitted;
      EntryFacts(k);
      LiveInside(k);
      PutFitted(k, node, toUse);
      assert lists[k].useNodes == lists[k].Abs().use;
      assert forall x :: x in old(lists[k].useNodes) ==> x.data == old(x.data);
    }

    /** Count on the shadow counters of entry k */
    method Count(k: nat, use: int, free: int)
      requires Registered() && Valid() && k < |lists|
      modifies info
      ensures Registered() && Valid() && Table() == old(Table()) && (old(Fitted()) ==> Fitted())
      ensures info[k] == old(info[k]).(useCnt := old(info[k]).useCnt + use, freeCnt := old(info[k]).freeCnt + free)
      ensures forall j :: 0 <= j < info.Length && j != k ==> info[j] == old(info[j])
      ensures SameLists(-1) && Cargo(k) == old(Cargo(k))
    {
      hide Registered, Valid, Live, Fitted;
      OthersApart(k);
      assert forall j :: 0 <= j < |lists| ==> EnteredAt(j);
      info[k] := info[k].(useCnt := info[k].useCnt + use, freeCnt := info[k].freeCnt + free);
      forall j | 0 <= j < |lists| ensures EnteredAt(j) {
        assert old(EnteredAt(j));
      }
      ValidAgain();
    }

    /** Everything that belongs to the channel a call is routed to */
    ghost function Touched(id: int, chn: nat, chnType: int): set<object>
      requires Registered() && |lists| <= info.Length && chn < MAX_MODULE_CHANNEL_CNT
      reads this, info, modules, modules.cells, table, table.cells
    {
      var route := RouteOf(modules.modules, Table(), id, chn, chnType);
      if route.To? && route.k < |region| then region[route.k] else {}
    }

    /** Both halves of read_data: a get on the list of entry k, with its shadow counter */
    method HandOut(k: nat, sending: bool) returns (handle: Handle, data: seq<int>)
      requires Registered() && Valid() && Fitted() && k < |lists|
      modifies info, region[k]
      ensures Registered() && Valid() && Fitted() && Table() == old(Table()) && SameLists(k)
      ensures forall x :: x in old(Held(k)) ==> x.data == old(x.data)
      ensures if handle.NodeOf? then handle.node !in old(Held(k)) && Held(k) == old(Held(k)) + {handle.node}
              else Held(k) == old(Held(k))
      ensures var (x', out) := old(Taken(k, sending));
              && lists[k].Abs() == x'
              && match out
                 case Null => false
                 case Blocks => handle == Waits && info[..] == old(info[..]) && Cargo(k) == old(Cargo(k))
                 case Got(node) =>
                   && handle == NodeOf(node) && node in region[k] && node !in lists[k].Repr()
                   && node.data == old(node.data) && (!sending ==> data == node.data)
                   && Carried(old(Cargo(k)), ReadEvent(sending, data, old(lists[k].Abs()).free == []), Cargo(k))
                   && info[k].useCnt == old(info[k].useCnt) - (if sending then 0 else 1)
                   && info[k].freeCnt == old(info[k].freeCnt) - (if sending then 1 else 0)
                   && forall j :: 0 <= j < info.Length && j != k ==> info[j] == old(info[j])
    {
      hide Registered, Valid, Fitted, Cargo, NL.NodeList.Abs, X.GetUse;
      EntryFacts(k);
      data := [];
      var out := GetCarried(k, sending);
      if out == X.Blocks {
        return Waits, data;
      }
      if !sending {
        data := out.node.data;
      }
      Count(k, if sending then 0 else -1, if sending then -1 else 0);
      return NodeOf(out.node), data;
    }

    /** read_data.  A sender is handed a node to fill and the free counter goes down; a receiver is handed
        the oldest published node and its payload, and the use counter goes down.  Only the channel the
        call is routed to is touched. */
    method ReadData(id: int, chn: nat, chnType: int) returns (handle: Handle, data: seq<int>)
      requires Registered() && Valid() && Fitted() && chn < MAX_MODULE_CHANNEL_CNT
      modifies info, Touched(id, chn, chnType)
      ensures Registered() && Valid() && Fitted() && Table() == old(Table())
      ensures match RouteOf(old(modules.modules), old(Table()), id, chn, chnType)
              case NoRoute => handle == Failed && info[..] == old(info[..]) && SameLists(-1)
              case To(k, sending) =>
                && k < |lists| && SameLists(k)
                && (forall x :: x in old(Held(k)) ==> x.data == old(x.data))
                && (if handle.NodeOf? then handle.node !in old(Held(k)) && Held(k) == old(Held(k)) + {handle.node}
                    else Held(k) == old(Held(k)))
                && var (x', out) := old(Taken(k, sending));
                && lists[k].Abs() == x'
                && match out
                   case Null => false
                   case Blocks => handle == Waits && info[..] == old(info[..]) && Cargo(k) == old(Cargo(k))
                   case Got(node) =>
                     && handle == NodeOf(node) && node in region[k] && node !in lists[k].Repr()
                     && node.data == old(node.data) && (!sending ==> data == node.data)
                     && Carried(old(Cargo(k)), ReadEvent(sending, data, old(lists[k].Abs()).free == []), Cargo(k))
                     && info[k].useCnt == old(info[k].useCnt) - (if sending then 0 else 1)
                     && info[k].freeCnt == old(info[k].freeCnt) - (if sending then 1 else 0)
                     && forall j :: 0 <= j < info.Length && j != k ==> info[j] == old(info[j])
    {
      hide Registered, Valid, Fitted, WellFormed, Cargo, NL.NodeList.Abs, X.GetUse, X.GetFree, FindModule, RouteOf,
           Source, Carried;
      data := [];
      var route, m, src := FindRoute(id, chn, chnType);
      if route == NoRoute {
        return Failed, data;
      }
      EntryFacts(route.k);
      handle, data := HandOut(route.k, route.sending);
    }

    /** What a successful attach leaves, with distinct module ids: an entry for every sender record */
    ghost predicate Attached()
      reads this, info, regions, modules, modules.cells, table, table.cells
    {
      && Registered() && Valid() && served == Senders(table.recs) && table.recs == AllRecords(modules.modules)
      && forall a, b :: 0 <= a < b < |modules.modules| ==> modules.modules[a].id != modules.modules[b].id
    }

    lemma ServedDistinct()
      requires Attached()
      ensures DistinctChannels(table.recs) && DistinctChannels(served) && forall r :: r in served ==> r.Sender?
      ensures forall m :: m in modules.modules ==> WellFormed(m)
      ensures forall r :: r in served <==> r in table.recs && r.Sender?
    {
      AllRecordsDistinct(modules.modules);
      SendersDistinct(table.recs);
    }

    /** Routing, for the channels of any registered module: on a sender's channel to the entry made for it, to send;
        on a receiver's to the entry made for the channel it names, to receive; nowhere without such an entry
        or without a role. */
    lemma Routed(a: nat, i: nat, chnType: int)
      requires Attached() && a < |modules.modules| && i < MAX_MODULE_CHANNEL_CNT
      requires chnType == NORMAL_CHN || chnType == HOOK_CHN
      ensures |lists| <= info.Length
      ensures forall m :: m in modules.modules ==> WellFormed(m)
      ensures var m, kind := modules.modules[a], if chnType == NORMAL_CHN then Normal else Hook;
              && |m.chn| == |m.hchn| == MAX_MODULE_CHANNEL_CNT
              && var c := (if chnType == NORMAL_CHN then m.chn else m.hchn)[i];
                 var route := RouteOf(modules.modules, Table(), m.id, i, chnType);
                 if c.role == DATA_CHANNEL_SENDER then LeadsTo(route, served, Sender(kind, m.id, i), true)
                 else if c.role == DATA_CHANNEL_RECEIVER then
                   c.channel >= 0 && LeadsTo(route, served, Sender(kind, c.moduleId, c.channel), false)
                 else route == NoRoute
    {
      TableServes();
      ServedDistinct();
      hide Registered, Valid, RouteOf, WellFormed, DistinctChannels, AllRecords, LeadsTo;
      RouteMeans(modules.modules, Table(), served, a, i, chnType);
    }

    /** Senders.  Module b has registered and its channel j is an enabled sender's: there is an entry made for it,
        and the module's calls lead there, to send. */
    lemma SenderLeads(b: nat, j: nat, chnType: int) returns (k: nat)
      requires Attached() && b < |modules.modules| && j < MAX_MODULE_CHANNEL_CNT
      requires chnType == NORMAL_CHN || chnType == HOOK_CHN
      requires var m := modules.modules[b];
               && |m.chn| == |m.hchn| == MAX_MODULE_CHANNEL_CNT
               && (forall c :: c in m.chn + m.hchn && c.enable == MODULE_CHANNEL_ENABLE ==>
                     c.role == DATA_CHANNEL_SENDER || c.role == DATA_CHANNEL_RECEIVER)
               && var c := (if chnType == NORMAL_CHN then m.chn else m.hchn)[j];
                  c.enable == MODULE_CHANNEL_ENABLE && c.role == DATA_CHANNEL_SENDER
      ensures |lists| <= info.Length && k < |served|
      ensures served[k] == Sender(if chnType == NORMAL_CHN then Normal else Hook, modules.modules[b].id, j)
      ensures forall m :: m in modules.modules ==> WellFormed(m)
      ensures RouteOf(modules.modules, Table(), modules.modules[b].id, j, chnType) == To(k, true)
    {
      var kind := if chnType == NORMAL_CHN then Normal else Hook;
      ServedDistinct();
      RolesAgree(modules.modules[b]);
      SenderRecorded(modules.modules, b, kind, j);
      Routed(b, j, chnType);
      hide Registered, Valid, RouteOf, WellFormed, AllRecords;
      k := RouteOf(modules.modules, Table(), modules.modules[b].id, j, chnType).k;
    }

    /** Receivers meet their senders: channel i of module a is a receiver's and names that channel; then its calls lead
        to the same entry, to receive. */
    lemma Meet(b: nat, j: nat, a: nat, i: nat, chnType: int) returns (k: nat)
      requires Attached() && b < |modules.modules| && j < MAX_MODULE_CHANNEL_CNT
      requires a < |modules.modules| && i < MAX_MODULE_CHANNEL_CNT && (chnType == NORMAL_CHN || chnType == HOOK_CHN)
      requires var m := modules.modules[b];
               && |m.chn| == |m.hchn| == MAX_MODULE_CHANNEL_CNT
               && (forall c :: c in m.chn + m.hchn && c.enable == MODULE_CHANNEL_ENABLE ==>
                     c.role == DATA_CHANNEL_SENDER || c.role == DATA_CHANNEL_RECEIVER)
               && var c := (if chnType == NORMAL_CHN then m.chn else m.hchn)[j];
                  c.enable == MODULE_CHANNEL_ENABLE && c.role == DATA_CHANNEL_SENDER
      requires var m := modules.modules[a];
               && |m.chn| == |m.hchn| == MAX_MODULE_CHANNEL_CNT
               && var c := (if chnType == NORMAL_CHN then m.chn else m.hchn)[i];
                  c.role == DATA_CHANNEL_RECEIVER && c.moduleId == modules.modules[b].id && c.channel == j
      ensures |lists| <= info.Length && k < |served|
      ensures served[k] == Sender(if chnType == NORMAL_CHN then Normal else Hook, modules.modules[b].id, j)
      ensures forall m :: m in modules.modules ==> WellFormed(m)
      ensures RouteOf(modules.modules, Table(), modules.modules[b].id, j, chnType) == To(k, true)
      ensures RouteOf(modules.modules, Table(), modules.modules[a].id, i, chnType) == To(k, false)
    {
      k := SenderLeads(b, j, chnType);
      Routed(a, i, chnType);
      ServedDistinct();
      hide Registered, Valid, RouteOf, WellFormed, AllRecords;
    }

    /** Consumers.  Of the receiver records that name the sender of entry k the last one, at position a, or none if a
        is -1: the entry ends with that receiver's module as its consumer and with its channel in the field of
        the sender's kind. */
    lemma AttachedConsumer(k: nat, a: int)
      requires Attached() && k < |served| && -1 <= a < |table.recs|
      requires |lists| <= info.Length && Table() == AttachAll(Entries(served), table.recs)
      requires a >= 0 ==>
                 var r := table.recs[a];
                 r.Receiver? && r.kind == served[k].kind && r.fromMid == served[k].mid && r.fromChn == served[k].chn
      requires forall b :: a < b < |table.recs| ==>
                 var r := table.recs[b];
                 !(r.Receiver? && r.kind == served[k].kind && r.fromMid == served[k].mid && r.fromChn == served[k].chn)
      ensures k < |lists|
      ensures var e, s := info[k].entry, served[k];
              && e.producerId == s.mid
              && e.producerChn == (if s.kind == Normal then s.chn else -1)
              && e.producerHchn == (if s.kind == Normal then -1 else s.chn)
              && if a < 0 then e.consumerId == e.consumerChn == e.consumerHchn == 0
                 else
                   && e.consumerId == table.recs[a].mid
                   && e.consumerChn == (if s.kind == Normal then table.recs[a].chn else 0)
                   && e.consumerHchn == (if s.kind == Normal then 0 else table.recs[a].chn)
    {
      TableServes();
      ServedDistinct();
      NamesChannels();
      assert served[k] in served;
      hide Registered, Valid, DistinctChannels, AllRecords, AttachAll, Entries;
      ConsumerIsReceiver(served, Entries(served), table.recs, k, a);
    }

    lemma NamesChannels()
      requires Attached()
      ensures forall b :: 0 <= b < |table.recs| && table.recs[b].Receiver? ==> table.recs[b].fromChn >= 0
    {
      forall b | 0 <= b < |table.recs| && table.recs[b].Receiver? ensures table.recs[b].fromChn >= 0 {
        var r := table.recs[b];
        assert r in AllRecords(modules.modules);
        RecordOf(modules.modules, r);
        var i :| 0 <= i < |modules.modules| && r in Records(modules.modules[i]).0;
        RecordsSay(modules.modules[i]);
        assert modules.modules[i] in modules.modules && WellFormed(modules.modules[i]);
      }
    }

    /** Entry for entry, the table is made for the sender records. */
    lemma TableServes()
      requires Registered() && Valid()
      ensures |lists| == |served| <= info.Length
      ensures forall j :: 0 <= j < |served| ==> SameProducer(Table()[j], EntryOf(served[j]))
    {
      forall j | 0 <= j < |served| ensures SameProducer(Table()[j], EntryOf(served[j])) {
        assert EnteredAt(j);
      }
    }

    /** After a successful attach calls are routed by their source. */
    lemma AttachedRoutes(id: int, chn: nat, chnType: int, id': int, chn': nat, chnType': int)
      requires Registered() && Valid() && served == Senders(table.recs) && table.recs == AllRecords(modules.modules)
      requires forall a, b :: 0 <= a < b < |modules.modules| ==> modules.modules[a].id != modules.modules[b].id
      requires chn < MAX_MODULE_CHANNEL_CNT && chn' < MAX_MODULE_CHANNEL_CNT
      ensures |lists| <= info.Length
      ensures RoutedBySource(modules.modules, Table(), id, chn, chnType, id', chn', chnType')
    {
      TableServes();
      RoutesAgree(modules.modules, Table(), id, chn, chnType, id', chn', chnType');
    }

    /** The sender record behind the entry a sender's call is routed to */
    lemma RouteServed(id: int, chn: nat, chnType: int)
      requires Registered() && Valid() && chn < MAX_MODULE_CHANNEL_CNT && |lists| <= info.Length
      requires var route := RouteOf(modules.modules, Table(), id, chn, chnType); route.To? && route.sending
      ensures var k := RouteOf(modules.modules, Table(), id, chn, chnType).k;
              k < |served| && served[k] == Sender(KindOf(chnType), id, chn)
    {
      var k := RouteOf(modules.modules, Table(), id, chn, chnType).k;
      FindModuleMeans(modules.modules, id);
      assert EnteredAt(k) && Serves(Table()[k], id, KindOf(chnType), chn);
    }

    /** A node of a normal channel in a client's hands has room for exactly what its sender copies. */
    lemma BufferSize(k: nat, node: Node)
      requires Registered() && Valid() && Fitted() && k < |lists| && node in region[k] && node !in lists[k].Repr()
      ensures k < |served|
      ensures served[k].kind == Normal ==> |node.data| == SizeOf(modules.modules, served[k].mid, served[k].chn)
    {
      assert FitsAt(k, node);
    }

    /** The handle is one that the channel of this call has handed out and not got back. */
    ghost predicate HandedOut(node: Node, id: int, chn: nat, chnType: int)
      requires Registered() && |lists| == |region| && |lists| <= info.Length && chn < MAX_MODULE_CHANNEL_CNT
      reads this, info, modules, modules.cells, table, table.cells, lists
    {
      var route := RouteOf(modules.modules, Table(), id, chn, chnType);
      route.To? && route.k < |lists| ==> node in region[route.k] && node !in lists[route.k].Repr()
    }

    /** The caller's buffer is at least as long as what is copied from it. */
    ghost predicate LongEnough(data: seq<int>, id: int, chn: nat, chnType: int)
      requires Registered() && |lists| <= info.Length && chn < MAX_MODULE_CHANNEL_CNT
      reads this, info, modules, modules.cells, table, table.cells
    {
      var route := RouteOf(modules.modules, Table(), id, chn, chnType);
      route.To? && route.sending && chnType == NORMAL_CHN ==> SizeOf(modules.modules, id, chn) <= |data|
    }

    /** write_data.  A sender's payload goes into the node - copied byte by byte, which fills the node's buffer
        exactly, or as a pointer on a hook channel - and the node is published; a receiver's node is
        released, after the sender's release function, if any, has been given the payload of a hook channel. */
    method WriteData(node: Node, id: int, chn: nat, chnType: int, data: seq<int>) returns (ret: int,
      released: Option<seq<int>>)
      requires Registered() && Valid() && Fitted() && chn < MAX_MODULE_CHANNEL_CNT
      requires HandedOut(node, id, chn, chnType) && LongEnough(data, id, chn, chnType)
      modifies info, Touched(id, chn, chnType)
      ensures Registered() && Valid() && Fitted() && Table() == old(Table())
      ensures match RouteOf(old(modules.modules), old(Table()), id, chn, chnType)
              case NoRoute => ret == -1 && released == None && info[..] == old(info[..]) && SameLists(-1)
              case To(k, true) =>
                && ret == 0 && released == None && k < |lists| && SameLists(k)
                && Held(k) == old(Held(k)) - {node}
                && (forall x :: x in old(Held(k)) && x != node ==> x.data == old(x.data))
                && lists[k].Abs() == X.PutUse(old(lists[k].Abs()), node)
                && node.data == Copied(modules.modules, id, chn, chnType, data)
                && (chnType == HOOK_CHN ==> node.data == data)
                && (chnType == NORMAL_CHN ==>
                      var m := FindModule(modules.modules, id);
                      && m.Some? && chn < |m.value.chn| && m.value.chn[chn].size == |node.data| <= |data|
                      && forall j :: 0 <= j < |node.data| ==> node.data[j] == data[j])
                && Carried(old(Cargo(k)), Sent(node.data), Cargo(k))
                && info[k] == old(info[k]).(useCnt := old(info[k]).useCnt + 1)
                && forall j :: 0 <= j < info.Length && j != k ==> info[j] == old(info[j])
              case To(k, false) =>
                && k < |lists| && SameLists(k) && node.data == old(node.data) && Cargo(k) == old(Cargo(k))
                && (forall x :: x in old(Held(k)) ==> x.data == old(x.data))
                && (chnType == NORMAL_CHN ==> ret == 0 && released == None)
                && (chnType == HOOK_CHN ==>
                      var m := FindModule(modules.modules, id);
                      && m.Some? && chn < |m.value.hchn|
                      && var c := m.value.hchn[chn];
                         var s := FindModule(modules.modules, c.moduleId);
                         && (ret == 0 <==> s.Some?)
                         && (s.Some? ==> 0 <= c.channel < |s.value.hchn|
                                         && (released != None <==> s.value.hchn[c.channel].release)))
                && var rel := ReleaseOf(modules.modules, id, chn, chnType);
                   if rel == None then
                     && ret == -1 && released == None && info[..] == old(info[..]) && SameLists(-1)
                     && Held(k) == old(Held(k))
                   else
                     && ret == 0 && Held(k) == old(Held(k)) - {node}
                     && released == (if rel.value then Some(old(node.data)) else None)
                     && lists[k].Abs() == X.PutFree(old(lists[k].Abs()), node)
                     && info[k] == old(info[k]).(freeCnt := old(info[k]).freeCnt + 1)
                     && forall j :: 0 <= j < info.Length && j != k ==> info[j] == old(info[j])
    {
      hide Registered, Valid, Fitted, Cargo, NL.NodeList.Abs, X.PutUse, X.PutFree, FindModule, RouteOf, Source,
           Copied, ReleaseOf, WellFormed;
      var route, m, src := FindRoute(id, chn, chnType);
      if route == NoRoute {
        return -1, None;
      }
      EntryFacts(route.k);
      if route.sending {
        RouteServed(id, chn, chnType);
        SendNode(route.k, node, m.value, chn, chnType, data);
        return 0, None;
      }
      ReceiverSource(id, chn, chnType);
      ret, released := ReleaseNode(route.k, node, id, m.value, chn, chnType, src);
    }

    /** A receiver's call on a hook channel goes by the channel it names. */
    lemma ReceiverSource(id: int, chn: nat, chnType: int)
      requires Registered() && chn < MAX_MODULE_CHANNEL_CNT && |lists| <= info.Length
      requires var route := RouteOf(modules.modules, Table(), id, chn, chnType); route.To? && !route.sending
      ensures var m := FindModule(modules.modules, id);
              && m.Some? && |m.value.chn| == |m.value.hchn| == MAX_MODULE_CHANNEL_CNT
              && (chnType == HOOK_CHN ==>
                    Source(m.value, Hook, chn) == Port(m.value.hchn[chn].moduleId, m.value.hchn[chn].channel))
    {
      Found(id);
    }

    /** The sender's half: with memcpy on a normal channel, as a pointer on a hook channel */
    method SendNode(k: nat, node: Node, m: Module, chn: nat, chnType: int, data: seq<int>)
      requires Registered() && Valid() && Fitted() && k < |lists| && node in region[k] && node !in lists[k].Repr()
      requires FindModule(modules.modules, m.id) == Some(m) && chn < |m.chn|
      requires k < |served| && served[k] == Sender(KindOf(chnType), m.id, chn)
      requires chnType == NORMAL_CHN || chnType == HOOK_CHN
      requires chnType == NORMAL_CHN ==> m.chn[chn].size <= |data|
      modifies info, region[k]
      ensures Registered() && Valid() && Fitted() && Table() == old(Table()) && SameLists(k)
      ensures Cargo(k) == old(Cargo(k)) + [node.data]
      ensures if chnType == HOOK_CHN then node.data == data
              else |node.data| == m.chn[chn].size && forall j :: 0 <= j < |node.data| ==> node.data[j] == data[j]
      ensures node.data == Copied(modules.modules, m.id, chn, chnType, data)
              && lists[k].Abs() == X.PutUse(old(lists[k].Abs()), node)
      ensures info[k] == old(info[k]).(useCnt := old(info[k]).useCnt + 1)
      ensures forall j :: 0 <= j < info.Length && j != k ==> info[j] == old(info[j])
      ensures Held(k) == old(Held(k)) - {node} && forall x :: x in old(Held(k)) && x != node ==> x.data == old(x.data)
    {
      hide Registered, Valid, Fitted, Cargo, NL.NodeList.Abs, FindModule;
      EntryFacts(k);
      BufferSize(k, node);
      if chnType == HOOK_CHN {
        PublishNode(k, node, data);
      } else {
        var n := m.chn[chn].size;
        assert data[..n] + node.data[n..] == data[..n];
        PublishNode(k, node, data[..n] + node.data[n..]);
      }
    }

    /** The receiver's half of write_data */
    method ReleaseNode(k: nat, node: Node, id: int, m: Module, chn: nat, chnType: int, src: Port)
      returns (ret: int, released: Option<seq<int>>)
      requires Registered() && Valid() && Fitted() && k < |lists| && node in region[k] && node !in lists[k].Repr()
      requires FindModule(modules.modules, id) == Some(m) && WellFormed(m) && chn < MAX_MODULE_CHANNEL_CNT
      requires src == Source(m, KindOf(chnType), chn) && 0 <= src.cid < MAX_MODULE_CHANNEL_CNT
      requires chnType == NORMAL_CHN || chnType == HOOK_CHN
      modifies info, region[k]
      ensures Registered() && Valid() && Fitted() && Table() == old(Table()) && SameLists(k)
      ensures node.data == old(node.data) && Cargo(k) == old(Cargo(k))
      ensures var rel := ReleaseOf(modules.modules, id, chn, chnType);
              if rel == None then
                ret == -1 && Held(k) == old(Held(k)) && released == None && info[..] == old(info[..]) && SameLists(-1)
              else
                && ret == 0 && Held(k) == old(Held(k)) - {node}
                && released == (if rel.value then Some(old(node.data)) else None)
                && lists[k].Abs() == X.PutFree(old(lists[k].Abs()), node)
                && info[k] == old(info[k]).(freeCnt := old(info[k]).freeCnt + 1)
                && forall j :: 0 <= j < info.Length && j != k ==> info[j] == old(info[j])
      ensures forall x :: x in old(Held(k)) ==> x.data == old(x.data)
      ensures chnType == NORMAL_CHN ==> ret == 0 && released == None
      ensures chnType == HOOK_CHN ==>
                var s := FindModule(modules.modules, src.mid);
                && (ret == 0 <==> s.Some?)
                && (s.Some? ==> src.cid < |s.value.hchn| && (released != None <==> s.value.hchn[src.cid].release))
    {
      hide Registered, Valid, Fitted, Cargo, NL.NodeList.Abs, FindModule, Source;
      EntryFacts(k);
      Found(src.mid);
      released := None;
      if chnType == HOOK_CHN {
        var s := modules.SearchModule(src.mid);
        if s == None {
          return -1, released;
        }
        if s.value.hchn[src.cid].release {
          released := Some(node.data);
        }
      }
      PutCounted(k, node, false);
      return 0, released;
    }

    method PublishNode(k: nat, node: Node, data: seq<int>)
      requires Registered() && Valid() && Fitted() && k < |lists| && node in region[k] && node !in lists[k].Repr()
      requires k < |served| && (served[k].kind == Normal ==> |data| == |node.data|)
      modifies info, region[k]
      ensures Registered() && Valid() && Fitted() && Table() == old(Table()) && SameLists(k)
      ensures Cargo(k) == old(Cargo(k)) + [data]
      ensures node.data == data && lists[k].Abs() == X.PutUse(old(lists[k].Abs()), node)
      ensures info[k] == old(info[k]).(useCnt := old(info[k]).useCnt + 1)
      ensures forall j :: 0 <= j < info.Length && j != k ==> info[j] == old(info[j])
      ensures Held(k) == old(Held(k)) - {node} && forall x :: x in old(Held(k)) && x != node ==> x.data == old(x.data)
    {
      hide Registered, Valid, Fitted, WellFormed, Cargo, NL.NodeList.Abs;
      EntryFacts(k);
      FillNode(k, node, data);
      PutCounted(k, node, true);
    }

    /** A put on the list of entry k, with the shadow counter of that list */
    method PutCounted(k: nat, node: Node, toUse: bool)
      requires Registered() && Valid() && Fitted() && k < |lists| && node in region[k] && node !in lists[k].Repr()
      modifies info, region[k]
      ensures Registered() && Valid() && Fitted() && Table() == old(Table()) && SameLists(k)
      ensures lists[k].Abs() == if toUse then X.PutUse(old(lists[k].Abs()), node)
                                else X.PutFree(old(lists[k].Abs()), node)
      ensures Held(k) == old(Held(k)) - {node} && forall x :: x in old(Held(k)) && x != node ==> x.data == old(x.data)
      ensures node.data == old(node.data) && Cargo(k) == if toUse then old(Cargo(k)) + [node.data] else old(Cargo(k))
      ensures var ci := old(info[k]); info[k] == if toUse then ci.(useCnt := ci.useCnt + 1)
              else ci.(freeCnt := ci.freeCnt + 1)
      ensures forall j :: 0 <= j < info.Length && j != k ==> info[j] == old(info[j])
    {
      hide Registered, Valid, Fitted, WellFormed, Cargo, NL.NodeList.Abs;
      EntryFacts(k);
      PutCarried(k, node, toUse);
      Count(k, if toUse then 1 else 0, if toUse then 0 else 1);
    }

    lemma Found(id: int)
      requires Registered()
      ensures modules.Valid()
      ensures var s := FindModule(modules.modules, id); s.Some? ==> WellFormed(s.value) && s.value.id == id
    {
      FindModuleMeans(modules.modules, id);
    }

    /** Writing a node in a client's hands leaves every list as it was. */
    method FillNode(k: nat, node: Node, data: seq<int>)
      requires Registered() && Valid() && Fitted() && k < |lists| && node in region[k] && node !in lists[k].Repr()
      requires k < |served| && (served[k].kind == Normal ==> |data| == |node.data|)
      modifies node`data
      ensures Registered() && Valid() && Fitted() && node.data == data
      ensures (forall j :: 0 <= j < |lists| ==> lists[j].Abs() == old(lists[j].Abs())) && Cargo(k) == old(Cargo(k))
    {
      hide Registered, Valid, NL.NodeList.Abs;
      OthersApart(k);
      LiveInside(k);
      assert node !in lists[k].useNodes;
      WriteNode(k, node, data);
      forall j: nat, o | j < |region| && o in region[j] && o in regions ensures FitsAt(j, o) {
        assert old(FitsAt(j, o));
        assert o == node ==> j == k;
      }
    }

    method WriteNode(k: nat, node: Node, data: seq<int>)
      requires Registered() && Valid() && k < |lists| && node in region[k] && node !in lists[k].Repr()
      modifies node`data
      ensures Registered() && Valid() && node.data == data
      ensures forall j :: 0 <= j < |lists| ==> lists[j].Abs() == old(lists[j].Abs())
    {
      hide Registered, Valid, Laid, Live, Entered, NL.NodeList.Abs;
      OthersApart(k);
      RecordsApart();
      WriteLive(k, node, data);
      ValidAgain();
    }

    method WriteLive(k: nat, node: Node, data: seq<int>)
      requires k < |lists| && k < |region| && lists[k] in region[k] && Live(k)
      requires node in region[k] && node !in lists[k].Repr()
      modifies node`data
      ensures Live(k) && node.data == data && lists[k].Abs() == old(lists[k].Abs())
    {
      node.data := data;
    }

    /** Every list other than that of entry k is as before. */
    twostate predicate SameLists(k: int)
      reads this, info, lists
    {
      && lists == old(lists) && region == old(region)
      && forall j :: 0 <= j < |lists| && j != k ==> lists[j].Abs() == old(lists[j].Abs())
    }
  }
}
