/** A program that uses the framework: initialisation, the registration of its modules one after the other,
    the start, and then whatever calls its modules make.  (test/smcf2_demo.c:57-107, src/core.c:50-148) */
module Program {
  import opened Core
  import opened DataChannels
  import opened MsgQueue
  import opened Registration
  import opened Replay
  import opened Routing
  import opened Routes
  import opened Sums
  import opened Traffic
  import J = Journal
  import L = Layout

  /** The channels of m do not ask for more memory than 32 bits can address. */
  predicate Roomy(m: Module) {
    forall kind: Kind, i :: 0 <= i < |ChnsOf(m, kind)| && Sends(m, kind, i) ==>
      ChnsOf(m, kind)[i].num * (L.NODE_HEADER + if kind == Normal then ChnsOf(m, kind)[i].size else 0) < L.WORD
  }

  predicate Sends(m: Module, kind: Kind, i: nat)
    requires i < |ChnsOf(m, kind)|
  {
    ChnsOf(m, kind)[i].enable == MODULE_CHANNEL_ENABLE && ChnsOf(m, kind)[i].role == DATA_CHANNEL_SENDER
  }

  /** What the framework relies on without checking it */
  ghost predicate Sound(ms: seq<Module>) {
    && (forall m :: m in ms ==> WellFormed(m) && Roomy(m))
    && (forall a, b :: 0 <= a < b < |ms| ==> ms[a].id != ms[b].id)
  }

  /** A record is of a channel of the module that its id leads to. */
  lemma RecordOrigin(ms: seq<Module>, r: Rec) returns (m: Module)
    requires Sound(ms) && r in AllRecords(ms)
    ensures m in ms && WellFormed(m) && Roomy(m) && FindModule(ms, r.mid) == Some(m)
    ensures Enabled(ChnsOf(m, r.kind), r.chn) && r == RecOf(m.id, r.kind, r.chn, ChnsOf(m, r.kind)[r.chn])
  {
    hide WellFormed, Roomy, AllRecords;
    AllRecordsDistinct(ms);
    var a :| 0 <= a < |ms| && r.mid == ms[a].id && Enabled(ChnsOf(ms[a], r.kind), r.chn)
             && r == RecOf(ms[a].id, r.kind, r.chn, ChnsOf(ms[a], r.kind)[r.chn]);
    m := ms[a];
    IdsValid(ms, a);
    FindModuleMeans(ms, r.mid);
  }

  lemma RecordsSound(ms: seq<Module>, r: Rec)
    requires Sound(ms) && r in AllRecords(ms)
    ensures r.chn < MAX_MODULE_CHANNEL_CNT && Addressable(ms, r)
  {
    hide Sound, AllRecords, FindModule;
    var m := RecordOrigin(ms, r);
    if r.Sender? { assert Sends(m, r.kind, r.chn); }
  }

  lemma IdsValid(ms: seq<Module>, i: nat)
    requires Sound(ms) && i < |ms|
    ensures ms[i].id >= 0
  {
    assert ms[i] in ms;
  }

  /** The module is registered with success: every enabled channel is a sender's or a receiver's, and the thread for
      its messages, should it want one, can be created. */
  predicate Accepted(m: Module, threadRet: int) {
    && (forall c :: c in m.chn + m.hchn && c.enable == MODULE_CHANNEL_ENABLE ==>
          c.role == DATA_CHANNEL_SENDER || c.role == DATA_CHANNEL_RECEIVER)
    && (m.autoMsgProcess != 0 && m.handler ==> threadRet == 0)
  }

  /** smcf2_module_register for one module after the other, up to the first that fails; threads[i] is what
      pthread_create returns for module i, should it be called. */
  method RegisterEach(core: Core, ms: seq<Module>, threads: seq<int>) returns (ret: int, n: nat)
    requires core.Valid() && core.Enrolled(core.modules.modules) && |threads| == |ms|
    modifies core, core.msgq, core.msgq.blocks, core.Registry(), core.Records()
    ensures core.InOrder() && core.Enrolled(core.modules.modules)
    ensures n <= |ms| && core.modules.modules == old(core.modules.modules) + ms[..n]
    ensures ret == 0 ==> n == |ms| && core.Valid()
    ensures ret != 0 ==> n > 0 && !Accepted(ms[n - 1], threads[n - 1])
    ensures forall i :: 0 <= i < (if ret == 0 then n else n - 1) ==> Accepted(ms[i], threads[i])
    ensures forall o :: o in core.Registry() ==> o in old(core.Registry()) || fresh(o)
    ensures forall o :: o in core.Records() ==> o in old(core.Records()) || fresh(o)
  {
    hide Core.InOrder, Core.Enrolled, Core.Registry, Core.Records, Routing.Records;
    ret, n := 0, 0;
    assert ms[..0] == [];
    while n < |ms| && ret == 0
      invariant 0 <= n <= |ms| && core.InOrder() && core.Enrolled(core.modules.modules)
      invariant ret == 0 ==> core.freed == null
      invariant ret != 0 ==> n > 0 && !Accepted(ms[n - 1], threads[n - 1])
      invariant forall i :: 0 <= i < (if ret == 0 then n else n - 1) ==> Accepted(ms[i], threads[i])
      invariant core.modules.modules == old(core.modules.modules) + ms[..n]
      invariant forall o :: o in core.Registry() ==> o in old(core.Registry()) || fresh(o)
      invariant forall o :: o in core.Records() ==> o in old(core.Records()) || fresh(o)
      decreases |ms| - n
    {
      ret := core.ModuleRegister(ms[n], threads[n]);
      assert ms[..n + 1] == ms[..n] + [ms[n]];
      n := n + 1;
    }
  }

  /** smcf2_init and the registrations: whichever modules get registered, each is found in the registry, the
      first ones as far as mailboxes go are led to exactly their own mailbox and the others to none, and all
      channels of all of them are recorded, none twice. */
  method Boot(ms: seq<Module>, threads: seq<int>) returns (core: Core, ret: int, n: nat)
    requires |threads| == |ms| && Sound(ms)
    ensures core.InOrder() && core.Enrolled(core.modules.modules) && fresh(core)
    ensures fresh(core.Registry()) && fresh(core.Records())
    ensures n <= |ms| && core.modules.modules == ms[..n] && core.table.recs == AllRecords(ms[..n])
    ensures ret == 0 ==> n == |ms| && core.Valid()
    ensures ret != 0 ==> n > 0 && !Accepted(ms[n - 1], threads[n - 1])
    ensures forall i :: 0 <= i < (if ret == 0 then n else n - 1) ==> Accepted(ms[i], threads[i])
    ensures DistinctChannels(core.table.recs) && |core.msgq.bound| == Least(n, MAX_MSGQUEUE_BLOCK_NUM)
    ensures forall i :: 0 <= i < n ==>
      && FindModule(core.modules.modules, ms[i].id) == Some(ms[i])
      && Lookup(core.msgq.bound, MAX_MSGQUEUE_BLOCK_NUM, ms[i].id) == if i < MAX_MSGQUEUE_BLOCK_NUM then i else -1
  {
    hide Core.InOrder, Core.Enrolled, Core.Registry, Core.Records, WellFormed, Roomy, FindModule, Lookup, AllRecords,
         DistinctChannels;
    core := Smcf2Init();
    ret, n := RegisterEach(core, ms, threads);
    assert core.modules.modules == ms[..n];
    core.EnrolledMeans(ms[..n]);
    AllRecordsDistinct(ms[..n]);
    forall i | 0 <= i < n
      ensures FindModule(core.modules.modules, ms[i].id) == Some(ms[i])
      ensures Lookup(core.msgq.bound, MAX_MSGQUEUE_BLOCK_NUM, ms[i].id) == if i < MAX_MSGQUEUE_BLOCK_NUM then i else -1
    {
      core.RegistrationRun(i);
      IdsValid(ms, i);
    }
  }

  /** smcf2_start: attach_module_channel over what has been registered */
  method Start(core: Core) returns (ret: int, channels: DataChannels)
    requires core.Valid() && core.Enrolled(core.modules.modules) && Sound(core.modules.modules)
    requires core.table.recs != [] && |Senders(core.table.recs)| <= MAX_CHN_THRESHOLD
    ensures channels.Registered() && channels.Valid() && channels.modules == core.modules
    ensures channels.table == core.table
    ensures fresh(channels) && fresh(channels.info) && fresh(channels.regions)
    ensures ret == 0 <==>
      && |Senders(core.table.recs)| * 2 == |core.table.recs|
      && forall r :: r in Senders(core.table.recs) ==> CanCreate(core.modules.modules, r)
    ensures ret == 0 ==> channels.Fitted() && channels.served == Senders(core.table.recs)
    ensures ret == 0 ==> channels.Attached() && |channels.lists| <= channels.info.Length
                         && channels.Table() == TableOf(core.modules.modules)
    ensures ret == 0 ==>
      && |channels.served| == |channels.lists| <= channels.info.Length
      && forall k :: 0 <= k < |channels.lists| ==> channels.StockedAt(k) && channels.PlacedAt(k)
  {
    hide Core.InOrder, Core.Enrolled, ModuleTable.Valid, ChnTable.Valid, DataChannels.Valid, DataChannels.Fitted,
         DataChannels.StockedAt, DataChannels.PlacedAt, AllRecords, CanCreate, Addressable, Senders;
    core.EnrolledMeans(core.modules.modules);
    channels := new DataChannels(core.modules, core.table);
    forall r | r in core.table.recs ensures r.chn < MAX_MODULE_CHANNEL_CNT && Addressable(core.modules.modules, r) {
      RecordsSound(core.modules.modules, r);
    }
    ret := channels.AttachModuleChannel();
    channels.TableFits();
  }

  /** The table of a program with these modules */
  function TableOf(ms: seq<Module>): (es: seq<Entry>)
    ensures |es| == |Senders(AllRecords(ms))|
  {
    AttachAll(Entries(Senders(AllRecords(ms))), AllRecords(ms))
  }

  /** All nodes free, as many as each sender asks for */
  function Opening(ms: seq<Module>): (w: Floor)
    ensures Sized(w) && |w.trays| == |TableOf(ms)|
  {
    var senders := Senders(AllRecords(ms));
    Floor(seq(|senders|, k requires 0 <= k < |senders| =>
                           Tray(if CanCreate(ms, senders[k]) then NodeCount(ms, senders[k]) else 0, [])),
          [], seq(|senders|, _ => []))
  }

  lemma Opened(traffic: Traffic, ms: seq<Module>)
    requires traffic.Valid() && traffic.channels.modules.modules == ms
    requires traffic.channels.served == Senders(AllRecords(ms))
    requires |traffic.channels.served| == |traffic.channels.lists| <= traffic.channels.info.Length
    requires forall k :: 0 <= k < |traffic.channels.lists| ==> traffic.channels.StockedAt(k)
    requires traffic.history == seq(|traffic.channels.lists|, _ => [])
    ensures traffic.Stands(Opening(ms), [])
  {
    hide DataChannels.Registered, DataChannels.Valid, DataChannels.Fitted, CanCreate, NodeCount, Senders, AllRecords;
    traffic.Outside();
    assert Claims([]) == [];
    forall k | 0 <= k < |traffic.channels.lists| ensures traffic.Shows(k, Opening(ms).trays[k]) {
      assert traffic.channels.StockedAt(k);
      traffic.channels.LiveInside(k);
    }
  }

  /** From nothing to any sequence of read_data and write_data calls of the modules registered.  It gets that far
      exactly if every module is accepted, there are as many receivers as senders and every sender's channel can
      be created.  What is then sent and received is what Played says; on every channel it arrives in the
      order in which it was sent, and unless something was overwritten nothing is missing. */
  method Run(ms: seq<Module>, threads: seq<int>, script: seq<Op>)
    returns (ret: int, traffic: Traffic?, loans: seq<Loan>)
    requires |threads| == |ms| && Sound(ms)
    requires AllRecords(ms) != [] && |Senders(AllRecords(ms))| <= MAX_CHN_THRESHOLD
    requires forall op :: op in script ==> if op.Ask? then op.chn < MAX_MODULE_CHANNEL_CNT else
               forall m, c :: m in ms && c in m.chn ==> c.size <= |op.data|
    ensures ret == 0 <==> traffic != null
    ensures ret == 0 <==>
      && (forall i :: 0 <= i < |ms| ==> Accepted(ms[i], threads[i]))
      && |Senders(AllRecords(ms))| * 2 == |AllRecords(ms)|
      && forall r :: r in Senders(AllRecords(ms)) ==> CanCreate(ms, r)
    ensures traffic != null ==>
      && traffic.Valid() && |traffic.history| == |Senders(AllRecords(ms))|
      && traffic.Stands(Played(ms, TableOf(ms), Opening(ms), script), loans)
      && forall k :: 0 <= k < |traffic.history| ==>
           var sent, received := J.AllSent(traffic.history[k]), J.AllReceived(traffic.history[k]);
           && k < |traffic.channels.lists| && Subsequence(received, sent)
           && (J.Overwritten !in traffic.history[k] ==> sent == received + traffic.channels.Cargo(k))
  {
    hide Core.InOrder, Core.Enrolled, Core.Registry, Core.Records, DataChannels.Registered, DataChannels.Valid,
         DataChannels.Fitted, DataChannels.StockedAt, DataChannels.PlacedAt, Roomy, WellFormed, FindModule, Lookup,
         AllRecords, DistinctChannels, Senders, CanCreate, Accepted, Played, TableOf, Opening, Traffic.Stands;
    traffic, loans := null, [];
    var core, n;
    core, ret, n := Boot(ms, threads);
    if ret != 0 {
      return;
    }
    assert ms[..n] == ms;
    var channels;
    ret, channels := Start(core);
    if ret != 0 {
      return;
    }
    var t := new Traffic(channels);
    Opened(t, ms);
    t.StandsSized(Opening(ms), []);
    loans := t.Play(script, Opening(ms));
    t.StandsMeans(Played(ms, TableOf(ms), Opening(ms), script), loans);
    traffic := t;
  }
}
