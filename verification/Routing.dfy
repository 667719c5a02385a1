/** Registration, attachment and routing of data channels as values.  (src/data.c:35-131, 133-194, 200-341,
    364-403, 441-482) */
module Routing {

  const MAX_MODULE_CHANNEL_CNT: nat := 4
  const MODULE_CHANNEL_ENABLE := 1
  const DATA_CHANNEL_SENDER := 0
  const DATA_CHANNEL_RECEIVER := 1
  const NORMAL_CHN := 0
  const HOOK_CHN := 1

  /** data_channel_t and data_channel_hook_t: a receiver names its source by module and channel.  `size` is
      the node size of a normal channel, `release` tells whether a hook channel has a release function. */
  datatype Chn = Chn(enable: int, role: int, size: nat, num: nat, moduleId: int, channel: int, release: bool)

  /** module_t, as far as asynchronous messages and channels go; `handler` tells whether msg_process is set */
  datatype Module = Module(id: int, autoMsgProcess: int, handler: bool, chn: seq<Chn>, hchn: seq<Chn>)

  /** A non-negative id and four channels of each kind, with receivers naming channels 0 to 3 */
  predicate WellFormed(m: Module) {
    && m.id >= 0 && |m.chn| == MAX_MODULE_CHANNEL_CNT && |m.hchn| == MAX_MODULE_CHANNEL_CNT
    && forall c :: c in m.chn + m.hchn && c.role == DATA_CHANNEL_RECEIVER ==> 0 <= c.channel < MAX_MODULE_CHANNEL_CNT
  }

  datatype Kind = Normal | Hook

  function ChnsOf(m: Module, kind: Kind): seq<Chn> {
    if kind == Normal then m.chn else m.hchn
  }

  /** What a registration record says, without the fields it leaves unset. */
  datatype Rec =
    | Sender(kind: Kind, mid: int, chn: nat)
    | Receiver(kind: Kind, mid: int, chn: nat, fromMid: int, fromChn: int)

  function RecOf(id: int, kind: Kind, i: nat, c: Chn): Rec {
    if c.role == DATA_CHANNEL_SENDER then Sender(kind, id, i) else Receiver(kind, id, i, c.moduleId, c.channel)
  }

  predicate ValidRole(c: Chn) {
    c.role == DATA_CHANNEL_SENDER || c.role == DATA_CHANNEL_RECEIVER
  }

  /** The records of channels i, i+1, ... of one kind, up to the first enabled one with an invalid role;
      whether there was none. */
  function Scan(id: int, kind: Kind, chns: seq<Chn>, i: nat): (seq<Rec>, bool)
    requires i <= |chns|
    decreases |chns| - i
  {
    if i == |chns| then ([], true)
    else if chns[i].enable != MODULE_CHANNEL_ENABLE then Scan(id, kind, chns, i + 1)
    else if ValidRole(chns[i]) then
      var (recs, ok) := Scan(id, kind, chns, i + 1);
      ([RecOf(id, kind, i, chns[i])] + recs, ok)
    else ([], false)
  }

  /** The records module_data_channel_init adds, normal channels first, and whether it succeeds. */
  function Records(m: Module): (seq<Rec>, bool) {
    var (normal, ok) := Scan(m.id, Normal, m.chn, 0);
    if !ok then (normal, false)
    else
      var (hook, ok') := Scan(m.id, Hook, m.hchn, 0);
      (normal + hook, ok')
  }

  predicate Enabled(chns: seq<Chn>, i: int) {
    0 <= i < |chns| && chns[i].enable == MODULE_CHANNEL_ENABLE
  }

  /** A scan succeeds exactly when every enabled channel has a valid role; then it records exactly the
      enabled channels, each once, in channel order. */
  lemma {:induction false} ScanMeans(id: int, kind: Kind, chns: seq<Chn>, i: nat)
    requires i <= |chns|
    ensures var (recs, ok) := Scan(id, kind, chns, i);
            && (ok <==> forall j :: i <= j && Enabled(chns, j) ==> ValidRole(chns[j]))
            && (forall r :: r in recs ==>
                  && r.kind == kind && r.mid == id && i <= r.chn && Enabled(chns, r.chn)
                  && r == RecOf(id, kind, r.chn, chns[r.chn]) && ValidRole(chns[r.chn]))
            && (ok ==> forall j: nat :: i <= j && Enabled(chns, j) ==> RecOf(id, kind, j, chns[j]) in recs)
            && (forall a, b :: 0 <= a < b < |recs| ==> recs[a].chn < recs[b].chn)
    decreases |chns| - i
  {
    if i < |chns| {
      ScanMeans(id, kind, chns, i + 1);
      if Enabled(chns, i) && ValidRole(chns[i]) {
        var rest := Scan(id, kind, chns, i + 1).0;
        var recs := Scan(id, kind, chns, i).0;
        assert recs == [RecOf(id, kind, i, chns[i])] + rest;
        forall a, b | 0 <= a < b < |recs| ensures recs[a].chn < recs[b].chn {
          assert recs[b] in rest;
        }
      }
    }
  }

  /** Channel j of this kind has been recorded. */
  ghost predicate Recorded(recs: seq<Rec>, kind: Kind, j: int) {
    exists r :: r in recs && r.kind == kind && r.chn == j
  }

  /** None of the enabled channels from i to j-1 has an invalid role. */
  ghost predicate Clean(chns: seq<Chn>, i: int, j: int) {
    forall h :: i <= h < j && Enabled(chns, h) ==> ValidRole(chns[h])
  }

  /** A scan records exactly the enabled channels before the first enabled one with an invalid role. */
  lemma {:induction false} ScanCovers(id: int, kind: Kind, chns: seq<Chn>, i: nat, j: nat)
    requires i <= |chns| && i <= j
    ensures Recorded(Scan(id, kind, chns, i).0, kind, j) <==> Enabled(chns, j) && Clean(chns, i, j + 1)
    decreases |chns| - i
  {
    ScanMeans(id, kind, chns, i);
    var recs := Scan(id, kind, chns, i).0;
    if i < |chns| {
      if i < j { ScanCovers(id, kind, chns, i + 1, j); }
      if Enabled(chns, i) && ValidRole(chns[i]) {
        var rest := Scan(id, kind, chns, i + 1).0;
        assert recs == [RecOf(id, kind, i, chns[i])] + rest;
        assert recs[0] in recs;
        assert forall r :: r in recs <==> r == recs[0] || r in rest;
      }
    }
  }

  /** Which channels registering a module records: those enabled before the first one with an invalid role, the
      normal channels coming first; so all that are enabled, and with success, exactly if there is none. */
  lemma RecordsMean(m: Module)
    ensures Records(m).1 <==> forall c :: c in m.chn + m.hchn && c.enable == MODULE_CHANNEL_ENABLE ==>
              c.role == DATA_CHANNEL_SENDER || c.role == DATA_CHANNEL_RECEIVER
    ensures forall j: nat :: Recorded(Records(m).0, Normal, j) <==> Enabled(m.chn, j) && Clean(m.chn, 0, j + 1)
    ensures forall j: nat :: Recorded(Records(m).0, Hook, j) <==>
              Clean(m.chn, 0, |m.chn|) && Enabled(m.hchn, j) && Clean(m.hchn, 0, j + 1)
  {
    var (normal, ok) := Scan(m.id, Normal, m.chn, 0);
    var (hook, ok') := Scan(m.id, Hook, m.hchn, 0);
    ScanMeans(m.id, Normal, m.chn, 0);
    ScanMeans(m.id, Hook, m.hchn, 0);
    hide RecOf, Scan;
    RolesAgree(m);
    forall j: nat
      ensures Recorded(normal, Normal, j) <==> Enabled(m.chn, j) && Clean(m.chn, 0, j + 1)
      ensures Recorded(hook, Hook, j) <==> Enabled(m.hchn, j) && Clean(m.hchn, 0, j + 1)
    {
      ScanCovers(m.id, Normal, m.chn, 0, j);
      ScanCovers(m.id, Hook, m.hchn, 0, j);
    }
    assert forall r :: r in normal + hook <==> r in normal || r in hook;
  }

  /** In which order, and what a record says: whose channel it is and, for a receiver, which channel it names. */
  lemma RecordsSay(m: Module)
    ensures var recs := Records(m).0;
            forall a, b :: 0 <= a < b < |recs| ==>
              || (recs[a].kind == recs[b].kind && recs[a].chn < recs[b].chn)
              || (recs[a].kind == Normal && recs[b].kind == Hook)
    ensures forall r :: r in Records(m).0 ==> r.chn < |if r.kind == Normal then m.chn else m.hchn|
    ensures forall r :: r in Records(m).0 ==>
              var c := (if r.kind == Normal then m.chn else m.hchn)[r.chn];
              && r.mid == m.id && c.enable == MODULE_CHANNEL_ENABLE
              && (r.Sender? ==> c.role == DATA_CHANNEL_SENDER)
              && (r.Receiver? ==>
                    c.role == DATA_CHANNEL_RECEIVER && r.fromMid == c.moduleId && r.fromChn == c.channel)
  {
    var (normal, ok) := Scan(m.id, Normal, m.chn, 0);
    var (hook, ok') := Scan(m.id, Hook, m.hchn, 0);
    ScanMeans(m.id, Normal, m.chn, 0);
    ScanMeans(m.id, Hook, m.hchn, 0);
    forall r | r in Records(m).0
      ensures Enabled(if r.kind == Normal then m.chn else m.hchn, r.chn)
      ensures r == RecOf(m.id, r.kind, r.chn, (if r.kind == Normal then m.chn else m.hchn)[r.chn])
      ensures ValidRole((if r.kind == Normal then m.chn else m.hchn)[r.chn])
    {
      assert r in normal || r in hook;
    }
  }

  /** All channels of a module, taken together or by kind and number */
  lemma RolesAgree(m: Module)
    ensures (forall c :: c in m.chn + m.hchn && c.enable == MODULE_CHANNEL_ENABLE ==> ValidRole(c)) <==>
              Clean(m.chn, 0, |m.chn|) && Clean(m.hchn, 0, |m.hchn|)
  {
    if Clean(m.chn, 0, |m.chn|) && Clean(m.hchn, 0, |m.hchn|) {
      forall c | c in m.chn + m.hchn && c.enable == MODULE_CHANNEL_ENABLE ensures ValidRole(c) {
        var i :| 0 <= i < |m.chn + m.hchn| && (m.chn + m.hchn)[i] == c;
        if i < |m.chn| {
          assert Enabled(m.chn, i);
        } else {
          assert Enabled(m.hchn, i - |m.chn|);
        }
      }
    }
  }

  function Senders(recs: seq<Rec>): (s: seq<Rec>)
    ensures forall r :: r in s <==> r in recs && r.Sender?
  {
    if recs == [] then []
    else Senders(recs[..|recs| - 1]) + (if recs[|recs| - 1].Sender? then [recs[|recs| - 1]] else [])
  }

  /** No two records speak of the same channel of the same module. */
  ghost predicate DistinctChannels(recs: seq<Rec>) {
    forall a, b :: 0 <= a < b < |recs| ==> !SameChannel(recs[a], recs[b])
  }

  predicate SameChannel(r: Rec, s: Rec) {
    r.mid == s.mid && r.kind == s.kind && r.chn == s.chn
  }

  /** All records after registering the modules in turn, aborted registrations included. */
  function AllRecords(modules: seq<Module>): seq<Rec> {
    if modules == [] then [] else AllRecords(modules[..|modules| - 1]) + Records(modules[|modules| - 1]).0
  }

  lemma RecordsOfModule(m: Module)
    ensures forall r :: r in Records(m).0 ==>
              r.mid == m.id && Enabled(ChnsOf(m, r.kind), r.chn)
              && r == RecOf(m.id, r.kind, r.chn, ChnsOf(m, r.kind)[r.chn])
    ensures DistinctChannels(Records(m).0)
    ensures Records(m).1 ==>
              forall kind, j: nat :: Enabled(ChnsOf(m, kind), j) ==>
                RecOf(m.id, kind, j, ChnsOf(m, kind)[j]) in Records(m).0
  {
    ScanMeans(m.id, Normal, m.chn, 0);
    ScanMeans(m.id, Hook, m.hchn, 0);
  }

  /** With distinct module ids no channel is recorded twice, and every record is an enabled channel of a
      registered module. */
  lemma {:induction false} AllRecordsDistinct(modules: seq<Module>)
    requires forall a, b :: 0 <= a < b < |modules| ==> modules[a].id != modules[b].id
    ensures DistinctChannels(AllRecords(modules))
    ensures forall r :: r in AllRecords(modules) ==>
              exists a :: 0 <= a < |modules| && r.mid == modules[a].id && Enabled(ChnsOf(modules[a], r.kind), r.chn)
                       && r == RecOf(modules[a].id, r.kind, r.chn, ChnsOf(modules[a], r.kind)[r.chn])
    decreases |modules|
  {
    if modules != [] {
      var front, m := modules[..|modules| - 1], modules[|modules| - 1];
      AllRecordsDistinct(front);
      RecordsOfModule(m);
      var before, added := AllRecords(front), Records(m).0;
      forall a, b | 0 <= a < b < |before + added|
        ensures !SameChannel((before + added)[a], (before + added)[b])
      {
        if a < |before| <= b {
          assert before[a] in before;
          assert added[b - |before|] in added;
        }
      }
    }
  }

  /** A record is there exactly if registering some module made it. */
  lemma {:induction false} RecordOf(modules: seq<Module>, r: Rec)
    ensures r in AllRecords(modules) <==> exists b :: 0 <= b < |modules| && r in Records(modules[b]).0
    decreases |modules|
  {
    if modules != [] {
      hide Records;
      var front, m := modules[..|modules| - 1], modules[|modules| - 1];
      RecordOf(front, r);
      assert r in AllRecords(modules) <==> r in AllRecords(front) || r in Records(m).0;
      if b :| 0 <= b < |front| && r in Records(front[b]).0 {
        assert modules[b] == front[b];
      }
    }
  }

  /** Which sender records there are, exactly: with distinct ids, channel j of module b has one if it is enabled, is
      a sender's, and no enabled channel that comes before it in its module has an invalid role. */
  lemma SenderRecorded(modules: seq<Module>, b: nat, kind: Kind, j: nat)
    requires forall a, b :: 0 <= a < b < |modules| ==> modules[a].id != modules[b].id
    requires b < |modules|
    ensures var m := modules[b];
            var chns := if kind == Normal then m.chn else m.hchn;
            Sender(kind, m.id, j) in AllRecords(modules) <==>
              && j < |chns| && chns[j].enable == MODULE_CHANNEL_ENABLE && chns[j].role == DATA_CHANNEL_SENDER
              && Clean(chns, 0, j) && (kind == Hook ==> Clean(m.chn, 0, |m.chn|))
  {
    var m := modules[b];
    var chns := if kind == Normal then m.chn else m.hchn;
    RecordOf(modules, Sender(kind, m.id, j));
    RecordsMean(m);
    forall a | 0 <= a < |modules| && Sender(kind, m.id, j) in Records(modules[a]).0 ensures a == b {
      RecordsSay(modules[a]);
    }
    RecordsSay(m);
    hide Records, AllRecords;
    assert Enabled(chns, j) && ValidRole(chns[j]) ==> (Clean(chns, 0, j) <==> Clean(chns, 0, j + 1));
    if Recorded(Records(m).0, kind, j) {
      var r :| r in Records(m).0 && r.kind == kind && r.chn == j;
      assert r.Sender? ==> r == Sender(kind, m.id, j);
    }
  }

  // ----- the channel table -----

  /** channel_info_t without its node list and counters; -1 stands for "not of this kind". */
  datatype Entry = Entry(producerId: int, producerChn: int, producerHchn: int,
                         consumerId: int, consumerChn: int, consumerHchn: int)

  /** The entry create_module_channel makes for a sender record. */
  function EntryOf(r: Rec): Entry {
    Entry(r.mid, if r.kind == Normal then r.chn else -1, if r.kind == Hook then r.chn else -1, 0, 0, 0)
  }

  function Entries(senders: seq<Rec>): (es: seq<Entry>) {
    seq(|senders|, i requires 0 <= i < |senders| => EntryOf(senders[i]))
  }

  predicate Serves(e: Entry, mid: int, kind: Kind, cid: int) {
    e.producerId == mid && (if kind == Normal then e.producerChn else e.producerHchn) == cid
  }

  /** The first entry serving channel cid of module mid, -1 if there is none. */
  function Resolve(es: seq<Entry>, mid: int, kind: Kind, cid: int): (k: int)
    ensures -1 <= k < |es|
    ensures k >= 0 ==> Serves(es[k], mid, kind, cid) && forall j :: 0 <= j < k ==> !Serves(es[j], mid, kind, cid)
    ensures k < 0 ==> forall j :: 0 <= j < |es| ==> !Serves(es[j], mid, kind, cid)
  {
    if es == [] then -1
    else
      var k := Resolve(es[..|es| - 1], mid, kind, cid);
      if k >= 0 then k else if Serves(es[|es| - 1], mid, kind, cid) then |es| - 1 else -1
  }

  /** The source a call of module m on channel i of a kind goes by: a sender's own channel, or the one a
      receiver names. */
  function Source(m: Module, kind: Kind, i: nat): Port
    requires i < |ChnsOf(m, kind)|
  {
    var c := ChnsOf(m, kind)[i];
    if c.role == DATA_CHANNEL_SENDER then Port(m.id, i) else Port(c.moduleId, c.channel)
  }
  datatype Port = Port(mid: int, cid: int)

  /** The entries differ in their consumers at most. */
  predicate SameProducer(e: Entry, e': Entry) {
    e.producerId == e'.producerId && e.producerChn == e'.producerChn && e.producerHchn == e'.producerHchn
  }

  /** A sender's own channel leads to the entry made for it, whatever consumers have been filled in. */
  lemma ResolveOwn(senders: seq<Rec>, es: seq<Entry>, k: nat)
    requires DistinctChannels(senders) && (forall r :: r in senders ==> r.Sender?)
    requires |es| == |senders| && forall j :: 0 <= j < |es| ==> SameProducer(es[j], EntryOf(senders[j]))
    requires k < |senders|
    ensures Resolve(es, senders[k].mid, senders[k].kind, senders[k].chn) == k
  {
    var r := senders[k];
    var j := Resolve(es, r.mid, r.kind, r.chn);
    assert Serves(es[k], r.mid, r.kind, r.chn);
    assert senders[j] in senders && senders[k] in senders;
  }

  /** A channel number no sender of that kind and module uses leads nowhere; -1 entries of the other kind
      are never taken for it. */
  lemma ResolveNone(senders: seq<Rec>, es: seq<Entry>, mid: int, kind: Kind, cid: nat)
    requires forall r :: r in senders ==> r.Sender?
    requires |es| == |senders| && forall j :: 0 <= j < |es| ==> SameProducer(es[j], EntryOf(senders[j]))
    ensures Resolve(es, mid, kind, cid) == -1 <==> Sender(kind, mid, cid) !in senders
  {
    var k := Resolve(es, mid, kind, cid);
    if k >= 0 {
      assert senders[k] in senders;
      assert senders[k] == Sender(kind, mid, cid);
    } else {
      forall j | 0 <= j < |senders| ensures senders[j] != Sender(kind, mid, cid) {
        assert !Serves(es[j], mid, kind, cid);
      }
    }
  }

  lemma {:induction false} SendersDistinct(recs: seq<Rec>)
    requires DistinctChannels(recs)
    ensures DistinctChannels(Senders(recs))
    decreases |recs|
  {
    if recs != [] {
      var front, r := recs[..|recs| - 1], recs[|recs| - 1];
      SendersDistinct(front);
      forall a | 0 <= a < |Senders(front)|
        ensures !SameChannel(Senders(front)[a], r)
      {
        assert Senders(front)[a] in front;
        var j :| 0 <= j < |front| && front[j] == Senders(front)[a];
        assert recs[j] == front[j];
      }
    }
  }

  /** Routing agreement.  Modules with distinct ids, each table entry made for the sender record of the same
      position: the search for a channel finds an entry exactly if its sender is recorded, and two searches find
      the same entry exactly if they are for the same channel of the same kind and module. */
  lemma RoutingAgreement(modules: seq<Module>, es: seq<Entry>, kind: Kind, mid: int, cid: nat, kind': Kind, mid': int,
    cid': nat)
    requires forall a, b :: 0 <= a < b < |modules| ==> modules[a].id != modules[b].id
    requires var senders := Senders(AllRecords(modules));
             |es| == |senders| && forall j :: 0 <= j < |es| ==> SameProducer(es[j], EntryOf(senders[j]))
    ensures var k, k' := Resolve(es, mid, kind, cid), Resolve(es, mid', kind', cid');
            && (k >= 0 <==> Sender(kind, mid, cid) in AllRecords(modules))
            && (k >= 0 && k' >= 0 ==> (k == k' <==> kind == kind' && mid == mid' && cid == cid'))
  {
    AllRecordsDistinct(modules);
    var senders := Senders(AllRecords(modules));
    SendersDistinct(AllRecords(modules));
    ResolveNone(senders, es, mid, kind, cid);
    ResolveNone(senders, es, mid', kind', cid');
  }

  // ----- attaching receivers -----

  predicate Names(r: Rec, s: Rec) {
    r.Receiver? && s.Sender? && r.fromMid == s.mid && r.kind == s.kind && r.fromChn == s.chn
  }

  /** attach_sender_receiver_chn_info for one record: a receiver becomes the consumer of the first entry
      serving the channel it names. */
  function AttachOne(es: seq<Entry>, r: Rec): (es': seq<Entry>)
    ensures |es'| == |es| && forall j :: 0 <= j < |es| ==> SameProducer(es[j], es'[j])
  {
    if r.Sender? then es
    else
      var k := Resolve(es, r.fromMid, r.kind, r.fromChn);
      if k < 0 then es else es[k := Consumed(es[k], r)]
  }

  function Consumed(e: Entry, r: Rec): Entry {
    if r.kind == Normal then e.(consumerId := r.mid, consumerChn := r.chn)
    else e.(consumerId := r.mid, consumerHchn := r.chn)
  }

  function AttachAll(es: seq<Entry>, recs: seq<Rec>): (es': seq<Entry>)
    ensures |es'| == |es| && forall j :: 0 <= j < |es| ==> SameProducer(es[j], es'[j])
    decreases |recs|
  {
    if recs == [] then es else AttachOne(AttachAll(es, recs[..|recs| - 1]), recs[|recs| - 1])
  }

  /** No receiver touches the consumer field of the other kind. */
  lemma {:induction false} OtherKindKept(senders: seq<Rec>, es: seq<Entry>, recs: seq<Rec>, k: nat)
    requires DistinctChannels(senders) && forall r :: r in senders ==> r.Sender?
    requires es == Entries(senders) && k < |senders|
    requires forall b :: 0 <= b < |recs| && recs[b].Receiver? ==> recs[b].fromChn >= 0
    ensures if senders[k].kind == Normal then AttachAll(es, recs)[k].consumerHchn == 0
            else AttachAll(es, recs)[k].consumerChn == 0
    decreases |recs|
  {
    if recs != [] {
      var front, r := recs[..|recs| - 1], recs[|recs| - 1];
      assert forall b :: 0 <= b < |front| ==> front[b] == recs[b];
      OtherKindKept(senders, es, front, k);
      if r.Receiver? { NamesResolves(senders, AttachAll(es, front), r, k); }
    }
  }

  /** The entry of a sender ends with that receiver as its consumer whose record names the sender last - position
      a, or -1 if none does -: the receiver's module, and its channel in the field of the sender's kind. */
  lemma {:induction false} ConsumerIsReceiver(senders: seq<Rec>, es: seq<Entry>, recs: seq<Rec>, k: nat, a: int)
    requires DistinctChannels(senders) && forall r :: r in senders ==> r.Sender?
    requires es == Entries(senders) && k < |senders| && -1 <= a < |recs|
    requires a >= 0 ==> Names(recs[a], senders[k])
    requires forall b :: a < b < |recs| ==> !Names(recs[b], senders[k])
    requires forall b :: 0 <= b < |recs| && recs[b].Receiver? ==> recs[b].fromChn >= 0
    ensures var e, s := AttachAll(es, recs)[k], senders[k];
            && e.producerId == s.mid
            && e.producerChn == (if s.kind == Normal then s.chn else -1)
            && e.producerHchn == (if s.kind == Normal then -1 else s.chn)
            && if a < 0 then e.consumerId == e.consumerChn == e.consumerHchn == 0
               else
                 && e.consumerId == recs[a].mid
                 && e.consumerChn == (if s.kind == Normal then recs[a].chn else 0)
                 && e.consumerHchn == (if s.kind == Normal then 0 else recs[a].chn)
    decreases |recs|
  {
    if recs != [] {
      var front, r := recs[..|recs| - 1], recs[|recs| - 1];
      assert forall b :: 0 <= b < |front| ==> front[b] == recs[b];
      if r.Receiver? { NamesResolves(senders, AttachAll(es, front), r, k); }
      if a == |front| {
        OtherKindKept(senders, es, front, k);
        SameProducerStill(es, front, k);
      } else {
        ConsumerIsReceiver(senders, es, front, k, a);
      }
    }
  }

  lemma SameProducerStill(es: seq<Entry>, recs: seq<Rec>, k: nat)
    requires k < |es|
    ensures SameProducer(es[k], AttachAll(es, recs)[k])
  {
  }

  /** A receiver record leads to the entry of the sender it names, and to no other. */
  lemma NamesResolves(senders: seq<Rec>, es: seq<Entry>, r: Rec, k: nat)
    requires DistinctChannels(senders) && forall s :: s in senders ==> s.Sender?
    requires |es| == |senders| && forall j :: 0 <= j < |es| ==> SameProducer(es[j], EntryOf(senders[j]))
    requires k < |senders| && r.Receiver? && r.fromChn >= 0
    ensures Resolve(es, r.fromMid, r.kind, r.fromChn) == k <==> Names(r, senders[k])
  {
    ResolveOwn(senders, es, k);
    assert senders[k] in senders;
  }

  /** The test by which check_producer_consumer_correspondence takes some record for the match of a sender:
      its conditions are joined by "or", and it does not look at the record's role first.  The four
      arguments after the record are what the record's fields hold; a sender record leaves rsmid and
      rschnid unset. */
  predicate TakenForMatch(role: int, attr: int, rsmid: int, rschnid: int, mid: int, chn: int, kind: int) {
    rsmid == mid || rschnid == chn || attr == kind || role == DATA_CHANNEL_RECEIVER
  }

  // ----- walking the records one by one -----

  lemma AttachNone(es: seq<Entry>, recs: seq<Rec>)
    ensures AttachAll(es, recs[..0]) == es
  {
  }

  lemma AttachNext(es: seq<Entry>, recs: seq<Rec>, i: nat)
    requires i < |recs|
    ensures AttachAll(es, recs[..i + 1]) == AttachOne(AttachAll(es, recs[..i]), recs[i])
    ensures recs[i].Sender? ==> AttachAll(es, recs[..i + 1]) == AttachAll(es, recs[..i])
  {
    assert recs[..i + 1][..i] == recs[..i] && recs[..i + 1][i] == recs[i];
  }

  lemma SendersNone(recs: seq<Rec>)
    ensures Senders(recs[..0]) == []
  {
  }

  lemma SendersNext(recs: seq<Rec>, i: nat)
    requires i < |recs|
    ensures Senders(recs[..i + 1]) == Senders(recs[..i]) + (if recs[i].Sender? then [recs[i]] else [])
    ensures Senders(recs[..i + 1]) <= Senders(recs) && Senders(recs[..i]) <= Senders(recs)
    ensures recs[i].Sender? ==> |Senders(recs[..i])| < |Senders(recs)| && Senders(recs)[|Senders(recs[..i])|] == recs[i]
  {
    assert recs[..i + 1][..i] == recs[..i] && recs[..i + 1][i] == recs[i];
    SendersPrefix(recs, i + 1);
  }

  lemma {:induction false} SendersPrefix(recs: seq<Rec>, n: nat)
    requires n <= |recs|
    ensures Senders(recs[..n]) <= Senders(recs)
    decreases |recs| - n
  {
    if n < |recs| {
      SendersPrefix(recs, n + 1);
      assert recs[..n + 1][..n] == recs[..n];
    } else {
      assert recs[..n] == recs;
    }
  }
}
