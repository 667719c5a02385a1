/** Where a read_data or write_data call goes (src/data.c:344-452), as a function of registry and table. */
module Routes {
  import opened Routing
  import opened Registration

  /** A channel with a valid role goes by a channel number from 0 to 3. */
  lemma SourceAt(m: Module, kind: Kind, i: nat)
    requires WellFormed(m) && i < MAX_MODULE_CHANNEL_CNT
    ensures i < |ChnsOf(m, kind)|
    ensures ValidRole(ChnsOf(m, kind)[i]) ==> 0 <= Source(m, kind, i).cid < MAX_MODULE_CHANNEL_CNT
  {
    assert ChnsOf(m, kind)[i] in m.chn + m.hchn;
  }

  datatype Route = NoRoute | To(k: nat, sending: bool)

  function KindOf(chnType: int): Kind {
    if chnType == NORMAL_CHN then Normal else Hook
  }

  /** The copy length of a sender: the size of its normal channel of that number */
  function SizeOf(modules: seq<Module>, id: int, chn: nat): nat {
    var m := FindModule(modules, id);
    if m.Some? && chn < |m.value.chn| then m.value.chn[chn].size else 0
  }

  /** What a sender's call puts into the node */
  function Copied(modules: seq<Module>, id: int, chn: nat, chnType: int, data: seq<int>): seq<int> {
    if chnType == HOOK_CHN || |data| < SizeOf(modules, id, chn) then data else data[..SizeOf(modules, id, chn)]
  }

  /** Whether a receiver's release calls the sender's release function; None if there is no such sender. */
  function ReleaseOf(modules: seq<Module>, id: int, chn: nat, chnType: int): Option<bool> {
    var m := FindModule(modules, id);
    if chnType == NORMAL_CHN || m == None || chn >= |m.value.hchn| then Some(false)
    else
      var src := Source(m.value, Hook, chn);
      var s := FindModule(modules, src.mid);
      if s == None then None
      else Some(0 <= src.cid < |s.value.hchn| && s.value.hchn[src.cid].release)
  }

  /** Where read_data and write_data send a call of module `id` on channel `chn`. */
  function RouteOf(modules: seq<Module>, es: seq<Entry>, id: int, chn: nat, chnType: int): (route: Route)
    requires chn < MAX_MODULE_CHANNEL_CNT && forall m :: m in modules ==> WellFormed(m)
    ensures route.To? ==> route.k < |es|
  {
    FindModuleMeans(modules, id);
    var m := FindModule(modules, id);
    if m == None || (chnType != NORMAL_CHN && chnType != HOOK_CHN) then NoRoute
    else
      assert m.value in modules && WellFormed(m.value);
      var c := ChnsOf(m.value, KindOf(chnType))[chn];
      var src := Source(m.value, KindOf(chnType), chn);
      var k := Resolve(es, src.mid, KindOf(chnType), src.cid);
      if !ValidRole(c) || k < 0 then NoRoute else To(k, c.role == DATA_CHANNEL_SENDER)
  }

  /** What a routed call goes by */
  lemma RouteSource(modules: seq<Module>, es: seq<Entry>, id: int, chn: nat, chnType: int)
    requires chn < MAX_MODULE_CHANNEL_CNT && forall m :: m in modules ==> WellFormed(m)
    requires RouteOf(modules, es, id, chn, chnType).To?
    ensures var m := FindModule(modules, id);
            && m.Some? && |m.value.chn| == |m.value.hchn| == MAX_MODULE_CHANNEL_CNT
            && (chnType == NORMAL_CHN || chnType == HOOK_CHN)
            && (var c := (if chnType == NORMAL_CHN then m.value.chn else m.value.hchn)[chn];
                Source(m.value, KindOf(chnType), chn)
                  == if c.role == DATA_CHANNEL_SENDER then Port(id, chn) else Port(c.moduleId, c.channel))
            && var src := Source(m.value, KindOf(chnType), chn);
            && 0 <= src.cid < MAX_MODULE_CHANNEL_CNT
            && RouteOf(modules, es, id, chn, chnType).k == Resolve(es, src.mid, KindOf(chnType), src.cid)
  {
    FindModuleMeans(modules, id);
    var m := FindModule(modules, id).value;
    assert m in modules;
    SourceAt(m, KindOf(chnType), chn);
  }

  /** The route leads to the entry made for this sender record, in this role; nowhere if there is no such record. */
  ghost predicate LeadsTo(route: Route, served: seq<Rec>, sender: Rec, sending: bool) {
    if sender in served then
      route.To? && route.sending == sending && route.k < |served| && served[route.k] == sender
    else route == NoRoute
  }

  /** Where a call on channel i of a registered module leads: on a sender's channel to the entry made for this very
      channel, to send; on a receiver's to the entry made for the channel it names, to receive; on a channel
      without a role nowhere. */
  lemma RouteMeans(modules: seq<Module>, es: seq<Entry>, served: seq<Rec>, a: nat, i: nat, chnType: int)
    requires forall a, b :: 0 <= a < b < |modules| ==> modules[a].id != modules[b].id
    requires forall m :: m in modules ==> WellFormed(m)
    requires DistinctChannels(served) && forall r :: r in served ==> r.Sender?
    requires |es| == |served| && forall j :: 0 <= j < |es| ==> SameProducer(es[j], EntryOf(served[j]))
    requires a < |modules| && i < MAX_MODULE_CHANNEL_CNT && (chnType == NORMAL_CHN || chnType == HOOK_CHN)
    ensures var m, kind := modules[a], if chnType == NORMAL_CHN then Normal else Hook;
            && |m.chn| == |m.hchn| == MAX_MODULE_CHANNEL_CNT
            && var c := (if chnType == NORMAL_CHN then m.chn else m.hchn)[i];
               var route := RouteOf(modules, es, m.id, i, chnType);
               if c.role == DATA_CHANNEL_SENDER then LeadsTo(route, served, Sender(kind, m.id, i), true)
               else if c.role == DATA_CHANNEL_RECEIVER then
                 c.channel >= 0 && LeadsTo(route, served, Sender(kind, c.moduleId, c.channel), false)
               else route == NoRoute
  {
    var m, kind := modules[a], KindOf(chnType);
    assert m in modules;
    FoundAt(modules, a);
    SourceAt(m, kind, i);
    hide WellFormed, DistinctChannels, FindModule;
    var c := ChnsOf(m, kind)[i];
    if ValidRole(c) {
      var mid, cid := Source(m, kind, i).mid, Source(m, kind, i).cid;
      ResolveNone(served, es, mid, kind, cid);
      if Sender(kind, mid, cid) in served {
        var k :| 0 <= k < |served| && served[k] == Sender(kind, mid, cid);
        ResolveOwn(served, es, k);
      }
    }
  }

  lemma FoundAt(modules: seq<Module>, a: nat)
    requires forall a, b :: 0 <= a < b < |modules| ==> modules[a].id != modules[b].id
    requires a < |modules| && modules[a].id >= 0
    ensures FindModule(modules, modules[a].id) == Some(modules[a])
  {
    FindModuleMeans(modules, modules[a].id);
  }

  /** Calls of modules that are not registered and calls of no kind lead nowhere. */
  lemma RouteNowhere(modules: seq<Module>, es: seq<Entry>, id: int, chn: nat, chnType: int)
    requires chn < MAX_MODULE_CHANNEL_CNT && forall m :: m in modules ==> WellFormed(m)
    requires || (forall m :: m in modules ==> m.id != id)
             || (chnType != NORMAL_CHN && chnType != HOOK_CHN)
    ensures RouteOf(modules, es, id, chn, chnType) == NoRoute
  {
    FindModuleMeans(modules, id);
  }

  /** What a sender's call puts into the node: on a hook channel what it gives, on a normal channel as much of it as
      the size of the sender's channel says. */
  lemma CopiedMeans(modules: seq<Module>, id: int, chn: nat, chnType: int, data: seq<int>)
    requires FindModule(modules, id).Some? && chn < |FindModule(modules, id).value.chn|
    ensures chnType == HOOK_CHN ==> Copied(modules, id, chn, chnType, data) == data
    ensures var size, d := FindModule(modules, id).value.chn[chn].size, Copied(modules, id, chn, chnType, data);
            chnType != HOOK_CHN && size <= |data| ==> |d| == size && forall j :: 0 <= j < |d| ==> d[j] == data[j]
  {
  }

  /** When a receiver's release calls the sender's release function: exactly on a hook channel whose sender has one;
      it is refused exactly on a hook channel that names a module not registered. */
  lemma ReleaseMeans(modules: seq<Module>, a: nat, chn: nat, chnType: int)
    requires forall a, b :: 0 <= a < b < |modules| ==> modules[a].id != modules[b].id
    requires forall m :: m in modules ==> WellFormed(m)
    requires a < |modules| && chn < MAX_MODULE_CHANNEL_CNT && (chnType == NORMAL_CHN || chnType == HOOK_CHN)
    ensures var m, rel := modules[a], ReleaseOf(modules, modules[a].id, chn, chnType);
            && |m.hchn| == MAX_MODULE_CHANNEL_CNT
            && (chnType == NORMAL_CHN ==> rel == Some(false))
            && (chnType == HOOK_CHN && m.hchn[chn].role == DATA_CHANNEL_RECEIVER ==>
                  var c := m.hchn[chn];
                  && (rel == None <==> c.moduleId < 0 || forall s :: s in modules ==> s.id != c.moduleId)
                  && forall s :: s in modules && s.id == c.moduleId ==>
                       |s.hchn| == MAX_MODULE_CHANNEL_CNT && 0 <= c.channel < MAX_MODULE_CHANNEL_CNT
                       && rel == Some(s.hchn[c.channel].release))
  {
    var m := modules[a];
    assert m in modules && WellFormed(m);
    FoundAt(modules, a);
    if chnType == HOOK_CHN && m.hchn[chn].role == DATA_CHANNEL_RECEIVER {
      var c := m.hchn[chn];
      assert c in m.chn + m.hchn;
      FindModuleMeans(modules, c.moduleId);
      forall s | s in modules && s.id == c.moduleId ensures FindModule(modules, s.id) == Some(s) {
        var b :| 0 <= b < |modules| && modules[b] == s;
        FoundAt(modules, b);
      }
    }
  }

  /** Two calls go to the same entry exactly when they are of the same type and go by the same channel: a sender's
      its own, a receiver's the one it names. */
  ghost predicate RoutedBySource(modules: seq<Module>, es: seq<Entry>, id: int, chn: nat, chnType: int,
                                 id': int, chn': nat, chnType': int)
    requires chn < MAX_MODULE_CHANNEL_CNT && chn' < MAX_MODULE_CHANNEL_CNT && forall m :: m in modules ==> WellFormed(m)
  {
    var r, r' := RouteOf(modules, es, id, chn, chnType), RouteOf(modules, es, id', chn', chnType');
    if !r.To? || !r'.To? then true
    else
      RouteSource(modules, es, id, chn, chnType);
      RouteSource(modules, es, id', chn', chnType');
      var m, m' := FindModule(modules, id).value, FindModule(modules, id').value;
      var c, c' := (if chnType == NORMAL_CHN then m.chn else m.hchn)[chn],
          (if chnType' == NORMAL_CHN then m'.chn else m'.hchn)[chn'];
      r.k == r'.k <==>
        && chnType == chnType'
        && (if c.role == DATA_CHANNEL_SENDER then id else c.moduleId)
           == (if c'.role == DATA_CHANNEL_SENDER then id' else c'.moduleId)
        && (if c.role == DATA_CHANNEL_SENDER then chn else c.channel)
           == (if c'.role == DATA_CHANNEL_SENDER then chn' else c'.channel)
  }

  /** Routing agreement for the calls themselves: of whatever modules, sending or receiving. */
  lemma RoutesAgree(modules: seq<Module>, es: seq<Entry>, id: int, chn: nat, chnType: int, id': int, chn': nat,
    chnType': int)
    requires forall a, b :: 0 <= a < b < |modules| ==> modules[a].id != modules[b].id
    requires var senders := Senders(AllRecords(modules));
             |es| == |senders| && forall j :: 0 <= j < |es| ==> SameProducer(es[j], EntryOf(senders[j]))
    requires chn < MAX_MODULE_CHANNEL_CNT && chn' < MAX_MODULE_CHANNEL_CNT && forall m :: m in modules ==> WellFormed(m)
    ensures RoutedBySource(modules, es, id, chn, chnType, id', chn', chnType')
  {
    if RouteOf(modules, es, id, chn, chnType).To? && RouteOf(modules, es, id', chn', chnType').To? {
      RouteSource(modules, es, id, chn, chnType);
      RouteSource(modules, es, id', chn', chnType');
      hide WellFormed, RouteOf, FindModule;
      var src := Source(FindModule(modules, id).value, KindOf(chnType), chn);
      var src' := Source(FindModule(modules, id').value, KindOf(chnType'), chn');
      RoutingAgreement(modules, es, KindOf(chnType), src.mid, src.cid, KindOf(chnType'), src'.mid, src'.cid);
    }
  }
}
