/** What check_producer_consumer_correspondence (src/data.c:35-82) has to do with senders and receivers
    really belonging together.  Registration.ChnTable.CheckCorrespondence shows that it passes exactly when
    there are as many receiver records as sender records. */
module Pairing {
  import opened Routing

  /** Record b is a receiver that names the sender record a. */
  predicate NamesAt(recs: seq<Rec>, b: int, a: int) {
    0 <= a < |recs| && 0 <= b < |recs| && Names(recs[b], recs[a])
  }

  predicate SenderAt(recs: seq<Rec>, a: int) {
    0 <= a < |recs| && recs[a].Sender?
  }

  predicate ReceiverAt(recs: seq<Rec>, b: int) {
    0 <= b < |recs| && recs[b].Receiver?
  }

  /** Every sender is named by exactly one receiver and every receiver names a sender. */
  ghost predicate Paired(recs: seq<Rec>) {
    && (forall a :: SenderAt(recs, a) ==> exists b :: NamesAt(recs, b, a))
    && (forall b :: ReceiverAt(recs, b) ==> exists a :: NamesAt(recs, b, a))
    && (forall a, b, c :: NamesAt(recs, b, a) && NamesAt(recs, c, a) ==> b == c)
  }

  ghost predicate Injective<K(!new), V(!new)>(m: map<K, V>) {
    forall j, k :: j in m && k in m && j != k ==> m[j] != m[k]
  }

  lemma {:induction false} InjectiveFits<K(!new), V(!new)>(m: map<K, V>, into: set<V>)
    requires Injective(m) && forall k :: k in m ==> m[k] in into
    ensures |m.Keys| <= |into|
    decreases |m|
  {
    if m.Keys != {} {
      var k :| k in m;
      var rest := m - {k};
      InjectiveFits(rest, into - {m[k]});
      assert rest.Keys == m.Keys - {k};
    }
  }

  function SenderPositions(recs: seq<Rec>): (s: set<int>) {
    set a | 0 <= a < |recs| && SenderAt(recs, a)
  }

  function ReceiverPositions(recs: seq<Rec>): (s: set<int>) {
    set b | 0 <= b < |recs| && ReceiverAt(recs, b)
  }

  lemma PositionsNext(recs: seq<Rec>, r: Rec)
    ensures SenderPositions(recs + [r]) == SenderPositions(recs) + if r.Sender? then {|recs|} else {}
    ensures ReceiverPositions(recs + [r]) == ReceiverPositions(recs) + if r.Sender? then {} else {|recs|}
  {
    forall a: int
      ensures SenderAt(recs + [r], a) <==> SenderAt(recs, a) || (a == |recs| && r.Sender?)
      ensures ReceiverAt(recs + [r], a) <==> ReceiverAt(recs, a) || (a == |recs| && !r.Sender?)
    {
    }
  }

  lemma {:induction false} CountPositions(recs: seq<Rec>)
    ensures |SenderPositions(recs)| == |Senders(recs)|
    ensures |ReceiverPositions(recs)| == |recs| - |Senders(recs)|
    decreases |recs|
  {
    if recs == [] {
      assert SenderPositions(recs) == {} && ReceiverPositions(recs) == {};
    } else {
      var front, r := recs[..|recs| - 1], recs[|recs| - 1];
      CountPositions(front);
      PositionsNext(front, r);
      assert recs == front + [r];
    }
  }

  lemma SendersFit(recs: seq<Rec>)
    requires DistinctChannels(recs) && Paired(recs)
    ensures |SenderPositions(recs)| <= |ReceiverPositions(recs)|
  {
    hide DistinctChannels;
    var m := map a | a in SenderPositions(recs) :: var b :| NamesAt(recs, b, a); b;
    forall j, k | j in m && k in m && j != k ensures m[j] != m[k] {
      NamesOne(recs, m[j], if j < k then j else k, if j < k then k else j);
    }
    InjectiveFits(m, ReceiverPositions(recs));
    assert m.Keys == SenderPositions(recs);
  }

  lemma ReceiversFit(recs: seq<Rec>)
    requires DistinctChannels(recs) && Paired(recs)
    ensures |ReceiverPositions(recs)| <= |SenderPositions(recs)|
  {
    hide DistinctChannels;
    var m := map b | b in ReceiverPositions(recs) :: var a :| NamesAt(recs, b, a); a;
    InjectiveFits(m, SenderPositions(recs));
    assert m.Keys == ReceiverPositions(recs);
  }

  /** A receiver names one sender at most. */
  lemma NamesOne(recs: seq<Rec>, b: int, j: int, k: int)
    requires DistinctChannels(recs) && 0 <= j < k < |recs|
    ensures !(NamesAt(recs, b, j) && NamesAt(recs, b, k))
  {
    assert !SameChannel(recs[j], recs[k]);
  }

  /** A registration in which everything is paired passes the check. */
  lemma PairedPasses(recs: seq<Rec>)
    requires DistinctChannels(recs) && Paired(recs)
    ensures |Senders(recs)| * 2 == |recs|
  {
    CountPositions(recs);
    SendersFit(recs);
    ReceiversFit(recs);
  }

  /** Every receiver names a sender. */
  ghost predicate AllServed(recs: seq<Rec>) {
    forall b :: ReceiverAt(recs, b) ==> exists a :: NamesAt(recs, b, a)
  }

  /** No two receivers name the same module, kind and channel. */
  ghost predicate NoneShared(recs: seq<Rec>) {
    forall b, c :: ReceiverAt(recs, b) && ReceiverAt(recs, c) && SameSource(recs[b], recs[c]) ==> b == c
  }

  predicate SameSource(r: Rec, s: Rec) {
    r.Receiver? && s.Receiver? && r.kind == s.kind && r.fromMid == s.fromMid && r.fromChn == s.fromChn
  }

  /** Two receivers naming one sender name the same source, and served receivers of one source name one. */
  lemma SharedSender(recs: seq<Rec>, a: int, b: int, c: int)
    ensures NamesAt(recs, b, a) && NamesAt(recs, c, a) ==>
              ReceiverAt(recs, b) && ReceiverAt(recs, c) && SameSource(recs[b], recs[c])
    ensures NamesAt(recs, b, a) && ReceiverAt(recs, c) && SameSource(recs[b], recs[c]) ==> NamesAt(recs, c, a)
  {
  }

  lemma InjectiveOnto<K(!new), V(!new)>(m: map<K, V>, onto: set<V>, v: V)
    requires Injective(m) && (forall k :: k in m ==> m[k] in onto) && |m.Keys| == |onto| && v in onto
    ensures exists k :: k in m && m[k] == v
  {
    if v !in m.Values {
      forall k | k in m ensures m[k] in onto - {v} {
        assert m[k] in m.Values;
      }
      InjectiveFits(m, onto - {v});
    }
  }

  /** Receivers that are served and share no source name different senders. */
  lemma NamedApart(recs: seq<Rec>, m: map<int, int>)
    requires NoneShared(recs) && forall b :: b in m ==> NamesAt(recs, b, m[b])
    ensures Injective(m)
  {
    forall j, k | j in m && k in m && j != k ensures m[j] != m[k] {
      SharedSender(recs, m[j], j, k);
    }
  }

  /** If every receiver is served and none shares its source, as many receivers as senders leave no sender
      over. */
  lemma EverySenderNamed(recs: seq<Rec>, a: int)
    requires AllServed(recs) && NoneShared(recs) && |Senders(recs)| * 2 == |recs| && SenderAt(recs, a)
    ensures exists b :: NamesAt(recs, b, a)
  {
    CountPositions(recs);
    var m := map b | b in ReceiverPositions(recs) :: var x :| NamesAt(recs, b, x); x;
    hide NoneShared;
    NamedApart(recs, m);
    assert m.Keys == ReceiverPositions(recs);
    InjectiveOnto(m, SenderPositions(recs), a);
  }

  /** When a passed check can be trusted: everything is paired if and only if every receiver names a sender
      and no two receivers name the same one, both of which the configuration of the receivers shows. */
  lemma TrustedIff(recs: seq<Rec>)
    requires |Senders(recs)| * 2 == |recs|
    ensures Paired(recs) <==> AllServed(recs) && NoneShared(recs)
  {
    if Paired(recs) {
      forall b, c | ReceiverAt(recs, b) && ReceiverAt(recs, c) && SameSource(recs[b], recs[c]) ensures b == c {
        var a :| NamesAt(recs, b, a);
        SharedSender(recs, a, b, c);
      }
    }
    if AllServed(recs) && NoneShared(recs) {
      forall a | SenderAt(recs, a) ensures exists b :: NamesAt(recs, b, a) {
        EverySenderNamed(recs, a);
      }
      forall a, b, c | NamesAt(recs, b, a) && NamesAt(recs, c, a) ensures b == c {
        SharedSender(recs, a, b, c);
      }
    }
  }

  /** A disabled channel, and a module with a single normal channel, its channel 0 */
  function Unused(): Chn {
    Chn(0, 0, 0, 0, 0, 0, false)
  }

  function OneChannel(id: int, c: Chn): Module {
    Module(id, 0, true, [c, Unused(), Unused(), Unused()], [Unused(), Unused(), Unused(), Unused()])
  }

  lemma OneRecord(id: int, c: Chn)
    requires c.enable == MODULE_CHANNEL_ENABLE && ValidRole(c)
    ensures Records(OneChannel(id, c)) == ([RecOf(id, Normal, 0, c)], true)
  {
    var chns, none := OneChannel(id, c).chn, OneChannel(id, c).hchn;
    assert Scan(id, Normal, chns, 4) == ([], true) && Scan(id, Hook, none, 4) == ([], true);
    assert Scan(id, Normal, chns, 3) == ([], true) && Scan(id, Hook, none, 3) == ([], true);
    assert Scan(id, Normal, chns, 2) == ([], true) && Scan(id, Hook, none, 2) == ([], true);
    assert Scan(id, Normal, chns, 1) == ([], true) && Scan(id, Hook, none, 1) == ([], true);
    assert Scan(id, Hook, none, 0) == ([], true);
    assert [RecOf(id, Normal, 0, c)] + [] == [RecOf(id, Normal, 0, c)];
  }

  /** But two modules may register, a sender nobody listens to and a receiver of something nobody sends,
      and pass as well. */
  lemma UnpairedPasses() returns (modules: seq<Module>, recs: seq<Rec>)
    ensures |modules| == 2 && modules[0].id != modules[1].id
    ensures (forall m :: m in modules ==> WellFormed(m) && Records(m).1)
    ensures recs == AllRecords(modules) && |Senders(recs)| * 2 == |recs| == 2
    ensures forall a, b :: !NamesAt(recs, b, a)
    ensures !Paired(recs)
  {
    var sender := Chn(MODULE_CHANNEL_ENABLE, DATA_CHANNEL_SENDER, 16, 2, -1, -1, false);
    var receiver := Chn(MODULE_CHANNEL_ENABLE, DATA_CHANNEL_RECEIVER, 16, 2, 9, 0, false);
    modules := [OneChannel(1, sender), OneChannel(2, receiver)];
    OneRecord(1, sender);
    OneRecord(2, receiver);
    recs := [Sender(Normal, 1, 0), Receiver(Normal, 2, 0, 9, 0)];
    assert modules[..1] == [OneChannel(1, sender)] && modules[..1][..0] == [];
    assert AllRecords(modules[..1]) == AllRecords(modules[..1][..0]) + Records(modules[..1][0]).0;
    assert recs[..1] == [Sender(Normal, 1, 0)];
    assert Senders(recs) == Senders(recs[..1]);
    assert SenderAt(recs, 0);
  }
}
