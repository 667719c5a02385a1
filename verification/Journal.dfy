/** What a channel is for, over any number of calls: payloads are received in the order in which they were
    sent, and what is missing was overwritten. */
module Journal {
  import opened Sums

  datatype Event = Sent(data: seq<int>) | Received(data: seq<int>) | Overwritten | Quiet

  /** A call that comes to e turns the payloads published and not yet taken from ds into ds'. */
  predicate Carried(ds: seq<seq<int>>, e: Event, ds': seq<seq<int>>) {
    match e
    case Sent(d) => ds' == ds + [d]
    case Received(d) => ds != [] && d == ds[0] && ds' == ds[1..]
    case Overwritten => ds != [] && ds' == ds[1..]
    case Quiet => ds' == ds
  }

  /** What a read_data that gets a node comes to: a sender that finds no free node takes a published one. */
  function ReadEvent(sending: bool, data: seq<int>, noneFree: bool): Event {
    if !sending then Received(data) else if noneFree then Overwritten else Quiet
  }

  /** Calls that came to these events, from an empty channel, leave ds. */
  ghost predicate Leaves(events: seq<Event>, ds: seq<seq<int>>)
    decreases |events|
  {
    if events == [] then ds == []
    else
      var front, e := events[..|events| - 1], events[|events| - 1];
      exists before :: Leaves(front, before) && Carried(before, e, ds)
  }

  /** What has been taken so far, with what was received among it */
  datatype Gone = Gone(data: seq<int>, received: bool)

  function AllSent(events: seq<Event>): seq<seq<int>> {
    Pick(events, (e: Event) => e.Sent?, (e: Event) => if e.Sent? then e.data else [])
  }

  function AllReceived(events: seq<Event>): seq<seq<int>> {
    Pick(events, (e: Event) => e.Received?, (e: Event) => if e.Received? then e.data else [])
  }

  /** How often a published payload was overwritten */
  function Overwrites(events: seq<Event>): nat {
    if events == [] then 0
    else Overwrites(events[..|events| - 1]) + if events[|events| - 1] == Overwritten then 1 else 0
  }

  lemma OverwritesNext(events: seq<Event>, e: Event)
    ensures Overwrites(events + [e]) == Overwrites(events) + if e == Overwritten then 1 else 0
  {
    assert (events + [e])[..|events|] == events;
  }

  /** One call more */
  lemma LeavesNext(events: seq<Event>, ds: seq<seq<int>>, e: Event, ds': seq<seq<int>>)
    requires Leaves(events, ds) && Carried(ds, e, ds')
    ensures Leaves(events + [e], ds')
  {
    assert (events + [e])[..|events|] == events;
  }

  function GoneData(gone: seq<Gone>): (ds: seq<seq<int>>) {
    seq(|gone|, i requires 0 <= i < |gone| => gone[i].data)
  }

  lemma {:induction false} AccountOf(events: seq<Event>, ds: seq<seq<int>>) returns (gone: seq<Gone>)
    requires Leaves(events, ds)
    ensures AllSent(events) == GoneData(gone) + ds
    ensures AllReceived(events) == Pick(gone, (g: Gone) => g.received, (g: Gone) => g.data)
    ensures Overwritten !in events ==> forall g :: g in gone ==> g.received
    decreases |events|
  {
    if events == [] {
      gone := [];
    } else {
      var front, e := events[..|events| - 1], events[|events| - 1];
      var before :| Leaves(front, before) && Carried(before, e, ds);
      gone := AccountOf(front, before);
      hide Leaves;
      gone := AccountNext(events, before, ds, gone);
    }
  }

  lemma AccountNext(events: seq<Event>, before: seq<seq<int>>, ds: seq<seq<int>>, gone: seq<Gone>)
    returns (gone': seq<Gone>)
    requires events != [] && Carried(before, events[|events| - 1], ds)
    requires AllSent(events[..|events| - 1]) == GoneData(gone) + before
    requires AllReceived(events[..|events| - 1]) == Pick(gone, (g: Gone) => g.received, (g: Gone) => g.data)
    ensures AllSent(events) == GoneData(gone') + ds
    ensures AllReceived(events) == Pick(gone', (g: Gone) => g.received, (g: Gone) => g.data)
    ensures forall g :: g in gone' ==> g in gone || g.received || events[|events| - 1] == Overwritten
  {
    var e := events[|events| - 1];
    if e.Received? || e == Overwritten {
      var g := Gone(before[0], e.Received?);
      assert GoneData(gone + [g]) == GoneData(gone) + [before[0]];
      assert before == [before[0]] + ds;
      assert (gone + [g])[..|gone|] == gone;
      gone' := gone + [g];
    } else {
      gone' := gone;
    }
  }

  lemma {:induction false} AllTaken(gone: seq<Gone>)
    requires forall g :: g in gone ==> g.received
    ensures Pick(gone, (g: Gone) => g.received, (g: Gone) => g.data) == GoneData(gone)
    decreases |gone|
  {
    if gone != [] {
      var front, g := gone[..|gone| - 1], gone[|gone| - 1];
      AllTaken(front);
      assert GoneData(gone) == GoneData(front) + [g.data];
    }
  }

  /** Whatever sequence of calls goes over a channel: the payloads its receivers were handed are, in order, a
      subsequence of those its senders put, and what is still published is the last of them.  As long as
      nothing was overwritten, nothing is lost. */
  lemma EndToEnd(events: seq<Event>, ds: seq<seq<int>>)
    requires Leaves(events, ds)
    ensures Subsequence(AllReceived(events), AllSent(events))
    ensures |ds| <= |AllSent(events)| && AllSent(events)[|AllSent(events)| - |ds|..] == ds
    ensures Overwritten !in events ==> AllSent(events) == AllReceived(events) + ds
  {
    var gone := AccountOf(events, ds);
    PickSubsequence(gone, (g: Gone) => g.received, (g: Gone) => g.data, GoneData(gone));
    SubsequenceExtend(AllReceived(events), GoneData(gone), ds);
    if Overwritten !in events { AllTaken(gone); }
  }
}
