/** What a producer puts into a node against what is published and received.
    (src/utils/node_list/node_list.c:50-156, src/data.c:486-492) */
module Filling {
  import opened NodeProtocol

  predicate Makes(c: Config, a: Action, s: State, s': State) {
    Enabled(s, a) && s' == Apply(c, s, a)
  }

  /** A run with the actions it consists of */
  ghost predicate ActedOut(c: Config, tr: seq<State>, acts: seq<Action>) {
    && IsRun(c, tr) && |tr| == |acts| + 1
    && forall i :: 0 <= i < |acts| ==> Makes(c, acts[i], tr[i], tr[i + 1])
  }

  /** Every run is one. */
  lemma ActionsOf(c: Config, tr: seq<State>) returns (acts: seq<Action>)
    requires IsRun(c, tr)
    ensures ActedOut(c, tr, acts)
  {
    acts := ActionsUpTo(c, tr, |tr| - 1);
  }

  lemma {:induction false} ActionsUpTo(c: Config, tr: seq<State>, n: nat) returns (acts: seq<Action>)
    requires IsRun(c, tr) && n < |tr|
    ensures |acts| == n && forall i :: 0 <= i < n ==> Makes(c, acts[i], tr[i], tr[i + 1])
  {
    if n == 0 {
      acts := [];
    } else {
      hide *;
      acts := ActionsUpTo(c, tr, n - 1);
      var a := ActionMade(c, tr, n - 1);
      acts := acts + [a];
    }
  }

  lemma ActionMade(c: Config, tr: seq<State>, i: nat) returns (a: Action)
    requires IsRun(c, tr) && i + 1 < |tr|
    ensures Makes(c, a, tr[i], tr[i + 1])
  {
    a := ActionAt(c, tr, i);
  }

  lemma ActAt(c: Config, tr: seq<State>, acts: seq<Action>, i: nat)
    requires ActedOut(c, tr, acts) && i < |acts|
    ensures |tr| == |acts| + 1 && Makes(c, acts[i], tr[i], tr[i + 1])
  {
  }

  /** A producer writes node x. */
  predicate Fills(a: Action, x: NodeId) {
    a.Fill? && a.node == x
  }

  /** Only a producer's write changes what a node says. */
  lemma FillStep(c: Config, a: Action, s: State, s': State, x: NodeId)
    requires Makes(c, a, s, s')
    ensures Read(s'.log.mem, x) == if Fills(a, x) then a.payload else Read(s.log.mem, x)
  {
  }

  /** From a write on, and until the next one, the node says what was written, whoever has it. */
  lemma {:induction false} FilledStays(c: Config, tr: seq<State>, acts: seq<Action>, j: nat, i: nat, x: NodeId,
    p: Payload)
    requires ActedOut(c, tr, acts) && j < i < |tr| && acts[j] == Fill(x, p)
    requires forall q :: j < q < i ==> !Fills(acts[q], x)
    ensures Read(tr[i].log.mem, x) == p
    decreases i
  {
    hide IsRun, Makes;
    ActAt(c, tr, acts, i - 1);
    FillStep(c, acts[i - 1], tr[i - 1], tr[i], x);
    if j < i - 1 { FilledStays(c, tr, acts, j, i - 1, x, p); }
  }

  lemma LinkPublishes(c: Config, t: Tid, s: State, s': State, x: NodeId)
    requires Makes(c, Advance(t), s, s') && s.pcs[t] == PutLink(Use, x)
    ensures s'.log.published == s.log.published + [Entry(x, Read(s.log.mem, x))]
  {
  }

  lemma OnlyLinks(c: Config, a: Action, s: State, s': State)
    requires Makes(c, a, s, s') && s'.log.published != s.log.published
    ensures a.Advance? && a.t in s.pcs && s.pcs[a.t].PutLink? && s.pcs[a.t].side == Use
  {
  }

  /** What Put_Use_Node publishes for a node is the payload of the last write into it before. */
  lemma PublishedAsFilled(c: Config, tr: seq<State>, acts: seq<Action>, j: nat, i: nat, t: Tid, x: NodeId, p: Payload)
    requires ActedOut(c, tr, acts) && j < i < |acts| && acts[j] == Fill(x, p)
    requires forall q :: j < q < i ==> !Fills(acts[q], x)
    requires acts[i] == Advance(t) && t in tr[i].pcs && tr[i].pcs[t] == PutLink(Use, x)
    ensures tr[i + 1].log.published == tr[i].log.published + [Entry(x, p)]
  {
    hide ActedOut, Makes;
    ActAt(c, tr, acts, i);
    FilledStays(c, tr, acts, j, i, x, p);
    LinkPublishes(c, t, tr[i], tr[i + 1], x);
  }

  /** And every publication is one of these, or of a node never written: nothing else is ever published. */
  lemma PublicationIsFill(c: Config, tr: seq<State>, acts: seq<Action>, i: nat) returns (t: Tid, x: NodeId, j: int)
    requires ActedOut(c, tr, acts) && i < |acts| && tr[i + 1].log.published != tr[i].log.published
    ensures acts[i] == Advance(t) && t in tr[i].pcs && tr[i].pcs[t] == PutLink(Use, x) && j < i
    ensures forall q :: 0 <= q < i && q > j ==> !Fills(acts[q], x)
    ensures if j < 0 then tr[i + 1].log.published == tr[i].log.published + [Entry(x, [])]
            else Fills(acts[j], x) && tr[i + 1].log.published == tr[i].log.published + [Entry(x, acts[j].payload)]
  {
    hide ActedOut, Makes;
    ActAt(c, tr, acts, i);
    OnlyLinks(c, acts[i], tr[i], tr[i + 1]);
    t := acts[i].t;
    x := tr[i].pcs[t].node;
    LinkPublishes(c, t, tr[i], tr[i + 1], x);
    j := LastFill(acts, i, x);
    if j < 0 {
      NeverFilled(c, tr, acts, i, x);
    } else {
      FilledStays(c, tr, acts, j, i, x, acts[j].payload);
    }
  }

  lemma {:induction false} LastFill(acts: seq<Action>, i: nat, x: NodeId) returns (j: int)
    requires i <= |acts|
    ensures j < i && (j >= 0 ==> Fills(acts[j], x)) && forall q :: 0 <= q < i && q > j ==> !Fills(acts[q], x)
    decreases i
  {
    if i == 0 {
      j := -1;
    } else if Fills(acts[i - 1], x) {
      j := i - 1;
    } else {
      j := LastFill(acts, i - 1, x);
    }
  }

  lemma {:induction false} NeverFilled(c: Config, tr: seq<State>, acts: seq<Action>, i: nat, x: NodeId)
    requires ActedOut(c, tr, acts) && i < |tr| && forall q :: 0 <= q < i ==> !Fills(acts[q], x)
    ensures Read(tr[i].log.mem, x) == []
    decreases i
  {
    if i > 0 {
      hide ActedOut, Makes;
      ActAt(c, tr, acts, i - 1);
      FillStep(c, acts[i - 1], tr[i - 1], tr[i], x);
      NeverFilled(c, tr, acts, i - 1, x);
    }
  }

  /** A consumer that holds a node finds in it what its producer wrote into it last, which was published and
      delivered as such. */
  lemma ReceivedAsFilled(c: Config, tr: seq<State>, acts: seq<Action>, j: nat, i: nat, x: NodeId, p: Payload)
    requires ActedOut(c, tr, acts) && j < i < |tr| && acts[j] == Fill(x, p)
    requires forall q :: j < q < i ==> !Fills(acts[q], x)
    requires x in tr[i].clients.consumers
    ensures Read(tr[i].log.mem, x) == p
    ensures Removal(Entry(x, p), Consumer) in tr[i].log.removed && Entry(x, p) in tr[i].log.published
  {
    PayloadIntegrity(c, tr, i);
    hide *;
    FilledStays(c, tr, acts, j, i, x, p);
  }
}
