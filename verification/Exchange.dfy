/** The node exchange at call granularity: each call runs alone, and a call that has to wait at a
    semaphore without tokens leaves everything as it is.  Here Drop_Use_Node and Node_List_Set_Block
    take part as well.  (src/utils/node_list/node_list.c:50-177, 264-279) */
module Exchange {

  /** What a get call comes to: a node, NULL, or waiting for a token. */
  datatype Outcome<N> = Got(node: N) | Null | Blocks

  datatype Exchange<N> = Exchange(
    free: seq<N>, freeCnt: int, freeSem: nat,
    use: seq<N>, useCnt: int, useSem: nat,
    keepUpdate: bool, block: bool)

  /** Node_List_Init, given the nodes in the order they are freed. */
  function Create<N>(nodes: seq<N>, keepUpdate: bool, block: bool): Exchange<N> {
    Exchange(nodes, |nodes|, |nodes|, [], 0, 0, keepUpdate, block)
  }

  function GetUse<N>(x: Exchange<N>): (Exchange<N>, Outcome<N>) {
    if x.use == [] && !x.block then (x, Null)
    else if x.useSem == 0 then (x, Blocks)
    else if x.use == [] then (x.(useSem := x.useSem - 1), Null)
    else (x.(use := x.use[1..], useCnt := x.useCnt - 1, useSem := x.useSem - 1), Got(x.use[0]))
  }

  function GetFree<N>(x: Exchange<N>): (Exchange<N>, Outcome<N>)
    requires x.free == [] ==> x.freeSem == 0
  {
    if x.free == [] && x.keepUpdate then GetUse(x)
    else if x.freeSem == 0 then (x, Blocks)
    else (x.(free := x.free[1..], freeCnt := x.freeCnt - 1, freeSem := x.freeSem - 1), Got(x.free[0]))
  }

  function PutUse<N>(x: Exchange<N>, n: N): Exchange<N> {
    x.(use := x.use + [n], useCnt := x.useCnt + 1, useSem := x.useSem + 1)
  }

  function PutFree<N>(x: Exchange<N>, n: N): Exchange<N> {
    x.(free := x.free + [n], freeCnt := x.freeCnt + 1, freeSem := x.freeSem + 1)
  }

  /** Drop_Use_Node moves the whole use list behind the free list; the use semaphore keeps its tokens. */
  function Drop<N>(x: Exchange<N>): Exchange<N> {
    x.(free := x.free + x.use, freeCnt := x.freeCnt + |x.use|, freeSem := x.freeSem + |x.use|,
       use := [], useCnt := x.useCnt - |x.use|)
  }

  function SetBlock<N>(x: Exchange<N>, on: bool): Exchange<N> {
    if x.block && !on then x.(block := false, useSem := if x.useSem == 0 then 1 else x.useSem)
    else if !x.block && on then x.(block := true)
    else x
  }

  /** Between calls the free list is matched token by token, the use list may have tokens to spare. */
  predicate Settled<N>(x: Exchange<N>) {
    && x.freeCnt == |x.free| && x.freeSem == |x.free|
    && x.useCnt == |x.use| && x.useSem >= |x.use|
  }

  // ----- runs: clients of one list, the shadow counters kept the way src/data.c keeps them -----

  datatype Call<N> =
    | Request
    | Publish(node: N)
    | Receive
    | Release(node: N)
    | DropUse
    | Block(on: bool)

  /** A channel in use: the exchange, the nodes clients hold, the shadow counters of the channel table,
      and tallies of what has happened so far. */
  datatype World<N> = World(
    x: Exchange<N>, producers: multiset<N>, consumers: multiset<N>,
    chnUse: int, chnFree: int,
    overwrites: nat, emptyRequests: nat, dropped: nat, wakeups: nat, lateNulls: nat)

  function Start<N>(nodes: seq<N>, keepUpdate: bool, block: bool): World<N> {
    World(Create(nodes, keepUpdate, block), multiset{}, multiset{}, 0, |nodes|, 0, 0, 0, 0, 0)
  }

  /** Clients give back only what they hold. */
  predicate May<N(==)>(w: World<N>, c: Call<N>) {
    match c
    case Publish(n) => n in w.producers
    case Release(n) => n in w.consumers
    case _ => true
  }

  /** One call, with read_data and write_data keeping the shadow counters: a request counts down the free
      counter whatever it gets, including NULL.  A receiver that gets NULL carries on without it; read_data
      would not survive that, but NeverNull says that its lists give none. */
  function After<N(==)>(w: World<N>, c: Call<N>): World<N>
    requires May(w, c) && Settled(w.x)
  {
    match c
    case Request => Requested(w)
    case Publish(n) =>
      w.(x := PutUse(w.x, n), producers := w.producers - multiset{n}, chnUse := w.chnUse + 1)
    case Receive => Received(w)
    case Release(n) =>
      w.(x := PutFree(w.x, n), consumers := w.consumers - multiset{n}, chnFree := w.chnFree + 1)
    case DropUse => w.(x := Drop(w.x), dropped := w.dropped + |w.x.use|)
    case Block(on) =>
      w.(x := SetBlock(w.x, on), wakeups := w.wakeups + SetBlock(w.x, on).useSem - w.x.useSem)
  }

  function Requested<N(==)>(w: World<N>): World<N>
    requires Settled(w.x)
  {
    var (x', out) := GetFree(w.x);
    if out == Blocks then w
    else
      var w' := w.(x := x', chnFree := w.chnFree - 1, lateNulls := w.lateNulls + LateNull(w.x, x', out));
      if out.Got? then
        w'.(producers := w.producers + multiset{out.node},
            overwrites := if w.x.free == [] then w.overwrites + 1 else w.overwrites)
      else w'.(emptyRequests := w.emptyRequests + 1)
  }

  function Received<N(==)>(w: World<N>): World<N>
    requires Settled(w.x)
  {
    var (x', out) := GetUse(w.x);
    if out.Got? then w.(x := x', consumers := w.consumers + multiset{out.node}, chnUse := w.chnUse - 1)
    else w.(x := x', lateNulls := w.lateNulls + LateNull(w.x, x', out))
  }

  /** 1 for a NULL that used up a token. */
  function LateNull<N(==)>(x: Exchange<N>, x': Exchange<N>, out: Outcome<N>): nat {
    if out == Null && x'.useSem != x.useSem then 1 else 0
  }

  /** The world after a sequence of calls, if each one may be made. */
  ghost predicate Leads<N(!new)>(w: World<N>, calls: seq<Call<N>>, w': World<N>)
    decreases |calls|
  {
    if calls == [] then w' == w
    else
      var front, c := calls[..|calls| - 1], calls[|calls| - 1];
      exists v :: Leads(w, front, v) && Settled(v.x) && May(v, c) && w' == After(v, c)
  }

  /** Every node is in exactly one place. */
  ghost predicate Conserved<N>(w: World<N>, nodes: seq<N>) {
    multiset(w.x.free) + multiset(w.x.use) + w.producers + w.consumers == multiset(nodes)
  }

  ghost predicate Tallies<N>(w: World<N>) {
    && w.x.useSem + w.lateNulls == |w.x.use| + w.dropped + w.wakeups
    && w.chnUse == |w.x.use| + w.overwrites + w.dropped
    && w.chnFree == |w.x.free| - w.overwrites - w.dropped - w.emptyRequests
  }

  /** Taking the first node of a list, or putting a held one behind it, moves it. */
  lemma TakeMoves<N>(s: seq<N>, held: multiset<N>)
    requires s != []
    ensures multiset(s[1..]) + (held + multiset{s[0]}) == multiset(s) + held
  {
    assert s == [s[0]] + s[1..];
  }

  lemma PutMoves<N>(s: seq<N>, held: multiset<N>, n: N)
    requires n in held
    ensures multiset(s + [n]) + (held - multiset{n}) == multiset(s) + held
  {
    assert held == held - multiset{n} + multiset{n};
  }

  lemma Regroup<N>(a: multiset<N>, b: multiset<N>, c: multiset<N>, d: multiset<N>)
    ensures a + b + c + d == (a + c) + (b + d) == (a + d) + (b + c)
  {
  }

  lemma RequestedConserved<N>(w: World<N>, nodes: seq<N>)
    requires Settled(w.x) && Conserved(w, nodes)
    ensures Conserved(Requested(w), nodes)
  {
    var w' := Requested(w);
    Regroup(multiset(w.x.free), multiset(w.x.use), w.producers, w.consumers);
    Regroup(multiset(w'.x.free), multiset(w'.x.use), w'.producers, w'.consumers);
    if w.x.free != [] {
      TakeMoves(w.x.free, w.producers);
    } else if w.x.use != [] {
      TakeMoves(w.x.use, w.producers);
    }
  }

  lemma ReceivedConserved<N>(w: World<N>, nodes: seq<N>)
    requires Settled(w.x) && Conserved(w, nodes)
    ensures Conserved(Received(w), nodes)
  {
    var w' := Received(w);
    Regroup(multiset(w.x.free), multiset(w.x.use), w.producers, w.consumers);
    Regroup(multiset(w'.x.free), multiset(w'.x.use), w'.producers, w'.consumers);
    if w.x.use != [] { TakeMoves(w.x.use, w.consumers); }
  }

  lemma AfterConserved<N>(w: World<N>, c: Call<N>, nodes: seq<N>)
    requires Settled(w.x) && Conserved(w, nodes) && May(w, c)
    ensures Conserved(After(w, c), nodes)
  {
    hide Requested, Received;
    match c
    case Request => RequestedConserved(w, nodes);
    case Receive => ReceivedConserved(w, nodes);
    case Publish(n) => PutMoves(w.x.use, w.producers, n);
    case Release(n) => PutMoves(w.x.free, w.consumers, n);
    case DropUse => assert multiset(After(w, c).x.use) == multiset{};
    case Block(_) =>
  }

  lemma RequestedTallies<N>(w: World<N>)
    requires Settled(w.x) && Tallies(w)
    ensures Settled(Requested(w).x) && Tallies(Requested(w)) && Requested(w).x.keepUpdate == w.x.keepUpdate
  {
  }

  lemma ReceivedTallies<N>(w: World<N>)
    requires Settled(w.x) && Tallies(w)
    ensures Settled(Received(w).x) && Tallies(Received(w)) && Received(w).x.keepUpdate == w.x.keepUpdate
  {
  }

  lemma AfterTallies<N>(w: World<N>, c: Call<N>)
    requires Settled(w.x) && Tallies(w) && May(w, c)
    ensures Settled(After(w, c).x) && Tallies(After(w, c))
    ensures After(w, c).x.keepUpdate == w.x.keepUpdate
  {
    hide Requested, Received;
    match c
    case Request => RequestedTallies(w);
    case Receive => ReceivedTallies(w);
    case _ =>
  }

  /** In every world a run leads to, with Drop_Use_Node and Node_List_Set_Block among the calls: the nodes
      are conserved, the spare tokens of the use semaphore are exactly the nodes dropped plus the wakeup
      posts less the NULLs that used a token up, and the shadow counters are off by exactly the
      overwrites, the drops and the requests that came back empty. */
  lemma {:induction false} RunLaws<N(!new)>(nodes: seq<N>, keepUpdate: bool, block: bool, calls: seq<Call<N>>,
                                            w: World<N>)
    requires Leads(Start(nodes, keepUpdate, block), calls, w)
    ensures Settled(w.x) && Conserved(w, nodes)
    ensures w.chnUse - |w.x.use| == w.overwrites + w.dropped
    ensures |w.x.free| - w.chnFree == w.overwrites + w.dropped + w.emptyRequests
    ensures w.x.useSem - |w.x.use| == w.dropped + w.wakeups - w.lateNulls >= 0
    ensures w.x.keepUpdate == keepUpdate
    decreases |calls|
  {
    if calls != [] {
      var front, c := calls[..|calls| - 1], calls[|calls| - 1];
      var v :| Leads(Start(nodes, keepUpdate, block), front, v) && Settled(v.x) && May(v, c) && w == After(v, c);
      RunLaws(nodes, keepUpdate, block, front, v);
      AfterTallies(v, c);
      AfterConserved(v, c, nodes);
    }
  }

  /** With neither drops nor empty requests the two shadow counters and the nodes held add up to n. */
  lemma ShadowSum<N(!new)>(nodes: seq<N>, keepUpdate: bool, block: bool, calls: seq<Call<N>>, w: World<N>)
    requires Leads(Start(nodes, keepUpdate, block), calls, w)
    ensures w.chnUse + w.chnFree + |w.producers| + |w.consumers| == |nodes| - w.emptyRequests
  {
    RunLaws(nodes, keepUpdate, block, calls, w);
    HeldCount(w, nodes);
  }

  lemma HeldCount<N>(w: World<N>, nodes: seq<N>)
    requires Conserved(w, nodes)
    ensures |w.x.free| + |w.x.use| + |w.producers| + |w.consumers| == |nodes|
  {
    assert |multiset(w.x.free) + multiset(w.x.use) + w.producers + w.consumers| == |multiset(nodes)|;
  }

  lemma RunCount<N(!new)>(nodes: seq<N>, keepUpdate: bool, block: bool, calls: seq<Call<N>>, w: World<N>)
    requires Leads(Start(nodes, keepUpdate, block), calls, w)
    ensures |w.x.free| + |w.x.use| + |w.producers| + |w.consumers| == |nodes|
    ensures Settled(w.x) && w.x.keepUpdate == keepUpdate
  {
    RunLaws(nodes, keepUpdate, block, calls, w);
    HeldCount(w, nodes);
  }

  /** A producer's request in keep-update mode succeeds exactly when clients hold at most n-1 nodes; it
      gets the oldest free node if there is one, the oldest published one otherwise. */
  lemma Progress<N(!new)>(nodes: seq<N>, block: bool, calls: seq<Call<N>>, w: World<N>)
    requires Leads(Start(nodes, true, block), calls, w)
    ensures Settled(w.x)
    ensures GetFree(w.x).1.Got? <==> |w.producers| + |w.consumers| < |nodes|
    ensures GetFree(w.x).1.Got? ==> GetFree(w.x).1.node == (if w.x.free != [] then w.x.free[0] else w.x.use[0])
  {
    RunCount(nodes, true, block, calls, w);
  }

  /** In non-blocking mode a consumer never waits; in blocking mode it waits exactly when the use list is
      empty and every spare token has been used up. */
  lemma ReceiveWaits<N(!new)>(nodes: seq<N>, keepUpdate: bool, block: bool, calls: seq<Call<N>>, w: World<N>)
    requires Leads(Start(nodes, keepUpdate, block), calls, w)
    ensures GetUse(w.x).1 == Blocks <==> w.x.block && w.x.use == [] && w.dropped + w.wakeups == w.lateNulls
  {
    RunLaws(nodes, keepUpdate, block, calls, w);
  }

  predicate Transfers<N>(c: Call<N>) {
    !c.DropUse? && !c.Block?
  }

  /** A blocking keep-update list without spare tokens */
  predicate Spareless<N>(w: World<N>) {
    && Settled(w.x) && w.x.block && w.x.keepUpdate && w.x.useSem == |w.x.use|
    && w.emptyRequests == w.lateNulls == w.dropped == 0
  }

  lemma RequestedSpareless<N>(w: World<N>)
    requires Spareless(w)
    ensures Spareless(Requested(w))
  {
  }

  lemma ReceivedSpareless<N>(w: World<N>)
    requires Spareless(w)
    ensures Spareless(Received(w))
  {
  }

  lemma AfterSpareless<N>(w: World<N>, c: Call<N>)
    requires Spareless(w) && May(w, c) && Transfers(c)
    ensures Spareless(After(w, c))
  {
    hide Requested, Received;
    match c
    case Request => RequestedSpareless(w);
    case Receive => ReceivedSpareless(w);
    case _ =>
  }

  /** On a list as the channel table sets it up - keep-update, blocking, neither dropped nor switched - no call
      ever gets NULL. */
  lemma {:induction false} NeverNull<N(!new)>(nodes: seq<N>, calls: seq<Call<N>>, w: World<N>)
    requires Leads(Start(nodes, true, true), calls, w) && forall c :: c in calls ==> Transfers(c)
    ensures Spareless(w) && GetUse(w.x).1 != Null && GetFree(w.x).1 != Null
    decreases |calls|
  {
    if calls != [] {
      hide Spareless, After, Requested, Received;
      var front, c := calls[..|calls| - 1], calls[|calls| - 1];
      var v :| Leads(Start(nodes, true, true), front, v) && Settled(v.x) && May(v, c) && w == After(v, c);
      NeverNull(nodes, front, v);
      AfterSpareless(v, c);
    }
    SparelessGets(w);
  }

  lemma SparelessGets<N>(w: World<N>)
    requires Spareless(w)
    ensures Settled(w.x) && GetUse(w.x).1 != Null && GetFree(w.x).1 != Null
  {
  }

  // ----- first in, first out -----

  function PublishAll<N>(x: Exchange<N>, ns: seq<N>): Exchange<N>
    decreases |ns|
  {
    if ns == [] then x else PutUse(PublishAll(x, ns[..|ns| - 1]), ns[|ns| - 1])
  }

  function ReleaseAll<N>(x: Exchange<N>, ns: seq<N>): Exchange<N>
    decreases |ns|
  {
    if ns == [] then x else PutFree(ReleaseAll(x, ns[..|ns| - 1]), ns[|ns| - 1])
  }

  /** What n successive receives and requests come to */
  function Receives<N>(x: Exchange<N>, n: nat): (outs: seq<Outcome<N>>)
    ensures |outs| == n
    decreases n
  {
    if n == 0 then [] else [GetUse(x).1] + Receives(GetUse(x).0, n - 1)
  }

  function Requests<N>(x: Exchange<N>, n: nat): (outs: seq<Outcome<N>>)
    requires Settled(x)
    ensures |outs| == n
    decreases n
  {
    if n == 0 then [] else [GetFree(x).1] + Requests(GetFree(x).0, n - 1)
  }

  lemma {:induction false} PublishedAll<N>(x: Exchange<N>, ns: seq<N>)
    ensures PublishAll(x, ns).use == x.use + ns && PublishAll(x, ns).useSem == x.useSem + |ns|
    decreases |ns|
  {
    if ns != [] {
      PublishedAll(x, ns[..|ns| - 1]);
      assert x.use + ns == x.use + ns[..|ns| - 1] + [ns[|ns| - 1]];
    }
  }

  lemma {:induction false} ReceivedAll<N>(x: Exchange<N>, n: nat)
    requires n <= |x.use| <= x.useSem
    ensures forall k :: 0 <= k < n ==> Receives(x, n)[k] == Got(x.use[k])
    decreases n
  {
    if n > 0 { ReceivedAll(GetUse(x).0, n - 1); }
  }

  /** Nodes are received in the order in which they were published, whatever was on the list before. */
  lemma FirstPublishedFirstReceived<N>(x: Exchange<N>, ns: seq<N>, n: nat)
    requires Settled(x) && n <= |x.use + ns|
    ensures forall k :: 0 <= k < n ==> Receives(PublishAll(x, ns), n)[k] == Got((x.use + ns)[k])
  {
    PublishedAll(x, ns);
    ReceivedAll(PublishAll(x, ns), n);
  }

  lemma {:induction false} ReleasedAll<N>(x: Exchange<N>, ns: seq<N>)
    requires Settled(x)
    ensures Settled(ReleaseAll(x, ns)) && ReleaseAll(x, ns).free == x.free + ns
    decreases |ns|
  {
    if ns != [] {
      ReleasedAll(x, ns[..|ns| - 1]);
      assert x.free + ns == x.free + ns[..|ns| - 1] + [ns[|ns| - 1]];
    }
  }

  lemma {:induction false} RequestedAll<N>(x: Exchange<N>, n: nat)
    requires Settled(x) && n <= |x.free|
    ensures forall k :: 0 <= k < n ==> Requests(x, n)[k] == Got(x.free[k])
    decreases n
  {
    if n > 0 { RequestedAll(GetFree(x).0, n - 1); }
  }

  /** As long as there are free nodes, they are requested in the order in which they were released. */
  lemma FirstReleasedFirstRequested<N>(x: Exchange<N>, ns: seq<N>, n: nat)
    requires Settled(x) && n <= |x.free + ns|
    ensures Settled(ReleaseAll(x, ns))
    ensures forall k :: 0 <= k < n ==> Requests(ReleaseAll(x, ns), n)[k] == Got((x.free + ns)[k])
  {
    ReleasedAll(x, ns);
    RequestedAll(ReleaseAll(x, ns), n);
  }

  /** After Node_List_Set_Block(0) nobody waits on the use list: a consumer waiting at it finds a token, and later
      ones get a node or NULL.  Nodes and counters are not touched, tokens only added. */
  lemma UnblockWakes<N>(x: Exchange<N>)
    requires Settled(x)
    ensures var y := SetBlock(x, false);
            && Settled(y) && !y.block && GetUse(y).1 != Blocks
            && (x.block ==> y.useSem > 0) && y.useSem == (if x.block && x.useSem == 0 then 1 else x.useSem)
            && y.free == x.free && y.use == x.use
    ensures SetBlock(x, true) == x.(block := true)
  {
  }

  /** What a request and a receive do to the shadow counters and to the tallies: a request that does not wait counts
      the free counter down whatever it gets, a receive counts the use counter down for a node; an overwrite
      is a node that a request takes off the use list. */
  lemma GetsCounted<N>(w: World<N>)
    requires Settled(w.x)
    ensures var out, w' := GetFree(w.x).1, After(w, Request);
            && (out == Blocks ==> w' == w)
            && (out != Blocks ==> w'.chnFree == w.chnFree - 1) && w'.chnUse == w.chnUse
            && w'.overwrites == (if out.Got? && |w'.x.use| < |w.x.use| then w.overwrites + 1 else w.overwrites)
            && w'.emptyRequests == (if out == Null then w.emptyRequests + 1 else w.emptyRequests)
            && (w'.lateNulls == w.lateNulls + 1 <==> out == Null && w'.x.useSem < w.x.useSem)
    ensures var out, w' := GetUse(w.x).1, After(w, Receive);
            && (out == Blocks ==> w' == w) && w'.chnFree == w.chnFree
            && w'.chnUse == (if out.Got? then w.chnUse - 1 else w.chnUse)
            && w'.overwrites == w.overwrites && w'.emptyRequests == w.emptyRequests
            && (w'.lateNulls == w.lateNulls + 1 <==> out == Null && w'.x.useSem < w.x.useSem)
  {
  }
}
