/** Messages from smcf2_send_msg to the handler of the module they were sent to. */
module Mailing {
  import opened Core
  import opened MailboxSpec
  import opened MemPool
  import opened MsgQueue
  import opened PoolSpec

  predicate NoneTwice<T(==)>(s: seq<T>) {
    forall i, j :: 0 <= i < j < |s| ==> s[i] != s[j]
  }

  /** A mailbox that holds these messages, all of one priority */
  function BoxOf(priority: nat, posted: seq<Msg>): Box<Msg>
    requires priority < PRIORITIES
  {
    Box(EmptyBox().queues[priority := posted], |posted|)
  }

  /** The messages posted so far are in mailbox k, say what was sent, and none of them is free; besides them, `was` is
      in use. */
  ghost predicate Posted(core: Core, k: nat, priority: nat, posted: seq<Msg>, said: seq<Call>, was: multiset<Msg>)
    requires priority < PRIORITIES
    reads core.msgq, core.msgq.memContext, posted
  {
    && k < |core.msgq.boxes| && core.msgq.boxes[k] == BoxOf(priority, posted) && |posted| == |said|
    && NoneTwice(core.msgq.memContext.freeMsgs)
    && multiset(core.msgq.memContext.useMsgs) == was + multiset(posted)
    && forall i :: 0 <= i < |posted| ==> CallOf(posted[i]) == said[i] && posted[i] !in core.msgq.memContext.freeMsgs
  }

  /** One smcf2_send_msg to an empty or partly filled mailbox */
  method PostOne(core: Core, sender: int, id: int, ghost k: nat, priority: nat, msgid: int, data: seq<int>,
                 ghost posted: seq<Msg>, ghost said: seq<Call>, ghost was: multiset<Msg>)
    returns (ret: int, ghost p: Msg)
    requires core.Mailboxes() && priority < PRIORITIES && |data| == 16 && |posted| < CAPACITY
    requires |core.msgq.bound| <= |core.msgq.qblist| && Lookup(core.msgq.bound, |core.msgq.qblist|, id) == k
    requires Posted(core, k, priority, posted, said, was)
    modifies core.msgq, core.msgq.blocks, core.msgq.memContext.Repr(), core.msgq.memContext.Spare()
    ensures core.Mailboxes() && ret == 0 && core.msgq.bound == old(core.msgq.bound)
    ensures forall o :: o in core.msgq.memContext.Repr() ==> o in old(core.msgq.memContext.Repr()) || fresh(o)
    ensures Posted(core, k, priority, posted + [p], said + [Call(sender, msgid, data)], was)
    ensures forall m :: m in core.msgq.memContext.Spare() ==> m in old(core.msgq.memContext.Spare())
  {
    hide MsgqContext.Filled, MsgqContext.Marked, MsgqContext.Pooled, MemContext.Repr, Lookup, Free;
    core.msgq.NoMessageInside();
    ret, p := core.msgq.SendMsg(sender, id, priority, msgid, data);
  }

  /** Messages of one priority sent one after the other, and then as many rounds of the receiver's message
      loop: with at most 128 of them for an empty mailbox, its handler is called with exactly what was
      sent, in this order, and afterwards exactly the messages in use before are. */
  method Converse(core: Core, sender: int, id: int, priority: nat, items: seq<Call>) returns (calls: seq<Call>)
    requires core.Mailboxes() && priority < PRIORITIES && |items| <= CAPACITY
    requires forall c :: c in items ==> c.sender == sender && |c.data| == 16
    requires |core.msgq.bound| <= |core.msgq.qblist| == |core.msgq.boxes|
    requires var k := Lookup(core.msgq.bound, |core.msgq.qblist|, id);
             0 <= k < |core.msgq.qblist| && core.msgq.boxes[k] == EmptyBox()
    requires NoneTwice(core.msgq.memContext.freeMsgs)
    modifies core.msgq, core.msgq.blocks, core.msgq.memContext.Repr(), core.msgq.memContext.Spare()
    ensures core.Mailboxes() && core.msgq.bound == old(core.msgq.bound)
    ensures fresh(core.msgq.memContext.Repr() - old(core.msgq.memContext.Repr()))
    ensures calls == items
    ensures multiset(core.msgq.memContext.useMsgs) == old(multiset(core.msgq.memContext.useMsgs))
  {
    hide Core.Mailboxes, Posted, Lookup, MemContext.Repr, MemContext.Spare, ReadOrder, Shape, FreeAll, Order, Says,
         Core.Said;
    ghost var k := Lookup(core.msgq.bound, |core.msgq.qblist|, id);
    ghost var posted: seq<Msg> := [];
    ghost var was := multiset(core.msgq.memContext.useMsgs);
    StartPosting(core, k, priority);
    var i := 0;
    assert items[..0] == [];
    while i < |items|
      invariant 0 <= i <= |items| && core.Mailboxes() && core.msgq.bound == old(core.msgq.bound)
      invariant |posted| == i && Posted(core, k, priority, posted, items[..i], was)
      invariant forall o :: o in core.msgq.memContext.Repr() ==> o in old(core.msgq.memContext.Repr()) || fresh(o)
      invariant forall m :: m in core.msgq.memContext.Spare() ==> m in old(core.msgq.memContext.Spare())
    {
      var ret, p := PostOne(core, sender, id, k, priority, items[i].msgid, items[i].data, posted, items[..i],
                            was);
      posted := posted + [p];
      assert items[..i + 1] == items[..i] + [Call(sender, items[i].msgid, items[i].data)];
      i := i + 1;
    }
    assert items[..i] == items;
    SaidPosted(core, k, priority, posted, items, was);
    hide Handled;
    ghost var mail := core.Mailed();
    calls := core.MessageLoop(id, |items|);
    AllHandled(k, mail, items, core.Mailed(), calls, posted, was);
  }

  lemma AllHandled(k: int, s0: Mail, says: seq<Call>, s: Mail, calls: seq<Call>, posted: seq<Msg>, was: multiset<Msg>)
    requires Handled(k, s0, says, |says|, s, calls) && k >= 0 && ReadOrder(s0.boxes[k]) == posted
    requires s0.boxes[k].sem == |says| == |posted| && multiset(s0.pool.use) == was + multiset(posted)
    ensures calls == says && multiset(s.pool.use) == was
  {
    assert posted[..|posted|] == posted && says[..|says|] == says;
    FreeAllUse(s0.pool, posted);
  }

  lemma StartPosting(core: Core, k: nat, priority: nat)
    requires priority < PRIORITIES && k < |core.msgq.boxes| && core.msgq.boxes[k] == EmptyBox()
    requires NoneTwice(core.msgq.memContext.freeMsgs)
    ensures Posted(core, k, priority, [], [], multiset(core.msgq.memContext.useMsgs))
  {
    assert EmptyBox().queues[priority := []] == EmptyBox().queues;
  }

  /** What the message loop is about to say */
  lemma SaidPosted(core: Core, k: nat, priority: nat, posted: seq<Msg>, said: seq<Call>,
                   was: multiset<Msg>)
    requires priority < PRIORITIES && Posted(core, k, priority, posted, said, was) && |posted| <= CAPACITY
    ensures k < |core.msgq.boxes| && Shape(core.msgq.boxes[k]) && core.msgq.boxes[k].sem == |said|
    ensures ReadOrder(core.msgq.boxes[k]) == posted && |posted| == |said| && core.Said(k) == said
    ensures multiset(core.msgq.memContext.useMsgs) == was + multiset(posted)
  {
    assert ReadOrder(BoxOf(priority, posted)) == posted;
  }
}
