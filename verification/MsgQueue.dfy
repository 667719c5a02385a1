/** The mailbox objects of src/async_msg.c: rings, blocks and the context, refining MailboxSpec. */
module MsgQueue {
  import opened MailboxSpec
  import opened PoolSpec
  import opened MemPool

  const MSGQ_STATE_FREE := 0
  const MSGQ_STATE_USE := 1

  /** The slot i places after `head` in a ring. */
  function Slot(head: int, i: int): int {
    if head + i < CAPACITY then head + i else head + i - CAPACITY
  }

  /** msgq_t: the messages of one priority in a circular buffer */
  class Ring {
    var msgs: int
    var head: int
    var tail: int
    const pmsg: array<Msg?>

    ghost var queue: seq<Msg>

    ghost predicate Valid()
      reads this, pmsg
    {
      && pmsg.Length == CAPACITY
      && 0 <= msgs == |queue| <= CAPACITY
      && 0 <= head < CAPACITY
      && tail == Slot(head, msgs)
      && forall i {:trigger queue[i]} :: 0 <= i < msgs ==> pmsg[Slot(head, i)] == queue[i]
    }

    constructor ()
      ensures Valid() && queue == [] && fresh(pmsg)
    {
      msgs, head, tail := 0, 0, 0;
      pmsg := new Msg?[CAPACITY](_ => null);
      queue := [];
    }

    /** Zeroed by memset */
    method Clear()
      requires Valid()
      modifies this, pmsg
      ensures Valid() && queue == []
    {
      msgs, head, tail := 0, 0, 0;
      forall i | 0 <= i < pmsg.Length {
        pmsg[i] := null;
      }
      queue := [];
    }

    /** The position of the tail in closed form */
    lemma TailModulo()
      requires Valid()
      ensures tail == (head + msgs) % CAPACITY
    {
    }

    /** The first half of write_msg on a full ring, and the taking of read_msg: give up the oldest. */
    method TakeOldest() returns (m: Msg)
      requires Valid() && msgs > 0
      modifies this
      ensures Valid() && m == old(queue)[0] && queue == old(queue)[1..]
    {
      assert Slot(head, 0) == head && pmsg[Slot(head, 0)] == queue[0];
      m := pmsg[head];
      assert forall i :: 0 <= i < msgs - 1 ==> queue[1..][i] == queue[i + 1] == pmsg[Slot(head, i + 1)];
      head := if head + 1 == CAPACITY then 0 else head + 1;
      msgs := msgs - 1;
      queue := queue[1..];
    }

    /** The second half of write_msg: store at the tail. */
    method Store(m: Msg)
      requires Valid() && msgs < CAPACITY
      modifies this, pmsg
      ensures Valid() && queue == old(queue) + [m]
    {
      assert forall i :: 0 <= i < msgs ==> Slot(head, i) != tail && pmsg[Slot(head, i)] == queue[i];
      pmsg[tail] := m;
      tail := if tail + 1 == CAPACITY then 0 else tail + 1;
      msgs := msgs + 1;
      queue := queue + [m];
    }
  }

  function EmptyBox(): (b: Box<Msg>)
    ensures Shape(b) && Queued(b) == 0 && b.sem == 0
  {
    Box([[], [], []], 0)
  }

  /** msgq_block_t: the mailbox of one module */
  class Block {
    var state: int
    var moduleId: int
    var sem: nat
    // msgq[3]
    const high: Ring
    const middle: Ring
    const low: Ring

    function Msgq(priority: int): Ring {
      if priority == 0 then high else if priority == 1 then middle else low
    }

    /** This block, its rings and their arrays */
    ghost const region: set<object>

    ghost predicate Valid()
      reads this, region
    {
      && {this, high, high.pmsg, middle, middle.pmsg, low, low.pmsg} <= region
      && high != middle && high != low && middle != low
      && high.pmsg != middle.pmsg && high.pmsg != low.pmsg && middle.pmsg != low.pmsg
      && high.Valid() && middle.Valid() && low.Valid()
    }

    ghost function Abs(): (b: Box<Msg>)
      requires Valid()
      reads this, region
      ensures Shape(b)
    {
      Box([high.queue, middle.queue, low.queue], sem)
    }

    /** As zeroed by msgq_init */
    ghost predicate Zero()
      reads this, region
    {
      Valid() && state == MSGQ_STATE_FREE && moduleId == 0 && Abs() == EmptyBox()
    }

    constructor ()
      ensures Zero() && fresh(region) && this in region && forall o: object :: o in region ==> !(o is Msg)
    {
      state, moduleId, sem := MSGQ_STATE_FREE, 0, 0;
      var h := new Ring();
      var m := new Ring();
      var l := new Ring();
      high, middle, low := h, m, l;
      region := {this, h, h.pmsg, m, m.pmsg, l, l.pmsg};
    }

    /** What msgq_bind makes of a block: zeroed again, in use, with a fresh semaphore. */
    method Reset(id: int)
      requires Valid()
      modifies region
      ensures Valid() && state == MSGQ_STATE_USE && moduleId == id && Abs() == EmptyBox()
    {
      high.Clear();
      middle.Clear();
      low.Clear();
      state := MSGQ_STATE_USE;
      moduleId := id;
      sem := 0;
    }

    /** What write_msg does to a full ring before it stores. */
    method Evict(pri: nat) returns (victim: Msg)
      requires Valid() && pri < PRIORITIES && |Abs().queues[pri]| > 0
      modifies region
      ensures Valid() && victim == old(Abs()).queues[pri][0]
      ensures Abs() == old(Abs()).(queues := old(Abs()).queues[pri := old(Abs()).queues[pri][1..]])
      ensures state == old(state) && moduleId == old(moduleId)
    {
      victim := Msgq(pri).TakeOldest();
    }

    method Append(pri: nat, m: Msg)
      requires Valid() && pri < PRIORITIES && |Abs().queues[pri]| < CAPACITY
      modifies region
      ensures Valid() && state == old(state) && moduleId == old(moduleId)
      ensures Abs() == old(Abs()).(queues := old(Abs()).queues[pri := old(Abs()).queues[pri] + [m]])
    {
      Msgq(pri).Store(m);
    }

    method Post()
      requires Valid()
      modifies region
      ensures Valid() && state == old(state) && moduleId == old(moduleId)
      ensures Abs() == old(Abs()).(sem := old(Abs()).sem + 1)
    {
      sem := sem + 1;
    }

    /** read_msg once the block is found */
    method Fetch() returns (out: Outcome<Msg>)
      requires Valid()
      modifies region
      ensures Valid() && state == old(state) && moduleId == old(moduleId)
      ensures Abs() == Read(old(Abs())).0 && out == Read(old(Abs())).1
    {
      if sem == 0 {
        return Waits;
      }
      sem := sem - 1;
      var m := Take();
      if m == null {
        return NoMessage;
      }
      return Message(m);
    }

    /** The locked part of read_msg: the front of the highest non-empty priority. */
    method Take() returns (m: Msg?)
      requires Valid()
      modifies region
      ensures Valid() && state == old(state) && moduleId == old(moduleId)
      ensures var b := old(Abs());
              if b.queues[0] != [] then
                m == b.queues[0][0] && Abs() == b.(queues := b.queues[0 := b.queues[0][1..]])
              else if b.queues[1] != [] then
                m == b.queues[1][0] && Abs() == b.(queues := b.queues[1 := b.queues[1][1..]])
              else if b.queues[2] != [] then
                m == b.queues[2][0] && Abs() == b.(queues := b.queues[2 := b.queues[2][1..]])
              else m == null && Abs() == b
    {
      var priority := 0;
      while priority < PRIORITIES
        invariant 0 <= priority <= PRIORITIES
        invariant forall p :: 0 <= p < priority ==> Abs().queues[p] == []
        invariant Valid() && Abs() == old(Abs()) && state == old(state) && moduleId == old(moduleId)
      {
        if Msgq(priority).msgs != 0 {
          assert Abs().queues[priority] == Msgq(priority).queue;
          m := Msgq(priority).TakeOldest();
          return;
        }
        assert Abs().queues[priority] == Msgq(priority).queue;
        priority := priority + 1;
      }
      return null;
    }
  }

  /** The block a module id leads to when the modules `bound` have been bound to the first blocks of n, in
      this order: lookups compare ids only, and an unbound block's id is zero. */
  function Lookup(bound: seq<int>, n: nat, id: int): int
    requires |bound| <= n
  {
    if id in bound then First(bound, id) else if id == 0 && |bound| < n then |bound| else -1
  }

  function First(s: seq<int>, x: int): (i: nat)
    requires x in s
    ensures i < |s| && s[i] == x && x !in s[..i]
  {
    if s[0] == x then 0 else 1 + First(s[1..], x)
  }

  /** Although lookups ignore the state of a block: with distinct ids every bound module leads to exactly
      its own block, different modules to different blocks; an unbound id leads nowhere, unless it is 0
      and a block is left. */
  lemma LookupFindsOwn(bound: seq<int>, n: nat, i: nat, id: int)
    requires i < |bound| <= n && forall j, k :: 0 <= j < k < |bound| ==> bound[j] != bound[k]
    ensures Lookup(bound, n, bound[i]) == i
    ensures id !in bound ==> (Lookup(bound, n, id) == -1 <==> id != 0 || |bound| == n)
    ensures id !in bound && id == 0 && |bound| < n ==> Lookup(bound, n, id) == |bound|
    ensures id in bound && id != bound[i] ==> Lookup(bound, n, id) != i
  {
    var j := First(bound, bound[i]);
    assert bound[j] == bound[i];
  }

  /** A queue with a slot to spare */
  function Spared(q: seq<Msg>): seq<Msg> {
    if |q| == CAPACITY then q[1..] else q
  }

  /** msgq_context_t */
  class MsgqContext {
    const qblist: seq<Block>
    const memContext: MemContext

    /** The modules bound so far, in order, and the contents of every block */
    ghost var bound: seq<int>
    ghost var boxes: seq<Box<Msg>>

    /** All blocks with what belongs to them */
    ghost const blocks: set<object>

    /** Blocks share nothing with each other, and no message is part of one. */
    ghost predicate Laid() {
      && (forall i :: 0 <= i < |qblist| ==> qblist[i] in qblist[i].region && qblist[i].region <= blocks - {this})
      && (forall i, j :: 0 <= i < j < |qblist| ==> qblist[i].region !! qblist[j].region)
      && (forall o: object :: o in blocks ==> !(o is Msg))
    }

    ghost predicate Filled()
      reads this, blocks
    {
      && Laid() && |boxes| == |qblist|
      && (forall i {:trigger boxes[i]} :: 0 <= i < |boxes| ==> Shape(boxes[i]))
      && forall i :: 0 <= i < |qblist| ==> Holds(i)
    }

    ghost predicate Holds(i: nat)
      requires i < |qblist| && i < |boxes|
      reads this, qblist[i], qblist[i].region
    {
      qblist[i].Valid() && qblist[i].Abs() == boxes[i]
    }

    /** The bound blocks come first, in bind order; the rest are free and carry id zero. */
    ghost predicate Marked()
      reads this, qblist
    {
      && |bound| <= |qblist|
      && forall i :: 0 <= i < |qblist| ==> Mark(i)
    }

    ghost predicate Mark(i: nat)
      requires i < |qblist|
      reads this, qblist[i]
    {
      if i < |bound| then qblist[i].state == MSGQ_STATE_USE && qblist[i].moduleId == bound[i]
      else qblist[i].state == MSGQ_STATE_FREE && qblist[i].moduleId == 0
    }

    ghost predicate Pooled()
      reads this, memContext, memContext.Repr()
    {
      this !in memContext.Repr() && blocks !! memContext.Repr() && memContext.Valid()
    }

    /** What Filled and Marked say of block k */
    lemma BlockAt(k: nat)
      requires Filled() && Marked() && k < |qblist|
      ensures |bound| <= |boxes| == |qblist| && Shape(boxes[k]) && qblist[k] in qblist[k].region
      ensures qblist[k].region <= blocks && this !in qblist[k].region
      ensures qblist[k].Valid() && qblist[k].Abs() == boxes[k] && Mark(k)
      ensures forall o: object :: o in blocks ==> !(o is Msg)
    {
      assert Holds(k) && Mark(k);
    }

    /** Working on one block leaves the others as they were. */
    twostate lemma OthersKept(k: nat)
      requires old(Filled() && Marked()) && k < |qblist| && bound == old(bound)
      requires forall o :: o in blocks && o != this && o !in qblist[k].region ==> unchanged(o)
      requires qblist[k].Valid() && boxes == old(boxes)[k := qblist[k].Abs()] && Mark(k)
      ensures Filled() && Marked()
    {
      hide Block.Valid, Block.Abs;
      forall i | 0 <= i < |qblist| ensures Holds(i) && Mark(i) {
        assert old(Holds(i)) && old(Mark(i));
        if i != k {
          assert forall o :: o in qblist[i].region ==> o in blocks && o != this && o !in qblist[k].region;
          assert qblist[i] in qblist[i].region;
        }
      }
    }

    /** A context over zeroed blocks, as msgq_init lays it out */
    constructor (list: seq<Block>, ghost all: set<object>)
      requires forall i :: 0 <= i < |list| ==> list[i].Zero() && list[i] in list[i].region && list[i].region <= all
      requires forall i, j :: 0 <= i < j < |list| ==> list[i].region !! list[j].region
      requires forall o: object :: o in all ==> !(o is Msg)
      ensures Filled() && Marked() && Pooled() && qblist == list && blocks == all && fresh(this)
      ensures fresh(memContext.Repr()) && memContext.Abs() == Pool([], [])
      ensures bound == [] && boxes == seq(|list|, _ => EmptyBox())
    {
      hide Block.Valid, Block.Abs, MemContext.Valid;
      qblist := list;
      blocks := all;
      memContext := new MemContext();
      bound := [];
      boxes := seq(|list|, _ => EmptyBox());
      new;
      assert forall i :: 0 <= i < |list| ==> list[i].Zero();
      assert forall i :: 0 <= i < |list| ==> Holds(i);
      assert forall i :: 0 <= i < |list| ==> Mark(i);
    }

    /** get_free_msgqb_id */
    method GetFreeMsgqbId() returns (qbid: int)
      requires Marked()
      ensures |bound| <= |qblist| && qbid == if |bound| < |qblist| then |bound| else -1
    {
      qbid := 0;
      while qbid < |qblist|
        invariant 0 <= qbid <= |bound|
      {
        assert Mark(qbid);
        if qblist[qbid].state == MSGQ_STATE_FREE {
          return;
        }
        qbid := qbid + 1;
      }
      return -1;
    }

    /** get_msgqb_by_module_id, which compares ids and ignores the state */
    method GetMsgqbByModuleId(moduleId: int) returns (qbid: int)
      requires Marked()
      ensures |bound| <= |qblist| && -1 <= qbid < |qblist| && qbid == Lookup(bound, |qblist|, moduleId)
    {
      qbid := 0;
      while qbid < |qblist|
        invariant 0 <= qbid <= |qblist|
        invariant forall i :: 0 <= i < qbid ==> qblist[i].moduleId != moduleId
      {
        if qblist[qbid].moduleId == moduleId {
          Found(moduleId, qbid);
          return;
        }
        qbid := qbid + 1;
      }
      NotFound(moduleId);
      return -1;
    }

    lemma Found(moduleId: int, k: nat)
      requires Marked() && k < |qblist| && qblist[k].moduleId == moduleId
      requires forall i :: 0 <= i < k ==> qblist[i].moduleId != moduleId
      ensures Lookup(bound, |qblist|, moduleId) == k
    {
      assert Mark(k);
      if moduleId in bound {
        var j := First(bound, moduleId);
        assert Mark(j);
        assert k < |bound| ==> bound[k] == moduleId;
      } else {
        assert |bound| < |qblist| ==> Mark(|bound|);
      }
    }

    lemma NotFound(moduleId: int)
      requires Marked() && forall i :: 0 <= i < |qblist| ==> qblist[i].moduleId != moduleId
      ensures Lookup(bound, |qblist|, moduleId) == -1
    {
      forall i | 0 <= i < |bound| ensures bound[i] != moduleId {
        assert Mark(i);
      }
      if |bound| < |qblist| { assert Mark(|bound|); }
    }

    /** msgq_bind: the first free block, or -1 when every block is taken. */
    method MsgqBind(moduleId: int) returns (qbid: int)
      requires Filled() && Marked()
      modifies this, blocks
      ensures Filled() && Marked()
      ensures if |old(bound)| < |qblist| then
                qbid == |old(bound)| && bound == old(bound) + [moduleId]
                && |old(boxes)| == |qblist| && boxes == old(boxes)[qbid := EmptyBox()]
              else qbid == -1 && bound == old(bound) && boxes == old(boxes)
    {
      hide Filled, Marked;
      qbid := GetFreeMsgqbId();
      if qbid == -1 {
        return;
      }
      BindAt(qbid, moduleId);
    }

    method BindAt(qbid: nat, moduleId: int)
      requires Filled() && Marked() && qbid == |bound| < |qblist|
      modifies this, blocks
      ensures Filled() && Marked() && |old(boxes)| == |qblist|
      ensures bound == old(bound) + [moduleId] && boxes == old(boxes)[qbid := EmptyBox()]
    {
      hide Block.Valid, Block.Abs;
      assert Holds(qbid);
      qblist[qbid].Reset(moduleId);
      boxes := boxes[qbid := EmptyBox()];
      bound := bound + [moduleId];
      forall i | 0 <= i < |qblist| ensures Holds(i) && Mark(i) {
        assert old(Holds(i)) && old(Mark(i));
        if i != qbid {
          assert forall o :: o in qblist[i].region ==> o !in qblist[qbid].region;
          assert qblist[i] in qblist[i].region;
        }
      }
    }

    /** write_msg: -1 for a receiver no block leads to; otherwise the message joins its queue, a full queue
        giving its oldest message back to the pool, and a token is posted in either case. */
    method WriteMsg(msg: Msg, priority: nat) returns (ret: int)
      requires Filled() && Marked() && Pooled() && priority < PRIORITIES
      modifies this, blocks, memContext.Repr()
      ensures Filled() && Marked() && Pooled() && bound == old(bound) && memContext.Repr() == old(memContext.Repr())
      ensures var k := Lookup(bound, |qblist|, old(msg.receiver));
              if k == -1 then ret == -1 && boxes == old(boxes) && memContext.Abs() == old(memContext.Abs())
              else
                var (box, victim) := Write(old(boxes)[k], priority, msg);
                ret == 0 && boxes == old(boxes)[k := box]
                && memContext.Abs() == if victim.Dropped? then Free(old(memContext.Abs()), victim.m)
                  else old(memContext.Abs())
    {
      var qbid := GetMsgqbByModuleId(msg.receiver);
      if qbid == -1 {
        return -1;
      }
      StoreAt(qbid, msg, priority);
      return 0;
    }

    /** The locked part of write_msg and its post, once the block is found. */
    method StoreAt(qbid: nat, msg: Msg, priority: nat)
      requires Filled() && Marked() && Pooled() && qbid < |qblist| && priority < PRIORITIES
      modifies this, blocks, memContext.Repr()
      ensures Filled() && Marked() && Pooled() && bound == old(bound) && memContext.Repr() == old(memContext.Repr())
      ensures var (box, victim) := Write(old(boxes)[qbid], priority, msg);
              boxes == old(boxes)[qbid := box]
              && memContext.Abs() == if victim.Dropped? then Free(old(memContext.Abs()), victim.m)
                                     else old(memContext.Abs())
    {
      hide Filled, Pooled, Marked, Free;
      BlockAt(qbid);
      ghost var q := Spared(boxes[qbid].queues[priority]);
      MakeRoom(qbid, priority);
      AppendAt(qbid, priority, msg);
      PostAt(qbid);
      assert boxes[qbid].queues == old(boxes)[qbid].queues[priority := q + [msg]];
    }

    /** A full ring gives up its oldest message, which goes back to the pool. */
    method MakeRoom(qbid: nat, priority: nat)
      requires Filled() && Marked() && Pooled() && qbid < |qblist| && priority < PRIORITIES
      modifies this, blocks, memContext.Repr()
      ensures Filled() && Marked() && Pooled() && bound == old(bound) && memContext.Repr() == old(memContext.Repr())
      ensures |old(boxes)| == |qblist| && Shape(old(boxes)[qbid])
      ensures var b := old(boxes)[qbid];
              boxes == old(boxes)[qbid := b.(queues := b.queues[priority := Spared(b.queues[priority])])]
      ensures var q := old(boxes)[qbid].queues[priority];
              memContext.Abs() == if |q| == CAPACITY then Free(old(memContext.Abs()), q[0]) else old(memContext.Abs())
    {
      hide Filled, Pooled, Marked, Free;
      BlockAt(qbid);
      var full := IsFull(qbid, priority);
      if full {
        var victim := EvictAt(qbid, priority);
        FreeMsg(victim);
      } else {
        ghost var b := boxes[qbid];
        assert b.queues[priority := b.queues[priority]] == b.queues && boxes[qbid := b] == boxes;
      }
    }

    /** Whether the ring of this priority has no slot left */
    method IsFull(qbid: nat, priority: nat) returns (full: bool)
      requires Filled() && qbid < |qblist| && priority < PRIORITIES
      ensures qbid < |boxes| && Shape(boxes[qbid]) && full == (|boxes[qbid].queues[priority]| == CAPACITY)
    {
      assert Holds(qbid);
      full := qblist[qbid].Msgq(priority).msgs == CAPACITY;
    }

    method EvictAt(qbid: nat, priority: nat) returns (victim: Msg)
      requires Filled() && Marked() && Pooled() && qbid < |qblist| && priority < PRIORITIES
      requires |boxes[qbid].queues[priority]| > 0
      modifies this, blocks
      ensures |boxes| == |qblist| && Shape(boxes[qbid])
      ensures Filled() && Marked() && Pooled() && bound == old(bound) && memContext.Repr() == old(memContext.Repr())
      ensures memContext.Abs() == old(memContext.Abs())
      ensures victim == old(boxes)[qbid].queues[priority][0]
      ensures var b := old(boxes)[qbid];
              boxes == old(boxes)[qbid := b.(queues := b.queues[priority := b.queues[priority][1..]])]
    {
      hide Filled, Marked, Holds, Block.Valid, Block.Abs, MemContext.Valid;
      BlockAt(qbid);
      victim := qblist[qbid].Evict(priority);
      boxes := boxes[qbid := qblist[qbid].Abs()];
      OthersKept(qbid);
    }

    method AppendAt(qbid: nat, priority: nat, m: Msg)
      requires Filled() && Marked() && Pooled() && qbid < |qblist| && priority < PRIORITIES
      requires |boxes[qbid].queues[priority]| < CAPACITY
      modifies this, blocks
      ensures |boxes| == |qblist| && Shape(boxes[qbid])
      ensures Filled() && Marked() && Pooled() && bound == old(bound) && memContext.Repr() == old(memContext.Repr())
      ensures memContext.Abs() == old(memContext.Abs())
      ensures var b := old(boxes)[qbid];
              boxes == old(boxes)[qbid := b.(queues := b.queues[priority := b.queues[priority] + [m]])]
    {
      hide Filled, Marked, Holds, Block.Valid, Block.Abs, MemContext.Valid;
      BlockAt(qbid);
      qblist[qbid].Append(priority, m);
      boxes := boxes[qbid := qblist[qbid].Abs()];
      OthersKept(qbid);
    }

    method PostAt(qbid: nat)
      requires Filled() && Marked() && Pooled() && qbid < |qblist|
      modifies this, blocks
      ensures |boxes| == |qblist| && Shape(boxes[qbid])
      ensures Filled() && Marked() && Pooled() && bound == old(bound) && memContext.Repr() == old(memContext.Repr())
      ensures memContext.Abs() == old(memContext.Abs())
      ensures boxes == old(boxes)[qbid := old(boxes)[qbid].(sem := old(boxes)[qbid].sem + 1)]
    {
      hide Filled, Marked, Holds, Block.Valid, Block.Abs, MemContext.Valid;
      BlockAt(qbid);
      qblist[qbid].Post();
      boxes := boxes[qbid := qblist[qbid].Abs()];
      OthersKept(qbid);
    }

    /** read_msg: NULL at once for a module no block leads to, otherwise what its mailbox yields. */
    method ReadMsg(receiver: int) returns (out: Outcome<Msg>)
      requires Filled() && Marked() && Pooled()
      modifies this, blocks
      ensures Filled() && Marked() && Pooled() && bound == old(bound)
      ensures memContext.Abs() == old(memContext.Abs()) && memContext.Repr() == old(memContext.Repr())
      ensures var k := Lookup(bound, |qblist|, receiver);
              if k == -1 then out == NoMessage && boxes == old(boxes)
              else out == Read(old(boxes)[k]).1 && boxes == old(boxes)[k := Read(old(boxes)[k]).0]
    {
      hide Filled, Marked, MemContext.Valid, Read;
      var qbid := GetMsgqbByModuleId(receiver);
      if qbid == -1 {
        return NoMessage;
      }
      out := FetchAt(qbid);
    }

    method FetchAt(qbid: nat) returns (out: Outcome<Msg>)
      requires Filled() && Marked() && Pooled() && qbid < |qblist|
      modifies this, blocks
      ensures Filled() && Marked() && Pooled() && bound == old(bound) && memContext.Repr() == old(memContext.Repr())
      ensures |old(boxes)| == |qblist| && Shape(old(boxes)[qbid])
      ensures out == Read(old(boxes)[qbid]).1 && boxes == old(boxes)[qbid := Read(old(boxes)[qbid]).0]
      ensures memContext.Abs() == old(memContext.Abs())
    {
      hide Filled, Marked, Holds, Block.Valid, Block.Abs, MemContext.Valid, Read;
      BlockAt(qbid);
      out := qblist[qbid].Fetch();
      boxes := boxes[qbid := qblist[qbid].Abs()];
      OthersKept(qbid);
    }

    /** alloc_msg */
    method AllocMsg() returns (m: Msg)
      requires Filled() && Marked() && Pooled()
      modifies memContext.Repr()
      ensures Filled() && Marked() && Pooled() && bound == old(bound) && boxes == old(boxes)
      ensures fresh(memContext.Repr() - old(memContext.Repr()))
      ensures old(memContext.freeMsgs) == [] ==> fresh(m)
      ensures memContext.Abs() == Alloc(old(memContext.Abs()), m).0 && m == Alloc(old(memContext.Abs()), m).1
    {
      hide Block.Valid, Block.Abs, MemContext.Valid;
      m := memContext.MemAlloc();
      assert forall i :: 0 <= i < |qblist| ==> old(Holds(i)) && old(Mark(i));
    }

    /** free_msg */
    method FreeMsg(m: Msg)
      requires Filled() && Marked() && Pooled()
      modifies memContext.Repr()
      ensures Filled() && Marked() && Pooled() && bound == old(bound) && boxes == old(boxes)
      ensures memContext.Repr() == old(memContext.Repr()) && memContext.Abs() == Free(old(memContext.Abs()), m)
    {
      hide Block.Valid, Block.Abs, MemContext.Valid;
      memContext.MemFree(m);
      assert forall i :: 0 <= i < |qblist| ==> old(Holds(i)) && old(Mark(i));
    }

    /** smcf2_send_msg: the message object is the most recently freed one or a new one, says what the caller
        gave, and goes the way of write_msg; no other message object is written. */
    method SendMsg(sender: int, receiver: int, priority: nat, msgid: int, data: seq<int>)
      returns (ret: int, ghost p: Msg)
      requires Filled() && Marked() && Pooled() && priority < PRIORITIES && |data| == 16
      modifies this, blocks, memContext.Repr(), memContext.Spare()
      ensures Filled() && Marked() && Pooled() && bound == old(bound)
      ensures fresh(memContext.Repr() - old(memContext.Repr()))
      ensures forall m :: m in Units(memContext.Abs()) ==> m in old(Units(memContext.Abs())) || fresh(m)
      ensures p == Alloc(old(memContext.Abs()), p).1 && (old(memContext.freeMsgs) == [] ==> fresh(p))
      ensures p.sender == sender && p.receiver == receiver && p.msgid == msgid && p.data == data
      ensures forall m :: m in old(memContext.freeMsgs) && m != p ==> unchanged(m)
      ensures var k, pool := Lookup(bound, |qblist|, receiver), Alloc(old(memContext.Abs()), p).0;
              if k == -1 then ret == -1 && boxes == old(boxes) && memContext.Abs() == pool
              else
                var (box, victim) := Write(old(boxes)[k], priority, p);
                ret == 0 && boxes == old(boxes)[k := box]
                && memContext.Abs() == if victim.Dropped? then Free(pool, victim.m) else pool
    {
      hide Filled, Pooled, Marked, Lookup, Write, Alloc, Free, Units;
      AllShaped();
      var msg := Compose(sender, receiver, msgid, data);
      NoMessageInside();
      ret := WriteMsg(msg, priority);
      p := msg;
      UnitsSent(old(memContext.Abs()), msg, old(boxes), receiver, priority);
    }

    lemma UnitsSent(pool: Pool<Msg>, m: Msg, was: seq<Box<Msg>>, receiver: int, priority: nat)
      requires |bound| <= |qblist| == |was| && (forall b :: b in was ==> Shape(b)) && priority < PRIORITIES
      ensures Units(Alloc(pool, m).0) <= Units(pool) + {Alloc(pool, m).1}
      ensures (pool.free != [] ==> Alloc(pool, m).1 in Units(pool)) && -1 <= Lookup(bound, |qblist|, receiver) < |was|
      ensures var k := Lookup(bound, |qblist|, receiver);
              0 <= k < |was| && Write(was[k], priority, m).1.Dropped? ==>
                Units(Free(Alloc(pool, m).0, Write(was[k], priority, m).1.m)) <= Units(pool) + {Alloc(pool, m).1}
    {
      UnitsStay(pool, m, m);
      var k := Lookup(bound, |qblist|, receiver);
      if 0 <= k < |was| && Write(was[k], priority, m).1.Dropped? {
        UnitsStay(Alloc(pool, m).0, m, Write(was[k], priority, m).1.m);
      }
    }

    /** The message object with what the caller gave in it */
    method Compose(sender: int, receiver: int, msgid: int, data: seq<int>) returns (msg: Msg)
      requires Filled() && Marked() && Pooled()
      modifies memContext.Repr(), memContext.Spare()
      ensures Filled() && Marked() && Pooled() && bound == old(bound) && boxes == old(boxes)
      ensures fresh(memContext.Repr() - old(memContext.Repr()))
      ensures memContext.Abs() == Alloc(old(memContext.Abs()), msg).0 && msg == Alloc(old(memContext.Abs()), msg).1
      ensures old(memContext.freeMsgs) == [] ==> fresh(msg)
      ensures msg.sender == sender && msg.receiver == receiver && msg.msgid == msgid && msg.data == data
      ensures forall m :: m in old(memContext.freeMsgs) && m != msg ==> unchanged(m)
    {
      hide Filled, Pooled, Marked;
      NoMessageInside();
      msg := AllocMsg();
      FillIn(msg, sender, receiver, msgid, data);
    }

    lemma AllShaped()
      requires Filled()
      ensures |boxes| == |qblist| && forall b :: b in boxes ==> Shape(b)
    {
    }

    lemma NoMessageInside()
      requires Filled()
      ensures forall o: object :: o in blocks || o in memContext.Repr() || o == this ==> !(o is Msg)
    {
    }

    method FillIn(msg: Msg, sender: int, receiver: int, msgid: int, data: seq<int>)
      requires Filled() && Marked() && Pooled()
      modifies msg
      ensures Filled() && Marked() && Pooled()
      ensures msg.sender == sender && msg.receiver == receiver && msg.msgid == msgid && msg.data == data
    {
      hide Filled, Marked, Pooled;
      NoMessageInside();
      msg.sender, msg.receiver, msg.msgid, msg.data := sender, receiver, msgid, data;
    }
  }

  /** msgq_init, which bounds the number of blocks by the size of a ring */
  method MsgqInit(qbNum: int) returns (context: MsgqContext?)
    ensures context == null <==> qbNum <= 0 || qbNum > CAPACITY
    ensures context != null ==>
      && context.Filled() && context.Marked() && context.Pooled()
      && |context.qblist| == qbNum && context.bound == [] && context.memContext.Abs() == Pool([], [])
      && context.boxes == seq(qbNum, _ => EmptyBox())
      && fresh(context) && fresh(context.blocks) && fresh(context.memContext.Repr())
  {
    if qbNum <= 0 || qbNum > CAPACITY {
      return null;
    }
    var list: seq<Block> := [];
    ghost var all: set<object> := {};
    while |list| < qbNum
      invariant |list| <= qbNum && fresh(all)
      invariant forall i :: 0 <= i < |list| ==> list[i].Zero() && list[i] in list[i].region && list[i].region <= all
      invariant forall i, j :: 0 <= i < j < |list| ==> list[i].region !! list[j].region
      invariant forall o: object :: o in all ==> !(o is Msg)
    {
      hide Block.Zero;
      var b := new Block();
      list := list + [b];
      all := all + b.region;
    }
    context := new MsgqContext(list, all);
  }
}
