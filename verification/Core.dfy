/** Registering modules and consuming their messages: smcf2_module_register and the message loop of
    src/core.c, and smcf2_recv_msg of src/async_msg.c. */
module Core {
  import opened MailboxSpec
  import opened PoolSpec
  import opened MemPool
  import opened MsgQueue
  import opened SinglyLinked
  import opened Registration
  import R = Routing

  const MAX_MSGQUEUE_BLOCK_NUM: nat := 64

  /** The arguments of one call of a module's message handler */
  datatype Call = Call(sender: int, msgid: int, data: seq<int>)

  /** What smcf2_recv_msg comes to: -1, a message, or waiting for one. */
  datatype Receipt = Refused | Received(sender: int, msgid: int, data: seq<int>) | Waiting

  function Least(a: int, b: int): int {
    if a < b then a else b
  }

  /** smcf_context_t, with the record table of src/data.c */
  class Core {
    const msgq: MsgqContext
    const modules: ModuleTable
    const table: ChnTable

    ghost function Messaging(): set<object>
      reads msgq, msgq.memContext
    {
      {msgq} + msgq.blocks + msgq.memContext.Repr()
    }

    ghost function Registry(): set<object>
      reads modules
    {
      {modules} + (set c: object | c in modules.cells)
    }

    ghost function Records(): set<object>
      reads table
    {
      {table} + (set c: object | c in table.cells)
    }

    ghost predicate Mailboxes()
      reads msgq, msgq.blocks, msgq.memContext, msgq.memContext.Repr()
    {
      msgq.Filled() && msgq.Marked() && msgq.Pooled()
    }

    /** The registry block a failed registration has freed although it is linked */
    ghost var freed: Cell?<R.Module>

    ghost predicate InOrder()
      reads msgq, msgq.blocks, msgq.memContext, msgq.memContext.Repr(), modules, modules.cells, table, table.cells
    {
      && Mailboxes() && modules.Valid() && table.Valid()
      && Messaging() !! Registry() && Messaging() !! Records() && Registry() !! Records()
      && this !in Messaging() && this !in Registry() && this !in Records()
    }

    ghost predicate Valid()
      reads this, msgq, msgq.blocks, msgq.memContext, msgq.memContext.Repr(), modules, modules.cells, table, table.cells
    {
      InOrder() && freed == null
    }

    /** The modules ms have been registered in turn: mailboxes went to the first ones as far as there were
        any, and the records are those of all their channels. */
    ghost predicate Enrolled(ms: seq<R.Module>)
      reads msgq, table
    {
      msgq.bound == Ids(ms[..Least(|ms|, |msgq.qblist|)]) && table.recs == R.AllRecords(ms)
    }

    /** As smcf2_init finds it */
    lemma Arranged()
      requires Mailboxes() && modules.Valid() && table.Valid() && modules.cells == [] && table.cells == []
      requires modules !in Messaging() && table !in Messaging() && this !in Messaging()
      ensures InOrder()
    {
      hide Mailboxes, ModuleTable.Valid, ChnTable.Valid, Messaging;
    }

    constructor (msgq: MsgqContext, modules: ModuleTable, table: ChnTable)
      requires msgq.Filled() && msgq.Marked() && msgq.Pooled()
      requires modules.Valid() && table.Valid() && modules.cells == [] && table.cells == []
      requires {modules as object, table} !! {msgq as object} + msgq.blocks + msgq.memContext.Repr()
      ensures this.msgq == msgq && this.modules == modules && this.table == table && Valid()
    {
      hide MsgqContext.Filled, MsgqContext.Marked, MsgqContext.Pooled, ModuleTable.Valid, ChnTable.Valid;
      this.msgq, this.modules, this.table, this.freed := msgq, modules, table, null;
      new;
      hide InOrder;
      Arranged();
    }

    lemma CellsInside()
      ensures modules in Registry() && forall c :: c in modules.cells ==> c in Registry()
      ensures table in Records() && forall c :: c in table.cells ==> c in Records()
    {
    }

    /** smcf2_module_register: the module gets a mailbox if one is left - whether it did is not looked at -,
        then joins the registry, then has its channels recorded.  If that fails its registry block is freed and
        stays linked, so this was the last registration there can be.  `threadRet` is what pthread_create
        returns, should it be called. */
    method ModuleRegister(m: R.Module, threadRet: int) returns (ret: int)
      requires Valid()
      modifies this, msgq, msgq.blocks, Registry(), Records()
      ensures var invalid := exists c :: c in m.chn + m.hchn && c.enable == R.MODULE_CHANNEL_ENABLE
                                    && c.role != R.DATA_CHANNEL_SENDER && c.role != R.DATA_CHANNEL_RECEIVER;
              && ret == (if invalid then -1 else if m.autoMsgProcess != 0 && m.handler then threadRet else 0)
              && |modules.cells| > 0 && freed == if invalid then modules.cells[|modules.cells| - 1] else null
      ensures InOrder() && modules.modules == old(modules.modules) + [m]
      ensures table.recs == old(table.recs) + R.Records(m).0
      ensures msgq.bound == if |old(msgq.bound)| < |msgq.qblist| then old(msgq.bound) + [m.id] else old(msgq.bound)
      ensures msgq.boxes == if |old(msgq.bound)| < |msgq.qblist|
                            then old(msgq.boxes)[|old(msgq.bound)| := EmptyBox()] else old(msgq.boxes)
      ensures msgq.memContext.Abs() == old(msgq.memContext.Abs())
      ensures msgq.memContext.Repr() == old(msgq.memContext.Repr())
      ensures forall o :: o in Registry() ==> o in old(Registry()) || fresh(o)
      ensures forall o :: o in Records() ==> o in old(Records()) || fresh(o)
      ensures old(Enrolled(modules.modules)) ==> Enrolled(modules.modules)
    {
      hide InOrder, R.Records, R.AllRecords, Ids, Messaging, Registry, Records;
      CellsInside();
      var qbid := BindMailbox(m.id);
      AddToRegistry(m);
      assert forall o :: o in Registry() ==> o in old(Registry()) || fresh(o);
      ret := RecordChannels(m);
      assert forall o :: o in Records() ==> o in old(Records()) || fresh(o);
      ghost var before := old(modules.modules);
      if old(Enrolled(before)) { EnrolledNext(before, m, |msgq.qblist|); }
      if ret == -1 {
        FreeBlock();
        return;
      }
      if m.autoMsgProcess != 0 {
        if m.handler {
          ret := threadRet;
        }
      }
    }

    /** After any registrations of modules with distinct ids, of which the last may have failed: mailboxes went
        to the first modules, in order, for as long as there were any, so every module that got one is led
        to exactly its own and the others to none; every module is found in the registry; no channel is
        recorded twice. */
    lemma RegistrationRun(i: nat)
      requires InOrder() && Enrolled(modules.modules) && i < |modules.modules|
      requires forall a, b :: 0 <= a < b < |modules.modules| ==> modules.modules[a].id != modules.modules[b].id
      ensures |msgq.bound| == Least(|modules.modules|, |msgq.qblist|)
      ensures Lookup(msgq.bound, |msgq.qblist|, modules.modules[i].id) == (if i < |msgq.qblist| then i else -1)
      ensures modules.modules[i].id >= 0 ==>
                FindModule(modules.modules, modules.modules[i].id) == Some(modules.modules[i])
      ensures table.recs == R.AllRecords(modules.modules) && R.DistinctChannels(table.recs)
    {
      var ms, bound := modules.modules, msgq.bound;
      R.AllRecordsDistinct(ms);
      FindModuleMeans(ms, ms[i].id);
      if i < |msgq.qblist| {
        LookupFindsOwn(bound, |msgq.qblist|, i, ms[i].id);
      } else {
        assert forall j :: 0 <= j < |bound| ==> bound[j] == ms[j].id;
      }
    }

    lemma EnrolledMeans(ms: seq<R.Module>)
      requires InOrder() && Enrolled(ms)
      ensures modules.Valid() && table.Valid() && table.recs == R.AllRecords(ms)
      ensures |msgq.bound| == Least(|ms|, |msgq.qblist|)
    {
    }

    // The three steps; each touches its own part only.

    method BindMailbox(id: int) returns (qbid: int)
      requires InOrder()
      modifies msgq, msgq.blocks
      ensures InOrder() && modules.modules == old(modules.modules) && table.recs == old(table.recs)
      ensures modules.cells == old(modules.cells) && table.cells == old(table.cells) && freed == old(freed)
      ensures msgq.memContext.Abs() == old(msgq.memContext.Abs())
      ensures msgq.memContext.Repr() == old(msgq.memContext.Repr())
      ensures msgq.bound == if |old(msgq.bound)| < |msgq.qblist| then old(msgq.bound) + [id] else old(msgq.bound)
      ensures msgq.boxes == if |old(msgq.bound)| < |msgq.qblist|
                            then old(msgq.boxes)[|old(msgq.bound)| := EmptyBox()] else old(msgq.boxes)
      ensures Registry() == old(Registry()) && Records() == old(Records())
    {
      hide ModuleTable.Valid, ChnTable.Valid, MsgqContext.Filled, MsgqContext.Marked, MemContext.Valid;
      qbid := msgq.MsgqBind(id);
    }

    method AddToRegistry(m: R.Module)
      requires InOrder()
      modifies modules, modules.cells
      ensures InOrder() && modules.modules == old(modules.modules) + [m]
      ensures table.recs == old(table.recs) && table.cells == old(table.cells) && freed == old(freed)
      ensures (forall o :: o in Registry() ==> o in old(Registry()) || fresh(o)) && Records() == old(Records())
      ensures msgq.bound == old(msgq.bound) && msgq.boxes == old(msgq.boxes)
      ensures msgq.memContext.Abs() == old(msgq.memContext.Abs())
      ensures msgq.memContext.Repr() == old(msgq.memContext.Repr())
    {
      hide ModuleTable.Valid, ChnTable.Valid, MsgqContext.Filled, MsgqContext.Marked, MsgqContext.Pooled;
      modules.AddModule(m);
    }

    method RecordChannels(m: R.Module) returns (ret: int)
      requires InOrder()
      modifies table, table.cells
      ensures InOrder() && (ret == 0 || ret == -1) && table.recs == old(table.recs) + R.Records(m).0
      ensures ret == 0 <==> forall c :: c in m.chn + m.hchn && c.enable == R.MODULE_CHANNEL_ENABLE ==>
                c.role == R.DATA_CHANNEL_SENDER || c.role == R.DATA_CHANNEL_RECEIVER
      ensures |modules.cells| == |modules.modules| && modules.modules == old(modules.modules) && freed == old(freed)
      ensures msgq.bound == old(msgq.bound) && msgq.boxes == old(msgq.boxes)
      ensures msgq.memContext.Abs() == old(msgq.memContext.Abs())
      ensures msgq.memContext.Repr() == old(msgq.memContext.Repr())
      ensures Registry() == old(Registry()) && forall o :: o in Records() ==> o in old(Records()) || fresh(o)
    {
      hide ChnTable.Valid, MsgqContext.Filled, MsgqContext.Marked, MsgqContext.Pooled;
      ret := table.ModuleDataChannelInit(m);
    }

    /** free(), on the block registered last */
    ghost method FreeBlock()
      requires InOrder() && |modules.modules| > 0
      modifies `freed
      ensures InOrder() && |modules.cells| > 0 && freed == modules.cells[|modules.cells| - 1]
      ensures modules.modules == old(modules.modules) && table.recs == old(table.recs)
      ensures msgq.bound == old(msgq.bound) && msgq.boxes == old(msgq.boxes)
      ensures msgq.memContext.Abs() == old(msgq.memContext.Abs())
      ensures msgq.memContext.Repr() == old(msgq.memContext.Repr())
      ensures Registry() == old(Registry()) && Records() == old(Records())
    {
      hide MsgqContext.Filled, MsgqContext.Marked, MemContext.Valid, ChnTable.Valid;
      freed := modules.cells[|modules.cells| - 1];
    }

    method ReadMail(receiver: int) returns (out: Outcome<Msg>)
      requires InOrder()
      modifies msgq, msgq.blocks
      ensures InOrder() && modules.modules == old(modules.modules) && table.recs == old(table.recs)
      ensures msgq.bound == old(msgq.bound) && msgq.memContext.Abs() == old(msgq.memContext.Abs())
      ensures |msgq.bound| <= |msgq.qblist| == |old(msgq.boxes)| && this !in Messaging()
      ensures var k := Lookup(msgq.bound, |msgq.qblist|, receiver);
              if k == -1 then out == NoMessage && msgq.boxes == old(msgq.boxes)
              else
                && 0 <= k < |msgq.qblist| && Shape(old(msgq.boxes)[k])
                && out == Read(old(msgq.boxes)[k]).1 && msgq.boxes == old(msgq.boxes)[k := Read(old(msgq.boxes)[k]).0]
      ensures msgq.memContext.Repr() == old(msgq.memContext.Repr())
    {
      hide MsgqContext.Filled, MsgqContext.Marked, ModuleTable.Valid, ChnTable.Valid, Lookup, Read;
      BoxesFit(receiver);
      out := msgq.ReadMsg(receiver);
    }

    lemma BoxesFit(id: int)
      requires InOrder()
      ensures |msgq.bound| <= |msgq.qblist| == |msgq.boxes|
      ensures -1 <= Lookup(msgq.bound, |msgq.qblist|, id) < |msgq.boxes|
      ensures (forall b :: b in msgq.boxes ==> Shape(b)) && this !in Messaging() && modules.Valid()
    {
      msgq.AllShaped();
    }

    /** smcf2_recv_msg: refused to unregistered modules and to those whose messages are handled for them;
        the message received is copied out and stays in use. */
    method RecvMsg(receiver: int) returns (out: Receipt)
      requires Valid()
      modifies msgq, msgq.blocks
      ensures Valid() && modules.modules == old(modules.modules) && table.recs == old(table.recs)
      ensures msgq.bound == old(msgq.bound) && msgq.memContext.Abs() == old(msgq.memContext.Abs())
      ensures msgq.memContext.Repr() == old(msgq.memContext.Repr())
      ensures var m, k := FindModule(modules.modules, receiver), Lookup(msgq.bound, |msgq.qblist|, receiver);
              if m == None || m.value.autoMsgProcess == 1 || k == -1 then
                out == Refused && msgq.boxes == old(msgq.boxes)
              else
                && msgq.boxes == old(msgq.boxes)[k := Read(old(msgq.boxes)[k]).0]
                && match Read(old(msgq.boxes)[k]).1
                   case Message(p) => out == Received(p.sender, p.msgid, p.data)
                   case NoMessage => out == Refused
                   case Waits => out == Waiting
    {
      hide InOrder, FindModule, Lookup, Read;
      BoxesFit(receiver);
      var m := modules.SearchModule(receiver);
      if m == None || m.value.autoMsgProcess == 1 {
        return Refused;
      }
      var msg := ReadMail(receiver);
      match msg
      case Message(p) => return Received(p.sender, p.msgid, p.data);
      case NoMessage => return Refused;
      case Waits => return Waiting;
    }

    /** The mailboxes and the pool behind them */
    ghost function Mailed(): Mail
      reads msgq, msgq.memContext
    {
      Mail(msgq.boxes, msgq.memContext.Abs())
    }

    /** The first `rounds` rounds of a module's message loop, as far as they get without waiting: the
        handler is called for what is queued in read order, each message with what it said when it was
        read, and each one goes back to the pool; NULLs are passed over. */
    method MessageLoop(id: int, rounds: nat) returns (calls: seq<Call>)
      requires Mailboxes()
      modifies msgq, msgq.blocks, msgq.memContext.Repr()
      ensures Mailboxes() && msgq.bound == old(msgq.bound) && |msgq.bound| <= |msgq.qblist|
      ensures msgq.memContext.Repr() == old(msgq.memContext.Repr())
      ensures var k := Lookup(msgq.bound, |msgq.qblist|, id);
              Handled(k, old(Mailed()), old(Said(k)), rounds, Mailed(), calls)
    {
      hide *;
      Quiet(id);
      ghost var k, was := Lookup(msgq.bound, |msgq.qblist|, id), Mailed();
      ghost var says := Says(Order(was.boxes, k));
      calls := [];
      ReachedStart(k, was, says);
      var i, waiting := 0, false;
      while i < rounds && !waiting
        invariant 0 <= i <= rounds && Mailboxes() && msgq.bound == old(msgq.bound)
        invariant msgq.memContext.Repr() == old(msgq.memContext.Repr()) && says == Says(Order(was.boxes, k))
        invariant Reached(k, was, says, i, waiting, Mailed(), calls)
        decreases rounds - i, !waiting
      {
        ghost var before := Mailed();
        var out, call := Round(id);
        ReachedNext(k, was, says, i, before, calls, out, call, Mailed());
        if out == Waits {
          waiting := true;
        } else {
          i := i + 1;
          if out.Message? {
            calls := calls + [call];
          }
        }
      }
      ReachedEnd(k, was, says, i, waiting, Mailed(), calls, rounds);
    }

    /** What the messages for the block with index k say, in read order */
    ghost function Said(k: int): (calls: seq<Call>)
      reads msgq, Order(msgq.boxes, k)
    {
      Says(Order(msgq.boxes, k))
    }

    lemma Quiet(id: int)
      requires Mailboxes()
      ensures |msgq.bound| <= |msgq.qblist| && -1 <= Lookup(msgq.bound, |msgq.qblist|, id) < |Mailed().boxes|
      ensures forall b :: b in Mailed().boxes ==> Shape(b)
      ensures var k := Lookup(msgq.bound, |msgq.qblist|, id); Said(k) == Says(Order(Mailed().boxes, k))
      ensures forall o: object :: o in msgq.blocks || o in msgq.memContext.Repr() || o == msgq ==> !(o is Msg)
    {
      msgq.AllShaped();
      msgq.NoMessageInside();
    }

    /** One round: read, handle, free */
    method Round(id: int) returns (out: Outcome<Msg>, call: Call)
      requires Mailboxes()
      modifies msgq, msgq.blocks, msgq.memContext.Repr()
      ensures Mailboxes() && msgq.bound == old(msgq.bound) && msgq.memContext.Repr() == old(msgq.memContext.Repr())
      ensures |msgq.bound| <= |msgq.qblist|
      ensures Went(Lookup(msgq.bound, |msgq.qblist|, id), old(Mailed()), out, Mailed())
      ensures out.Message? ==> call == CallOf(out.m)
    {
      hide MsgqContext.Filled, MsgqContext.Marked, MsgqContext.Pooled, Read, ReadOrder;
      Quiet(id);
      ghost var k := Lookup(msgq.bound, |msgq.qblist|, id);
      out := msgq.ReadMsg(id);
      Quiet(id);
      call := Call(0, 0, []);
      if out.Message? {
        call := Call(out.m.sender, out.m.msgid, out.m.data);
        msgq.FreeMsg(out.m);
      }
    }
  }

  datatype Mail = Mail(boxes: seq<Box<Msg>>, pool: Pool<Msg>)

  ghost function CallOf(m: Msg): Call
    reads m
  {
    Call(m.sender, m.msgid, m.data)
  }

  ghost function Says(ms: seq<Msg>): (calls: seq<Call>)
    reads ms
    ensures |calls| == |ms|
  {
    seq(|ms|, i requires 0 <= i < |ms| reads ms => CallOf(ms[i]))
  }

  /** `b` is what is left of b0 after i reads that yielded c messages. */
  ghost predicate Drained(b0: Box<Msg>, b: Box<Msg>, i: nat, c: nat)
    requires Shape(b0) && Shape(b)
  {
    && i <= b0.sem && b.sem == b0.sem - i
    && c == Least(i, |ReadOrder(b0)|) && ReadOrder(b) == ReadOrder(b0)[c..]
  }

  lemma DrainOne(b0: Box<Msg>, b: Box<Msg>, i: nat, c: nat)
    requires Shape(b0) && Shape(b) && Drained(b0, b, i, c)
    ensures b.sem == 0 <==> Read(b).1 == Waits
    ensures b.sem == 0 ==> Read(b).0 == b
    ensures b.sem > 0 ==>
      && Shape(ReadShape(b))
      && (Read(b).1 == if c < |ReadOrder(b0)| then Message(ReadOrder(b0)[c]) else NoMessage)
      && Drained(b0, ReadShape(b), i + 1, if c < |ReadOrder(b0)| then c + 1 else c)
  {
    if b.sem > 0 { ReadFront(b); }
  }

  /** The messages of the block with index k in read order, none if there is no such block */
  function Order(boxes: seq<Box<Msg>>, k: int): seq<Msg> {
    if 0 <= k < |boxes| && Shape(boxes[k]) then ReadOrder(boxes[k]) else []
  }

  /** A round on the block with index k */
  ghost predicate Went(k: int, s: Mail, out: Outcome<Msg>, s': Mail) {
    && -1 <= k < |s.boxes| && (k >= 0 ==> Shape(s.boxes[k]))
    && (if k == -1 then out == NoMessage && s'.boxes == s.boxes
        else out == Read(s.boxes[k]).1 && s'.boxes == s.boxes[k := ReadShape(s.boxes[k])])
    && s'.pool == if out.Message? then Free(s.pool, out.m) else s.pool
  }

  /** What i rounds on the block with index k make of s0, and the calls made. */
  ghost predicate Reached(k: int, s0: Mail, says: seq<Call>, i: nat, waiting: bool, s: Mail, calls: seq<Call>) {
    && -1 <= k < |s0.boxes| == |s.boxes| && (k >= 0 ==> Shape(s0.boxes[k]))
    && if k == -1 then calls == [] && s == s0 && !waiting
       else
         var b0, b := s0.boxes[k], s.boxes[k];
         && Shape(b) && s.boxes == s0.boxes[k := b]
         && Drained(b0, b, i, |calls|) && (waiting ==> i == b0.sem)
         && s.pool == FreeAll(s0.pool, ReadOrder(b0)[..|calls|])
         && |calls| <= |says| && calls == says[..|calls|]
  }

  lemma ReachedStart(k: int, s: Mail, says: seq<Call>)
    requires -1 <= k < |s.boxes| && forall b :: b in s.boxes ==> Shape(b)
    ensures Reached(k, s, says, 0, false, s, [])
  {
  }

  lemma ReachedNext(k: int, s0: Mail, says: seq<Call>, i: nat, s: Mail, calls: seq<Call>, out: Outcome<Msg>,
    call: Call, s': Mail)
    requires Reached(k, s0, says, i, false, s, calls) && Went(k, s, out, s')
    requires says == Says(Order(s0.boxes, k))
    requires out.Message? ==> call == CallOf(out.m)
    ensures out == Waits ==> Reached(k, s0, says, i, true, s', calls)
    ensures out != Waits ==> Reached(k, s0, says, i + 1, false, s', if out.Message? then calls + [call] else calls)
  {
    if k >= 0 {
      var c, order := |calls|, ReadOrder(s0.boxes[k]);
      DrainOne(s0.boxes[k], s.boxes[k], i, c);
      if c < |order| { assert order[..c + 1][..c] == order[..c]; }
    }
  }

  /** What `rounds` rounds come to: handler calls for the first messages in read order, as many as the
      rounds, the tokens and the messages queued allow; those messages are back in the pool and nothing
      else has changed but the tokens used up.  Without a mailbox nothing happens. */
  ghost predicate Handled(k: int, s0: Mail, says: seq<Call>, rounds: nat, s: Mail, calls: seq<Call>) {
    && -1 <= k < |s0.boxes| == |s.boxes| && (k >= 0 ==> Shape(s0.boxes[k]))
    && if k == -1 then calls == [] && s == s0
       else
         var b0, b, order, c := s0.boxes[k], s.boxes[k], ReadOrder(s0.boxes[k]), |calls|;
         && c == Least(rounds, Least(b0.sem, |order|)) && c <= |says| && calls == says[..c]
         && Shape(b) && s.boxes == s0.boxes[k := b]
         && ReadOrder(b) == order[c..] && b.sem == b0.sem - Least(rounds, b0.sem)
         && s.pool == FreeAll(s0.pool, order[..c])
  }

  lemma ReachedEnd(k: int, s0: Mail, says: seq<Call>, i: nat, waiting: bool, s: Mail, calls: seq<Call>, rounds: nat)
    requires i <= rounds && (waiting || i == rounds)
    requires Reached(k, s0, says, i, waiting, s, calls)
    ensures Handled(k, s0, says, rounds, s, calls)
  {
  }

  /** smcf2_init, with the empty record table */
  method Smcf2Init() returns (core: Core)
    ensures core.Valid() && |core.msgq.qblist| == MAX_MSGQUEUE_BLOCK_NUM
    ensures core.msgq.bound == [] && core.modules.modules == [] && core.table.recs == [] && core.Enrolled([])
    ensures core.msgq.memContext.Abs() == Pool([], []) && core.modules.cells == [] && core.table.cells == []
    ensures fresh(core) && fresh(core.Registry()) && fresh(core.Records()) && fresh(core.msgq)
    ensures fresh(core.msgq.blocks) && fresh(core.msgq.memContext.Repr())
  {
    hide MsgqContext.Filled, MsgqContext.Marked, MsgqContext.Pooled, ModuleTable.Valid, ChnTable.Valid, Core.Valid;
    var modules := new ModuleTable();
    var table := new ChnTable();
    var msgq := MsgqInit(MAX_MSGQUEUE_BLOCK_NUM);
    core := new Core(msgq, modules, table);
  }

  function Ids(modules: seq<R.Module>): (ids: seq<int>) {
    seq(|modules|, i requires 0 <= i < |modules| => modules[i].id)
  }

  /** One more module in the sequence of those registered */
  lemma EnrolledNext(ms: seq<R.Module>, m: R.Module, blocks: nat)
    ensures R.AllRecords(ms + [m]) == R.AllRecords(ms) + R.Records(m).0
    ensures var bound, n := Ids(ms[..Least(|ms|, blocks)]), Least(|ms| + 1, blocks);
            Ids((ms + [m])[..n]) == if |bound| < blocks then bound + [m.id] else bound
  {
    assert (ms + [m])[..|ms|] == ms;
    if |ms| < blocks {
      assert ms[..|ms|] == ms && (ms + [m])[..|ms| + 1] == ms + [m];
      assert Ids(ms + [m]) == Ids(ms) + [m.id];
    } else {
      assert (ms + [m])[..blocks] == ms[..blocks];
    }
  }
}
