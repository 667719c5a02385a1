/** The module registry of src/module_manager.c and the record list of src/data.c, both walked and
    extended through next pointers. */
module Registration {
  import opened SinglyLinked
  import opened Routing

  datatype Option<T> = None | Some(value: T)

  /** The first registered module with this id */
  function FindModule(modules: seq<Module>, id: int): Option<Module> {
    if id < 0 || modules == [] then None
    else if modules[0].id == id then Some(modules[0])
    else FindModule(modules[1..], id)
  }

  lemma {:induction false} FindModuleMeans(modules: seq<Module>, id: int)
    ensures FindModule(modules, id) == None <==> id < 0 || forall i :: 0 <= i < |modules| ==> modules[i].id != id
    ensures FindModule(modules, id).Some? ==>
              exists i :: 0 <= i < |modules| && modules[i] == FindModule(modules, id).value && modules[i].id == id
                       && forall j :: 0 <= j < i ==> modules[j].id != id
    decreases |modules|
  {
    if id >= 0 && modules != [] {
      if modules[0].id != id {
        FindModuleMeans(modules[1..], id);
        if FindModule(modules[1..], id).Some? {
          var i :| 0 <= i < |modules[1..]| && modules[1..][i] == FindModule(modules[1..], id).value
            && modules[1..][i].id == id
                   && forall j :: 0 <= j < i ==> modules[1..][j].id != id;
          forall j | 0 <= j < i + 1 ensures modules[j].id != id {
            if j > 0 { assert modules[j] == modules[1..][j - 1]; }
          }
          assert modules[i + 1].id == id;
        } else {
          assert forall i :: 0 < i < |modules| ==> modules[i] == modules[1..][i - 1];
        }
      }
    }
  }

  /** module_list_ctx_t */
  class ModuleTable {
    var blocks: Cell?<Module>
    var moduleCnt: int
    ghost var cells: seq<Cell<Module>>
    ghost var modules: seq<Module>

    ghost predicate Valid()
      reads this, cells
    {
      && Linked(blocks, cells) && moduleCnt == |cells| == |modules|
      && forall i {:trigger cells[i]} :: 0 <= i < |cells| ==> cells[i].item == modules[i]
    }

    constructor ()
      ensures Valid() && modules == [] && cells == []
    {
      blocks, moduleCnt, cells, modules := null, 0, [], [];
    }

    /** search_module_from_mblock_list */
    method SearchModule(id: int) returns (found: Option<Module>)
      requires Valid()
      ensures found == FindModule(modules, id)
    {
      if id < 0 || blocks == null {
        return None;
      }
      var next := blocks;
      ghost var i := 0;
      while next != null
        invariant i <= |cells| && next == At(cells, i)
        invariant FindModule(modules, id) == FindModule(modules[i..], id)
        decreases |cells| - i
      {
        assert modules[i..][0] == modules[i] && modules[i..][1..] == modules[i + 1..];
        if next.item.id == id {
          return Some(next.item);
        }
        next := next.next;
        i := i + 1;
      }
      return None;
    }

    /** add_module2mblock_list: behind the last block, so in registration order */
    method AddModule(m: Module)
      requires Valid()
      modifies this, cells
      ensures Valid() && modules == old(modules) + [m] && fresh(set c | c in cells && c !in old(cells))
    {
      var block := new Cell(m);
      blocks := Append(blocks, block, cells);
      cells, modules := cells + [block], modules + [m];
      moduleCnt := moduleCnt + 1;
    }
  }

  // ----- registration records -----

  /** chn_attr_t; which of the last six fields mean something depends on the role */
  datatype Attr = Attr(role: int, attr: int, smid: int, schnid: int, rmid: int, rchnid: int, rsmid: int, rschnid: int)

  predicate Shows(a: Attr, r: Rec) {
    && a.attr == KindAttr(r.kind)
    && match r
       case Sender(_, mid, chn) => a.role == DATA_CHANNEL_SENDER && a.smid == mid && a.schnid == chn
       case Receiver(_, mid, chn, fromMid, fromChn) =>
         && a.role == DATA_CHANNEL_RECEIVER && a.rmid == mid && a.rchnid == chn
         && a.rsmid == fromMid && a.rschnid == fromChn
  }

  function KindAttr(kind: Kind): int {
    if kind == Normal then NORMAL_CHN else HOOK_CHN
  }

  lemma OneMore(recs: seq<Rec>, r: Rec)
    ensures |Senders(recs + [r])| == |Senders(recs)| + if r.Sender? then 1 else 0
  {
    assert (recs + [r])[..|recs|] == recs;
  }

  /** data_chn_table_t */
  class ChnTable {
    var schannelCnt: int
    var rchannelCnt: int
    var dca: Cell?<Attr>
    ghost var cells: seq<Cell<Attr>>
    ghost var recs: seq<Rec>

    /** The records form one finite list in the order they were made. */
    ghost predicate Listed()
      reads `dca, `cells, `recs, cells
    {
      && Linked(dca, cells) && |cells| == |recs|
      && forall i {:trigger cells[i]} :: 0 <= i < |cells| ==> Shows(cells[i].item, recs[i])
    }

    /** Moreover each counter counts its kind. */
    ghost predicate Valid()
      reads this, cells
    {
      Listed() && schannelCnt == |Senders(recs)| && rchannelCnt == |recs| - |Senders(recs)|
    }

    constructor ()
      ensures Valid() && recs == [] && cells == []
    {
      schannelCnt, rchannelCnt, dca, cells, recs := 0, 0, null, [], [];
    }

    /** insert_dac_list, and the first record */
    method InsertDacList(cell: Cell<Attr>, ghost r: Rec)
      requires Listed() && cell !in cells && cell.next == null && Shows(cell.item, r)
      modifies this`dca, this`cells, this`recs, cells`next
      ensures Listed() && cells == old(cells) + [cell] && recs == old(recs) + [r]
    {
      hide Linked, Shows;
      dca := Append(dca, cell, cells);
      cells, recs := cells + [cell], recs + [r];
    }

    /** A record counted and linked behind the last one */
    method AddRecord(a: Attr, ghost r: Rec)
      requires Valid() && Shows(a, r)
      modifies this, cells
      ensures Valid() && recs == old(recs) + [r]
      ensures fresh(set c | c in cells && c !in old(cells))
    {
      hide Listed, Senders;
      OneMore(recs, r);
      var cell := new Cell(a);
      if a.role == DATA_CHANNEL_SENDER {
        schannelCnt := schannelCnt + 1;
      } else {
        rchannelCnt := rchannelCnt + 1;
      }
      InsertDacList(cell, r);
    }

    /** The record of channel i; fields its role does not use are left as malloc returned them. */
    method AddChannel(id: int, kind: Kind, i: nat, c: Chn)
      requires Valid() && ValidRole(c)
      modifies this, cells
      ensures Valid() && recs == old(recs) + [RecOf(id, kind, i, c)]
      ensures fresh(set c | c in cells && c !in old(cells))
    {
      var unset: int := *;
      var a := if c.role == DATA_CHANNEL_SENDER
               then Attr(c.role, KindAttr(kind), id, i, unset, unset, unset, unset)
               else Attr(c.role, KindAttr(kind), unset, unset, id, i, c.moduleId, c.channel);
      AddRecord(a, RecOf(id, kind, i, c));
    }

    /** One of the two loops of module_data_channel_init */
    method ScanChannels(id: int, kind: Kind, chns: seq<Chn>) returns (ok: bool)
      requires Valid()
      modifies this, cells
      ensures Valid() && fresh(set c | c in cells && c !in old(cells))
      ensures recs == old(recs) + Scan(id, kind, chns, 0).0 && ok == Scan(id, kind, chns, 0).1
    {
      hide Valid;
      ghost var done: seq<Rec> := [];
      assert done + Scan(id, kind, chns, 0).0 == Scan(id, kind, chns, 0).0;
      var i := 0;
      while i < |chns|
        invariant 0 <= i <= |chns|
        invariant Valid() && fresh(set c | c in cells && c !in old(cells))
        invariant recs == old(recs) + done
        invariant Scan(id, kind, chns, 0) == (done + Scan(id, kind, chns, i).0, Scan(id, kind, chns, i).1)
      {
        var c := chns[i];
        if c.enable == MODULE_CHANNEL_ENABLE {
          if c.role != DATA_CHANNEL_SENDER && c.role != DATA_CHANNEL_RECEIVER {
            return false;
          }
          AddChannel(id, kind, i, c);
          assert done + ([RecOf(id, kind, i, c)] + Scan(id, kind, chns, i + 1).0)
              == done + [RecOf(id, kind, i, c)] + Scan(id, kind, chns, i + 1).0;
          done := done + [RecOf(id, kind, i, c)];
        }
        i := i + 1;
      }
      return true;
    }

    /** module_data_channel_init: stops at the first invalid role, keeping what was recorded before it. */
    method ModuleDataChannelInit(m: Module) returns (ret: int)
      requires Valid()
      modifies this, cells
      ensures Valid() && recs == old(recs) + Records(m).0 && (ret == 0 || ret == -1)
      ensures ret == 0 <==> forall c :: c in m.chn + m.hchn && c.enable == MODULE_CHANNEL_ENABLE ==>
                c.role == DATA_CHANNEL_SENDER || c.role == DATA_CHANNEL_RECEIVER
      ensures fresh(set c | c in cells && c !in old(cells))
    {
      RecordsMean(m);
      hide ChnTable.Valid, Recorded, Clean;
      var ok := ScanChannels(m.id, Normal, m.chn);
      if ok {
        ok := ScanChannels(m.id, Hook, m.hchn);
      }
      return if ok then 0 else -1;
    }

    /** check_producer_consumer_correspondence: because its search for a sender's receiver accepts the
        sender's own record, it fails exactly when the two counts differ. */
    method CheckCorrespondence() returns (ret: int)
      requires Valid()
      ensures ret == if |Senders(recs)| * 2 == |recs| then 0 else -1
    {
      if schannelCnt != rchannelCnt {
        return -1;
      }
      var channelCnt := schannelCnt + rchannelCnt;
      var search := dca;
      var i := 0;
      while i < channelCnt
        invariant 0 <= i <= channelCnt == |cells| && search == At(cells, i)
      {
        if search.item.role == DATA_CHANNEL_SENDER {
          var a := search.item;
          var tmp := dca;
          ghost var j := 0;
          while tmp != null && !TakenForMatch(tmp.item.role, tmp.item.attr, tmp.item.rsmid, tmp.item.rschnid, a.smid,
            a.schnid, a.attr)
            invariant j <= i && tmp == At(cells, j)
            decreases i - j
          {
            assert j != i;
            tmp := tmp.next;
            j := j + 1;
          }
          if tmp == null {
            return -1;
          }
        }
        search := search.next;
        i := i + 1;
      }
      return 0;
    }
  }
}
