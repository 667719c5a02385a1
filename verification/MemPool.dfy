/** The message pool object of src/mem.c, refining PoolSpec. */
module MemPool {
  import opened SinglyLinked
  import opened PoolSpec

  /** msg_t, the buffer a pool unit carries */
  class Msg {
    var sender: int
    var receiver: int
    var msgid: int
    var data: seq<int>

    constructor () {
      sender, receiver, msgid, data := 0, 0, 0, [];
    }
  }

  const MIN_UNIT_SIZE := 0
  const MAX_UNIT_SIZE := 32768

  /** A mem_unit is a cell whose item is its pointer p; the two list heads carry null. */
  type Unit = Cell<Msg?>

  /** A list of units and the buffers they carry */
  ghost predicate Half(head: Unit, units: seq<Unit>, msgs: seq<Msg>)
    reads head, units
  {
    && Chain(head, units)
    && |units| == |msgs| && forall i :: 0 <= i < |units| ==> units[i].item == msgs[i]
  }

  ghost predicate Separate(head: Unit, units: seq<Unit>, head': Unit, units': seq<Unit>) {
    head != head' && head !in units' && head' !in units && forall x :: x in units ==> x !in units'
  }

  /** Take the unit at position k off one list; the other keeps its units and links. */
  method Unlink(head: Unit, unit: Unit, ghost units: seq<Unit>, ghost msgs: seq<Msg>, ghost k: nat,
                ghost other: Unit, ghost units': seq<Unit>, ghost msgs': seq<Msg>)
    requires Half(head, units, msgs) && Half(other, units', msgs') && Separate(head, units, other, units')
    requires k < |units| && units[k] == unit
    modifies head, units
    ensures Half(head, Without(units, k), Without(msgs, k)) && Half(other, units', msgs')
    ensures Separate(head, Without(units, k), other, units') && unit !in Without(units, k)
    ensures unit != head && unit.item == old(unit.item)
  {
    ChainFirst(head, units);
    SlistDel(head, unit, units, k);
  }

  /** Put a unit of neither list in front of one of them. */
  method Link(head: Unit, unit: Unit, ghost units: seq<Unit>, ghost msgs: seq<Msg>, ghost m: Msg,
              ghost other: Unit, ghost units': seq<Unit>, ghost msgs': seq<Msg>)
    requires Half(head, units, msgs) && Half(other, units', msgs') && Separate(head, units, other, units')
    requires unit != head && unit != other && unit !in units && unit !in units' && unit.item == m
    modifies head, units, unit
    ensures Half(head, [unit] + units, [m] + msgs) && Half(other, units', msgs')
    ensures Separate(head, [unit] + units, other, units')
    ensures unit.item == m
  {
    SlistAdd(head, unit, units);
  }

  function Without<T>(s: seq<T>, k: nat): (r: seq<T>)
    requires k < |s|
    ensures |r| == |s| - 1
  {
    s[..k] + s[k + 1..]
  }

  class MemContext {
    const use: Unit
    var useCount: int
    const free: Unit
    var freeCount: int

    ghost var useUnits: seq<Unit>
    ghost var freeUnits: seq<Unit>
    ghost var useMsgs: seq<Msg>
    ghost var freeMsgs: seq<Msg>

    ghost function Repr(): set<object>
      reads this
    {
      {this, use, free} + (set x | x in useUnits) + (set x | x in freeUnits)
    }

    /** The buffers that mem_alloc may hand out again */
    ghost function Spare(): (ms: set<Msg>)
      reads this
    {
      set m | m in freeMsgs
    }

    ghost function Abs(): Pool<Msg>
      reads this
    {
      Pool(useMsgs, freeMsgs)
    }

    /** Both lists are well linked and share no unit; the counts fit. */
    ghost predicate Valid()
      reads this, use, free, useUnits, freeUnits
    {
      && Half(use, useUnits, useMsgs) && Half(free, freeUnits, freeMsgs)
      && Separate(use, useUnits, free, freeUnits)
      && useCount == |useUnits| && freeCount == |freeUnits|
    }

    /** An empty pool */
    constructor ()
      ensures Valid() && fresh(Repr()) && Abs() == Pool([], [])
    {
      use := new Cell(null);
      free := new Cell(null);
      useCount, freeCount := 0, 0;
      useUnits, freeUnits, useMsgs, freeMsgs := [], [], [], [];
    }

    /** The unit mem_alloc hands out, off the free list or from malloc, before it goes on the use list. */
    method TakeUnit() returns (unit: Unit, p: Msg)
      requires Valid()
      modifies Repr()
      ensures Valid() && unit !in Repr() && unit.item == p && useUnits == old(useUnits) && useMsgs == old(useMsgs)
      ensures Repr() <= old(Repr()) && (unit in old(Repr()) || fresh(unit))
      ensures if old(freeMsgs) == [] then freeMsgs == [] && freeUnits == [] && fresh(unit) && fresh(p)
              else p == old(freeMsgs)[0] && unit == old(freeUnits)[0]
                   && freeMsgs == old(freeMsgs)[1..] && freeUnits == old(freeUnits)[1..]
    {
      if freeCount != 0 {
        unit := TakeFree();
      } else {
        var buffer := new Msg();
        unit := new Cell(buffer);
      }
      p := unit.item;
    }

    lemma FirstFree()
      requires Valid() && freeMsgs != []
      ensures |freeUnits| == |freeMsgs| > 0 && free.next == freeUnits[0] && freeUnits[0].item == freeMsgs[0]
    {
      ChainFirst(free, freeUnits);
    }

    /** The unit freed last, off the free list */
    method TakeFree() returns (unit: Unit)
      requires Valid() && freeMsgs != []
      modifies Repr()
      ensures Valid() && unit !in Repr() && unit.item == old(freeMsgs)[0] && unit == old(freeUnits)[0]
      ensures useUnits == old(useUnits) && useMsgs == old(useMsgs)
      ensures freeMsgs == old(freeMsgs)[1..] && freeUnits == old(freeUnits)[1..]
    {
      hide Half;
      FirstFree();
      unit := free.next;
      Unlink(free, unit, freeUnits, freeMsgs, 0, use, useUnits, useMsgs);
      assert Without(freeUnits, 0) == freeUnits[1..] && Without(freeMsgs, 0) == freeMsgs[1..];
      freeUnits, freeMsgs := freeUnits[1..], freeMsgs[1..];
      freeCount := freeCount - 1;
    }

    /** mem_alloc: a recycled buffer if there is one, otherwise a new one. */
    method MemAlloc() returns (p: Msg)
      requires Valid()
      modifies Repr()
      ensures Valid() && fresh(Repr() - old(Repr()))
      ensures old(freeMsgs) == [] ==> fresh(p)
      ensures Abs() == Alloc(old(Abs()), p).0 && p == Alloc(old(Abs()), p).1
    {
      hide Half;
      var unit;
      unit, p := TakeUnit();
      Link(use, unit, useUnits, useMsgs, p, free, freeUnits, freeMsgs);
      useUnits, useMsgs := [unit] + useUnits, [p] + useMsgs;
      useCount := useCount + 1;
    }

    /** The rest of mem_free once the unit is found: off the use list, onto the free list. */
    method Recycle(unit: Unit, p: Msg, ghost k: nat)
      requires Valid() && k < |useUnits| && useUnits[k] == unit && unit.item == p
      modifies Repr()
      ensures Valid() && Repr() == old(Repr())
      ensures useMsgs == Without(old(useMsgs), k) && freeMsgs == [p] + old(freeMsgs)
    {
      TakeOut(unit, k);
      PutFront(unit, p);
    }

    method TakeOut(unit: Unit, ghost k: nat)
      requires Valid() && k < |useUnits| && useUnits[k] == unit
      modifies Repr()
      ensures Valid() && unit !in Repr() && old(Repr()) == Repr() + {unit}
      ensures useMsgs == Without(old(useMsgs), k) && freeMsgs == old(freeMsgs) && unit.item == old(unit.item)
    {
      hide Half;
      assert unit in useUnits;
      Unlink(use, unit, useUnits, useMsgs, k, free, freeUnits, freeMsgs);
      useUnits, useMsgs := Without(useUnits, k), Without(useMsgs, k);
      useCount := useCount - 1;
    }

    method PutFront(unit: Unit, p: Msg)
      requires Valid() && unit !in Repr() && unit.item == p
      modifies Repr(), unit
      ensures Valid() && Repr() == old(Repr()) + {unit}
      ensures useMsgs == old(useMsgs) && freeMsgs == [p] + old(freeMsgs)
    {
      hide Half;
      Link(free, unit, freeUnits, freeMsgs, p, use, useUnits, useMsgs);
      freeUnits, freeMsgs := [unit] + freeUnits, [p] + freeMsgs;
      freeCount := freeCount + 1;
    }

    /** mem_free: searches the use list; a pointer it does not find is left alone. */
    method MemFree(p: Msg)
      requires Valid()
      modifies Repr()
      ensures Valid() && Repr() == old(Repr()) && Abs() == Free(old(Abs()), p)
    {
      ChainFirst(use, useUnits);
      var pos := use.next;
      ghost var k := 0;
      while pos != null
        invariant k <= |useUnits| && pos == At(useUnits, k)
        invariant p !in useMsgs[..k]
        decreases |useUnits| - k
      {
        var unit := pos;
        if unit.item == p {
          RemoveAt(useMsgs, k);
          Recycle(unit, p, k);
          return;
        }
        pos := pos.next;
        k := k + 1;
      }
      assert useMsgs[..k] == useMsgs;
    }
  }

  /** mem_init, which refuses unit sizes outside 1 to 32767 */
  method MemInit(unitSize: int) returns (context: MemContext?)
    ensures context == null <==> unitSize <= MIN_UNIT_SIZE || unitSize >= MAX_UNIT_SIZE
    ensures context != null ==> context.Valid() && fresh(context.Repr()) && context.Abs() == Pool([], [])
  {
    if unitSize <= MIN_UNIT_SIZE || unitSize >= MAX_UNIT_SIZE {
      return null;
    }
    context := new MemContext();
  }
}
