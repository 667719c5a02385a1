/** Null-terminated lists: the sentinel lists of src/inc/slist.h, and the walk to the last element that
    insert_dac_list (src/data.c:16-33) and search_mblock_tail (src/module_manager.c:6-27) make. */
module SinglyLinked {

  class Cell<T> {
    var next: Cell?<T>
    var item: T

    constructor (item: T)
      ensures this.item == item && next == null
    {
      this.item := item;
      next := null;
    }
  }

  /** Following next from `first` leads through exactly `s`, all different, to null. */
  ghost predicate Linked<T>(first: Cell?<T>, s: seq<Cell<T>>)
    reads s
  {
    && (forall i, j :: 0 <= i < j < |s| ==> s[i] != s[j])
    && first == At(s, 0)
    && (forall i {:trigger s[i].next} :: 0 <= i < |s| ==> s[i].next == At(s, i + 1))
  }

  ghost function At<T>(s: seq<Cell<T>>, i: nat): Cell?<T> {
    if i < |s| then s[i] else null
  }

  /** A list with a sentinel head */
  ghost predicate Chain<T>(head: Cell<T>, s: seq<Cell<T>>)
    reads head, s
  {
    Linked(head, [head] + s)
  }

  /** The cell whose next field leads to position k */
  ghost function Before<T>(head: Cell<T>, s: seq<Cell<T>>, k: nat): Cell<T>
    requires k <= |s|
  {
    if k == 0 then head else s[k - 1]
  }

  lemma ChainFirst<T>(head: Cell<T>, s: seq<Cell<T>>)
    requires Chain(head, s)
    ensures head.next == At(s, 0) && head !in s
    ensures forall i {:trigger s[i].next} :: 0 <= i < |s| ==> s[i].next == At(s, i + 1)
    ensures forall i, j :: 0 <= i < j < |s| ==> s[i] != s[j]
  {
    var c := [head] + s;
    assert c[0].next == At(c, 1);
    forall i | 0 <= i < |s| ensures s[i].next == At(s, i + 1) && s[i] != head {
      assert c[i + 1].next == At(c, i + 2);
    }
    forall i, j | 0 <= i < j < |s| ensures s[i] != s[j] {
      assert c[i + 1] != c[j + 1];
    }
  }

  /** slist_add */
  method SlistAdd<T>(head: Cell<T>, pos: Cell<T>, ghost s: seq<Cell<T>>)
    requires Chain(head, s) && pos != head && pos !in s
    modifies head`next, pos`next
    ensures Chain(head, [pos] + s)
  {
    ChainFirst(head, s);
    var next := head.next;
    head.next := pos;
    pos.next := next;
    ghost var c := [head] + ([pos] + s);
    forall i | 0 <= i < |c| ensures c[i].next == At(c, i + 1) {
      if i >= 2 { assert c[i] == s[i - 2]; }
    }
  }

  /** Passing over the cell at position k takes it out. */
  lemma PassedOver<T>(head: Cell<T>, s: seq<Cell<T>>, k: nat)
    requires k < |s|
    requires var c := [head] + s;
             && (forall i, j :: 0 <= i < j < |c| ==> c[i] != c[j])
             && (forall j {:trigger c[j].next} :: 0 <= j < |c| && j != k && j != k + 1 ==> c[j].next == At(c, j + 1))
             && c[k].next == At(c, k + 2)
    ensures Chain(head, s[..k] + s[k + 1..])
  {
    var c, c' := [head] + s, [head] + (s[..k] + s[k + 1..]);
    assert c' == c[..k + 1] + c[k + 2..];
    forall j | 0 <= j < |c'| ensures c'[j].next == At(c', j + 1) {
      assert c'[j] == if j <= k then c[j] else c[j + 1];
    }
  }

  /** slist_del: unlinks `pos` if it is in the list, wherever; otherwise changes nothing. */
  method SlistDel<T>(head: Cell<T>, pos: Cell<T>, ghost s: seq<Cell<T>>, ghost k: nat)
    requires Chain(head, s) && pos != head
    requires if pos in s then k < |s| && s[k] == pos else k == |s|
    modifies Before(head, s, k)`next, pos`next
    ensures pos in s ==> Chain(head, s[..k] + s[k + 1..]) && pos.next == null
    ensures pos !in s ==> Chain(head, s) && pos.next == old(pos.next)
  {
    ghost var c := [head] + s;
    ghost var i := 0;
    var next: Cell?<T> := head;
    while next != null
      invariant i <= |c| && next == At(c, i)
      invariant next != pos && pos !in c[..i]
      invariant forall j {:trigger c[j].next} :: 0 <= j < |c| ==> c[j].next == At(c, j + 1)
      invariant pos.next == old(pos.next)
      decreases |c| - i
    {
      var p := next;
      next := p.next;
      if next == pos {
        assert c[i + 1] == s[i] == pos == s[k] == c[k + 1];
        p.next := next.next;
        pos.next := null;
        PassedOver(head, s, k);
        return;
      }
      i := i + 1;
    }
    assert c[..i] == c;
  }

  /** The last cell, by walking; null for the empty list. */
  method Tail<T>(first: Cell?<T>, ghost s: seq<Cell<T>>) returns (tail: Cell?<T>)
    requires Linked(first, s)
    ensures s == [] ==> tail == null
    ensures s != [] ==> tail == s[|s| - 1] && s[|s| - 1].next == null
  {
    if first == null {
      return null;
    }
    ghost var i := 0;
    tail := first;
    while tail.next != null
      invariant i < |s| && tail == s[i]
      decreases |s| - i
    {
      tail := tail.next;
      i := i + 1;
    }
  }

  /** A new cell behind the last one, or first if there is none; items stay as they are. */
  method Append<T>(first: Cell?<T>, cell: Cell<T>, ghost s: seq<Cell<T>>) returns (first': Cell<T>)
    requires Linked(first, s) && cell !in s && cell.next == null
    modifies s`next
    ensures Linked(first', s + [cell])
  {
    if first == null {
      return cell;
    }
    var tail := Tail(first, s);
    tail.next := cell;
    first' := first;
    ghost var c := s + [cell];
    forall i | 0 <= i < |c| ensures c[i].next == At(c, i + 1) {
      assert i < |s| - 1 ==> s[i].next == At(s, i + 1);
    }
  }
}
