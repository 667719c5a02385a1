/** The intrusive circular doubly linked list of src/inc/utils/list.h.  A list head and the entries are
    objects of one class, so that "the struct an entry is embedded in" is the object itself; the poison
    values left in a deleted entry are null here. */
module CircularList {

  class Node {
    var next: Node?
    var prev: Node?
    // what the data field of a node_t leads to; unused in a list head
    var data: seq<int>

    constructor ()
      ensures next == null && prev == null && data == []
    {
      next, prev, data := null, null, [];
    }
  }

  ghost function After(i: nat, n: nat): nat
    requires i < n
  {
    if i + 1 < n then i + 1 else 0
  }

  ghost predicate Distinct(c: seq<Node>) {
    forall i, j :: 0 <= i < j < |c| ==> c[i] != c[j]
  }

  /** `c` in order is the whole circle: following next leads through c and back, prev undoes next. */
  ghost predicate Circle(c: seq<Node>)
    reads c
  {
    && Distinct(c)
    && (forall i {:trigger c[i].next} :: 0 <= i < |c| ==> c[i].next == c[After(i, |c|)])
    && (forall i {:trigger c[After(i, |c|)]} :: 0 <= i < |c| ==> c[After(i, |c|)].prev == c[i])
  }

  /** The list with head `head` holds exactly `s`. */
  ghost predicate Holds(head: Node, s: seq<Node>)
    reads head, s
  {
    Circle([head] + s)
  }

  /** prev and next are inverse to each other all around the circle. */
  lemma Inverse(head: Node, s: seq<Node>, x: Node)
    requires Holds(head, s) && (x == head || x in s)
    ensures x.next != null && x.next.prev == x
    ensures x.prev != null && x.prev.next == x
  {
    var c := [head] + s;
    assert x in c;
    var i :| 0 <= i < |c| && c[i] == x;
    var j := if i == 0 then |c| - 1 else i - 1;
    assert After(j, |c|) == i && c[After(j, |c|)].prev == c[j] && c[j].next == c[After(j, |c|)];
    assert c[After(i, |c|)].prev == c[i];
  }

  method InitListHead(head: Node)
    modifies head
    ensures Holds(head, [])
    ensures head.data == old(head.data)
  {
    head.next := head;
    head.prev := head;
  }

  /** list_empty */
  method ListEmpty(head: Node, ghost s: seq<Node>) returns (empty: bool)
    requires Holds(head, s)
    ensures empty == (s == [])
  {
    empty := head.next == head;
    assert ([head] + s)[After(0, |[head] + s|)] == head.next;
  }

  /** The first entry of a non-empty list. */
  lemma First(head: Node, s: seq<Node>)
    requires Holds(head, s) && s != []
    ensures head.next == s[0]
  {
    assert ([head] + s)[0].next == ([head] + s)[After(0, |[head] + s|)];
  }

  lemma Last(head: Node, s: seq<Node>)
    requires Holds(head, s)
    ensures head.prev == ([head] + s)[|s|]
  {
    var c := [head] + s;
    assert c[After(|s|, |c|)].prev == c[|s|];
  }

  /** __list_add, between two entries known to be consecutive */
  method ListAddBetween(entry: Node, before: Node, after: Node)
    requires entry != before && entry != after
    modifies entry, before, after
    ensures entry.next == after && entry.prev == before && after.prev == entry && before.next == entry
    ensures after != before ==> after.next == old(after.next) && before.prev == old(before.prev)
    ensures unchanged(entry`data) && unchanged(before`data) && unchanged(after`data)
  {
    after.prev := entry;
    entry.next := after;
    entry.prev := before;
    before.next := entry;
  }

  /** list_add_tail: the list grows by `entry` at its end; only the entry, the head and the former last
      entry are written, and no payload. */
  method ListAddTail(entry: Node, head: Node, ghost s: seq<Node>)
    requires Holds(head, s) && entry != head && entry !in s
    modifies entry, head, ([head] + s)[|s|]
    ensures Holds(head, s + [entry])
    ensures entry.data == old(entry.data)
    ensures forall x :: x in s ==> x.data == old(x.data)
  {
    Last(head, s);
    ghost var c, c' := [head] + s, [head] + (s + [entry]);
    assert c' == c + [entry];
    ListAddBetween(entry, head.prev, head);
    forall i | 0 <= i < |c'| ensures c'[i].next == c'[After(i, |c'|)] && c'[After(i, |c'|)].prev == c'[i] {
      if i < |s| {
        assert c[i].next == c[After(i, |c|)] && c[After(i, |c|)].prev == c[i];
      }
    }
  }

  /** __list_del */
  method ListUnlink(before: Node, after: Node)
    modifies before, after
    ensures after.prev == before && before.next == after
    ensures after != before ==> after.next == old(after.next) && before.prev == old(before.prev)
    ensures unchanged(before`data) && unchanged(after`data)
  {
    after.prev := before;
    before.next := after;
  }

  /** A circle in which entry k + 1 has been passed over, in both directions */
  lemma PassedOver(c: seq<Node>, k: nat)
    requires k + 1 < |c| && Distinct(c)
    requires forall i {:trigger c[i].next} :: 0 <= i < |c| && i != k && i != k + 1 ==> c[i].next == c[After(i, |c|)]
    requires forall i {:trigger c[After(i, |c|)]} :: 0 <= i < |c| && i != k && i != k + 1 ==>
               c[After(i, |c|)].prev == c[i]
    requires c[k].next == c[After(k + 1, |c|)] && c[After(k + 1, |c|)].prev == c[k]
    ensures Circle(c[..k + 1] + c[k + 2..])
  {
    var c' := c[..k + 1] + c[k + 2..];
    forall i | 0 <= i < |c'| ensures c'[i].next == c'[After(i, |c'|)] && c'[After(i, |c'|)].prev == c'[i] {
      var j := if i <= k then i else i + 1;
      assert c'[i] == c[j] && c'[After(i, |c'|)] == c[After(if i == k then k + 1 else j, |c|)];
    }
  }

  /** list_del: the entry at position k leaves the list; only it and its neighbours are written, and no
      payload. */
  method ListDel(entry: Node, ghost head: Node, ghost s: seq<Node>, ghost k: nat)
    requires Holds(head, s) && k < |s| && s[k] == entry
    modifies entry, ([head] + s)[k], ([head] + s)[After(k + 1, |s| + 1)]
    ensures Holds(head, s[..k] + s[k + 1..])
    ensures entry.next == null && entry.prev == null
    ensures unchanged(entry`data) && ([head] + s)[k].data == old(([head] + s)[k].data)
    ensures var x := ([head] + s)[After(k + 1, |s| + 1)]; x.data == old(x.data)
  {
    hide Distinct;
    ghost var c := [head] + s;
    assert [head] + (s[..k] + s[k + 1..]) == c[..k + 1] + c[k + 2..];
    Neighbours(c, k);
    OthersApart(c, k);
    ListUnlink(entry.prev, entry.next);
    entry.next := null;
    entry.prev := null;
    PassedOver(c, k);
  }

  lemma Neighbours(c: seq<Node>, k: nat)
    requires Circle(c) && k + 1 < |c|
    ensures c[k + 1].prev == c[k] && c[k + 1].next == c[After(k + 1, |c|)]
  {
    assert c[After(k, |c|)].prev == c[k];
  }

  /** No entry besides entry k and its neighbours is affected by entry k leaving. */
  lemma OthersApart(c: seq<Node>, k: nat)
    requires Distinct(c) && k + 1 < |c|
    ensures c[k] != c[k + 1] && c[After(k + 1, |c|)] != c[k + 1]
    ensures forall i {:trigger c[i]} :: 0 <= i < |c| && i != k && i != k + 1 ==> c[i] != c[k] && c[i] != c[k + 1]
    ensures forall i {:trigger c[After(i, |c|)]} :: 0 <= i < |c| && i != k && i != k + 1 ==>
              c[After(i, |c|)] != c[After(k + 1, |c|)] && c[After(i, |c|)] != c[k + 1]
  {
    forall i | 0 <= i < |c| && i != k && i != k + 1
      ensures c[After(i, |c|)] != c[After(k + 1, |c|)] && c[After(i, |c|)] != c[k + 1]
    {
      assert After(i, |c|) != k + 1 && After(i, |c|) != After(k + 1, |c|);
    }
  }

  /** Two lists with no head or entry in common. */
  ghost predicate Apart(head: Node, s: seq<Node>, head': Node, s': seq<Node>) {
    head != head' && head !in s' && head' !in s && forall x :: x in s ==> x !in s'
  }

  /** Unlink the first entry. */
  method DelFirst(head: Node, ghost s: seq<Node>) returns (entry: Node)
    requires Holds(head, s) && s != []
    modifies head, s
    ensures entry == s[0] && entry.next == null && entry.prev == null && Holds(head, s[1..])
    ensures entry != head && entry !in s[1..]
    ensures forall x :: x in s ==> x.data == old(x.data)
  {
    First(head, s);
    FirstApart(head, s);
    assert s[..0] + s[1..] == s[1..];
    hide Holds;
    entry := head.next;
    ListDel(entry, head, s, 0);
  }

  /** Unlink the first entry of one of two lists; the other keeps its entries and links. */
  method TakeFirst(head: Node, ghost s: seq<Node>, ghost other: Node, ghost s': seq<Node>) returns (entry: Node)
    requires Holds(head, s) && s != [] && Holds(other, s') && Apart(head, s, other, s')
    modifies head, s
    ensures entry == s[0] && entry.next == null && entry.prev == null
    ensures Holds(head, s[1..]) && Holds(other, s') && Apart(head, s[1..], other, s')
    ensures entry != head && entry != other && entry !in s[1..] && entry !in s'
    ensures forall x :: x in s ==> x.data == old(x.data)
  {
    hide Circle;
    ghost var d := [other] + s';
    assert forall i :: 0 <= i < |d| ==> d[i] == other || d[i] in s';
    entry := DelFirst(head, s);
    assert forall i :: 0 <= i < |d| ==> d[i].next == old(d[i].next);
    assert forall i :: 0 <= i < |d| ==> d[i].prev == old(d[i].prev);
  }

  /** The first entry of a list and its neighbours */
  lemma FirstApart(head: Node, s: seq<Node>)
    requires Holds(head, s) && s != []
    ensures s[0] != head && s[0] !in s[1..] && head !in s
    ensures ([head] + s)[0] == head
    ensures ([head] + s)[After(1, |s| + 1)] == head || ([head] + s)[After(1, |s| + 1)] in s
  {
    var c := [head] + s;
    forall j | 0 <= j < |s| ensures s[j] != head && (j > 0 ==> s[j] != s[0]) {
      assert c[0] != c[j + 1];
      assert j > 0 ==> c[1] != c[j + 1];
    }
  }

  /** Link an entry of neither list behind one of them; the other keeps its entries and links. */
  method PutLast(entry: Node, head: Node, ghost s: seq<Node>, ghost other: Node, ghost s': seq<Node>)
    requires Holds(head, s) && Holds(other, s') && Apart(head, s, other, s')
    requires entry != head && entry != other && entry !in s && entry !in s'
    modifies head, s, entry
    ensures Holds(head, s + [entry]) && Holds(other, s') && Apart(head, s + [entry], other, s')
    ensures entry.data == old(entry.data)
    ensures forall x :: x in s ==> x.data == old(x.data)
  {
    assert ([head] + s)[|s|] in [head] + s;
    ListAddTail(entry, head, s);
  }
}
