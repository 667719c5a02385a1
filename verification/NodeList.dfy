/** The node list object of src/utils/node_list/node_list.c, refining the call-granularity model. */
module NodeList {
  import opened CircularList
  import opened Exchange

  const NODE_DATA_TYPE_POINTER := 0
  const NODE_DATA_TYPE_BUFFER := 1

  /** The first i nodes of the use list moved behind the free list. */
  function Moved<N>(x: Exchange<N>, i: nat): Exchange<N>
    requires i <= |x.use|
  {
    x.(free := x.free + x.use[..i], freeCnt := x.freeCnt + i, freeSem := x.freeSem + i,
       use := x.use[i..], useCnt := x.useCnt - i)
  }

  lemma MovedAll<N>(x: Exchange<N>)
    ensures Moved(x, 0) == x && Moved(x, |x.use|) == Drop(x)
  {
    assert x.use[..0] == [] && x.use[..|x.use|] == x.use;
  }

  lemma Dropped<N>(x: Exchange<N>)
    ensures Drop(x).free == x.free + x.use && Drop(x).use == [] && Drop(x).useSem == x.useSem
  {
  }

  lemma MovedNext<N>(x: Exchange<N>, i: nat)
    requires i < |x.use|
    ensures |Moved(x, i).use| == |x.use| - i && Moved(Moved(x, i), 1) == Moved(x, i + 1)
  {
    assert x.use[i..][..1] == [x.use[i]] && x.use[..i + 1] == x.use[..i] + [x.use[i]];
    assert x.free + x.use[..i] + x.use[i..][..1] == x.free + x.use[..i + 1];
  }

  class NodeList {
    const free: Node
    var freeCnt: int
    var freeSem: nat
    const use: Node
    var useCnt: int
    var useSem: nat
    var keepUpdate: bool
    var block: bool

    ghost var freeNodes: seq<Node>
    ghost var useNodes: seq<Node>

    ghost function Repr(): set<object>
      reads this
    {
      {this, free, use} + (set x | x in freeNodes) + (set x | x in useNodes)
    }

    ghost function Abs(): Exchange<Node>
      reads this
    {
      Exchange(freeNodes, freeCnt, freeSem, useNodes, useCnt, useSem, keepUpdate, block)
    }

    /** Both circles are closed and share nothing; counters and tokens fit the lists. */
    ghost predicate Valid()
      reads this, free, use, freeNodes, useNodes
    {
      Wired() && Settled(Abs())
    }

    ghost predicate Wired()
      reads this, free, use, freeNodes, useNodes
    {
      && Apart(free, freeNodes, use, useNodes)
      && Holds(free, freeNodes) && Holds(use, useNodes)
    }

    constructor Empty()
      ensures Valid() && Abs() == Create([], false, false)
      ensures fresh(Repr())
    {
      free := new Node();
      use := new Node();
      freeCnt, freeSem, useCnt, useSem := 0, 0, 0, 0;
      keepUpdate, block := false, false;
      freeNodes, useNodes := [], [];
      new;
      InitListHead(free);
      InitListHead(use);
    }

    method UseEmpty() returns (empty: bool)
      requires Wired()
      ensures empty == (useNodes == [])
    {
      empty := ListEmpty(use, useNodes);
    }

    method FreeEmpty() returns (empty: bool)
      requires Wired()
      ensures empty == (freeNodes == [])
    {
      empty := ListEmpty(free, freeNodes);
    }

    /** The locked part of Get_Use_Node */
    method TakeUse() returns (node: Node)
      requires Wired() && useNodes != []
      modifies Repr()
      ensures Wired() && node == old(useNodes)[0] && node !in Repr() && old(Repr()) == Repr() + {node}
      ensures Abs() == old(Abs()).(use := old(useNodes)[1..], useCnt := old(useCnt) - 1)
      ensures forall x :: x in old(freeNodes + useNodes) ==> x.data == old(x.data)
    {
      hide Holds;
      node := TakeFirst(use, useNodes, free, freeNodes);
      useNodes := useNodes[1..];
      useCnt := useCnt - 1;
    }

    /** The locked part of Get_Free_Node */
    method TakeFree() returns (node: Node)
      requires Wired() && freeNodes != []
      modifies Repr()
      ensures Wired() && node == old(freeNodes)[0] && node !in Repr() && old(Repr()) == Repr() + {node}
      ensures Abs() == old(Abs()).(free := old(freeNodes)[1..], freeCnt := old(freeCnt) - 1)
      ensures forall x :: x in old(freeNodes + useNodes) ==> x.data == old(x.data)
    {
      hide Holds;
      node := TakeFirst(free, freeNodes, use, useNodes);
      freeNodes := freeNodes[1..];
      freeCnt := freeCnt - 1;
    }

    /** Get_Use_Node */
    method GetUseNode() returns (out: Outcome<Node>)
      requires Valid()
      modifies Repr()
      ensures Valid() && old(Repr()) == if out.Got? then Repr() + {out.node} else Repr()
      ensures Abs() == GetUse(old(Abs())).0 && out == GetUse(old(Abs())).1
      ensures out.Got? ==> out.node !in Repr() && out.node in old(freeNodes + useNodes)
      ensures forall x :: x in old(freeNodes + useNodes) ==> x.data == old(x.data)
    {
      assert this in Repr();
      hide Wired, Repr;
      var empty := UseEmpty();
      if empty && !block {
        return Null;
      }
      if useSem == 0 {
        return Blocks;
      }
      UseToken();
      empty := UseEmpty();
      if empty {
        return Null;
      }
      var node := TakeUse();
      return Got(node);
    }

    /** sem_wait, a token being there */
    method UseToken()
      requires Wired() && useSem > 0
      modifies this`useSem
      ensures Wired() && useSem == old(useSem) - 1 && Repr() == old(Repr())
    {
      useSem := useSem - 1;
    }

    method FreeToken()
      requires Wired() && freeSem > 0
      modifies this`freeSem
      ensures Wired() && freeSem == old(freeSem) - 1 && Repr() == old(Repr())
    {
      freeSem := freeSem - 1;
    }

    /** Get_Free_Node */
    method GetFreeNode() returns (out: Outcome<Node>)
      requires Valid()
      modifies Repr()
      ensures Valid() && old(Repr()) == if out.Got? then Repr() + {out.node} else Repr()
      ensures Abs() == GetFree(old(Abs())).0 && out == GetFree(old(Abs())).1
      ensures out.Got? ==> out.node !in Repr() && out.node in old(freeNodes + useNodes)
      ensures forall x :: x in old(freeNodes + useNodes) ==> x.data == old(x.data)
    {
      assert this in Repr();
      hide Wired, Repr, GetUse;
      var empty := FreeEmpty();
      if empty && keepUpdate {
        out := GetUseNode();
        return;
      }
      if freeSem == 0 {
        return Blocks;
      }
      FreeToken();
      var node := TakeFree();
      return Got(node);
    }

    /** The locked part of Put_Use_Node */
    method LinkUse(node: Node)
      requires Wired() && node !in Repr()
      modifies Repr(), node
      ensures Wired() && Repr() == old(Repr()) + {node} && node.data == old(node.data)
      ensures Abs() == old(Abs()).(use := old(useNodes) + [node], useCnt := old(useCnt) + 1)
      ensures forall x :: x in old(freeNodes + useNodes) ==> x.data == old(x.data)
    {
      hide Holds;
      PutLast(node, use, useNodes, free, freeNodes);
      useNodes := useNodes + [node];
      useCnt := useCnt + 1;
    }

    /** sem_post */
    method PostUse()
      requires Wired()
      modifies this`useSem
      ensures Wired() && useSem == old(useSem) + 1 && Repr() == old(Repr())
    {
      useSem := useSem + 1;
    }

    /** Put_Use_Node, which refuses NULL */
    method PutUseNode(node: Node?)
      requires Valid() && (node != null ==> node !in Repr())
      modifies Repr(), node
      ensures Valid() && Abs() == if node == null then old(Abs()) else PutUse(old(Abs()), node)
      ensures Repr() == if node == null then old(Repr()) else old(Repr()) + {node}
      ensures node != null ==> node.data == old(node.data)
      ensures forall x :: x in old(freeNodes + useNodes) ==> x.data == old(x.data)
    {
      assert this in Repr();
      hide Wired, Repr;
      if node == null {
        return;
      }
      LinkUse(node);
      PostUse();
    }

    /** The locked part of Put_Free_Node */
    method LinkFree(node: Node)
      requires Wired() && node !in Repr()
      modifies Repr(), node
      ensures Wired() && Repr() == old(Repr()) + {node} && node.data == old(node.data)
      ensures Abs() == old(Abs()).(free := old(freeNodes) + [node], freeCnt := old(freeCnt) + 1)
      ensures forall x :: x in old(freeNodes + useNodes) ==> x.data == old(x.data)
    {
      hide Holds;
      PutLast(node, free, freeNodes, use, useNodes);
      freeNodes := freeNodes + [node];
      freeCnt := freeCnt + 1;
    }

    /** sem_post */
    method PostFree()
      requires Wired()
      modifies this`freeSem
      ensures Wired() && freeSem == old(freeSem) + 1 && Repr() == old(Repr())
    {
      freeSem := freeSem + 1;
    }

    /** Put_Free_Node, which refuses NULL */
    method PutFreeNode(node: Node?)
      requires Valid() && (node != null ==> node !in Repr())
      modifies Repr(), node
      ensures Valid() && Abs() == if node == null then old(Abs()) else PutFree(old(Abs()), node)
      ensures Repr() == if node == null then old(Repr()) else old(Repr()) + {node}
      ensures node != null ==> node.data == old(node.data)
      ensures forall x :: x in old(freeNodes + useNodes) ==> x.data == old(x.data)
    {
      assert this in Repr();
      hide Wired, Repr;
      if node == null {
        return;
      }
      LinkFree(node);
      PostFree();
    }

    /** Drop_Use_Node */
    method DropUseNode()
      requires Valid()
      modifies Repr()
      ensures Valid() && Abs() == Drop(old(Abs()))
      ensures freeNodes == old(freeNodes) + old(useNodes) && useNodes == [] && useSem == old(useSem)
    {
      hide Wired, Repr, Moved, Drop;
      ghost var was := Abs();
      ghost var i := 0;
      MovedAll(was);
      var empty := UseEmpty();
      while !empty
        invariant i <= |was.use| && empty == (useNodes == [])
        invariant Valid() && Repr() == old(Repr())
        invariant Abs() == Moved(was, i) && useNodes == was.use[i..]
        decreases |useNodes|
      {
        MovedNext(was, i);
        MoveOne();
        i := i + 1;
        empty := UseEmpty();
      }
      Dropped(was);
    }

    /** The body of that loop: one node from the front of the use list to the end of the free list. */
    method MoveOne()
      requires Valid() && useNodes != []
      modifies Repr()
      ensures Valid() && Repr() == old(Repr()) && Abs() == Moved(old(Abs()), 1) && useNodes == old(useNodes)[1..]
    {
      hide Wired, Repr;
      ghost var was := Abs();
      var node := TakeUse();
      PutFreeNode(node);
      assert was.use == [node] + useNodes;
      assert was.use[..1] == [node];
    }

    /** Node_List_Set_Block */
    method NodeListSetBlock(on: bool)
      requires Valid()
      modifies this
      ensures Valid() && Abs() == SetBlock(old(Abs()), on)
      ensures block == on && useSem == if old(block) && !on && old(useSem) == 0 then 1 else old(useSem)
      ensures freeNodes == old(freeNodes) && useNodes == old(useNodes) && freeSem == old(freeSem)
    {
      if block && !on {
        if useSem == 0 {
          useSem := useSem + 1;
        }
        block := false;
      } else if !block && on {
        block := true;
      }
    }
  }

  /** A zeroed buffer inside the node's own memory, or for pointer nodes nothing yet. */
  function InitialData(nodeSize: nat, kind: int): seq<int> {
    if kind == NODE_DATA_TYPE_POINTER then [] else seq(nodeSize, _ => 0)
  }

  /** A list under construction: n nodes so far, all free, in the order they were made */
  ghost predicate Growing(l: NodeList, n: nat, nodeSize: nat, kind: int)
    reads l, l.Repr()
  {
    && l.Valid() && |l.freeNodes| == n && l.Abs() == Create(l.freeNodes, false, false)
    && forall x :: x in l.freeNodes ==> x.data == InitialData(nodeSize, kind)
  }

  /** One round of the loop of Node_List_Init */
  method AddNode(l: NodeList, ghost n: nat, nodeSize: nat, kind: int)
    requires Growing(l, n, nodeSize, kind)
    modifies l.Repr()
    ensures Growing(l, n + 1, nodeSize, kind) && fresh(l.Repr() - old(l.Repr()))
  {
    hide NodeList.Wired;
    var node := new Node();
    node.data := InitialData(nodeSize, kind);
    l.PutFreeNode(node);
  }

  /** Node_List_Init: refuses fewer than two nodes, otherwise frees the n new nodes in turn. */
  method NodeListInit(nodeSize: nat, nodes: nat, keepUpdate: bool, block: bool, kind: int)
    returns (list: NodeList?)
    ensures list == null <==> nodes < 2
    ensures list != null ==>
      && list.Valid() && fresh(list.Repr())
      && |list.freeNodes| == nodes && list.Abs() == Create(list.freeNodes, keepUpdate, block)
      && list.keepUpdate == keepUpdate && list.block == block
      && list.freeCnt == list.freeSem == nodes && list.useNodes == [] && list.useCnt == list.useSem == 0
      && (forall x :: x in list.freeNodes ==> x.data == InitialData(nodeSize, kind))
      && (forall x :: x in list.freeNodes ==> |x.data| == if kind == NODE_DATA_TYPE_POINTER then 0 else nodeSize)
      && (forall x, j :: x in list.freeNodes && 0 <= j < |x.data| ==> x.data[j] == 0)
  {
    if nodes < 2 {
      return null;
    }
    var l := new NodeList.Empty();
    var i := 0;
    assert Growing(l, 0, nodeSize, kind);
    while i < nodes
      invariant 0 <= i <= nodes
      invariant Growing(l, i, nodeSize, kind) && fresh(l.Repr())
    {
      hide *;
      AddNode(l, i, nodeSize, kind);
      i := i + 1;
    }
    SetModes(l, keepUpdate, block);
    return l;
  }

  /** The last statements of Node_List_Init */
  method SetModes(l: NodeList, keepUpdate: bool, block: bool)
    requires l.Valid()
    modifies l
    ensures l.Valid() && l.Repr() == old(l.Repr()) && l.Abs() == old(l.Abs()).(keepUpdate := keepUpdate, block := block)
  {
    hide Holds;
    l.keepUpdate := keepUpdate;
    l.block := block;
  }
}
