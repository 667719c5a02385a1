/** Where Node_List_Init puts the nodes and their buffers inside its one allocation, in the unsigned 32-bit
    arithmetic of the target (the code keeps pointers in int).  (src/utils/node_list/node_list.c:205-249) */
module Layout {

  const WORD: nat := 0x1_0000_0000
  const NODE_HEADER: nat := 20    // sizeof(node_t) where pointers and int have 32 bits

  /** sizeof(node_t) + node_size, as the machine computes it; `header` is sizeof(node_t) */
  function Stride(header: nat, size: nat): nat {
    (header + size) % WORD
  }

  /** what malloc is asked for */
  function Allocated(n: nat, header: nat, size: nat): nat {
    (n * Stride(header, size)) % WORD
  }

  /** where node i starts */
  function Offset(i: nat, header: nat, size: nat): nat {
    (i * Stride(header, size)) % WORD
  }

  /** Every node with the `size` bytes behind it lies inside the allocation, and no two overlap. */
  ghost predicate WellPlaced(n: nat, header: nat, size: nat) {
    && (forall i: nat :: i < n ==> Offset(i, header, size) + header + size <= Allocated(n, header, size))
    && (forall i: nat, j: nat :: i < j < n ==>
          || Offset(i, header, size) + header + size <= Offset(j, header, size)
          || Offset(j, header, size) + header + size <= Offset(i, header, size))
  }

  lemma MulStep(i: nat, j: nat, s: nat)
    requires i < j
    ensures i * s + s <= j * s
  {
    assert (i + 1) * s == i * s + s;
    MulMono(i + 1, j, s);
  }

  lemma MulMono(a: nat, b: nat, s: nat)
    requires a <= b
    ensures a * s <= b * s
  {
    assert b * s == a * s + (b - a) * s;
  }

  /** As long as everything fits, nothing wraps around. */
  lemma NoWrap(i: nat, n: nat, header: nat, size: nat)
    requires i < n && n * (header + size) < WORD
    ensures Stride(header, size) == header + size
    ensures Offset(i, header, size) == i * (header + size)
    ensures i * (header + size) + header + size <= n * (header + size) == Allocated(n, header, size)
  {
    MulMono(1, n, header + size);
    MulStep(i, n, header + size);
  }

  lemma FitsIsPlaced(n: nat, header: nat, size: nat)
    requires n > 0 && n * (header + size) < WORD
    ensures WellPlaced(n, header, size)
  {
    hide Stride, Offset, Allocated;
    forall i: nat | i < n ensures Offset(i, header, size) + header + size <= Allocated(n, header, size) {
      NoWrap(i, n, header, size);
    }
    forall i: nat, j: nat | i < j < n ensures Offset(i, header, size) + header + size <= Offset(j, header, size) {
      NoWrap(i, n, header, size);
      NoWrap(j, n, header, size);
      MulStep(i, j, header + size);
    }
  }

  /** The last stride to begin inside a word ends at or beyond its end. */
  lemma LastStride(s: nat) returns (k: nat)
    requires 0 < s < WORD
    ensures k * s <= WORD - 1 < k * s + s && Offset(k, 0, s) == k * s
  {
    k := (WORD - 1) / s;
    assert WORD - 1 == s * k + (WORD - 1) % s;
    assert s * k == k * s;
  }

  /** If the product does not fit into a word, the node whose end first reaches the word size sticks out of
      the allocation. */
  lemma OverflowSticksOut(n: nat, header: nat, size: nat) returns (k: nat)
    requires 0 < header && header + size < WORD && n * (header + size) >= WORD
    ensures k < n && Offset(k, header, size) + header + size >= WORD
  {
    var s := header + size;
    k := LastStride(s);
    assert Offset(k, header, size) == Offset(k, 0, s);
    if k >= n { MulMono(n, k, s); }
  }

  /** The buffers are pairwise disjoint and inside the allocation exactly when n nodes of header and buffer
      fit into 32 bits. */
  lemma PlacedIffFits(n: nat, header: nat, size: nat)
    requires 2 <= n < WORD && 0 < header < WORD && size < WORD
    ensures WellPlaced(n, header, size) <==> n * (header + size) < WORD
  {
    if n * (header + size) < WORD {
      FitsIsPlaced(n, header, size);
    } else if header + size < WORD {
      var k := OverflowSticksOut(n, header, size);
      assert Offset(k, header, size) + header + size > Allocated(n, header, size);
    } else {
      MulMono(1, n, header + size);
      assert Offset(0, header, size) + header + size > Allocated(n, header, size);
    }
  }

  /** 65536 nodes of 65536 bytes, header included: the allocation is for zero bytes. */
  lemma OverflowExample()
    ensures Allocated(65536, NODE_HEADER, 65516) == 0 && !WellPlaced(65536, NODE_HEADER, 65516)
  {
    assert Offset(0, NODE_HEADER, 65516) + NODE_HEADER + 65516 > Allocated(65536, NODE_HEADER, 65516);
  }
}
