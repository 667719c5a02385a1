/** The recycling pool of src/mem.c as values: a use list and a free list of buffers, newest first. */
module PoolSpec {
  import opened Sums

  datatype Pool<P> = Pool(use: seq<P>, free: seq<P>)

  /** mem_alloc: recycle the most recently freed buffer, or take a new one from malloc. */
  function Alloc<P>(pool: Pool<P>, unit: P): (Pool<P>, P) {
    if pool.free != [] then (Pool([pool.free[0]] + pool.use, pool.free[1..]), pool.free[0])
    else (Pool([unit] + pool.use, []), unit)
  }

  /** mem_free: move p to the front of the free list; a pointer not in use is left alone. */
  function Free<P(==)>(pool: Pool<P>, p: P): Pool<P> {
    if p in pool.use then Pool(Remove(pool.use, p), [p] + pool.free) else pool
  }

  /** Frees one after the other */
  function FreeAll<P(==)>(pool: Pool<P>, ps: seq<P>): Pool<P>
    decreases |ps|
  {
    if ps == [] then pool else Free(FreeAll(pool, ps[..|ps| - 1]), ps[|ps| - 1])
  }

  lemma {:induction false} RemoveBag<P>(s: seq<P>, p: P)
    requires p in s
    ensures multiset(Remove(s, p)) == multiset(s) - multiset{p}
  {
    assert s == [s[0]] + s[1..];
    if s[0] != p { RemoveBag(s[1..], p); }
  }

  /** Freeing buffers in use, one after the other, takes each of them off the use list once, and nothing else. */
  lemma {:induction false} FreeAllUse<P>(pool: Pool<P>, ps: seq<P>)
    requires multiset(ps) <= multiset(pool.use)
    ensures multiset(FreeAll(pool, ps).use) == multiset(pool.use) - multiset(ps)
    decreases |ps|
  {
    if ps != [] {
      var front, p := ps[..|ps| - 1], ps[|ps| - 1];
      BagLess(ps);
      FreeAllUse(pool, front);
      assert p in multiset(FreeAll(pool, front).use);
      RemoveBag(FreeAll(pool, front).use, p);
    }
  }

  function Backwards<P>(ps: seq<P>): seq<P>
    decreases |ps|
  {
    if ps == [] then [] else [ps[|ps| - 1]] + Backwards(ps[..|ps| - 1])
  }

  /** They are put in front of the free list, the one freed last first; so that is the next one handed out. */
  lemma {:induction false} FreeAllFree<P>(pool: Pool<P>, ps: seq<P>, unit: P)
    requires multiset(ps) <= multiset(pool.use)
    ensures FreeAll(pool, ps).free == Backwards(ps) + pool.free
    ensures ps != [] ==> Alloc(FreeAll(pool, ps), unit).1 == ps[|ps| - 1]
    decreases |ps|
  {
    if ps != [] {
      var front, p := ps[..|ps| - 1], ps[|ps| - 1];
      BagLess(ps);
      FreeAllFree(pool, front, unit);
      FreeAllUse(pool, front);
      hide Remove;
      assert p in multiset(FreeAll(pool, front).use);
      assert FreeAll(pool, ps).free == [p] + FreeAll(pool, front).free;
    }
  }

  lemma BagLess<P>(ps: seq<P>)
    requires ps != []
    ensures multiset(ps) == multiset(ps[..|ps| - 1]) + multiset{ps[|ps| - 1]}
  {
    assert ps == ps[..|ps| - 1] + [ps[|ps| - 1]];
  }

  /** s without its first p, the rest in order */
  function Remove<P(==)>(s: seq<P>, p: P): (r: seq<P>)
    ensures |r| == if p in s then |s| - 1 else |s|
    ensures forall x :: x in r ==> x in s
  {
    if s == [] then [] else if s[0] == p then s[1..] else [s[0]] + Remove(s[1..], p)
  }

  lemma {:induction false} RemoveOcc<P>(s: seq<P>, p: P, x: P)
    ensures Occ(Remove(s, p), x) == if x == p && p in s then Occ(s, x) - 1 else Occ(s, x)
  {
    if s != [] {
      OccHead(s, x);
      if s[0] != p {
        RemoveOcc(s[1..], p, x);
        OccConcat([s[0]], Remove(s[1..], p), x);
        assert p in s <==> p in s[1..];
      }
    }
  }

  lemma {:induction false} RemoveAt<P>(s: seq<P>, k: nat)
    requires k < |s| && s[k] !in s[..k]
    ensures Remove(s, s[k]) == s[..k] + s[k + 1..]
  {
    if k > 0 {
      assert s[0] == s[..k][0];
      assert s[1..][..k - 1] == s[..k][1..];
      RemoveAt(s[1..], k - 1);
      assert s[..k] == [s[0]] + s[1..][..k - 1];
    }
  }

  /** All buffers the pool has, in use or free */
  function Units<P(==)>(pool: Pool<P>): set<P> {
    (set p | p in pool.use) + (set p | p in pool.free)
  }

  lemma UnitsStay<P>(pool: Pool<P>, unit: P, p: P)
    ensures Units(Alloc(pool, unit).0) <= Units(pool) + {Alloc(pool, unit).1}
    ensures Units(Free(pool, p)) <= Units(pool)
  {
    if pool.free != [] { assert pool.free[0] in pool.free; }
  }

  // ----- runs -----

  datatype Op<P> = AllocOp(unit: P) | FreeOp(p: P)

  /** The pool, every buffer ever obtained from malloc, and the largest number in use so far. */
  datatype History<P> = History(pool: Pool<P>, units: seq<P>, peak: nat)

  function Begin<P>(): History<P> {
    History(Pool([], []), [], 0)
  }

  /** malloc returns memory that is not allocated. */
  predicate Possible<P(==)>(h: History<P>, op: Op<P>) {
    op.AllocOp? ==> op.unit !in h.units
  }

  function Do<P(==)>(h: History<P>, op: Op<P>): History<P> {
    match op
    case AllocOp(f) =>
      var pool := Alloc(h.pool, f).0;
      History(pool, if h.pool.free == [] then h.units + [f] else h.units,
              if |pool.use| > h.peak then |pool.use| else h.peak)
    case FreeOp(p) => h.(pool := Free(h.pool, p))
  }

  ghost predicate Leads<P(!new)>(ops: seq<Op<P>>, h: History<P>)
    decreases |ops|
  {
    if ops == [] then h == Begin<P>()
    else
      var front, op := ops[..|ops| - 1], ops[|ops| - 1];
      exists g :: Leads(front, g) && Possible(g, op) && h == Do(g, op)
  }

  ghost predicate Sound<P(!new)>(h: History<P>) {
    && (forall x :: Occ(h.pool.use, x) + Occ(h.pool.free, x) == Occ(h.units, x) <= 1)
    && |h.pool.use| + |h.pool.free| == |h.units| == h.peak
  }

  lemma DoSound<P(!new)>(h: History<P>, op: Op<P>)
    requires Sound(h) && Possible(h, op)
    ensures Sound(Do(h, op))
  {
    var h' := Do(h, op);
    forall x ensures Occ(h'.pool.use, x) + Occ(h'.pool.free, x) == Occ(h'.units, x) <= 1 {
      assert Occ(h.pool.use, x) + Occ(h.pool.free, x) == Occ(h.units, x) <= 1;
      match op
      case AllocOp(f) =>
        if h.pool.free != [] {
          OccHead(h.pool.free, x);
          OccConcat([h.pool.free[0]], h.pool.use, x);
        } else {
          OccConcat([f], h.pool.use, x);
          OccConcat(h.units, [f], x);
        }
      case FreeOp(p) =>
        if p in h.pool.use {
          RemoveOcc(h.pool.use, p, x);
          OccConcat([p], h.pool.free, x);
        }
    }
  }

  /** After any allocations and frees, frees of pointers not in use included: use and free list together
      hold every buffer ever obtained from malloc exactly once, and the number obtained is the largest
      number that was in use at one time. */
  lemma {:induction false} HighWaterMark<P(!new)>(ops: seq<Op<P>>, h: History<P>)
    requires Leads(ops, h)
    ensures forall x :: Occ(h.pool.use, x) + Occ(h.pool.free, x) == Occ(h.units, x) <= 1
    ensures |h.pool.use| + |h.pool.free| == |h.units| == h.peak
    decreases |ops|
  {
    if ops != [] {
      var front, op := ops[..|ops| - 1], ops[|ops| - 1];
      var g :| Leads(front, g) && Possible(g, op) && h == Do(g, op);
      HighWaterMark(front, g);
      DoSound(g, op);
    }
  }
}
