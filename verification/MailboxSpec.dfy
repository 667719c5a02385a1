/** One module's mailbox as values: three queues behind one semaphore, drop-oldest writes, reads from the
    highest non-empty priority.  (src/async_msg.c:148-228) */
module MailboxSpec {

  const CAPACITY: nat := 128    // MAX_MSGQUEUE_SIZE
  const PRIORITIES: nat := 3    // MAX_MSGQ_PRIORITYS; high, middle, low

  /** Append, giving up the oldest message of a full queue. */
  function Push<T>(q: seq<T>, m: T): seq<T> {
    if |q| == CAPACITY then q[1..] + [m] else q + [m]
  }

  /** The last n elements. */
  function Latest<T>(s: seq<T>, n: nat): (r: seq<T>)
    ensures |r| == if |s| <= n then |s| else n
  {
    if |s| <= n then s else s[|s| - n..]
  }

  function PushAll<T>(q: seq<T>, ms: seq<T>): seq<T>
    decreases |ms|
  {
    if ms == [] then q else Push(PushAll(q, ms[..|ms| - 1]), ms[|ms| - 1])
  }

  /** Whatever is written without a read in between, the queue holds the last 128 of what it held and what
      was written, in order. */
  lemma {:induction false} KeepsLatest<T>(q: seq<T>, ms: seq<T>)
    requires |q| <= CAPACITY
    ensures PushAll(q, ms) == Latest(q + ms, CAPACITY)
    decreases |ms|
  {
    if ms == [] {
      assert q + ms == q;
    } else {
      var front, m := ms[..|ms| - 1], ms[|ms| - 1];
      KeepsLatest(q, front);
      assert q + ms == q + front + [m];
    }
  }

  /** Hence a message leaves by being dropped only once 128 later ones have been written. */
  lemma StaysFor128<T>(q: seq<T>, ms: seq<T>, k: nat)
    requires |q| <= CAPACITY && k < |q + ms|
    ensures var held := PushAll(q, ms);
            |q + ms| - k <= CAPACITY ==> k >= |q + ms| - |held| && held[k - (|q + ms| - |held|)] == (q + ms)[k]
    ensures |q + ms| - k > CAPACITY ==> k < |q + ms| - |PushAll(q, ms)|
  {
    KeepsLatest(q, ms);
  }

  datatype Box<T> = Box(queues: seq<seq<T>>, sem: nat)

  predicate Shape<T>(b: Box<T>) {
    |b.queues| == PRIORITIES && forall i :: 0 <= i < PRIORITIES ==> |b.queues[i]| <= CAPACITY
  }

  function Queued<T>(b: Box<T>): nat
    requires Shape(b)
  {
    |b.queues[0]| + |b.queues[1]| + |b.queues[2]|
  }

  /** Everything queued in the order it will be read. */
  function ReadOrder<T>(b: Box<T>): seq<T>
    requires Shape(b)
  {
    b.queues[0] + b.queues[1] + b.queues[2]
  }

  datatype Victim<T> = Dropped(m: T) | Kept

  /** write_msg on a bound mailbox: the message the full queue gives up, if it was full. */
  function Write<T>(b: Box<T>, pri: nat, m: T): (Box<T>, Victim<T>)
    requires Shape(b) && pri < PRIORITIES
  {
    var q := b.queues[pri];
    (Box(b.queues[pri := Push(q, m)], b.sem + 1), if |q| == CAPACITY then Dropped(q[0]) else Kept)
  }

  datatype Outcome<T> = Message(m: T) | NoMessage | Waits

  /** read_msg on a bound mailbox. */
  function Read<T>(b: Box<T>): (Box<T>, Outcome<T>)
    requires Shape(b)
  {
    if b.sem == 0 then (b, Waits)
    else
      var b' := b.(sem := b.sem - 1);
      if b.queues[0] != [] then (b'.(queues := b.queues[0 := b.queues[0][1..]]), Message(b.queues[0][0]))
      else if b.queues[1] != [] then (b'.(queues := b.queues[1 := b.queues[1][1..]]), Message(b.queues[1][0]))
      else if b.queues[2] != [] then (b'.(queues := b.queues[2 := b.queues[2][1..]]), Message(b.queues[2][0]))
      else (b', NoMessage)
  }

  /** What n successive reads return. */
  function Reads<T>(b: Box<T>, n: nat): (out: seq<Outcome<T>>)
    requires Shape(b)
    ensures |out| == n
    decreases n
  {
    if n == 0 then [] else [Read(b).1] + Reads(ReadShape(b), n - 1)
  }

  function ReadShape<T>(b: Box<T>): (b': Box<T>)
    requires Shape(b)
    ensures Shape(b')
  {
    Read(b).0
  }

  lemma ReadFront<T>(b: Box<T>)
    requires Shape(b) && b.sem > 0
    ensures ReadOrder(b) != [] ==>
              Read(b).1 == Message(ReadOrder(b)[0]) && ReadOrder(ReadShape(b)) == ReadOrder(b)[1..]
    ensures ReadOrder(b) == [] ==> Read(b).1 == NoMessage && ReadOrder(ReadShape(b)) == []
  {
    if b.queues[0] != [] {
      assert ReadOrder(b)[1..] == b.queues[0][1..] + b.queues[1] + b.queues[2];
    } else if b.queues[1] != [] {
      assert ReadOrder(b)[1..] == b.queues[1][1..] + b.queues[2];
    }
  }

  /** Draining.  With `spare` tokens beyond one per message, successive reads return everything queued -
      high, then middle, then low, each in order -, then NULL exactly `spare` times, and only then wait. */
  lemma {:induction false} Drain<T>(b: Box<T>, spare: nat, n: nat)
    requires Shape(b) && b.sem == Queued(b) + spare
    ensures forall k :: 0 <= k < n ==>
              Reads(b, n)[k] == if k < Queued(b) then Message(ReadOrder(b)[k])
                                else if k < Queued(b) + spare then NoMessage
                                else Waits
    decreases n
  {
    if n > 0 {
      if b.sem > 0 { ReadFront(b); }
      var b' := ReadShape(b);
      Drain(b', if Queued(b) == 0 && spare > 0 then spare - 1 else spare, n - 1);
      forall k | 0 <= k < n
        ensures Reads(b, n)[k] == if k < Queued(b) then Message(ReadOrder(b)[k])
                                  else if k < Queued(b) + spare then NoMessage
                                  else Waits
      {
        if k > 0 {
          assert Reads(b, n)[k] == Reads(b', n - 1)[k - 1];
        }
      }
    }
  }

  // ----- any writes, then any reads -----

  datatype Letter<T> = Letter(pri: nat, m: T)

  predicate Postable<T>(ls: seq<Letter<T>>) {
    forall i :: 0 <= i < |ls| ==> ls[i].pri < PRIORITIES
  }

  function WriteAll<T>(b: Box<T>, ls: seq<Letter<T>>): (b': Box<T>)
    requires Shape(b) && Postable(ls)
    ensures Shape(b')
    decreases |ls|
  {
    if ls == [] then b
    else Write(WriteAll(b, ls[..|ls| - 1]), ls[|ls| - 1].pri, ls[|ls| - 1].m).0
  }

  /** The messages of one priority, in order */
  function Addressed<T>(ls: seq<Letter<T>>, pri: nat): seq<T>
    decreases |ls|
  {
    if ls == [] then []
    else Addressed(ls[..|ls| - 1], pri) + if ls[|ls| - 1].pri == pri then [ls[|ls| - 1].m] else []
  }

  /** One write: the queue of the message's priority ends with it, keeping the last 128; the others stay; there is
      one token more; and the message given up, if any, is the oldest. */
  lemma WriteMeans<T>(b: Box<T>, pri: nat, m: T)
    requires Shape(b) && pri < PRIORITIES
    ensures var (b', victim) := Write(b, pri, m);
            && Shape(b') && b'.sem == b.sem + 1
            && b'.queues[pri] == Latest(b.queues[pri] + [m], CAPACITY)
            && (forall i :: 0 <= i < PRIORITIES && i != pri ==> b'.queues[i] == b.queues[i])
            && (victim == Kept <==> |b.queues[pri]| < CAPACITY)
            && (victim.Dropped? ==> b.queues[pri] == [victim.m] + b.queues[pri][1..])
  {
  }

  lemma LatestMore<T>(s: seq<T>, t: seq<T>, m: T, n: nat)
    requires n > 0
    ensures Latest(Latest(s + t, n) + [m], n) == Latest(s + (t + [m]), n)
  {
    assert s + (t + [m]) == s + t + [m];
  }

  /** Any writes to any priorities: each queue keeps the last 128 of what it held and what was written to it. */
  lemma {:induction false} WritesMean<T>(b: Box<T>, ls: seq<Letter<T>>, pri: nat)
    requires Shape(b) && Postable(ls) && pri < PRIORITIES
    ensures WriteAll(b, ls).queues[pri] == Latest(b.queues[pri] + Addressed(ls, pri), CAPACITY)
    ensures WriteAll(b, ls).sem == b.sem + |ls|
    decreases |ls|
  {
    if ls == [] {
      assert b.queues[pri] + [] == b.queues[pri];
    } else {
      var front, l := ls[..|ls| - 1], ls[|ls| - 1];
      WritesMean(b, front, pri);
      WriteMeans(WriteAll(b, front), l.pri, l.m);
      hide Write;
      if l.pri == pri {
        LatestMore(b.queues[pri], Addressed(front, pri), l.m, CAPACITY);
      } else {
        assert Addressed(front, pri) + [] == Addressed(front, pri);
      }
    }
  }

  /** Everything together, for an empty mailbox and any writes to any priorities: the reads that follow return, of
      each priority, the last 128 written, in order, high before middle before low; then NULL as often as
      messages were dropped, so that there are as many of both as there were writes; and then wait. */
  lemma WritesThenReads<T>(ls: seq<Letter<T>>, n: nat)
    requires Postable(ls)
    ensures var order := Latest(Addressed(ls, 0), 128) + Latest(Addressed(ls, 1), 128) + Latest(Addressed(ls, 2), 128);
            && |order| <= |ls|
            && forall k :: 0 <= k < n ==>
                 Reads(WriteAll(Box([[], [], []], 0), ls), n)[k]
                   == if k < |order| then Message(order[k]) else if k < |ls| then NoMessage else Waits
  {
    var none: Box<T> := Box([[], [], []], 0);
    var b := WriteAll(none, ls);
    forall pri: nat | pri < PRIORITIES ensures b.queues[pri] == Latest(Addressed(ls, pri), CAPACITY) && b.sem == |ls| {
      WritesMean(none, ls, pri);
      assert none.queues[pri] + Addressed(ls, pri) == Addressed(ls, pri);
    }
    AddressedFit(ls);
    assert ReadOrder(b) == b.queues[0] + b.queues[1] + b.queues[2];
    hide Latest, Reads, WriteAll, Addressed;
    Drain(b, |ls| - Queued(b), n);
  }

  lemma {:induction false} AddressedFit<T>(ls: seq<Letter<T>>)
    ensures |Addressed(ls, 0)| + |Addressed(ls, 1)| + |Addressed(ls, 2)| <= |ls|
    decreases |ls|
  {
    if ls != [] { AddressedFit(ls[..|ls| - 1]); }
  }
}
