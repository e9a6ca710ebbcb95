/** The interrupt queue of devices/intq.c: a ring of bytes shared by one kernel thread and
    an interrupt handler.

    Each method is a stretch that runs with interrupts off: a call from the handler, or the
    thread's way through the loop of `intq_getc` or `intq_putc` up to its end or up to the
    point where it blocks.  The thread and the handler may alternate in any order. */
module Intq {
  import opened Basics

  type Tid = nat

  const BUFSIZE: nat := 64

  function Next(pos: nat): nat { (pos + 1) % BUFSIZE }

  function Occupancy(head: nat, tail: nat): nat
    requires tail < BUFSIZE
  {
    (head + BUFSIZE - tail) % BUFSIZE
  }

  function Place(tail: nat, i: nat): nat { (tail + i) % BUFSIZE }

  /** The `n` bytes from position `tail` on, around the end of the buffer. */
  function Ring(buf: seq<Byte>, tail: nat, n: nat): seq<Byte>
    requires |buf| == BUFSIZE
  {
    seq(n, i requires 0 <= i => buf[Place(tail, i)])
  }

  /** Why the thread is blocked, if it is. */
  datatype Sleep = Awake | ForByte | ForRoom

  class Queue {
    const buf: array<Byte>
    var head: nat
    var tail: nat
    var notFull: Option<Tid>
    var notEmpty: Option<Tid>
    const thread: Tid                 // the one thread that uses the queue
    var sleep: Sleep                  // its status
    ghost var added: seq<Byte>
    ghost var removed: seq<Byte>

    ghost predicate Shape()
      reads this, buf
    {
      buf.Length == BUFSIZE && head < BUFSIZE && tail < BUFSIZE
    }

    ghost function Contents(): seq<Byte>
      requires Shape()
      reads this, buf
    {
      Ring(buf[..], tail, Occupancy(head, tail))
    }

    /** The bytes removed are an in-order prefix of those added, the rest is in the ring; a
        recorded waiter is the blocked thread, and its condition still does not hold. */
    ghost predicate Valid()
      reads this, buf
    {
      && Shape()
      && added == removed + Contents()
      && notEmpty == (if sleep == ForByte then Some(thread) else None)
      && notFull == (if sleep == ForRoom then Some(thread) else None)
      && (sleep == ForByte ==> head == tail)
      && (sleep == ForRoom ==> Next(head) == tail)
    }

    /** `intq_init`. */
    constructor (thread: Tid)
      ensures Valid() && added == [] && sleep == Awake && fresh(buf)
    {
      buf := new Byte[BUFSIZE];
      head, tail := 0, 0;
      notFull, notEmpty := None, None;
      this.thread := thread;
      sleep := Awake;
      added, removed := [], [];
    }

    /** `intq_empty`. */
    method Empty() returns (r: bool)
      requires Valid()
      ensures r <==> Contents() == []
    {
      r := head == tail;
    }

    /** `intq_full`. */
    method Full() returns (r: bool)
      requires Valid()
      ensures r <==> |Contents()| == BUFSIZE - 1
    {
      r := Next(head) == tail;
    }

    /** The end of `intq_putc`, behind the loop. */
    method Put(b: Byte)
      requires Valid() && |Contents()| < BUFSIZE - 1 && sleep != ForRoom
      modifies this, buf
      ensures Valid() && sleep == Awake
      ensures Contents() == old(Contents()) + [b] && added == old(added) + [b] && removed == old(removed)
    {
      RingPut(buf[..], head, tail, b);
      buf[head] := b;
      head := Next(head);
      added := added + [b];
      assert Contents() == old(Contents()) + [b];
      if notEmpty.Some? {
        sleep := Awake;               // thread_unblock
        notEmpty := None;
      }
    }

    /** The end of `intq_getc`, behind the loop. */
    method Get() returns (b: Byte)
      requires Valid() && Contents() != [] && sleep != ForByte
      modifies this
      ensures Valid() && sleep == Awake
      ensures [b] + Contents() == old(Contents()) && removed == old(removed) + [b] && added == old(added)
    {
      RingGet(buf[..], head, tail);
      b := buf[tail];
      tail := Next(tail);
      removed := removed + [b];
      if notFull.Some? {
        sleep := Awake;               // thread_unblock
        notFull := None;
      }
    }

    /** The handler adds a byte, which it may do only if the queue is not full. */
    method HandlerPutc(b: Byte)
      requires Valid() && |Contents()| < BUFSIZE - 1
      modifies this, buf
      ensures Valid() && sleep == Awake && Contents() == old(Contents()) + [b]
    {
      RingFull(head, tail);
      Put(b);
    }

    /** The handler removes a byte, which it may do only if the queue is not empty. */
    method HandlerGetc() returns (b: Byte)
      requires Valid() && Contents() != []
      modifies this
      ensures Valid() && sleep == Awake && [b] + Contents() == old(Contents())
    {
      b := Get();
    }

    /** The thread tests the loop of `intq_getc`: it takes the oldest byte or blocks. */
    method ThreadGetc() returns (r: Option<Byte>)
      requires Valid() && sleep == Awake
      modifies this
      ensures Valid()
      ensures r.Some? ==> sleep == Awake && [r.value] + Contents() == old(Contents())
      ensures r.None? ==> sleep == ForByte && Contents() == old(Contents()) == []
    {
      if head == tail {
        notEmpty := Some(thread);
        sleep := ForByte;             // thread_block
        return None;
      }
      var b := Get();
      return Some(b);
    }

    /** The thread tests the loop of `intq_putc`: it adds the byte or blocks. */
    method ThreadPutc(b: Byte) returns (done: bool)
      requires Valid() && sleep == Awake
      modifies this, buf
      ensures Valid()
      ensures done ==> sleep == Awake && Contents() == old(Contents()) + [b]
      ensures !done ==> sleep == ForRoom && Contents() == old(Contents()) && |Contents()| == BUFSIZE - 1
    {
      RingFull(head, tail);
      if Next(head) == tail {
        notFull := Some(thread);
        sleep := ForRoom;             // thread_block
        return false;
      }
      Put(b);
      return true;
    }

    /** In every state: the bytes removed are a prefix of those added, at most 63 bytes wait,
        and a blocked thread's condition is false. */
    lemma InOrder()
      requires Valid()
      ensures removed <= added && |added| - |removed| <= BUFSIZE - 1
      ensures sleep == ForByte ==> added == removed
      ensures sleep == ForRoom ==> |added| - |removed| == BUFSIZE - 1
    {
      RingFull(head, tail);
    }
  }

  lemma RingFull(head: nat, tail: nat)
    requires head < BUFSIZE && tail < BUFSIZE
    ensures Next(head) == tail <==> Occupancy(head, tail) == BUFSIZE - 1
    ensures head == tail <==> Occupancy(head, tail) == 0
  {
  }

  lemma RingPut(buf: seq<Byte>, head: nat, tail: nat, b: Byte)
    requires |buf| == BUFSIZE && head < BUFSIZE && tail < BUFSIZE && Occupancy(head, tail) < BUFSIZE - 1
    ensures Occupancy(Next(head), tail) == Occupancy(head, tail) + 1
    ensures Ring(buf[head := b], tail, Occupancy(head, tail) + 1) == Ring(buf, tail, Occupancy(head, tail)) + [b]
  {
    var n := Occupancy(head, tail);
    assert Place(tail, n) == head;
    forall i | 0 <= i < n ensures Place(tail, i) != head {
    }
  }

  lemma RingGet(buf: seq<Byte>, head: nat, tail: nat)
    requires |buf| == BUFSIZE && head < BUFSIZE && tail < BUFSIZE && Occupancy(head, tail) > 0
    ensures Occupancy(head, Next(tail)) == Occupancy(head, tail) - 1
    ensures Ring(buf, tail, Occupancy(head, tail)) == [buf[tail]] + Ring(buf, Next(tail), Occupancy(head, tail) - 1)
  {
    var n := Occupancy(head, tail);
    forall i | 0 <= i < n - 1 ensures Place(Next(tail), i) == Place(tail, i + 1) {
    }
  }
}
