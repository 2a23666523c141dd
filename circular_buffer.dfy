/**
 * The shared channel from MCU1 to MCU2: a bounded FIFO queue of messages
 * that, when full, drops its oldest entry to admit a new one, and counts
 * every message ever written and read.
 */
module CircularBuffers {
  import opened Wrappers
  import opened Messages

  /**
   * The queue after sending `m`: when the queue holds `capacity` messages or
   * more, its front is popped first (popping an empty queue does nothing),
   * then `m` is appended.
   */
  function Admit(queue: seq<Message>, capacity: nat, m: Message): (q: seq<Message>)
    ensures 0 < |q| && |queue| <= |q| <= |queue| + 1
    ensures |q| == |queue| + 1 <==> |queue| < capacity || queue == []
    ensures 0 < capacity && |queue| <= capacity ==> |q| <= capacity
  {
    var kept := if |queue| >= capacity && queue != [] then queue[1..] else queue;
    kept + [m]
  }

  /**
   * A send always leaves the new message last, preceded by a suffix of the
   * old queue: nothing is reordered, and only the front can be lost.
   */
  lemma AdmitShape(queue: seq<Message>, capacity: nat, m: Message)
    ensures var q := Admit(queue, capacity, m);
      q[|q| - 1] == m && q[..|q| - 1] == queue[|queue| - (|q| - 1)..]
  {
    var q := Admit(queue, capacity, m);
    assert q[..|q| - 1] == if |queue| >= capacity && queue != [] then queue[1..] else queue;
  }

  /** The queue after sending each of `ms` in turn, with no receive in between. */
  function SendAll(queue: seq<Message>, capacity: nat, ms: seq<Message>): seq<Message>
  {
    if ms == [] then queue
    else Admit(SendAll(queue, capacity, ms[..|ms| - 1]), capacity, ms[|ms| - 1])
  }

  /** The newest `n` entries of `s` (all of them when there are fewer). */
  function Newest(s: seq<Message>, n: nat): (r: seq<Message>)
    ensures |r| == if |s| > n then n else |s|
  {
    s[if |s| > n then |s| - n else 0..]
  }

  /** Appending `m` and dropping down to `n` entries is admitting `m` into the newest `n`. */
  lemma NewestAppend(s: seq<Message>, n: nat, m: Message)
    requires 0 < n
    ensures Newest(s + [m], n) == Admit(Newest(s, n), n, m)
  {
    var t := Newest(s, n);
    if |s| < n {
      assert t == s;
    } else {
      assert t[1..] + [m] == (s + [m])[|s| + 1 - n..];
    }
  }

  /**
   * With room for at least one message, a run of sends keeps exactly the
   * newest `capacity` messages of the old queue followed by the sent ones,
   * in send order.
   */
  lemma {:induction false} SendAllKeepsNewest(queue: seq<Message>, capacity: nat, ms: seq<Message>)
    requires 0 < capacity && |queue| <= capacity
    ensures SendAll(queue, capacity, ms) == Newest(queue + ms, capacity)
    decreases |ms|
  {
    if ms == [] {
      assert queue + ms == queue;
    } else {
      var init, m := ms[..|ms| - 1], ms[|ms| - 1];
      SendAllKeepsNewest(queue, capacity, init);
      assert queue + ms == (queue + init) + [m];
      NewestAppend(queue + init, capacity, m);
    }
  }

  /** After at least `capacity` sends into an empty queue, it holds exactly the last `capacity` sent, in order. */
  lemma {:induction false} SendAllFromEmpty(capacity: nat, ms: seq<Message>)
    requires 0 < capacity <= |ms|
    ensures SendAll([], capacity, ms) == ms[|ms| - capacity..]
    ensures |SendAll([], capacity, ms)| == capacity
  {
    var kept := SendAll([], capacity, ms);
    assert kept == Newest(ms, capacity) by {
      SendAllKeepsNewest([], capacity, ms);
      assert [] + ms == ms;
    }
    assert Newest(ms, capacity) == ms[|ms| - capacity..];
  }

  /**
   * With capacity 0 every send still admits its message (the pop before it
   * leaves at most one entry out), so the queue always overruns its capacity.
   */
  lemma CapacityZeroOverruns(queue: seq<Message>, m: Message)
    ensures |Admit(queue, 0, m)| > 0
    ensures queue != [] ==> |Admit(queue, 0, m)| == |queue|
  {
  }

  class CircularBuffer {
    var buffer: seq<Message>
    const capacity: nat
    var writeCount: nat
    var readCount: nat

    /** The bound that the drop-oldest policy maintains. */
    ghost predicate Valid()
      reads this
    {
      |buffer| <= capacity
    }

    /** An empty buffer; capacity 0 is accepted, as in the source. */
    constructor (capacity: nat)
      ensures buffer == [] && this.capacity == capacity
      ensures writeCount == 0 && readCount == 0
      ensures Valid()
    {
      buffer := [];
      this.capacity := capacity;
      writeCount := 0;
      readCount := 0;
    }

    /** Appends `message`, evicting the oldest entry first when full; never fails. */
    method SendMessage(message: Message) returns (r: Result<(), string>)
      modifies this
      ensures r == Ok(())
      ensures buffer == Admit(old(buffer), capacity, message)
      ensures old(|buffer|) < capacity ==> buffer == old(buffer) + [message]
      ensures old(|buffer|) >= capacity && old(buffer) != [] ==> buffer == old(buffer)[1..] + [message]
      ensures writeCount == old(writeCount) + 1 && readCount == old(readCount)
      ensures 0 < capacity && old(Valid()) ==> Valid()
    {
      if |buffer| >= capacity && buffer != [] {
        buffer := buffer[1..];
      }
      buffer := buffer + [message];
      writeCount := writeCount + 1;
      r := Ok(());
    }

    /** Pops the oldest entry, if any; an empty buffer is left untouched. */
    method ReceiveMessage() returns (r: Option<Message>)
      modifies this
      ensures old(buffer) == [] ==> r == None && buffer == old(buffer) && readCount == old(readCount)
      ensures old(buffer) != [] ==>
        r == Some(old(buffer)[0]) && buffer == old(buffer)[1..] && readCount == old(readCount) + 1
      ensures writeCount == old(writeCount)
      ensures old(Valid()) ==> Valid()
    {
      if buffer != [] {
        var message := buffer[0];
        buffer := buffer[1..];
        readCount := readCount + 1;
        r := Some(message);
      } else {
        r := None;
      }
    }

    function IsEmpty(): (b: bool)
      reads this
      ensures b <==> Length() == 0
    {
      buffer == []
    }

    function IsFull(): (b: bool)
      reads this
      ensures b <==> Length() >= capacity
      ensures Valid() && b ==> Length() == capacity
    {
      |buffer| >= capacity
    }

    function Length(): (n: nat)
      reads this
      ensures Valid() ==> n <= capacity
    {
      |buffer|
    }
  }

  /** A buffer built with capacity 0 holds one message after one send, breaking the bound. */
  method CapacityZeroBuffer(m: Message) returns (b: CircularBuffer)
    ensures b.capacity == 0 && b.buffer == [m] && b.writeCount == 1
    ensures !b.Valid()
  {
    b := new CircularBuffer(0);
    var r := b.SendMessage(m);
  }
}
