/**
 * The protocol between the two microcontrollers: MCU1 sends payloads,
 * each stamped with the next 16-bit id, into the shared buffer; MCU2
 * receives them with a flag saying whether the checksum still holds.
 */
module Protocol {
  import opened Wrappers
  import opened Messages
  import opened CircularBuffers

  /** Rust's `u16::wrapping_add(1)`. */
  function WrappingIncrement(x: u16): (y: u16)
    ensures y == (x + 1) % 0x1_0000
    ensures x < 0xFFFF ==> y == x + 1
  {
    if x == 0xFFFF then 0 else x + 1
  }

  /** The ids handed out by `count` consecutive sends when the next id is `first`. */
  function IdsFrom(first: u16, count: nat): (ids: seq<u16>)
    ensures |ids| == count
    decreases count
  {
    if count == 0 then [] else [first] + IdsFrom(WrappingIncrement(first), count - 1)
  }

  /** Consecutive sends get `first`, `first + 1`, ... modulo 2^16. */
  lemma {:induction false} IdsFromAt(first: u16, count: nat, k: nat)
    requires k < count
    ensures IdsFrom(first, count)[k] == (first + k) % 0x1_0000
    decreases count
  {
    if k > 0 {
      var next := WrappingIncrement(first);
      assert IdsFrom(first, count)[k] == IdsFrom(next, count - 1)[k - 1];
      IdsFromAt(next, count - 1, k - 1);
      WrapThenAdd(first, k - 1);
    }
  }

  /** Wrapping after the first step does not change the id reached `k` steps later. */
  lemma WrapThenAdd(x: u16, k: nat)
    ensures (WrappingIncrement(x) + k) % 0x1_0000 == (x + 1 + k) % 0x1_0000
  {
    if x == 0xFFFF {
      assert x + 1 + k == 0x1_0000 + k;
    }
  }

  /** One more send appends the next id modulo 2^16. */
  lemma IdsFromSnoc(first: u16, count: nat)
    ensures IdsFrom(first, count + 1) == IdsFrom(first, count) + [(first + count) % 0x1_0000]
  {
    var longer, shorter := IdsFrom(first, count + 1), IdsFrom(first, count);
    forall k | 0 <= k < count + 1
      ensures longer[k] == (shorter + [(first + count) % 0x1_0000])[k]
    {
      IdsFromAt(first, count + 1, k);
      if k < count {
        IdsFromAt(first, count, k);
      }
    }
  }

  /** Up to 2^16 consecutive sends never reuse an id. */
  lemma IdsFromDistinct(first: u16, count: nat, j: nat, k: nat)
    requires count <= 0x1_0000
    requires j < k < count
    ensures IdsFrom(first, count)[j] != IdsFrom(first, count)[k]
  {
    IdsFromAt(first, count, j);
    IdsFromAt(first, count, k);
  }

  /** The 2^16-th send after `first` reuses `first`. */
  lemma IdsWrapAround(first: u16)
    ensures IdsFrom(first, 0x1_0001)[0x1_0000] == first
  {
    IdsFromAt(first, 0x1_0001, 0x1_0000);
  }

  class CommunicationProtocol {
    const sharedBuffer: CircularBuffer
    var nextMessage: u16

    /** With a positive capacity, the shared buffer stays within its bound. */
    ghost predicate Valid()
      reads this, sharedBuffer
    {
      0 < sharedBuffer.capacity ==> sharedBuffer.Valid()
    }

    constructor (bufferCapacity: nat)
      ensures fresh(sharedBuffer)
      ensures sharedBuffer.buffer == [] && sharedBuffer.capacity == bufferCapacity
      ensures sharedBuffer.writeCount == 0 && sharedBuffer.readCount == 0
      ensures nextMessage == 1
      ensures Valid()
    {
      sharedBuffer := new CircularBuffer(bufferCapacity);
      nextMessage := 1;
    }

    /**
     * Builds a message carrying the next id and pushes it into the shared
     * buffer, possibly evicting the oldest unread one; returns the id used.
     */
    method Mcu1Send(payload: seq<byte>) returns (r: Result<u16, string>)
      modifies this, sharedBuffer
      ensures r == Ok(old(nextMessage))
      ensures nextMessage == WrappingIncrement(old(nextMessage))
      ensures sharedBuffer.buffer == Admit(old(sharedBuffer.buffer), sharedBuffer.capacity, NewMessage(old(nextMessage), payload))
      ensures sharedBuffer.writeCount == old(sharedBuffer.writeCount) + 1
      ensures sharedBuffer.readCount == old(sharedBuffer.readCount)
      ensures old(Valid()) ==> Valid()
    {
      var message := NewMessage(nextMessage, payload);
      var messageId := nextMessage;
      var sent := sharedBuffer.SendMessage(message);
      assert sent.Ok?;
      nextMessage := WrappingIncrement(nextMessage);
      r := Ok(messageId);
    }

    /**
     * Pops the oldest message, if any, paired with whether its checksum
     * verifies; the message is consumed whether or not it is valid.
     */
    method Mcu2Receive() returns (r: Option<(Message, bool)>)
      modifies sharedBuffer
      ensures old(sharedBuffer.buffer) == [] ==>
        r == None && sharedBuffer.buffer == [] && sharedBuffer.readCount == old(sharedBuffer.readCount)
      ensures old(sharedBuffer.buffer) != [] ==>
        var m := old(sharedBuffer.buffer)[0];
        r == Some((m, VerifyChecksum(m))) &&
        sharedBuffer.buffer == old(sharedBuffer.buffer)[1..] &&
        sharedBuffer.readCount == old(sharedBuffer.readCount) + 1
      ensures sharedBuffer.writeCount == old(sharedBuffer.writeCount)
      ensures old(Valid()) ==> Valid()
    {
      var received := sharedBuffer.ReceiveMessage();
      if received.Some? {
        var message := received.value;
        var validChecksum := VerifyChecksum(message);
        r := Some((message, validChecksum));
      } else {
        r := None;
      }
    }

    /** A snapshot (length, empty, full) of the shared buffer. */
    function GetBufferStatus(): (status: (nat, bool, bool))
      reads this, sharedBuffer
      ensures status.0 == |sharedBuffer.buffer|
      ensures status.1 <==> status.0 == 0
      ensures status.2 <==> status.0 >= sharedBuffer.capacity
    {
      (sharedBuffer.Length(), sharedBuffer.IsEmpty(), sharedBuffer.IsFull())
    }
  }

  /** The messages that consecutive sends of `payloads` build when the next id is `first`. */
  function Stamped(first: u16, payloads: seq<seq<byte>>): (ms: seq<Message>)
    ensures |ms| == |payloads|
  {
    var ids := IdsFrom(first, |payloads|);
    seq(|payloads|, k requires 0 <= k < |payloads| => NewMessage(ids[k], payloads[k]))
  }

  /** Extending the payloads by one stamps one more message, with the next id modulo 2^16. */
  lemma StampedPrefix(first: u16, payloads: seq<seq<byte>>, i: nat)
    requires i < |payloads|
    ensures Stamped(first, payloads[..i + 1]) == Stamped(first, payloads[..i]) + [NewMessage((first + i) % 0x1_0000, payloads[i])]
  {
    var longer, shorter := Stamped(first, payloads[..i + 1]), Stamped(first, payloads[..i]);
    IdsFromSnoc(first, i);
    assert longer[..i] == shorter;
  }

  /** The id after the one `i` sends past `first` is the one `i + 1` sends past it. */
  lemma NextIdAfter(first: u16, i: nat)
    ensures WrappingIncrement((first + i) % 0x1_0000) == (first + i + 1) % 0x1_0000
  {
    var x := first + i;
    if x % 0x1_0000 + 1 < 0x1_0000 {
      assert (x + 1) % 0x1_0000 == x % 0x1_0000 + 1;
    } else {
      assert (x + 1) % 0x1_0000 == 0;
    }
  }

  /**
   * MCU1 sends each of `payloads` in turn through `comm`: the ids are
   * consecutive modulo 2^16, and the shared buffer is the result of
   * admitting the stamped messages one by one, so with a positive capacity
   * it keeps the newest `capacity` of the old entries and the sent messages.
   */
  method Mcu1SendEach(comm: CommunicationProtocol, payloads: seq<seq<byte>>) returns (ids: seq<u16>)
    modifies comm, comm.sharedBuffer
    ensures ids == IdsFrom(old(comm.nextMessage), |payloads|)
    ensures comm.nextMessage == (old(comm.nextMessage) + |payloads|) % 0x1_0000
    ensures comm.sharedBuffer.buffer ==
      SendAll(old(comm.sharedBuffer.buffer), comm.sharedBuffer.capacity, Stamped(old(comm.nextMessage), payloads))
    ensures 0 < comm.sharedBuffer.capacity && old(|comm.sharedBuffer.buffer|) <= comm.sharedBuffer.capacity ==>
      comm.sharedBuffer.buffer ==
      Newest(old(comm.sharedBuffer.buffer) + Stamped(old(comm.nextMessage), payloads), comm.sharedBuffer.capacity)
    ensures comm.sharedBuffer.writeCount == old(comm.sharedBuffer.writeCount) + |payloads|
    ensures comm.sharedBuffer.readCount == old(comm.sharedBuffer.readCount)
    ensures old(comm.Valid()) ==> comm.Valid()
  {
    ghost var first, queue := comm.nextMessage, comm.sharedBuffer.buffer;
    var capacity := comm.sharedBuffer.capacity;
    ids := [];
    var i := 0;
    while i < |payloads|
      invariant 0 <= i <= |payloads|
      invariant ids == IdsFrom(first, i)
      invariant comm.nextMessage == (first + i) % 0x1_0000
      invariant comm.sharedBuffer.buffer == SendAll(queue, capacity, Stamped(first, payloads[..i]))
      invariant comm.sharedBuffer.writeCount == old(comm.sharedBuffer.writeCount) + i
      invariant comm.sharedBuffer.readCount == old(comm.sharedBuffer.readCount)
    {
      ghost var sent := Stamped(first, payloads[..i]);
      ghost var m := NewMessage((first + i) % 0x1_0000, payloads[i]);
      var r := comm.Mcu1Send(payloads[i]);
      StampedPrefix(first, payloads, i);
      assert comm.sharedBuffer.buffer == SendAll(queue, capacity, sent + [m]) by {
        assert (sent + [m])[..|sent|] == sent;
      }
      assert ids + [r.value] == IdsFrom(first, i + 1) by {
        IdsFromSnoc(first, i);
      }
      NextIdAfter(first, i);
      ids := ids + [r.value];
      i := i + 1;
    }
    assert payloads[..i] == payloads;
    if 0 < capacity && |queue| <= capacity {
      SendAllKeepsNewest(queue, capacity, Stamped(first, payloads));
    }
  }
}
