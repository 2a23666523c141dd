/**
 * The end-to-end run of the program's entry point: a protocol over a
 * buffer of capacity 5, three sends, a status snapshot, then MCU2 drains
 * the buffer until it reports that no message is available.
 */
module CommsTest {
  import opened Wrappers
  import opened Messages
  import opened CircularBuffers
  import opened Protocol

  /** What MCU2 receives from draining `queue`: each message with its checksum verdict, in order. */
  function Deliveries(queue: seq<Message>): (out: seq<(Message, bool)>)
    ensures |out| == |queue|
    ensures forall k :: 0 <= k < |queue| ==> out[k] == (queue[k], VerifyChecksum(queue[k]))
  {
    if queue == [] then [] else [(queue[0], VerifyChecksum(queue[0]))] + Deliveries(queue[1..])
  }

  /**
   * Drains `comm` the way the entry point does: receive until MCU2 reports
   * that no message is available, collecting what it receives.
   */
  method Drain(comm: CommunicationProtocol) returns (received: seq<(Message, bool)>)
    modifies comm.sharedBuffer
    ensures received == Deliveries(old(comm.sharedBuffer.buffer))
    ensures comm.sharedBuffer.buffer == []
    ensures comm.sharedBuffer.readCount == old(comm.sharedBuffer.readCount) + |received|
    ensures comm.sharedBuffer.writeCount == old(comm.sharedBuffer.writeCount)
  {
    ghost var queue := comm.sharedBuffer.buffer;
    received := [];
    while true
      invariant |received| + |comm.sharedBuffer.buffer| == |queue|
      invariant comm.sharedBuffer.buffer == queue[|received|..]
      invariant received == Deliveries(queue[..|received|])
      invariant comm.sharedBuffer.readCount == old(comm.sharedBuffer.readCount) + |received|
      invariant comm.sharedBuffer.writeCount == old(comm.sharedBuffer.writeCount)
      decreases |comm.sharedBuffer.buffer|
    {
      var next := comm.Mcu2Receive();
      if next.None? {
        break;
      }
      assert queue[..|received| + 1] == queue[..|received|] + [queue[|received|]];
      received := received + [next.value];
    }
    assert queue[..|received|] == queue;
  }

  /** The three messages of the scenario carry checksums 0x00, 0x01 and 0x06. */
  lemma ScenarioMessages()
    ensures NewMessage(1, [0x01, 0x02, 0x03]) == Message(1, [0x01, 0x02, 0x03], 0x00)
    ensures NewMessage(2, [0x04, 0x05]) == Message(2, [0x04, 0x05], 0x01)
    ensures NewMessage(3, [0x06]) == Message(3, [0x06], 0x06)
  {
    assert Checksum([0x01, 0x02, 0x03]) == 0x00 by {
      assert [0x01][..0] == [];
      assert Checksum([0x01]) == 0x01;
      assert [0x01, 0x02][..1] == [0x01];
      assert Checksum([0x01, 0x02]) == 0x03;
      assert [0x01, 0x02, 0x03][..2] == [0x01, 0x02];
    }
    assert Checksum([0x04, 0x05]) == 0x01 by {
      assert [0x04, 0x05][..1] == [0x04];
      assert [0x04][..0] == [];
    }
    assert Checksum([0x06]) == 0x06 by {
      assert [0x06][..0] == [];
    }
  }

  /** Draining the three scenario messages delivers each of them as valid, in order. */
  lemma ScenarioDeliveries()
    ensures Deliveries([Message(1, [0x01, 0x02, 0x03], 0x00), Message(2, [0x04, 0x05], 0x01), Message(3, [0x06], 0x06)]) == [
      (Message(1, [0x01, 0x02, 0x03], 0x00), true),
      (Message(2, [0x04, 0x05], 0x01), true),
      (Message(3, [0x06], 0x06), true)]
  {
    ScenarioMessages();
    NewMessageVerifies(1, [0x01, 0x02, 0x03]);
    NewMessageVerifies(2, [0x04, 0x05]);
    NewMessageVerifies(3, [0x06]);
  }

  /** The entry point's scenario, from construction to the drained buffer. */
  method Run() returns (ids: seq<u16>, status: (nat, bool, bool), received: seq<(Message, bool)>)
    ensures ids == [1, 2, 3] == IdsFrom(1, 3)
    ensures status == (3, false, false)
    ensures received == [
      (Message(1, [0x01, 0x02, 0x03], 0x00), true),
      (Message(2, [0x04, 0x05], 0x01), true),
      (Message(3, [0x06], 0x06), true)]
  {
    ScenarioMessages();
    ScenarioDeliveries();
    var comm := new CommunicationProtocol(5);
    var r1 := comm.Mcu1Send([0x01, 0x02, 0x03]);
    var r2 := comm.Mcu1Send([0x04, 0x05]);
    var r3 := comm.Mcu1Send([0x06]);
    ids := [r1.value, r2.value, r3.value];
    status := comm.GetBufferStatus();
    received := Drain(comm);
  }

  /**
   * Overwrite under a full buffer: with capacity 2, the first of three
   * sends is evicted unread, and MCU2 receives ids 2 and 3, then nothing.
   */
  method OverwriteRun() returns (received: seq<(Message, bool)>, status: (nat, bool, bool))
    ensures |received| == 2
    ensures received[0] == (NewMessage(2, [0x20]), true)
    ensures received[1] == (NewMessage(3, [0x30]), true)
    ensures status == (0, true, false)
  {
    assert Checksum([0x10]) == 0x10 by { assert [0x10][..0] == []; }
    assert Checksum([0x20]) == 0x20 by { assert [0x20][..0] == []; }
    assert Checksum([0x30]) == 0x30 by { assert [0x30][..0] == []; }
    var comm := new CommunicationProtocol(2);
    var r1 := comm.Mcu1Send([0x10]);
    var r2 := comm.Mcu1Send([0x20]);
    var r3 := comm.Mcu1Send([0x30]);
    assert comm.sharedBuffer.buffer == [NewMessage(2, [0x20]), NewMessage(3, [0x30])];
    received := Drain(comm);
    status := comm.GetBufferStatus();
    NewMessageVerifies(2, [0x20]);
    NewMessageVerifies(3, [0x30]);
  }
}
