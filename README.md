# communication-protocol in Dafny

A model of a small in-process message channel between two microcontrollers,
MCU1 (producer) and MCU2 (consumer), and proofs about it. It has three layers:

- **Message** (`Messages`): an immutable record made of a 16-bit id, a byte payload and an
  8-bit checksum. The checksum is the XOR fold of the payload, starting from 0.
  Construction computes the checksum. Verification recomputes it and compares.
- **CircularBuffer** (`CircularBuffers`): a bounded FIFO queue of messages.
  When it is full, it drops its oldest entry before appending. It counts every
  write and every successful read, cumulatively.
- **CommunicationProtocol** (`Protocol`): owns one buffer and a 16-bit
  `next_message` counter. The counter starts at 1 and advances with wrap-around.
  `mcu1_send` stamps a payload with the next id and pushes it. `mcu2_receive` pops
  the oldest message and pairs it with its checksum verdict.

`CommsTest` models the program's entry point: capacity 5, three sends, a
status snapshot, then a `while let` loop that drains the buffer.

Message is a `datatype`. The buffer and the protocol are classes whose methods
update their fields in place. The `VecDeque` is a `seq<Message>` field, and the
capacity is a `const` field. A single send is specified by the pure function
`Admit`, and a run of sends without receives by `SendAll`. The class methods
are tied to these functions: `SendMessage` and `Mcu1Send` state their new queue as
`Admit` of the old one. The driver `Mcu1SendEach` calls `Mcu1Send` once per
payload in a loop. It proves, about a protocol object, two things: the ids it
returns are `IdsFrom` its starting id, and its buffer is `SendAll` of the
stamped messages. With a positive capacity, and when the buffer was within
its bound before, that buffer is the newest `capacity` entries. The protocol's
`Valid()` says the buffer is within its bound whenever the capacity is positive.
The constructor establishes it, and `Mcu1Send`, `Mcu2Receive` and
`Mcu1SendEach` preserve it. So the hypothesis holds in every reachable state.

`CircularBuffer::new` (src/main.rs:63-70) accepts capacity 0. A send then pops
from an empty queue, which does nothing, and pushes, so the length becomes
1 > 0. The model keeps capacity 0 as a legal argument (`CapacityZeroOverruns`,
`CapacityZeroBuffer`). The bound `length <= capacity` (`Valid`) is preserved
only when `capacity > 0`, and the contracts say so explicitly.

## Model

| member | source | states |
|---|---|---|
| Messages.NewMessage | src/main.rs:33-40 | the new message stores the given id and payload unchanged, and its checksum is the XOR fold of the payload |
| Messages.VerifyChecksum | src/main.rs:49-51 | a message passes exactly when it equals the message that construction builds from its own id and payload |
| Messages.NewMessageVerifies | src/main.rs:33-51 | every freshly built message passes verification and keeps its id and payload |
| Messages.ChecksumAppend | src/main.rs:44-46 | the checksum of a concatenation is the XOR of the parts' checksums, so any grouping of the fold gives the same value |
| Messages.ChecksumCons | src/main.rs:44-46 | read as a right fold, the checksum is the first byte XOR the checksum of the rest |
| Messages.ChecksumUpdate | src/main.rs:44-46 | replacing byte `i` by `v` changes the checksum by exactly `p[i] ^ v` |
| Messages.ChecksumFlip | src/main.rs:44-46 | XOR-ing a mask into one byte XORs the same mask into the checksum |
| Messages.ChecksumRemove | src/main.rs:44-46 | removing byte `i` takes exactly that byte out of the checksum |
| Messages.MultisetRemove | src/main.rs:44-46 | taking one equal byte out of two payloads with equal multisets leaves equal multisets, the step of the permutation proof |
| Messages.ChecksumPermutation | src/main.rs:44-46 | payloads that are permutations of each other have the same checksum |
| Messages.ChecksumPairFlip | src/main.rs:44-46 | flipping the same bits in two different bytes leaves the checksum unchanged |
| Messages.DetectsSingleByteCorruption | src/main.rs:49-51 | changing any single payload byte of a valid message makes verification fail |
| Messages.MissesCancellingPair | src/main.rs:49-51 | a valid message whose payload has the same bit flips in two different bytes still verifies (the scheme's accepted weakness) |
| Messages.MissesReordering | src/main.rs:49-51 | a valid message whose payload is reordered, by a transposition for example, still verifies |
| CircularBuffers.Admit | src/main.rs:77-81 | a send grows the queue by at most one. It grows by exactly one when the queue was below capacity or empty; otherwise one entry is evicted. With capacity > 0 the bound `length <= capacity` is kept |
| CircularBuffers.AdmitShape | src/main.rs:77-81 | after a send, the new message is last and is preceded by a suffix of the old queue: nothing is reordered, and only the front can be lost |
| CircularBuffers.NewestAppend | src/main.rs:77-81 | admitting a message into the newest `n` entries equals keeping the newest `n` entries of the extended sequence |
| CircularBuffers.SendAllKeepsNewest | src/main.rs:75-84 | with capacity > 0, any run of sends leaves exactly the newest `capacity` messages of the old queue followed by the sent ones, in send order |
| CircularBuffers.SendAllFromEmpty | src/main.rs:75-84 | after N >= C sends into an empty queue of capacity C, it holds exactly the last C messages sent, in order |
| CircularBuffers.CapacityZeroOverruns | src/main.rs:63-84 | with capacity 0, any send leaves a non-empty queue, so it exceeds its capacity. For a non-empty queue, the length stays the same (one popped, one pushed) |
| CircularBuffers.CapacityZeroBuffer | src/main.rs:63-84 | a `CircularBuffer` built with capacity 0 holds the message after one send, so its bound `Valid()` is broken |
| CircularBuffers.CircularBuffer.constructor | src/main.rs:63-70 | the new buffer is empty, has the given capacity and zero write and read counts |
| CircularBuffers.CircularBuffer.SendMessage | src/main.rs:75-84 | always returns `Ok(())`. The new queue is the old one plus the message when not full, and the old one minus its front plus the message when full. `write_count` rises by exactly 1, `read_count` is unchanged, and with capacity > 0 the bound is preserved |
| CircularBuffers.CircularBuffer.ReceiveMessage | src/main.rs:87-94 | on an empty queue returns `None` and changes nothing. Otherwise it returns the front message, leaves the tail, and raises `read_count` by 1. `write_count` is unchanged |
| CircularBuffers.CircularBuffer.IsEmpty | src/main.rs:97-99 | true exactly when the length is 0 |
| CircularBuffers.CircularBuffer.IsFull | src/main.rs:102-104 | true exactly when the length is at least the capacity, and then, under the bound, equal to it |
| CircularBuffers.CircularBuffer.Length | src/main.rs:107-109 | under the bound, the length never exceeds the capacity |
| Protocol.WrappingIncrement | src/main.rs:131 | the next id is `(x + 1) mod 65536`, which is `x + 1` below the top value |
| Protocol.IdsFrom | src/main.rs:126-135 | `count` consecutive sends hand out `count` ids |
| Protocol.IdsFromAt | src/main.rs:126-135 | the k-th of consecutive sends starting at id `n` gets id `(n + k) mod 65536` |
| Protocol.IdsFromSnoc | src/main.rs:126-135 | one more send appends the id `(first + count) mod 65536` to the ids handed out |
| Protocol.NextIdAfter | src/main.rs:131 | advancing the id reached after `i` sends gives the id reached after `i + 1` sends, modulo 65536 |
| Protocol.IdsFromDistinct | src/main.rs:126-135 | up to 65536 consecutive sends never reuse an id |
| Protocol.IdsWrapAround | src/main.rs:131 | the 65536-th send after id `n` gets `n` again |
| Protocol.CommunicationProtocol.constructor | src/main.rs:119-124 | a new protocol owns a fresh empty buffer of the given capacity, and its next id is 1. It satisfies `Valid()` |
| Protocol.CommunicationProtocol.Mcu1Send | src/main.rs:126-135 | returns `Ok` with the pre-call id, pushes the message built from that id and the payload, and advances the id with wrap-around whether or not an entry was evicted. `write_count` rises by 1, and `Valid()` is preserved |
| Protocol.CommunicationProtocol.Mcu2Receive | src/main.rs:137-151 | returns `None` exactly when the buffer is empty, changing nothing. Otherwise it returns the front message with its checksum verdict and removes it, valid or not. `Valid()` is preserved |
| Protocol.CommunicationProtocol.GetBufferStatus | src/main.rs:153-157 | the snapshot is (length, length is 0, length >= capacity) of the shared buffer |
| Protocol.Stamped | src/main.rs:126-135 | consecutive sends of `n` payloads build `n` messages |
| Protocol.StampedPrefix | src/main.rs:126-135 | one more payload builds one more message, carrying the next id modulo 65536 |
| Protocol.Mcu1SendEach | src/main.rs:126-135 | consecutive `mcu1_send` calls return the ids `IdsFrom` the starting id and advance the counter by their number modulo 65536. The buffer becomes `SendAll` of the stamped messages, which, with capacity > 0 and the buffer within its bound beforehand, is the newest `capacity` of the old entries and the sent messages, in send order. `write_count` rises by their number, and the protocol's `Valid()` is preserved |
| CommsTest.Deliveries | src/main.rs:173-179 | draining a queue delivers each message in order, paired with its checksum verdict |
| CommsTest.Drain | src/main.rs:173-179 | receiving until `None` delivers the whole queue in order and empties it. `read_count` rises by the number received |
| CommsTest.ScenarioMessages | src/main.rs:166-168 | the three messages of the entry point carry checksums 0x00, 0x01 and 0x06 |
| CommsTest.ScenarioDeliveries | src/main.rs:173-179 | draining the three scenario messages delivers each of them, in order, as valid |
| CommsTest.Run | src/main.rs:161-179 | sends get ids 1, 2 and 3. The status is (3, false, false). Draining yields ids 1, 2 and 3 with their payloads, all valid, and then stops |
| CommsTest.OverwriteRun | src/main.rs:75-84 | with capacity 2 and three sends, the first message is evicted unread. MCU2 receives ids 2 and 3, then the buffer is empty |

## Left out

- Console output (`println!` in `mcu1_send`, `mcu2_receive` and `main`): side effects with no bearing on state.
- `VecDeque::with_capacity` preallocation: only an allocation hint; the queue is a `seq`.
- The `?` in `mcu1_send` (src/main.rs:130): `send_message` never returns an error (proved by `SendMessage`), so the propagation branch cannot run and is not modelled.
- CircularBuffers.CircularBuffer.SendMessage: `write_count` and `read_count` (src/main.rs:82, src/main.rs:89) are `usize`, which is 32 or 64 bits depending on the target. After 2^32 or 2^64 increments, the counter panics in debug builds and wraps to 0 in release builds. Neither is modelled, because the model's counters are unbounded `nat`s.
- `capacity` is an unbounded `nat`, not a `usize`. The panic of `VecDeque::with_capacity` (src/main.rs:65) is not modelled. That panic ("capacity overflow") happens when the capacity times the size of a message exceeds `isize::MAX`.
- Rust ownership (a message is moved into the buffer and out to the caller): messages are values, so no aliasing can arise.
- The unused `std::io::empty` import.
