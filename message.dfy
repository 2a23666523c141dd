/**
 * The message record exchanged between the two microcontrollers: a 16-bit
 * identifier, a byte payload and an 8-bit XOR checksum of that payload.
 */
module Messages {

  type byte = bv8

  /** Rust's `u16`. */
  type u16 = x: int | 0 <= x < 0x1_0000

  datatype Message = Message(id: u16, payload: seq<byte>, checksum: byte)

  /**
   * The XOR checksum of a payload: Rust's `fold(0, |acc, byte| acc ^ byte)`,
   * a left fold, so the last byte is combined last.
   */
  function Checksum(payload: seq<byte>): byte
  {
    if payload == [] then 0
    else Checksum(payload[..|payload| - 1]) ^ payload[|payload| - 1]
  }

  /** Builds a message and computes its checksum from the payload. */
  function NewMessage(id: u16, payload: seq<byte>): (m: Message)
    ensures m.id == id && m.payload == payload
    ensures m.checksum == Checksum(payload)
  {
    Message(id, payload, Checksum(payload))
  }

  /**
   * Recomputes the checksum of the payload and compares it with the stored
   * one: a message passes exactly when it is what construction would have
   * built from its own id and payload.
   */
  function VerifyChecksum(m: Message): (ok: bool)
    ensures ok <==> m == NewMessage(m.id, m.payload)
  {
    m.checksum == Checksum(m.payload)
  }

  /** A freshly built message always passes verification. */
  lemma NewMessageVerifies(id: u16, payload: seq<byte>)
    ensures VerifyChecksum(NewMessage(id, payload))
    ensures NewMessage(id, payload).id == id && NewMessage(id, payload).payload == payload
  {
  }

  /** The fold over a concatenation splits into the folds over the parts (any grouping gives the same checksum). */
  lemma {:induction false} ChecksumAppend(a: seq<byte>, b: seq<byte>)
    ensures Checksum(a + b) == Checksum(a) ^ Checksum(b)
    decreases |b|
  {
    if b == [] {
      assert a + b == a;
    } else {
      var b' := b[..|b| - 1];
      assert (a + b)[..|a + b| - 1] == a + b';
      ChecksumAppend(a, b');
    }
  }

  /** The checksum read as a right fold: the first byte XOR the checksum of the rest. */
  lemma ChecksumCons(x: byte, p: seq<byte>)
    ensures Checksum([x] + p) == x ^ Checksum(p)
  {
    ChecksumAppend([x], p);
    assert [x][..0] == [];
  }

  /** Replacing the byte at `i` by `v` changes the checksum by exactly `p[i] ^ v`. */
  lemma ChecksumUpdate(p: seq<byte>, i: nat, v: byte)
    requires i < |p|
    ensures Checksum(p[i := v]) == Checksum(p) ^ p[i] ^ v
  {
    var pre, post := p[..i], p[i + 1..];
    assert p == pre + ([p[i]] + post);
    assert p[i := v] == pre + ([v] + post);
    ChecksumAppend(pre, [p[i]] + post);
    ChecksumAppend(pre, [v] + post);
    ChecksumCons(p[i], post);
    ChecksumCons(v, post);
  }

  /** Removing the byte at `i` takes it out of the checksum. */
  lemma ChecksumRemove(q: seq<byte>, i: nat)
    requires i < |q|
    ensures Checksum(q) == Checksum(q[..i] + q[i + 1..]) ^ q[i]
  {
    assert q == q[..i] + ([q[i]] + q[i + 1..]);
    ChecksumAppend(q[..i], [q[i]] + q[i + 1..]);
    ChecksumCons(q[i], q[i + 1..]);
    ChecksumAppend(q[..i], q[i + 1..]);
  }

  /** The checksum does not depend on the order of the payload bytes. */
  lemma {:induction false} ChecksumPermutation(p: seq<byte>, q: seq<byte>)
    requires multiset(p) == multiset(q)
    ensures Checksum(p) == Checksum(q)
    decreases |p|
  {
    if p == [] {
      assert |q| == |multiset(q)| == 0;
    } else {
      var n := |p| - 1;
      assert p == p[..n] + [p[n]];
      assert p[n] in multiset(q);
      var i :| 0 <= i < |q| && q[i] == p[n];
      MultisetRemove(p, q, i);
      ChecksumPermutation(p[..n], q[..i] + q[i + 1..]);
      ChecksumRemove(q, i);
    }
  }

  /** Taking the last byte of `p` and one equal byte of `q` out of equal multisets leaves equal multisets. */
  lemma MultisetRemove(p: seq<byte>, q: seq<byte>, i: nat)
    requires multiset(p) == multiset(q) && p != []
    requires i < |q| && q[i] == p[|p| - 1]
    ensures multiset(p[..|p| - 1]) == multiset(q[..i] + q[i + 1..])
  {
    var n, x := |p| - 1, p[|p| - 1];
    var pre, post := q[..i], q[i + 1..];
    assert multiset(p) == multiset(p[..n]) + multiset{x} by {
      assert p == p[..n] + [x];
    }
    assert multiset(q) == multiset(pre + post) + multiset{x} by {
      assert q == pre + [x] + post;
      assert multiset(pre + post) == multiset(pre) + multiset(post);
    }
    assert multiset(p[..n]) == multiset(p) - multiset{x};
    assert multiset(pre + post) == multiset(q) - multiset{x};
  }

  /** Corrupting any single payload byte of a valid message is detected. */
  lemma DetectsSingleByteCorruption(m: Message, i: nat, v: byte)
    requires VerifyChecksum(m)
    requires i < |m.payload| && v != m.payload[i]
    ensures !VerifyChecksum(m.(payload := m.payload[i := v]))
  {
    ChecksumUpdate(m.payload, i, v);
  }

  /** XOR-ing a mask `d` into one payload byte XORs `d` into the checksum. */
  lemma ChecksumFlip(p: seq<byte>, i: nat, d: byte)
    requires i < |p|
    ensures Checksum(p[i := p[i] ^ d]) == Checksum(p) ^ d
  {
    ChecksumUpdate(p, i, p[i] ^ d);
  }

  /** Flipping the same bits in two different bytes leaves the checksum unchanged. */
  lemma ChecksumPairFlip(p: seq<byte>, i: nat, j: nat, d: byte)
    requires i < |p| && j < |p| && i != j
    ensures Checksum(p[i := p[i] ^ d][j := p[j] ^ d]) == Checksum(p)
  {
    var p1 := p[i := p[i] ^ d];
    assert p1[j] == p[j];
    ChecksumFlip(p, i, d);
    ChecksumFlip(p1, j, d);
    XorTwice(Checksum(p), d);
  }

  /** The bit-vector step of `ChecksumPairFlip`: XOR-ing the same mask twice cancels out. */
  lemma XorTwice(c: byte, d: byte)
    ensures c ^ d ^ d == c
  {
  }

  /**
   * The accepted weakness of the scheme: flipping the same bits in two
   * different payload bytes of a valid message goes unnoticed.
   */
  lemma MissesCancellingPair(m: Message, i: nat, j: nat, d: byte)
    requires VerifyChecksum(m)
    requires i < |m.payload| && j < |m.payload| && i != j
    ensures VerifyChecksum(m.(payload := m.payload[i := m.payload[i] ^ d][j := m.payload[j] ^ d]))
  {
    ChecksumPairFlip(m.payload, i, j, d);
  }

  /** Reordering the payload of a valid message (a transposition, say) goes unnoticed. */
  lemma MissesReordering(m: Message, p: seq<byte>)
    requires VerifyChecksum(m)
    requires multiset(p) == multiset(m.payload)
    ensures VerifyChecksum(m.(payload := p))
  {
    ChecksumPermutation(p, m.payload);
  }
}
