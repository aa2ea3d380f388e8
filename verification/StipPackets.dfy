/** The wire format of the protocol: packets, the integers inside them, and how a message is cut
    into parts. The two sides count the parts with different formulas. */
module StipPackets {

  newtype byte = b: int | 0 <= b < 256

  const MAX_UDP_SIZE: nat := 65507 - 8 - 20 - 8
  const HEADER_SIZE: nat := 16
  const MAX_STIP_DATA_SIZE: nat := MAX_UDP_SIZE - HEADER_SIZE

  datatype Command =
    | InitRequest
    | InitResponseSuccess
    | InitResponseFailure
    | SendDataPart
    | RequestAllReceived
    | ResponseAllReceived
    | ResponseResend

  /** A datagram. Its header's size field is always HEADER_SIZE + |data|. */
  datatype Packet = Packet(command: Command, sessionId: nat, packetId: nat, data: seq<byte>)

  predicate IsRequest(c: Command) {
    c.InitRequest? || c.SendDataPart? || c.RequestAllReceived?
  }

  // ----- integers in memory

  const U32_LIMIT: nat := 0x1_0000_0000

  function U32(x: nat): nat {
    x % U32_LIMIT
  }

  ghost function Pow256(w: nat): nat {
    if w == 0 then 1 else 256 * Pow256(w - 1)
  }

  /** The low w bytes of x, least significant first, as a store of w bytes leaves them. */
  function LittleEndian(x: nat, w: nat): (bytes: seq<byte>)
    ensures |bytes| == w
  {
    if w == 0 then [] else [(x % 256) as byte] + LittleEndian(x / 256, w - 1)
  }

  function Value(bytes: seq<byte>): nat {
    if bytes == [] then 0 else bytes[0] as nat + 256 * Value(bytes[1..])
  }

  lemma {:induction false} ValueOfLittleEndian(x: nat, w: nat)
    requires x < Pow256(w)
    ensures Value(LittleEndian(x, w)) == x
  {
    if w > 0 {
      ValueOfLittleEndian(x / 256, w - 1);
      assert LittleEndian(x, w)[1..] == LittleEndian(x / 256, w - 1);
    }
  }

  /** The least significant byte comes first: a value that needs j bytes leaves the rest zero. */
  lemma {:induction false} LowBytesFirst(x: nat, w: nat, j: nat)
    requires x < Pow256(j) && j <= w
    ensures forall k :: j <= k < w ==> LittleEndian(x, w)[k] == 0
    ensures w > 0 ==> LittleEndian(x, w)[0] as nat == x % 256
    decreases w
  {
    if w > 0 {
      var rest := LittleEndian(x / 256, w - 1);
      LowBytesFirst(x / 256, w - 1, if j > 0 then j - 1 else 0);
      assert forall k :: 1 <= k < w ==> LittleEndian(x, w)[k] == rest[k - 1];
    }
  }

  lemma Pow256Values()
    ensures Pow256(4) == U32_LIMIT
    ensures Pow256(8) == 0x1_0000_0000_0000_0000
  {
    assert Pow256(1) == 256 * Pow256(0);
    assert Pow256(2) == 256 * Pow256(1);
    assert Pow256(3) == 256 * Pow256(2);
    assert Pow256(4) == 256 * Pow256(3);
    assert Pow256(5) == 256 * Pow256(4);
    assert Pow256(6) == 256 * Pow256(5);
    assert Pow256(7) == 256 * Pow256(6);
    assert Pow256(8) == 256 * Pow256(7);
  }

  /** An array of 32-bit integers as it lies in memory. */
  function EncodeIndices(xs: seq<nat>): (bytes: seq<byte>)
    ensures |bytes| == 4 * |xs|
  {
    if xs == [] then [] else LittleEndian(xs[0], 4) + EncodeIndices(xs[1..])
  }

  /** The i-th 32-bit integer of such an array. */
  function IndexAt(data: seq<byte>, i: nat): nat
    requires 4 * i + 4 <= |data|
  {
    Value(data[4 * i..4 * i + 4])
  }

  lemma {:induction false} IndexAtEncoded(xs: seq<nat>, i: nat)
    requires i < |xs| && forall k :: 0 <= k < |xs| ==> xs[k] < U32_LIMIT
    ensures IndexAt(EncodeIndices(xs), i) == xs[i]
    ensures EncodeIndices(xs)[4 * i..4 * i + 4] == LittleEndian(xs[i], 4)
  {
    var data := EncodeIndices(xs);
    if i == 0 {
      assert data[0..4] == LittleEndian(xs[0], 4);
      Pow256Values();
      ValueOfLittleEndian(xs[0], 4);
    } else {
      IndexAtEncoded(xs[1..], i - 1);
      assert data[4 * i..4 * i + 4] == EncodeIndices(xs[1..])[4 * (i - 1)..4 * (i - 1) + 4];
    }
  }

  // ----- parts of a message

  /** The number of parts the sender announces and sends. */
  function SenderCount(size: nat): nat {
    size / MAX_STIP_DATA_SIZE + 1
  }

  /** The number of parts the receiver waits for. */
  function ReceiverCount(size: nat): nat {
    (size + MAX_STIP_DATA_SIZE - 1) / MAX_STIP_DATA_SIZE
  }

  /** The number of bytes the sender puts in part i. */
  function PartLength(size: nat, i: nat): nat {
    if i == SenderCount(size) - 1 then size % MAX_STIP_DATA_SIZE else MAX_STIP_DATA_SIZE
  }

  /** Different parts start at least a part's length from each other. */
  lemma PartsApart(i: nat, j: nat)
    ensures i < j ==> i * MAX_STIP_DATA_SIZE + MAX_STIP_DATA_SIZE <= j * MAX_STIP_DATA_SIZE
    ensures j < i ==> j * MAX_STIP_DATA_SIZE + MAX_STIP_DATA_SIZE <= i * MAX_STIP_DATA_SIZE
  {
    if i < j {
      Multiples(i, j - i - 1);
    } else if j < i {
      Multiples(j, i - j - 1);
    }
  }

  lemma Multiples(i: nat, d: nat)
    ensures (i + 1 + d) * MAX_STIP_DATA_SIZE
         == i * MAX_STIP_DATA_SIZE + MAX_STIP_DATA_SIZE + d * MAX_STIP_DATA_SIZE
    ensures d * MAX_STIP_DATA_SIZE >= 0
  {
  }

  lemma DivisionByPart(x: nat)
    ensures x == x / MAX_STIP_DATA_SIZE * MAX_STIP_DATA_SIZE + x % MAX_STIP_DATA_SIZE
    ensures x % MAX_STIP_DATA_SIZE < MAX_STIP_DATA_SIZE
  {
  }

  lemma Quotient(x: nat, q: nat, r: nat)
    requires x == q * MAX_STIP_DATA_SIZE + r && r < MAX_STIP_DATA_SIZE
    ensures x / MAX_STIP_DATA_SIZE == q && x % MAX_STIP_DATA_SIZE == r
  {
    DivisionByPart(x);
    PartsApart(x / MAX_STIP_DATA_SIZE, q);
  }

  /** The two counts agree unless the size is a multiple of the part size; then the sender has
      one more part, and it is empty. */
  lemma CountsDiffer(size: nat)
    ensures SenderCount(size) == ReceiverCount(size) + if size % MAX_STIP_DATA_SIZE == 0 then 1 else 0
    ensures size % MAX_STIP_DATA_SIZE == 0 ==> PartLength(size, SenderCount(size) - 1) == 0
    ensures ReceiverCount(size) == 0 <==> size == 0
    ensures size < U32_LIMIT ==> SenderCount(size) < U32_LIMIT
  {
    var q, r := size / MAX_STIP_DATA_SIZE, size % MAX_STIP_DATA_SIZE;
    DivisionByPart(size);
    if r == 0 {
      Quotient(size + MAX_STIP_DATA_SIZE - 1, q, MAX_STIP_DATA_SIZE - 1);
    } else {
      Multiples(q, 0);
      Quotient(size + MAX_STIP_DATA_SIZE - 1, q + 1, r - 1);
    }
    PartsApart(0, q);
    CountSmall(size);
  }

  lemma CountSmall(size: nat)
    ensures size > 0 ==> size / MAX_STIP_DATA_SIZE < size
  {
    var q := size / MAX_STIP_DATA_SIZE;
    DivisionByPart(size);
    assert q * MAX_STIP_DATA_SIZE >= q * 2;
  }

  /** A byte of the message lies in a part the receiver waits for. */
  lemma ByteInPart(k: nat, size: nat)
    requires k < size
    ensures k / MAX_STIP_DATA_SIZE < ReceiverCount(size)
  {
    DivisionByPart(k);
    DivisionByPart(size + MAX_STIP_DATA_SIZE - 1);
    PartsApart(k / MAX_STIP_DATA_SIZE, ReceiverCount(size));
  }

  /** Part i lies inside the message exactly when i is below the sender's count, and then its
      offset does not wrap in 32-bit arithmetic. */
  lemma PartInside(size: nat, i: nat)
    ensures i < SenderCount(size) <==> i * MAX_STIP_DATA_SIZE + PartLength(size, i) <= size
    ensures i < SenderCount(size) && size < U32_LIMIT ==> Offset(i) == i * MAX_STIP_DATA_SIZE
  {
    DivisionByPart(size);
    PartsApart(i, size / MAX_STIP_DATA_SIZE);
  }

  /** The bytes of part i of a message or buffer. */
  function Part(bytes: seq<byte>, i: nat): (part: seq<byte>)
    requires i < SenderCount(|bytes|)
    ensures |part| == PartLength(|bytes|, i) <= MAX_STIP_DATA_SIZE
  {
    PartInside(|bytes|, i);
    var offset := i * MAX_STIP_DATA_SIZE;
    bytes[offset..offset + PartLength(|bytes|, i)]
  }

  /** The parts the receiver waits for tile the buffer: together they determine all of it. */
  lemma PartsTile(a: seq<byte>, b: seq<byte>)
    requires |a| == |b|
    requires forall i :: 0 <= i < ReceiverCount(|a|) ==> i < SenderCount(|a|) && Part(a, i) == Part(b, i)
    ensures a == b
  {
    forall k | 0 <= k < |a| ensures a[k] == b[k] {
      var i := k / MAX_STIP_DATA_SIZE;
      var o := k % MAX_STIP_DATA_SIZE;
      ByteInPart(k, |a|);
      DivisionByPart(k);
      assert Part(a, i)[o] == a[k];
      assert Part(b, i)[o] == b[k];
    }
  }

  /** Where part i starts, in 32-bit arithmetic. */
  function Offset(i: nat): nat {
    U32(i * MAX_STIP_DATA_SIZE)
  }

  /** What a copy of `payload` to the offset of part i leaves in the buffer. */
  function WritePart(bytes: seq<byte>, i: nat, payload: seq<byte>): (r: seq<byte>)
    requires Offset(i) + |payload| <= |bytes|
    ensures |r| == |bytes|
  {
    var offset := Offset(i);
    bytes[..offset] + payload + bytes[offset + |payload|..]
  }

  /** A part of its proper length lands in its own slice and in no other. */
  lemma WritePartSlices(bytes: seq<byte>, i: nat, payload: seq<byte>, j: nat)
    requires |bytes| < U32_LIMIT
    requires i < SenderCount(|bytes|) && j < SenderCount(|bytes|) && |payload| == PartLength(|bytes|, i)
    ensures Offset(i) + |payload| <= |bytes|
    ensures Part(WritePart(bytes, i, payload), j) == if j == i then payload else Part(bytes, j)
  {
    PartInside(|bytes|, i);
    PartInside(|bytes|, j);
    PartsApart(i, j);
    var at, from := i * MAX_STIP_DATA_SIZE, j * MAX_STIP_DATA_SIZE;
    WriteSlices(bytes, at, payload, from, from + PartLength(|bytes|, j));
  }

  lemma WriteSlices(bytes: seq<byte>, at: nat, payload: seq<byte>, from: nat, to: nat)
    requires at + |payload| <= |bytes| && from <= to <= |bytes|
    ensures var written := bytes[..at] + payload + bytes[at + |payload|..];
            && written[at..at + |payload|] == payload
            && (to <= at || at + |payload| <= from ==> written[from..to] == bytes[from..to])
  {
    var written := bytes[..at] + payload + bytes[at + |payload|..];
    forall k | 0 <= k < |bytes|
      ensures written[k] == if at <= k < at + |payload| then payload[k - at] else bytes[k]
    {
    }
    assert written[at..at + |payload|] == payload;
    if to <= at || at + |payload| <= from {
      assert forall k :: from <= k < to ==> written[k] == bytes[k];
    }
  }
}
