/** The packet format: the fixed 512-byte message, its byte image, and the test that
    decides whether a received image is accepted. */
module Message {

  type Byte = b: int | 0 <= b < 0x100
  type Uint16 = n: int | 0 <= n < 0x1_0000
  type Uint32 = n: int | 0 <= n < 0x1_0000_0000

  const MAX_DATA_LENGTH := 500
  const HEADER_LENGTH := 12
  const MSG_SIZE := 512
  const MSG_CHECKSUM := 16

  const NONE: Uint32 := 0
  const ACK: Uint32 := 1
  const EOS: Uint32 := 2
  const FIN: Uint32 := 4

  /** The data array of a message. */
  type Block = s: seq<Byte> | |s| == MAX_DATA_LENGTH witness Zeros(MAX_DATA_LENGTH)

  function Zeros(n: nat): seq<Byte> {
    seq(n, _ => 0)
  }

  datatype Msg = Msg(checksum: Uint32, seqnum: Uint16, length: Uint16, flags: Uint32, data: Block)

  /** What the protocol sees of an accepted message: the checksum and the bytes past `length` are gone. */
  datatype Packet = Packet(seqnum: Uint16, flags: Uint32, payload: seq<Byte>) {
    predicate IsEos() { flags / 2 % 2 == 1 }
    predicate IsFin() { flags / 4 % 2 == 1 }
  }

  function View(m: Msg): Packet
    requires m.length <= MAX_DATA_LENGTH
  {
    Packet(m.seqnum, m.flags, m.data[..m.length])
  }

  // ---------------------------------------------------------------- constructors

  /** A `char` of the source is signed. */
  function Signed(b: Byte): int {
    if b < 0x80 then b else b - 0x100
  }

  /** The multiplication is done in 32-bit unsigned arithmetic. */
  function ChecksumOf(c: int): Uint32 {
    MSG_CHECKSUM * (c + 1) % 0x1_0000_0000
  }

  /** The data constructor; `slack` is what the memory past the copied bytes happens to hold. */
  function DataMsg(seqnum: Uint16, src: seq<Byte>, slack: seq<Byte>): (m: Msg)
    requires 0 < |src| <= MAX_DATA_LENGTH && |src| + |slack| == MAX_DATA_LENGTH
    ensures Constructed(m) && View(m) == Packet(seqnum, NONE, src)
  {
    Msg(ChecksumOf(Signed(src[|src| - 1])), seqnum, |src|, NONE, src + slack)
  }

  /** The constructor of messages that carry only a flag. */
  function FlagMsg(seqnum: Uint16, flags: Uint32, slack: Block): (m: Msg)
    requires flags < 8
    ensures Constructed(m) && View(m) == Packet(seqnum, flags, [])
  {
    Msg(MSG_CHECKSUM, seqnum, 0, flags, slack)
  }

  /** The default constructor: what a receive that brings nothing leaves behind. */
  function DefaultMsg(): (m: Msg)
    ensures !Valid(m) && m.checksum == 0 && m.seqnum == 0 && m.length == 0 && m.flags == 0
  {
    Msg(0, 0, 0, NONE, Zeros(MAX_DATA_LENGTH))
  }

  /** The messages the two sending constructors can make. */
  predicate Constructed(m: Msg) {
    && m.length <= MAX_DATA_LENGTH
    && m.flags < 8
    && m.checksum == if m.length == 0 then MSG_CHECKSUM else ChecksumOf(Signed(m.data[m.length - 1]))
  }

  // ---------------------------------------------------------------- acceptance

  /** The byte `data[length - 1]`. For length 0 that is the byte before the array: the top byte of `flags`. */
  function LastByte(m: Msg): Byte
    requires m.length <= MAX_DATA_LENGTH
  {
    if m.length == 0 then m.flags / 0x100_0000 else m.data[m.length - 1]
  }

  predicate Valid(m: Msg) {
    m.length <= MAX_DATA_LENGTH && m.checksum == ChecksumOf(Signed(LastByte(m)))
  }

  function TotalLength(m: Msg): nat {
    HEADER_LENGTH + m.length
  }

  /** The weaker test with which `finalizeRecv` recognises the next transfer: the size is not looked at. */
  predicate OpensTransfer(m: Msg) {
    Valid(m) && m.seqnum == 0 && m.length != 0
  }

  // ---------------------------------------------------------------- byte image

  function Le16(n: Uint16): seq<Byte> {
    [n % 0x100, n / 0x100]
  }

  function Le32(n: Uint32): seq<Byte> {
    Le16(n % 0x1_0000) + Le16(n / 0x1_0000)
  }

  function Serialize(m: Msg): (image: seq<Byte>)
    ensures |image| == MSG_SIZE
  {
    Le32(m.checksum) + Le16(m.seqnum) + Le16(m.length) + Le32(m.flags) + m.data
  }

  function Of16(lo: int, hi: int): int {
    lo + 0x100 * hi
  }

  function Of32(b: seq<Byte>): (n: Uint32)
    requires |b| == 4
  {
    var lo, hi := Of16(b[0], b[1]), Of16(b[2], b[3]);
    lo + 0x1_0000 * hi
  }

  function Deserialize(image: seq<Byte>): Msg
    requires |image| == MSG_SIZE
  {
    Msg(Of32(image[..4]), Of16(image[4], image[5]), Of16(image[6], image[7]), Of32(image[8..12]), image[12..])
  }

  /** The bytes `rawsend` hands to the network. */
  function Wire(m: Msg): (w: seq<Byte>)
    requires m.length <= MAX_DATA_LENGTH
    ensures |w| == TotalLength(m)
  {
    Serialize(m)[..TotalLength(m)]
  }

  /** What `rawrecv` decodes: the datagram in front of zeros. */
  function Decoded(w: seq<Byte>): Msg
    requires |w| <= MSG_SIZE
  {
    Deserialize(w + Zeros(MSG_SIZE - |w|))
  }

  predicate Accepted(w: seq<Byte>) {
    0 < |w| <= MSG_SIZE && Valid(Decoded(w)) && |w| == TotalLength(Decoded(w))
  }

  // ---------------------------------------------------------------- properties

  lemma {:induction false} HalvesRoundTrip(n: Uint16, lo: Byte, hi: Byte)
    ensures Of16(Le16(n)[0], Le16(n)[1]) == n
    ensures Le16(Of16(lo, hi)) == [lo, hi]
  {
  }

  lemma {:induction false} WordsRoundTrip(lo: Uint16, hi: Uint16)
    ensures (lo + 0x1_0000 * hi) % 0x1_0000 == lo && (lo + 0x1_0000 * hi) / 0x1_0000 == hi
  {
  }

  lemma {:induction false} WordRoundTrip(n: Uint32, b: seq<Byte>)
    requires |b| == 4
    ensures Of32(Le32(n)) == n
    ensures Le32(Of32(b)) == b
  {
    var lo, hi := Of16(b[0], b[1]), Of16(b[2], b[3]);
    WordsRoundTrip(lo, hi);
    HalvesRoundTrip(lo, b[0], b[1]);
    HalvesRoundTrip(hi, b[2], b[3]);
    HalvesRoundTrip(n % 0x1_0000, 0, 0);
    HalvesRoundTrip(n / 0x1_0000, 0, 0);
  }

  /** Where the fields lie. */
  lemma {:induction false} Layout(m: Msg)
    ensures var image := Serialize(m);
            && image[..4] == Le32(m.checksum) && image[8..12] == Le32(m.flags) && image[12..] == m.data
            && image[4..6] == Le16(m.seqnum) && image[6..8] == Le16(m.length)
  {
  }

  /** The image determines the message. */
  lemma {:induction false} ImageDetermines(m: Msg)
    ensures Deserialize(Serialize(m)) == m
  {
    var s := Serialize(m);
    Layout(m);
    WordRoundTrip(m.checksum, s[..4]);
    WordRoundTrip(m.flags, s[8..12]);
    HalvesRoundTrip(m.seqnum, 0, 0);
    HalvesRoundTrip(m.length, 0, 0);
    assert [s[4], s[5]] == s[4..6] && [s[6], s[7]] == s[6..8];
  }

  lemma {:induction false} Pieces(image: seq<Byte>)
    requires |image| == MSG_SIZE
    ensures image == image[..4] + image[4..6] + image[6..8] + image[8..12] + image[12..]
  {
  }

  /** Every image is one of a message. */
  lemma {:induction false} EveryImageIsAMessage(image: seq<Byte>)
    requires |image| == MSG_SIZE
    ensures Serialize(Deserialize(image)) == image
  {
    var s := Serialize(Deserialize(image));
    Layout(Deserialize(image));
    WordRoundTrip(0, image[..4]);
    WordRoundTrip(0, image[8..12]);
    HalvesRoundTrip(0, image[4], image[5]);
    HalvesRoundTrip(0, image[6], image[7]);
    assert s[4..6] == image[4..6] && s[6..8] == image[6..8];
    Pieces(s);
    Pieces(image);
  }

  /** An image that starts with the header of `m` decodes to `m` with other data. */
  lemma {:induction false} SameHeader(m: Msg, image: seq<Byte>)
    requires |image| == MSG_SIZE && image[..12] == Serialize(m)[..12]
    ensures Deserialize(image) == m.(data := image[12..])
  {
    var m' := m.(data := image[12..]);
    Layout(m);
    Layout(m');
    assert Serialize(m')[..12] == Serialize(m)[..12];
    assert Serialize(m') == Serialize(m')[..12] + Serialize(m')[12..];
    assert image == image[..12] + image[12..];
    ImageDetermines(m');
  }

  /** A packet cut behind its header decodes to the same header and to the payload bytes that came through. */
  lemma {:induction false} PrefixDecodes(m: Msg, k: nat)
    requires m.length <= MAX_DATA_LENGTH && HEADER_LENGTH <= k <= TotalLength(m)
    ensures Decoded(Wire(m)[..k]) == m.(data := m.data[..k - HEADER_LENGTH] + Zeros(MSG_SIZE - k))
  {
    var image := Wire(m)[..k] + Zeros(MSG_SIZE - k);
    assert image[..12] == Serialize(m)[..12];
    Layout(m);
    assert Wire(m)[..k][12..] == Serialize(m)[12..][..k - 12];
    assert image[12..] == m.data[..k - HEADER_LENGTH] + Zeros(MSG_SIZE - k);
    SameHeader(m, image);
  }

  lemma {:induction false} StillValid(m: Msg, d: Msg)
    requires Constructed(m) && d.(data := m.data) == m && d.data[..m.length] == m.data[..m.length]
    ensures Valid(d)
  {
    assert m.length != 0 ==> d.data[m.length - 1] == d.data[..m.length][m.length - 1] == m.data[m.length - 1];
  }

  /** An undamaged packet is accepted and brings back every field and the payload, in front of zeros. */
  lemma {:induction false} RoundTrip(m: Msg)
    requires Constructed(m)
    ensures Accepted(Wire(m))
    ensures Decoded(Wire(m)) == m.(data := m.data[..m.length] + Zeros(MAX_DATA_LENGTH - m.length))
    ensures View(Decoded(Wire(m))) == View(m)
  {
    var w := Wire(m);
    assert w[..TotalLength(m)] == w;
    PrefixDecodes(m, TotalLength(m));
    StillValid(m, Decoded(w));
  }

  /** No proper prefix of a packet is accepted, wherever the cut falls. */
  lemma {:induction false} TruncationIsCaught(m: Msg, k: nat)
    requires m.length <= MAX_DATA_LENGTH && k < TotalLength(m)
    ensures !Accepted(Wire(m)[..k])
  {
    if k >= HEADER_LENGTH {
      PrefixDecodes(m, k);
    }
  }

  /** Sixteen times a signed byte plus one never wraps onto another value. */
  lemma {:induction false} ChecksumIsInjective(a: Byte, b: Byte)
    requires ChecksumOf(Signed(a)) == ChecksumOf(Signed(b))
    ensures a == b
  {
    var x, y := MSG_CHECKSUM * (Signed(a) + 1), MSG_CHECKSUM * (Signed(b) + 1);
    assert (x - y) % 0x1_0000_0000 == 0;
  }

  /** Exactly what the checksum covers: with the checksum and length of an accepted data packet kept,
      everything else may change, sequence number included, except the last payload byte. */
  lemma {:induction false} ChecksumCoversTheLastByte(m: Msg, m': Msg)
    requires Valid(m) && 0 < m.length == m'.length && m'.checksum == m.checksum
    ensures Valid(m') <==> m'.data[m.length - 1] == m.data[m.length - 1]
  {
    if Valid(m') {
      ChecksumIsInjective(m.data[m.length - 1], m'.data[m.length - 1]);
    }
  }

  /** A cut inside the header leaves the fields in front of it and zeros behind it. */
  lemma {:induction false} HeaderCut(m: Msg, k: nat)
    requires m.length <= MAX_DATA_LENGTH && k < HEADER_LENGTH
    ensures var d := Decoded(Wire(m)[..k]);
            && d.data == Zeros(MAX_DATA_LENGTH)
            && d.length == (if k >= 8 then m.length else if k == 7 then m.length % 0x100 else 0)
            && (k >= 6 ==> d.checksum == m.checksum && d.seqnum == m.seqnum)
  {
    var s, w := Serialize(m), Wire(m)[..k];
    var image := w + Zeros(MSG_SIZE - k);
    assert image[12..] == Zeros(MAX_DATA_LENGTH);
    assert forall i | 0 <= i < k :: image[i] == s[i];
    ImageDetermines(m);
    if k >= 6 {
      assert image[..4] == s[..4];
    }
  }

  /** `finalizeRecv` does not compare sizes, so a cut data packet can end its loop. It does so exactly when
      the packet is a first fragment whose last payload byte is zero and enough of its length survives. */
  lemma {:induction false} TruncationSeenByFinalize(m: Msg, k: nat)
    requires Constructed(m) && 0 < m.length && 0 < k < TotalLength(m)
    ensures OpensTransfer(Decoded(Wire(m)[..k])) <==>
            m.seqnum == 0 && m.data[m.length - 1] == 0 && (k >= 8 || (k == 7 && m.length % 0x100 != 0))
  {
    var d := Decoded(Wire(m)[..k]);
    if k < HEADER_LENGTH {
      HeaderCut(m, k);
    } else {
      PrefixDecodes(m, k);
    }
    if ChecksumOf(Signed(m.data[m.length - 1])) == ChecksumOf(Signed(0)) {
      ChecksumIsInjective(m.data[m.length - 1], 0);
    }
    if k >= 7 && 0 < d.length {
      assert LastByte(d) == 0;
    }
  }
}
