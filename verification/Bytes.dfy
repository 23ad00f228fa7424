/** The packet format byte by byte, in plain arithmetic. */
module Bytes {
  import opened Message

  /** The byte at `k`, with zeros behind the end, as `rawrecv` finds them in its buffer. */
  function At(w: seq<Byte>, k: nat): (b: int)
    ensures 0 <= b < 256
  {
    if k < |w| then w[k] else 0
  }

  /** Two and four bytes as a number, the lowest first. */
  function Short(w: seq<Byte>, k: nat): int {
    At(w, k) + 256 * At(w, k + 1)
  }

  function Long(w: seq<Byte>, k: nat): int {
    At(w, k) + 256 * At(w, k + 1) + 65536 * At(w, k + 2) + 16777216 * At(w, k + 3)
  }

  /** A byte taken as a signed `char`, plus one, times sixteen, in 32 bits without sign. */
  function Sum(last: int): int {
    16 * ((if last < 128 then last else last - 256) + 1) % 4294967296
  }

  /** The four bytes of a number, the lowest first. */
  lemma {:induction false} FourBytes(n: Uint32)
    ensures Le32(n) == [n % 256, n / 256 % 256, n / 65536 % 256, n / 16777216]
  {
    var lo, hi := n % 65536, n / 65536;
    assert n == lo + 65536 * hi;
    assert n / 256 % 256 == lo / 256 by {
      assert n / 256 == lo / 256 + 256 * hi;
    }
    assert hi / 256 == n / 16777216 && lo % 256 == n % 256;
  }

  /** What goes out for a fragment. */
  lemma {:induction false} BytesOfDataMsg(seqnum: Uint16, src: seq<Byte>, slack: seq<Byte>)
    requires 0 < |src| <= 500 && |src| + |slack| == 500
    ensures var w, sum := Wire(DataMsg(seqnum, src, slack)), Sum(src[|src| - 1]);
            w == [sum % 256, sum / 256 % 256, sum / 65536 % 256, sum / 16777216]
                 + [seqnum % 256, seqnum / 256] + [|src| % 256, |src| / 256] + [0, 0, 0, 0] + src
  {
    var m := DataMsg(seqnum, src, slack);
    Layout(m);
    FourBytes(m.checksum);
    FourBytes(m.flags);
    Pieces(Serialize(m));
    assert Wire(m)[12..] == m.data[..|src|] == src;
  }

  /** What goes out for an acknowledgement, an end of send or a FIN. */
  lemma {:induction false} BytesOfFlagMsg(seqnum: Uint16, flags: Uint32, slack: Block)
    requires flags < 8
    ensures Wire(FlagMsg(seqnum, flags, slack))
            == [16, 0, 0, 0] + [seqnum % 256, seqnum / 256] + [0, 0] + [flags, 0, 0, 0]
    ensures ACK == 1 && EOS == 2 && FIN == 4
  {
    var m := FlagMsg(seqnum, flags, slack);
    Layout(m);
    FourBytes(m.checksum);
    FourBytes(m.flags);
    Pieces(Serialize(m));
  }

  lemma {:induction false} ImageOf(w: seq<Byte>)
    requires |w| <= 512
    ensures var image := w + Zeros(512 - |w|); |image| == 512 && forall k | 0 <= k < 512 :: image[k] == At(w, k)
  {
  }

  lemma {:induction false} FieldsOfImage(image: seq<Byte>)
    requires |image| == 512
    ensures var m := Deserialize(image);
            && m.checksum == Long(image, 0) && m.seqnum == Short(image, 4) && m.length == Short(image, 6)
            && m.flags == Long(image, 8) && m.data == image[12..]
  {
  }

  /** What a receive makes of any datagram. */
  lemma {:induction false} FieldsOfDatagram(w: seq<Byte>)
    requires |w| <= 512
    ensures var m := Decoded(w);
            && m.checksum == Long(w, 0) && m.seqnum == Short(w, 4) && m.length == Short(w, 6) && m.flags == Long(w, 8)
            && forall k | 0 <= k < 500 :: m.data[k] == At(w, 12 + k)
  {
    var image := w + Zeros(512 - |w|);
    ImageOf(w);
    FieldsOfImage(image);
    forall k | 0 <= k < 500
      ensures Decoded(w).data[k] == At(w, 12 + k)
    {
      assert image[12..][k] == image[12 + k];
    }
  }

  lemma {:induction false} TopByte(a: int, b: int, c: int, d: int)
    requires 0 <= a < 256 && 0 <= b < 256 && 0 <= c < 256
    ensures (a + 256 * b + 65536 * c + 16777216 * d) / 16777216 == d
  {
  }

  lemma {:induction false} LastByteOfDatagram(w: seq<Byte>)
    requires |w| <= 512 && Short(w, 6) <= 500
    ensures Decoded(w).length == Short(w, 6) && LastByte(Decoded(w)) == At(w, 11 + Short(w, 6))
  {
    FieldsOfDatagram(w);
    var m := Decoded(w);
    if m.length == 0 {
      TopByte(At(w, 8), At(w, 9), At(w, 10), At(w, 11));
    } else {
      assert m.data[m.length - 1] == At(w, 12 + (m.length - 1));
    }
  }

  lemma {:induction false} SumIsChecksum(b: Byte)
    ensures ChecksumOf(Signed(b)) == Sum(b)
  {
  }

  /** The test of `valid`, which looks at the byte `data[length - 1]`; for length 0 that is the one in front of the
      data. */
  lemma {:induction false} ValidInBytes(w: seq<Byte>)
    requires |w| <= 512
    ensures Valid(Decoded(w)) <==> Short(w, 6) <= 500 && Long(w, 0) == Sum(At(w, 11 + Short(w, 6)))
  {
    FieldsOfDatagram(w);
    if Short(w, 6) <= 500 {
      LastByteOfDatagram(w);
      SumIsChecksum(LastByte(Decoded(w)));
    }
  }

  /** A datagram is accepted exactly if its length field fits its size and its checksum is that of its very last
      byte; then its number, flags and payload are what stands in it. */
  lemma {:induction false} AcceptedInBytes(w: seq<Byte>)
    ensures Accepted(w) <==>
            12 <= |w| <= 512 && Short(w, 6) == |w| - 12 && Long(w, 0) == Sum(At(w, |w| - 1))
    ensures Accepted(w) ==>
              var p := View(Decoded(w)); p.seqnum == Short(w, 4) && p.flags == Long(w, 8) && p.payload == w[12..]
  {
    if |w| <= 512 {
      FieldsOfDatagram(w);
      ValidInBytes(w);
    }
  }

  /** A refused datagram still ends the loop of `finalizeRecv` if what is left of it, with zeros behind, is valid
      and looks like a first fragment. */
  lemma {:induction false} OpensInBytes(w: seq<Byte>)
    requires |w| <= 512
    ensures OpensTransfer(Decoded(w)) <==>
            Short(w, 4) == 0 && 0 < Short(w, 6) <= 500 && Long(w, 0) == Sum(At(w, 11 + Short(w, 6)))
  {
    FieldsOfDatagram(w);
    ValidInBytes(w);
  }
}
