/** How `send` cuts data into packets, and what the packets of a series of sends look like. */
module Packets {
  import opened Message
  import opened Stream
  import Endpoint
  import Sequences

  function FragmentCount(data: seq<Byte>): nat {
    (|data| + MAX_DATA_LENGTH - 1) / MAX_DATA_LENGTH
  }

  /** The bytes of fragment `i`. */
  function Fragment(data: seq<Byte>, i: nat): (piece: seq<Byte>)
    requires i < FragmentCount(data)
    ensures 0 < |piece| <= MAX_DATA_LENGTH
  {
    var from := i * MAX_DATA_LENGTH;
    data[from..if |data| < from + MAX_DATA_LENGTH then |data| else from + MAX_DATA_LENGTH]
  }

  /** The number of packet `i` of a send. */
  function Number(i: nat): (n: Uint16)
    ensures Endpoint.Succ(n) == (i + 1) % 0x1_0000
  {
    i % 0x1_0000
  }

  function DataPacket(data: seq<Byte>, i: nat): Packet
    requires i < FragmentCount(data)
  {
    Packet(Number(i), NONE, Fragment(data, i))
  }

  function EosPacket(data: seq<Byte>): Packet {
    Packet(Number(FragmentCount(data)), EOS, [])
  }

  /** The packets of one `send`, each numbered from 0 modulo 2^16. */
  function PacketsOf(data: seq<Byte>): (ps: seq<Packet>)
    ensures |ps| == FragmentCount(data) + 1
  {
    seq(FragmentCount(data), i requires 0 <= i < FragmentCount(data) => DataPacket(data, i)) + [EosPacket(data)]
  }

  /** Which packets these are. */
  lemma {:induction false} PacketsInPlain(data: seq<Byte>)
    ensures var n := (|data| + 499) / 500;
            && |PacketsOf(data)| == n + 1 && PacketsOf(data)[n] == Packet(n % 65536, 2, [])
            && forall i | 0 <= i < n ::
                 0 <= 500 * i < |data|
                 && PacketsOf(data)[i]
                    == Packet(i % 65536, 0, data[500 * i..if |data| < 500 * i + 500 then |data| else 500 * i + 500])
  {
    var n := (|data| + 499) / 500;
    forall i | 0 <= i < n
      ensures 0 <= 500 * i < |data|
      ensures PacketsOf(data)[i]
              == Packet(i % 65536, 0, data[500 * i..if |data| < 500 * i + 500 then |data| else 500 * i + 500])
    {
      assert PacketsOf(data)[i] == DataPacket(data, i);
    }
  }

  /** The packets of all sends in order. */
  function AllPackets(sends: seq<seq<Byte>>): seq<Packet> {
    if sends == [] then [] else PacketsOf(sends[0]) + AllPackets(sends[1..])
  }

  // ---------------------------------------------------------------- fragments give the data back

  lemma {:induction false} FragmentsFlatten(data: seq<Byte>, n: nat)
    requires n <= FragmentCount(data)
    ensures Flatten(PacketsOf(data)[..n])
            == Octets(data[..if |data| < n * MAX_DATA_LENGTH then |data| else n * MAX_DATA_LENGTH])
  {
    var ps := PacketsOf(data);
    if n != 0 {
      FragmentsFlatten(data, n - 1);
      assert ps[..n] == ps[..n - 1] + [DataPacket(data, n - 1)];
      FlattenAppend(ps[..n - 1], [DataPacket(data, n - 1)]);
      FlattenOne(DataPacket(data, n - 1));
    }
  }

  /** What the receiver gets out of one send: its bytes and a mark. */
  lemma {:induction false} PacketsFlatten(data: seq<Byte>)
    ensures Flatten(PacketsOf(data)) == Octets(data) + [Mark]
  {
    var ps, n := PacketsOf(data), FragmentCount(data);
    FragmentsFlatten(data, n);
    assert ps == ps[..n] + [EosPacket(data)];
    FlattenAppend(ps[..n], [EosPacket(data)]);
    FlattenOne(EosPacket(data));
    assert data[..|data|] == data;
  }

  /** A send that arrives whole and is read with enough room comes out as it went in. */
  lemma {:induction false} FragmentationRoundTrip(data: seq<Byte>, room: nat)
    requires |data| <= room
    ensures FlatRead(Flatten(PacketsOf(data)), room) ==
            if data == [] && 0 < room then ([], [])
            else (data, if |data| < room then [] else [Mark])
  {
    PacketsFlatten(data);
    if data == [] && 0 < room {
      assert Octets(data) + [Mark] == [Mark];
      assert FlatRead([Mark], room) == FlatRead([], room);
    } else {
      var s := Octets(data) + [Mark];
      assert s[..|data|] == Octets(data) && s[|data|..] == [Mark] && s[|data| + 1..] == [];
      ReadIsUnique(s, room, data, if |data| < room then [] else [Mark], 0);
    }
  }

  // ---------------------------------------------------------------- the shape of a packet stream

  /** The number the receiver expects at position `i`: 0 behind an end of send, else one more than before. */
  function ExpectedAt(ps: seq<Packet>, i: nat): Uint16
    requires i <= |ps|
  {
    if StartsAt(ps, i) then 0 else Endpoint.Succ(ps[i - 1].seqnum)
  }

  predicate StartsAt(ps: seq<Packet>, i: nat)
    requires i <= |ps|
  {
    i == 0 || ps[i - 1].IsEos()
  }

  predicate WellShapedAt(ps: seq<Packet>, i: nat)
    requires i < |ps|
  {
    && ps[i].seqnum == ExpectedAt(ps, i)
    && if ps[i].IsEos() then ps[i].flags == EOS && ps[i].payload == []
       else ps[i].flags == NONE && 0 < |ps[i].payload| <= MAX_DATA_LENGTH
  }

  predicate WellShaped(ps: seq<Packet>) {
    && (forall i | 0 <= i < |ps| :: WellShapedAt(ps, i))
    && (ps != [] ==> ps[|ps| - 1].IsEos())
  }

  /** No end of send carries the number 0. */
  predicate NumbersDiffer(ps: seq<Packet>) {
    forall i | 0 <= i < |ps| :: ps[i].IsEos() ==> ps[i].seqnum != 0
  }

  /** The same for all ends but the last. */
  predicate EarlierNumbersDiffer(ps: seq<Packet>) {
    forall i | 0 <= i < |ps| - 1 :: ps[i].IsEos() ==> ps[i].seqnum != 0
  }

  /** The condition on a send that the protocol needs: its end must not be numbered 0. */
  predicate Countable(data: seq<Byte>) {
    Number(FragmentCount(data)) != 0
  }

  lemma {:induction false} OneSendIsWellShaped(data: seq<Byte>)
    ensures WellShaped(PacketsOf(data))
    ensures forall i | 0 <= i < |PacketsOf(data)| :: PacketsOf(data)[i].IsEos() <==> i == FragmentCount(data)
  {
    var ps := PacketsOf(data);
    forall i | 0 <= i < |ps|
      ensures WellShapedAt(ps, i) && (ps[i].IsEos() <==> i == FragmentCount(data))
    {
      if i != 0 {
        assert ps[i - 1] == DataPacket(data, i - 1);
      }
    }
  }

  lemma {:induction false} WellShapedAppend(a: seq<Packet>, b: seq<Packet>)
    requires WellShaped(a) && WellShaped(b) && a != []
    ensures WellShaped(a + b)
  {
    var ps := a + b;
    forall i | 0 <= i < |ps|
      ensures WellShapedAt(ps, i)
    {
      if i < |a| {
        assert WellShapedAt(a, i);
      } else {
        assert WellShapedAt(b, i - |a|);
      }
    }
  }

  /** The packets of any series of sends have the shape; the numbers differ if every send is countable. */
  lemma {:induction false} AllPacketsAreWellShaped(sends: seq<seq<Byte>>)
    ensures WellShaped(AllPackets(sends))
    ensures (forall t | 0 <= t < |sends| :: Countable(sends[t])) ==> NumbersDiffer(AllPackets(sends))
  {
    if sends != [] {
      OneSendIsWellShaped(sends[0]);
      AllPacketsAreWellShaped(sends[1..]);
      WellShapedAppend(PacketsOf(sends[0]), AllPackets(sends[1..]));
      if forall t | 0 <= t < |sends| :: Countable(sends[t]) {
        assert forall t | 0 <= t < |sends[1..]| :: sends[1..][t] == sends[t + 1];
        assert Countable(sends[0]);
      }
    }
  }

  lemma {:induction false} EarlierSendsCountable(sends: seq<seq<Byte>>)
    requires forall t | 0 <= t < |sends| - 1 :: Countable(sends[t])
    ensures EarlierNumbersDiffer(AllPackets(sends))
  {
    if 1 < |sends| {
      var first, rest := PacketsOf(sends[0]), AllPackets(sends[1..]);
      OneSendIsWellShaped(sends[0]);
      EarlierSendsCountable(sends[1..]);
      assert rest == PacketsOf(sends[1]) + AllPackets(sends[1..][1..]);
      assert Countable(sends[0]);
    } else if |sends| == 1 {
      OneSendIsWellShaped(sends[0]);
    }
  }

  // ---------------------------------------------------------------- where the sends lie

  /** The position of the first packet of send `t`. */
  function OffsetOf(sends: seq<seq<Byte>>, t: nat): nat
    requires t <= |sends|
  {
    |AllPackets(sends[..t])|
  }

  lemma {:induction false} AllPacketsAppend(a: seq<seq<Byte>>, b: seq<seq<Byte>>)
    ensures AllPackets(a + b) == AllPackets(a) + AllPackets(b)
  {
    if a == [] {
      assert a + b == b;
    } else {
      AllPacketsAppend(a[1..], b);
      Sequences.TailOfSum(a, b);
      Sequences.SumIsAssociative(PacketsOf(a[0]), AllPackets(a[1..]), AllPackets(b));
    }
  }

  /** Send `t` occupies the packets from its offset to the next one. */
  lemma {:induction false} SendLiesAt(sends: seq<seq<Byte>>, t: nat)
    requires t < |sends|
    ensures OffsetOf(sends, t + 1) == OffsetOf(sends, t) + |PacketsOf(sends[t])| <= |AllPackets(sends)|
    ensures AllPackets(sends)[OffsetOf(sends, t)..OffsetOf(sends, t + 1)] == PacketsOf(sends[t])
    ensures OffsetOf(sends, |sends|) == |AllPackets(sends)|
  {
    var one := [sends[t]];
    assert sends[..t + 1] == sends[..t] + one && sends == sends[..t + 1] + sends[t + 1..];
    AllPacketsAppend(sends[..t], one);
    AllPacketsAppend(sends[..t + 1], sends[t + 1..]);
    assert AllPackets(one) == PacketsOf(sends[t]) + AllPackets(one[1..]);
    assert sends[..|sends|] == sends;
  }

  /** The first `t` sends take up the packets before the offset of the next. */
  lemma {:induction false} FirstSendsLieInFront(sends: seq<seq<Byte>>, t: nat)
    requires t <= |sends|
    ensures OffsetOf(sends, t) <= |AllPackets(sends)|
    ensures AllPackets(sends)[..OffsetOf(sends, t)] == AllPackets(sends[..t])
    ensures StartsAt(AllPackets(sends), OffsetOf(sends, t))
  {
    AllPacketsAppend(sends[..t], sends[t..]);
    assert sends == sends[..t] + sends[t..];
    AllPacketsAreWellShaped(sends[..t]);
  }

  lemma {:induction false} OffsetShifts(sends: seq<seq<Byte>>, t: nat)
    requires t < |sends|
    ensures OffsetOf(sends, t + 1) == |PacketsOf(sends[0])| + OffsetOf(sends[1..], t)
  {
    assert sends[..t + 1][1..] == sends[1..][..t];
  }

  /** Where starts lie relative to the first send. */
  lemma {:induction false} StartsShift(sends: seq<seq<Byte>>, i: nat)
    requires sends != [] && 0 < i <= |AllPackets(sends)|
    ensures |AllPackets(sends)| == |PacketsOf(sends[0])| + |AllPackets(sends[1..])|
    ensures i < |PacketsOf(sends[0])| ==> !StartsAt(AllPackets(sends), i)
    ensures i >= |PacketsOf(sends[0])| ==>
              (StartsAt(AllPackets(sends), i) <==> StartsAt(AllPackets(sends[1..]), i - |PacketsOf(sends[0])|))
  {
    OneSendIsWellShaped(sends[0]);
  }

  lemma {:induction false} NoStartsShift(sends: seq<seq<Byte>>, from: nat, to: nat)
    requires sends != [] && |PacketsOf(sends[0])| <= from <= to <= |AllPackets(sends)|
    requires forall i | from < i < to :: !StartsAt(AllPackets(sends), i)
    ensures |AllPackets(sends)| == |PacketsOf(sends[0])| + |AllPackets(sends[1..])|
    ensures var n := |PacketsOf(sends[0])|; forall i | from - n < i < to - n :: !StartsAt(AllPackets(sends[1..]), i)
  {
    var n := |PacketsOf(sends[0])|;
    forall i | from - n < i < to - n
      ensures !StartsAt(AllPackets(sends[1..]), i)
    {
      StartsShift(sends, i + n);
    }
  }

  /** A stretch of packets that starts where a send starts and has its only end of send at its end is one send. */
  lemma {:induction false} StretchIsOneSend(sends: seq<seq<Byte>>, from: nat, to: nat) returns (t: nat)
    requires from < to <= |AllPackets(sends)|
    requires StartsAt(AllPackets(sends), from) && StartsAt(AllPackets(sends), to)
    requires forall i | from < i < to :: !StartsAt(AllPackets(sends), i)
    ensures t < |sends| && from == OffsetOf(sends, t) && to == OffsetOf(sends, t + 1)
  {
    var n := |PacketsOf(sends[0])|;
    StartsShift(sends, to);
    if from == 0 {
      t := 0;
      OffsetShifts(sends, 0);
      StartsShift(sends, n);
    } else {
      StartsShift(sends, from);
      NoStartsShift(sends, from, to);
      t := StretchIsOneSend(sends[1..], from - n, to - n);
      OffsetShifts(sends, t);
      OffsetShifts(sends, t + 1);
      t := t + 1;
    }
  }
}
