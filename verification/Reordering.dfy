/** One transfer over channels that may reorder and repeat: a channel is the set of everything ever sent. */
module Reordering {
  import opened Message
  import opened Endpoint
  import opened Packets
  import Sequences

  datatype Cloud = Cloud(pos: nat, waiting: bool, r: Receiver, fwd: set<Packet>, bwd: set<Packet>)

  datatype Move =
    | Put
    | Take(a: Arrival)
    | TakeAck(a: Arrival)

  const OPEN: Cloud := Cloud(0, false, StartPass(FRESH_RECEIVER), {}, {})

  /** The first pass and the `finalizeRecv` that ends it. */
  predicate FirstPass(r: Receiver) {
    r.Listening() && r.passStart == 0
  }

  function SetOf(pks: seq<Packet>): set<Packet> {
    set pk | pk in pks
  }

  predicate Possible(ps: seq<Packet>, c: Cloud, m: Move) {
    match m
    case Put => !c.waiting && c.pos < |ps|
    case Take(a) => FirstPass(c.r) && (a.Good? ==> a.packet in c.fwd)
    case TakeAck(a) => c.waiting && c.pos < |ps| && (a.Good? ==> a.packet in c.bwd)
  }

  function Do(ps: seq<Packet>, c: Cloud, m: Move): Cloud {
    if !Possible(ps, c, m) then c
    else match m
         case Put => c.(waiting := true, fwd := c.fwd + {ps[c.pos]})
         case Take(a) => var (r, reply) := Hear(c.r, a); c.(r := r, bwd := c.bwd + SetOf(reply))
         case TakeAck(a) => c.(waiting := false, pos := if Acknowledges(a, ps[c.pos]) then c.pos + 1 else c.pos)
  }

  function DoAll(ps: seq<Packet>, c: Cloud, ms: seq<Move>): Cloud
    decreases |ms|
  {
    if ms == [] then c else DoAll(ps, Do(ps, c, ms[0]), ms[1..])
  }

  lemma {:induction false} DoAppend(ps: seq<Packet>, c: Cloud, a: seq<Move>, b: seq<Move>)
    ensures DoAll(ps, c, a + b) == DoAll(ps, DoAll(ps, c, a), b)
    decreases |a|
  {
    if a == [] {
      assert a + b == b;
    } else {
      Sequences.TailOfSum(a, b);
      DoAppend(ps, Do(ps, c, a[0]), a[1..], b);
    }
  }

  // ---------------------------------------------------------------- up to 65536 packets

  /** The packets of one send whose numbers are their positions. */
  predicate Numbered(ps: seq<Packet>) {
    && 0 < |ps|
    && forall i | 0 <= i < |ps| ::
         && ps[i].seqnum == i % 0x1_0000
         && !ps[i].IsFin()
         && (ps[i].IsEos() <==> i == |ps| - 1)
  }

  /** The numbers are the positions. With 65536 packets, "0 - 1" can be taken for the acknowledgement of the end. */
  predicate Keeps(ps: seq<Packet>, c: Cloud) {
    var q := |c.r.queued|;
    && (c.pos <= q || (q + 1 == c.pos == |ps| == 0x1_0000))
    && q <= c.pos + 1 && q <= |ps| && (c.waiting ==> c.pos < |ps|)
    && !c.r.closing && c.r.queued == ps[..q]
    && (forall pk | pk in c.fwd :: pk.seqnum < |ps| && pk == ps[pk.seqnum] && pk.seqnum <= c.pos && pk.seqnum <= q)
    && (forall pk | pk in c.bwd :: pk == Ack(pk.seqnum) && (pk.seqnum == 0xFFFF || pk.seqnum < q))
    && (FirstPass(c.r) ==> match c.r.phase
                           case Pass(expected) => q < |ps| && expected == q
                           case _ => 0 < q == |ps| && c.r.phase == Linger(ps[q - 1].seqnum))
    && (q < |ps| ==> FirstPass(c.r))
  }

  /** A packet heard in the pass is new, and then the next one, or old, and then no end of send. */
  lemma {:induction false} HearingAPacket(ps: seq<Packet>, r: Receiver, pk: Packet)
    requires Numbered(ps) && |ps| <= 0x1_0000 && r.phase.Pass? && !r.closing
    requires |r.queued| < |ps| && r.phase.expected == |r.queued| && pk.seqnum <= |r.queued| && pk == ps[pk.seqnum]
    ensures var q := |r.queued|;
            var (r', reply) := Hear(r, Good(pk));
            if pk.seqnum == q then
              && r' == Queue(r, pk).(phase := if q + 1 == |ps| then Linger(q) else Pass(q + 1))
              && reply == [Ack(q)]
            else r' == r && reply == [Ack(q - 1)]
  {
    assert ps[pk.seqnum].seqnum == pk.seqnum;
  }

  /** Whatever is heard in `finalizeRecv`, nothing is queued; the acknowledgement is repeated or the pass ends. */
  lemma {:induction false} HearingInLinger(r: Receiver, a: Arrival)
    requires r.phase.Linger? && !r.closing && (a.Good? ==> !a.packet.IsFin())
    ensures var (r', reply) := Hear(r, a);
            && (reply == [] || reply == [Ack(r.phase.ack)])
            && r'.queued == r.queued && !r'.closing
            && (r' == r || r'.phase == Ready || r'.passStart == |r.queued|)
  {
  }

  lemma {:induction false} PacketInPassKeeps(ps: seq<Packet>, c: Cloud, pk: Packet)
    requires Numbered(ps) && |ps| <= 0x1_0000 && Keeps(ps, c) && Possible(ps, c, Take(Good(pk))) && c.r.phase.Pass?
    ensures Keeps(ps, Do(ps, c, Take(Good(pk))))
  {
    var q := |c.r.queued|;
    assert ps[q].seqnum == q;
    Sequences.SliceGrows(ps, 0, q);
    HearingAPacket(ps, c.r, pk);
  }

  lemma {:induction false} TakeInPassKeeps(ps: seq<Packet>, c: Cloud, a: Arrival)
    requires Numbered(ps) && |ps| <= 0x1_0000 && Keeps(ps, c) && Possible(ps, c, Take(a)) && c.r.phase.Pass?
    ensures Keeps(ps, Do(ps, c, Take(a)))
  {
    if a.Good? {
      PacketInPassKeeps(ps, c, a.packet);
    }
  }

  lemma {:induction false} TakeInLingerKeeps(ps: seq<Packet>, c: Cloud, a: Arrival)
    requires Numbered(ps) && |ps| <= 0x1_0000 && Keeps(ps, c) && Possible(ps, c, Take(a)) && c.r.phase.Linger?
    ensures Keeps(ps, Do(ps, c, Take(a)))
  {
    var q := |c.r.queued|;
    assert ps[q - 1].seqnum == q - 1;
    assert a.Good? ==> !ps[a.packet.seqnum].IsFin();
    HearingInLinger(c.r, a);
  }

  lemma {:induction false} TakeAckKeeps(ps: seq<Packet>, c: Cloud, a: Arrival)
    requires Numbered(ps) && |ps| <= 0x1_0000 && Keeps(ps, c) && Possible(ps, c, TakeAck(a))
    ensures Keeps(ps, Do(ps, c, TakeAck(a)))
  {
    assert ps[c.pos].seqnum == c.pos;
  }

  lemma {:induction false} PutKeeps(ps: seq<Packet>, c: Cloud)
    requires Numbered(ps) && |ps| <= 0x1_0000 && Keeps(ps, c) && Possible(ps, c, Put)
    ensures Keeps(ps, Do(ps, c, Put))
  {
    assert ps[c.pos].seqnum == c.pos;
  }

  lemma {:induction false} AllMovesKeep(ps: seq<Packet>, c: Cloud, ms: seq<Move>)
    requires Numbered(ps) && |ps| <= 0x1_0000 && Keeps(ps, c)
    ensures Keeps(ps, DoAll(ps, c, ms))
    decreases |ms|
  {
    if ms != [] {
      if Possible(ps, c, ms[0]) {
        match ms[0]
        case Put => PutKeeps(ps, c);
        case Take(a) => if c.r.phase.Pass? { TakeInPassKeeps(ps, c, a); } else { TakeInLingerKeeps(ps, c, a); }
        case TakeAck(a) => TakeAckKeeps(ps, c, a);
      }
      AllMovesKeep(ps, Do(ps, c, ms[0]), ms[1..]);
    }
  }

  lemma {:induction false} PacketsAreNumbered(data: seq<Byte>)
    ensures Numbered(PacketsOf(data))
  {
    OneSendIsWellShaped(data);
    var ps := PacketsOf(data);
    forall i | 0 <= i < |ps|
      ensures ps[i].seqnum == i % 0x1_0000 && !ps[i].IsFin()
    {
      assert WellShapedAt(ps, i);
    }
  }

  /** In any order and any number of times: with at most 65536 packets, what is queued is a prefix; with at most
      65535, a send that returns has been received whole as well. */
  lemma {:induction false} ReorderingIsHarmless(data: seq<Byte>, ms: seq<Move>)
    requires |PacketsOf(data)| <= 0x1_0000
    ensures var ps, c := PacketsOf(data), DoAll(PacketsOf(data), OPEN, ms);
            && c.r.queued <= ps
            && (|ps| <= 0xFFFF ==> c.pos <= |c.r.queued| && (c.pos == |ps| ==> c.r.queued == ps))
  {
    PacketsAreNumbered(data);
    AllMovesKeep(PacketsOf(data), OPEN, ms);
  }

  // ---------------------------------------------------------------- one packet more

  /** `k` packets are through, and every number up to them has been acknowledged; so has 65535. */
  predicate Through(ps: seq<Packet>, c: Cloud, k: nat) {
    && k <= |ps|
    && c.pos == k && !c.waiting
    && FirstPass(c.r) && c.r.phase == Pass(k % 0x1_0000) && !c.r.closing && c.r.queued == ps[..k]
    && (forall i | 0 <= i < k :: ps[i] in c.fwd)
    && Ack(0xFFFF) in c.bwd
    && forall n: Uint16 | n < k :: Ack(n) in c.bwd
  }

  lemma {:induction false} OneMoreThrough(ps: seq<Packet>, c: Cloud, k: nat) returns (ms: seq<Move>)
    requires Numbered(ps) && Through(ps, c, k) && k < 0xFFFF && k + 1 < |ps|
    ensures Through(ps, DoAll(ps, c, ms), k + 1)
  {
    var ack := Ack(k);
    ms := [Put, Take(Good(ps[k])), TakeAck(Good(ack))];
    var c1 := Do(ps, c, ms[0]);
    var c2 := Do(ps, c1, ms[1]);
    assert Hear(c1.r, Good(ps[k])).1 == [ack] && ack in [ack];
    assert ack in c2.bwd;
    var c3 := Do(ps, c2, ms[2]);
    assert ps[..k + 1] == ps[..k] + [ps[k]];
    assert DoAll(ps, c, ms) == DoAll(ps, c1, ms[1..]) == DoAll(ps, c2, ms[2..]) == DoAll(ps, c3, ms[3..]);
  }

  lemma {:induction false} ManyThrough(ps: seq<Packet>, k: nat) returns (ms: seq<Move>)
    requires Numbered(ps) && k <= 0xFFFF && k < |ps|
    ensures Through(ps, DoAll(ps, OPEN, ms), k)
    decreases k
  {
    if k == 0 {
      ms := [Take(Junk(false))];
      assert Hear(OPEN.r, Junk(false)).1 == [Ack(0xFFFF)] && Ack(0xFFFF) in [Ack(0xFFFF)];
      assert DoAll(ps, OPEN, ms) == DoAll(ps, Do(ps, OPEN, ms[0]), []);
    } else {
      var before := ManyThrough(ps, k - 1);
      var more := OneMoreThrough(ps, DoAll(ps, OPEN, before), k - 1);
      DoAppend(ps, OPEN, before, more);
      ms := before + more;
    }
  }

  /** Once all numbers have been acknowledged, the sender runs to the end by itself. */
  lemma {:induction false} SenderRunsAhead(ps: seq<Packet>, c: Cloud) returns (ms: seq<Move>)
    requires c.pos <= |ps| && !c.waiting && forall n: Uint16 :: Ack(n) in c.bwd
    requires forall i | 0 <= i < c.pos :: ps[i] in c.fwd
    ensures DoAll(ps, c, ms).pos == |ps| && DoAll(ps, c, ms).r == c.r
    ensures forall i | 0 <= i < |ps| :: ps[i] in DoAll(ps, c, ms).fwd
    decreases |ps| - c.pos
  {
    ms := [];
    if c.pos < |ps| {
      ms := [Put, TakeAck(Good(Ack(ps[c.pos].seqnum)))];
      var c1 := Do(ps, c, ms[0]);
      var c2 := Do(ps, c1, ms[1]);
      assert DoAll(ps, c, ms) == DoAll(ps, c1, ms[1..]) == DoAll(ps, c2, ms[2..]);
      var more := SenderRunsAhead(ps, c2);
      DoAppend(ps, c, ms, more);
      ms := ms + more;
    }
  }

  /** Everything has been sent, and of it the receiver has heard the first 65535. */
  lemma {:induction false} AllUnderWay(ps: seq<Packet>) returns (ms: seq<Move>)
    requires Numbered(ps) && 0xFFFF < |ps|
    ensures var c := DoAll(ps, OPEN, ms);
            && c.pos == |ps| && (forall i | 0 <= i < |ps| :: ps[i] in c.fwd)
            && FirstPass(c.r) && c.r.phase == Pass(0xFFFF) && !c.r.closing && c.r.queued == ps[..0xFFFF]
  {
    var before := ManyThrough(ps, 0xFFFF);
    var more := SenderRunsAhead(ps, DoAll(ps, OPEN, before));
    DoAppend(ps, OPEN, before, more);
    ms := before + more;
  }

  lemma {:induction false} TooManyPacketsAreAcknowledgedUnheard(data: seq<Byte>) returns (ms: seq<Move>)
    requires 0xFFFF < |PacketsOf(data)|
    ensures var c := DoAll(PacketsOf(data), OPEN, ms);
            c.pos == |PacketsOf(data)| && c.r.queued != PacketsOf(data)
  {
    PacketsAreNumbered(data);
    ms := AllUnderWay(PacketsOf(data));
  }

  /** The bound is exact, because one number must stay free for the acknowledgement "0 - 1": a returning send
      has been received whole, in every order of delivery, if and only if it has at most 65535 packets. */
  lemma {:induction false} CompletionExactlyUpToTheBound(data: seq<Byte>)
    ensures (forall ms {:induction false} :: var c := DoAll(PacketsOf(data), OPEN, ms);
                          c.pos == |PacketsOf(data)| ==> c.r.queued == PacketsOf(data))
            <==> |PacketsOf(data)| <= 0xFFFF
  {
    if |PacketsOf(data)| <= 0xFFFF {
      forall ms
        ensures var c := DoAll(PacketsOf(data), OPEN, ms);
                c.pos == |PacketsOf(data)| ==> c.r.queued == PacketsOf(data)
      {
        ReorderingIsHarmless(data, ms);
      }
    } else {
      var ms := TooManyPacketsAreAcknowledgedUnheard(data);
    }
  }

  // ---------------------------------------------------------------- two packets more

  /** The receiver hears one of the packets under way that has the expected number and is no end. */
  lemma {:induction false} HearsAnyWithTheNumber(ps: seq<Packet>, c: Cloud, i: nat) returns (c': Cloud)
    requires Numbered(ps) && i < |ps| - 1 && ps[i] in c.fwd
    requires FirstPass(c.r) && c.r.phase == Pass(i % 0x1_0000) && !c.r.closing
    ensures c' == Do(ps, c, Take(Good(ps[i]))) && c'.fwd == c.fwd
    ensures FirstPass(c'.r) && c'.r.phase == Pass((i + 1) % 0x1_0000) && !c'.r.closing
    ensures c'.r.queued == c.r.queued + [ps[i]]
  {
    c' := Do(ps, c, Take(Good(ps[i])));
  }

  lemma {:induction false} ReceiverCatchesUp(ps: seq<Packet>, c: Cloud, k: nat, end: nat) returns (ms: seq<Move>)
    requires Numbered(ps) && k <= end < |ps| && forall i | 0 <= i < |ps| :: ps[i] in c.fwd
    requires FirstPass(c.r) && c.r.phase == Pass(k % 0x1_0000) && !c.r.closing && c.r.queued == ps[..k]
    ensures var c' := DoAll(ps, c, ms);
            && c'.fwd == c.fwd && FirstPass(c'.r) && c'.r.phase == Pass(end % 0x1_0000) && !c'.r.closing
            && c'.r.queued == ps[..end]
    decreases end - k
  {
    ms := [];
    if k < end {
      var c1 := HearsAnyWithTheNumber(ps, c, k);
      assert ps[..k + 1] == ps[..k] + [ps[k]];
      var more := ReceiverCatchesUp(ps, c1, k + 1, end);
      ms := [Take(Good(ps[k]))] + more;
      assert ms[1..] == more;
    }
  }

  /** In place of the end of send the receiver hears, once more, the fragment 65536 before it. */
  lemma {:induction false} AFragmentTakesThePlaceOfTheEnd(data: seq<Byte>) returns (ms: seq<Move>)
    requires 0x1_0000 < |PacketsOf(data)|
    ensures !(DoAll(PacketsOf(data), OPEN, ms).r.queued <= PacketsOf(data))
  {
    var ps := PacketsOf(data);
    PacketsAreNumbered(data);
    var last := |ps| - 1;
    var before := AllUnderWay(ps);
    var c := DoAll(ps, OPEN, before);
    var more := ReceiverCatchesUp(ps, c, 0xFFFF, last);
    DoAppend(ps, OPEN, before, more);
    var i := last - 0x1_0000;
    assert i % 0x1_0000 == last % 0x1_0000;
    var c' := HearsAnyWithTheNumber(ps, DoAll(ps, c, more), i);
    var turn := [Take(Good(ps[i]))];
    assert DoAll(ps, DoAll(ps, c, more), turn) == DoAll(ps, c', turn[1..]);
    DoAppend(ps, OPEN, before + more, turn);
    ms := before + more + turn;
    assert c'.r.queued[last] == ps[i] && !ps[i].IsEos() && ps[last].IsEos();
  }

  /** The other bound is exact, because 65536 numbers are enough to tell as many packets apart: what is queued is a
      prefix, in every order of delivery, if and only if there are at most 65536 packets. */
  lemma {:induction false} PrefixExactlyUpToTheBound(data: seq<Byte>)
    ensures (forall ms {:induction false} :: DoAll(PacketsOf(data), OPEN, ms).r.queued <= PacketsOf(data))
            <==> |PacketsOf(data)| <= 0x1_0000
  {
    if |PacketsOf(data)| <= 0x1_0000 {
      forall ms
        ensures DoAll(PacketsOf(data), OPEN, ms).r.queued <= PacketsOf(data)
      {
        ReorderingIsHarmless(data, ms);
      }
    } else {
      var ms := AFragmentTakesThePlaceOfTheEnd(data);
    }
  }
}
