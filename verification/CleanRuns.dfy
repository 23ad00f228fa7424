/** Runs in which the network does nothing wrong. */
module CleanRuns {
  import opened Message
  import opened Endpoint
  import opened Packets
  import opened Network

  /** Fates enough for any answer of a peer. */
  function AllIntact(): seq<Fate> {
    seq(2048, _ => Intact)
  }

  /** Nothing is lost or damaged, and a receive comes back empty-handed only if nothing is under way. */
  predicate WithoutFault(w: World, l: Step) {
    match l
    case Transmit(fate) => fate == Intact
    case AckTimeout => false
    case Idles(a, fates) => a == Silence && fates == AllIntact() && w.fwd == [] && w.bwd == [] && !w.s.waiting
    case Call => true
    case Return(_) => true
    case HearAck(fates) => fates == AllIntact()
    case CloseSender(fates) => fates == AllIntact()
    case HearPacket(fates) => fates == AllIntact()
    case CloseReceiver(fates) => fates == AllIntact()
  }

  predicate FaultFree(ps: seq<Packet>, w: World, ls: seq<Step>)
    decreases |ls|
  {
    ls == [] || (WithoutFault(w, ls[0]) && FaultFree(ps, Apply(ps, w, ls[0]), ls[1..]))
  }

  lemma {:induction false} FaultFreeAppend(ps: seq<Packet>, w: World, a: seq<Step>, b: seq<Step>)
    ensures FaultFree(ps, w, a + b) <==> FaultFree(ps, w, a) && FaultFree(ps, Run(ps, w, a), b)
    decreases |a|
  {
    if a == [] {
      assert a + b == b;
    } else {
      assert (a + b)[0] == a[0] && (a + b)[1..] == a[1..] + b;
      FaultFreeAppend(ps, Apply(ps, w, a[0]), a[1..], b);
    }
  }

  /** Whatever is sent then arrives, in order. */
  lemma {:induction false} TransitIntact(pks: seq<Packet>, fates: seq<Fate>)
    requires |pks| <= |fates| && forall i | 0 <= i < |fates| :: fates[i] == Intact
    ensures |Transit(pks, fates)| == |pks|
    ensures forall i | 0 <= i < |pks| :: Transit(pks, fates)[i] == Good(pks[i])
  {
    if pks != [] {
      TransitIntact(pks[1..], fates[1..]);
    }
  }

  lemma {:induction false} RunOne(ps: seq<Packet>, w: World, l: Step)
    ensures Run(ps, w, [l]) == Apply(ps, w, l)
    ensures FaultFree(ps, w, [l]) <==> WithoutFault(w, l)
  {
    assert Run(ps, w, [l]) == Run(ps, Apply(ps, w, l), []);
  }

  lemma {:induction false} RunMore(ps: seq<Packet>, w: World, ls: seq<Step>, l: Step)
    ensures Run(ps, w, ls + [l]) == Apply(ps, Run(ps, w, ls), l)
    ensures FaultFree(ps, w, ls + [l]) <==> FaultFree(ps, w, ls) && WithoutFault(Run(ps, w, ls), l)
  {
    RunAppend(ps, w, ls, [l]);
    FaultFreeAppend(ps, w, ls, [l]);
    RunOne(ps, Run(ps, w, ls), l);
  }

  // ---------------------------------------------------------------- one packet after the other

  /** Sender and receiver agree that `p` packets are through, and the channels are empty. */
  predicate InStep(ps: seq<Packet>, w: World, p: nat) {
    && p <= |ps|
    && w.s == Sender(p, false, false)
    && w.r.phase == Pass(ExpectedAt(ps, p)) && !w.r.closing && w.r.queued == ps[..p] && w.r.stranded == 0
    && w.fwd == [] && w.bwd == []
  }

  /** The receiver gives up lingering, returns to its caller and is called again. */
  const ROUND_OFF: seq<Step> := [Idles(Silence, AllIntact()), Return(0), Call]

  lemma {:induction false} RoundOff(ps: seq<Packet>, w: World) returns (w': World)
    requires w.r.phase.Linger? && !w.r.closing
    ensures w' == Run(ps, w, ROUND_OFF)
    ensures w'.r.phase == Pass(0) && !w'.r.closing && w'.r.queued == w.r.queued && w'.r.stranded == w.r.stranded
    ensures w'.s == w.s && w'.fwd == w.fwd && w'.bwd == w.bwd
    ensures FaultFree(ps, w, ROUND_OFF) <==> w.fwd == [] && w.bwd == [] && !w.s.waiting
  {
    var w1 := Apply(ps, w, ROUND_OFF[0]);
    var w2 := Apply(ps, w1, ROUND_OFF[1]);
    w' := Apply(ps, w2, ROUND_OFF[2]);
    assert w.bwd + [] == w.bwd;
    assert Run(ps, w, ROUND_OFF) == Run(ps, w1, ROUND_OFF[1..]) == Run(ps, w2, ROUND_OFF[2..])
        == Run(ps, w', ROUND_OFF[3..]);
    assert FaultFree(ps, w, ROUND_OFF)
        == (WithoutFault(w, ROUND_OFF[0]) && FaultFree(ps, w1, ROUND_OFF[1..]))
        == (WithoutFault(w, ROUND_OFF[0]) && FaultFree(ps, w2, ROUND_OFF[2..]));
  }

  /** The current packet arrives and the receiver's reply is on its way. */
  const EXCHANGE: seq<Step> := [Transmit(Intact), HearPacket(AllIntact())]

  lemma {:induction false} Exchange(ps: seq<Packet>, w: World, ack: Packet) returns (w': World)
    requires w.s == Sender(w.s.pos, false, false) && w.s.pos < |ps| && w.fwd == [] && w.r.Listening()
    requires Hear(w.r, Good(ps[w.s.pos])).1 == [ack]
    ensures w' == Run(ps, w, EXCHANGE) && FaultFree(ps, w, EXCHANGE)
    ensures w' == w.(s := w.s.(waiting := true), r := Hear(w.r, Good(ps[w.s.pos])).0, bwd := w.bwd + [Good(ack)])
  {
    var w1 := Apply(ps, w, Transmit(Intact));
    assert w1.fwd == [Good(ps[w.s.pos])] && w1.fwd[1..] == [];
    TransitIntact([ack], AllIntact());
    assert Transit([ack], AllIntact()) == [Good(ack)];
    w' := Apply(ps, w1, HearPacket(AllIntact()));
    assert Run(ps, w, EXCHANGE) == Run(ps, w1, EXCHANGE[1..]) == Run(ps, w', EXCHANGE[2..]);
    assert FaultFree(ps, w1, EXCHANGE[1..]) == FaultFree(ps, w', EXCHANGE[2..]);
  }

  lemma {:induction false} AckIsHeard(ps: seq<Packet>, w: World, p: nat)
    requires w.s == Sender(p, true, false) && p < |ps| && w.bwd == [Good(Ack(ps[p].seqnum))]
    ensures Apply(ps, w, HearAck(AllIntact())) == w.(s := Sender(p + 1, false, false), bwd := [])
  {
    assert w.fwd + [] == w.fwd;
  }

  const PACKET_AND_ACK: seq<Step> := EXCHANGE + [HearAck(AllIntact())]

  /** One packet goes through and is acknowledged. */
  lemma {:induction false} PacketAndAck(ps: seq<Packet>, w: World, p: nat) returns (w': World)
    requires WellShaped(ps) && InStep(ps, w, p) && p < |ps|
    ensures w' == Run(ps, w, PACKET_AND_ACK) && FaultFree(ps, w, PACKET_AND_ACK)
    ensures w'.s == Sender(p + 1, false, false) && w'.fwd == [] && w'.bwd == [] && w'.outs == w.outs
    ensures !w'.r.closing && w'.r.queued == ps[..p + 1] && w'.r.stranded == 0
    ensures w'.r.phase == if ps[p].IsEos() then Linger(ps[p].seqnum) else Pass(ExpectedAt(ps, p + 1))
  {
    assert WellShapedAt(ps, p);
    assert ps[..p + 1] == ps[..p] + [ps[p]];
    var w1 := Exchange(ps, w, Ack(ps[p].seqnum));
    w' := Apply(ps, w1, HearAck(AllIntact()));
    AckIsHeard(ps, w1, p);
    RunMore(ps, w, EXCHANGE, HearAck(AllIntact()));
  }

  /** Behind an end the receiver begins another pass. */
  lemma {:induction false} OnePacketThrough(ps: seq<Packet>, w: World, p: nat) returns (ls: seq<Step>)
    requires WellShaped(ps) && InStep(ps, w, p) && p < |ps|
    ensures InStep(ps, Run(ps, w, ls), p + 1) && FaultFree(ps, w, ls)
    ensures !ps[p].IsEos() ==> Run(ps, w, ls).outs == w.outs
  {
    ls := PACKET_AND_ACK;
    var w1 := PacketAndAck(ps, w, p);
    if ps[p].IsEos() {
      var w2 := RoundOff(ps, w1);
      RunAppend(ps, w, ls, ROUND_OFF);
      FaultFreeAppend(ps, w, ls, ROUND_OFF);
      ls := ls + ROUND_OFF;
    }
  }

  /** So without faults any position can be reached. */
  lemma {:induction false} AnyPositionCanBeReached(ps: seq<Packet>, p: nat) returns (ls: seq<Step>)
    requires WellShaped(ps) && p <= |ps|
    ensures InStep(ps, Run(ps, INITIAL, ls), p) && FaultFree(ps, INITIAL, ls)
    ensures (forall i | 0 <= i < p :: !ps[i].IsEos()) ==> Run(ps, INITIAL, ls).outs == []
  {
    if p == 0 {
      ls := [Call];
      RunOne(ps, INITIAL, Call);
    } else {
      var before := AnyPositionCanBeReached(ps, p - 1);
      var more := OnePacketThrough(ps, Run(ps, INITIAL, before), p - 1);
      RunAppend(ps, INITIAL, before, more);
      FaultFreeAppend(ps, INITIAL, before, more);
      ls := before + more;
    }
  }
}
