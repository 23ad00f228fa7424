/** What every step of the two peers keeps, for any series of sends. */
module Safety {
  import opened Message
  import opened Endpoint
  import opened Packets
  import opened Network
  import opened Repeats

  // ---------------------------------------------------------------- the window

  /** As a rule the receiver has queued the packets before `q`, and `q` is the sender's position `p` or the next. */
  predicate InWindow(ps: seq<Packet>, p: nat, q: nat) {
    p <= q <= p + 1 && q <= |ps| && (0 < q ==> ps[q - 1] != ZERO_END)
  }

  /** The exception: behind a zero end, acknowledgements of the number 0 may carry the sender ahead over all
      packets numbered 0, received or not. */
  predicate RunsAhead(ps: seq<Packet>, p: nat, q: nat) {
    && 0 < q <= |ps| && ps[q - 1] == ZERO_END
    && q <= p + 1
    && forall i | q <= i < p && i < |ps| :: ps[i].seqnum == 0
  }

  predicate PositionOk(ps: seq<Packet>, q: nat, s: Sender) {
    && s.pos <= |ps|
    && (InWindow(ps, s.pos, q) || RunsAhead(ps, s.pos, q))
    && (s.waiting ==> s.pos < |ps|)
  }

  // ---------------------------------------------------------------- the channels

  /** Only the sender's packet and, if that is not behind the receiver, the one before it are on their way; and
      zero ends, if the sender runs ahead of one. */
  predicate MayTravel(ps: seq<Packet>, p: nat, q: nat, pk: Packet) {
    || pk == FIN_PACKET
    || (p < |ps| && pk == ps[p])
    || (q <= p <= |ps| && 0 < p && pk == ps[p - 1])
    || (RunsAhead(ps, p, q) && pk == ZERO_END)
  }

  function Age(ps: seq<Packet>, p: nat, pk: Packet): nat {
    if p < |ps| && pk == ps[p] then 2 else if 0 < p <= |ps| && pk == ps[p - 1] then 1 else 0
  }

  /** Older packets come first. */
  predicate ForwardOk(ps: seq<Packet>, p: nat, q: nat, fwd: seq<Arrival>) {
    && (forall i | 0 <= i < |fwd| && fwd[i].Good? :: MayTravel(ps, p, q, fwd[i].packet))
    && (forall i, j | 0 <= i < j < |fwd| && fwd[i].Good? && fwd[j].Good? ::
          fwd[j].packet != FIN_PACKET ==> Age(ps, p, fwd[i].packet) <= Age(ps, p, fwd[j].packet))
  }

  /** The numbers a receiver with the packets before `q` acknowledges: the last of them, and at the start of a
      send also 0 - 1. */
  predicate AckNumber(ps: seq<Packet>, q: nat, n: Uint16)
    requires q <= |ps|
  {
    (0 < q && n == ps[q - 1].seqnum) || (StartsAt(ps, q) && n == 0xFFFF)
  }

  /** What such a number is to a sender at `q`: not that of its packet, but behind a zero end perhaps 0. */
  predicate Harmless(ps: seq<Packet>, q: nat, n: Uint16) {
    if 0 < q <= |ps| && ps[q - 1] == ZERO_END then n == 0 || n == 0xFFFF else q < |ps| ==> n != ps[q].seqnum
  }

  /** Whether `a` acknowledges the number `n`. */
  predicate Carries(a: Arrival, n: Uint16) {
    a.Good? && !a.packet.IsFin() && a.packet.seqnum == n
  }

  /** An acknowledgement that carries the number of the sender's packet was sent when that was queued, and so
      was everything behind it. */
  predicate BackwardOk(ps: seq<Packet>, p: nat, q: nat, bwd: seq<Arrival>) {
    if q <= p then
      forall i | 0 <= i < |bwd| && bwd[i].Good? && !bwd[i].packet.IsFin() :: Harmless(ps, q, bwd[i].packet.seqnum)
    else
      forall i, j | 0 <= i <= j < |bwd| && p < |ps| && Carries(bwd[i], ps[p].seqnum) && bwd[j].Good? ::
        !bwd[j].packet.IsFin() ==> Harmless(ps, q, bwd[j].packet.seqnum)
  }

  // ---------------------------------------------------------------- the receiver

  /** The data and end-of-send messages among those queued: a FIN can only be the last. */
  function WithoutFin(queued: seq<Packet>): seq<Packet> {
    if queued != [] && queued[|queued| - 1].IsFin() then queued[..|queued| - 1] else queued
  }

  /** The queue is the packets before `q`, up to repeated zero ends, and perhaps the FIN that ended it all. */
  predicate QueueOk(ps: seq<Packet>, q: nat, r: Receiver)
    requires q <= |ps|
  {
    && Collapse(WithoutFin(r.queued)) == Collapse(ps[..q])
    && (r.queued == WithoutFin(r.queued) || (r.closing && r.queued == WithoutFin(r.queued) + [FIN_PACKET]))
  }

  predicate PhaseOk(ps: seq<Packet>, q: nat, r: Receiver)
    requires q <= |ps|
  {
    match r.phase
    case Pass(expected) => !r.closing && expected == ExpectedAt(ps, q)
    case Linger(ack) => StartsAt(ps, q) && AckNumber(ps, q, ack)
    case _ => r.closing || StartsAt(ps, q)
  }

  predicate Inv(ps: seq<Packet>, w: World, q: nat) {
    && q <= |ps|
    && PositionOk(ps, q, w.s)
    && QueueOk(ps, q, w.r)
    && PhaseOk(ps, q, w.r)
    && ForwardOk(ps, w.s.pos, q, w.fwd)
    && BackwardOk(ps, w.s.pos, q, w.bwd)
  }

  // ---------------------------------------------------------------- channels grow

  lemma {:induction false} BurstIsFins()
    ensures forall pk | pk in FinBurst() :: pk == FIN_PACKET
  {
  }

  lemma {:induction false} ForwardGrows(ps: seq<Packet>, p: nat, q: nat, fwd: seq<Arrival>, pks: seq<Packet>,
                                        fates: seq<Fate>)
    requires ForwardOk(ps, p, q, fwd)
    requires forall pk | pk in pks :: pk == FIN_PACKET || (p < |ps| && pk == ps[p])
    ensures ForwardOk(ps, p, q, fwd + Transit(pks, fates))
  {
    TransitOnly(pks, fates);
  }

  /** What the receiver acknowledges is harmless from then on. */
  lemma {:induction false} AcksAreHarmless(ps: seq<Packet>, q: nat, n: Uint16)
    requires WellShaped(ps) && q <= |ps| && AckNumber(ps, q, n)
    ensures Harmless(ps, q, n)
  {
    if q < |ps| {
      assert WellShapedAt(ps, q);
      if 0 < q && ps[q - 1] != ZERO_END {
        NeighboursDiffer(ps, q);
      }
    }
  }

  predicate IsAckAt(ps: seq<Packet>, q: nat, pk: Packet) {
    q <= |ps| && pk == Ack(pk.seqnum) && AckNumber(ps, q, pk.seqnum)
  }

  lemma {:induction false} BackwardGrows(ps: seq<Packet>, p: nat, q: nat, bwd: seq<Arrival>, pks: seq<Packet>,
                                         fates: seq<Fate>)
    requires WellShaped(ps) && q <= |ps| && BackwardOk(ps, p, q, bwd)
    requires forall pk | pk in pks :: pk == FIN_PACKET || IsAckAt(ps, q, pk)
    ensures BackwardOk(ps, p, q, bwd + Transit(pks, fates))
  {
    TransitOnly(pks, fates);
    forall pk | pk in pks && !pk.IsFin()
      ensures Harmless(ps, q, pk.seqnum)
    {
      AcksAreHarmless(ps, q, pk.seqnum);
    }
  }

  // ---------------------------------------------------------------- sender steps

  lemma {:induction false} TransmitKeeps(ps: seq<Packet>, w: World, q: nat, f: Fate)
    requires WellShaped(ps) && Inv(ps, w, q) && Enabled(ps, w, Transmit(f))
    ensures Inv(ps, Apply(ps, w, Transmit(f)), q)
  {
    var pk := ps[w.s.pos];
    assert Transit([pk], [f]) == Arrives(pk, f) + Transit([], []);
    ForwardGrows(ps, w.s.pos, q, w.fwd, [pk], [f]);
    assert Arrives(pk, f) + [] == Arrives(pk, f);
  }

  /** A sender that runs ahead is at a packet numbered 0, or at the second fragment or end behind one. */
  lemma {:induction false} NumberWhenAhead(ps: seq<Packet>, p: nat, q: nat)
    requires WellShaped(ps) && RunsAhead(ps, p, q) && p < |ps|
    ensures ps[p].seqnum == 0 || (q < p && ps[p].seqnum == 1 && !ps[p - 1].IsEos())
    ensures ps[p].seqnum == 0 ==> forall i | q <= i < p :: ps[i] == ZERO_END
  {
    assert WellShapedAt(ps, p);
    forall i | q <= i < p && ps[p].seqnum == 0
      ensures ps[i] == ZERO_END
    {
      NumberedZero(ps, i);
    }
  }

  /** The position after a matching acknowledgement. */
  lemma {:induction false} AcknowledgedPosition(ps: seq<Packet>, p: nat, q: nat, n: Uint16)
    requires WellShaped(ps) && p < |ps| && q <= |ps| && (InWindow(ps, p, q) || RunsAhead(ps, p, q))
    requires n == ps[p].seqnum && (q <= p ==> Harmless(ps, q, n))
    ensures InWindow(ps, p, q) ==> q == p + 1
    ensures InWindow(ps, p + 1, q) || RunsAhead(ps, p + 1, q)
    ensures RunsAhead(ps, p, q) && q <= p ==> ps[p].seqnum == 0 && forall i | q <= i < p :: ps[i] == ZERO_END
  {
    if RunsAhead(ps, p, q) && q <= p {
      NumberWhenAhead(ps, p, q);
    }
  }

  /** Then what was the sender's packet is the one before it, and nothing older is left but zero ends. */
  lemma {:induction false} ForwardMovesOn(ps: seq<Packet>, p: nat, q: nat, fwd: seq<Arrival>)
    requires WellShaped(ps) && ForwardOk(ps, p, q, fwd) && p < |ps| && q <= p + 1
    requires InWindow(ps, p, q) ==> q == p + 1
    requires InWindow(ps, p, q) || RunsAhead(ps, p, q)
    requires InWindow(ps, p + 1, q) || RunsAhead(ps, p + 1, q)
    requires RunsAhead(ps, p, q) && q <= p ==> ps[p].seqnum == 0 && forall i | q <= i < p :: ps[i] == ZERO_END
    ensures ForwardOk(ps, p + 1, q, fwd)
  {
    assert WellShapedAt(ps, p) && (p + 1 < |ps| ==> WellShapedAt(ps, p + 1));
    if q <= p {
      NumberedZeroIfAhead(ps, p, q);
    }
    forall i | 0 <= i < |fwd| && fwd[i].Good?
      ensures fwd[i].packet == FIN_PACKET || fwd[i].packet == ps[p]
              || (fwd[i].packet == ZERO_END && RunsAhead(ps, p + 1, q))
      ensures ps[p] != ZERO_END ==> Age(ps, p + 1, fwd[i].packet) == if fwd[i].packet == ps[p] then 1 else 0
    {
      assert MayTravel(ps, p, q, fwd[i].packet);
    }
    forall i, j | 0 <= i < j < |fwd| && fwd[i].Good? && fwd[j].Good? && fwd[j].packet != FIN_PACKET
      ensures Age(ps, p + 1, fwd[i].packet) <= Age(ps, p + 1, fwd[j].packet)
    {
      assert Age(ps, p, fwd[i].packet) <= Age(ps, p, fwd[j].packet);
    }
  }

  lemma {:induction false} NumberedZeroIfAhead(ps: seq<Packet>, p: nat, q: nat)
    requires WellShaped(ps) && q <= p < |ps| && RunsAhead(ps, p + 1, q)
    ensures ps[p] != ZERO_END && p + 1 < |ps| ==> ps[p + 1].seqnum == 1
  {
    NumberedZero(ps, p);
  }

  lemma {:induction false} BackwardMovesOn(ps: seq<Packet>, p: nat, q: nat, bwd: seq<Arrival>)
    requires BackwardOk(ps, p, q, bwd) && q <= p + 1 && p < |ps|
    requires bwd != [] && Carries(bwd[0], ps[p].seqnum)
    ensures BackwardOk(ps, p + 1, q, bwd[1..])
  {
  }

  lemma {:induction false} MatchingAckKeeps(ps: seq<Packet>, w: World, q: nat)
    requires WellShaped(ps) && Inv(ps, w, q) && w.s.pos < |ps| && w.bwd != [] && Acknowledges(w.bwd[0], ps[w.s.pos])
    ensures Inv(ps, w.(s := w.s.(waiting := false, pos := w.s.pos + 1), bwd := w.bwd[1..]), q)
  {
    var p := w.s.pos;
    AcknowledgedPosition(ps, p, q, w.bwd[0].packet.seqnum);
    ForwardMovesOn(ps, p, q, w.fwd);
    BackwardMovesOn(ps, p, q, w.bwd);
  }

  lemma {:induction false} BackwardLosesTheFirst(ps: seq<Packet>, p: nat, q: nat, bwd: seq<Arrival>)
    requires BackwardOk(ps, p, q, bwd) && bwd != []
    ensures BackwardOk(ps, p, q, bwd[1..])
  {
  }

  lemma {:induction false} HearAckKeeps(ps: seq<Packet>, w: World, q: nat, fates: seq<Fate>)
    requires WellShaped(ps) && Inv(ps, w, q) && Enabled(ps, w, HearAck(fates))
    ensures Inv(ps, Apply(ps, w, HearAck(fates)), q)
  {
    var pk, a := ps[w.s.pos], w.bwd[0];
    if Acknowledges(a, pk) {
      MatchingAckKeeps(ps, w, q);
      assert w.fwd + [] == w.fwd;
    } else {
      BurstIsFins();
      ForwardGrows(ps, w.s.pos, q, w.fwd, SenderHears(w.s, pk, a).1, fates);
      BackwardLosesTheFirst(ps, w.s.pos, q, w.bwd);
    }
  }

  // ---------------------------------------------------------------- receiver steps

  /** How far the receiver is after a packet that it has queued: past it, or where it was after a zero end
      that it may have had already. */
  function NextExpected(ps: seq<Packet>, p: nat, q: nat, pk: Packet): nat {
    if pk == ZERO_END && RunsAhead(ps, p, q) then q
    else if p < |ps| && pk == ps[p] then p + 1
    else p
  }

  /** A packet that has been queued is not expected again, unless it is a zero end. */
  lemma {:induction false} NotExpectedAgain(ps: seq<Packet>, q: nat)
    requires WellShaped(ps) && 0 < q <= |ps| && ps[q - 1] != ZERO_END
    ensures ps[q - 1].seqnum != ExpectedAt(ps, q)
  {
    assert WellShapedAt(ps, q - 1);
  }

  /** A packet that arrives while the receiver is in step: the next one, or one it has. */
  lemma {:induction false} ArrivesInWindow(ps: seq<Packet>, p: nat, q: nat, pk: Packet)
    requires WellShaped(ps) && InWindow(ps, p, q) && MayTravel(ps, p, q, pk) && pk != FIN_PACKET
    ensures !pk.IsFin()
    ensures pk.seqnum == ExpectedAt(ps, q) ==> q == p < |ps| && pk == ps[p]
    ensures pk.seqnum != ExpectedAt(ps, q) ==> 0 < q && pk == ps[q - 1]
  {
    assert pk in ps;
    var i := if p < |ps| && pk == ps[p] then p else p - 1;
    assert WellShapedAt(ps, i);
    if q == i + 1 {
      NotExpectedAgain(ps, q);
    }
  }

  /** A packet that arrives while the sender runs ahead: a zero end, the first fragment behind them, or a later
      packet, which is not queued. */
  lemma {:induction false} ArrivesWhenAhead(ps: seq<Packet>, p: nat, q: nat, pk: Packet)
    requires WellShaped(ps) && RunsAhead(ps, p, q) && p <= |ps| && MayTravel(ps, p, q, pk) && pk != FIN_PACKET
    ensures !pk.IsFin() && ExpectedAt(ps, q) == 0
    ensures pk.seqnum == 0 && pk != ZERO_END ==>
              var q' := NextExpected(ps, p, q, pk);
              && q < q' <= |ps| && pk == ps[q' - 1] && !pk.IsEos()
              && forall i | q <= i < q' - 1 :: ps[i] == ZERO_END
  {
    if pk != ZERO_END {
      var i := if p < |ps| && pk == ps[p] then p else p - 1;
      assert WellShapedAt(ps, i);
      if pk.seqnum == 0 {
        NumberedZero(ps, i);
        forall j | q <= j < i
          ensures ps[j] == ZERO_END
        {
          NumberedZero(ps, j);
        }
      }
    }
  }

  /** The packet before `q'` may be queued by a receiver that has those before `q`: it is the next one, or
      only zero ends behind a zero end lie between, or it is that zero end once more. */
  predicate MovesTo(ps: seq<Packet>, q: nat, q': nat)
    requires q <= |ps|
  {
    && 0 < q' <= |ps|
    && (q' == q + 1 || (0 < q <= q' && ps[q - 1] == ZERO_END && forall i | q <= i < q' - 1 :: ps[i] == ZERO_END))
  }

  /** A queue that collapses to the packets before `q` grows along with them. */
  lemma {:induction false} CollapsesAlong(ps: seq<Packet>, q: nat, base: seq<Packet>)
    requires q < |ps| && Collapse(base) == Collapse(ps[..q])
    ensures Collapse(base + [ps[q]]) == Collapse(ps[..q + 1])
  {
    SameLast(base, ps[..q]);
    CollapseOneMore(base, ps[q]);
    CollapseOneMore(ps[..q], ps[q]);
    assert ps[..q + 1] == ps[..q] + [ps[q]];
  }

  /** It may take one more zero end behind a zero end. */
  lemma {:induction false} CollapsesStill(ps: seq<Packet>, q: nat, base: seq<Packet>)
    requires 0 < q <= |ps| && ps[q - 1] == ZERO_END && Collapse(base) == Collapse(ps[..q])
    ensures Collapse(base + [ZERO_END]) == Collapse(ps[..q])
  {
    SameLast(base, ps[..q]);
    CollapseOneMore(base, ZERO_END);
  }

  lemma {:induction false} QueueGrows(ps: seq<Packet>, q: nat, q': nat, r: Receiver, pk: Packet)
    requires q <= |ps| && q' <= |ps| && QueueOk(ps, q, r) && !r.closing && !pk.IsFin()
    requires Collapse(r.queued + [pk]) == Collapse(ps[..q'])
    ensures QueueOk(ps, q', Queue(r, pk))
  {
    assert WithoutFin(r.queued + [pk]) == r.queued + [pk];
  }

  lemma {:induction false} CollapsesOnTheMove(ps: seq<Packet>, q: nat, q': nat, base: seq<Packet>)
    requires q <= |ps| && MovesTo(ps, q, q') && Collapse(base) == Collapse(ps[..q])
    ensures Collapse(base + [ps[q' - 1]]) == Collapse(ps[..q'])
  {
    if q' == q {
      CollapsesStill(ps, q, base);
    } else {
      if q' != q + 1 {
        CollapseSkips(ps, q, q' - 1);
      }
      CollapsesAlong(ps, q' - 1, base);
    }
  }

  /** A packet with the expected number is one to move on to. */
  lemma {:induction false} ArrivesNext(ps: seq<Packet>, p: nat, q: nat, pk: Packet)
    requires WellShaped(ps) && p <= |ps| && (InWindow(ps, p, q) || RunsAhead(ps, p, q)) && q <= |ps|
    requires MayTravel(ps, p, q, pk) && pk != FIN_PACKET && pk.seqnum == ExpectedAt(ps, q)
    ensures var q' := NextExpected(ps, p, q, pk); MovesTo(ps, q, q') && ps[q' - 1] == pk && !pk.IsFin()
  {
    if InWindow(ps, p, q) {
      ArrivesInWindow(ps, p, q, pk);
    } else {
      ArrivesWhenAhead(ps, p, q, pk);
    }
  }

  /** Queueing a packet keeps queue and packets equal up to repeats. */
  lemma {:induction false} QueueKeeps(ps: seq<Packet>, q: nat, q': nat, r: Receiver, pk: Packet)
    requires q <= |ps| && QueueOk(ps, q, r) && !r.closing
    requires MovesTo(ps, q, q') && ps[q' - 1] == pk && !pk.IsFin()
    ensures QueueOk(ps, q', Queue(r, pk))
  {
    CollapsesOnTheMove(ps, q, q', r.queued);
    QueueGrows(ps, q, q', r, pk);
  }

  /** The receiver's own part of a step: what it has and what it sends fit the new count. */
  predicate ReceiverMoves(ps: seq<Packet>, q': nat, r': Receiver, reply: seq<Packet>) {
    && q' <= |ps|
    && QueueOk(ps, q', r')
    && PhaseOk(ps, q', r')
    && forall pk | pk in reply :: pk == FIN_PACKET || IsAckAt(ps, q', pk)
  }

  lemma {:induction false} FinEndsThePass(r: Receiver)
    requires r.phase.Pass?
    ensures var queued := if r.phase.expected == 666 then r.queued + [FIN_PACKET] else r.queued;
            var t := HearInPass(r, FIN_PACKET);
            t.0.phase == Ready && t.0.closing && t.0.queued == queued && t.1 == FinBurst()
  {
  }

  lemma {:induction false} FinInPassKeeps(ps: seq<Packet>, q: nat, r: Receiver)
    requires q <= |ps| && QueueOk(ps, q, r) && PhaseOk(ps, q, r) && r.phase.Pass?
    ensures var t := HearInPass(r, FIN_PACKET); ReceiverMoves(ps, q, t.0, t.1)
  {
    BurstIsFins();
    FinEndsThePass(r);
    assert WithoutFin(r.queued + [FIN_PACKET]) == r.queued;
  }

  /** An end that is not expected arrives only at the start of a send. */
  lemma {:induction false} UnexpectedEnds(ps: seq<Packet>, p: nat, q: nat, pk: Packet)
    requires WellShaped(ps) && p <= |ps| && (InWindow(ps, p, q) || RunsAhead(ps, p, q)) && q <= |ps|
    requires MayTravel(ps, p, q, pk) && pk != FIN_PACKET && pk.seqnum != ExpectedAt(ps, q)
    ensures !pk.IsFin() && (pk.IsEos() ==> StartsAt(ps, q))
  {
    if InWindow(ps, p, q) {
      ArrivesInWindow(ps, p, q, pk);
    } else {
      ArrivesWhenAhead(ps, p, q, pk);
    }
  }

  lemma {:induction false} PredOfExpected(ps: seq<Packet>, q: nat)
    requires q <= |ps|
    ensures AckNumber(ps, q, Pred(ExpectedAt(ps, q)))
  {
  }

  /** What a step of the receiver does to its queue: nothing, or the FIN, or the packet before the new count. */
  predicate QueuesNext(ps: seq<Packet>, r: Receiver, r': Receiver, q: nat, q': nat)
    requires q <= |ps|
  {
    || (q' == q && r'.queued == r.queued)
    || (q' == q && r'.queued == r.queued + [FIN_PACKET] && r'.closing)
    || (MovesTo(ps, q, q') && r.phase.Pass? && !r.closing && r'.queued == r.queued + [ps[q' - 1]])
  }

  lemma {:induction false} ExpectedTurn(r: Receiver, pk: Packet)
    requires r.phase.Pass? && !r.closing && !pk.IsFin() && pk.seqnum == r.phase.expected
    ensures HearInPass(r, pk)
            == (Queue(r, pk).(phase := if pk.IsEos() then Linger(pk.seqnum) else Pass(Succ(pk.seqnum))),
                [Ack(pk.seqnum)])
  {
  }

  lemma {:induction false} ExpectedInPassKeeps(ps: seq<Packet>, q: nat, q': nat, r: Receiver, pk: Packet)
    requires q <= |ps| && q' <= |ps| && QueueOk(ps, q', Queue(r, pk)) && PhaseOk(ps, q, r) && r.phase.Pass?
    requires MovesTo(ps, q, q') && ps[q' - 1] == pk && !pk.IsFin() && pk.seqnum == r.phase.expected
    ensures var t := HearInPass(r, pk); ReceiverMoves(ps, q', t.0, t.1) && QueuesNext(ps, r, t.0, q, q')
  {
    ExpectedTurn(r, pk);
    var end := Queue(r, pk).(phase := if pk.IsEos() then Linger(pk.seqnum) else Pass(Succ(pk.seqnum)));
    assert PhaseOk(ps, q', end) && QueueOk(ps, q', end);
  }

  lemma {:induction false} UnexpectedInPassKeeps(ps: seq<Packet>, q: nat, r: Receiver, pk: Packet)
    requires q <= |ps| && QueueOk(ps, q, r) && PhaseOk(ps, q, r) && r.phase.Pass?
    requires !pk.IsFin() && pk.seqnum != r.phase.expected && (pk.IsEos() ==> StartsAt(ps, q))
    ensures var t := HearInPass(r, pk); ReceiverMoves(ps, q, t.0, t.1) && QueuesNext(ps, r, t.0, q, q)
  {
    PredOfExpected(ps, q);
  }

  lemma {:induction false} HearInLingerKeeps(ps: seq<Packet>, q: nat, r: Receiver, a: Arrival)
    requires q <= |ps| && QueueOk(ps, q, r) && PhaseOk(ps, q, r) && r.phase.Linger?
    ensures var t := Hear(r, a); ReceiverMoves(ps, q, t.0, t.1)
  {
    BurstIsFins();
  }

  /** Channels once the receiver has moved on to `q'`: what is left behind the packet it queued is not older. */
  lemma {:induction false} ForwardSeesQueueing(ps: seq<Packet>, p: nat, q: nat, fwd: seq<Arrival>)
    requires WellShaped(ps) && p <= |ps| && (InWindow(ps, p, q) || RunsAhead(ps, p, q)) && q <= |ps|
    requires ForwardOk(ps, p, q, fwd) && fwd != [] && fwd[0].Good?
    requires fwd[0].packet != FIN_PACKET && fwd[0].packet.seqnum == ExpectedAt(ps, q)
    ensures var q' := NextExpected(ps, p, q, fwd[0].packet);
            && (InWindow(ps, p, q') || RunsAhead(ps, p, q'))
            && ForwardOk(ps, p, q', fwd[1..])
  {
    var pk := fwd[0].packet;
    var q' := NextExpected(ps, p, q, pk);
    if RunsAhead(ps, p, q) {
      ArrivesWhenAhead(ps, p, q, pk);
    } else {
      ArrivesInWindow(ps, p, q, pk);
    }
    if q' != q {
      forall i | 0 <= i < |fwd[1..]| && fwd[1..][i].Good? && fwd[1..][i].packet != FIN_PACKET
        ensures MayTravel(ps, p, q', fwd[1..][i].packet)
      {
        assert Age(ps, p, pk) <= Age(ps, p, fwd[i + 1].packet);
      }
    }
  }

  lemma {:induction false} BackwardSeesQueueing(ps: seq<Packet>, p: nat, q: nat, bwd: seq<Arrival>, pk: Packet)
    requires WellShaped(ps) && p <= |ps| && (InWindow(ps, p, q) || RunsAhead(ps, p, q)) && q <= |ps|
    requires MayTravel(ps, p, q, pk) && pk != FIN_PACKET && pk.seqnum == ExpectedAt(ps, q)
    requires BackwardOk(ps, p, q, bwd)
    ensures BackwardOk(ps, p, NextExpected(ps, p, q, pk), bwd)
  {
    var q' := NextExpected(ps, p, q, pk);
    if RunsAhead(ps, p, q) {
      ArrivesWhenAhead(ps, p, q, pk);
      if pk != ZERO_END {
        NumberedZero(ps, q' - 1);
      }
    } else {
      ArrivesInWindow(ps, p, q, pk);
    }
  }

  lemma {:induction false} ForwardLosesTheFirst(ps: seq<Packet>, p: nat, q: nat, fwd: seq<Arrival>)
    requires ForwardOk(ps, p, q, fwd) && fwd != []
    ensures ForwardOk(ps, p, q, fwd[1..])
  {
  }

  /** Everything fits the new count when the receiver has gone over to `r'` and `rest` is still on its way. */
  predicate Fits(ps: seq<Packet>, w: World, q: nat, q': nat, rest: seq<Arrival>, r': Receiver, reply: seq<Packet>)
    requires q <= |ps|
  {
    && ReceiverMoves(ps, q', r', reply) && QueuesNext(ps, w.r, r', q, q')
    && PositionOk(ps, q', w.s) && ForwardOk(ps, w.s.pos, q', rest) && BackwardOk(ps, w.s.pos, q', w.bwd)
  }

  lemma {:induction false} PartsFit(ps: seq<Packet>, w: World, q: nat, q': nat, rest: seq<Arrival>, r': Receiver,
                                    reply: seq<Packet>, fates: seq<Fate>)
    requires WellShaped(ps) && q <= |ps| && Fits(ps, w, q, q', rest, r', reply)
    ensures Inv(ps, w.(r := r', fwd := rest, bwd := w.bwd + Transit(reply, fates)), q')
  {
    BackwardGrows(ps, w.s.pos, q', w.bwd, reply, fates);
  }

  /** A message heard in a pass, as expected or not: what it does to the receiver and the channels. */
  lemma {:induction false} ExpectedPacketKeeps(ps: seq<Packet>, w: World, q: nat) returns (q': nat)
    requires WellShaped(ps) && Inv(ps, w, q) && w.r.phase.Pass?
    requires w.fwd != [] && w.fwd[0].Good? && w.fwd[0].packet != FIN_PACKET
    requires w.fwd[0].packet.seqnum == w.r.phase.expected
    ensures var t := HearInPass(w.r, w.fwd[0].packet); Fits(ps, w, q, q', w.fwd[1..], t.0, t.1)
  {
    var p, pk := w.s.pos, w.fwd[0].packet;
    assert MayTravel(ps, p, q, pk);
    q' := NextExpected(ps, p, q, pk);
    ArrivesNext(ps, p, q, pk);
    QueueKeeps(ps, q, q', w.r, pk);
    ExpectedInPassKeeps(ps, q, q', w.r, pk);
    ForwardSeesQueueing(ps, p, q, w.fwd);
    BackwardSeesQueueing(ps, p, q, w.bwd, pk);
  }

  lemma {:induction false} UnexpectedPacketKeeps(ps: seq<Packet>, w: World, q: nat)
    requires WellShaped(ps) && Inv(ps, w, q) && w.r.phase.Pass?
    requires w.fwd != [] && w.fwd[0].Good? && w.fwd[0].packet != FIN_PACKET
    requires w.fwd[0].packet.seqnum != w.r.phase.expected
    ensures var t := HearInPass(w.r, w.fwd[0].packet);
            ReceiverMoves(ps, q, t.0, t.1) && QueuesNext(ps, w.r, t.0, q, q)
  {
    var pk := w.fwd[0].packet;
    assert MayTravel(ps, w.s.pos, q, pk);
    UnexpectedEnds(ps, w.s.pos, q, pk);
    UnexpectedInPassKeeps(ps, q, w.r, pk);
  }

  /** Anything else: only the receiver changes. */
  lemma {:induction false} OtherwiseKeeps(ps: seq<Packet>, r: Receiver, q: nat, a: Arrival)
    requires q <= |ps| && QueueOk(ps, q, r) && PhaseOk(ps, q, r) && r.Listening()
    requires r.phase.Pass? && a.Good? ==> a.packet == FIN_PACKET
    ensures ReceiverMoves(ps, q, Hear(r, a).0, Hear(r, a).1) && QueuesNext(ps, r, Hear(r, a).0, q, q)
  {
    if r.phase.Linger? {
      HearInLingerKeeps(ps, q, r, a);
    } else if a.Good? {
      FinInPassKeeps(ps, q, r);
    } else {
      PredOfExpected(ps, q);
    }
  }

  lemma {:induction false} UnqueuedFits(ps: seq<Packet>, w: World, q: nat, rest: seq<Arrival>, r': Receiver,
                                        reply: seq<Packet>)
    requires Inv(ps, w, q) && ReceiverMoves(ps, q, r', reply) && QueuesNext(ps, w.r, r', q, q)
    requires rest == w.fwd || (w.fwd != [] && rest == w.fwd[1..])
    ensures Fits(ps, w, q, q, rest, r', reply)
  {
    if w.fwd != [] {
      ForwardLosesTheFirst(ps, w.s.pos, q, w.fwd);
    }
  }

  lemma {:induction false} HearingFits(ps: seq<Packet>, w: World, q: nat, a: Arrival, rest: seq<Arrival>)
    returns (q': nat)
    requires WellShaped(ps) && Inv(ps, w, q) && w.r.Listening()
    requires a.Good? ==> w.fwd != [] && a == w.fwd[0] && rest == w.fwd[1..]
    requires rest == w.fwd || (w.fwd != [] && rest == w.fwd[1..])
    ensures Fits(ps, w, q, q', rest, Hear(w.r, a).0, Hear(w.r, a).1)
  {
    if w.r.phase.Pass? && a.Good? && a.packet != FIN_PACKET {
      if a.packet.seqnum == w.r.phase.expected {
        q' := ExpectedPacketKeeps(ps, w, q);
      } else {
        q' := q;
        UnexpectedPacketKeeps(ps, w, q);
        UnqueuedFits(ps, w, q, rest, HearInPass(w.r, a.packet).0, HearInPass(w.r, a.packet).1);
      }
    } else {
      q' := q;
      OtherwiseKeeps(ps, w.r, q, a);
      UnqueuedFits(ps, w, q, rest, Hear(w.r, a).0, Hear(w.r, a).1);
    }
  }

  lemma {:induction false} ReceiverHearsKeeps(ps: seq<Packet>, w: World, q: nat, a: Arrival, fates: seq<Fate>,
                                              rest: seq<Arrival>)
    returns (q': nat)
    requires WellShaped(ps) && Inv(ps, w, q) && w.r.Listening()
    requires a.Good? ==> w.fwd != [] && a == w.fwd[0] && rest == w.fwd[1..]
    requires rest == w.fwd || (w.fwd != [] && rest == w.fwd[1..])
    ensures Inv(ps, ReceiverHears(w.(fwd := rest), a, fates), q')
    ensures QueuesNext(ps, w.r, Hear(w.r, a).0, q, q')
  {
    q' := HearingFits(ps, w, q, a, rest);
    PartsFit(ps, w, q, q', rest, Hear(w.r, a).0, Hear(w.r, a).1, fates);
  }

  // ---------------------------------------------------------------- every step, every run

  lemma {:induction false} ReceiverAlone(ps: seq<Packet>, w: World, q: nat, r': Receiver, outs: seq<seq<Byte>>)
    requires Inv(ps, w, q) && r'.queued == w.r.queued && r'.closing == w.r.closing && PhaseOk(ps, q, r')
    ensures Inv(ps, w.(r := r', outs := outs), q)
  {
  }

  /** The calls of the receiver's application. */
  lemma {:induction false} CallKeeps(ps: seq<Packet>, w: World, q: nat, l: Step)
    requires Inv(ps, w, q) && Enabled(ps, w, l) && (l.Call? || l.Return?)
    ensures Inv(ps, Apply(ps, w, l), q) && QueuesNext(ps, w.r, Apply(ps, w, l).r, q, q)
  {
    var w' := Apply(ps, w, l);
    ReceiverAlone(ps, w, q, w'.r, w'.outs);
  }

  lemma {:induction false} CloseKeeps(ps: seq<Packet>, w: World, q: nat, l: Step)
    requires WellShaped(ps) && Inv(ps, w, q) && Enabled(ps, w, l) && (l.CloseSender? || l.CloseReceiver?)
    ensures Inv(ps, Apply(ps, w, l), q) && QueuesNext(ps, w.r, Apply(ps, w, l).r, q, q)
  {
    BurstIsFins();
    ForwardGrows(ps, w.s.pos, q, w.fwd, FinBurst(), l.fates);
    BackwardGrows(ps, w.s.pos, q, w.bwd, FinBurst(), l.fates);
  }

  lemma {:induction false} StepKeeps(ps: seq<Packet>, w: World, q: nat, l: Step) returns (q': nat)
    requires WellShaped(ps) && Inv(ps, w, q)
    ensures Inv(ps, Apply(ps, w, l), q')
    ensures QueuesNext(ps, w.r, Apply(ps, w, l).r, q, q')
  {
    q' := q;
    if Enabled(ps, w, l) {
      match l
      case Transmit(f) => TransmitKeeps(ps, w, q, f);
      case AckTimeout =>
      case HearAck(fates) => HearAckKeeps(ps, w, q, fates);
      case Idles(a, fates) => q' := ReceiverHearsKeeps(ps, w, q, a, fates, w.fwd);
      case HearPacket(fates) => q' := ReceiverHearsKeeps(ps, w, q, w.fwd[0], fates, w.fwd[1..]);
      case Call => CallKeeps(ps, w, q, l);
      case Return(_) => CallKeeps(ps, w, q, l);
      case CloseSender(_) => CloseKeeps(ps, w, q, l);
      case CloseReceiver(_) => CloseKeeps(ps, w, q, l);
    }
  }

  lemma {:induction false} RunKeeps(ps: seq<Packet>, w: World, q: nat, ls: seq<Step>) returns (q': nat)
    requires WellShaped(ps) && Inv(ps, w, q)
    ensures Inv(ps, Run(ps, w, ls), q')
    decreases |ls|
  {
    q' := q;
    if ls != [] {
      q' := StepKeeps(ps, w, q, ls[0]);
      q' := RunKeeps(ps, Apply(ps, w, ls[0]), q', ls[1..]);
    }
  }
}
