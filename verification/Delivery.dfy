/** What the invariant means for the data of a series of sends. */
module Delivery {
  import opened Message
  import opened Endpoint
  import opened Packets
  import opened Network
  import opened Repeats
  import opened Safety
  import MsgBuffers
  import Records

  /** The world after a run in which the peer's application sends `sends` one after the other. */
  function After(sends: seq<seq<Byte>>, ls: seq<Step>): World {
    Run(AllPackets(sends), INITIAL, ls)
  }

  predicate AllCountable(sends: seq<seq<Byte>>) {
    forall t | 0 <= t < |sends| :: Countable(sends[t])
  }

  predicate EarlierCountable(sends: seq<seq<Byte>>) {
    forall t | 0 <= t < |sends| - 1 :: Countable(sends[t])
  }

  lemma {:induction false} InvAfter(sends: seq<seq<Byte>>, ls: seq<Step>) returns (q: nat)
    ensures WellShaped(AllPackets(sends)) && Inv(AllPackets(sends), After(sends, ls), q)
    ensures Records.RecordOk(AllPackets(sends), q, After(sends, ls).r)
  {
    var ps := AllPackets(sends);
    AllPacketsAreWellShaped(sends);
    assert Inv(ps, INITIAL, 0);
    q := Records.RunKeepsRecord(ps, INITIAL, 0, ls);
  }

  // ---------------------------------------------------------------- all sends whatever

  /** Whatever is sent and whatever is lost, damaged, retried, timed out or closed: what has been queued is the
      packets up to some `q` in order, but for zero ends repeated on the spot; and the sender is at `q` or one
      packet behind, or has run ahead from a zero end over packets numbered 0. */
  lemma {:induction false} QueuedUpToRepeats(sends: seq<seq<Byte>>, ls: seq<Step>) returns (q: nat)
    ensures q <= |AllPackets(sends)| && PositionOk(AllPackets(sends), q, After(sends, ls).s)
    ensures Collapse(WithoutFin(After(sends, ls).r.queued)) == Collapse(AllPackets(sends)[..q])
  {
    q := InvAfter(sends, ls);
  }

  lemma {:induction false} OnlyPacketsAreQueued(sends: seq<seq<Byte>>, ls: seq<Step>, pk: Packet)
    requires pk in After(sends, ls).r.queued && pk != FIN_PACKET
    ensures pk in AllPackets(sends)
  {
    var q := InvAfter(sends, ls);
    CollapseKeepsMembers(WithoutFin(After(sends, ls).r.queued), pk);
    CollapseKeepsMembers(AllPackets(sends)[..q], pk);
  }

  lemma {:induction false} WholeTailIsASend(sends: seq<seq<Byte>>, q: nat, part: seq<Packet>) returns (t: nat)
    requires Records.IsTail(AllPackets(sends), q, part) && StartsAt(AllPackets(sends), q) && part != []
    ensures t < |sends| && part == PacketsOf(sends[t]) && q - |part| == OffsetOf(sends, t)
  {
    t := StretchIsOneSend(sends, q - |part|, q);
    SendLiesAt(sends, t);
  }

  /** A pass that has ended, or is lingering, has queued nothing or exactly one send with its end, or a zero end
      once more. */
  lemma {:induction false} RecordsUpToRepeats(sends: seq<seq<Byte>>, ls: seq<Step>)
    requires !After(sends, ls).r.closing && !After(sends, ls).r.phase.Pass?
    ensures var r := After(sends, ls).r;
            r.passStart <= |r.queued|
            && var part := r.queued[r.passStart..];
            part == [] || part == [ZERO_END] || exists t :: 0 <= t < |sends| && part == PacketsOf(sends[t])
  {
    var ps, r := AllPackets(sends), After(sends, ls).r;
    var q := InvAfter(sends, ls);
    var part := r.queued[r.passStart..];
    if part != [] && part != [ZERO_END] {
      var t := WholeTailIsASend(sends, q, part);
    }
  }

  /** A sender that runs ahead may be in a send that nobody has heard of, but not past its end: what lies between
      the queue and a start of send that it has reached is zero ends only. */
  lemma {:induction false} OnlyZeroEndsAreSkipped(ps: seq<Packet>, p: nat, q: nat, start: nat)
    requires WellShaped(ps) && RunsAhead(ps, p, q) && q < start <= p && start <= |ps| && StartsAt(ps, start)
    ensures forall i | q <= i < start :: ps[i] == ZERO_END
  {
    forall i | q <= i < start
      ensures ps[i] == ZERO_END
    {
      NumberedZero(ps, i);
      assert i + 1 < start ==> ps[i + 1].seqnum == 0;
    }
  }

  lemma {:induction false} ReachedStartIsQueued(ps: seq<Packet>, w: World, q: nat, start: nat) returns (q': nat)
    requires WellShaped(ps) && Inv(ps, w, q) && start <= w.s.pos && start <= |ps| && StartsAt(ps, start)
    ensures start <= q' <= |ps| && Collapse(WithoutFin(w.r.queued)) == Collapse(ps[..q'])
  {
    q' := q;
    if q < start {
      q' := start;
      OnlyZeroEndsAreSkipped(ps, w.s.pos, q, start);
      CollapseSkips(ps, q, start);
    }
  }

  /** When the first `t` sends have returned without a FIN, all their packets and ends have been queued in order,
      but for zero ends repeated on the spot, whatever was sent. */
  lemma {:induction false} ReturnedMeansQueued(sends: seq<seq<Byte>>, ls: seq<Step>, t: nat) returns (q: nat)
    requires t <= |sends| && OffsetOf(sends, t) <= After(sends, ls).s.pos
    ensures OffsetOf(sends, t) <= q <= |AllPackets(sends)|
    ensures Collapse(WithoutFin(After(sends, ls).r.queued)) == Collapse(AllPackets(sends)[..q])
  {
    q := InvAfter(sends, ls);
    FirstSendsLieInFront(sends, t);
    q := ReachedStartIsQueued(AllPackets(sends), After(sends, ls), q, OffsetOf(sends, t));
  }

  /** The test for an end of send ignores the number. It need not look at it: in the middle of a send only the
      expected end can arrive, so an old one is met only while number 0 is expected. */
  lemma {:induction false} StaleEndsArriveOnlyAtAStart(sends: seq<seq<Byte>>, ls: seq<Step>)
    ensures var w := After(sends, ls);
            w.r.phase.Pass? && w.fwd != [] && w.fwd[0].Good? && w.fwd[0].packet.IsEos()
            && w.fwd[0].packet.seqnum != w.r.phase.expected ==>
              w.r.phase.expected == 0
  {
    var q := InvAfter(sends, ls);
    var ps, w := AllPackets(sends), After(sends, ls);
    if w.r.phase.Pass? && w.fwd != [] && w.fwd[0].Good? && w.fwd[0].packet.IsEos()
       && w.fwd[0].packet.seqnum != w.r.phase.expected {
      UnexpectedEnds(ps, w.s.pos, q, w.fwd[0].packet);
    }
  }

  /** Queued messages carry no bytes that could never be read. */
  lemma {:induction false} NothingIsStranded(sends: seq<seq<Byte>>, ls: seq<Step>)
    ensures forall i | 0 <= i < |After(sends, ls).r.queued| :: MsgBuffers.Stranded(After(sends, ls).r.queued[i]) == 0
  {
    AllPacketsAreWellShaped(sends);
    var ps, queued := AllPackets(sends), After(sends, ls).r.queued;
    forall i | 0 <= i < |queued|
      ensures MsgBuffers.Stranded(queued[i]) == 0
    {
      if queued[i] != FIN_PACKET {
        OnlyPacketsAreQueued(sends, ls, queued[i]);
        var j :| 0 <= j < |ps| && ps[j] == queued[i];
        assert WellShapedAt(ps, j);
      }
    }
  }

  // ---------------------------------------------------------------- sends whose ends are not numbered 0

  lemma {:induction false} CountableHaveNoZeroEnds(sends: seq<seq<Byte>>)
    ensures AllCountable(sends) ==> ZERO_END !in AllPackets(sends)
    ensures EarlierCountable(sends) && sends != [] ==>
              AllPackets(sends) != [] && ZERO_END !in AllPackets(sends)[..|AllPackets(sends)| - 1]
  {
    AllPacketsAreWellShaped(sends);
    if EarlierCountable(sends) {
      EarlierSendsCountable(sends);
    }
  }

  lemma {:induction false} CountableInvAfter(sends: seq<seq<Byte>>, ls: seq<Step>) returns (q: nat)
    requires AllCountable(sends)
    ensures WellShaped(AllPackets(sends)) && Inv(AllPackets(sends), After(sends, ls), q)
    ensures Records.RecordOk(AllPackets(sends), q, After(sends, ls).r)
    ensures After(sends, ls).s.pos <= q <= After(sends, ls).s.pos + 1
    ensures WithoutFin(After(sends, ls).r.queued) == AllPackets(sends)[..q]
  {
    q := InvAfter(sends, ls);
    CountableHaveNoZeroEnds(sends);
    StartsWithThePackets(WithoutFin(After(sends, ls).r.queued), AllPackets(sends)[..q]);
  }

  /** What has been queued is an exact prefix of the packets of all sends, at most one packet ahead of what the
      sender knows to be acknowledged. */
  lemma {:induction false} WholeRunSafety(sends: seq<seq<Byte>>, ls: seq<Step>)
    requires AllCountable(sends)
    ensures var w := After(sends, ls);
            && WithoutFin(w.r.queued) <= AllPackets(sends)
            && w.s.pos <= |WithoutFin(w.r.queued)| <= w.s.pos + 1
            && (!w.r.closing ==> WithoutFin(w.r.queued) == w.r.queued)
  {
    var q := CountableInvAfter(sends, ls);
  }

  /** A packet counts as acknowledged only after it has been queued, whatever `finalizeRecv` has thrown away
      and whatever numbers it and the passes have acknowledged. */
  lemma {:induction false} AcknowledgedMeansQueued(sends: seq<seq<Byte>>, ls: seq<Step>, l: Step)
    requires AllCountable(sends)
    ensures var w, w' := After(sends, ls), Apply(AllPackets(sends), After(sends, ls), l);
            w'.s.pos != w.s.pos ==>
              && w'.s.pos == w.s.pos + 1 == |WithoutFin(w.r.queued)| <= |AllPackets(sends)|
              && WithoutFin(w.r.queued)[w.s.pos] == AllPackets(sends)[w.s.pos]
  {
    var q := CountableInvAfter(sends, ls);
    var ps, w := AllPackets(sends), After(sends, ls);
    CountableHaveNoZeroEnds(sends);
    if Apply(ps, w, l).s.pos != w.s.pos {
      AcknowledgedPosition(ps, w.s.pos, q, w.bwd[0].packet.seqnum);
    }
  }

  /** A pass that has ended, or is lingering, has queued nothing or exactly the next send. */
  lemma {:induction false} RecordAtomicity(sends: seq<seq<Byte>>, ls: seq<Step>)
    requires AllCountable(sends)
    requires !After(sends, ls).r.closing && !After(sends, ls).r.phase.Pass?
    ensures var r := After(sends, ls).r;
            && r.passStart <= |r.queued|
            && (r.passStart < |r.queued| ==>
                  exists t :: 0 <= t < |sends| && r.passStart == OffsetOf(sends, t)
                              && r.queued[r.passStart..] == PacketsOf(sends[t]))
  {
    var ps, r := AllPackets(sends), After(sends, ls).r;
    var q := CountableInvAfter(sends, ls);
    CountableHaveNoZeroEnds(sends);
    var part := r.queued[r.passStart..];
    if part != [] {
      assert part[0] == ps[r.passStart];
      var t := WholeTailIsASend(sends, q, part);
    }
  }

  // ---------------------------------------------------------------- all but the last end not numbered 0

  /** What every run should keep on the sender's side: acknowledged packets have been queued, in order. */
  predicate AcknowledgedIsQueued(sends: seq<seq<Byte>>, w: World) {
    w.s.pos <= |AllPackets(sends)| && AllPackets(sends)[..w.s.pos] <= w.r.queued
  }

  lemma {:induction false} AcknowledgedWereQueued(ps: seq<Packet>, w: World, q: nat)
    requires Inv(ps, w, q) && (ps != [] ==> ZERO_END !in ps[..|ps| - 1])
    ensures w.s.pos <= |ps| && ps[..w.s.pos] <= w.r.queued
  {
    if q != 0 {
      assert forall i | 0 <= i < |ps| - 1 :: ps[i] == ps[..|ps| - 1][i] != ZERO_END;
      StartsWithThePackets(WithoutFin(w.r.queued), ps[..q]);
    }
  }

  /** It does as long as every send but the last is countable. */
  lemma {:induction false} AcknowledgementsAreSound(sends: seq<seq<Byte>>, ls: seq<Step>)
    requires EarlierCountable(sends)
    ensures AcknowledgedIsQueued(sends, After(sends, ls))
  {
    var q := InvAfter(sends, ls);
    CountableHaveNoZeroEnds(sends);
    AcknowledgedWereQueued(AllPackets(sends), After(sends, ls), q);
  }

  /** Then a send that has returned without a FIN has all its packets, end included, queued at their very place. */
  lemma {:induction false} Completion(sends: seq<seq<Byte>>, ls: seq<Step>, t: nat)
    requires EarlierCountable(sends) && t < |sends|
    requires OffsetOf(sends, t + 1) <= After(sends, ls).s.pos
    ensures var queued := After(sends, ls).r.queued;
            OffsetOf(sends, t) <= OffsetOf(sends, t + 1) <= |queued|
            && queued[OffsetOf(sends, t)..OffsetOf(sends, t + 1)] == PacketsOf(sends[t])
  {
    AcknowledgementsAreSound(sends, ls);
    SendLiesAt(sends, t);
    var ps, w := AllPackets(sends), After(sends, ls);
    var from, to := OffsetOf(sends, t), OffsetOf(sends, t + 1);
    assert w.r.queued[from..to] == ps[..w.s.pos][from..to] == ps[from..to];
  }
}
