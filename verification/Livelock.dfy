/** An empty send behind another: a fault-free exchange that never ends. */
module Livelock {
  import opened Message
  import opened Endpoint
  import opened Packets
  import opened Network
  import opened CleanRuns
  import opened Lockstep
  import Delivery
  import Limits
  import Repeats

  /** The receiver lingers over one send, and the sender's packet is the end of the next, which is empty. */
  predicate AtAnEmptySend(ps: seq<Packet>, w: World) {
    && w.s == Sender(w.s.pos, false, false) && w.s.pos < |ps| && ps[w.s.pos] == Repeats.ZERO_END
    && w.r.phase.Linger? && w.r.phase.ack != 0 && !w.r.closing
    && w.fwd == [] && w.bwd == []
  }

  /** No damaged packet looks like a timeout or like the start of another transfer. */
  predicate NeverInterrupted(rounds: seq<Round>) {
    forall i | 0 <= i < |rounds| :: rounds[i].out != Emptied && rounds[i].out != Garbled(true)
  }

  /** An end does not open a transfer, so the receiver repeats its last acknowledgement, which does not match. */
  lemma {:induction false} NothingHappens(ps: seq<Packet>, w: World, round: Round)
    requires AtAnEmptySend(ps, w) && round.out != Emptied && round.out != Garbled(true)
    ensures Play(ps, w, round) == w
  {
    if round.out.Lost? {
      RoundIsLost(ps, w, round);
    } else {
      var a := Arrives(ps[w.s.pos], round.out)[0];
      assert Hear(w.r, a) == (w.r, [Ack(w.r.phase.ack)]);
      var acked := Lockstep.Exchange(ps, w, round, a);
      Lockstep.CalledAgain(ps, Exchanged(ps, w, round), round.room);
    }
  }

  lemma {:induction false} NothingEverHappens(ps: seq<Packet>, w: World, rounds: seq<Round>, end: nat)
    requires AtAnEmptySend(ps, w) && NeverInterrupted(rounds)
    ensures PlayUntil(ps, w, rounds, end) == w
    decreases |rounds|
  {
    if rounds != [] && w.s.pos < end {
      NothingHappens(ps, w, rounds[0]);
      NothingEverHappens(ps, w, rounds[1..], end);
    }
  }

  lemma {:induction false} WhereAnEmptySendFollows(sends: seq<seq<Byte>>, t: nat) returns (p: nat)
    requires t + 1 < |sends| && Countable(sends[t]) && sends[t + 1] == []
    ensures WellShaped(AllPackets(sends)) && p + 1 < |AllPackets(sends)| && p + 1 == OffsetOf(sends, t + 1)
    ensures AllPackets(sends)[p].IsEos() && AllPackets(sends)[p].seqnum != 0
    ensures AllPackets(sends)[p + 1] == Repeats.ZERO_END
  {
    AllPacketsAreWellShaped(sends);
    p := Limits.WhereASendEnds(sends, t);
    var next := Limits.WhereASendEnds(sends, t + 1);
    SendLiesAt(sends, t + 1);
  }

  lemma {:induction false} AnEmptySendCanBeReached(ps: seq<Packet>, p: nat) returns (ls: seq<Step>)
    requires WellShaped(ps) && p + 1 < |ps|
    requires ps[p].IsEos() && ps[p].seqnum != 0 && ps[p + 1] == Repeats.ZERO_END
    ensures FaultFree(ps, INITIAL, ls)
    ensures AtAnEmptySend(ps, Run(ps, INITIAL, ls)) && Run(ps, INITIAL, ls).s.pos == p + 1
  {
    var before := AnyPositionCanBeReached(ps, p);
    var w := PacketAndAck(ps, Run(ps, INITIAL, before), p);
    RunAppend(ps, INITIAL, before, PACKET_AND_ACK);
    FaultFreeAppend(ps, INITIAL, before, PACKET_AND_ACK);
    ls := before + PACKET_AND_ACK;
  }

  /** An empty send behind a countable one: after a run without a fault in which the first has returned, the second
      does not return, however often its end arrives whole and is answered. Only a timeout of `finalizeRecv`, which
      is what these very packets keep from coming, or a fault can end it. */
  lemma {:induction false} AnEmptySendBehindAnotherGetsNowhere(sends: seq<seq<Byte>>, t: nat) returns (ls: seq<Step>)
    requires t + 1 < |sends| && Countable(sends[t]) && sends[t + 1] == []
    ensures FaultFree(AllPackets(sends), INITIAL, ls)
    ensures Delivery.After(sends, ls).s.pos == OffsetOf(sends, t + 1)
    ensures forall rounds {:induction false} | NeverInterrupted(rounds) ::
              PlayUntil(AllPackets(sends), Delivery.After(sends, ls), rounds, OffsetOf(sends, t + 2))
              == Delivery.After(sends, ls)
  {
    var ps := AllPackets(sends);
    var p := WhereAnEmptySendFollows(sends, t);
    ls := AnEmptySendCanBeReached(ps, p);
    forall rounds | NeverInterrupted(rounds)
      ensures PlayUntil(ps, Delivery.After(sends, ls), rounds, OffsetOf(sends, t + 2)) == Delivery.After(sends, ls)
    {
      NothingEverHappens(ps, Delivery.After(sends, ls), rounds, OffsetOf(sends, t + 2));
    }
  }
}
