/** How long sends take when sender and receiver answer each other in turn. */
module Lockstep {
  import opened Message
  import opened Endpoint
  import opened Packets
  import opened Network
  import Delivery
  import Sequences

  /** One round is one `rawsend`: the packet meets the first fate, the receiver's answer the second, and the
      sender then hears what has come or times out. If the receiver's `recv` has returned, with up to `room` bytes,
      it is called again. */
  datatype Round = Round(out: Fate, back: Fate, room: nat) {
    predicate Clean() { out.Intact? && back.Intact? }
  }

  function Exchanged(ps: seq<Packet>, w: World, round: Round): World {
    var w1 := Apply(ps, w, Transmit(round.out));
    var w2 := Apply(ps, w1, HearPacket([round.back]));
    var w3 := Apply(ps, w2, HearAck([]));
    Apply(ps, w3, AckTimeout)
  }

  function Play(ps: seq<Packet>, w: World, round: Round): World {
    Apply(ps, Apply(ps, Exchanged(ps, w, round), Return(round.room)), Call)
  }

  /** The rounds are played until everything before `end` has been acknowledged. */
  function PlayUntil(ps: seq<Packet>, w: World, rounds: seq<Round>, end: nat): World
    decreases |rounds|
  {
    if rounds == [] || end <= w.s.pos then w else PlayUntil(ps, Play(ps, w, rounds[0]), rounds[1..], end)
  }

  function Faults(rounds: seq<Round>): nat {
    if rounds == [] then 0 else (if rounds[0].Clean() then 0 else 1) + Faults(rounds[1..])
  }

  /** While the sender has not heard that the end has arrived, `finalizeRecv` is not ended before its time: no
      damaged packet looks like a timeout or like the start of another transfer. */
  predicate Undisturbed(ps: seq<Packet>, w: World, rounds: seq<Round>)
    decreases |rounds|
  {
    rounds != [] ==> Patient(w, rounds[0]) && Undisturbed(ps, Play(ps, w, rounds[0]), rounds[1..])
  }

  predicate Patient(w: World, round: Round) {
    w.r.phase.Linger? && w.s.pos < |w.r.queued| ==> round.out != Emptied && round.out != Garbled(true)
  }

  /** A series of sends that the rounds can bring to its end: no end but the last is numbered 0, and no send but
      the first is empty. */
  predicate Series(ps: seq<Packet>) {
    && WellShaped(ps)
    && forall i | 0 < i < |ps| && StartsAt(ps, i) :: ps[i - 1].seqnum != 0 && !ps[i].IsEos()
  }

  /** Between rounds the channels are empty and the receiver is at most one packet ahead. Behind an end it lingers,
      and may be in the next pass once the sender knows of the end. */
  predicate BetweenRounds(ps: seq<Packet>, w: World, q: nat) {
    && w.s == Sender(w.s.pos, false, false)
    && w.s.pos <= q <= w.s.pos + 1 && q <= |ps|
    && w.fwd == [] && w.bwd == []
    && !w.r.closing && w.r.queued == ps[..q]
    && if w.r.phase.Linger? then 0 < q && StartsAt(ps, q) && w.r.phase == Linger(ps[q - 1].seqnum)
       else w.r.phase == Pass(ExpectedAt(ps, q)) && (StartsAt(ps, q) ==> q == w.s.pos)
  }

  /** The receiver still lingers over the send before. */
  predicate LingersOn(w: World) {
    w.r.phase.Linger? && |w.r.queued| == w.s.pos
  }

  // ---------------------------------------------------------------- one round

  /** What the receiver does with packet `p`: it queues it if it is new, and acknowledges it either way. */
  lemma {:induction false} PacketIsAcknowledged(ps: seq<Packet>, w: World, q: nat)
    requires Series(ps) && BetweenRounds(ps, w, q) && w.s.pos < |ps| && !LingersOn(w)
    ensures var (r, reply) := Hear(w.r, Good(ps[w.s.pos]));
            && reply == [Ack(ps[w.s.pos].seqnum)]
            && BetweenRounds(ps, w.(r := r), w.s.pos + 1)
  {
    var p := w.s.pos;
    assert WellShapedAt(ps, p);
    if q == p {
      Sequences.SliceGrows(ps, 0, p);
    }
  }

  /** A damaged packet makes the receiver repeat its last acknowledgement, or do nothing. */
  lemma {:induction false} JunkIsAnswered(ps: seq<Packet>, w: World, q: nat, a: Arrival)
    requires Series(ps) && BetweenRounds(ps, w, q) && w.s.pos < |ps|
    requires !a.Good? && (w.r.phase.Linger? ==> a != Silence && a != Junk(true))
    ensures var (r, reply) := Hear(w.r, a);
            && r == w.r
            && (reply == [] || exists n :: reply == [Ack(n)] && (n == ps[w.s.pos].seqnum ==> q == w.s.pos + 1))
  {
    assert WellShapedAt(ps, w.s.pos);
    var (r, reply) := Hear(w.r, a);
    if reply != [] {
      var n := if w.r.phase.Linger? then w.r.phase.ack else Pred(w.r.phase.expected);
      assert reply == [Ack(n)];
    }
  }

  /** The first fragment of the next send, or what looks like it or like a timeout, ends the lingering and is
      thrown away. */
  lemma {:induction false} LingeringEnds(ps: seq<Packet>, w: World, q: nat, a: Arrival)
    requires Series(ps) && BetweenRounds(ps, w, q) && w.s.pos < |ps| && LingersOn(w)
    requires a == Good(ps[w.s.pos]) || a == Silence || a == Junk(true)
    ensures Hear(w.r, a) == (EndPass(w.r), [])
  {
    assert WellShapedAt(ps, w.s.pos);
  }

  lemma {:induction false} CalledAgain(ps: seq<Packet>, w: World, room: nat)
    ensures var w' := Apply(ps, Apply(ps, w, Return(room)), Call);
            && (w.r.Listening() ==> w' == w)
            && (w.r.phase.Ready? && !w.r.closing ==>
                  w'.r.phase == Pass(0) && !w'.r.closing && w'.r.queued == w.r.queued
                  && w'.s == w.s && w'.fwd == w.fwd && w'.bwd == w.bwd)
  {
  }

  /** The rest of the exchange, once the receiver has sent an answer and `heard` is what comes of it. */
  lemma {:induction false} AnswerIsHeard(ps: seq<Packet>, w: World, heard: seq<Arrival>)
    requires w.s == Sender(w.s.pos, true, false) && w.s.pos < |ps| && w.bwd == heard && |heard| <= 1
    requires heard != [] && heard[0].Good? ==> !heard[0].packet.IsFin()
    ensures var acked := heard != [] && Acknowledges(heard[0], ps[w.s.pos]);
            Apply(ps, Apply(ps, w, HearAck([])), AckTimeout)
            == w.(s := Sender(if acked then w.s.pos + 1 else w.s.pos, false, false), bwd := [])
  {
    assert w.fwd + [] == w.fwd;
  }

  lemma {:induction false} WhatComesBack(reply: seq<Packet>, back: Fate)
    requires |reply| <= 1
    ensures var heard := Transit(reply, [back]);
            && |heard| <= 1
            && (heard != [] && heard[0].Good? ==> reply == [heard[0].packet])
            && (reply != [] && back == Intact ==> heard == [Good(reply[0])])
  {
    if reply != [] {
      assert Transit(reply, [back]) == Arrives(reply[0], back) + Transit([], []) == Arrives(reply[0], back);
    }
  }

  lemma {:induction false} AnswerIsSent(ps: seq<Packet>, w: World, round: Round, a: Arrival) returns (w2: World)
    requires w.s == Sender(w.s.pos, false, false) && w.s.pos < |ps| && w.fwd == [] && w.bwd == []
    requires w.r.Listening() && Arrives(ps[w.s.pos], round.out) == [a]
    ensures w2 == Apply(ps, Apply(ps, w, Transmit(round.out)), HearPacket([round.back]))
    ensures w2 == w.(s := w.s.(waiting := true), r := Hear(w.r, a).0, bwd := Transit(Hear(w.r, a).1, [round.back]))
  {
    var w1 := Apply(ps, w, Transmit(round.out));
    assert w1.fwd == [a] && w1.fwd[1..] == [];
    w2 := Apply(ps, w1, HearPacket([round.back]));
  }

  /** An exchange in which `a` arrives at the receiver: what becomes of the answer decides how far the sender is. */
  lemma {:induction false} Exchange(ps: seq<Packet>, w: World, round: Round, a: Arrival) returns (acked: bool)
    requires w.s == Sender(w.s.pos, false, false) && w.s.pos < |ps| && w.fwd == [] && w.bwd == []
    requires w.r.Listening() && Arrives(ps[w.s.pos], round.out) == [a]
    requires var reply := Hear(w.r, a).1; reply == [] || exists n :: reply == [Ack(n)]
    ensures Exchanged(ps, w, round)
            == w.(s := Sender(if acked then w.s.pos + 1 else w.s.pos, false, false), r := Hear(w.r, a).0)
    ensures acked ==> Hear(w.r, a).1 == [Ack(ps[w.s.pos].seqnum)]
    ensures round.Clean() && Hear(w.r, a).1 == [Ack(ps[w.s.pos].seqnum)] ==> acked
  {
    var reply := Hear(w.r, a).1;
    WhatComesBack(reply, round.back);
    var w2 := AnswerIsSent(ps, w, round, a);
    AnswerIsHeard(ps, w2, w2.bwd);
    acked := w2.bwd != [] && Acknowledges(w2.bwd[0], ps[w.s.pos]);
  }

  /** A round in which the receiver gives up lingering over the send before. */
  lemma {:induction false} RoundEndsLingering(ps: seq<Packet>, w: World, q: nat, round: Round, a: Arrival)
    requires Series(ps) && BetweenRounds(ps, w, q) && w.s.pos < |ps| && LingersOn(w)
    requires Arrives(ps[w.s.pos], round.out) == [a]
    requires a == Good(ps[w.s.pos]) || a == Silence || a == Junk(true)
    ensures var w' := Play(ps, w, round); BetweenRounds(ps, w', q) && w'.s == w.s && w'.r.phase == Pass(0)
  {
    LingeringEnds(ps, w, q, a);
    var acked := Exchange(ps, w, round, a);
    CalledAgain(ps, Exchanged(ps, w, round), round.room);
  }

  /** A round in which the receiver acknowledges the sender's packet. */
  lemma {:induction false} RoundAcknowledges(ps: seq<Packet>, w: World, q: nat, round: Round)
    requires Series(ps) && BetweenRounds(ps, w, q) && w.s.pos < |ps| && !LingersOn(w) && round.out == Intact
    ensures var w' := Play(ps, w, round);
            && BetweenRounds(ps, w', w.s.pos + 1)
            && w.s.pos <= w'.s.pos && (round.Clean() ==> w'.s.pos == w.s.pos + 1)
  {
    PacketIsAcknowledged(ps, w, q);
    var acked := Exchange(ps, w, round, Good(ps[w.s.pos]));
    CalledAgain(ps, Exchanged(ps, w, round), round.room);
  }

  /** A round in which the receiver hears a damaged packet and at best repeats itself. */
  lemma {:induction false} RoundRepeats(ps: seq<Packet>, w: World, q: nat, round: Round, a: Arrival)
    requires Series(ps) && BetweenRounds(ps, w, q) && w.s.pos < |ps|
    requires Arrives(ps[w.s.pos], round.out) == [a]
    requires !a.Good? && (w.r.phase.Linger? ==> a != Silence && a != Junk(true))
    ensures var w' := Play(ps, w, round); BetweenRounds(ps, w', q) && w.s.pos <= w'.s.pos && w'.r == w.r
  {
    JunkIsAnswered(ps, w, q, a);
    var acked := Exchange(ps, w, round, a);
    CalledAgain(ps, Exchanged(ps, w, round), round.room);
  }

  lemma {:induction false} RoundIsLost(ps: seq<Packet>, w: World, round: Round)
    requires w.s == Sender(w.s.pos, false, false) && w.s.pos < |ps| && w.fwd == [] && w.bwd == []
    requires w.r.Listening() && round.out == Lost
    ensures Play(ps, w, round) == w
  {
    var w1 := Apply(ps, w, Transmit(round.out));
    assert w1.fwd == [];
    AnswerIsHeard(ps, w1, []);
    CalledAgain(ps, Exchanged(ps, w, round), round.room);
  }

  /** No round loses ground, and a clean one gains a packet, or ends the lingering over the send before. */
  lemma {:induction false} RoundProgresses(ps: seq<Packet>, w: World, q: nat, round: Round) returns (q': nat)
    requires Series(ps) && BetweenRounds(ps, w, q) && Patient(w, round) && w.s.pos < |ps|
    ensures var w' := Play(ps, w, round);
            && BetweenRounds(ps, w', q') && q' <= w.s.pos + 1
            && w.s.pos <= w'.s.pos
            && (LingersOn(w') && w'.s.pos == w.s.pos ==> LingersOn(w))
            && (round.Clean() ==> if LingersOn(w) then w'.s.pos == w.s.pos && !LingersOn(w')
                                  else w'.s.pos == w.s.pos + 1)
  {
    q' := q;
    if round.out.Lost? {
      RoundIsLost(ps, w, round);
    } else {
      var a := Arrives(ps[w.s.pos], round.out)[0];
      if LingersOn(w) && a != Junk(false) {
        RoundEndsLingering(ps, w, q, round, a);
      } else if a.Good? {
        q' := w.s.pos + 1;
        RoundAcknowledges(ps, w, q, round);
      } else {
        RoundRepeats(ps, w, q, round, a);
      }
    }
  }

  // ---------------------------------------------------------------- many rounds

  /** How many sends start in `[from, end)`. */
  function Starts(ps: seq<Packet>, from: nat, end: nat): nat
    requires end <= |ps|
    decreases end - from
  {
    if end <= from then 0 else (if StartsAt(ps, from) then 1 else 0) + Starts(ps, from + 1, end)
  }

  /** How many clean rounds it takes at most to get everything before `end` acknowledged: one for each packet, and
      one for each send whose first fragment may find the receiver lingering. */
  function RoundsLeft(ps: seq<Packet>, w: World, end: nat): nat
    requires end <= |ps|
  {
    if end <= w.s.pos then 0
    else (end - w.s.pos) + Starts(ps, w.s.pos + 1, end) + if LingersOn(w) then 1 else 0
  }

  lemma {:induction false} FewerRoundsLeft(ps: seq<Packet>, w: World, q: nat, round: Round, end: nat)
    returns (q': nat)
    requires Series(ps) && BetweenRounds(ps, w, q) && Patient(w, round) && w.s.pos < end <= |ps|
    ensures BetweenRounds(ps, Play(ps, w, round), q') && w.s.pos <= Play(ps, w, round).s.pos
    ensures RoundsLeft(ps, Play(ps, w, round), end) <= RoundsLeft(ps, w, end)
    ensures round.Clean() ==> RoundsLeft(ps, Play(ps, w, round), end) < RoundsLeft(ps, w, end)
  {
    q' := RoundProgresses(ps, w, q, round);
  }

  lemma {:induction false} RoundsProgress(ps: seq<Packet>, w: World, q: nat, rounds: seq<Round>, end: nat)
    returns (q': nat)
    requires Series(ps) && BetweenRounds(ps, w, q) && Undisturbed(ps, w, rounds) && end <= |ps|
    requires RoundsLeft(ps, w, end) + Faults(rounds) <= |rounds|
    ensures end <= PlayUntil(ps, w, rounds, end).s.pos && BetweenRounds(ps, PlayUntil(ps, w, rounds, end), q')
    decreases |rounds|
  {
    q' := q;
    if w.s.pos < end {
      q' := FewerRoundsLeft(ps, w, q, rounds[0], end);
      q' := RoundsProgress(ps, Play(ps, w, rounds[0]), q', rounds[1..], end);
    }
  }

  // ---------------------------------------------------------------- series of sends

  /** The condition on the sends, for the rounds to bring them to their end. */
  predicate Playable(sends: seq<seq<Byte>>) {
    Delivery.EarlierCountable(sends) && forall t | 0 < t < |sends| :: sends[t] != []
  }

  lemma {:induction false} LaterSendsOpen(sends: seq<seq<Byte>>, i: nat)
    requires forall t | 0 < t < |sends| :: sends[t] != []
    requires 0 < i < |AllPackets(sends)| && StartsAt(AllPackets(sends), i)
    ensures !AllPackets(sends)[i].IsEos()
    decreases |sends|
  {
    var n := |PacketsOf(sends[0])|;
    StartsShift(sends, i);
    if n < i {
      LaterSendsOpen(sends[1..], i - n);
    } else {
      assert AllPackets(sends[1..])[0] == PacketsOf(sends[1])[0];
      OneSendIsWellShaped(sends[1]);
    }
  }

  lemma {:induction false} PlayableIsSeries(sends: seq<seq<Byte>>)
    requires Playable(sends)
    ensures Series(AllPackets(sends))
  {
    var ps := AllPackets(sends);
    AllPacketsAreWellShaped(sends);
    EarlierSendsCountable(sends);
    forall i | 0 < i < |ps| && StartsAt(ps, i)
      ensures ps[i - 1].seqnum != 0 && !ps[i].IsEos()
    {
      LaterSendsOpen(sends, i);
    }
  }

  lemma {:induction false} NoStarts(ps: seq<Packet>, from: nat, end: nat)
    requires end <= |ps| && forall i | from <= i < end :: !StartsAt(ps, i)
    ensures Starts(ps, from, end) == 0
    decreases end - from
  {
    if from < end {
      NoStarts(ps, from + 1, end);
    }
  }

  lemma {:induction false} StartsSplit(ps: seq<Packet>, from: nat, mid: nat, end: nat)
    requires from <= mid <= end <= |ps|
    ensures Starts(ps, from, end) == Starts(ps, from, mid) + Starts(ps, mid, end)
    decreases mid - from
  {
    if from < mid {
      StartsSplit(ps, from + 1, mid, end);
    }
  }

  lemma {:induction false} NoStartsInSlice(ps: seq<Packet>, from: nat, end: nat, data: seq<Byte>)
    requires from < end <= |ps| && ps[from..end] == PacketsOf(data)
    ensures Starts(ps, from + 1, end) == 0
  {
    OneSendIsWellShaped(data);
    forall i | from < i < end
      ensures !StartsAt(ps, i)
    {
      assert ps[i - 1] == ps[from..end][i - 1 - from];
    }
    NoStarts(ps, from + 1, end);
  }

  /** Within a send no other starts. */
  lemma {:induction false} NoStartsWithin(sends: seq<seq<Byte>>, t: nat)
    requires t < |sends|
    ensures OffsetOf(sends, t) < OffsetOf(sends, t + 1) <= |AllPackets(sends)|
    ensures Starts(AllPackets(sends), OffsetOf(sends, t) + 1, OffsetOf(sends, t + 1)) == 0
  {
    SendLiesAt(sends, t);
    NoStartsInSlice(AllPackets(sends), OffsetOf(sends, t), OffsetOf(sends, t + 1), sends[t]);
  }

  /** Each send behind the first has one start. */
  lemma {:induction false} StartsOfSends(sends: seq<seq<Byte>>, t: nat)
    requires t < |sends|
    ensures OffsetOf(sends, t + 1) <= |AllPackets(sends)|
    ensures Starts(AllPackets(sends), 1, OffsetOf(sends, t + 1)) == t
    decreases t
  {
    var ps, from, end := AllPackets(sends), OffsetOf(sends, t), OffsetOf(sends, t + 1);
    NoStartsWithin(sends, t);
    if t == 0 {
      assert sends[..0] == [] && from == 0;
    } else {
      StartsOfSends(sends, t - 1);
      NoStartsWithin(sends, t - 1);
      FirstSendsLieInFront(sends, t);
      StartsSplit(ps, 1, from, end);
    }
  }

  /** A send of the series, met by a receiver that still lingers over the send before or is in the next pass
      already: with at most K faulty rounds its N fragments and its end are acknowledged and received after at most
      N + 1 + K packets sent, and one more for the fragment that ends the lingering and is thrown away. */
  lemma {:induction false} SendEndsWithinASeries(sends: seq<seq<Byte>>, t: nat, w: World, q: nat, rounds: seq<Round>)
    returns (q': nat)
    requires Playable(sends) && t < |sends|
    requires BetweenRounds(AllPackets(sends), w, q) && Undisturbed(AllPackets(sends), w, rounds)
    requires w.s.pos == OffsetOf(sends, t)
    requires FragmentCount(sends[t]) + 1 + (if LingersOn(w) then 1 else 0) + Faults(rounds) <= |rounds|
    ensures var w' := PlayUntil(AllPackets(sends), w, rounds, OffsetOf(sends, t + 1));
            && BetweenRounds(AllPackets(sends), w', q')
            && OffsetOf(sends, t + 1) <= w'.s.pos && OffsetOf(sends, t + 1) <= q'
  {
    PlayableIsSeries(sends);
    SendLiesAt(sends, t);
    NoStartsWithin(sends, t);
    q' := RoundsProgress(AllPackets(sends), w, q, rounds, OffsetOf(sends, t + 1));
  }

  /** A fresh pair of peers, once `recv` has been called. */
  lemma {:induction false} AtTheStart(ps: seq<Packet>)
    ensures BetweenRounds(ps, Apply(ps, INITIAL, Call), 0)
  {
    assert INITIAL.r.queued == [] == ps[..0];
  }

  lemma {:induction false} FromTheStart(ps: seq<Packet>, w: World, rounds: seq<Round>)
    requires Series(ps) && ps != [] && BetweenRounds(ps, w, 0) && Undisturbed(ps, w, rounds)
    requires |ps| + Starts(ps, 1, |ps|) + Faults(rounds) <= |rounds|
    ensures var w' := PlayUntil(ps, w, rounds, |ps|); w'.s.pos == |ps| && w'.r.queued == ps
  {
    assert RoundsLeft(ps, w, |ps|) == |ps| + Starts(ps, 1, |ps|);
    var q := RoundsProgress(ps, w, 0, rounds, |ps|);
    assert ps[..|ps|] == ps;
  }

  /** A whole series, met by a receiver at the start of its first pass: one round for each packet, one for each send
      but the first, and one for each faulty round. Then everything has been acknowledged and queued. */
  lemma {:induction false} SeriesEndsUnderFiniteFaults(sends: seq<seq<Byte>>, w: World, rounds: seq<Round>)
    requires Playable(sends) && sends != []
    requires BetweenRounds(AllPackets(sends), w, 0) && Undisturbed(AllPackets(sends), w, rounds)
    requires |AllPackets(sends)| + |sends| - 1 + Faults(rounds) <= |rounds|
    ensures var w' := PlayUntil(AllPackets(sends), w, rounds, |AllPackets(sends)|);
            w'.s.pos == |AllPackets(sends)| && w'.r.queued == AllPackets(sends)
  {
    PlayableIsSeries(sends);
    StartsOfSends(sends, |sends| - 1);
    SendLiesAt(sends, |sends| - 1);
    FromTheStart(AllPackets(sends), w, rounds);
  }

  /** A send of N fragments that meets a receiver at the start of its first pass and at most K rounds with a fault is
      acknowledged and received to its end after at most N + 1 + K packets sent, whatever the faults are. */
  lemma {:induction false} SendEndsUnderFiniteFaults(data: seq<Byte>, w: World, rounds: seq<Round>, k: nat)
    requires BetweenRounds(PacketsOf(data), w, 0) && Undisturbed(PacketsOf(data), w, rounds)
    requires Faults(rounds) <= k && FragmentCount(data) + 1 + k <= |rounds|
    ensures var w' := PlayUntil(PacketsOf(data), w, rounds, |PacketsOf(data)|);
            w'.s.pos == |PacketsOf(data)| && w'.r.queued == PacketsOf(data)
  {
    assert [data][1..] == [] && AllPackets([data]) == PacketsOf(data) + AllPackets([data][1..]) == PacketsOf(data);
    SeriesEndsUnderFiniteFaults([data], w, rounds);
  }
}
