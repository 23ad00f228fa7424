/** What the loops do with what they hear, turn by turn and message by message, in plain terms. */
module Turns {
  import opened Message
  import opened Ucp
  import opened Stream
  import opened Endpoint
  import opened Bytes
  import opened Sequences

  // ---------------------------------------------------------------- what one receive brings

  /** A timeout is a timeout, or an empty datagram while `errno` happens to say so. Another error, or an empty
      datagram otherwise, is refused, and does not look like the start of a transfer. */
  lemma {:induction false} ErrorsAreNotTimeouts(e: Event)
    ensures Classify(e) == Silence <==> e == Timeout || (e.Datagram? && e.bytes == [] && e.errnoIsAgain)
    ensures e == Failure || (e.Datagram? && e.bytes == [] && !e.errnoIsAgain) ==> Classify(e) == Junk(false)
  {
  }

  /** What the bytes of a datagram, cut to 512, are taken for. */
  lemma {:induction false} DatagramsInBytes(bytes: seq<Byte>, errnoIsAgain: bool)
    requires bytes != []
    ensures var w, a := if |bytes| <= 512 then bytes else bytes[..512], Classify(Datagram(bytes, errnoIsAgain));
            if 12 <= |w| && Short(w, 6) == |w| - 12 && Long(w, 0) == Sum(At(w, |w| - 1)) then
              a.Good? && a.packet.seqnum == Short(w, 4) && a.packet.flags == Long(w, 8) && a.packet.payload == w[12..]
            else
              a == Junk(Short(w, 4) == 0 && 0 < Short(w, 6) <= 500 && Long(w, 0) == Sum(At(w, 11 + Short(w, 6))))
  {
    var w := Received(bytes);
    AcceptedInBytes(w);
    OpensInBytes(w);
  }

  // ---------------------------------------------------------------- sending

  lemma {:induction false} BurstInPlain()
    ensures FinBurst() == Repeated(Packet(666, 4, []), 2048)
  {
  }

  lemma {:induction false} OneMoreCopy(sent: seq<Packet>, pk: Packet, n: nat)
    ensures sent + [pk] + Repeated(pk, n) == sent + Repeated(pk, n + 1)
  {
  }

  predicate EndsAcksend(a: Arrival, n: Uint16) {
    a.Good? && (a.packet.flags / 4 % 2 == 1 || a.packet.seqnum == n)
  }

  /** `acksend` listens once for every copy it sends. The first accepted message with the packet's number ends it,
      whatever its flags and payload, or the first FIN, which is answered by 2048 others; nothing else does. */
  lemma {:induction false} AcksendInPlain(pk: Packet, heard: seq<Arrival>, sent: seq<Packet>) returns (i: nat)
    ensures i <= |heard| && (forall k | 0 <= k < i :: !EndsAcksend(heard[k], pk.seqnum))
    ensures i == |heard| ==>
              RunAcksend(pk, heard, sent) == AckRun(false, false, sent + Repeated(pk, |heard| + 1), [])
    ensures i < |heard| ==>
              && EndsAcksend(heard[i], pk.seqnum)
              && RunAcksend(pk, heard, sent)
                 == if heard[i].packet.flags / 4 % 2 == 1 then
                      var burst := Repeated(Packet(666, 4, []), 2048);
                      AckRun(false, true, sent + Repeated(pk, i + 1) + burst, heard[i + 1..])
                    else AckRun(true, false, sent + Repeated(pk, i + 1), heard[i + 1..])
  {
    i := 0;
    BurstInPlain();
    assert Repeated(pk, 1) == [pk];
    if heard != [] && !EndsAcksend(heard[0], pk.seqnum) {
      i := AcksendInPlain(pk, heard[1..], sent + [pk]);
      OneMoreCopy(sent, pk, i + 1);
      assert forall k | 0 < k < |heard| :: heard[k] == heard[1..][k - 1];
      i := i + 1;
    }
  }

  // ---------------------------------------------------------------- a pass of `recv`

  /** One receive in a pass. A message with the expected number is queued, and the next number expected; every
      receive but a timeout is answered with the number before the one that is expected then, or a FIN with 2048. */
  lemma {:induction false} TurnOfPassInPlain(r: Receiver, a: Arrival)
    requires r.phase.Pass? && !r.closing
    ensures var expected := r.phase.expected;
            var (end, sent) := Hear(r, a);
            var matches := a.Good? && a.packet.seqnum == expected;
            var eos, fin := a.Good? && a.packet.flags / 2 % 2 == 1, a.Good? && a.packet.flags / 4 % 2 == 1;
            var next := if matches then (expected + 1) % 65536 else expected;
            && end.queued == (if matches then r.queued + [a.packet] else r.queued)
            && end.unread == (if !matches then r.unread
                              else r.unread + if eos then [Mark] else Octets(a.packet.payload))
            && end.stranded == r.stranded + (if matches && eos then |a.packet.payload| else 0)
            && end.closing == fin
            && end.phase == (if eos then Linger((next + 65535) % 65536) else if fin then Ready else Pass(next))
            && sent == if a == Silence then [] else if fin then Repeated(Packet(666, 4, []), 2048)
                       else [Packet((next + 65535) % 65536, 1, [])]
  {
    BurstInPlain();
  }

  /** A call starts a pass unless the channel is closed. Behind a pass there is another one exactly if the channel
      is open and nothing is left to read; otherwise the call ends, without a read if it is closed and nothing is
      left. */
  lemma {:induction false} EndOfPassInPlain(r: Receiver, n: nat)
    ensures StartPass(r).phase == if r.closing then Ready else Pass(0)
    ensures StartPass(r).(phase := r.phase, passStart := r.passStart) == r
    ensures EndPass(r).phase == if r.closing || Text(r.unread) != [] || r.stranded != 0 then Ready else Pass(0)
    ensures EndPass(r).(phase := r.phase, passStart := r.passStart) == r
    ensures var nothing := r.closing && Text(r.unread) == [] && r.stranded == 0;
            Deliver(r, n) == if nothing then (r.(phase := Idle), [])
                             else (r.(phase := Idle, unread := FlatRead(r.unread, n).1), FlatRead(r.unread, n).0)
  {
  }

  /** Whatever `recv` sends is a FIN or a bare acknowledgement, which is no end of send. */
  lemma {:induction false} AnswersInPlain(r: Receiver, a: Arrival)
    requires r.Listening()
    ensures forall pk | pk in Hear(r, a).1 :: !pk.IsEos() && pk.payload == []
                                              && (pk.IsFin() ==> pk == Packet(666, 4, []))
                                              && (!pk.IsFin() ==> pk.flags == 1)
  {
  }

  // ---------------------------------------------------------------- `finalizeRecv`

  predicate EndsTransfer(a: Arrival) {
    a.Good? && (a.packet.IsEos() || a.packet.IsFin())
  }

  /** What ends the loop of `finalizeRecv`. */
  predicate GivesUp(a: Arrival) {
    a == Silence || a == Junk(true) || (a.Good? && a.packet.seqnum == 0 && a.packet.payload != [])
  }

  /** How much comes before the first end of send or FIN. */
  function FirstEnd(heard: seq<Arrival>): (n: nat)
    ensures n <= |heard| && (n < |heard| ==> EndsTransfer(heard[n]))
    ensures forall i | 0 <= i < n :: !EndsTransfer(heard[i])
  {
    if heard == [] || EndsTransfer(heard[0]) then 0 else 1 + FirstEnd(heard[1..])
  }

  /** How much comes before the first arrival that ends the lingering or, as a FIN, makes it endless. */
  function FirstStop(heard: seq<Arrival>): (n: nat)
    ensures n <= |heard| && (n < |heard| ==> GivesUp(heard[n]) || FinishesWith(heard[n]))
    ensures forall i | 0 <= i < n :: !GivesUp(heard[i]) && !FinishesWith(heard[i])
  {
    if heard == [] || GivesUp(heard[0]) || FinishesWith(heard[0]) then 0 else 1 + FirstStop(heard[1..])
  }

  /** Up to there every receive is answered with the same acknowledgement, refused messages and errors included, and
      nothing else happens. */
  lemma {:induction false} LingeringAnswersEach(r: Receiver, heard: seq<Arrival>, sent: seq<Packet>)
    requires r.phase.Linger? && !r.closing && FirstStop(heard) == |heard|
    ensures RunRecv(r, heard, sent) == RecvRun(r, sent + Repeated(Packet(r.phase.ack, 1, []), |heard|), [])
  {
    var ack := Packet(r.phase.ack, 1, []);
    if heard == [] {
      assert sent + Repeated(ack, 0) == sent;
    } else {
      assert Hear(r, heard[0]) == (r, [ack]);
      LingeringAnswersEach(r, heard[1..], sent + [ack]);
      OneMoreCopy(sent, ack, |heard| - 1);
    }
  }

  lemma {:induction false} BeforeTheFirstStop(heard: seq<Arrival>)
    ensures FirstStop(heard[..FirstStop(heard)]) == FirstStop(heard)
  {
    var n := FirstStop(heard);
    assert forall k | 0 <= k < n :: heard[..n][k] == heard[k];
  }

  /** The receive that stops it: what gives up ends the pass and is not answered; a FIN closes and is answered by the
      burst, and does not end the pass unless it looks like a first fragment. */
  lemma {:induction false} LingeringStops(r: Receiver, a: Arrival)
    requires r.phase.Linger? && !r.closing && (GivesUp(a) || FinishesWith(a))
    ensures var fin := a.Good? && a.packet.flags / 4 % 2 == 1;
            Hear(r, a) == (if GivesUp(a) then EndPass(r.(closing := fin)) else r.(closing := true),
                           if fin then Repeated(Packet(666, 4, []), 2048) else [])
  {
    BurstInPlain();
  }

  lemma {:induction false} RunSplits(r: Receiver, a: seq<Arrival>, b: seq<Arrival>, sent: seq<Packet>)
    requires RunRecv(r, a, sent).end.Listening()
    ensures RunRecv(r, a + b, sent) == RunRecv(RunRecv(r, a, sent).end, b, RunRecv(r, a, sent).sent)
    decreases |a|
  {
    if a == [] {
      assert a + b == b;
    } else {
      TailOfSum(a, b);
      var (r', reply) := Hear(r, a[0]);
      RunSplits(r', a[1..], b, sent + reply);
    }
  }

  /** On a closed socket `finalizeRecv` never sees a timeout, only errors: it never returns. */
  lemma {:induction false} LingeringOnAClosedSocketNeverEnds(r: Receiver, heard: seq<Arrival>, sent: seq<Packet>)
    requires r.phase.Linger? && r.closing
    ensures RunRecv(r, heard, sent) == RecvRun(r, sent, [])
  {
    if heard != [] {
      LingeringOnAClosedSocketNeverEnds(r, heard[1..], sent + []);
      assert sent + [] == sent;
    }
  }

  /** All that `finalizeRecv` does on an open socket: as many answers as there are receives before the stop, and then
      the end of the pass, or a burst and nothing ever again. */
  lemma {:induction false} LingeringInPlain(r: Receiver, heard: seq<Arrival>, sent: seq<Packet>)
    requires r.phase.Linger? && !r.closing
    ensures var n := FirstStop(heard);
            var answered := sent + Repeated(Packet(r.phase.ack, 1, []), n);
            RunRecv(r, heard, sent)
            == if n == |heard| then RecvRun(r, answered, [])
               else
                 var fin := heard[n].Good? && heard[n].packet.flags / 4 % 2 == 1;
                 var all := answered + if fin then Repeated(Packet(666, 4, []), 2048) else [];
                 if GivesUp(heard[n]) then RunRecv(EndPass(r.(closing := fin)), heard[n + 1..], all)
                 else RecvRun(r.(closing := true), all, [])
  {
    var n := FirstStop(heard);
    var answered := sent + Repeated(Packet(r.phase.ack, 1, []), n);
    BeforeTheFirstStop(heard);
    LingeringAnswersEach(r, heard[..n], sent);
    if n == |heard| {
      assert heard[..n] == heard;
    } else {
      assert heard == heard[..n] + heard[n..] && heard[n..][1..] == heard[n + 1..];
      RunSplits(r, heard[..n], heard[n..], sent);
      LingeringStops(r, heard[n]);
      var (r', reply) := Hear(r, heard[n]);
      if !GivesUp(heard[n]) {
        LingeringOnAClosedSocketNeverEnds(r', heard[n + 1..], answered + reply);
      }
    }
  }

  /** An error, or an empty datagram while `errno` does not say timeout, never ends the lingering, and is answered. */
  lemma {:induction false} LingeringSurvivesErrors(r: Receiver, es: seq<Event>, sent: seq<Packet>)
    requires r.phase.Linger? && !r.closing
    requires forall i | 0 <= i < |es| ::
               es[i] == Failure || (es[i].Datagram? && es[i].bytes == [] && !es[i].errnoIsAgain)
    ensures RunRecv(r, ClassifyAll(es), sent) == RecvRun(r, sent + Repeated(Packet(r.phase.ack, 1, []), |es|), [])
  {
    forall i | 0 <= i < |es|
      ensures ClassifyAll(es)[i] == Junk(false)
    {
      ErrorsAreNotTimeouts(es[i]);
    }
    var heard := ClassifyAll(es);
    LingeringAnswersEach(r, heard, sent);
  }
}
