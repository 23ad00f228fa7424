/** When a call of `recv` comes to its end: the exact condition on what it hears. */
module Calls {
  import opened Message
  import opened Stream
  import opened Endpoint
  import opened Turns
  import Sequences

  /** Whether some byte is queued by a pass that expects the number `expected` first. */
  predicate Brings(expected: Uint16, heard: seq<Arrival>)
    decreases |heard|
  {
    heard != [] &&
    var matches := heard[0].Good? && heard[0].packet.seqnum == expected;
    || (matches && heard[0].packet.payload != [])
    || Brings(if matches then Succ(expected) else expected, heard[1..])
  }

  /** The arrivals bring a pass to its end, and the call with it: a FIN comes in place of an end of send; or an end
      of send comes and the lingering ends, and there are bytes to read, `left` from before or from this pass, or
      else another pass, or several, do the same. */
  predicate PassCompletes(expected: Uint16, left: bool, heard: seq<Arrival>)
    decreases |heard|, 1
  {
    var i := FirstEnd(heard);
    i < |heard| &&
    if heard[i].packet.IsFin() then !heard[i].packet.IsEos()
    else LingerCompletes(left || Brings(expected, heard[..i + 1]), heard[i + 1..])
  }

  predicate LingerCompletes(left: bool, heard: seq<Arrival>)
    decreases |heard|, 0
  {
    var j := FirstStop(heard);
    j < |heard| && GivesUp(heard[j]) && (left || FinishesWith(heard[j]) || PassCompletes(0, false, heard[j + 1..]))
  }

  lemma {:induction false} BringsFrom(expected: Uint16, a: Arrival, tail: seq<Arrival>)
    ensures var matches := a.Good? && a.packet.seqnum == expected;
            Brings(expected, [a] + tail) <==>
            (matches && a.packet.payload != []) || Brings(if matches then Succ(expected) else expected, tail)
  {
    Sequences.TailOfSum([a], tail);
    assert [a][1..] + tail == tail;
  }

  lemma {:induction false} PassGoesOn(expected: Uint16, left: bool, heard: seq<Arrival>)
    requires heard != [] && !EndsTransfer(heard[0])
    ensures var matches := heard[0].Good? && heard[0].packet.seqnum == expected;
            PassCompletes(expected, left, heard) <==>
            PassCompletes(if matches then Succ(expected) else expected,
                          left || (matches && heard[0].packet.payload != []), heard[1..])
  {
    var i, tail := FirstEnd(heard[1..]), heard[1..];
    assert FirstEnd(heard) == i + 1;
    if i < |tail| {
      BringsFrom(expected, heard[0], tail[..i + 1]);
      assert heard[..i + 2] == [heard[0]] + tail[..i + 1];
      Sequences.SliceOfSlice(heard, 1, 0, i + 1);
    }
  }

  lemma {:induction false} PassEndsHere(expected: Uint16, left: bool, heard: seq<Arrival>)
    requires heard != [] && EndsTransfer(heard[0])
    ensures var brings := heard[0].packet.seqnum == expected && heard[0].packet.payload != [];
            PassCompletes(expected, left, heard) <==>
            if heard[0].packet.IsFin() then !heard[0].packet.IsEos() else LingerCompletes(left || brings, heard[1..])
  {
    BringsFrom(expected, heard[0], []);
    assert heard[..1] == [heard[0]] + [] && FirstEnd(heard) == 0;
  }

  lemma {:induction false} LingerGoesOn(left: bool, heard: seq<Arrival>)
    requires heard != [] && !GivesUp(heard[0]) && !FinishesWith(heard[0])
    ensures LingerCompletes(left, heard) <==> LingerCompletes(left, heard[1..])
  {
    var j, tail := FirstStop(heard[1..]), heard[1..];
    assert FirstStop(heard) == j + 1;
    if j < |tail| {
      assert heard[j + 2..] == tail[j + 1..];
    }
  }

  /** What one arrival does to a pass, as far as it matters here. */
  lemma {:induction false} HeardInPass(r: Receiver, a: Arrival)
    requires r.phase.Pass? && !r.closing
    ensures var r' := Hear(r, a).0;
            var matches := a.Good? && a.packet.seqnum == r.phase.expected;
            && (EndsTransfer(a) && a.packet.IsFin() ==>
                  r'.closing && r'.phase.Linger? == a.packet.IsEos() && r'.phase.Ready? == !a.packet.IsEos())
            && (!(EndsTransfer(a) && a.packet.IsFin()) ==>
                  && !r'.closing
                  && (r'.NothingLeft() <==> r.NothingLeft() && !(matches && a.packet.payload != []))
                  && if EndsTransfer(a) then r'.phase.Linger?
                     else r'.phase == Pass(if matches then Succ(r.phase.expected) else r.phase.expected))
  {
    if a.Good? {
      BytesQueued(r, a.packet);
    }
  }

  lemma {:induction false} BytesQueued(r: Receiver, pk: Packet)
    ensures Queue(r, pk).NothingLeft() <==> r.NothingLeft() && pk.payload == []
  {
    TextAppend(r.unread, FlatOf(pk));
    TextOfOctets(pk.payload);
    assert Text([Mark]) == [];
  }

  lemma {:induction false} LingerIsReady(r: Receiver, heard: seq<Arrival>, sent: seq<Packet>)
    requires r.phase.Linger? && !r.closing
    ensures RunRecv(r, heard, sent).end.phase.Ready? <==> LingerCompletes(!r.NothingLeft(), heard)
    decreases |heard|, 0
  {
    if heard != [] {
      var (r', reply) := Hear(r, heard[0]);
      if GivesUp(heard[0]) {
        if r.NothingLeft() && !FinishesWith(heard[0]) {
          PassIsReady(r', heard[1..], sent + reply);
        }
      } else if FinishesWith(heard[0]) {
        LingeringOnAClosedSocketNeverEnds(r', heard[1..], sent + reply);
      } else {
        LingerGoesOn(!r.NothingLeft(), heard);
        LingerIsReady(r', heard[1..], sent + reply);
      }
    }
  }

  lemma {:induction false} PassIsReady(r: Receiver, heard: seq<Arrival>, sent: seq<Packet>)
    requires r.phase.Pass? && !r.closing
    ensures RunRecv(r, heard, sent).end.phase.Ready? <==>
            PassCompletes(r.phase.expected, !r.NothingLeft(), heard)
    decreases |heard|, 1
  {
    if heard != [] {
      var (r', reply) := Hear(r, heard[0]);
      HeardInPass(r, heard[0]);
      if !EndsTransfer(heard[0]) {
        PassGoesOn(r.phase.expected, !r.NothingLeft(), heard);
        PassIsReady(r', heard[1..], sent + reply);
      } else {
        PassEndsHere(r.phase.expected, !r.NothingLeft(), heard);
        if !heard[0].packet.IsFin() {
          LingerIsReady(r', heard[1..], sent + reply);
        } else if heard[0].packet.IsEos() {
          LingeringOnAClosedSocketNeverEnds(r', heard[1..], sent + reply);
        }
      }
    }
  }

  /** For every state of the buffer and all arrivals: a call of `recv` comes to its end if and only if the channel
      is closed already, or what it hears completes as many passes as it takes to have a byte to read, or a FIN. */
  lemma {:induction false} CallReturnsExactlyIf(r: Receiver, heard: seq<Arrival>)
    ensures RunRecv(StartPass(r), heard, []).end.phase.Ready? <==>
            r.closing || PassCompletes(0, !r.NothingLeft(), heard)
  {
    if !r.closing {
      PassIsReady(StartPass(r), heard, []);
    }
  }

  // ---------------------------------------------------------------- what the condition comes to

  /** The arrivals hold a whole pass: an end of send and behind it what ends the lingering, with no FIN before; or
      a FIN in place of the end of send. */
  predicate HoldsAPass(heard: seq<Arrival>) {
    exists i | 0 <= i < |heard| ::
      && EndsTransfer(heard[i]) && (forall k | 0 <= k < i :: !EndsTransfer(heard[k]))
      && if heard[i].packet.IsFin() then !heard[i].packet.IsEos() else EndsLingering(heard[i + 1..])
  }

  predicate EndsLingering(heard: seq<Arrival>) {
    exists j | 0 <= j < |heard| :: GivesUp(heard[j]) && forall k | 0 <= k < j :: !FinishesWith(heard[k])
  }

  lemma {:induction false} FirstStopDecides(heard: seq<Arrival>)
    ensures EndsLingering(heard) <==> FirstStop(heard) < |heard| && GivesUp(heard[FirstStop(heard)])
  {
    var first := FirstStop(heard);
    if EndsLingering(heard) {
      var j :| 0 <= j < |heard| && GivesUp(heard[j]) && forall k | 0 <= k < j :: !FinishesWith(heard[k]);
      assert first <= j;
    }
  }

  /** With bytes left in the buffer, a call on an open channel hands them out if and only if what it hears holds
      one more whole pass. */
  lemma {:induction false} LeftoverIsReadExactlyIf(r: Receiver, heard: seq<Arrival>)
    requires !r.closing && !r.NothingLeft()
    ensures RunRecv(StartPass(r), heard, []).end.phase.Ready? <==> HoldsAPass(heard)
  {
    CallReturnsExactlyIf(r, heard);
    var first := FirstEnd(heard);
    if first < |heard| {
      FirstStopDecides(heard[first + 1..]);
    }
    if HoldsAPass(heard) {
      var i :| 0 <= i < |heard| && EndsTransfer(heard[i]) && (forall k | 0 <= k < i :: !EndsTransfer(heard[k]))
               && if heard[i].packet.IsFin() then !heard[i].packet.IsEos() else EndsLingering(heard[i + 1..]);
      assert first == i;
    }
  }

  /** For messages as the other peer makes them, ends without bytes and data with some, a pass brings bytes if and
      only if a first fragment comes before its end. */
  lemma {:induction false} BringsExactlyIfItOpens(heard: seq<Arrival>)
    requires forall k | 0 <= k < |heard| && heard[k].Good? ::
               EndsTransfer(heard[k]) <==> heard[k].packet.payload == []
    requires forall k | 0 <= k < |heard| - 1 :: !EndsTransfer(heard[k])
    ensures Brings(0, heard) <==> exists k | 0 <= k < |heard| && heard[k].Good? :: Opens(heard[k].packet)
  {
    if heard != [] {
      var tail := heard[1..];
      assert forall k | 0 <= k < |tail| :: tail[k] == heard[k + 1];
      BringsExactlyIfItOpens(tail);
      assert forall k | 0 < k < |heard| :: heard[k] == tail[k - 1];
    }
  }
}
