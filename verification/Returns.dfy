/** What `send` returns, against how much of the data has been acknowledged. */
module Returns {
  import opened Message
  import opened Endpoint
  import opened Packets
  import Sequences

  /** How many bytes of `data` the first `pos` packets carry. */
  function BytesIn(data: seq<Byte>, pos: nat): nat {
    if |data| < pos * MAX_DATA_LENGTH then |data| else pos * MAX_DATA_LENGTH
  }

  lemma {:induction false} AllBytesTakeAllFragments(data: seq<Byte>, pos: nat)
    ensures BytesIn(data, pos) == |data| <==> FragmentCount(data) <= pos
  {
  }

  /** How much comes before the first FIN. */
  function FirstFin(heard: seq<Arrival>): (n: nat)
    ensures n <= |heard|
    ensures n < |heard| ==> FinishesWith(heard[n])
    ensures forall i | 0 <= i < n :: !FinishesWith(heard[i])
  {
    if heard == [] || FinishesWith(heard[0]) then 0 else 1 + FirstFin(heard[1..])
  }

  lemma {:induction false} FinStopsAcksend(pk: Packet, heard: seq<Arrival>, sent: seq<Packet>)
    ensures var all, before := RunAcksend(pk, heard, sent), RunAcksend(pk, heard[..FirstFin(heard)], sent);
            && all.acked == before.acked && !before.closing
            && (all.closing <==> FirstFin(heard) < |heard| && !before.acked)
            && (all.acked ==> all.sent == before.sent && before.rest == all.rest[..FirstFin(all.rest)]
                              && (FirstFin(all.rest) < |all.rest| <==> FirstFin(heard) < |heard|))
  {
    if heard != [] && !FinishesWith(heard[0]) {
      var n := FirstFin(heard);
      assert heard[..n][0] == heard[0] && heard[..n][1..] == heard[1..][..n - 1];
      if !Acknowledges(heard[0], pk) {
        FinStopsAcksend(pk, heard[1..], sent + [pk]);
      }
    }
  }

  /** The sending gets as far as it would if the first FIN, and all behind it, were not there; and the FIN closes
      it if something is left to be acknowledged. */
  lemma {:induction false} FinStopsSend(ps: seq<Packet>, pos: nat, heard: seq<Arrival>, sent: seq<Packet>)
    requires pos <= |ps|
    ensures var all, before := RunSend(ps, pos, heard, sent), RunSend(ps, pos, heard[..FirstFin(heard)], sent);
            all.pos == before.pos && (all.closing <==> FirstFin(heard) < |heard| && before.pos < |ps|)
    decreases |ps| - pos
  {
    if pos < |ps| {
      FinStopsAcksend(ps[pos], heard, sent);
      var a := RunAcksend(ps[pos], heard, sent);
      if a.acked {
        FinStopsSend(ps, pos + 1, a.rest, a.sent);
      }
    }
  }

  // ---------------------------------------------------------------- which arrivals acknowledge how much

  /** Among the arrivals are acknowledgements of the packets `pos` to `n`, in that order; what lies between does
      not matter. */
  predicate AckedInOrder(ps: seq<Packet>, pos: nat, n: nat, heard: seq<Arrival>)
    requires n <= |ps|
    decreases n - pos
  {
    pos < n ==> exists i | 0 <= i < |heard| ::
                  Acknowledges(heard[i], ps[pos]) && AckedInOrder(ps, pos + 1, n, heard[i + 1..])
  }

  lemma {:induction false} MoreArrivalsAckAsWell(ps: seq<Packet>, pos: nat, n: nat, heard: seq<Arrival>, from: nat)
    requires n <= |ps| && from <= |heard| && AckedInOrder(ps, pos, n, heard[from..])
    ensures AckedInOrder(ps, pos, n, heard)
  {
    if pos < n {
      var tail := heard[from..];
      var i :| 0 <= i < |tail| && Acknowledges(tail[i], ps[pos]) && AckedInOrder(ps, pos + 1, n, tail[i + 1..]);
      assert heard[from + i] == tail[i] && heard[from + i + 1..] == tail[i + 1..];
    }
  }

  predicate NoFin(heard: seq<Arrival>) {
    forall i | 0 <= i < |heard| :: !FinishesWith(heard[i])
  }

  /** Without a FIN, `acksend` ends with the first acknowledgement that matches. */
  lemma {:induction false} FirstMatchEndsAcksend(pk: Packet, heard: seq<Arrival>, sent: seq<Packet>) returns (i: nat)
    requires NoFin(heard)
    ensures i <= |heard| && forall k | 0 <= k < i :: !Acknowledges(heard[k], pk)
    ensures var r := RunAcksend(pk, heard, sent);
            && (r.acked <==> i < |heard|)
            && (r.acked ==> Acknowledges(heard[i], pk) && r.rest == heard[i + 1..])
  {
    i := 0;
    if heard != [] && !Acknowledges(heard[0], pk) {
      i := FirstMatchEndsAcksend(pk, heard[1..], sent + [pk]);
      assert forall k | 0 < k <= i < |heard| :: heard[k] == heard[1..][k - 1];
      i := i + 1;
    }
  }

  /** Taking the first match for a packet loses nothing. */
  lemma {:induction false} FirstMatchSuffices(ps: seq<Packet>, pos: nat, n: nat, heard: seq<Arrival>, first: nat)
    requires pos < n <= |ps| && first < |heard| && Acknowledges(heard[first], ps[pos])
    requires forall k | 0 <= k < first :: !Acknowledges(heard[k], ps[pos])
    ensures AckedInOrder(ps, pos, n, heard) <==> AckedInOrder(ps, pos + 1, n, heard[first + 1..])
  {
    if AckedInOrder(ps, pos, n, heard) {
      var i :| 0 <= i < |heard| && Acknowledges(heard[i], ps[pos]) && AckedInOrder(ps, pos + 1, n, heard[i + 1..]);
      LaterMatchIsNoBetter(ps, pos + 1, n, heard, first, i);
    }
  }

  lemma {:induction false} LaterMatchIsNoBetter(ps: seq<Packet>, pos: nat, n: nat, heard: seq<Arrival>,
                                                first: nat, i: nat)
    requires n <= |ps| && first <= i < |heard| && AckedInOrder(ps, pos, n, heard[i + 1..])
    ensures AckedInOrder(ps, pos, n, heard[first + 1..])
  {
    Sequences.SliceOfSlice(heard, first + 1, i - first, |heard| - first - 1);
    assert heard[first + 1..][i - first..] == heard[i + 1..];
    MoreArrivalsAckAsWell(ps, pos, n, heard[first + 1..], i - first);
  }

  lemma {:induction false} SendGetsAsFarAsAcked(ps: seq<Packet>, pos: nat, n: nat, heard: seq<Arrival>,
                                                sent: seq<Packet>)
    requires pos <= n <= |ps| && NoFin(heard)
    ensures n <= RunSend(ps, pos, heard, sent).pos <==> AckedInOrder(ps, pos, n, heard)
    decreases n - pos
  {
    if pos < n {
      var a := RunAcksend(ps[pos], heard, sent);
      var first := FirstMatchEndsAcksend(ps[pos], heard, sent);
      if a.acked {
        FirstMatchSuffices(ps, pos, n, heard, first);
        SendGetsAsFarAsAcked(ps, pos + 1, n, a.rest, a.sent);
      }
    }
  }

  /** `send` returns the length of the data in any case. That is the number of bytes acknowledged if and only if
      the arrivals before the first FIN hold acknowledgements of all fragments in order; and a FIN cuts the send
      short if and only if the end, too, is not acknowledged before it. */
  lemma {:induction false} LengthIsRightExactlyIf(data: seq<Byte>, heard: seq<Arrival>)
    ensures var ps, run := PacketsOf(data), RunSend(PacketsOf(data), 0, heard, []);
            var n, before := FragmentCount(data), heard[..FirstFin(heard)];
            && (BytesIn(data, run.pos) == |data| <==> AckedInOrder(ps, 0, n, before))
            && (run.closing <==> before != heard && !AckedInOrder(ps, 0, n + 1, before))
  {
    var ps, n, before := PacketsOf(data), FragmentCount(data), heard[..FirstFin(heard)];
    FinStopsSend(ps, 0, heard, []);
    AllBytesTakeAllFragments(data, RunSend(ps, 0, heard, []).pos);
    SendGetsAsFarAsAcked(ps, 0, n, before, []);
    SendGetsAsFarAsAcked(ps, 0, n + 1, before, []);
  }

  /** The sending may be cut short behind any packet. */
  lemma {:induction false} CutShort(ps: seq<Packet>, pos: nat, at: nat, sent: seq<Packet>) returns (heard: seq<Arrival>)
    requires pos <= at < |ps|
    ensures var run := RunSend(ps, pos, heard, sent); run.pos == at && run.closing && run.rest == []
    ensures at == pos ==> heard == [Good(FIN_PACKET)]
    decreases at - pos
  {
    if pos == at {
      heard := [Good(FIN_PACKET)];
    } else {
      var more := CutShort(ps, pos + 1, at, sent + [ps[pos]]);
      heard := [Good(Ack(ps[pos].seqnum))] + more;
      assert heard[1..] == more;
    }
  }

  /** For all data there are arrivals after which `send` returns a wrong number of bytes: a FIN comes first. */
  lemma {:induction false} LengthIsWrongAfterAFin(data: seq<Byte>) returns (heard: seq<Arrival>)
    requires data != []
    ensures heard == [Good(FIN_PACKET)]
    ensures var run := RunSend(PacketsOf(data), 0, heard, []);
            run.closing && run.rest == [] && BytesIn(data, run.pos) == 0 < |data|
  {
    heard := CutShort(PacketsOf(data), 0, 0, []);
  }
}
