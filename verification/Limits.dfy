/** Where the protocol stops being safe: a send whose end carries the number 0. */
module Limits {
  import opened Message
  import opened Endpoint
  import opened Packets
  import opened Network
  import opened Repeats
  import opened Delivery
  import opened CleanRuns
  import opened Sequences
  import Safety

  /** What the packets of countable sends keep: they are queued in order and once. */
  predicate QueuesInOrder(sends: seq<seq<Byte>>, w: World) {
    Safety.WithoutFin(w.r.queued) <= AllPackets(sends)
  }

  // ---------------------------------------------------------------- an end numbered 0 is queued again and again

  /** The sender repeats the end of send at `p`, which has been queued `times` times; the receiver has forgotten
      that it had it. */
  predicate Forgotten(ps: seq<Packet>, w: World, p: nat, times: nat) {
    && p < |ps|
    && w.s == Sender(p, false, false)
    && w.r.phase == Pass(0) && !w.r.closing && w.r.queued == ps[..p] + Repeated(ps[p], times)
    && w.fwd == []
  }

  lemma {:induction false} QueuedOnceMore(ps: seq<Packet>, w: World, p: nat, times: nat) returns (ls: seq<Step>)
    requires Forgotten(ps, w, p, times) && ps[p].IsEos() && !ps[p].IsFin() && ps[p].seqnum == 0
    ensures Forgotten(ps, Run(ps, w, ls), p, times + 1)
  {
    var w1 := Apply(ps, w, Transmit(Intact));
    var w2 := Apply(ps, w1, AckTimeout);
    var w3 := Apply(ps, w2, HearPacket([]));
    assert w2.fwd == [Good(ps[p])] && w2.fwd[1..] == [];
    assert w3.r.phase == Linger(0) && w3.fwd == [];
    assert Repeated(ps[p], times + 1) == Repeated(ps[p], times) + [ps[p]];
    assert ps[..p] + (Repeated(ps[p], times) + [ps[p]]) == ps[..p] + Repeated(ps[p], times) + [ps[p]];
    ls := [Transmit(Intact), AckTimeout, HearPacket([])];
    assert Run(ps, w, ls) == Run(ps, w1, ls[1..]) == Run(ps, w2, ls[2..]) == Run(ps, w3, []);
    var w4 := RoundOff(ps, w3);
    RunAppend(ps, w, ls, ROUND_OFF);
    ls := ls + ROUND_OFF;
  }

  lemma {:induction false} QueuedManyTimes(ps: seq<Packet>, w: World, p: nat, times: nat, n: nat)
    returns (ls: seq<Step>)
    requires Forgotten(ps, w, p, times) && ps[p].IsEos() && !ps[p].IsFin() && ps[p].seqnum == 0
    ensures Forgotten(ps, Run(ps, w, ls), p, times + n)
    decreases n
  {
    ls := [];
    if n != 0 {
      var once := QueuedOnceMore(ps, w, p, times);
      var more := QueuedManyTimes(ps, Run(ps, w, once), p, times + 1, n - 1);
      RunAppend(ps, w, once, more);
      ls := once + more;
    }
  }

  lemma {:induction false} QueuedAnyNumberOfTimes(ps: seq<Packet>, p: nat, n: nat) returns (ls: seq<Step>)
    requires WellShaped(ps) && p < |ps| && ps[p] == ZERO_END
    ensures Run(ps, INITIAL, ls).r.queued == ps[..p] + Repeated(ZERO_END, n)
  {
    var before := AnyPositionCanBeReached(ps, p);
    var w := Run(ps, INITIAL, before);
    assert Forgotten(ps, w, p, 0) by {
      assert WellShapedAt(ps, p);
      assert ps[..p] + Repeated(ps[p], 0) == ps[..p];
    }
    var more := QueuedManyTimes(ps, w, p, 0, n);
    RunAppend(ps, INITIAL, before, more);
    ls := before + more;
  }

  lemma {:induction false} CountOfRepeated(a: seq<Packet>, pk: Packet, times: nat)
    ensures times <= multiset(a + Repeated(pk, times))[pk]
  {
    if times != 0 {
      CountOfRepeated(a, pk, times - 1);
      assert a + Repeated(pk, times) == a + Repeated(pk, times - 1) + [pk];
    }
  }

  lemma {:induction false} CountIsBounded(s: seq<Packet>, pk: Packet)
    ensures multiset(s)[pk] <= |s|
  {
  }

  lemma {:induction false} MoreThanThereAre(ps: seq<Packet>, p: nat, n: nat) returns (ls: seq<Step>)
    requires WellShaped(ps) && p < |ps| && ps[p] == ZERO_END
    ensures var queued := Run(ps, INITIAL, ls).r.queued;
            && n <= multiset(queued)[ZERO_END] && multiset(ps)[ZERO_END] < multiset(queued)[ZERO_END]
            && !(Safety.WithoutFin(queued) <= ps)
  {
    var times := n + |ps| + 1;
    ls := QueuedAnyNumberOfTimes(ps, p, times);
    CountOfRepeated(ps[..p], ZERO_END, times);
    CountIsBounded(ps, ZERO_END);
    var queued := Run(ps, INITIAL, ls).r.queued;
    assert queued[|queued| - 1] == ZERO_END;
  }

  lemma {:induction false} WhereASendEnds(sends: seq<seq<Byte>>, t: nat) returns (p: nat)
    requires t < |sends|
    ensures p < |AllPackets(sends)| && AllPackets(sends)[p] == EosPacket(sends[t])
    ensures p + 1 == OffsetOf(sends, t + 1)
  {
    SendLiesAt(sends, t);
    p := OffsetOf(sends, t) + FragmentCount(sends[t]);
    assert AllPackets(sends)[p]
        == AllPackets(sends)[OffsetOf(sends, t)..OffsetOf(sends, t + 1)][FragmentCount(sends[t])]
        == PacketsOf(sends[t])[FragmentCount(sends[t])];
  }

  /** If some send ends with number 0, that end can be queued any number of times, and so more often than it
      occurs among the packets of the sends. */
  lemma {:induction false} AnEndNumberedZeroIsUnsafe(sends: seq<seq<Byte>>, t: nat, n: nat) returns (ls: seq<Step>)
    requires t < |sends| && !Countable(sends[t])
    ensures var ps, queued := AllPackets(sends), After(sends, ls).r.queued;
            n <= multiset(queued)[ZERO_END] && multiset(ps)[ZERO_END] < multiset(queued)[ZERO_END]
    ensures !QueuesInOrder(sends, After(sends, ls))
  {
    AllPacketsAreWellShaped(sends);
    var p := WhereASendEnds(sends, t);
    ls := MoreThanThereAre(AllPackets(sends), p, n);
  }

  /** The condition is exact: a series of sends is safe on every run if and only if none of them is empty or
      takes a multiple of 65536 fragments. */
  lemma {:induction false} SafeExactlyIfCountable(sends: seq<seq<Byte>>)
    ensures (forall ls {:induction false} :: QueuesInOrder(sends, After(sends, ls))) <==> AllCountable(sends)
  {
    if AllCountable(sends) {
      forall ls
        ensures QueuesInOrder(sends, After(sends, ls))
      {
        WholeRunSafety(sends, ls);
      }
    } else {
      var t :| 0 <= t < |sends| && !Countable(sends[t]);
      var ls := AnEndNumberedZeroIsUnsafe(sends, t, 0);
    }
  }

  // ---------------------------------------------------------------- and makes the sender believe too much

  /** The end at `p` has been sent twice, queued once and acknowledged twice. */
  lemma {:induction false} AcknowledgedTwice(ps: seq<Packet>, w: World, p: nat) returns (ls: seq<Step>)
    requires WellShaped(ps) && InStep(ps, w, p) && p < |ps| && ps[p].IsEos() && ps[p].seqnum == 0
    ensures var w' := Run(ps, w, ls);
            && w'.s == Sender(p, true, false) && |w'.r.queued| == p + 1
            && w'.bwd == [Good(Ack(0)), Good(Ack(0))]
  {
    assert WellShapedAt(ps, p);
    var w1 := Exchange(ps, w, Ack(0));
    var w2 := Apply(ps, w1, AckTimeout);
    var w3 := Exchange(ps, w2, Ack(0));
    RunOne(ps, w1, AckTimeout);
    RunAppend(ps, w, EXCHANGE, [AckTimeout]);
    RunAppend(ps, w, EXCHANGE + [AckTimeout], EXCHANGE);
    ls := EXCHANGE + [AckTimeout] + EXCHANGE;
  }

  lemma {:induction false} BothAcknowledgementsCount(ps: seq<Packet>, w: World, p: nat) returns (ls: seq<Step>)
    requires p + 1 < |ps| && ps[p].seqnum == 0 && ps[p + 1].seqnum == 0
    requires w.s == Sender(p, true, false) && w.bwd == [Good(Ack(0)), Good(Ack(0))]
    ensures Run(ps, w, ls).s.pos == p + 2 && Run(ps, w, ls).r == w.r
  {
    ls := [HearAck([]), Transmit(Lost), HearAck([])];
    var w1 := Apply(ps, w, ls[0]);
    assert w1.bwd == [Good(Ack(0))];
    var w2 := Apply(ps, w1, ls[1]);
    var w3 := Apply(ps, w2, ls[2]);
    assert Run(ps, w, ls) == Run(ps, w1, ls[1..]) == Run(ps, w2, ls[2..]) == Run(ps, w3, ls[3..]);
  }

  /** The acknowledgement of an end numbered 0, repeated while the receiver lingers, is taken for that of the
      first packet of the next send, which nobody has received. */
  lemma {:induction false} AnEndNumberedZeroAcknowledgesTheNextSend(sends: seq<seq<Byte>>, t: nat)
    returns (ls: seq<Step>)
    requires t + 1 < |sends| && !Countable(sends[t])
    ensures |After(sends, ls).r.queued| < After(sends, ls).s.pos
  {
    var ps := AllPackets(sends);
    AllPacketsAreWellShaped(sends);
    var p := WhereASendEnds(sends, t);
    assert p + 1 < |ps| by {
      SendLiesAt(sends, t + 1);
    }
    assert WellShapedAt(ps, p) && WellShapedAt(ps, p + 1);
    ls := AnyPositionCanBeReached(ps, p);
    var twice := AcknowledgedTwice(ps, Run(ps, INITIAL, ls), p);
    RunAppend(ps, INITIAL, ls, twice);
    ls := ls + twice;
    var both := BothAcknowledgementsCount(ps, Run(ps, INITIAL, ls), p);
    RunAppend(ps, INITIAL, ls, both);
    ls := ls + both;
  }

  /** This condition is exact as well: acknowledged packets have been queued on every run if and only if every
      send but the last is countable. */
  lemma {:induction false} AcknowledgedExactlyIfEarlierCountable(sends: seq<seq<Byte>>)
    ensures (forall ls {:induction false} :: AcknowledgedIsQueued(sends, After(sends, ls))) <==> EarlierCountable(sends)
  {
    if EarlierCountable(sends) {
      forall ls
        ensures AcknowledgedIsQueued(sends, After(sends, ls))
      {
        AcknowledgementsAreSound(sends, ls);
      }
    } else {
      var t :| 0 <= t < |sends| - 1 && !Countable(sends[t]);
      var ls := AnEndNumberedZeroAcknowledgesTheNextSend(sends, t);
    }
  }
}
