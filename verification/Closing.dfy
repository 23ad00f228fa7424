/** What a FIN does to the receiver. */
module Closing {
  import opened Message
  import opened Stream
  import opened Endpoint
  import opened Packets
  import opened Network
  import opened CleanRuns
  import opened Delivery
  import Turns

  /** An accepted FIN closes and changes no unread byte. In a pass it is queued only if its fixed number 666
      happens to be the expected one, and the pass ends. While the receiver lingers, it goes on lingering. */
  lemma {:induction false} FinKeepsTheUnreadBytes(r: Receiver)
    requires r.Listening() && !r.closing
    ensures var r' := Hear(r, Good(FIN_PACKET)).0;
            && r'.closing && r'.unread == r.unread && r'.stranded == r.stranded
            && r'.queued == (if r.phase == Pass(666) then r.queued + [FIN_PACKET] else r.queued)
            && r'.phase == (if r.phase.Pass? then Ready else r.phase)
    ensures Hear(r, Good(FIN_PACKET)).1 == FinBurst()
  {
    assert r.unread + [] == r.unread;
  }

  /** So after a FIN `recv` returns exactly if the FIN was heard in a pass and not while lingering. */
  lemma {:induction false} RecvReturnsAfterFinExactlyFromAPass(r: Receiver, heard: seq<Arrival>)
    requires r.Listening() && !r.closing
    ensures RunRecv(r, [Good(FIN_PACKET)] + heard, []).end.phase.Ready? <==> r.phase.Pass?
  {
    var (r', burst) := Hear(r, Good(FIN_PACKET));
    FinKeepsTheUnreadBytes(r);
    assert ([Good(FIN_PACKET)] + heard)[1..] == heard;
    if r.phase.Linger? {
      Turns.LingeringOnAClosedSocketNeverEnds(r', heard, [] + burst);
    }
  }

  // ---------------------------------------------------------------- a closed channel stays closed

  /** From `w` to `w'` nothing was queued, and results and unread bytes still add up. */
  predicate ClosedOn(w: World, w': World) {
    && w'.r.closing && !w'.r.phase.Pass? && w'.r.queued == w.r.queued
    && w.outs <= w'.outs
    && Concat(w'.outs) + Text(w'.r.unread) == Concat(w.outs) + Text(w.r.unread)
    && (w.r.phase.Linger? ==> w'.r == w.r && w'.outs == w.outs)
  }

  lemma {:induction false} AddsUp(outs: seq<seq<Byte>>, out: seq<Byte>, rest: seq<Byte>)
    ensures Concat(outs + [out]) + rest == Concat(outs) + (out + rest)
  {
    ConcatOneMore(outs, out);
    assert Concat(outs) + out + rest == Concat(outs) + (out + rest);
  }

  lemma {:induction false} ClosedReturn(w: World, n: nat)
    requires w.r.closing && w.r.phase.Ready?
    ensures var (r, out) := Deliver(w.r, n); ClosedOn(w, w.(r := r, outs := w.outs + [out]))
  {
    DeliverConserves(w.r, n);
    var (r, out) := Deliver(w.r, n);
    AddsUp(w.outs, out, Text(r.unread));
  }

  lemma {:induction false} ClosedStep(ps: seq<Packet>, w: World, l: Step)
    requires w.r.closing && !w.r.phase.Pass?
    ensures ClosedOn(w, Apply(ps, w, l))
  {
    if l.Return? && Enabled(ps, w, l) {
      ClosedReturn(w, l.n);
    }
  }

  lemma {:induction false} ClosedStaysClosed(ps: seq<Packet>, w: World, ls: seq<Step>)
    requires w.r.closing && !w.r.phase.Pass?
    ensures ClosedOn(w, Run(ps, w, ls))
    decreases |ls|
  {
    if ls != [] {
      ClosedStep(ps, w, ls[0]);
      ClosedStaysClosed(ps, Apply(ps, w, ls[0]), ls[1..]);
    }
  }

  lemma {:induction false} DeliverConserves(r: Receiver, n: nat)
    ensures var (r', out) := Deliver(r, n);
            Text(r.unread) == out + Text(r'.unread) && (0 < n && out == [] ==> Text(r.unread) == [])
  {
    ReadConserves(r.unread, n);
  }

  /** The results of calls of `recv` for the sizes `ns` on a closed channel. */
  function ClosedCalls(r: Receiver, ns: seq<nat>): seq<seq<Byte>>
    requires r.closing
    decreases |ns|
  {
    if ns == [] then []
    else var (r', out) := Deliver(StartPass(r), ns[0]); [out] + ClosedCalls(r', ns[1..])
  }

  /** They are the leftover bytes in order, an empty result comes only when there are none left, and enough
      calls get them all. */
  lemma {:induction false} LeftoverComesOutInOrder(r: Receiver, ns: seq<nat>)
    requires r.closing && forall i | 0 <= i < |ns| :: 0 < ns[i]
    ensures var outs := ClosedCalls(r, ns);
            && |outs| == |ns|
            && Concat(outs) <= Text(r.unread)
            && (forall i | 0 <= i < |outs| && outs[i] == [] :: Concat(outs[..i]) == Text(r.unread))
            && (|Text(r.unread)| <= |ns| ==> Concat(outs) == Text(r.unread))
    decreases |ns|
  {
    if ns != [] {
      var (r', out) := Deliver(StartPass(r), ns[0]);
      DeliverConserves(StartPass(r), ns[0]);
      LeftoverComesOutInOrder(r', ns[1..]);
      var outs, rest := ClosedCalls(r, ns), ClosedCalls(r', ns[1..]);
      forall i | 0 <= i < |outs| && outs[i] == []
        ensures Concat(outs[..i]) == Text(r.unread)
      {
        if i != 0 {
          assert outs[..i] == [out] + rest[..i - 1];
          assert Concat(outs[..i]) == out + Concat(rest[..i - 1]);
        }
      }
    }
  }

  // ---------------------------------------------------------------- an ordinary close hangs the receiver

  /** For every send there is a run without a single fault, in which the sender gets every packet acknowledged
      and then closes, and after which the receiver's `recv` never returns and hands out no byte. */
  lemma {:induction false} ClosingRightAfterASendHangsRecv(data: seq<Byte>) returns (ls: seq<Step>)
    ensures FaultFree(AllPackets([data]), INITIAL, ls)
    ensures var w := After([data], ls);
            && w.s.pos == |AllPackets([data])| && w.r.queued == AllPackets([data])
            && forall more {:induction false} ::
                 After([data], ls + more).outs == [] && After([data], ls + more).r == w.r
  {
    var ps := AllPackets([data]);
    AllPacketsAreWellShaped([data]);
    assert [data][1..] == [] && ps == PacketsOf(data) + AllPackets([data][1..]) == PacketsOf(data);
    OneSendIsWellShaped(data);
    var p := FragmentCount(data);
    var before := AnyPositionCanBeReached(ps, p);
    var w := Run(ps, INITIAL, before);
    var close := HangingClose(ps, w, p);
    RunAppend(ps, INITIAL, before, close);
    FaultFreeAppend(ps, INITIAL, before, close);
    ls := before + close;
    var w' := Run(ps, w, close);
    forall more
      ensures After([data], ls + more).outs == [] && After([data], ls + more).r == w'.r
    {
      RunAppend(ps, INITIAL, ls, more);
      ClosedStaysClosed(ps, w', more);
    }
  }

  lemma {:induction false} HangingClose(ps: seq<Packet>, w: World, p: nat) returns (ls: seq<Step>)
    requires WellShaped(ps) && InStep(ps, w, p) && p + 1 == |ps|
    ensures FaultFree(ps, w, ls)
    ensures var w' := Run(ps, w, ls);
            w'.s.pos == |ps| && w'.r.queued == ps && w'.r.phase.Linger? && w'.r.closing && w'.outs == w.outs
  {
    assert ps[..p + 1] == ps;
    var w1 := PacketAndAck(ps, w, p);
    var close := ClosesWhileLingering(ps, w1);
    RunAppend(ps, w, PACKET_AND_ACK, close);
    FaultFreeAppend(ps, w, PACKET_AND_ACK, close);
    ls := PACKET_AND_ACK + close;
  }

  lemma {:induction false} ClosesWhileLingering(ps: seq<Packet>, w: World) returns (ls: seq<Step>)
    requires !w.s.closing && !w.s.waiting && w.fwd == [] && w.r.phase.Linger? && !w.r.closing
    ensures FaultFree(ps, w, ls)
    ensures var w' := Run(ps, w, ls);
            w'.s.pos == w.s.pos && w'.outs == w.outs && w'.r == w.r.(closing := true)
  {
    BurstArrives(ps, w);
    ls := [CloseSender(AllIntact())];
    RunOne(ps, w, ls[0]);
    FinIsHeardLingering(ps, Apply(ps, w, ls[0]));
    RunMore(ps, w, ls, HearPacket(AllIntact()));
    ls := ls + [HearPacket(AllIntact())];
  }

  lemma {:induction false} FinIsHeardLingering(ps: seq<Packet>, w: World)
    requires w.fwd != [] && w.fwd[0] == Good(FIN_PACKET) && w.r.phase.Linger? && !w.r.closing
    ensures var w' := Apply(ps, w, HearPacket(AllIntact()));
            w'.s == w.s && w'.outs == w.outs && w'.r == w.r.(closing := true)
  {
    FinKeepsTheUnreadBytes(w.r);
  }

  /** All of the FINs arrive. */
  lemma {:induction false} BurstArrives(ps: seq<Packet>, w: World)
    requires !w.s.closing && !w.s.waiting && w.fwd == []
    ensures var w' := Apply(ps, w, CloseSender(AllIntact()));
            w' == w.(s := w.s.(closing := true), fwd := w'.fwd) && |w'.fwd| == 2048 && w'.fwd[0] == Good(FIN_PACKET)
  {
    TransitIntact(FinBurst(), AllIntact());
  }
}
