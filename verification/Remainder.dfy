/** Bytes that an earlier call of `recv` has left in the buffer may be withheld by the next. */
module Remainder {
  import opened Message
  import opened Stream
  import opened Endpoint
  import opened Packets
  import opened Network
  import opened CleanRuns
  import opened Delivery
  import EndToEnd
  import Marks

  /** Until the first call returns, all that is queued is unread. */
  predicate UnreadIsQueued(w: World) {
    w.outs == [] ==> w.r.unread == Flatten(w.r.queued)
  }

  lemma {:induction false} StepKeepsUnread(ps: seq<Packet>, w: World, l: Step)
    requires UnreadIsQueued(w)
    ensures UnreadIsQueued(Apply(ps, w, l))
  {
    var r' := Apply(ps, w, l).r;
    if Enabled(ps, w, l) && (l.HearPacket? || l.Idles?) {
      EndToEnd.HearQueues(w.r, if l.HearPacket? then w.fwd[0] else l.a);
      if r'.queued != w.r.queued {
        Marks.FlattenOneMore(w.r.queued, r'.queued[|r'.queued| - 1]);
      }
    }
  }

  lemma {:induction false} RunKeepsUnread(ps: seq<Packet>, w: World, ls: seq<Step>)
    requires UnreadIsQueued(w)
    ensures UnreadIsQueued(Run(ps, w, ls))
    decreases |ls|
  {
    if ls != [] {
      StepKeepsUnread(ps, w, ls[0]);
      RunKeepsUnread(ps, Apply(ps, w, ls[0]), ls[1..]);
    }
  }

  lemma {:induction false} ShortRead(data: seq<Byte>, n: nat)
    requires n < |data|
    ensures FlatRead(Octets(data) + [Mark], n) == (data[..n], Octets(data[n..]) + [Mark])
  {
    var s := Octets(data) + [Mark];
    assert s[..n] == Octets(data[..n]) && s[n..] == Octets(data[n..]) + [Mark];
    ReadIsUnique(s, n, data[..n], s[n..], 0);
  }

  /** The receiver gives up lingering, reads `n` bytes and is called again. */
  function ReadSome(n: nat): seq<Step> {
    [Idles(Silence, AllIntact()), Return(n), Call]
  }

  lemma {:induction false} ReadsSome(ps: seq<Packet>, w: World, data: seq<Byte>, n: nat) returns (w': World)
    requires n < |data| && w.r.unread == Octets(data) + [Mark]
    requires w.r.phase.Linger? && !w.r.closing && w.fwd == [] && w.bwd == [] && !w.s.waiting
    ensures w' == Run(ps, w, ReadSome(n)) && FaultFree(ps, w, ReadSome(n))
    ensures w'.r.phase == Pass(0) && !w'.r.closing && w'.r.unread == Octets(data[n..]) + [Mark]
    ensures w'.r.queued == w.r.queued && w'.s == w.s && w'.fwd == [] && w'.outs == w.outs + [data[..n]]
  {
    var ls := ReadSome(n);
    TextAppend(Octets(data), [Mark]);
    TextOfOctets(data);
    ShortRead(data, n);
    var w1 := Apply(ps, w, ls[0]);
    var w2 := Apply(ps, w1, ls[1]);
    w' := Apply(ps, w2, ls[2]);
    assert w1.r.phase == Ready && w1.fwd == [];
    assert Run(ps, w, ls) == Run(ps, w1, ls[1..]) == Run(ps, w2, ls[2..]) == Run(ps, w', ls[3..]);
    assert FaultFree(ps, w1, ls[1..]) == FaultFree(ps, w2, ls[2..]) == FaultFree(ps, w', ls[3..]);
  }

  /** The sender has nothing to send and the receiver listens. */
  predicate Waiting(ps: seq<Packet>, w: World) {
    w.s.pos == |ps| && w.fwd == [] && w.r.phase.Pass? && !w.r.closing
  }

  lemma {:induction false} WaitsOn(ps: seq<Packet>, w: World, ls: seq<Step>)
    requires Waiting(ps, w) && NoClose(ls)
    ensures Waiting(ps, Run(ps, w, ls)) && Run(ps, w, ls).r == w.r && Run(ps, w, ls).outs == w.outs
    decreases |ls|
  {
    if ls != [] {
      WaitsOn(ps, Apply(ps, w, ls[0]), ls[1..]);
    }
  }

  lemma {:induction false} OneSendAlone(data: seq<Byte>)
    ensures AllPackets([data]) == PacketsOf(data) && Flatten(AllPackets([data])) == Octets(data) + [Mark]
  {
    assert [data][1..] == [] && AllPackets([data]) == PacketsOf(data) + AllPackets([data][1..]) == PacketsOf(data);
    PacketsFlatten(data);
  }

  /** For every send and every smaller number of bytes there is a run without a fault in which all packets arrive
      and are acknowledged and a call of `recv` returns that many bytes of them; and the next call does not return
      the rest, which is in the buffer, as long as the sender neither sends again nor closes. */
  lemma {:induction false} TheRestIsWithheld(data: seq<Byte>, n: nat) returns (ls: seq<Step>)
    requires n < |data|
    ensures FaultFree(AllPackets([data]), INITIAL, ls)
    ensures var w := After([data], ls);
            && w.s == Sender(|AllPackets([data])|, false, false) && w.r.queued == AllPackets([data])
            && w.outs == [data[..n]] && Text(w.r.unread) == data[n..]
    ensures forall more {:induction false} | NoClose(more) ::
              && After([data], ls + more).r.phase.Pass?
              && After([data], ls + more).outs == [data[..n]]
              && Text(After([data], ls + more).r.unread) == data[n..]
  {
    var ps := AllPackets([data]);
    OneSendAlone(data);
    OneSendIsWellShaped(data);
    var p := FragmentCount(data);
    var before := AnyPositionCanBeReached(ps, p);
    var w := PacketAndAck(ps, Run(ps, INITIAL, before), p);
    RunAppend(ps, INITIAL, before, PACKET_AND_ACK);
    FaultFreeAppend(ps, INITIAL, before, PACKET_AND_ACK);
    ls := before + PACKET_AND_ACK;
    RunKeepsUnread(ps, INITIAL, ls);
    assert ps[..p + 1] == ps;
    var w' := ReadsSome(ps, w, data, n);
    RunAppend(ps, INITIAL, ls, ReadSome(n));
    FaultFreeAppend(ps, INITIAL, ls, ReadSome(n));
    ls := ls + ReadSome(n);
    TextAppend(Octets(data[n..]), [Mark]);
    TextOfOctets(data[n..]);
    forall more | NoClose(more)
      ensures After([data], ls + more).r == w'.r && After([data], ls + more).outs == w'.outs
    {
      RunAppend(ps, INITIAL, ls, more);
      WaitsOn(ps, w', more);
    }
  }
}
