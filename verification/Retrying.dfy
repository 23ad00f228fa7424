/** What an early timeout in `finalizeRecv` costs: not data, but the return of `send`. */
module Retrying {
  import opened Message
  import opened Endpoint
  import opened Packets
  import opened Network
  import opened CleanRuns
  import opened Delivery
  import Limits
  import Safety
  import Stream

  /** The end of a send has been queued and not acknowledged, and the receiver, which has given up lingering, is
      at the start of the next pass. Copies of the end, and old acknowledgements, may still be under way. */
  predicate EarlyTimeout(ps: seq<Packet>, w: World, p: nat) {
    && PlainEnd(ps, p)
    && w.s.pos == p && !w.s.closing
    && w.r.phase == Pass(0) && !w.r.closing
    && (forall i | 0 <= i < |w.fwd| && w.fwd[i].Good? :: w.fwd[i].packet == ps[p])
    && (forall i | 0 <= i < |w.bwd| :: !FinishesWith(w.bwd[i]))
  }

  predicate PlainEnd(ps: seq<Packet>, p: nat) {
    p < |ps| && ps[p].IsEos() && !ps[p].IsFin() && ps[p].payload == [] && ps[p].seqnum != 0
  }

  /** Whether an acknowledgement of the packet `pk` is under way. */
  predicate AckUnderWay(w: World, pk: Packet) {
    exists i | 0 <= i < |w.bwd| :: Acknowledges(w.bwd[i], pk)
  }

  // ---------------------------------------------------------------- these are the states that come up

  /** Nobody sends a FIN before closing. */
  predicate FinsOnlyFromClosed(w: World) {
    && (!w.s.closing ==> forall i | 0 <= i < |w.fwd| :: !FinishesWith(w.fwd[i]))
    && (!w.r.closing ==> forall i | 0 <= i < |w.bwd| :: !FinishesWith(w.bwd[i]))
  }

  lemma {:induction false} AnswersAreFinsOnlyIfClosed(r: Receiver, a: Arrival)
    requires r.Listening()
    ensures r.closing ==> Hear(r, a).0.closing
    ensures !Hear(r, a).0.closing ==> forall pk | pk in Hear(r, a).1 :: !pk.IsFin()
  {
  }

  lemma {:induction false} StepKeepsFins(ps: seq<Packet>, w: World, l: Step)
    requires WellShaped(ps) && FinsOnlyFromClosed(w)
    ensures FinsOnlyFromClosed(Apply(ps, w, l))
  {
    if Enabled(ps, w, l) {
      match l
      case Transmit(f) => assert WellShapedAt(ps, w.s.pos);
      case HearAck(fates) => TransitOnly(SenderHears(w.s, ps[w.s.pos], w.bwd[0]).1, fates);
      case Idles(a, fates) =>
        AnswersAreFinsOnlyIfClosed(w.r, a);
        TransitOnly(Hear(w.r, a).1, fates);
      case HearPacket(fates) =>
        AnswersAreFinsOnlyIfClosed(w.r, w.fwd[0]);
        TransitOnly(Hear(w.r, w.fwd[0]).1, fates);
      case _ =>
    }
  }

  lemma {:induction false} RunKeepsFins(ps: seq<Packet>, w: World, ls: seq<Step>)
    requires WellShaped(ps) && FinsOnlyFromClosed(w)
    ensures FinsOnlyFromClosed(Run(ps, w, ls))
    decreases |ls|
  {
    if ls != [] {
      StepKeepsFins(ps, w, ls[0]);
      RunKeepsFins(ps, Apply(ps, w, ls[0]), ls[1..]);
    }
  }

  /** For countable sends, every reachable state with the end at the sender's position queued and the receiver in
      a pass again, while nobody closes, is of this kind. */
  lemma {:induction false} QueuedEndMeansEarlyTimeout(sends: seq<seq<Byte>>, ls: seq<Step>)
    requires AllCountable(sends)
    requires var w := After(sends, ls);
             && !w.s.closing && !w.r.closing && w.r.phase.Pass?
             && w.s.pos < |w.r.queued| <= |AllPackets(sends)| && AllPackets(sends)[w.s.pos].IsEos()
    ensures EarlyTimeout(AllPackets(sends), After(sends, ls), After(sends, ls).s.pos)
  {
    var ps, w := AllPackets(sends), After(sends, ls);
    var q := CountableInvAfter(sends, ls);
    AllPacketsAreWellShaped(sends);
    CountableHaveNoZeroEnds(sends);
    RunKeepsFins(ps, INITIAL, ls);
    assert WellShapedAt(ps, w.s.pos) && q == w.s.pos + 1;
    forall i | 0 <= i < |w.fwd| && w.fwd[i].Good?
      ensures w.fwd[i].packet == ps[w.s.pos]
    {
      assert Safety.MayTravel(ps, w.s.pos, q, w.fwd[i].packet);
    }
  }

  // ---------------------------------------------------------------- the end is never acknowledged

  /** All that can be heard any more: the sender's end again and again, and in answer nothing that matches. */
  predicate Stuck(ps: seq<Packet>, w: World, p: nat) {
    && w.s.pos == p < |ps|
    && (forall i | 0 <= i < |w.fwd| && w.fwd[i].Good? :: w.fwd[i].packet == ps[p] || w.fwd[i].packet == FIN_PACKET)
    && !AckUnderWay(w, ps[p])
    && (w.r.phase.Pass? ==> w.r.phase.expected == 0)
    && (w.r.phase.Linger? ==> w.r.phase.ack == 0xFFFF)
  }

  lemma {:induction false} HearingTheEndAgain(r: Receiver, pk: Packet, a: Arrival)
    requires pk.IsEos() && !pk.IsFin() && pk.payload == [] && pk.seqnum != 0
    requires r.Listening() && (r.phase.Pass? ==> r.phase.expected == 0) && (r.phase.Linger? ==> r.phase.ack == 0xFFFF)
    requires a.Good? ==> a.packet == pk || a.packet == FIN_PACKET
    ensures var (r', reply) := Hear(r, a);
            && (r'.phase.Pass? ==> r'.phase.expected == 0) && (r'.phase.Linger? ==> r'.phase.ack == 0xFFFF)
            && (forall x | x in reply :: x == Ack(0xFFFF) || x == FIN_PACKET)
            && (a != Good(FIN_PACKET) && !r.closing && r.NothingLeft() ==>
                  r'.Listening() && !r'.closing && r'.NothingLeft() && FIN_PACKET !in reply)
  {
  }

  lemma {:induction false} StuckStep(ps: seq<Packet>, w: World, p: nat, l: Step)
    requires Stuck(ps, w, p) && PlainEnd(ps, p) && ps[p].seqnum != 0xFFFF
    ensures Stuck(ps, Apply(ps, w, l), p)
  {
    if Enabled(ps, w, l) {
      match l
      case Transmit(_) =>
      case AckTimeout =>
      case HearAck(fates) => TransitOnly(SenderHears(w.s, ps[p], w.bwd[0]).1, fates);
      case CloseSender(fates) => TransitOnly(FinBurst(), fates);
      case Call =>
      case Idles(a, fates) =>
        HearingTheEndAgain(w.r, ps[p], a);
        TransitOnly(Hear(w.r, a).1, fates);
      case HearPacket(fates) =>
        HearingTheEndAgain(w.r, ps[p], w.fwd[0]);
        TransitOnly(Hear(w.r, w.fwd[0]).1, fates);
      case Return(_) =>
      case CloseReceiver(fates) => TransitOnly(FinBurst(), fates);
    }
  }

  lemma {:induction false} StuckForever(ps: seq<Packet>, w: World, p: nat, ls: seq<Step>)
    requires Stuck(ps, w, p) && PlainEnd(ps, p) && ps[p].seqnum != 0xFFFF
    ensures Run(ps, w, ls).s.pos == p
    decreases |ls|
  {
    if ls != [] {
      StuckStep(ps, w, p, ls[0]);
      StuckForever(ps, Apply(ps, w, ls[0]), p, ls[1..]);
    }
  }

  // ---------------------------------------------------------------- what is under way arrives or is used up

  /** The sender hears what is under way, one after the other, until something matches. */
  lemma {:induction false} AckComesThrough(ps: seq<Packet>, w: World, p: nat, i: nat) returns (ls: seq<Step>)
    requires w.s.pos == p < |ps| && !w.s.closing && i < |w.bwd| && Acknowledges(w.bwd[i], ps[p])
    requires forall k | 0 <= k < i :: !FinishesWith(w.bwd[k])
    ensures NoClose(ls) && Run(ps, w, ls).s.pos == p + 1
    decreases i
  {
    var w1;
    ls, w1 := HearsNext(ps, w, p);
    if !Acknowledges(w.bwd[0], ps[p]) {
      var more := AckComesThrough(ps, w1, p, i - 1);
      RunAppend(ps, w, ls, more);
      ls := ls + more;
    }
  }

  lemma {:induction false} HearsNext(ps: seq<Packet>, w: World, p: nat) returns (ls: seq<Step>, w': World)
    requires w.s.pos == p < |ps| && !w.s.closing && w.bwd != [] && !FinishesWith(w.bwd[0])
    ensures NoClose(ls) && w' == Run(ps, w, ls)
    ensures w' == w.(s := Sender(if Acknowledges(w.bwd[0], ps[p]) then p + 1 else p, false, false), bwd := w.bwd[1..])
  {
    var w0 := if w.s.waiting then w else Apply(ps, w, Transmit(Lost));
    assert w.fwd + [] == w.fwd;
    w' := Apply(ps, w0, HearAck([]));
    ls := if w.s.waiting then [HearAck([])] else [Transmit(Lost), HearAck([])];
    RunOne(ps, w0, HearAck([]));
    if !w.s.waiting {
      assert Run(ps, w, ls) == Run(ps, w0, ls[1..]);
    }
  }

  /** If nothing matches, the sender is back where it was. */
  lemma {:induction false} AcksAreUsedUp(ps: seq<Packet>, w: World, p: nat) returns (ls: seq<Step>)
    requires w.s.pos == p < |ps| && !w.s.closing && !AckUnderWay(w, ps[p])
    requires forall i | 0 <= i < |w.bwd| :: !FinishesWith(w.bwd[i])
    ensures NoClose(ls) && Run(ps, w, ls) == w.(s := Sender(p, false, false), bwd := [])
    decreases |w.bwd|
  {
    if w.bwd == [] {
      ls := [AckTimeout];
      RunOne(ps, w, AckTimeout);
    } else {
      var w1;
      ls, w1 := HearsNext(ps, w, p);
      var more := AcksAreUsedUp(ps, w1, p);
      RunAppend(ps, w, ls, more);
      ls := ls + more;
    }
  }

  /** The receivers differ only in where they are. */
  predicate SameBooks(r: Receiver, r': Receiver) {
    r'.(phase := r.phase, passStart := r.passStart) == r
  }

  /** The receiver listens, and only copies of the end are on their way to it. */
  predicate Hearkens(ps: seq<Packet>, w: World, p: nat) {
    && PlainEnd(ps, p) && w.s == Sender(p, false, false) && w.bwd == []
    && !w.r.closing && (w.r.phase == Pass(0) || w.r.phase == Linger(0xFFFF))
    && forall i | 0 <= i < |w.fwd| && w.fwd[i].Good? :: w.fwd[i].packet == ps[p]
  }

  lemma {:induction false} HearsOneCopy(r: Receiver, pk: Packet, a: Arrival)
    requires pk.IsEos() && !pk.IsFin() && pk.payload == [] && pk.seqnum != 0
    requires !r.closing && (r.phase == Pass(0) || r.phase == Linger(0xFFFF))
    requires a.Good? ==> a.packet == pk
    ensures var r' := Hear(r, a).0;
            SameBooks(r, r') && (r'.phase == Pass(0) || r'.phase == Linger(0xFFFF) || r'.phase == Ready)
  {
  }

  /** A receiver that is done with its passes hands out nothing, if asked for no bytes, and is called again. */
  lemma {:induction false} CalledAgain(ps: seq<Packet>, w: World) returns (ls: seq<Step>, w': World)
    requires !w.r.closing && (w.r.phase == Ready || w.r.phase == Pass(0) || w.r.phase == Linger(0xFFFF))
    ensures NoClose(ls) && w' == Run(ps, w, ls)
    ensures SameBooks(w.r, w'.r) && w'.s == w.s && w'.fwd == w.fwd && w'.bwd == w.bwd
    ensures w'.r.phase == if w.r.phase == Ready then Pass(0) else w.r.phase
  {
    if w.r.phase == Ready {
      ls := [Return(0), Call];
      var w1 := Apply(ps, w, Return(0));
      w' := Apply(ps, w1, Call);
      assert Run(ps, w, ls) == Run(ps, w1, ls[1..]) == Run(ps, w', ls[2..]);
    } else {
      ls, w' := [], w;
    }
  }

  /** One receive, of what is under way or of nothing, after which the receiver listens again. */
  lemma {:induction false} OneReceive(ps: seq<Packet>, w: World, p: nat, l: Step) returns (ls: seq<Step>, w': World)
    requires Hearkens(ps, w, p)
    requires (l == HearPacket([]) && w.fwd != []) || l == Idles(Silence, [])
    ensures NoClose(ls) && w' == Run(ps, w, ls) && Hearkens(ps, w', p) && SameBooks(w.r, w'.r)
    ensures w'.fwd == if l.HearPacket? then w.fwd[1..] else w.fwd
    ensures l.Idles? ==> w'.r.phase == Pass(0)
  {
    var w1 := Apply(ps, w, l);
    HearsOneCopy(w.r, ps[p], if l.HearPacket? then w.fwd[0] else Silence);
    assert w1.bwd == [];
    var more;
    more, w' := CalledAgain(ps, w1);
    RunOne(ps, w, l);
    RunAppend(ps, w, [l], more);
    ls := [l] + more;
  }

  lemma {:induction false} CopiesAreUsedUp(ps: seq<Packet>, w: World, p: nat) returns (ls: seq<Step>, w': World)
    requires Hearkens(ps, w, p)
    ensures NoClose(ls) && w' == Run(ps, w, ls) && Settled(ps, w', p) && SameBooks(w.r, w'.r)
    decreases |w.fwd|
  {
    ls, w' := OneReceive(ps, w, p, if w.fwd == [] then Idles(Silence, []) else HearPacket([]));
    if w.fwd != [] {
      var more;
      var w1 := w';
      more, w' := CopiesAreUsedUp(ps, w1, p);
      RunAppend(ps, w, ls, more);
      ls := ls + more;
    }
  }

  /** Nothing is under way any more. */
  predicate Settled(ps: seq<Packet>, w: World, p: nat) {
    EarlyTimeout(ps, w, p) && w.s == Sender(p, false, false) && w.fwd == [] && w.bwd == []
  }

  lemma {:induction false} Settles(ps: seq<Packet>, w: World, p: nat) returns (ls: seq<Step>)
    requires EarlyTimeout(ps, w, p) && !AckUnderWay(w, ps[p])
    ensures NoClose(ls) && Settled(ps, Run(ps, w, ls), p) && SameBooks(w.r, Run(ps, w, ls).r)
  {
    var back := AcksAreUsedUp(ps, w, p);
    var w1 := Run(ps, w, back);
    var forth, w2 := CopiesAreUsedUp(ps, w1, p);
    RunAppend(ps, w, back, forth);
    ls := back + forth;
  }

  // ---------------------------------------------------------------- when the end is acknowledged

  lemma {:induction false} AcknowledgedAs65535(ps: seq<Packet>, w: World, p: nat) returns (ls: seq<Step>)
    requires Settled(ps, w, p) && ps[p].seqnum == 0xFFFF
    ensures NoClose(ls) && Run(ps, w, ls).s.pos == p + 1
  {
    var w1 := Exchange(ps, w, Ack(0xFFFF));
    RunMore(ps, w, EXCHANGE, HearAck([]));
    ls := EXCHANGE + [HearAck([])];
  }

  lemma {:induction false} EndIsAcknowledged(ps: seq<Packet>, w: World, p: nat) returns (ls: seq<Step>)
    requires EarlyTimeout(ps, w, p) && (ps[p].seqnum == 0xFFFF || AckUnderWay(w, ps[p]))
    ensures NoClose(ls) && Run(ps, w, ls).s.pos == p + 1
  {
    if AckUnderWay(w, ps[p]) {
      var i :| 0 <= i < |w.bwd| && Acknowledges(w.bwd[i], ps[p]);
      ls := AckComesThrough(ps, w, p, i);
    } else {
      var before := Settles(ps, w, p);
      var more := AcknowledgedAs65535(ps, Run(ps, w, before), p);
      RunAppend(ps, w, before, more);
      ls := before + more;
    }
  }

  /** From an early timeout on, the end can be acknowledged if and only if an acknowledgement of it is under way
      already, or it happens to carry the number 65535, which the receiver acknowledges as "0 - 1". */
  lemma {:induction false} AcknowledgedExactlyIf(ps: seq<Packet>, w: World, p: nat)
    requires EarlyTimeout(ps, w, p)
    ensures (exists ls {:induction false} :: Run(ps, w, ls).s.pos == p + 1)
            <==> ps[p].seqnum == 0xFFFF || AckUnderWay(w, ps[p])
  {
    if ps[p].seqnum == 0xFFFF || AckUnderWay(w, ps[p]) {
      var ls := EndIsAcknowledged(ps, w, p);
    } else {
      forall ls
        ensures Run(ps, w, ls).s.pos == p
      {
        StuckForever(ps, w, p, ls);
      }
    }
  }

  // ---------------------------------------------------------------- a FIN ends the waiting

  /** While the application is in `send` and does not close, the sender closes if and only if it hears a FIN. */
  lemma {:induction false} SenderClosesExactlyOnFin(ps: seq<Packet>, w: World, ls: seq<Step>)
    requires !w.s.closing && NoClose(ls)
    ensures Run(ps, w, ls).s.closing <==> exists a :: a in HeardBySender(ps, w, ls) && FinishesWith(a)
    decreases |ls|
  {
    if ls != [] {
      var w1 := Apply(ps, w, ls[0]);
      var now, rest := SenderHearsIn(w, ls[0]), HeardBySender(ps, w1, ls[1..]);
      if w1.s.closing {
        SenderStaysClosed(ps, w1, ls[1..]);
        assert now[0] in now + rest && FinishesWith(now[0]);
      } else {
        SenderClosesExactlyOnFin(ps, w1, ls[1..]);
        if Enabled(ps, w, ls[0]) {
          assert forall a :: a in now + rest <==> a in now || a in rest;
        }
      }
    }
  }

  /** `send` has returned: its end is acknowledged, or a FIN was heard. */
  predicate SendOver(s: Sender, p: nat) {
    p < s.pos || s.closing
  }

  /** The sender's packet arrives, but not the answer to it. */
  const UNANSWERED: seq<Step> := [Transmit(Intact), HearPacket([])]

  lemma {:induction false} ArrivesUnanswered(ps: seq<Packet>, w: World) returns (w': World)
    requires w.s == Sender(w.s.pos, false, false) && w.s.pos < |ps| && w.fwd == [] && w.r.Listening()
    ensures w' == Run(ps, w, UNANSWERED)
    ensures w' == w.(s := w.s.(waiting := true), r := Hear(w.r, Good(ps[w.s.pos])).0)
  {
    var w1 := Apply(ps, w, Transmit(Intact));
    assert w1.fwd == [Good(ps[w.s.pos])] && w1.fwd[1..] == [];
    w' := Apply(ps, w1, HearPacket([]));
    assert w'.bwd == w.bwd;
    assert Run(ps, w, UNANSWERED) == Run(ps, w1, UNANSWERED[1..]) == Run(ps, w', UNANSWERED[2..]);
  }

  /** The receiver gives up lingering and returns `n` bytes. */
  lemma {:induction false} GivesUpAndReturns(ps: seq<Packet>, w: World, n: nat) returns (ls: seq<Step>, w': World)
    requires w.r.phase.Linger? && !w.r.closing && !w.r.NothingLeft()
    ensures NoClose(ls) && w' == Run(ps, w, ls)
    ensures w' == w.(r := Deliver(w.r, n).0, outs := w.outs + [Deliver(w.r, n).1])
  {
    ls := [Idles(Silence, []), Return(n)];
    var w1 := Apply(ps, w, ls[0]);
    assert w1.bwd == w.bwd;
    w' := Apply(ps, w1, ls[1]);
    assert Run(ps, w, ls) == Run(ps, w1, ls[1..]) == Run(ps, w', ls[2..]);
  }

  /** The end arrives once more, the receiver lingers and gives up, and its call of `recv` returns. */
  lemma {:induction false} RecvReturns(ps: seq<Packet>, w: World, p: nat, n: nat)
    returns (ls: seq<Step>, w': World)
    requires Settled(ps, w, p) && !w.r.NothingLeft()
    ensures NoClose(ls) && w' == Run(ps, w, ls)
    ensures w' == w.(s := Sender(p, true, false), r := Deliver(w.r, n).0, outs := w.outs + [Deliver(w.r, n).1])
  {
    var w1 := ArrivesUnanswered(ps, w);
    assert w1.r == w.r.(phase := Linger(0xFFFF));
    ls, w' := GivesUpAndReturns(ps, w1, n);
    RunAppend(ps, w, UNANSWERED, ls);
    ls := UNANSWERED + ls;
  }

  /** With bytes left to read, `recv` can return, and its caller close the channel. */
  lemma {:induction false} AFinEndsSend(ps: seq<Packet>, w: World, p: nat) returns (ls: seq<Step>)
    requires Settled(ps, w, p) && !w.r.NothingLeft()
    ensures NoClose(ls) && Run(ps, w, ls).s.closing
  {
    var w1;
    ls, w1 := RecvReturns(ps, w, p, 0);
    var w2 := Apply(ps, w1, CloseReceiver([Intact]));
    RunMore(ps, w, ls, CloseReceiver([Intact]));
    ls := ls + [CloseReceiver([Intact])];
    FirstOfBurst();
    assert w2.bwd == [Good(FIN_PACKET)];
    RunMore(ps, w, ls, HearAck([]));
    ls := ls + [HearAck([])];
  }

  lemma {:induction false} FirstOfBurst()
    ensures Transit(FinBurst(), [Intact]) == [Good(FIN_PACKET)]
  {
    var rest := FinBurst()[1..];
    assert Transit(FinBurst(), [Intact]) == [Good(FIN_PACKET)] + Transit(rest, []);
  }

  // ---------------------------------------------------------------- with nothing left to read, both calls hang

  /** Both peers wait for the other, with no FIN anywhere and nothing that `recv` could return. */
  predicate Deadlocked(ps: seq<Packet>, w: World, p: nat) {
    && Stuck(ps, w, p) && !w.s.closing
    && w.r.Listening() && !w.r.closing && w.r.NothingLeft()
    && (forall i | 0 <= i < |w.fwd| :: !FinishesWith(w.fwd[i]))
    && (forall i | 0 <= i < |w.bwd| :: !FinishesWith(w.bwd[i]))
  }

  lemma {:induction false} DeadlockedStep(ps: seq<Packet>, w: World, p: nat, l: Step)
    requires Deadlocked(ps, w, p) && PlainEnd(ps, p) && ps[p].seqnum != 0xFFFF && !l.CloseSender?
    ensures Deadlocked(ps, Apply(ps, w, l), p)
  {
    StuckStep(ps, w, p, l);
    if Enabled(ps, w, l) {
      match l
      case Idles(a, fates) =>
        HearingTheEndAgain(w.r, ps[p], a);
        TransitOnly(Hear(w.r, a).1, fates);
      case HearPacket(fates) =>
        HearingTheEndAgain(w.r, ps[p], w.fwd[0]);
        TransitOnly(Hear(w.r, w.fwd[0]).1, fates);
      case HearAck(fates) => assert SenderHears(w.s, ps[p], w.bwd[0]).1 == [];
      case _ =>
    }
  }

  lemma {:induction false} DeadlockedForever(ps: seq<Packet>, w: World, p: nat, ls: seq<Step>)
    requires Deadlocked(ps, w, p) && PlainEnd(ps, p) && ps[p].seqnum != 0xFFFF && NoClose(ls)
    ensures Deadlocked(ps, Run(ps, w, ls), p)
    decreases |ls|
  {
    if ls != [] {
      DeadlockedStep(ps, w, p, ls[0]);
      DeadlockedForever(ps, Apply(ps, w, ls[0]), p, ls[1..]);
    }
  }

  /** When `send` can still return after an early timeout: exactly if the end can be acknowledged, or if the
      receiver has something left to read and so can come to close the channel. */
  lemma {:induction false} SendCanReturnExactlyIf(ps: seq<Packet>, w: World, p: nat)
    requires EarlyTimeout(ps, w, p)
    ensures (exists ls {:induction false} :: NoClose(ls) && SendOver(Run(ps, w, ls).s, p))
            <==> ps[p].seqnum == 0xFFFF || AckUnderWay(w, ps[p]) || !w.r.NothingLeft()
  {
    if ps[p].seqnum == 0xFFFF || AckUnderWay(w, ps[p]) {
      var ls := EndIsAcknowledged(ps, w, p);
      assert SendOver(Run(ps, w, ls).s, p);
    } else if !w.r.NothingLeft() {
      var before := Settles(ps, w, p);
      var more := AFinEndsSend(ps, Run(ps, w, before), p);
      RunAppend(ps, w, before, more);
      assert SendOver(Run(ps, w, before + more).s, p);
    } else {
      forall ls | NoClose(ls)
        ensures !SendOver(Run(ps, w, ls).s, p)
      {
        DeadlockedForever(ps, w, p, ls);
      }
    }
  }

  // ---------------------------------------------------------------- it happens to every send

  lemma {:induction false} AcknowledgementLost(ps: seq<Packet>, w: World, p: nat) returns (ls: seq<Step>)
    requires WellShaped(ps) && InStep(ps, w, p) && p < |ps| && ps[p].IsEos() && ps[p].seqnum != 0
    ensures Settled(ps, Run(ps, w, ls), p) && Run(ps, w, ls).r.stranded == 0
  {
    assert WellShapedAt(ps, p);
    var w1 := ArrivesUnanswered(ps, w);
    assert w1.r.phase == Linger(ps[p].seqnum) && w1.r.stranded == 0;
    RunMore(ps, w, UNANSWERED, AckTimeout);
    ls := UNANSWERED + [AckTimeout];
    var w2 := RoundOff(ps, Apply(ps, w1, AckTimeout));
    RunAppend(ps, w, ls, ROUND_OFF);
    ls := ls + ROUND_OFF;
  }

  /** The receiver's application reads what is left, call by call, without an acknowledgement getting through. */
  lemma {:induction false} EverythingIsRead(ps: seq<Packet>, w: World, p: nat) returns (ls: seq<Step>)
    requires Settled(ps, w, p) && w.r.stranded == 0
    ensures Settled(ps, Run(ps, w, ls), p) && Run(ps, w, ls).r.NothingLeft()
    decreases |Stream.Text(w.r.unread)|
  {
    ls := [];
    if !w.r.NothingLeft() {
      var one, w1 := RecvReturns(ps, w, p, 1);
      Stream.ReadConserves(w.r.unread, 1);
      RunMore(ps, w, one, AckTimeout);
      RunMore(ps, w, one + [AckTimeout], Call);
      one := one + [AckTimeout] + [Call];
      var more := EverythingIsRead(ps, Run(ps, w, one), p);
      RunAppend(ps, w, one, more);
      ls := one + more;
    }
  }

  /** So for every send whose end is numbered neither 0 nor 65535 there is a run that loses the acknowledgements of
      the end until `finalizeRecv` times out, after which that end is never acknowledged, although it has been
      received; and as long as the application that waits in `send` does not close, neither `send` nor `recv`
      ever returns. */
  lemma {:induction false} LostAcknowledgementsBlockSend(sends: seq<seq<Byte>>, t: nat) returns (ls: seq<Step>)
    requires t < |sends| && Countable(sends[t]) && Number(FragmentCount(sends[t])) != 0xFFFF
    ensures After(sends, ls).s.pos + 1 == OffsetOf(sends, t + 1)
    ensures forall more {:induction false} :: After(sends, ls + more).s.pos == After(sends, ls).s.pos
    ensures forall more {:induction false} | NoClose(more) ::
              !After(sends, ls + more).s.closing && After(sends, ls + more).r.Listening()
  {
    var ps := AllPackets(sends);
    AllPacketsAreWellShaped(sends);
    var p := Limits.WhereASendEnds(sends, t);
    ls := EverythingIsReadThere(ps, p);
    forall more
      ensures After(sends, ls + more).s.pos == p
    {
      RunAppend(ps, INITIAL, ls, more);
      StuckForever(ps, After(sends, ls), p, more);
    }
    forall more | NoClose(more)
      ensures Deadlocked(ps, After(sends, ls + more), p)
    {
      RunAppend(ps, INITIAL, ls, more);
      DeadlockedForever(ps, After(sends, ls), p, more);
    }
  }

  lemma {:induction false} EverythingIsReadThere(ps: seq<Packet>, p: nat) returns (ls: seq<Step>)
    requires WellShaped(ps) && p < |ps| && ps[p].IsEos() && ps[p].seqnum != 0
    ensures Settled(ps, Run(ps, INITIAL, ls), p) && Run(ps, INITIAL, ls).r.NothingLeft()
  {
    var before := AnyPositionCanBeReached(ps, p);
    var lost := AcknowledgementLost(ps, Run(ps, INITIAL, before), p);
    RunAppend(ps, INITIAL, before, lost);
    var read := EverythingIsRead(ps, Run(ps, INITIAL, before + lost), p);
    RunAppend(ps, INITIAL, before + lost, read);
    ls := before + lost + read;
  }
}
