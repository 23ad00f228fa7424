/** Two peers and the two channels between them. One peer sends, the other receives. Channels are first-in
    first-out and may lose or damage anything; what is in a channel is what a receive will make of it. */
module Network {
  import opened Message
  import opened Ucp
  import opened Endpoint

  /** What becomes of one packet under way. */
  datatype Fate =
    | Intact
    | Lost
    | Garbled(opens: bool)
    | Emptied

  function Arrives(pk: Packet, f: Fate): seq<Arrival> {
    match f
    case Intact => [Good(pk)]
    case Lost => []
    case Garbled(opens) => [Junk(opens)]
    case Emptied => [Silence]
  }

  /** Whatever the datagram layer does to the bytes of a message, one of the fates says what is received. */
  lemma {:induction false} FatesCoverFaults(m: Msg, f: Fault, errnoIsAgain: bool) returns (fate: Fate)
    requires Constructed(m) && Ucp.Possible(f, TotalLength(m))
    requires f.Scramble? ==> f.noise == Wire(m) || !Accepted(f.noise)
    ensures Arrives(View(m), fate)
            == match OnWire(Wire(m), f)
               case None => []
               case Some(bytes) => [Classify(Datagram(bytes, errnoIsAgain))]
  {
    NetworkNeverForges(m, f, errnoIsAgain);
    match OnWire(Wire(m), f)
    case None => fate := Lost;
    case Some(bytes) =>
      match Classify(Datagram(bytes, errnoIsAgain))
      case Good(_) => fate := Intact;
      case Junk(opens) => fate := Garbled(opens);
      case Silence => fate := Emptied;
  }

  /** Packets without a fate are lost. */
  function Transit(pks: seq<Packet>, fates: seq<Fate>): seq<Arrival> {
    if pks == [] || fates == [] then [] else Arrives(pks[0], fates[0]) + Transit(pks[1..], fates[1..])
  }

  /** `pos` counts the packets of all sends that are acknowledged; `waiting` is the time between `rawsend`
      and `lowrecv` in `acksend`. */
  datatype Sender = Sender(pos: nat, waiting: bool, closing: bool)

  /** The sending half on what one `lowrecv` brings while `pk` is the current packet. */
  function SenderHears(s: Sender, pk: Packet, a: Arrival): (Sender, seq<Packet>) {
    if FinishesWith(a) then (s.(waiting := false, closing := true), FinBurst())
    else if Acknowledges(a, pk) then (s.(waiting := false, pos := s.pos + 1), [])
    else (s.(waiting := false), [])
  }

  datatype World = World(s: Sender, r: Receiver, fwd: seq<Arrival>, bwd: seq<Arrival>, outs: seq<seq<Byte>>)

  const INITIAL := World(Sender(0, false, false), FRESH_RECEIVER, [], [], [])

  datatype Step =
    | Transmit(fate: Fate)
    | AckTimeout
    | HearAck(fates: seq<Fate>)
    | CloseSender(fates: seq<Fate>)
    | Call
    | Idles(a: Arrival, fates: seq<Fate>)
    | HearPacket(fates: seq<Fate>)
    | Return(n: nat)
    | CloseReceiver(fates: seq<Fate>)

  /** When a step can happen. `Idles` is a receive that ends without a datagram: a timeout or an error. */
  predicate Enabled(ps: seq<Packet>, w: World, l: Step) {
    match l
    case Transmit(_) => !w.s.closing && !w.s.waiting && w.s.pos < |ps|
    case AckTimeout => !w.s.closing && w.s.waiting
    case HearAck(_) => !w.s.closing && w.s.waiting && w.s.pos < |ps| && w.bwd != []
    case CloseSender(_) => !w.s.closing && !w.s.waiting
    case Call => w.r.phase.Idle?
    case Idles(a, _) => w.r.Listening() && (a == Silence || a == Junk(false))
    case HearPacket(_) => w.r.Listening() && w.fwd != []
    case Return(_) => w.r.phase.Ready?
    case CloseReceiver(_) => w.r.phase.Idle? && !w.r.closing
  }

  function ReceiverHears(w: World, a: Arrival, fates: seq<Fate>): World
    requires w.r.Listening()
  {
    var (r, reply) := Hear(w.r, a);
    w.(r := r, bwd := w.bwd + Transit(reply, fates))
  }

  /** A step that cannot happen changes nothing. `ps` are the packets of all sends. */
  function Apply(ps: seq<Packet>, w: World, l: Step): World {
    if !Enabled(ps, w, l) then w
    else match l
         case Transmit(f) => w.(s := w.s.(waiting := true), fwd := w.fwd + Arrives(ps[w.s.pos], f))
         case AckTimeout => w.(s := w.s.(waiting := false))
         case HearAck(fates) =>
           var (s, sent) := SenderHears(w.s, ps[w.s.pos], w.bwd[0]);
           w.(s := s, bwd := w.bwd[1..], fwd := w.fwd + Transit(sent, fates))
         case CloseSender(fates) =>
           w.(s := w.s.(closing := true), fwd := w.fwd + Transit(FinBurst(), fates))
         case Call => w.(r := StartPass(w.r))
         case Idles(a, fates) => ReceiverHears(w, a, fates)
         case HearPacket(fates) => ReceiverHears(w.(fwd := w.fwd[1..]), w.fwd[0], fates)
         case Return(n) => var (r, out) := Deliver(w.r, n); w.(r := r, outs := w.outs + [out])
         case CloseReceiver(fates) =>
           w.(r := w.r.(closing := true), bwd := w.bwd + Transit(FinBurst(), fates))
  }

  function Run(ps: seq<Packet>, w: World, ls: seq<Step>): World
    decreases |ls|
  {
    if ls == [] then w else Run(ps, Apply(ps, w, ls[0]), ls[1..])
  }

  lemma {:induction false} RunAppend(ps: seq<Packet>, w: World, a: seq<Step>, b: seq<Step>)
    ensures Run(ps, w, a + b) == Run(ps, Run(ps, w, a), b)
    decreases |a|
  {
    if a == [] {
      assert a + b == b;
    } else {
      assert (a + b)[0] == a[0] && (a + b)[1..] == a[1..] + b;
      RunAppend(ps, Apply(ps, w, a[0]), a[1..], b);
    }
  }

  /** Nothing that was not sent comes out of a channel whole. */
  lemma {:induction false} TransitOnly(pks: seq<Packet>, fates: seq<Fate>)
    ensures forall i | 0 <= i < |Transit(pks, fates)| && Transit(pks, fates)[i].Good? ::
              Transit(pks, fates)[i].packet in pks
  {
    if pks != [] && fates != [] {
      TransitOnly(pks[1..], fates[1..]);
    }
  }

  // ---------------------------------------------------------------- the sending half is the loop of `send`

  /** What the sender hears in a step: what its `lowrecv` brings. */
  function SenderHearsIn(w: World, l: Step): seq<Arrival> {
    match l
    case HearAck(_) => if w.bwd == [] then [] else [w.bwd[0]]
    case AckTimeout => [Silence]
    case _ => []
  }

  /** What the sender hands to its socket in a step. */
  function SenderSendsIn(ps: seq<Packet>, w: World, l: Step): seq<Packet>
    requires Enabled(ps, w, l)
  {
    match l
    case Transmit(_) => [ps[w.s.pos]]
    case HearAck(_) => SenderHears(w.s, ps[w.s.pos], w.bwd[0]).1
    case CloseSender(_) => FinBurst()
    case _ => []
  }

  /** What the sender hears in a run: one entry for every `lowrecv`. */
  function HeardBySender(ps: seq<Packet>, w: World, ls: seq<Step>): seq<Arrival>
    decreases |ls|
  {
    if ls == [] then []
    else
      var rest := HeardBySender(ps, Apply(ps, w, ls[0]), ls[1..]);
      if Enabled(ps, w, ls[0]) then SenderHearsIn(w, ls[0]) + rest else rest
  }

  function SentBySender(ps: seq<Packet>, w: World, ls: seq<Step>): seq<Packet>
    decreases |ls|
  {
    if ls == [] then []
    else
      var rest := SentBySender(ps, Apply(ps, w, ls[0]), ls[1..]);
      if Enabled(ps, w, ls[0]) then SenderSendsIn(ps, w, ls[0]) + rest else rest
  }

  predicate NoClose(ls: seq<Step>) {
    forall i | 0 <= i < |ls| :: !ls[i].CloseSender?
  }

  predicate InSend(ps: seq<Packet>, s: Sender) {
    s.pos <= |ps| && !s.closing && (s.waiting ==> s.pos < |ps|)
  }

  /** The packet that is under way, of which `send` has yet to hear. */
  function Pending(ps: seq<Packet>, s: Sender): seq<Packet> {
    if s.waiting && s.pos < |ps| then [ps[s.pos]] else []
  }

  /** The packet that `send` comes to next. */
  function Coming(ps: seq<Packet>, s: Sender): seq<Packet> {
    if s.closing || s.waiting || |ps| <= s.pos then [] else [ps[s.pos]]
  }

  /** What a step is to `send`: one turn of its loops, or nothing if it hears nothing. */
  lemma {:induction false} SenderStep(ps: seq<Packet>, w: World, l: Step, rest: seq<Arrival>, sent: seq<Packet>)
    returns (sent1: seq<Packet>)
    requires InSend(ps, w.s) && Enabled(ps, w, l) && !l.CloseSender?
    ensures var s := Apply(ps, w, l).s;
            && sent + Pending(ps, w.s) + SenderSendsIn(ps, w, l) == sent1 + Pending(ps, s)
            && (!s.closing ==> InSend(ps, s))
            && RunSend(ps, w.s.pos, SenderHearsIn(w, l) + rest, sent)
               == if s.closing then SendRun(s.pos, true, sent1, rest) else RunSend(ps, s.pos, rest, sent1)
  {
    var heard := SenderHearsIn(w, l);
    sent1 := if heard == [] then sent else sent + [ps[w.s.pos]];
    if heard == [] {
      assert heard + rest == rest;
    } else {
      assert (heard + rest)[0] == heard[0] && (heard + rest)[1..] == rest;
      if FinishesWith(heard[0]) {
        sent1 := sent1 + FinBurst();
      }
    }
  }

  /** However the network behaves, the sender is where the loops of `send` over the packets of all sends are
      after hearing the same, and has sent the same; `send` counts as sent also the packet it comes to next. */
  lemma {:induction false} SenderFollowsSend(ps: seq<Packet>, w: World, ls: seq<Step>, sent: seq<Packet>)
    requires InSend(ps, w.s) && NoClose(ls)
    ensures var run := RunSend(ps, w.s.pos, HeardBySender(ps, w, ls), sent);
            var s := Run(ps, w, ls).s;
            && s.pos == run.pos && s.closing == run.closing
            && sent + Pending(ps, w.s) + SentBySender(ps, w, ls) + Coming(ps, s) == run.sent
    decreases |ls|
  {
    if ls != [] {
      var w1 := Apply(ps, w, ls[0]);
      var rest := SentBySender(ps, w1, ls[1..]);
      if Enabled(ps, w, ls[0]) {
        var sent1 := SenderStep(ps, w, ls[0], HeardBySender(ps, w1, ls[1..]), sent);
        var now := SenderSendsIn(ps, w, ls[0]);
        assert sent + Pending(ps, w.s) + (now + rest) == sent + Pending(ps, w.s) + now + rest;
        if w1.s.closing {
          SenderStaysClosed(ps, w1, ls[1..]);
        } else {
          SenderFollowsSend(ps, w1, ls[1..], sent1);
        }
      } else {
        SenderFollowsSend(ps, w1, ls[1..], sent);
      }
    }
  }

  lemma {:induction false} SenderStaysClosed(ps: seq<Packet>, w: World, ls: seq<Step>)
    requires w.s.closing
    ensures Run(ps, w, ls).s == w.s && HeardBySender(ps, w, ls) == [] && SentBySender(ps, w, ls) == []
    decreases |ls|
  {
    if ls != [] {
      SenderStaysClosed(ps, Apply(ps, w, ls[0]), ls[1..]);
    }
  }

  // ---------------------------------------------------------------- the receiving half is the loop of `recv`

  /** What the receiver hears in a step, and what it hands to its socket in answer. */
  function ReceiverHearsIn(w: World, l: Step): seq<Arrival> {
    match l
    case HearPacket(_) => if w.fwd == [] then [] else [w.fwd[0]]
    case Idles(a, _) => [a]
    case _ => []
  }

  function ReceiverAnswersIn(ps: seq<Packet>, w: World, l: Step): seq<Packet>
    requires Enabled(ps, w, l)
  {
    var heard := ReceiverHearsIn(w, l);
    if heard == [] then [] else Hear(w.r, heard[0]).1
  }

  function HeardByReceiver(ps: seq<Packet>, w: World, ls: seq<Step>): seq<Arrival>
    decreases |ls|
  {
    if ls == [] then []
    else
      var rest := HeardByReceiver(ps, Apply(ps, w, ls[0]), ls[1..]);
      if Enabled(ps, w, ls[0]) then ReceiverHearsIn(w, ls[0]) + rest else rest
  }

  function AnsweredByReceiver(ps: seq<Packet>, w: World, ls: seq<Step>): seq<Packet>
    decreases |ls|
  {
    if ls == [] then []
    else
      var rest := AnsweredByReceiver(ps, Apply(ps, w, ls[0]), ls[1..]);
      if Enabled(ps, w, ls[0]) then ReceiverAnswersIn(ps, w, ls[0]) + rest else rest
  }

  /** What a step is to `recv`: one turn of its loops, or nothing if it hears nothing. */
  lemma {:induction false} ReceiverStep(ps: seq<Packet>, w: World, l: Step, rest: seq<Arrival>, sent: seq<Packet>)
    requires Enabled(ps, w, l) && !l.Call? && !l.Return? && !l.CloseReceiver?
    ensures RunRecv(w.r, ReceiverHearsIn(w, l) + rest, sent)
            == RunRecv(Apply(ps, w, l).r, rest, sent + ReceiverAnswersIn(ps, w, l))
  {
    var heard := ReceiverHearsIn(w, l);
    if heard == [] {
      assert heard + rest == rest && sent + [] == sent;
    } else {
      assert (heard + rest)[0] == heard[0] && (heard + rest)[1..] == rest;
    }
  }

  /** Between a call of `recv` and its end, the receiver is where the passes of `recv` are after hearing the same,
      and has answered the same. */
  lemma {:induction false} ReceiverFollowsRecv(ps: seq<Packet>, w: World, ls: seq<Step>, sent: seq<Packet>)
    requires forall i | 0 <= i < |ls| :: !ls[i].Call? && !ls[i].Return? && !ls[i].CloseReceiver?
    ensures var run := RunRecv(w.r, HeardByReceiver(ps, w, ls), sent);
            Run(ps, w, ls).r == run.end && sent + AnsweredByReceiver(ps, w, ls) == run.sent
    decreases |ls|
  {
    if ls != [] {
      var w1 := Apply(ps, w, ls[0]);
      if Enabled(ps, w, ls[0]) {
        var now, rest := ReceiverAnswersIn(ps, w, ls[0]), AnsweredByReceiver(ps, w1, ls[1..]);
        ReceiverStep(ps, w, ls[0], HeardByReceiver(ps, w1, ls[1..]), sent);
        ReceiverFollowsRecv(ps, w1, ls[1..], sent + now);
        assert sent + (now + rest) == sent + now + rest;
      } else {
        ReceiverFollowsRecv(ps, w1, ls[1..], sent);
      }
    }
  }

  /** Successive calls of `send` amount to one run over all their packets. */
  lemma {:induction false} SendsCompose(a: seq<Packet>, b: seq<Packet>, pos: nat,
                                        heard: seq<Arrival>, sent: seq<Packet>)
    requires pos <= |a|
    ensures var first, whole := RunSend(a, pos, heard, sent), RunSend(a + b, pos, heard, sent);
            if first.pos < |a| then whole == first
            else var second := RunSend(b, 0, first.rest, first.sent);
                 whole == second.(pos := |a| + second.pos)
    decreases |a| - pos
  {
    if pos == |a| {
      RunShifts(a, b, 0, heard, sent);
    } else {
      var k := RunAcksend(a[pos], heard, sent);
      if k.acked {
        SendsCompose(a, b, pos + 1, k.rest, k.sent);
      }
    }
  }

  lemma {:induction false} RunShifts(a: seq<Packet>, b: seq<Packet>, pos: nat, heard: seq<Arrival>, sent: seq<Packet>)
    requires pos <= |b|
    ensures var r := RunSend(b, pos, heard, sent);
            RunSend(a + b, |a| + pos, heard, sent) == r.(pos := |a| + r.pos)
    decreases |b| - pos
  {
    if pos < |b| {
      var k := RunAcksend(b[pos], heard, sent);
      if k.acked {
        RunShifts(a, b, pos + 1, k.rest, k.sent);
      }
    }
  }
}
