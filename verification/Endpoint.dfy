/** One peer's half of the protocol as step functions: what a message that arrives, or the lack of one, does
    to the sending loop and to the receiving loops. The class and the network models share these functions. */
module Endpoint {
  import opened Message
  import opened Ucp
  import opened Stream
  import MsgBuffers

  const FIN_PACKET := Packet(666, FIN, [])

  /** `close` sends this many copies before it closes the socket. */
  function FinBurst(): seq<Packet> {
    seq(2048, _ => FIN_PACKET)
  }

  function Ack(n: Uint16): Packet {
    Packet(n, ACK, [])
  }

  function Succ(n: Uint16): Uint16 {
    (n + 1) % 0x1_0000
  }

  function Pred(n: Uint16): Uint16 {
    (n + 0xFFFF) % 0x1_0000
  }

  // ---------------------------------------------------------------- what one receive brings

  /** What one `rawrecv` amounts to: it returns 0, it returns something that is not accepted, or it returns an
      accepted message. `opens` tells whether a refused message passes the weaker test of `finalizeRecv`. */
  datatype Arrival =
    | Silence
    | Junk(opens: bool)
    | Good(packet: Packet)

  function Classify(e: Event): Arrival {
    match e
    case Timeout => Silence
    case Failure => Junk(false)
    case Datagram(bytes, errnoIsAgain) =>
      var w := Received(bytes);
      if w == [] then if errnoIsAgain then Silence else Junk(false)
      else if Accepted(w) then Good(View(Decoded(w)))
      else Junk(OpensTransfer(Decoded(w)))
  }

  /** `recvfrom` cuts a datagram to the size of the caller's buffer. */
  function Received(bytes: seq<Byte>): (w: seq<Byte>)
    ensures |w| <= MSG_SIZE
  {
    if |bytes| <= MSG_SIZE then bytes else bytes[..MSG_SIZE]
  }

  function ClassifyAll(es: seq<Event>): seq<Arrival> {
    seq(|es|, i requires 0 <= i < |es| => Classify(es[i]))
  }

  predicate FinishesWith(a: Arrival) {
    a.Good? && a.packet.IsFin()
  }

  /** The network does to a packet one of three things: it arrives as it was sent, or it is refused, or nothing
      is seen of it. Cuts are always refused. Scrambled bytes are assumed to be refused if they differ. */
  lemma {:induction false} NetworkNeverForges(m: Msg, f: Fault, errnoIsAgain: bool)
    requires Constructed(m) && Possible(f, TotalLength(m))
    requires f.Scramble? ==> f.noise == Wire(m) || !Accepted(f.noise)
    ensures OnWire(Wire(m), f).Some? ==>
            var a := Classify(Datagram(OnWire(Wire(m), f).value, errnoIsAgain));
            && (f.NoFault? ==> a == Good(View(m)))
            && (f.Cut? ==> !a.Good?)
            && (a.Good? ==> a == Good(View(m)))
  {
    RoundTrip(m);
    if f.Cut? {
      TruncationIsCaught(m, f.keep);
    }
  }

  // ---------------------------------------------------------------- sending

  /** Where a run of `acksend` stops: acknowledged, or closed by a FIN, or still waiting for more to arrive;
      with everything sent by then and what has not been received yet. */
  datatype AckRun = AckRun(acked: bool, closing: bool, sent: seq<Packet>, rest: seq<Arrival>)

  predicate Acknowledges(a: Arrival, pk: Packet) {
    a.Good? && !a.packet.IsFin() && a.packet.seqnum == pk.seqnum
  }

  /** `acksend`: sends, listens once, and repeats until an acknowledgement matches or the socket closes. */
  function RunAcksend(pk: Packet, heard: seq<Arrival>, sent: seq<Packet>): (r: AckRun)
    ensures |r.rest| <= |heard|
    ensures r.acked ==> !r.closing
  {
    if heard == [] then AckRun(false, false, sent + [pk], [])
    else if FinishesWith(heard[0]) then AckRun(false, true, sent + [pk] + FinBurst(), heard[1..])
    else if Acknowledges(heard[0], pk) then AckRun(true, false, sent + [pk], heard[1..])
    else RunAcksend(pk, heard[1..], sent + [pk])
  }

  /** `pos` is the packet a run of `send` has come to. */
  datatype SendRun = SendRun(pos: nat, closing: bool, sent: seq<Packet>, rest: seq<Arrival>)

  /** `send`: the packets from number `pos` on, one after the other. */
  function RunSend(packets: seq<Packet>, pos: nat, heard: seq<Arrival>, sent: seq<Packet>): (r: SendRun)
    requires pos <= |packets|
    ensures |r.rest| <= |heard| && pos <= r.pos <= |packets|
    decreases |packets| - pos
  {
    if pos == |packets| then SendRun(pos, false, sent, heard)
    else
      var a := RunAcksend(packets[pos], heard, sent);
      if a.acked then RunSend(packets, pos + 1, a.rest, a.sent) else SendRun(pos, a.closing, a.sent, a.rest)
  }

  // ---------------------------------------------------------------- receiving

  /** Where the receiver is: outside `recv`, in the loop of `recv` expecting a number, in `finalizeRecv`
      repeating an acknowledgement, or about to read the buffer. */
  datatype Phase =
    | Idle
    | Pass(expected: Uint16)
    | Linger(ack: Uint16)
    | Ready

  /** `queued` and `passStart` are history: every message ever queued, and how many there were when the
      current pass began. `stranded` counts bytes that can never be read. */
  datatype Receiver = Receiver(
    phase: Phase,
    closing: bool,
    queued: seq<Packet>,
    passStart: nat,
    unread: seq<Item>,
    stranded: nat)
  {
    predicate Listening() { phase.Pass? || phase.Linger? }

    /** `buffer_.empty()` */
    predicate NothingLeft() { Text(unread) == [] && stranded == 0 }
  }

  const FRESH_RECEIVER := Receiver(Idle, false, [], 0, [], 0)

  function StartPass(r: Receiver): Receiver {
    if r.closing then r.(phase := Ready) else r.(phase := Pass(0), passStart := |r.queued|)
  }

  /** The loop condition at the end of a pass: another one if the buffer is still empty. */
  function EndPass(r: Receiver): Receiver {
    if r.NothingLeft() && !r.closing then StartPass(r) else r.(phase := Ready)
  }

  function Queue(r: Receiver, pk: Packet): Receiver {
    r.(queued := r.queued + [pk], unread := r.unread + FlatOf(pk), stranded := r.stranded + MsgBuffers.Stranded(pk))
  }

  /** One turn of the loop of `recv` on an accepted message. */
  function HearInPass(r: Receiver, pk: Packet): (Receiver, seq<Packet>)
    requires r.phase.Pass?
  {
    var expected := r.phase.expected;
    var matches := pk.seqnum == expected;
    var ack := if matches then expected else Pred(expected);
    var r1 := if matches then Queue(r, pk) else r;
    var r2 := r1.(closing := r.closing || pk.IsFin());
    var sent := if pk.IsFin() then FinBurst() else if r.closing then [] else [Ack(ack)];
    if pk.IsEos() then (r2.(phase := Linger(ack)), sent)
    else if r2.closing then (EndPass(r2), sent)
    else (r2.(phase := Pass(if matches then Succ(expected) else expected)), sent)
  }

  predicate Opens(pk: Packet) {
    pk.seqnum == 0 && pk.payload != []
  }

  /** One turn of the loop of `finalizeRecv` on an open socket. */
  function HearInLinger(r: Receiver, a: Arrival): (Receiver, seq<Packet>)
    requires r.phase.Linger?
  {
    match a
    case Silence => (EndPass(r), [])
    case Junk(opens) => if opens then (EndPass(r), []) else (r, [Ack(r.phase.ack)])
    case Good(pk) =>
      var r1 := r.(closing := r.closing || pk.IsFin());
      var sent := if pk.IsFin() then FinBurst() else [];
      if Opens(pk) then (EndPass(r1), sent)
      else if pk.IsFin() then (r1, sent)
      else (r1, [Ack(r.phase.ack)])
  }

  /** One receive of the receiver and the packets it sends in response. On a closed socket every receive
      fails with an error that is not a timeout, and sends have no effect. */
  function Hear(r: Receiver, a: Arrival): (Receiver, seq<Packet>)
    requires r.Listening()
  {
    if r.phase.Linger? then if r.closing then (r, []) else HearInLinger(r, a)
    else match a
         case Silence => (r, [])
         case Junk(_) => (r, [Ack(Pred(r.phase.expected))])
         case Good(pk) => HearInPass(r, pk)
  }

  /** What `recv` hands to its caller once its passes are over. */
  function Deliver(r: Receiver, n: nat): (Receiver, seq<Byte>) {
    if r.closing && r.NothingLeft() then (r.(phase := Idle), [])
    else var (out, rest) := FlatRead(r.unread, n); (r.(phase := Idle, unread := rest), out)
  }

  datatype RecvRun = RecvRun(end: Receiver, sent: seq<Packet>, rest: seq<Arrival>)

  /** The passes of one `recv`, over what the network brings. */
  function RunRecv(r: Receiver, heard: seq<Arrival>, sent: seq<Packet>): (run: RecvRun)
    ensures |run.rest| <= |heard|
    ensures run.end.Listening() ==> run.rest == []
    decreases |heard|
  {
    if !r.Listening() || heard == [] then RecvRun(r, sent, heard)
    else var (r1, reply) := Hear(r, heard[0]); RunRecv(r1, heard[1..], sent + reply)
  }
}
