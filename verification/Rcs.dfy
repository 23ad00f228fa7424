/** The channel object: the loops of `send` and `recv` over a socket, each proved against the step functions. */
module Rcs {
  import opened Message
  import opened Ucp
  import opened Endpoint
  import opened Packets
  import opened Sequences
  import opened Turns
  import MsgBuffers

  /** `inbox` is what is left of `before`. */
  predicate LeftOf(inbox: seq<Event>, before: seq<Event>) {
    |inbox| <= |before| && inbox == before[|before| - |inbox|..]
  }

  lemma {:induction false} NextEvent(es: seq<Event>, before: seq<Event>)
    requires es != [] && LeftOf(es, before)
    ensures ClassifyAll(es) != [] && ClassifyAll(es)[0] == Classify(es[0])
    ensures ClassifyAll(es)[1..] == ClassifyAll(es[1..])
    ensures LeftOf(es[1..], before)
  {
  }

  predicate IsAck(m: Msg) {
    m == FlagMsg(m.seqnum, ACK, m.data)
  }

  /** A turn of the inner loop of `recv`, in one piece. */
  lemma {:induction false} TurnInPass(r: Receiver, a: Arrival)
    requires r.phase.Pass? && !r.closing
    ensures var matches := a.Good? && a.packet.seqnum == r.phase.expected;
            var ack := if matches then r.phase.expected else Pred(r.phase.expected);
            var (end, sent) := Hear(r, a);
            && end.(phase := Idle)
               == (if matches then Queue(r, a.packet) else r).(phase := Idle, closing := FinishesWith(a))
            && end.phase == (if a.Good? && a.packet.IsEos() then Linger(ack)
                             else if FinishesWith(a) then Ready
                             else Pass(if matches then Succ(ack) else r.phase.expected))
            && sent == if a.Silence? then [] else if FinishesWith(a) then FinBurst() else [Ack(ack)]
  {
  }

  /** What `finalizeRecv` has sent after `k` receives, none of which has ended it. */
  predicate Lingered(es: seq<Event>, k: nat, n: Uint16, wasClosing: bool, isClosing: bool,
                     before: seq<Packet>, outbox: seq<Packet>)
  {
    var heard := ClassifyAll(es);
    var stop := FirstStop(heard);
    && k <= |es|
    && (wasClosing ==> isClosing && outbox == before)
    && (!isClosing ==> k <= stop && outbox == before + Repeated(Packet(n, 1, []), k))
    && (!wasClosing && isClosing ==>
          && stop < k && FinishesWith(heard[stop]) && !GivesUp(heard[stop])
          && outbox == before + Repeated(Packet(n, 1, []), stop) + FinBurst())
  }

  /** One receive that does not end the lingering. */
  lemma {:induction false} LingersOn(es: seq<Event>, k: nat, n: Uint16, wasClosing: bool, isClosing: bool,
                                     before: seq<Packet>, outbox: seq<Packet>)
    requires Lingered(es, k, n, wasClosing, isClosing, before, outbox) && k < |es|
    requires !isClosing ==> !GivesUp(Classify(es[k]))
    ensures var fin := !isClosing && FinishesWith(Classify(es[k]));
            var sent := if fin then outbox + FinBurst() else if isClosing then outbox else outbox + [Packet(n, 1, [])];
            Lingered(es, k + 1, n, wasClosing, isClosing || fin, before, sent)
  {
    if !isClosing {
      var heard := ClassifyAll(es);
      assert heard[k] == Classify(es[k]);
      assert k < FirstStop(heard) || k == FirstStop(heard);
      assert before + Repeated(Packet(n, 1, []), k + 1) == before + Repeated(Packet(n, 1, []), k) + [Packet(n, 1, [])];
    }
  }

  /** What `finalizeRecv` has heard and sent when it stops: by its end, or because no more is known to arrive. */
  predicate LingeredOut(es: seq<Event>, inbox: seq<Event>, n: Uint16, stalled: bool,
                        before: seq<Packet>, outbox: seq<Packet>)
  {
    var heard := ClassifyAll(es);
    var stop := FirstStop(heard);
    && outbox == before + Repeated(Packet(n, 1, []), stop)
                 + (if stop < |heard| && FinishesWith(heard[stop]) then FinBurst() else [])
    && (stalled <==> stop == |heard| || !GivesUp(heard[stop]))
    && (!stalled ==> inbox == es[stop + 1..])
  }

  /** All receives used up: the run of the receiver has come to the same. */
  lemma {:induction false} RunOfLingering(r: Receiver, es: seq<Event>, isClosing: bool, outbox: seq<Packet>,
                                          before: seq<Packet>)
    requires r.phase.Linger? && Lingered(es, |es|, r.phase.ack, r.closing, isClosing, before, outbox)
    ensures RunRecv(r, ClassifyAll(es), before) == RecvRun(r.(closing := isClosing), outbox, ClassifyAll([]))
    ensures !r.closing ==> LingeredOut(es, [], r.phase.ack, true, before, outbox)
  {
    if r.closing {
      LingeringOnAClosedSocketNeverEnds(r, ClassifyAll(es), before);
    } else {
      BurstInPlain();
      LingeringInPlain(r, ClassifyAll(es), before);
      assert outbox + [] == outbox;
    }
  }

  /** A receive that ends the lingering. */
  lemma {:induction false} RunOfStop(r: Receiver, es: seq<Event>, k: nat, before: seq<Packet>, sent: seq<Packet>,
                                     isClosing: bool, outbox: seq<Packet>, inbox: seq<Event>)
    requires r.phase.Linger? && Lingered(es, k, r.phase.ack, r.closing, false, before, sent)
    requires k < |es| && GivesUp(Classify(es[k])) && isClosing == FinishesWith(Classify(es[k]))
    requires outbox == (if isClosing then sent + FinBurst() else sent) && inbox == es[k..][1..]
    ensures RunRecv(r, ClassifyAll(es), before)
            == RunRecv(EndPass(r.(closing := isClosing)), ClassifyAll(inbox), outbox)
    ensures LingeredOut(es, inbox, r.phase.ack, false, before, outbox)
  {
    var heard := ClassifyAll(es);
    assert heard[k] == Classify(es[k]);
    assert inbox == es[k + 1..] && heard[k + 1..] == ClassifyAll(es[k + 1..]);
    BurstInPlain();
    LingeringInPlain(r, heard, before);
    assert sent + [] == sent;
  }

  lemma {:induction false} EndPassForgets(r: Receiver, p: Phase)
    ensures EndPass(r.(phase := p)) == EndPass(r)
  {
  }

  lemma {:induction false} LeftOfLeft(a: seq<Event>, b: seq<Event>, c: seq<Event>)
    requires LeftOf(a, b) && LeftOf(b, c)
    ensures LeftOf(a, c)
  {
  }

  class Socket {
    const buffer: MsgBuffers.MsgBuffer
    var sendSeqnum: Uint16
    var recvSeqnum: Uint16
    var isClosing: bool
    /** What the coming calls of `recvfrom` will report. A method that needs more than there is stops with
        `stalled`: the run is observed up to that point. */
    var inbox: seq<Event>
    /** What has been handed to the open socket. */
    var outbox: seq<Packet>

    // history
    ghost var queued: seq<Packet>
    ghost var passStart: nat

    ghost predicate Valid()
      reads this, buffer
    {
      buffer.Valid()
    }

    /** The receiving half as the step functions see it. */
    ghost function Half(phase: Phase): Receiver
      reads this, buffer
      requires Valid()
    {
      Receiver(phase, isClosing, queued, passStart, buffer.Contents(), buffer.stranded)
    }

    constructor (inbox: seq<Event>)
      ensures Valid() && fresh(buffer)
      ensures Half(Idle) == FRESH_RECEIVER && this.inbox == inbox && outbox == []
      ensures sendSeqnum == 0 && recvSeqnum == 0 && !isClosing
    {
      buffer := new MsgBuffers.MsgBuffer();
      sendSeqnum, recvSeqnum, isClosing := 0, 0, false;
      this.inbox, outbox, queued, passStart := inbox, [], [], 0;
    }

    /** `handed` is what `ucpSendTo` is given. */
    method RawSend(msg: Msg) returns (handed: seq<Byte>)
      requires Constructed(msg)
      requires !(msg.length == 0 && msg.flags == NONE)
      modifies this`outbox
      ensures outbox == if isClosing then old(outbox) else old(outbox) + [View(msg)]
      ensures handed == Serialize(msg)[..12 + msg.length]
    {
      handed := Wire(msg);
      if !isClosing {
        outbox := outbox + [View(msg)];
      }
    }

    /** The burst goes out while the socket is still open. */
    method Close()
      modifies this`isClosing, this`outbox
      ensures isClosing
      ensures outbox == if old(isClosing) then old(outbox) else old(outbox) + Repeated(Packet(666, 4, []), 2048)
    {
      var fin := FlagMsg(666, FIN, Zeros(MAX_DATA_LENGTH));
      for i := 0 to 2048
        invariant isClosing == old(isClosing)
        invariant outbox == if old(isClosing) then old(outbox) else old(outbox) + FinBurst()[..i]
      {
        var _ := RawSend(fin);
        assert FinBurst()[..i + 1] == FinBurst()[..i] + [FIN_PACKET];
      }
      assert FinBurst()[..2048] == FinBurst() by {
        BurstInPlain();
      }
      isClosing := true;
    }

    /** `result` is 0 for a timeout, 1 for another error (`out` keeps what it held), else a size. */
    method RawRecv(prev: Msg) returns (stalled: bool, result: nat, out: Msg)
      modifies this`isClosing, this`outbox, this`inbox
      ensures stalled <==> old(inbox) == []
      ensures stalled ==> inbox == old(inbox) && isClosing == old(isClosing) && outbox == old(outbox)
      ensures !stalled ==>
                var a := if old(isClosing) then Junk(false) else Classify(old(inbox)[0]);
                && inbox == old(inbox)[1..]
                && isClosing == (old(isClosing) || FinishesWith(a))
                && outbox == (if FinishesWith(a) then old(outbox) + FinBurst() else old(outbox))
                && (result == 0 <==> a.Silence?)
                && (a.Good? <==> Message.Valid(out) && result == TotalLength(out))
                && (a.Good? ==> View(out) == a.packet)
                && (a.Junk? ==> (result == 1 && out == prev && !a.opens) || OpensTransfer(out) == a.opens)
      ensures !stalled && !old(isClosing) ==>
                var e := old(inbox)[0];
                result == 0 <==> e == Timeout || (e.Datagram? && e.bytes == [] && e.errnoIsAgain)
    {
      stalled, result, out := inbox == [], 0, prev;
      if stalled {
        return;
      }
      var event := inbox[0];
      inbox := inbox[1..];
      if isClosing {
        result := 1;
        return;
      }
      match event
      case Timeout =>
      case Failure => result := 1;
      case Datagram(bytes, errnoIsAgain) =>
        var w := Received(bytes);
        if w == [] {
          result := if errnoIsAgain then 0 else 1;
        } else {
          out := Decoded(w);
          result := |w|;
          if Message.Valid(out) && result == TotalLength(out) {
            if View(out).IsFin() {
              Close();
            }
          }
        }
    }

    method LowRecv(prev: Msg) returns (stalled: bool, ok: bool, out: Msg)
      requires !isClosing
      modifies this`isClosing, this`outbox, this`inbox
      ensures stalled <==> old(inbox) == []
      ensures stalled ==> inbox == old(inbox) && !isClosing && outbox == old(outbox)
      ensures !stalled ==>
                var a := Classify(old(inbox)[0]);
                && inbox == old(inbox)[1..]
                && isClosing == FinishesWith(a)
                && outbox == (if FinishesWith(a) then old(outbox) + FinBurst() else old(outbox))
                && ok == a.Good?
                && (ok ==> Message.Valid(out) && View(out) == a.packet)
    {
      var result;
      stalled, result, out := RawRecv(prev);
      ok := Message.Valid(out) && result == TotalLength(out);
    }

    method AckSend(msg: Msg) returns (stalled: bool)
      requires Constructed(msg) && !(msg.length == 0 && msg.flags == NONE)
      requires !isClosing
      modifies this`isClosing, this`outbox, this`inbox
      ensures LeftOf(inbox, old(inbox))
      ensures AckRun(!stalled && !isClosing, isClosing, outbox, ClassifyAll(inbox))
              == RunAcksend(View(msg), ClassifyAll(old(inbox)), old(outbox))
      ensures stalled ==> !isClosing
    {
      while true
        invariant !isClosing && LeftOf(inbox, old(inbox))
        invariant RunAcksend(View(msg), ClassifyAll(inbox), outbox)
                  == RunAcksend(View(msg), ClassifyAll(old(inbox)), old(outbox))
        decreases |inbox|
      {
        var _ := RawSend(msg);
        var response := DefaultMsg();
        var ok;
        if inbox != [] {
          NextEvent(inbox, old(inbox));
        }
        stalled, ok, response := LowRecv(response);
        if stalled || (ok && response.seqnum == msg.seqnum) || isClosing {
          return;
        }
      }
    }

    /** Returns `|data|` in any case, also when a FIN has stopped the sending. */
    method Send(data: seq<Byte>) returns (stalled: bool, ret: nat)
      modifies this`sendSeqnum, this`isClosing, this`outbox, this`inbox
      ensures ret == |data| && LeftOf(inbox, old(inbox))
      ensures old(isClosing) ==>
                isClosing && inbox == old(inbox) && outbox == old(outbox) && sendSeqnum == 0 && !stalled
      ensures !old(isClosing) ==>
                var run := RunSend(PacketsOf(data), 0, ClassifyAll(old(inbox)), old(outbox));
                var last := FragmentCount(data);
                && run == SendRun(run.pos, isClosing, outbox, ClassifyAll(inbox))
                && (stalled <==> run.pos <= last && !isClosing)
                && sendSeqnum == Number(if last <= run.pos then last else if isClosing then run.pos + 1 else run.pos)
    {
      ret := |data|;
      sendSeqnum := 0;
      ghost var packets := PacketsOf(data);
      ghost var run := if isClosing then SendRun(0, true, outbox, ClassifyAll(inbox))
                       else RunSend(packets, 0, ClassifyAll(inbox), outbox);
      ghost var i: nat := 0;
      stalled := false;
      var processedSize := 0;
      while processedSize < |data| && !isClosing
        invariant processedSize == i * MAX_DATA_LENGTH && i <= FragmentCount(data)
        invariant LeftOf(inbox, old(inbox)) && sendSeqnum == Number(i)
        invariant !isClosing ==> !old(isClosing) && RunSend(packets, i, ClassifyAll(inbox), outbox) == run
        invariant isClosing && !old(isClosing) ==> 0 < i && run == SendRun(i - 1, true, outbox, ClassifyAll(inbox))
        invariant old(isClosing) ==> i == 0 && inbox == old(inbox) && outbox == old(outbox) && isClosing
        decreases |data| - processedSize
      {
        stalled := SendFragment(data, processedSize, i);
        if stalled {
          return;
        }
        sendSeqnum := Succ(sendSeqnum);
        processedSize := processedSize + MAX_DATA_LENGTH;
        i := i + 1;
      }
      if !isClosing {
        var msg := FlagMsg(sendSeqnum, EOS, Zeros(MAX_DATA_LENGTH));
        assert View(msg) == packets[i];
        stalled := AckSend(msg);
      }
    }

    /** The body of the loop of `Send`: builds fragment `i` and sees it acknowledged. */
    method SendFragment(data: seq<Byte>, processedSize: nat, ghost i: nat) returns (stalled: bool)
      requires processedSize == i * MAX_DATA_LENGTH < |data| && sendSeqnum == Number(i)
      requires !isClosing
      modifies this`isClosing, this`outbox, this`inbox
      ensures i < FragmentCount(data) && LeftOf(inbox, old(inbox))
      ensures stalled ==> !isClosing
      ensures RunSend(PacketsOf(data), i, ClassifyAll(old(inbox)), old(outbox))
              == if stalled || isClosing then SendRun(i, isClosing, outbox, ClassifyAll(inbox))
                 else RunSend(PacketsOf(data), i + 1, ClassifyAll(inbox), outbox)
    {
      var length := if |data| - processedSize < MAX_DATA_LENGTH then |data| - processedSize else MAX_DATA_LENGTH;
      var piece := data[processedSize..processedSize + length];
      var msg := DataMsg(sendSeqnum, piece, Zeros(MAX_DATA_LENGTH - |piece|));
      assert PacketsOf(data)[i] == DataPacket(data, i) == View(msg);
      stalled := AckSend(msg);
    }

    /** Repeats the last acknowledgement until a timeout or the first packet of another transfer, which it drops.
        `response` keeps the message of an earlier turn when a receive fails. */
    method FinalizeRecv(ack: Msg) returns (stalled: bool)
      requires Valid() && IsAck(ack)
      modifies this`isClosing, this`outbox, this`inbox
      ensures Valid() && LeftOf(inbox, old(inbox))
      ensures RunRecv(old(Half(Linger(ack.seqnum))), ClassifyAll(old(inbox)), old(outbox))
              == if stalled then RecvRun(Half(Linger(ack.seqnum)), outbox, ClassifyAll(inbox))
                 else RunRecv(EndPass(Half(Linger(ack.seqnum))), ClassifyAll(inbox), outbox)
      ensures stalled ==> inbox == []
      ensures !old(isClosing) ==> LingeredOut(old(inbox), inbox, ack.seqnum, stalled, old(outbox), outbox)
    {
      var response, over := DefaultMsg(), false;
      ghost var k, es, before, r := 0, inbox, outbox, Half(Linger(ack.seqnum));
      while true
        invariant Half(Linger(ack.seqnum)) == r.(closing := isClosing)
        invariant k <= |es| && inbox == es[k..] && !OpensTransfer(response)
        invariant Lingered(es, k, ack.seqnum, r.closing, isClosing, before, outbox)
        decreases |inbox|
      {
        ghost var closed, sent := isClosing, outbox;
        stalled, over, response := LingerOnce(response, ack);
        if stalled {
          RunOfLingering(r, es, isClosing, outbox, before);
          return;
        }
        if over {
          RunOfStop(r, es, k, before, sent, isClosing, outbox, inbox);
          return;
        }
        LingersOn(es, k, ack.seqnum, r.closing, closed, before, sent);
        k := k + 1;
      }
    }

    /** One turn of that loop. */
    method LingerOnce(prev: Msg, ack: Msg) returns (stalled: bool, over: bool, response: Msg)
      requires IsAck(ack) && !OpensTransfer(prev)
      modifies this`isClosing, this`outbox, this`inbox
      ensures stalled <==> old(inbox) == []
      ensures stalled ==> inbox == old(inbox) && isClosing == old(isClosing) && outbox == old(outbox)
      ensures !stalled ==>
                var a := Classify(old(inbox)[0]);
                var fin := !old(isClosing) && FinishesWith(a);
                && inbox == old(inbox)[1..] && isClosing == (old(isClosing) || fin)
                && over == (!old(isClosing) && GivesUp(a)) && (!over ==> !OpensTransfer(response))
                && outbox == (if fin then old(outbox) + FinBurst()
                              else if old(isClosing) || over then old(outbox)
                              else old(outbox) + [Packet(ack.seqnum, 1, [])])
    {
      var result;
      stalled, result, response := RawRecv(prev);
      over := !stalled && (result == 0 || OpensTransfer(response));
      if !stalled && !over {
        var _ := RawSend(ack);
      }
    }

    method Recv(data: array<Byte>, maxLength: nat) returns (stalled: bool, n: nat)
      requires Valid() && maxLength <= data.Length
      modifies this, buffer, data
      ensures Valid() && LeftOf(inbox, old(inbox))
      ensures var run := RunRecv(StartPass(old(Half(Idle))), ClassifyAll(old(inbox)), old(outbox));
              && outbox == run.sent && ClassifyAll(inbox) == run.rest
              && (stalled <==> run.end.Listening())
              && (if stalled then Half(run.end.phase) == run.end
                  else Half(Idle) == Deliver(run.end, maxLength).0)
              && n <= maxLength
              && data[..n] == (if stalled then [] else Deliver(run.end, maxLength).1)
      ensures forall k | n <= k < data.Length :: data[k] == old(data[k])
    {
      n := 0;
      ghost var run, phase := RunRecv(StartPass(Half(Idle)), ClassifyAll(inbox), outbox), Idle;
      var again := true;
      while again
        invariant Valid() && LeftOf(inbox, old(inbox)) && data[..] == old(data[..])
        invariant RunRecv(if again then StartPass(Half(Idle)) else Half(Ready), ClassifyAll(inbox), outbox) == run
        invariant !again ==> isClosing || !buffer.Empty()
        decreases |inbox|, again
      {
        ghost var left := inbox;
        stalled, phase := ReceivePass();
        LeftOfLeft(inbox, left, old(inbox));
        if stalled {
          return;
        }
        again := buffer.Empty() && !isClosing;
      }
      stalled := false;
      if !(isClosing && buffer.Empty()) {
        n := buffer.Read(data, maxLength);
      }
    }

    /** One turn of the outer loop of `Recv`. */
    method ReceivePass() returns (stalled: bool, ghost phase: Phase)
      requires Valid()
      modifies this, buffer
      ensures Valid() && LeftOf(inbox, old(inbox))
      ensures !stalled && !old(isClosing) ==> |inbox| < |old(inbox)|
      ensures stalled ==> inbox == [] && (phase.Pass? || phase.Linger?)
      ensures RunRecv(StartPass(old(Half(Idle))), ClassifyAll(old(inbox)), old(outbox))
              == if stalled then RecvRun(Half(phase), outbox, ClassifyAll(inbox))
                 else RunRecv(EndPass(Half(Idle)), ClassifyAll(inbox), outbox)
    {
      ghost var run := RunRecv(StartPass(Half(Idle)), ClassifyAll(inbox), outbox);
      recvSeqnum := 0;
      if !isClosing {
        passStart := |queued|;
      }
      stalled, phase := false, Idle;
      while !isClosing
        invariant Valid() && LeftOf(inbox, old(inbox))
        invariant isClosing ==> old(isClosing) || |inbox| < |old(inbox)|
        invariant RunRecv(Half(if isClosing then Ready else Pass(recvSeqnum)), ClassifyAll(inbox), outbox) == run
        decreases |inbox|, !isClosing
      {
        if inbox != [] {
          NextEvent(inbox, old(inbox));
        }
        var eos, ack;
        stalled, eos, ack := HearOnce();
        if stalled {
          return true, Pass(recvSeqnum);
        }
        if eos {
          ghost var left := inbox;
          stalled := FinalizeRecv(ack);
          LeftOfLeft(inbox, left, old(inbox));
          EndPassForgets(Half(Idle), Linger(ack.seqnum));
          return stalled, Linger(ack.seqnum);
        }
      }
    }

    /** The body of the inner loop of `Recv`, up to the test for an end of send. */
    method HearOnce() returns (stalled: bool, eos: bool, ack: Msg)
      requires Valid() && !isClosing
      modifies this`isClosing, this`outbox, this`inbox, this`queued, this`recvSeqnum, buffer
      ensures Valid() && IsAck(ack)
      ensures stalled <==> old(inbox) == []
      ensures stalled ==> inbox == [] && !isClosing && outbox == old(outbox) && recvSeqnum == old(recvSeqnum)
                          && Half(Idle) == old(Half(Idle))
      ensures !stalled ==>
                var turn := Hear(old(Half(Pass(recvSeqnum))), Classify(old(inbox)[0]));
                && inbox == old(inbox)[1..]
                && outbox == old(outbox) + turn.1
                && turn.0.(phase := Idle) == Half(Idle)
                && turn.0.phase == if eos then Linger(ack.seqnum) else if isClosing then Ready else Pass(recvSeqnum)
    {
      var response := DefaultMsg();
      ack := FlagMsg(Pred(recvSeqnum), ACK, Zeros(MAX_DATA_LENGTH));
      var bytes;
      eos := false;
      stalled, bytes, response := RawRecv(response);
      if stalled || bytes == 0 {
        return;
      }
      ghost var a := Classify(old(inbox)[0]);
      TurnInPass(old(Half(Pass(recvSeqnum))), a);
      eos, ack := Respond(response, bytes, ack, a);
    }

    /** What arrived as `a` is queued and its own number acknowledged, if it was expected. */
    method Respond(response: Msg, bytes: nat, prev: Msg, ghost a: Arrival) returns (eos: bool, ack: Msg)
      requires Valid() && IsAck(prev)
      requires a.Good? <==> Message.Valid(response) && bytes == TotalLength(response)
      requires a.Good? ==> a.packet == View(response)
      modifies this`queued, this`recvSeqnum, this`outbox, buffer
      ensures var matches := a.Good? && a.packet.seqnum == old(recvSeqnum);
              && Valid()
              && Half(Idle) == (if matches then Queue(old(Half(Idle)), a.packet) else old(Half(Idle)))
              && recvSeqnum == (if matches then Succ(old(recvSeqnum)) else old(recvSeqnum))
              && IsAck(ack) && ack.seqnum == (if matches then old(recvSeqnum) else prev.seqnum)
      ensures outbox == if isClosing then old(outbox) else old(outbox) + [Ack(ack.seqnum)]
      ensures eos == (a.Good? && a.packet.IsEos())
    {
      var isValid := Message.Valid(response) && bytes == TotalLength(response);
      ack := prev;
      if isValid && response.seqnum == recvSeqnum {
        buffer.QueueMessage(View(response));
        queued := queued + [View(response)];
        ack := ack.(seqnum := recvSeqnum);
        recvSeqnum := Succ(recvSeqnum);
      }
      if !isClosing {
        var _ := RawSend(ack);
      }
      eos := isValid && View(response).IsEos();
    }
  }
}
