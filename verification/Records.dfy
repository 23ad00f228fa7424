/** What one pass of `recv` has queued: part of a send, and in the end all of it. */
module Records {
  import opened Message
  import opened Endpoint
  import opened Packets
  import opened Network
  import opened Safety
  import Repeats
  import Sequences

  /** The last packets before `q`, from a start of send on, with no other start among them. */
  predicate IsTail(ps: seq<Packet>, q: nat, part: seq<Packet>) {
    && |part| <= q <= |ps|
    && part == ps[q - |part|..q]
    && StartsAt(ps, q - |part|)
    && forall i | q - |part| < i < q :: !StartsAt(ps, i)
  }

  /** In a pass, part of a send. Behind one, nothing, or a whole send, or a zero end once more. */
  predicate PartOk(ps: seq<Packet>, q: nat, phase: Phase, part: seq<Packet>) {
    if phase.Pass? then
      IsTail(ps, q, part) && (part != [] ==> !StartsAt(ps, q))
    else
      part == [] || part == [Repeats.ZERO_END] || (IsTail(ps, q, part) && StartsAt(ps, q))
  }

  predicate RecordOk(ps: seq<Packet>, q: nat, r: Receiver) {
    r.passStart <= |r.queued| && (!r.closing ==> PartOk(ps, q, r.phase, r.queued[r.passStart..]))
  }

  lemma {:induction false} StartedPassKeeps(ps: seq<Packet>, q: nat, r: Receiver)
    requires q <= |ps| && RecordOk(ps, q, r) && (!r.closing ==> StartsAt(ps, q))
    ensures RecordOk(ps, q, StartPass(r))
  {
    assert r.queued[|r.queued|..] == [] == ps[q..q];
  }

  /** The next packet of a send goes to the end of the part that was there. */
  lemma {:induction false} PartGrows(ps: seq<Packet>, q: nat, part: seq<Packet>)
    requires q < |ps| && IsTail(ps, q, part) && (part != [] ==> !StartsAt(ps, q))
    ensures IsTail(ps, q + 1, part + [ps[q]])
  {
    Sequences.SliceGrows(ps, q - |part|, q);
  }

  /** Any other packet was preceded by nothing. */
  lemma {:induction false} PartStarts(ps: seq<Packet>, q: nat, q': nat, part: seq<Packet>)
    requires q <= |ps| && MovesTo(ps, q, q') && q' != q + 1 && (part != [] ==> !StartsAt(ps, q))
    ensures part == [] && (ps[q' - 1] == Repeats.ZERO_END || IsTail(ps, q', [ps[q' - 1]]))
  {
    if q' != q {
      assert ps[q' - 2] == Repeats.ZERO_END;
      Sequences.SliceGrows(ps, q' - 1, q' - 1);
    }
  }

  lemma {:induction false} TurnOfAPass(r: Receiver, pk: Packet)
    requires r.phase.Pass? && !r.closing
    ensures var r' := HearInPass(r, pk).0;
            && r'.passStart == r.passStart && |r.queued| <= |r'.queued|
            && (r'.closing || r'.phase.Pass? || r'.phase.Linger?)
            && (r'.phase.Pass? && r'.queued != r.queued ==> !r'.queued[|r'.queued| - 1].IsEos())
  {
  }

  /** One more packet in a pass, which goes on unless the packet is an end. */
  lemma {:induction false} PartKeeps(ps: seq<Packet>, q: nat, q': nat, phase: Phase, part: seq<Packet>)
    requires q <= |ps| && MovesTo(ps, q, q') && IsTail(ps, q, part) && (part != [] ==> !StartsAt(ps, q))
    requires if phase.Pass? then !ps[q' - 1].IsEos() else StartsAt(ps, q')
    ensures PartOk(ps, q', phase, part + [ps[q' - 1]])
  {
    if q' == q + 1 {
      PartGrows(ps, q, part);
    } else {
      PartStarts(ps, q, q', part);
      assert part + [ps[q' - 1]] == [ps[q' - 1]];
    }
  }

  lemma {:induction false} PassKeepsRecord(ps: seq<Packet>, q: nat, q': nat, r: Receiver, r': Receiver)
    requires q <= |ps| && q' <= |ps| && PhaseOk(ps, q, r) && RecordOk(ps, q, r) && r.phase.Pass?
    requires r'.passStart == r.passStart && |r.queued| <= |r'.queued|
    requires r'.closing || r'.phase.Pass? || r'.phase.Linger?
    requires r'.phase.Pass? && r'.queued != r.queued ==> !r'.queued[|r'.queued| - 1].IsEos()
    requires QueuesNext(ps, r, r', q, q') && PhaseOk(ps, q', r')
    ensures RecordOk(ps, q', r')
  {
    if !r'.closing && r'.queued != r.queued {
      var part := r.queued[r.passStart..];
      PartKeeps(ps, q, q', r'.phase, part);
      assert r'.queued[r.passStart..] == part + [ps[q' - 1]];
    }
  }

  lemma {:induction false} EndPassKeepsRecord(ps: seq<Packet>, q: nat, r: Receiver)
    requires q <= |ps| && RecordOk(ps, q, r) && !r.phase.Pass? && (!r.closing ==> StartsAt(ps, q))
    ensures RecordOk(ps, q, EndPass(r))
  {
    if r.NothingLeft() && !r.closing {
      StartedPassKeeps(ps, q, r);
    }
  }

  lemma {:induction false} HearKeepsRecord(ps: seq<Packet>, q: nat, q': nat, r: Receiver, a: Arrival)
    requires q <= |ps| && q' <= |ps| && PhaseOk(ps, q, r) && RecordOk(ps, q, r) && r.Listening()
    requires QueuesNext(ps, r, Hear(r, a).0, q, q') && PhaseOk(ps, q', Hear(r, a).0)
    ensures RecordOk(ps, q', Hear(r, a).0)
  {
    if r.phase.Linger? {
      EndPassKeepsRecord(ps, q, r);
    } else if a.Good? {
      TurnOfAPass(r, a.packet);
      PassKeepsRecord(ps, q, q', r, Hear(r, a).0);
    }
  }

  /** A step that queues nothing and starts no pass. */
  lemma {:induction false} ElseKeepsRecord(ps: seq<Packet>, q: nat, q': nat, r: Receiver, r': Receiver)
    requires q <= |ps| && RecordOk(ps, q, r) && QueuesNext(ps, r, r', q, q')
    requires r' == r || r' == r.(closing := true)
             || (r.phase.Ready? && r' == r.(phase := Idle, unread := r'.unread))
    ensures RecordOk(ps, q', r')
  {
  }

  /** What a step does to the receiver alone. */
  lemma {:induction false} ReceiverKeepsRecord(ps: seq<Packet>, w: World, q: nat, q': nat, l: Step)
    requires q <= |ps| && q' <= |ps| && PhaseOk(ps, q, w.r) && RecordOk(ps, q, w.r)
    requires QueuesNext(ps, w.r, Apply(ps, w, l).r, q, q') && PhaseOk(ps, q', Apply(ps, w, l).r)
    ensures RecordOk(ps, q', Apply(ps, w, l).r)
  {
    if l.Idles? && Enabled(ps, w, l) {
      HearKeepsRecord(ps, q, q', w.r, l.a);
    } else if l.HearPacket? && Enabled(ps, w, l) {
      HearKeepsRecord(ps, q, q', w.r, w.fwd[0]);
    } else if l.Call? && Enabled(ps, w, l) {
      StartedPassKeeps(ps, q, w.r);
    } else {
      ElseKeepsRecord(ps, q, q', w.r, Apply(ps, w, l).r);
    }
  }

  lemma {:induction false} StepKeepsRecord(ps: seq<Packet>, w: World, q: nat, l: Step) returns (q': nat)
    requires WellShaped(ps) && Inv(ps, w, q) && RecordOk(ps, q, w.r)
    ensures Inv(ps, Apply(ps, w, l), q') && RecordOk(ps, q', Apply(ps, w, l).r)
  {
    q' := StepKeeps(ps, w, q, l);
    ReceiverKeepsRecord(ps, w, q, q', l);
  }

  lemma {:induction false} RunKeepsRecord(ps: seq<Packet>, w: World, q: nat, ls: seq<Step>) returns (q': nat)
    requires WellShaped(ps) && Inv(ps, w, q) && RecordOk(ps, q, w.r)
    ensures Inv(ps, Run(ps, w, ls), q') && RecordOk(ps, q', Run(ps, w, ls).r)
    decreases |ls|
  {
    q' := q;
    if ls != [] {
      q' := StepKeepsRecord(ps, w, q, ls[0]);
      q' := RunKeepsRecord(ps, Apply(ps, w, ls[0]), q', ls[1..]);
    }
  }
}
