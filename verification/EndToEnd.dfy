/** The bytes that successive calls of `recv` return, against the bytes that were sent. */
module EndToEnd {
  import opened Message
  import opened Stream
  import opened Endpoint
  import opened Packets
  import opened Network
  import opened Delivery
  import opened Draining
  import opened Marks
  import opened Repeats
  import MsgBuffers
  import Safety

  // ---------------------------------------------------------------- the books over a run

  /** The reads of a run add up, nothing is stranded by messages without stranded bytes, and the receiver does
      not come to a read of an empty buffer. */
  ghost predicate Books(w: World, at: nat) {
    && Tally(w.r.queued, w.r.unread, w.outs, at)
    && ((forall i | 0 <= i < |w.r.queued| :: MsgBuffers.Stranded(w.r.queued[i]) == 0) ==> w.r.stranded == 0)
    && (w.r.phase.Ready? && !w.r.closing ==> !w.r.NothingLeft())
  }

  /** A step of the receiver queues one message or none. */
  predicate QueuesAtMostOne(r: Receiver, r': Receiver) {
    || (r'.queued == r.queued && r'.unread == r.unread && r'.stranded == r.stranded)
    || (r'.queued != [] && var pk := r'.queued[|r'.queued| - 1];
        && r'.queued == r.queued + [pk] && r'.unread == r.unread + FlatOf(pk)
        && r'.stranded == r.stranded + MsgBuffers.Stranded(pk))
  }

  lemma {:induction false} QueueingKeepsBooks(w: World, w': World, at: nat)
    requires Books(w, at) && w'.outs == w.outs && QueuesAtMostOne(w.r, w'.r)
    requires w'.r.phase.Ready? && !w'.r.closing ==> !w'.r.NothingLeft()
    ensures Books(w', at)
  {
    if w'.r.queued != w.r.queued {
      QueueingKeepsTally(w.r.queued, w.r.unread, w.outs, at, w'.r.queued[|w'.r.queued| - 1]);
      if forall i | 0 <= i < |w'.r.queued| :: MsgBuffers.Stranded(w'.r.queued[i]) == 0 {
        assert forall i | 0 <= i < |w.r.queued| :: w.r.queued[i] == w'.r.queued[i];
      }
    }
  }

  lemma {:induction false} HearQueues(r: Receiver, a: Arrival)
    requires r.Listening()
    ensures QueuesAtMostOne(r, Hear(r, a).0)
    ensures var r' := Hear(r, a).0; r'.phase.Ready? && !r'.closing ==> !r'.NothingLeft()
  {
  }

  lemma {:induction false} ReturnKeepsBooks(w: World, at: nat, n: nat) returns (at': nat)
    requires Books(w, at) && w.r.phase.Ready?
    ensures var (r, out) := Deliver(w.r, n); Books(w.(r := r, outs := w.outs + [out]), at')
  {
    at' := at;
    if w.r.closing && w.r.NothingLeft() {
      NothingReadKeepsTally(w.r.queued, w.r.unread, w.outs, at);
    } else {
      at' := ReadingKeepsTally(w.r.queued, w.r.unread, w.outs, at, n);
    }
  }

  lemma {:induction false} StepKeepsBooks(ps: seq<Packet>, w: World, at: nat, l: Step) returns (at': nat)
    requires Books(w, at)
    ensures Books(Apply(ps, w, l), at')
  {
    at' := at;
    var w' := Apply(ps, w, l);
    if Enabled(ps, w, l) {
      match l
      case Return(n) => at' := ReturnKeepsBooks(w, at, n);
      case Idles(a, _) => HearQueues(w.r, a); QueueingKeepsBooks(w, w', at);
      case HearPacket(_) => HearQueues(w.r, w.fwd[0]); QueueingKeepsBooks(w, w', at);
      case _ => QueueingKeepsBooks(w, w', at);
    }
  }

  lemma {:induction false} RunKeepsBooks(ps: seq<Packet>, w: World, at: nat, ls: seq<Step>) returns (at': nat)
    requires Books(w, at)
    ensures Books(Run(ps, w, ls), at')
    decreases |ls|
  {
    at' := at;
    if ls != [] {
      at' := StepKeepsBooks(ps, w, at, ls[0]);
      at' := RunKeepsBooks(ps, Apply(ps, w, ls[0]), at', ls[1..]);
    }
  }

  lemma {:induction false} BooksBalance(w: World, at: nat)
    requires Books(w, at)
    ensures Concat(w.outs) + Text(w.r.unread) == Text(Flatten(w.r.queued))
  {
    TextUpTo(Flatten(w.r.queued), at, |Flatten(w.r.queued)|);
    var f := Flatten(w.r.queued);
    assert f[..|f|] == f && f[at..|f|] == f[at..];
  }

  /** For any packets whatever, after any run: results and unread bytes make up the bytes ever queued. */
  lemma {:induction false} Conservation(ps: seq<Packet>, ls: seq<Step>) returns (at: nat)
    ensures var w := Run(ps, INITIAL, ls);
            Books(w, at) && Concat(w.outs) + Text(w.r.unread) == Text(Flatten(w.r.queued))
  {
    assert Books(INITIAL, 0);
    at := RunKeepsBooks(ps, INITIAL, 0, ls);
    BooksBalance(Run(ps, INITIAL, ls), at);
  }

  // ---------------------------------------------------------------- the sends as one stream

  /** The stream a receiver of everything would see. */
  function Canon(sends: seq<seq<Byte>>): seq<Item> {
    if sends == [] then [] else Octets(sends[0]) + [Mark] + Canon(sends[1..])
  }

  lemma {:induction false} CanonIsFlat(sends: seq<seq<Byte>>)
    ensures Flatten(AllPackets(sends)) == Canon(sends)
  {
    if sends != [] {
      FlattenAppend(PacketsOf(sends[0]), AllPackets(sends[1..]));
      PacketsFlatten(sends[0]);
      CanonIsFlat(sends[1..]);
    }
  }

  lemma {:induction false} TextOfCanon(sends: seq<seq<Byte>>)
    ensures Text(Canon(sends)) == Concat(sends)
  {
    if sends != [] {
      var first := Octets(sends[0]);
      TextOfCanon(sends[1..]);
      TextOfOctets(sends[0]);
      TextAppend(first, [Mark]);
      TextAppend(first + [Mark], Canon(sends[1..]));
      assert Text([Mark]) == [];
    }
  }

  /** The bytes of send `t` begin behind those of the sends before it. */
  function ByteOffset(sends: seq<seq<Byte>>, t: nat): nat
    requires t <= |sends|
  {
    |Concat(sends[..t])|
  }

  lemma {:induction false} ByteOffsetShifts(sends: seq<seq<Byte>>, t: nat)
    requires t < |sends|
    ensures ByteOffset(sends, t + 1) == |sends[0]| + ByteOffset(sends[1..], t)
  {
    assert sends[..t + 1][1..] == sends[1..][..t];
  }

  lemma {:induction false} TextOfCanonPrefix(sends: seq<seq<Byte>>, a: nat)
    requires sends != [] && a <= |Canon(sends)|
    ensures a <= |sends[0]| ==> |Text(Canon(sends)[..a])| == a
    ensures a > |sends[0]| ==>
              |Text(Canon(sends)[..a])| == |sends[0]| + |Text(Canon(sends[1..])[..a - |sends[0]| - 1])|
  {
    var f, first := Canon(sends), Octets(sends[0]);
    if a <= |first| {
      assert f[..a] == Octets(sends[0][..a]);
      TextOfOctets(sends[0][..a]);
    } else {
      var tail := Canon(sends[1..])[..a - |first| - 1];
      assert f[..a] == first + ([Mark] + tail);
      TextOfOctets(sends[0]);
      TextAppend(first, [Mark] + tail);
      TextAppend([Mark], tail);
      assert Text([Mark]) == [];
    }
  }

  /** A stretch of bytes without a mark among them belongs to one send. */
  lemma {:induction false} UnbrokenIsInOneSend(sends: seq<seq<Byte>>, a: nat, b: nat) returns (t: nat)
    requires a < b <= |Canon(sends)| && forall k | a <= k < b :: Canon(sends)[k].Octet?
    ensures t < |sends|
    ensures ByteOffset(sends, t) <= |Text(Canon(sends)[..a])|
    ensures |Text(Canon(sends)[..b])| <= ByteOffset(sends, t + 1)
  {
    var f, n := Canon(sends), |sends[0]|;
    assert f[n] == Mark;
    TextOfCanonPrefix(sends, a);
    TextOfCanonPrefix(sends, b);
    assert sends[..0] == [];
    if a <= n {
      t := 0;
      ByteOffsetShifts(sends, 0);
    } else {
      var g := Canon(sends[1..]);
      assert forall k | n + 1 <= k < |f| :: f[k] == g[k - n - 1];
      assert forall k | a - n - 1 <= k < b - n - 1 :: g[k] == f[k + n + 1];
      t := UnbrokenIsInOneSend(sends[1..], a - n - 1, b - n - 1);
      ByteOffsetShifts(sends, t);
      ByteOffsetShifts(sends, t + 1);
      t := t + 1;
    }
  }

  // ---------------------------------------------------------------- end to end

  lemma {:induction false} PrefixFlattens(ps: seq<Packet>, q: nat)
    requires q <= |ps|
    ensures Flatten(ps[..q]) <= Flatten(ps)
  {
    FlattenAppend(ps[..q], ps[q..]);
    assert ps == ps[..q] + ps[q..];
  }

  lemma {:induction false} FinFlattens(ps: seq<Packet>)
    ensures Flatten(ps + [FIN_PACKET]) == Flatten(ps)
  {
    FlattenAppend(ps, [FIN_PACKET]);
    FlattenOne(FIN_PACKET);
    assert FlatOf(FIN_PACKET) == [];
  }

  /** What the receiver has queued is, but for repeated marks, a prefix of the stream of the sends. */
  lemma {:induction false} QueuedIsPrefixOfCanon(sends: seq<seq<Byte>>, ls: seq<Step>) returns (g: seq<Item>)
    ensures g <= Canon(sends) && Squash(Flatten(After(sends, ls).r.queued)) == Squash(g)
  {
    var q := InvAfter(sends, ls);
    var ps, queued := AllPackets(sends), After(sends, ls).r.queued;
    g := Flatten(ps[..q]);
    CanonIsFlat(sends);
    PrefixFlattens(ps, q);
    FinFlattens(Safety.WithoutFin(queued));
    CollapsedFlattensAlike(Safety.WithoutFin(queued));
    CollapsedFlattensAlike(ps[..q]);
  }

  /** The results of successive calls of `recv`, whatever their sizes and whatever was sent, are the beginning of
      the sent bytes; each lies within the bytes of a single send. */
  lemma {:induction false} ResultsAreTheSentBytes(sends: seq<seq<Byte>>, ls: seq<Step>)
    ensures var outs := After(sends, ls).outs;
            && Concat(outs) <= Concat(sends)
            && forall i | 0 <= i < |outs| && outs[i] != [] ::
                 exists t :: 0 <= t < |sends| && ByteOffset(sends, t) <= Mileage(outs, i)
                             && Mileage(outs, i + 1) <= ByteOffset(sends, t + 1)
  {
    var w := After(sends, ls);
    var f := Flatten(w.r.queued);
    var at := Conservation(AllPackets(sends), ls);
    var g := QueuedIsPrefixOfCanon(sends, ls);
    ResultsArePrefix(sends, f, g);
    forall i | 0 <= i < |w.outs| && w.outs[i] != []
      ensures exists t :: 0 <= t < |sends| && ByteOffset(sends, t) <= Mileage(w.outs, i)
                          && Mileage(w.outs, i + 1) <= ByteOffset(sends, t + 1)
    {
      ResultIsNotEmpty(w.outs, i);
      UnbrokenAlike(f, g, Mileage(w.outs, i), Mileage(w.outs, i + 1));
      var t := ResultIsInOneSend(sends, g, w.outs, i);
    }
  }

  /** The bytes of the queue, if that is the packets before `q` but for repeated zero ends. */
  lemma {:induction false} TextOfQueue(ps: seq<Packet>, q: nat, queued: seq<Packet>)
    requires q <= |ps| && Collapse(Safety.WithoutFin(queued)) == Collapse(ps[..q])
    requires queued == Safety.WithoutFin(queued) || queued == Safety.WithoutFin(queued) + [FIN_PACKET]
    ensures Text(Flatten(queued)) == Text(Flatten(ps[..q]))
  {
    FinFlattens(Safety.WithoutFin(queued));
    CollapsedFlattensAlike(Safety.WithoutFin(queued));
    CollapsedFlattensAlike(ps[..q]);
    SquashKeepsText(Flatten(queued));
    SquashKeepsText(Flatten(ps[..q]));
  }

  lemma {:induction false} TextOfFirstSends(sends: seq<seq<Byte>>, t: nat, q: nat)
    requires t <= |sends| && OffsetOf(sends, t) <= q <= |AllPackets(sends)|
    ensures Concat(sends[..t]) <= Text(Flatten(AllPackets(sends)[..q]))
  {
    var ps, front := AllPackets(sends), AllPackets(sends[..t]);
    FirstSendsLieInFront(sends, t);
    CanonIsFlat(sends[..t]);
    TextOfCanon(sends[..t]);
    var rest := ps[OffsetOf(sends, t)..q];
    assert ps[..q] == front + rest;
    FlattenAppend(front, rest);
    TextAppend(Flatten(front), Flatten(rest));
  }

  /** When the first `t` sends have returned without a FIN, their bytes have been handed out or lie in the buffer,
      whatever was sent: nothing that `send` has returned for is lost. */
  lemma {:induction false} ReturnedMeansReadOrUnread(sends: seq<seq<Byte>>, ls: seq<Step>, t: nat)
    requires t <= |sends| && OffsetOf(sends, t) <= After(sends, ls).s.pos
    ensures Concat(sends[..t]) <= Concat(After(sends, ls).outs) + Text(After(sends, ls).r.unread)
  {
    var q := ReturnedMeansQueued(sends, ls, t);
    var at := Conservation(AllPackets(sends), ls);
    var q0 := InvAfter(sends, ls);
    TextOfQueue(AllPackets(sends), q, After(sends, ls).r.queued);
    TextOfFirstSends(sends, t, q);
  }

  lemma {:induction false} ResultsArePrefix(sends: seq<seq<Byte>>, f: seq<Item>, g: seq<Item>)
    requires g <= Canon(sends) && Squash(f) == Squash(g)
    ensures Text(f) <= Concat(sends)
  {
    SquashKeepsText(f);
    SquashKeepsText(g);
    TextAppend(g, Canon(sends)[|g|..]);
    assert Canon(sends) == g + Canon(sends)[|g|..];
    TextOfCanon(sends);
  }

  lemma {:induction false} ResultIsNotEmpty(outs: seq<seq<Byte>>, i: nat)
    requires i < |outs| && outs[i] != []
    ensures Mileage(outs, i) < Mileage(outs, i + 1)
  {
    assert outs[..i + 1] == outs[..i] + [outs[i]];
    ConcatOneMore(outs[..i], outs[i]);
  }

  lemma {:induction false} ResultIsInOneSend(sends: seq<seq<Byte>>, f: seq<Item>, outs: seq<seq<Byte>>, i: nat)
    returns (t: nat)
    requires f <= Canon(sends) && i < |outs| && outs[i] != []
    requires Unbroken(f, Mileage(outs, i), Mileage(outs, i + 1))
    ensures t < |sends| && ByteOffset(sends, t) <= Mileage(outs, i)
    ensures Mileage(outs, i + 1) <= ByteOffset(sends, t + 1)
  {
    var lo, hi := Mileage(outs, i), Mileage(outs, i + 1);
    ResultIsNotEmpty(outs, i);
    var a: nat, b: nat :| a <= b <= |f| && |Text(f[..a])| == lo && |Text(f[..b])| == hi
                          && forall k | a <= k < b :: f[k].Octet?;
    var c := Canon(sends);
    assert c[..a] == f[..a] && c[..b] == f[..b];
    assert forall k | a <= k < b :: c[k] == f[k];
    t := UnbrokenIsInOneSend(sends, a, b);
  }

  /** A call of `recv` for a positive size comes back empty exactly if the channel is closing and everything
      has been read; in particular `read` is never asked for bytes that are not there. */
  lemma {:induction false} EmptyResultMeansClosed(sends: seq<seq<Byte>>, ls: seq<Step>, n: nat)
    requires 0 < n && After(sends, ls).r.phase.Ready?
    ensures var r := After(sends, ls).r;
            && (Deliver(r, n).1 == [] <==> r.closing && Text(r.unread) == [])
            && (r.NothingLeft() <==> Text(r.unread) == [])
            && (r.closing || !r.NothingLeft())
  {
    var r := After(sends, ls).r;
    var at := Conservation(AllPackets(sends), ls);
    NothingIsStranded(sends, ls);
    ReadConserves(r.unread, n);
  }
}
