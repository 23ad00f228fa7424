/** Any interleaving of queueing messages and reading: what the reads return. */
module Draining {
  import opened Message
  import opened Stream

  /** The bytes number `lo` to `hi` of the stream `f` have no mark among them. */
  ghost predicate Unbroken(f: seq<Item>, lo: nat, hi: nat) {
    exists a: nat, b: nat :: a <= b <= |f| && |Text(f[..a])| == lo && |Text(f[..b])| == hi
                             && forall k | a <= k < b :: f[k].Octet?
  }

  /** Where the bytes of the first `i` results end. */
  function Mileage(outs: seq<seq<Byte>>, i: nat): nat
    requires i <= |outs|
  {
    |Concat(outs[..i])|
  }

  lemma {:induction false} UnbrokenGrows(f: seq<Item>, x: seq<Item>, lo: nat, hi: nat)
    requires Unbroken(f, lo, hi)
    ensures Unbroken(f + x, lo, hi)
  {
    var a: nat, b: nat :| a <= b <= |f| && |Text(f[..a])| == lo && |Text(f[..b])| == hi
                          && forall k | a <= k < b :: f[k].Octet?;
    assert (f + x)[..a] == f[..a] && (f + x)[..b] == f[..b];
  }

  lemma {:induction false} TextUpTo(f: seq<Item>, a: nat, b: nat)
    requires a <= b <= |f|
    ensures Text(f[..b]) == Text(f[..a]) + Text(f[a..b])
  {
    assert f[..b] == f[..a] + f[a..b];
    TextAppend(f[..a], f[a..b]);
  }

  lemma {:induction false} ReadInPlace(f: seq<Item>, at: nat, n: nat) returns (a: nat, next: nat)
    requires at <= |f|
    ensures var (out, rest) := FlatRead(f[at..], n);
            && at <= a <= a + |out| <= next <= |f|
            && (forall k | at <= k < a :: f[k].Mark?)
            && f[a..a + |out|] == Octets(out)
            && (next == a + |out| || (next == a + |out| + 1 && f[a + |out|].Mark?))
            && rest == f[next..]
  {
    var s := f[at..];
    var (out, rest) := FlatRead(s, n);
    var i := FlatReadReads(s, n);
    a := at + i;
    next := |f| - |rest|;
    assert f[a..a + |out|] == s[i..i + |out|];
    assert forall k | at <= k < a :: f[k] == s[k - at];
    assert forall k | a + |out| <= k < |f| :: f[k] == s[k - at];
  }

  /** Reading `out` from the stream behind item `at`: what was read lies between two marks. */
  lemma {:induction false} ReadIsUnbroken(f: seq<Item>, at: nat, n: nat) returns (next: nat)
    requires at <= |f|
    ensures var (out, rest) := FlatRead(f[at..], n);
            && next <= |f| && rest == f[next..]
            && Text(f[..next]) == Text(f[..at]) + out
            && Unbroken(f, |Text(f[..at])|, |Text(f[..at])| + |out|)
  {
    var a;
    a, next := ReadInPlace(f, at, n);
    var out := FlatRead(f[at..], n).0;
    var b := a + |out|;
    TextUpTo(f, at, a);
    TextUpTo(f, a, b);
    TextUpTo(f, b, next);
    TextOfMarks(f[at..a]);
    TextOfOctets(out);
    TextOfMarks(f[b..next]);
    forall k | a <= k < b
      ensures f[k].Octet?
    {
      assert f[k] == f[a..b][k - a];
    }
  }

  /** The first `at` items ever queued have been read, the rest has not; each result lay between two marks. */
  ghost predicate Tally(queued: seq<Packet>, unread: seq<Item>, outs: seq<seq<Byte>>, at: nat) {
    var f := Flatten(queued);
    && at <= |f|
    && unread == f[at..]
    && Text(f[..at]) == Concat(outs)
    && forall i | 0 <= i < |outs| :: Unbroken(f, Mileage(outs, i), Mileage(outs, i + 1))
  }

  lemma {:induction false} QueueingKeepsTally(queued: seq<Packet>, unread: seq<Item>,
                                              outs: seq<seq<Byte>>, at: nat, pk: Packet)
    requires Tally(queued, unread, outs, at)
    ensures Tally(queued + [pk], unread + FlatOf(pk), outs, at)
  {
    var f, f' := Flatten(queued), Flatten(queued + [pk]);
    FlattenAppend(queued, [pk]);
    FlattenOne(pk);
    assert f' == f + FlatOf(pk) && f'[..at] == f[..at] && f'[at..] == f[at..] + FlatOf(pk);
    forall i | 0 <= i < |outs|
      ensures Unbroken(f', Mileage(outs, i), Mileage(outs, i + 1))
    {
      UnbrokenGrows(f, FlatOf(pk), Mileage(outs, i), Mileage(outs, i + 1));
    }
  }

  /** One more result, which moves the books from item `at` to item `next`. */
  lemma {:induction false} ResultKeepsTally(queued: seq<Packet>, unread: seq<Item>,
                                            outs: seq<seq<Byte>>, at: nat, out: seq<Byte>, next: nat)
    requires Tally(queued, unread, outs, at)
    requires next <= |Flatten(queued)| && Text(Flatten(queued)[..next]) == Concat(outs) + out
    requires Unbroken(Flatten(queued), |Concat(outs)|, |Concat(outs)| + |out|)
    ensures Tally(queued, Flatten(queued)[next..], outs + [out], next)
  {
    var outs' := outs + [out];
    ConcatOneMore(outs, out);
    forall i | 0 <= i < |outs'|
      ensures Unbroken(Flatten(queued), Mileage(outs', i), Mileage(outs', i + 1))
    {
      if i < |outs| {
        assert outs'[..i] == outs[..i] && outs'[..i + 1] == outs[..i + 1];
        assert Unbroken(Flatten(queued), Mileage(outs, i), Mileage(outs, i + 1));
      } else {
        assert outs'[..i] == outs && outs'[..i + 1] == outs';
      }
    }
  }

  lemma {:induction false} ReadingKeepsTally(queued: seq<Packet>, unread: seq<Item>,
                                             outs: seq<seq<Byte>>, at: nat, n: nat)
    returns (next: nat)
    requires Tally(queued, unread, outs, at)
    ensures var (out, rest) := FlatRead(unread, n); Tally(queued, rest, outs + [out], next)
  {
    next := ReadIsUnbroken(Flatten(queued), at, n);
    ResultKeepsTally(queued, unread, outs, at, FlatRead(unread, n).0, next);
  }

  lemma {:induction false} NothingReadKeepsTally(queued: seq<Packet>, unread: seq<Item>, outs: seq<seq<Byte>>, at: nat)
    requires Tally(queued, unread, outs, at)
    ensures Tally(queued, unread, outs + [[]], at)
  {
    var f := Flatten(queued);
    assert Text(f[..at]) + [] == Text(f[..at]);
    assert |Text(f[..at])| == |Concat(outs)|;
    assert Unbroken(f, |Concat(outs)|, |Concat(outs)| + 0);
    ResultKeepsTally(queued, unread, outs, at, [], at);
  }

  // ---------------------------------------------------------------- any interleaving

  datatype Op = Put(pk: Packet) | Get(n: nat)

  /** The buffer as a stream: all that was queued, what is unread, and the results so far. */
  datatype Buffered = Buffered(queued: seq<Packet>, unread: seq<Item>, outs: seq<seq<Byte>>)

  function Perform(b: Buffered, ops: seq<Op>): Buffered
    decreases |ops|
  {
    if ops == [] then b
    else match ops[0]
         case Put(pk) => Perform(Buffered(b.queued + [pk], b.unread + FlatOf(pk), b.outs), ops[1..])
         case Get(n) =>
           var (out, rest) := FlatRead(b.unread, n);
           Perform(Buffered(b.queued, rest, b.outs + [out]), ops[1..])
  }

  /** The results of any interleaving of queueing and reading, put together, are the bytes queued except those
      still unread, in order; no result takes bytes from two sides of a mark. */
  lemma {:induction false} Drains(b: Buffered, at: nat, ops: seq<Op>) returns (at': nat)
    requires Tally(b.queued, b.unread, b.outs, at)
    ensures var b' := Perform(b, ops);
            && Tally(b'.queued, b'.unread, b'.outs, at')
            && Concat(b'.outs) + Text(b'.unread) == Text(Flatten(b'.queued))
    decreases |ops|
  {
    if ops == [] {
      at' := at;
      var f := Flatten(b.queued);
      TextUpTo(f, at, |f|);
      assert f[..|f|] == f && f[at..|f|] == f[at..];
    } else {
      match ops[0]
      case Put(pk) =>
        QueueingKeepsTally(b.queued, b.unread, b.outs, at, pk);
        at' := Drains(Buffered(b.queued + [pk], b.unread + FlatOf(pk), b.outs), at, ops[1..]);
      case Get(n) =>
        var (out, rest) := FlatRead(b.unread, n);
        at' := ReadingKeepsTally(b.queued, b.unread, b.outs, at, n);
        at' := Drains(Buffered(b.queued, rest, b.outs + [out]), at', ops[1..]);
    }
  }
}
