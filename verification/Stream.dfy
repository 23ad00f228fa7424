/** Received data as one flat stream: bytes, and marks where a transfer ends. */
module Stream {
  import opened Message
  import Sequences

  datatype Item = Octet(b: Byte) | Mark

  function Octets(s: seq<Byte>): seq<Item> {
    seq(|s|, i requires 0 <= i < |s| => Octet(s[i]))
  }

  /** A message adds its payload or, if it ends a transfer, a mark. */
  function FlatOf(p: Packet): seq<Item> {
    if p.IsEos() then [Mark] else Octets(p.payload)
  }

  function Flatten(ps: seq<Packet>): seq<Item> {
    if ps == [] then [] else FlatOf(ps[0]) + Flatten(ps[1..])
  }

  /** The bytes of a stream. */
  function Text(s: seq<Item>): seq<Byte> {
    if s == [] then []
    else if s[0].Mark? then Text(s[1..])
    else [s[0].b] + Text(s[1..])
  }

  function Concat(ss: seq<seq<Byte>>): seq<Byte> {
    if ss == [] then [] else ss[0] + Concat(ss[1..])
  }

  /** Up to `n` bytes in front of the next mark; the mark goes too if there was room for another byte. */
  function Take(s: seq<Item>, n: nat): (r: (seq<Byte>, seq<Item>)) {
    if n == 0 || s == [] then ([], s)
    else if s[0].Mark? then ([], s[1..])
    else var (out, rest) := Take(s[1..], n - 1); ([s[0].b] + out, rest)
  }

  /** A read: marks in front of the first byte are skipped. */
  function FlatRead(s: seq<Item>, n: nat): (r: (seq<Byte>, seq<Item>)) {
    if 0 < n && s != [] && s[0].Mark? then FlatRead(s[1..], n) else Take(s, n)
  }

  // ---------------------------------------------------------------- concatenation

  lemma {:induction false} FlattenFirst(ps: seq<Packet>)
    requires ps != []
    ensures Flatten(ps) == FlatOf(ps[0]) + Flatten(ps[1..])
  {
  }

  lemma {:induction false} FlattenAppend(a: seq<Packet>, b: seq<Packet>)
    ensures Flatten(a + b) == Flatten(a) + Flatten(b)
  {
    if a == [] {
      assert a + b == b;
    } else {
      FlattenAppend(a[1..], b);
      Sequences.TailOfSum(a, b);
      FlattenFirst(a + b);
      FlattenFirst(a);
      Sequences.SumIsAssociative(FlatOf(a[0]), Flatten(a[1..]), Flatten(b));
    }
  }

  lemma {:induction false} FlattenOne(p: Packet)
    ensures Flatten([p]) == FlatOf(p)
  {
    assert Flatten([p]) == FlatOf(p) + Flatten([]);
  }

  lemma {:induction false} TextFirst(s: seq<Item>)
    requires s != []
    ensures Text(s) == (if s[0].Mark? then [] else [s[0].b]) + Text(s[1..])
  {
    assert [] + Text(s[1..]) == Text(s[1..]);
  }

  lemma {:induction false} TextAppend(a: seq<Item>, b: seq<Item>)
    ensures Text(a + b) == Text(a) + Text(b)
  {
    if a == [] {
      assert a + b == b;
    } else {
      TextAppend(a[1..], b);
      Sequences.TailOfSum(a, b);
      TextFirst(a + b);
      TextFirst(a);
      Sequences.SumIsAssociative(if a[0].Mark? then [] else [a[0].b], Text(a[1..]), Text(b));
    }
  }

  lemma {:induction false} TextOfOctets(s: seq<Byte>)
    ensures Text(Octets(s)) == s
  {
    if s != [] {
      TextOfOctets(s[1..]);
      assert Octets(s)[1..] == Octets(s[1..]);
    }
  }

  lemma {:induction false} TextOfMarks(s: seq<Item>)
    requires forall k | 0 <= k < |s| :: s[k].Mark?
    ensures Text(s) == []
  {
    if s != [] {
      TextOfMarks(s[1..]);
    }
  }

  lemma {:induction false} ConcatAppend(a: seq<seq<Byte>>, b: seq<seq<Byte>>)
    ensures Concat(a + b) == Concat(a) + Concat(b)
  {
    if a == [] {
      assert a + b == b;
    } else {
      ConcatAppend(a[1..], b);
      Sequences.TailOfSum(a, b);
      Sequences.SumIsAssociative(a[0], Concat(a[1..]), Concat(b));
    }
  }

  lemma {:induction false} ConcatOneMore(ss: seq<seq<Byte>>, s: seq<Byte>)
    ensures Concat(ss + [s]) == Concat(ss) + s
  {
    ConcatAppend(ss, [s]);
    assert Concat([s]) == s + Concat([]);
  }

  // ---------------------------------------------------------------- what a read is

  /** A read of up to `n` bytes, said without recursion: it starts at item `i`, behind marks only, takes the
      bytes `out` from there, and stops for one of three reasons: `n` bytes, the end, or a mark, which it eats. */
  predicate ReadsAt(s: seq<Item>, n: nat, out: seq<Byte>, rest: seq<Item>, i: nat) {
    var j := i + |out|;
    && j <= |s|
    && |out| <= n
    && (forall k | 0 <= k < i :: s[k].Mark?)
    && (n == 0 ==> i == 0)
    && (0 < n && i < |s| ==> s[i].Octet?)
    && s[i..j] == Octets(out)
    && if |out| == n || j == |s| then rest == s[j..]
       else s[j].Mark? && rest == s[j + 1..]
  }

  lemma {:induction false} TakeReads(s: seq<Item>, n: nat)
    requires 0 < n && s != [] ==> s[0].Octet?
    ensures var (out, rest) := Take(s, n); ReadsAt(s, n, out, rest, 0)
  {
    var (out, rest) := Take(s, n);
    if n != 0 && s != [] {
      if 1 < n && s[1..] != [] && s[1].Mark? {
        assert out == [s[0].b];
      } else {
        TakeReads(s[1..], n - 1);
        assert s[..|out|] == [s[0]] + s[1..][..|out| - 1];
      }
    }
  }

  /** The recursive read is a read in that sense. */
  lemma {:induction false} FlatReadReads(s: seq<Item>, n: nat) returns (i: nat)
    ensures var (out, rest) := FlatRead(s, n); ReadsAt(s, n, out, rest, i)
  {
    if 0 < n && s != [] && s[0].Mark? {
      i := FlatReadReads(s[1..], n);
      var (out, rest) := FlatRead(s, n);
      Sequences.SliceOfSlice(s, 1, i, i + |out|);
      i := i + 1;
    } else {
      TakeReads(s, n);
      i := 0;
    }
  }

  /** A read takes no less than another. */
  lemma {:induction false} NoReadIsShorter(s: seq<Item>, n: nat, out: seq<Byte>, rest: seq<Item>,
                                           out': seq<Byte>, rest': seq<Item>, i: nat)
    requires ReadsAt(s, n, out, rest, i) && ReadsAt(s, n, out', rest', i)
    ensures |out| <= |out'|
  {
    forall m | i <= m < i + |out|
      ensures s[m].Octet?
    {
      assert s[i..i + |out|][m - i] == Octets(out)[m - i];
    }
  }

  lemma {:induction false} OctetsDetermine(a: seq<Byte>, b: seq<Byte>)
    requires Octets(a) == Octets(b)
    ensures a == b
  {
    assert |Octets(a)| == |Octets(b)|;
    forall k | 0 <= k < |a|
      ensures a[k] == b[k]
    {
      assert Octets(a)[k] == Octets(b)[k];
    }
  }

  /** And it is the only one. */
  lemma {:induction false} ReadIsUnique(s: seq<Item>, n: nat, out: seq<Byte>, rest: seq<Item>, i: nat)
    ensures ReadsAt(s, n, out, rest, i) ==> FlatRead(s, n) == (out, rest)
  {
    if ReadsAt(s, n, out, rest, i) {
      var (out', rest') := FlatRead(s, n);
      var i' := FlatReadReads(s, n);
      assert i == i';
      NoReadIsShorter(s, n, out, rest, out', rest', i);
      NoReadIsShorter(s, n, out', rest', out, rest, i);
      OctetsDetermine(out, out');
    }
  }

  lemma {:induction false} TextOfRead(s: seq<Item>, n: nat, out: seq<Byte>, rest: seq<Item>, i: nat)
    requires ReadsAt(s, n, out, rest, i)
    ensures Text(s) == out + Text(rest)
  {
    var j := i + |out|;
    var tail := s[j..];
    Sequences.ThreePieces(s, i, j);
    TextOfMarks(s[..i]);
    TextOfOctets(out);
    TextAppend(s[i..j], tail);
    TextAppend(s[..i], s[i..j] + tail);
    if rest != tail {
      assert tail[1..] == rest;
    }
  }

  /** A read moves bytes from the stream to the reader and nothing else. */
  lemma {:induction false} ReadConserves(s: seq<Item>, n: nat)
    ensures var (out, rest) := FlatRead(s, n);
            && Text(s) == out + Text(rest)
            && (out == [] <==> n == 0 || Text(s) == [])
  {
    var (out, rest) := FlatRead(s, n);
    var i := FlatReadReads(s, n);
    TextOfRead(s, n, out, rest, i);
    if out == [] && n != 0 {
      assert i == |s|;
      TextOfMarks(s);
    }
  }
}
