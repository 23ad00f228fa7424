/** Repeated ends of send with number 0, which is all that can ever come between a queue and the packets sent. */
module Repeats {
  import opened Message
  import opened Packets

  /** The end of an empty send, or of one of 65536 fragments, or any multiple. */
  const ZERO_END := Packet(0, EOS, [])

  predicate EndsInZeroEnd(s: seq<Packet>) {
    s != [] && s[|s| - 1] == ZERO_END
  }

  /** Runs of adjacent zero ends shrunk to one. */
  function Collapse(s: seq<Packet>): seq<Packet> {
    if s == [] then []
    else
      var init, last := s[..|s| - 1], s[|s| - 1];
      if last == ZERO_END && EndsInZeroEnd(init) then Collapse(init) else Collapse(init) + [last]
  }

  lemma {:induction false} CollapseOneMore(s: seq<Packet>, x: Packet)
    ensures Collapse(s + [x]) == if x == ZERO_END && EndsInZeroEnd(s) then Collapse(s) else Collapse(s) + [x]
  {
    assert (s + [x])[..|s|] == s;
  }

  lemma {:induction false} CollapseKeepsTheLast(s: seq<Packet>)
    requires s != []
    ensures Collapse(s) != [] && Collapse(s)[|Collapse(s)| - 1] == s[|s| - 1]
  {
    var init := s[..|s| - 1];
    if s[|s| - 1] == ZERO_END && EndsInZeroEnd(init) {
      CollapseKeepsTheLast(init);
    }
  }

  lemma {:induction false} SameLast(a: seq<Packet>, b: seq<Packet>)
    requires Collapse(a) == Collapse(b)
    ensures a == [] <==> b == []
    ensures a != [] ==> a[|a| - 1] == b[|b| - 1]
  {
    if a != [] {
      CollapseKeepsTheLast(a);
    }
    if b != [] {
      CollapseKeepsTheLast(b);
    }
  }

  lemma {:induction false} CollapseKeepsMembers(s: seq<Packet>, x: Packet)
    ensures x in s <==> x in Collapse(s)
  {
    if s != [] {
      var init := s[..|s| - 1];
      CollapseKeepsMembers(init, x);
      assert s == init + [s[|s| - 1]];
    }
  }

  /** Behind a zero end, more of them change nothing. */
  lemma {:induction false} CollapseSkips(s: seq<Packet>, from: nat, to: nat)
    requires 0 < from <= to <= |s| && forall i | from - 1 <= i < to :: s[i] == ZERO_END
    ensures Collapse(s[..to]) == Collapse(s[..from])
  {
    if from < to {
      CollapseSkips(s, from, to - 1);
      assert s[..to] == s[..to - 1] + [s[to - 1]];
      CollapseOneMore(s[..to - 1], s[to - 1]);
    }
  }

  lemma {:induction false} CollapseOfDistinct(s: seq<Packet>)
    requires ZERO_END !in s
    ensures Collapse(s) == s
  {
    if s != [] {
      var init := s[..|s| - 1];
      CollapseOfDistinct(init);
      assert s == init + [s[|s| - 1]];
    }
  }

  /** What collapses to the packets `a`, none of them a zero end, and then one zero end, starts that way. */
  lemma {:induction false} OnlyTheLastIsRepeated(s: seq<Packet>, a: seq<Packet>)
    requires ZERO_END !in a && Collapse(s) == a + [ZERO_END]
    ensures a + [ZERO_END] <= s
  {
    var init := s[..|s| - 1];
    CollapseKeepsTheLast(s);
    assert s == init + [ZERO_END];
    if EndsInZeroEnd(init) {
      OnlyTheLastIsRepeated(init, a);
    } else {
      assert Collapse(init) == (a + [ZERO_END])[..|a|] == a;
      CollapseKeepsMembers(init, ZERO_END);
      CollapseOfDistinct(init);
    }
  }

  /** If only the last of the packets `ps` can be a zero end, what collapses like them starts with them. */
  lemma {:induction false} StartsWithThePackets(s: seq<Packet>, ps: seq<Packet>)
    requires Collapse(s) == Collapse(ps) && (ps != [] ==> ZERO_END !in ps[..|ps| - 1])
    ensures ps <= s
    ensures ZERO_END !in ps ==> s == ps
  {
    CollapseKeepsMembers(s, ZERO_END);
    CollapseKeepsMembers(ps, ZERO_END);
    if ZERO_END in ps {
      var a := ps[..|ps| - 1];
      assert ps == a + [ZERO_END];
      CollapseOneMore(a, ZERO_END);
      CollapseOfDistinct(a);
      OnlyTheLastIsRepeated(s, a);
    } else {
      CollapseOfDistinct(s);
      CollapseOfDistinct(ps);
    }
  }

  // ---------------------------------------------------------------- zero ends in a packet stream

  /** Packets numbered 0: zero ends and first fragments. */
  lemma {:induction false} NumberedZero(ps: seq<Packet>, i: nat)
    requires WellShaped(ps) && i < |ps| && ps[i].seqnum == 0
    ensures ps[i].IsEos() <==> ps[i] == ZERO_END
    ensures !ps[i].IsEos() && i + 1 < |ps| ==> ps[i + 1].seqnum == 1
  {
    assert WellShapedAt(ps, i);
    if i + 1 < |ps| {
      assert WellShapedAt(ps, i + 1);
    }
  }

  /** Neighbours have different numbers, but behind a zero end. */
  lemma {:induction false} NeighboursDiffer(ps: seq<Packet>, i: nat)
    requires WellShaped(ps) && 0 < i < |ps| && ps[i - 1] != ZERO_END
    ensures ps[i - 1].seqnum != ps[i].seqnum
  {
    assert WellShapedAt(ps, i) && WellShapedAt(ps, i - 1);
  }
}
