/** Repeated marks in a stream: readers do not see them. */
module Marks {
  import opened Message
  import opened Stream
  import opened Repeats
  import Draining

  predicate EndsInMark(s: seq<Item>) {
    s != [] && s[|s| - 1].Mark?
  }

  /** Runs of adjacent marks shrunk to one. */
  function Squash(s: seq<Item>): seq<Item> {
    if s == [] then []
    else
      var init, last := s[..|s| - 1], s[|s| - 1];
      if last.Mark? && EndsInMark(init) then Squash(init) else Squash(init) + [last]
  }

  lemma {:induction false} SquashOneMore(s: seq<Item>, x: Item)
    ensures Squash(s + [x]) == if x.Mark? && EndsInMark(s) then Squash(s) else Squash(s) + [x]
  {
    assert (s + [x])[..|s|] == s;
  }

  lemma {:induction false} SquashKeepsTheLast(s: seq<Item>)
    requires s != []
    ensures Squash(s) != [] && Squash(s)[|Squash(s)| - 1] == s[|s| - 1]
  {
    var init := s[..|s| - 1];
    if s[|s| - 1].Mark? && EndsInMark(init) {
      SquashKeepsTheLast(init);
    }
  }

  lemma {:induction false} SquashKeepsTheEnd(s: seq<Item>)
    ensures EndsInMark(Squash(s)) <==> EndsInMark(s)
  {
    if s != [] {
      SquashKeepsTheLast(s);
    }
  }

  lemma {:induction false} SquashKeepsText(s: seq<Item>)
    ensures Text(Squash(s)) == Text(s)
  {
    if s != [] {
      var init, last := s[..|s| - 1], s[|s| - 1];
      SquashKeepsText(init);
      assert s == init + [last];
      TextAppend(init, [last]);
      TextAppend(Squash(init), [last]);
      assert last.Mark? ==> Text([last]) == [];
    }
  }

  lemma {:induction false} SquashGoesOnce(a: seq<Item>, b: seq<Item>, x: Item)
    requires Squash(a) == Squash(b)
    ensures Squash(a + [x]) == Squash(b + [x])
  {
    SquashKeepsTheEnd(a);
    SquashKeepsTheEnd(b);
    SquashOneMore(a, x);
    SquashOneMore(b, x);
  }

  lemma {:induction false} SquashGoesOn(a: seq<Item>, b: seq<Item>, x: seq<Item>)
    requires Squash(a) == Squash(b)
    ensures Squash(a + x) == Squash(b + x)
  {
    if x == [] {
      assert a + x == a && b + x == b;
    } else {
      var init, last := x[..|x| - 1], x[|x| - 1];
      SquashGoesOn(a, b, init);
      SquashGoesOnce(a + init, b + init, last);
      assert a + x == a + init + [last] && b + x == b + init + [last];
    }
  }

  lemma {:induction false} FlattenOneMore(s: seq<Packet>, pk: Packet)
    ensures Flatten(s + [pk]) == Flatten(s) + FlatOf(pk)
  {
    FlattenAppend(s, [pk]);
    FlattenOne(pk);
  }

  lemma {:induction false} ZeroEndsFlattenToMarks(s: seq<Packet>)
    requires EndsInZeroEnd(s)
    ensures EndsInMark(Flatten(s))
  {
    var init := s[..|s| - 1];
    assert s == init + [ZERO_END];
    FlattenAppend(init, [ZERO_END]);
    FlattenOne(ZERO_END);
  }

  lemma {:induction false} ZeroEndAgain(s: seq<Packet>)
    requires EndsInZeroEnd(s)
    ensures Squash(Flatten(s + [ZERO_END])) == Squash(Flatten(s))
  {
    FlattenOneMore(s, ZERO_END);
    ZeroEndsFlattenToMarks(s);
    SquashOneMore(Flatten(s), Mark);
  }

  lemma {:induction false} FlattenGoesOn(a: seq<Packet>, b: seq<Packet>, pk: Packet)
    requires Squash(Flatten(a)) == Squash(Flatten(b))
    ensures Squash(Flatten(a + [pk])) == Squash(Flatten(b + [pk]))
  {
    FlattenOneMore(a, pk);
    FlattenOneMore(b, pk);
    SquashGoesOn(Flatten(a), Flatten(b), FlatOf(pk));
  }

  /** Repeated zero ends make repeated marks. */
  lemma {:induction false} CollapsedFlattensAlike(s: seq<Packet>)
    ensures Squash(Flatten(Collapse(s))) == Squash(Flatten(s))
  {
    if s != [] {
      var init, last := s[..|s| - 1], s[|s| - 1];
      CollapsedFlattensAlike(init);
      assert s == init + [last];
      if last == ZERO_END && EndsInZeroEnd(init) {
        ZeroEndAgain(init);
      } else {
        FlattenGoesOn(Collapse(init), init, last);
      }
    }
  }

  // ---------------------------------------------------------------- stretches without marks

  lemma {:induction false} SquashOfPrefix(s: seq<Item>, a: nat)
    requires a <= |s|
    ensures Squash(s[..a]) <= Squash(s)
  {
    if a < |s| {
      var init := s[..|s| - 1];
      SquashOfPrefix(init, a);
      assert init[..a] == s[..a];
    } else {
      assert s[..a] == s;
    }
  }

  lemma {:induction false} SquashKeepsOctets(s: seq<Item>, a: nat, b: nat)
    requires a <= b <= |s| && forall k | a <= k < b :: s[k].Octet?
    ensures Squash(s[..b]) == Squash(s[..a]) + s[a..b]
  {
    if a < b {
      SquashKeepsOctets(s, a, b - 1);
      assert s[..b] == s[..b - 1] + [s[b - 1]];
      SquashOneMore(s[..b - 1], s[b - 1]);
    }
  }

  lemma {:induction false} UnbrokenWhenSquashed(f: seq<Item>, lo: nat, hi: nat)
    requires Draining.Unbroken(f, lo, hi)
    ensures Draining.Unbroken(Squash(f), lo, hi)
  {
    var a: nat, b: nat :| a <= b <= |f| && |Text(f[..a])| == lo && |Text(f[..b])| == hi
                          && forall k | a <= k < b :: f[k].Octet?;
    var g, a' := Squash(f), |Squash(f[..a])|;
    var b' := a' + (b - a);
    SquashKeepsOctets(f, a, b);
    SquashOfPrefix(f, a);
    SquashOfPrefix(f, b);
    assert g[..a'] == Squash(f[..a]) && g[..b'] == Squash(f[..b]);
    SquashKeepsText(f[..a]);
    SquashKeepsText(f[..b]);
    forall k | a' <= k < b'
      ensures g[k].Octet?
    {
      assert g[k] == g[..b'][k] == f[a..b][k - a'];
    }
  }

  /** A stretch of bytes in the squashed stream is one in the stream itself, and ends where that does if it ends
      where the squashed one does. */
  lemma {:induction false} StretchBeforeSquashing(g: seq<Item>, a': nat, b': nat) returns (a: nat, b: nat)
    requires a' < b' <= |Squash(g)| && forall k | a' <= k < b' :: Squash(g)[k].Octet?
    ensures a < b <= |g| && forall k | a <= k < b :: g[k].Octet?
    ensures Text(g[..a]) == Text(Squash(g)[..a']) && Text(g[..b]) == Text(Squash(g)[..b'])
    ensures b' == |Squash(g)| ==> b == |g|
  {
    var init, last := g[..|g| - 1], g[|g| - 1];
    var s := Squash(init);
    SquashKeepsTheLast(g);
    if b' <= |s| {
      assert s[..b'] == Squash(g)[..b'] && s[..a'] == Squash(g)[..a'];
      assert forall k | a' <= k < b' :: s[k] == Squash(g)[k];
      a, b := StretchBeforeSquashing(init, a', b');
      assert init[..a] == g[..a] && init[..b] == g[..b];
    } else {
      b := |g|;
      WholeText(g);
      assert s[..a'] == Squash(g)[..a'];
      if a' == |s| {
        a := |g| - 1;
        WholeText(init);
        assert init[..|init|] == g[..a];
      } else {
        assert forall k | a' <= k < |s| :: s[k] == Squash(g)[k];
        var before;
        a, before := StretchBeforeSquashing(init, a', |s|);
        assert init[..a] == g[..a];
      }
    }
  }

  lemma {:induction false} WholeText(g: seq<Item>)
    ensures Text(g[..|g|]) == Text(Squash(g)[..|Squash(g)|])
  {
    SquashKeepsText(g);
    assert g[..|g|] == g && Squash(g)[..|Squash(g)|] == Squash(g);
  }

  /** What lies between two marks of one stream does so in another that differs by repeated marks. */
  lemma {:induction false} UnbrokenAlike(f: seq<Item>, g: seq<Item>, lo: nat, hi: nat)
    requires Draining.Unbroken(f, lo, hi) && lo < hi && Squash(f) == Squash(g)
    ensures Draining.Unbroken(g, lo, hi)
  {
    UnbrokenWhenSquashed(f, lo, hi);
    var s := Squash(g);
    var a': nat, b': nat :| a' <= b' <= |s| && |Text(s[..a'])| == lo && |Text(s[..b'])| == hi
                            && forall k | a' <= k < b' :: s[k].Octet?;
    var a, b := StretchBeforeSquashing(g, a', b');
  }
}
