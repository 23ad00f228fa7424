/** The receive buffer: a deque of messages, an offset into the front one and a cached byte count. */
module MsgBuffers {
  import opened Message
  import opened Stream

  /** Bytes that `queueMessage` counts and `read` never hands out: it drops an end-of-send message whole. */
  function Stranded(p: Packet): nat {
    if p.IsEos() then |p.payload| else 0
  }

  /** The offset lies inside the front message, and only a data message is read in parts. */
  predicate OffsetFits(buffer: seq<Packet>, offset: nat) {
    offset == 0 || (buffer != [] && !buffer[0].IsEos() && offset < |buffer[0].payload|)
  }

  /** The unread items. */
  ghost function Unread(buffer: seq<Packet>, offset: nat): seq<Item>
    requires OffsetFits(buffer, offset)
  {
    assert offset <= |Flatten(buffer)|;
    Flatten(buffer)[offset..]
  }

  class MsgBuffer {
    var buffer: seq<Packet>
    var totalSize: nat
    var offset: nat
    ghost var stranded: nat

    ghost predicate Valid()
      reads this
    {
      OffsetFits(buffer, offset) && totalSize == |Text(Contents())| + stranded
    }

    ghost function Contents(): seq<Item>
      reads this
      requires OffsetFits(buffer, offset)
    {
      Unread(buffer, offset)
    }

    constructor ()
      ensures Valid() && Contents() == [] && stranded == 0
    {
      buffer, totalSize, offset, stranded := [], 0, 0, 0;
    }

    method QueueMessage(msg: Packet)
      requires Valid()
      modifies this
      ensures Valid()
      ensures Contents() == old(Contents()) + FlatOf(msg)
      ensures stranded == old(stranded) + Stranded(msg)
    {
      FlattenAppend(buffer, [msg]);
      FlattenOne(msg);
      TextAppend(Contents(), FlatOf(msg));
      TextOfOctets(msg.payload);
      assert Text([Mark]) == [];
      buffer := buffer + [msg];
      totalSize := totalSize + |msg.payload|;
      stranded := stranded + Stranded(msg);
      assert Contents() == old(Contents()) + FlatOf(msg);
    }

    /** The cached count answers the question about the unread bytes, exactly if nothing is stranded. */
    predicate Empty()
      reads this
      requires Valid()
      ensures Empty() <==> Text(Contents()) == [] && stranded == 0
    {
      totalSize == 0
    }

    method Read(dest: array<Byte>, length: nat) returns (written: nat)
      requires Valid() && !Empty()
      requires length <= dest.Length
      modifies this, dest
      ensures Valid() && stranded == old(stranded)
      ensures written <= length
      ensures dest[..written] == FlatRead(old(Contents()), length).0
      ensures Contents() == FlatRead(old(Contents()), length).1
      ensures forall k | written <= k < dest.Length :: dest[k] == old(dest[k])
    {
      LoopReads(buffer, offset, length, []);
      ReadConserves(Contents(), length);
      assert [] + FlatRead(Contents(), length).0 == FlatRead(Contents(), length).0;
      written := CopyOut(dest, length);
      totalSize := totalSize - written;
    }

    /** The loop of `Read`. */
    method CopyOut(dest: array<Byte>, length: nat) returns (written: nat)
      requires OffsetFits(buffer, offset) && length <= dest.Length
      modifies this`buffer, this`offset, dest
      ensures written <= length
      ensures (dest[..written], buffer, offset) == Loop(old(buffer), old(offset), length, [])
      ensures forall k | written <= k < dest.Length :: dest[k] == old(dest[k])
    {
      ghost var goal, copied: seq<Byte> := Loop(buffer, offset, length, []), [];
      written := 0;
      var left: nat := length;
      while 0 < left && buffer != []
        invariant |copied| == written <= length && left == length - written
        invariant OffsetFits(buffer, offset)
        invariant Loop(buffer, offset, left, copied) == goal
        invariant forall k | 0 <= k < dest.Length :: dest[k] == if k < written then copied[k] else old(dest[k])
        decreases |buffer| + left
      {
        if buffer[0].IsEos() {
          buffer := buffer[1..];
          if written != 0 {
            break;
          } else {
            continue;
          }
        }
        copied := copied + Piece(buffer, offset, left);
        var toCopy := CopyFront(dest, written, left);
        left := left - toCopy;
        written := written + toCopy;
      }
      assert dest[..written] == copied;
    }

    /** The data branch of the loop: copies out of the front message and pops it once it is used up. */
    method CopyFront(dest: array<Byte>, at: nat, left: nat) returns (toCopy: nat)
      requires OffsetFits(buffer, offset) && buffer != [] && !buffer[0].IsEos()
      requires at + left <= dest.Length
      modifies this`buffer, this`offset, dest
      ensures toCopy == ToCopy(old(buffer), old(offset), left)
      ensures buffer == Advance(old(buffer), old(offset), toCopy).0
      ensures offset == Advance(old(buffer), old(offset), toCopy).1
      ensures forall k | 0 <= k < at || at + toCopy <= k < dest.Length :: dest[k] == old(dest[k])
      ensures forall k | at <= k < at + toCopy :: dest[k] == Piece(old(buffer), old(offset), left)[k - at]
    {
      var front := buffer[0];
      toCopy := if left < |front.payload| - offset then left else |front.payload| - offset;
      forall i | 0 <= i < toCopy {
        dest[at + i] := front.payload[offset + i];
      }
      offset := offset + toCopy;
      if |front.payload| <= offset {
        offset := 0;
        buffer := buffer[1..];
      }
    }
  }

  function ToCopy(buffer: seq<Packet>, offset: nat, left: nat): (n: nat)
    requires OffsetFits(buffer, offset) && buffer != [] && !buffer[0].IsEos()
    ensures n <= left && offset + n <= |buffer[0].payload|
  {
    if left < |buffer[0].payload| - offset then left else |buffer[0].payload| - offset
  }

  /** The buffer after `toCopy` bytes of the front data message are gone. */
  function Advance(buffer: seq<Packet>, offset: nat, toCopy: nat): (r: (seq<Packet>, nat))
    requires OffsetFits(buffer, offset) && buffer != [] && !buffer[0].IsEos()
    requires offset + toCopy <= |buffer[0].payload|
    ensures OffsetFits(r.0, r.1)
  {
    if |buffer[0].payload| <= offset + toCopy then (buffer[1..], 0) else (buffer, offset + toCopy)
  }

  function Piece(buffer: seq<Packet>, offset: nat, left: nat): (piece: seq<Byte>)
    requires OffsetFits(buffer, offset) && buffer != [] && !buffer[0].IsEos()
    ensures |piece| == ToCopy(buffer, offset, left)
  {
    buffer[0].payload[offset..offset + ToCopy(buffer, offset, left)]
  }

  /** What the loop of `Read` makes of the bytes `copied` so far: all the bytes, and the buffer it leaves. */
  function Loop(buffer: seq<Packet>, offset: nat, left: nat, copied: seq<Byte>): (r: (seq<Byte>, seq<Packet>, nat))
    requires OffsetFits(buffer, offset)
    ensures OffsetFits(r.1, r.2)
    decreases |buffer| + left
  {
    if left == 0 || buffer == [] then (copied, buffer, offset)
    else if buffer[0].IsEos() then
      if copied != [] then (copied, buffer[1..], 0) else Loop(buffer[1..], 0, left, copied)
    else
      var toCopy := ToCopy(buffer, offset, left);
      var next := Advance(buffer, offset, toCopy);
      Loop(next.0, next.1, left - toCopy, copied + Piece(buffer, offset, left))
  }

  // ---------------------------------------------------------------- the loop is a flat read

  /** What is still to be read behind the bytes `copied`: marks are skipped only in front of the first byte. */
  ghost function Resume(s: seq<Item>, n: nat, copied: seq<Byte>): (seq<Byte>, seq<Item>) {
    var r := if copied == [] then FlatRead(s, n) else Take(s, n);
    (copied + r.0, r.1)
  }

  /** Bytes at the front of the stream are taken first. */
  lemma {:induction false} TakePiece(piece: seq<Byte>, u: seq<Item>, n: nat)
    ensures Take(Octets(piece) + u, |piece| + n) == (piece + Take(u, n).0, Take(u, n).1)
  {
    var s := Octets(piece) + u;
    if piece == [] {
      assert s == u && piece + Take(u, n).0 == Take(u, n).0;
    } else {
      assert s[0] == Octet(piece[0]) && s[1..] == Octets(piece[1..]) + u;
      TakePiece(piece[1..], u, n);
      assert [piece[0]] + (piece[1..] + Take(u, n).0) == piece + Take(u, n).0;
    }
  }

  lemma {:induction false} ResumePiece(piece: seq<Byte>, u: seq<Item>, n: nat, copied: seq<Byte>)
    ensures Resume(Octets(piece) + u, |piece| + n, copied) == Resume(u, n, copied + piece)
  {
    if piece == [] {
      assert Octets(piece) + u == u && copied + piece == copied;
    } else {
      TakePiece(piece, u, n);
      assert copied + (piece + Take(u, n).0) == copied + piece + Take(u, n).0;
    }
  }

  lemma {:induction false} UnreadFront(buffer: seq<Packet>, offset: nat, left: nat)
    requires OffsetFits(buffer, offset) && buffer != [] && !buffer[0].IsEos()
    ensures var next := Advance(buffer, offset, ToCopy(buffer, offset, left));
            Unread(buffer, offset) == Octets(Piece(buffer, offset, left)) + Unread(next.0, next.1)
  {
    FlattenFirst(buffer);
  }

  /** The loop computes the flat read of the unread items. */
  ghost predicate LoopIsRead(buffer: seq<Packet>, offset: nat, left: nat, copied: seq<Byte>)
    requires OffsetFits(buffer, offset)
  {
    var r := Loop(buffer, offset, left, copied);
    (r.0, Unread(r.1, r.2)) == Resume(Unread(buffer, offset), left, copied)
  }

  lemma {:induction false} MarkTurn(buffer: seq<Packet>, left: nat, copied: seq<Byte>)
    requires buffer != [] && buffer[0].IsEos() && 0 < left
    requires copied == [] ==> LoopIsRead(buffer[1..], 0, left, copied)
    ensures LoopIsRead(buffer, 0, left, copied)
  {
    FlattenFirst(buffer);
    var s := Unread(buffer, 0);
    assert s[0].Mark? && s[1..] == Unread(buffer[1..], 0);
    assert copied + [] == copied;
  }

  lemma {:induction false} LoopReads(buffer: seq<Packet>, offset: nat, left: nat, copied: seq<Byte>)
    requires OffsetFits(buffer, offset)
    ensures LoopIsRead(buffer, offset, left, copied)
    decreases |buffer| + left
  {
    if left == 0 || buffer == [] {
      assert buffer == [] ==> Unread(buffer, offset) == [];
      assert copied + [] == copied;
    } else if buffer[0].IsEos() {
      if copied == [] {
        LoopReads(buffer[1..], 0, left, copied);
      }
      MarkTurn(buffer, left, copied);
    } else {
      var toCopy, piece := ToCopy(buffer, offset, left), Piece(buffer, offset, left);
      var next := Advance(buffer, offset, toCopy);
      LoopReads(next.0, next.1, left - toCopy, copied + piece);
      UnreadFront(buffer, offset, left);
      ResumePiece(piece, Unread(next.0, next.1), left - toCopy, copied);
    }
  }
}
