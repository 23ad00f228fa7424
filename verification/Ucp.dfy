/** The datagram layer that is unreliable on purpose. */
module Ucp {
  import opened Message

  datatype Option<+T> = None | Some(value: T)

  /** What one call of `recvfrom` reports. An empty datagram is told apart from a timeout only by
      whatever `errno` an earlier call left behind. */
  datatype Event =
    | Timeout
    | Failure
    | Datagram(bytes: seq<Byte>, errnoIsAgain: bool)

  /** What happens to one datagram. */
  datatype Fault =
    | NoFault
    | Cut(keep: nat)
    | Scramble(noise: seq<Byte>)
    | Drop

  const EVIL_PERCENTAGE := 37

  function OnWire(buf: seq<Byte>, f: Fault): Option<seq<Byte>> {
    match f
    case NoFault => Some(buf)
    case Cut(keep) => if keep < |buf| then Some(buf[..keep]) else None
    case Scramble(noise) => Some(noise)
    case Drop => None
  }

  /** The faults that can befall a datagram of `len` bytes. */
  predicate Possible(f: Fault, len: nat) {
    match f
    case NoFault => true
    case Cut(keep) => keep < len
    case Scramble(noise) => |noise| == len
    case Drop => true
  }

  function Noise(len: nat, rand: nat -> nat): seq<Byte> {
    seq(len, (i: nat) => rand(i + 2) % 0x100)
  }

  /** The fault that a stream of random numbers selects. */
  function FaultFor(len: nat, rand: nat -> nat): (f: Fault)
    requires 0 < len
    ensures Possible(f, len)
  {
    if EVIL_PERCENTAGE <= rand(0) % 100 then NoFault
    else if rand(1) % 3 == 0 then Cut(rand(2) % len)
    else if rand(1) % 3 == 1 then Scramble(Noise(len, rand))
    else Drop
  }

  /** `ucpSendTo`: `wire` is what is handed to `sendto`, which returns `sendto(wire)`; `ret` is what the caller is
      told. */
  method UcpSendTo(buf: seq<Byte>, rand: nat -> nat, sendto: seq<Byte> -> int)
    returns (ret: int, wire: Option<seq<Byte>>)
    ensures buf == [] ==> ret == -1 && wire == None
    ensures buf != [] ==> wire == OnWire(buf, FaultFor(|buf|, rand))
    ensures buf != [] ==> ret == if wire.Some? then sendto(wire.value) else |buf|
    ensures buf != [] && 37 <= rand(0) % 100 ==> wire == Some(buf)
    ensures buf != [] && rand(0) % 100 < 37 ==>
              && (rand(1) % 3 == 0 ==> wire == Some(buf[..rand(2) % |buf|]))
              && (rand(1) % 3 == 1 ==> wire.Some? && |wire.value| == |buf|
                                       && forall k | 0 <= k < |buf| :: wire.value[k] == rand(k + 2) % 256)
              && (rand(1) % 3 == 2 ==> wire == None && ret == |buf|)
  {
    if |buf| == 0 {
      return -1, None;
    }
    var len := |buf|;
    var sendBuf := new Byte[len](i requires 0 <= i < |buf| => buf[i]);
    assert sendBuf[..] == buf;
    if rand(0) % 100 < EVIL_PERCENTAGE {
      var evilKind := rand(1) % 3;
      if evilKind == 0 {
        len := rand(2) % len;
      } else if evilKind == 1 {
        for i := 0 to len
          invariant forall k | 0 <= k < i :: sendBuf[k] == rand(k + 2) % 0x100
        {
          sendBuf[i] := rand(i + 2) % 0x100;
        }
        assert sendBuf[..] == Noise(|buf|, rand);
      } else {
        return len, None;
      }
    }
    assert sendBuf[..len] == sendBuf[..][..len];
    assert len == |buf| ==> sendBuf[..len] == sendBuf[..];
    return sendto(sendBuf[..len]), Some(sendBuf[..len]);
  }

  lemma {:induction false} ACutIsReached(keep: nat, len: nat) returns (rand: nat -> nat)
    requires keep < len
    ensures FaultFor(len, rand) == Cut(keep)
  {
    rand := i => if i == 2 then keep else 0;
  }

  lemma {:induction false} AScrambleIsReached(noise: seq<Byte>) returns (rand: nat -> nat)
    requires noise != []
    ensures FaultFor(|noise|, rand) == Scramble(noise)
  {
    rand := i => if i < 2 then i else if i - 2 < |noise| then noise[i - 2] else 0;
    assert Noise(|noise|, rand) == noise;
  }

  lemma {:induction false} DeliveryAndLossAreReached(len: nat) returns (well: nat -> nat, ill: nat -> nat)
    requires 0 < len
    ensures FaultFor(len, well) == NoFault && FaultFor(len, ill) == Drop
  {
    well := _ => EVIL_PERCENTAGE;
    ill := i => if i == 1 then 2 else 0;
  }

  /** The random numbers reach every possible fault and no other. */
  lemma {:induction false} ExactlyThePossibleFaults(f: Fault, len: nat)
    requires 0 < len
    ensures Possible(f, len) <==> exists rand: nat -> nat :: FaultFor(len, rand) == f
  {
    if Possible(f, len) {
      match f
      case Cut(keep) => var rand := ACutIsReached(keep, len);
      case Scramble(noise) => var rand := AScrambleIsReached(noise);
      case _ => var well, ill := DeliveryAndLossAreReached(len);
    }
  }
}
