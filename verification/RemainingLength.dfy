/** The variable-length integer of section 2.2.3 of MQTT 3.1.1 (src/Packets/RemainingLength.cpp). */
module RemainingLength {
  import opened Bytes

  const MAX_REMAINING_LENGTH := 268435455

  /** Reference encoding: base-128 digits, least significant first, top bit on all but the last. */
  function Encode(n: nat): (r: seq<byte>)
    ensures |r| >= 1
  {
    if n < 128 then [n] else [n % 128 + 128] + Encode(n / 128)
  }

  /** A byte string that is one complete encoding: continuation bits on all but the last byte. */
  predicate Terminated(bs: seq<byte>)
  {
    |bs| >= 1 && bs[|bs| - 1] < 128 && forall i :: 0 <= i < |bs| - 1 ==> bs[i] >= 128
  }

  /** Value of the encoding at the front of `bs`; what follows the terminating byte is not looked at. */
  function Decode(bs: seq<byte>): nat
  {
    if bs == [] then 0
    else if bs[0] < 128 then bs[0]
    else bs[0] - 128 + 128 * Decode(bs[1..])
  }

  function Pow128(k: nat): (p: nat)
    ensures p >= 1
  {
    if k == 0 then 1 else 128 * Pow128(k - 1)
  }

  lemma {:induction false} EncodeTerminated(n: nat)
    ensures Terminated(Encode(n))
  {
    if n >= 128 {
      EncodeTerminated(n / 128);
    }
  }

  /** Decoding inverts encoding, whatever follows on the stream. */
  lemma {:induction false} DecodeEncode(n: nat, rest: seq<byte>)
    ensures Decode(Encode(n) + rest) == n
  {
    if n >= 128 {
      DecodeEncode(n / 128, rest);
      assert (Encode(n) + rest)[1..] == Encode(n / 128) + rest;
    }
  }

  /** An encoding of k bytes denotes less than 128^k. */
  lemma {:induction false} DecodeBound(bs: seq<byte>)
    requires Terminated(bs)
    ensures Decode(bs) < Pow128(|bs|)
  {
    if |bs| > 1 {
      assert Terminated(bs[1..]) by {
        forall i | 0 <= i < |bs[1..]| - 1 ensures bs[1..][i] >= 128 { assert bs[1..][i] == bs[i + 1]; }
      }
      DecodeBound(bs[1..]);
    }
  }

  lemma {:induction false} EncodeLength(n: nat, k: nat)
    ensures |Encode(n)| <= k + 1 <==> n < Pow128(k + 1)
  {
    if n >= 128 && k > 0 {
      EncodeLength(n / 128, k - 1);
      assert n < 128 * Pow128(k) <==> n / 128 < Pow128(k);
    } else if n < 128 {
      assert Pow128(k + 1) >= 128;
    }
  }

  /** Encode is the shortest complete encoding of its value. */
  lemma {:induction false} EncodeShortest(bs: seq<byte>)
    requires Terminated(bs)
    ensures |Encode(Decode(bs))| <= |bs|
  {
    DecodeBound(bs);
    EncodeLength(Decode(bs), |bs| - 1);
  }

  function RemainingLengthLength(n: nat): (k: nat)
  {
    if n < 128 then 1
    else if n < 16384 then 2
    else if n < 2097152 then 3
    else if n > MAX_REMAINING_LENGTH then 0
    else 4
  }

  /** The predicted byte count is the encoded one for every legal length, and 0 exactly for the others. */
  lemma {:induction false} LengthPrediction(n: nat)
    ensures n <= MAX_REMAINING_LENGTH ==> RemainingLengthLength(n) == |Encode(n)| <= 4
    ensures n > MAX_REMAINING_LENGTH ==> RemainingLengthLength(n) == 0 && |Encode(n)| > 4
  {
    assert Pow128(1) == 128 && Pow128(2) == 16384;
    assert Pow128(3) == 2097152 && Pow128(4) == 268435456;
    EncodeLength(n, 0);
    EncodeLength(n, 1);
    EncodeLength(n, 2);
    EncodeLength(n, 3);
  }

  /** Writes the encoding at `at` and returns the number of bytes used. */
  method EncodeRemainingLength(n: nat, destination: array<byte>, at: nat) returns (bytesNeeded: nat)
    requires n < 0x1_0000_0000
    requires at + |Encode(n)| <= destination.Length
    modifies destination
    ensures bytesNeeded == |Encode(n)|
    ensures destination[..] == old(destination[..at]) + Encode(n) + old(destination[at + |Encode(n)|..])
  {
    var remaining, more := n, true;
    bytesNeeded := 0;
    while more
      invariant bytesNeeded <= |Encode(n)|
      invariant more ==> Encode(n)[bytesNeeded..] == Encode(remaining)
      invariant !more ==> bytesNeeded == |Encode(n)|
      invariant forall i :: 0 <= i < bytesNeeded ==> destination[at + i] == Encode(n)[i]
      invariant forall i :: 0 <= i < destination.Length && !(at <= i < at + bytesNeeded) ==> destination[i] == old(destination[i])
      decreases more, remaining
    {
      var encodedByte := remaining % 128;
      assert Encode(n)[bytesNeeded] == Encode(remaining)[0];
      assert Encode(n)[bytesNeeded + 1..] == Encode(remaining)[1..];
      remaining := remaining / 128;
      if remaining > 0 {
        encodedByte := encodedByte + 128;
      }
      destination[at + bytesNeeded] := encodedByte;
      bytesNeeded := bytesNeeded + 1;
      more := remaining > 0;
    }
  }

  /** Position of the terminating byte, or |bs| when there is none. */
  function Terminator(bs: seq<byte>): (k: nat)
    ensures k <= |bs|
    ensures k < |bs| ==> bs[k] < 128
    ensures forall i :: 0 <= i < k ==> bs[i] >= 128
  {
    if bs == [] || bs[0] < 128 then 0 else 1 + Terminator(bs[1..])
  }

  /** Only the bytes up to the terminating one matter. */
  lemma {:induction false} DecodePrefix(bs: seq<byte>, rest: seq<byte>)
    requires Terminated(bs)
    ensures Decode(bs + rest) == Decode(bs)
    ensures Terminator(bs + rest) == |bs| - 1
  {
    if |bs| > 1 {
      assert (bs + rest)[1..] == bs[1..] + rest;
      DecodePrefix(bs[1..], rest);
    }
  }

  // the same on a buffer whose k-th byte ends the encoding
  lemma DecodeInBuffer(raw: seq<byte>, k: nat)
    requires k < |raw| && raw[k] < 128 && forall i :: 0 <= i < k ==> raw[i] >= 128
    ensures Terminator(raw) == k && Decode(raw) == Decode(raw[..k + 1])
  {
    DecodePrefix(raw[..k + 1], raw[k + 1..]);
    assert raw[..k + 1] + raw[k + 1..] == raw;
  }

  /** What the decoding loop has summed after k bytes. */
  function PartialSum(bs: seq<byte>, k: nat): nat
    requires k <= |bs|
  {
    if k == 0 then 0 else PartialSum(bs, k - 1) + (bs[k - 1] % 128) * Pow128(k - 1)
  }

  lemma {:induction false} PartialSumTail(bs: seq<byte>, k: nat)
    requires 1 <= k <= |bs|
    ensures PartialSum(bs, k) == bs[0] % 128 + 128 * PartialSum(bs[1..], k - 1)
  {
    if k > 1 {
      PartialSumTail(bs, k - 1);
      var d := bs[k - 1] % 128;
      assert d * Pow128(k - 1) == 128 * (d * Pow128(k - 2));
    } else {
      assert PartialSum(bs, 0) == 0 && Pow128(0) == 1;
    }
  }

  /** Summing up to and including the terminating byte gives the decoded value. */
  lemma {:induction false} PartialSumIsDecode(bs: seq<byte>)
    requires Terminator(bs) < |bs|
    ensures PartialSum(bs, Terminator(bs) + 1) == Decode(bs)
  {
    PartialSumTail(bs, Terminator(bs) + 1);
    if bs[0] >= 128 {
      PartialSumIsDecode(bs[1..]);
    }
  }

  /** The decoding loop: the value when the encoding ends within four bytes, -1 otherwise. */
  method DecodeRemainingLength(stream: seq<byte>) returns (r: int)
    requires Terminator(stream) < |stream| || |stream| >= 5
    ensures Terminator(stream) < 4 ==> r == Decode(stream)
    ensures Terminator(stream) >= 4 ==> r == -1
  {
    var multiplier: int, current: int, more := 1, 0, true;
    r := 0;
    while more
      invariant 0 <= current <= 4
      invariant current <= Terminator(stream) + 1 && current <= |stream|
      invariant more <==> current <= Terminator(stream)
      invariant multiplier == Pow128(current)
      invariant r == PartialSum(stream, current)
      decreases 5 - current
    {
      assert Pow128(1) == 128 && Pow128(2) == 16384 && Pow128(3) == 2097152 && Pow128(4) == 268435456;
      var encodedByte: int := stream[current];
      current := current + 1;
      r := r + (encodedByte % 128) * multiplier;
      if multiplier > 2097152 {
        return -1;
      }
      multiplier := multiplier * 128;
      more := encodedByte >= 128;
    }
    PartialSumIsDecode(stream);
  }
}
