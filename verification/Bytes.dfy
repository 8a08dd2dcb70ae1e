/** Bytes, flattening of byte strings, and the bit operations the sources use on small integers. */
module Bytes {
  type byte = b: int | 0 <= b < 256

  // Width of size_t on the 32-bit targets (ESP8266, ESP32): unsigned subtraction wraps here.
  const SIZE_MODULUS := 0x1_0000_0000

  function SizeSub(a: int, b: int): (r: nat)
    ensures r < SIZE_MODULUS
    ensures 0 <= a - b < SIZE_MODULUS ==> r == a - b
  {
    (a - b) % SIZE_MODULUS
  }

  /** Bitwise or of two non-negative integers. */
  function BitOr(a: nat, b: nat): nat
    decreases a + b
  {
    if a == 0 then b
    else if b == 0 then a
    else 2 * BitOr(a / 2, b / 2) + (if a % 2 == 1 || b % 2 == 1 then 1 else 0)
  }

  function Pow2(k: nat): (p: nat)
    ensures p >= 1
  {
    if k == 0 then 1 else 2 * Pow2(k - 1)
  }

  /** Or-ing a value below 2^k into a multiple of 2^k adds it. */
  lemma {:induction false} BitOrDisjoint(high: nat, low: nat, k: nat)
    requires low < Pow2(k)
    ensures BitOr(high * Pow2(k), low) == high * Pow2(k) + low
  {
    if k > 0 && high > 0 && low > 0 {
      var p := Pow2(k - 1);
      assert high * Pow2(k) == 2 * (high * p);
      assert (2 * (high * p)) / 2 == high * p && (2 * (high * p)) % 2 == 0;
      assert high * p > 0 by { MulPositive(high, p); }
      BitOrDisjoint(high, low / 2, k - 1);
    } else if high == 0 {
      assert high * Pow2(k) == 0;
    }
  }

  lemma MulPositive(a: nat, b: nat)
    requires a > 0 && b > 0
    ensures a * b > 0
  {
  }

  lemma Assoc<T>(a: seq<T>, b: seq<T>, c: seq<T>)
    ensures (a + b) + c == a + (b + c)
  {
  }

  // the upper byte of a 16-bit value
  function HighByte(n: nat): (h: byte)
    ensures n < 65536 && n % 256 == 0 ==> n == h * 256
  {
    n / 256 % 256
  }

  lemma HighByteOf(b: byte)
    ensures HighByte(b * 256) == b && (b * 256) % 256 == 0
  {
  }

  /** The two-byte big-endian assembly of the parser: `x |= hi << 8; x |= lo` from zero. */
  lemma BitOrTwoBytes(hi: byte, lo: byte)
    ensures BitOr(0, hi * 256) == hi * 256
    ensures BitOr(hi * 256, lo) == hi * 256 + lo
  {
    assert Pow2(8) == 256 by {
      assert Pow2(4) == 16;
      assert Pow2(8) == 16 * Pow2(4);
    }
    BitOrDisjoint(hi, lo, 8);
  }

  function Flatten<T>(parts: seq<seq<T>>): seq<T>
  {
    if parts == [] then [] else parts[0] + Flatten(parts[1..])
  }

  lemma {:induction false} FlattenAppend<T>(parts: seq<seq<T>>, last: seq<T>)
    ensures Flatten(parts + [last]) == Flatten(parts) + last
  {
    if parts == [] {
      assert parts + [last] == [last];
    } else {
      assert (parts + [last])[1..] == parts[1..] + [last];
      FlattenAppend(parts[1..], last);
    }
  }

  function Zeros(n: nat): (r: seq<byte>)
    ensures |r| == n && forall i :: 0 <= i < n ==> r[i] == 0
  {
    seq(n, _ => 0)
  }

  function Min(a: nat, b: nat): (m: nat)
    ensures m <= a && m <= b && (m == a || m == b)
  {
    if a < b then a else b
  }
}
