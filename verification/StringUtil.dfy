/** Length-prefixed strings (src/Packets/StringUtil.cpp). */
module StringUtil {
  import opened Bytes

  /** The two-byte big-endian form of a 16-bit value. */
  function Word(n: nat): (r: seq<byte>)
    requires n < 65536
    ensures |r| == 2
  {
    [n / 256, n % 256]
  }

  function WordValue(high: nat, low: nat): nat {
    high * 256 + low
  }

  /** What encodeString writes: nothing at all when the string is longer than 65535 bytes. */
  function EncodeText(s: seq<byte>): (r: seq<byte>)
    ensures |r| == if |s| <= 65535 then 2 + |s| else 0
  {
    if |s| > 65535 then [] else Word(|s|) + s
  }

  method EncodeString(source: seq<byte>, dest: array<byte>, at: nat) returns (written: nat)
    requires at + |EncodeText(source)| <= dest.Length
    modifies dest
    ensures written == |EncodeText(source)|
    ensures dest[..] == old(dest[..])[..at] + EncodeText(source) + old(dest[..])[at + |EncodeText(source)|..]
  {
    if |source| > 65535 {
      return 0;
    }
    ghost var was := dest[..];
    dest[at] := |source| / 256;
    dest[at + 1] := |source| % 256;
    forall i | 0 <= i < |source| {
      dest[at + 2 + i] := source[i];
    }
    written := 2 + |source|;
    Overwritten(was, dest[..], at, EncodeText(source));
  }

  lemma Overwritten(was: seq<byte>, now: seq<byte>, at: nat, text: seq<byte>)
    requires |now| == |was| && at + |text| <= |was|
    requires forall i :: at <= i < at + |text| ==> now[i] == text[i - at]
    requires forall i :: 0 <= i < |was| && !(at <= i < at + |text|) ==> now[i] == was[i]
    ensures now == was[..at] + text + was[at + |text|..]
  {
  }
}
