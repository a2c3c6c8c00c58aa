/** Lower-case hexadecimal encoding of bytes, as Node's `buffer.toString('hex')`. */
module Hex {
  import opened Wrappers
  import opened Text

  type Byte = b: int | 0 <= b < 256

  function NibbleChar(n: nat): (c: char)
    requires n < 16
    ensures IsLowerHex(c)
  {
    if n < 10 then DigitChar(n) else ('a' as int + (n - 10)) as char
  }

  function NibbleValue(c: char): (n: nat)
    requires IsLowerHex(c)
    ensures n < 16
  {
    if IsDigit(c) then DigitValue(c) else c as int - 'a' as int + 10
  }

  lemma NibbleRoundTrip(n: nat)
    requires n < 16
    ensures NibbleValue(NibbleChar(n)) == n
  {
  }

  predicate IsHexString(s: string) {
    forall i :: 0 <= i < |s| ==> IsLowerHex(s[i])
  }

  /** Two characters per byte, high nibble first. */
  function Encode(bytes: seq<Byte>): (s: string)
    ensures |s| == 2 * |bytes|
    ensures IsHexString(s)
  {
    if bytes == [] then []
    else [NibbleChar(bytes[0] / 16), NibbleChar(bytes[0] % 16)] + Encode(bytes[1..])
  }

  /** The inverse of `Encode`; `None` for an odd length or a non-hex character. */
  function Decode(s: string): Option<seq<Byte>>
  {
    if s == [] then Some([])
    else if |s| == 1 || !IsLowerHex(s[0]) || !IsLowerHex(s[1]) then None
    else match Decode(s[2..])
      case None => None
      case Some(rest) => Some([NibbleValue(s[0]) * 16 + NibbleValue(s[1])] + rest)
  }

  lemma {:induction false} DecodeEncode(bytes: seq<Byte>)
    ensures Decode(Encode(bytes)) == Some(bytes)
  {
    if bytes != [] {
      var s := Encode(bytes);
      assert s[2..] == Encode(bytes[1..]);
      DecodeEncode(bytes[1..]);
      NibbleRoundTrip(bytes[0] / 16);
      NibbleRoundTrip(bytes[0] % 16);
      assert [bytes[0]] + bytes[1..] == bytes;
    }
  }

  /** Different byte strings have different encodings. */
  lemma EncodeInjective(a: seq<Byte>, b: seq<Byte>)
    requires Encode(a) == Encode(b)
    ensures a == b
  {
    DecodeEncode(a);
    DecodeEncode(b);
  }
}
