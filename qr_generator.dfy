/**
 * The client-side review link: `btoa("review-<recipeId>-<now>")` with every
 * character outside [a-zA-Z0-9] removed, put after `?token=` in the same deep
 * link the server builds. `btoa` is Base64 as in section 4 of RFC 4648 over
 * the string's character codes; a decoder is given only to show that the
 * encoder loses nothing. The clock is a parameter.
 */
module QrGenerator {
  import opened Wrappers
  import opened Text
  import opened Sequences
  import opened Hex
  import QrController

  const DefaultBaseUrl := "http://localhost:5173"

  // ---------------------------------------------------------------------------
  // Base64 (RFC 4648, section 4)

  /** Table 1 of RFC 4648: the character for a 6-bit value. */
  function Base64Char(n: nat): (c: char)
    requires n < 64
    ensures IsAlnum(c) || c == '+' || c == '/'
  {
    if n < 26 then ('A' as int + n) as char
    else if n < 52 then ('a' as int + n - 26) as char
    else if n < 62 then ('0' as int + n - 52) as char
    else if n == 62 then '+'
    else '/'
  }

  /** The 6-bit value of a Base64 character, or -1 for any other character (the pad '=' included). */
  function Base64Value(c: char): int {
    if 'A' <= c <= 'Z' then c as int - 'A' as int
    else if 'a' <= c <= 'z' then c as int - 'a' as int + 26
    else if '0' <= c <= '9' then c as int - '0' as int + 52
    else if c == '+' then 62
    else if c == '/' then 63
    else -1
  }

  lemma Base64CharValue(n: nat)
    requires n < 64
    ensures Base64Value(Base64Char(n)) == n
  {
  }

  /** Three bytes as four 6-bit values, most significant bits first. */
  function Sextets(b0: Byte, b1: Byte, b2: Byte): (v: seq<nat>)
    ensures |v| == 4 && forall i :: 0 <= i < 4 ==> v[i] < 64
  {
    [b0 / 4, (b0 % 4) * 16 + b1 / 16, (b1 % 16) * 4 + b2 / 64, b2 % 64]
  }

  /** Four 6-bit values as three bytes. */
  function Octets(v0: nat, v1: nat, v2: nat, v3: nat): seq<Byte>
    requires v0 < 64 && v1 < 64 && v2 < 64 && v3 < 64
  {
    [v0 * 4 + v1 / 16, (v1 % 16) * 16 + v2 / 4, (v2 % 4) * 64 + v3]
  }

  lemma OctetsOfSextets(b0: Byte, b1: Byte, b2: Byte)
    ensures var v := Sextets(b0, b1, b2); Octets(v[0], v[1], v[2], v[3]) == [b0, b1, b2]
  {
    var v := Sextets(b0, b1, b2);
    assert v[0] * 4 + v[1] / 16 == b0;
    assert (v[1] % 16) * 16 + v[2] / 4 == b1;
    assert (v[2] % 4) * 64 + v[3] == b2;
  }

  /** The alphabet characters of some 6-bit values. */
  function Chars(v: seq<nat>): (s: string)
    requires forall i :: 0 <= i < |v| ==> v[i] < 64
    ensures |s| == |v| && forall i :: 0 <= i < |v| ==> s[i] == Base64Char(v[i]) && Base64Value(s[i]) == v[i]
  {
    seq(|v|, i requires 0 <= i < |v| => Base64CharValue(v[i]); Base64Char(v[i]))
  }

  /**
   * Base64 encoding: each group of three bytes becomes four characters; a
   * final group of one or two bytes gives two or three characters, padded
   * with "==" or "=".
   */
  function Base64Encode(b: seq<Byte>): (s: string)
    ensures |s| == 4 * ((|b| + 2) / 3)
    ensures forall i :: 0 <= i < |s| ==> IsAlnum(s[i]) || s[i] == '+' || s[i] == '/' || s[i] == '='
    decreases |b|
  {
    if |b| == 0 then []
    else if |b| == 1 then Chars(Sextets(b[0], 0, 0)[..2]) + "=="
    else if |b| == 2 then Chars(Sextets(b[0], b[1], 0)[..3]) + "="
    else Chars(Sextets(b[0], b[1], b[2])) + Base64Encode(b[3..])
  }

  /** Base64 decoding of a padded encoding; none when the text is not one. */
  function Base64Decode(s: string): Option<seq<Byte>>
    decreases |s|
  {
    if s == [] then Some([])
    else if |s| < 4 then None
    else
      var v0, v1, v2, v3 := Base64Value(s[0]), Base64Value(s[1]), Base64Value(s[2]), Base64Value(s[3]);
      if v0 < 0 || v1 < 0 then None
      else if |s| == 4 && s[2] == '=' && s[3] == '=' then Some(Octets(v0, v1, 0, 0)[..1])
      else if v2 < 0 then None
      else if |s| == 4 && s[3] == '=' then Some(Octets(v0, v1, v2, 0)[..2])
      else if v3 < 0 then None
      else match Base64Decode(s[4..])
        case None => None
        case Some(rest) => Some(Octets(v0, v1, v2, v3) + rest)
  }

  /** Decoding an encoding gives back the bytes. */
  lemma {:induction false} Base64RoundTrip(b: seq<Byte>)
    ensures Base64Decode(Base64Encode(b)) == Some(b)
    decreases |b|
  {
    if |b| == 1 {
      RoundTripOne(b);
    } else if |b| == 2 {
      RoundTripTwo(b);
    } else if |b| >= 3 {
      Base64RoundTrip(b[3..]);
      RoundTripGroup(b);
    }
  }

  lemma RoundTripOne(b: seq<Byte>)
    requires |b| == 1
    ensures Base64Decode(Base64Encode(b)) == Some(b)
  {
    var v := Sextets(b[0], 0, 0);
    OctetsOfSextets(b[0], 0, 0);
    assert v[2] == 0 && v[3] == 0;
    var s := Base64Encode(b);
    assert s == Chars(v[..2]) + "==";
    assert Base64Value(s[0]) == v[0] && Base64Value(s[1]) == v[1];
    assert s[2] == '=' && s[3] == '=';
    DecodeTwoPads(s);
    assert Base64Decode(s) == Some(Octets(v[0], v[1], 0, 0)[..1]);
    assert Octets(v[0], v[1], 0, 0)[..1] == [b[0]] == b;
  }

  lemma RoundTripTwo(b: seq<Byte>)
    requires |b| == 2
    ensures Base64Decode(Base64Encode(b)) == Some(b)
  {
    var v := Sextets(b[0], b[1], 0);
    OctetsOfSextets(b[0], b[1], 0);
    assert v[3] == 0;
    var s := Base64Encode(b);
    assert s == Chars(v[..3]) + "=";
    assert Base64Value(s[0]) == v[0] && Base64Value(s[1]) == v[1] && Base64Value(s[2]) == v[2];
    assert s[3] == '=';
    DecodeOnePad(s);
    assert Base64Decode(s) == Some(Octets(v[0], v[1], v[2], 0)[..2]);
    assert Octets(v[0], v[1], v[2], 0)[..2] == [b[0], b[1]] == b;
  }

  lemma RoundTripGroup(b: seq<Byte>)
    requires |b| >= 3
    requires Base64Decode(Base64Encode(b[3..])) == Some(b[3..])
    ensures Base64Decode(Base64Encode(b)) == Some(b)
  {
    var v := Sextets(b[0], b[1], b[2]);
    var t := Base64Encode(b[3..]);
    assert Base64Encode(b) == Chars(v) + t;
    DecodeAfterGroup(v, t);
    OctetsOfSextets(b[0], b[1], b[2]);
    SplitFirstThree(b);
  }

  /** Decoding four alphabet characters followed by a decodable text. */
  lemma DecodeAfterGroup(v: seq<nat>, t: string)
    requires |v| == 4 && forall i :: 0 <= i < 4 ==> v[i] < 64
    requires Base64Decode(t).Some?
    ensures Base64Decode(Chars(v) + t) == Some(Octets(v[0], v[1], v[2], v[3]) + Base64Decode(t).value)
  {
    var s := Chars(v) + t;
    assert s[4..] == t;
    assert Base64Value(s[0]) == v[0] && Base64Value(s[1]) == v[1] && Base64Value(s[2]) == v[2] && Base64Value(s[3]) == v[3];
    DecodeGroup(s);
  }

  lemma SplitFirstThree(b: seq<Byte>)
    requires |b| >= 3
    ensures b == [b[0], b[1], b[2]] + b[3..]
  {
  }

  /** One step of the decoder on "xx==". */
  lemma DecodeTwoPads(s: string)
    requires |s| == 4 && Base64Value(s[0]) >= 0 && Base64Value(s[1]) >= 0 && s[2] == '=' && s[3] == '='
    ensures Base64Decode(s) == Some(Octets(Base64Value(s[0]), Base64Value(s[1]), 0, 0)[..1])
  {
  }

  /** One step of the decoder on "xxx=". */
  lemma DecodeOnePad(s: string)
    requires |s| == 4 && Base64Value(s[0]) >= 0 && Base64Value(s[1]) >= 0 && Base64Value(s[2]) >= 0 && s[3] == '='
    ensures Base64Decode(s) == Some(Octets(Base64Value(s[0]), Base64Value(s[1]), Base64Value(s[2]), 0)[..2])
  {
  }

  /** One step of the decoder on a full group followed by more text. */
  lemma DecodeGroup(s: string)
    requires |s| >= 4
    requires Base64Value(s[0]) >= 0 && Base64Value(s[1]) >= 0 && Base64Value(s[2]) >= 0 && Base64Value(s[3]) >= 0
    requires Base64Decode(s[4..]).Some?
    ensures Base64Decode(s) == Some(Octets(Base64Value(s[0]), Base64Value(s[1]), Base64Value(s[2]), Base64Value(s[3])) + Base64Decode(s[4..]).value)
  {
  }

  /** Different byte strings have different encodings. */
  lemma Base64Injective(a: seq<Byte>, b: seq<Byte>)
    requires Base64Encode(a) == Base64Encode(b)
    ensures a == b
  {
    Base64RoundTrip(a);
    Base64RoundTrip(b);
  }

  // ---------------------------------------------------------------------------
  // btoa and the review link

  /** The character codes of a string whose characters are all below 256. */
  function Latin1Bytes(s: string): (b: seq<Byte>)
    requires forall i :: 0 <= i < |s| ==> s[i] as int < 256
    ensures |b| == |s| && forall i :: 0 <= i < |s| ==> b[i] == s[i] as int
  {
    seq(|s|, i requires 0 <= i < |s| => s[i] as int)
  }

  /** `btoa(s)`: it throws (here: none) when a character code is 256 or more. */
  function Btoa(s: string): (r: Option<string>)
    ensures r.Some? <==> forall i :: 0 <= i < |s| ==> s[i] as int < 256
    ensures r.Some? ==> r.value == Base64Encode(Latin1Bytes(s))
  {
    if forall i :: 0 <= i < |s| ==> s[i] as int < 256 then Some(Base64Encode(Latin1Bytes(s))) else None
  }

  /** `review-${recipeId}-${Date.now()}` */
  function TokenSeed(recipeId: int, nowMs: int): (seed: string)
    ensures forall i :: 0 <= i < |seed| ==> seed[i] as int < 128
  {
    var a, b := IntToString(recipeId), IntToString(nowMs);
    assert forall i :: 0 <= i < |a| ==> a[i] as int < 128;
    assert forall i :: 0 <= i < |b| ==> b[i] as int < 128;
    "review-" + a + "-" + b
  }

  /** The hash: the Base64 of the seed with '+', '/' and '=' (everything outside [a-zA-Z0-9]) removed. */
  function ReviewHash(recipeId: int, nowMs: int): (h: string)
    ensures forall i :: 0 <= i < |h| ==> IsAlnum(h[i])
    ensures '+' !in h && '/' !in h && '=' !in h
  {
    var encoded := Btoa(TokenSeed(recipeId, nowMs));
    Filter(encoded.value, IsAlnum)
  }

  /**
   * `generateReviewQRUrl(recipeId, baseUrl = DefaultBaseUrl)`: the base is
   * defaulted only when it is not given (an empty base is kept). The link has
   * the same form as the server's deep link, with the same default base, so
   * the review page reads both the same way.
   */
  function GenerateReviewQrUrl(recipeId: int, baseUrl: Option<string>, nowMs: int): (url: string)
    ensures url == QrController.QrUrl(baseUrl.GetOr(DefaultBaseUrl), recipeId, ReviewHash(recipeId, nowMs))
    ensures baseUrl.None? ==> url == QrController.QrUrl(QrController.DefaultFrontendUrl, recipeId, ReviewHash(recipeId, nowMs))
  {
    baseUrl.GetOr(DefaultBaseUrl) + "/#/review/" + IntToString(recipeId) + "?token=" + ReviewHash(recipeId, nowMs)
  }

  /** Two links with the same base are for the same recipe only if they carry the same recipe id. */
  lemma LinkNamesRecipe(r1: int, r2: int, baseUrl: Option<string>, t1: int, t2: int)
    requires GenerateReviewQrUrl(r1, baseUrl, t1) == GenerateReviewQrUrl(r2, baseUrl, t2)
    ensures r1 == r2 && ReviewHash(r1, t1) == ReviewHash(r2, t2)
  {
    QrController.QrUrlInjective(baseUrl.GetOr(DefaultBaseUrl), r1, ReviewHash(r1, t1), r2, ReviewHash(r2, t2));
  }

  /**
   * An explicitly empty base gives a link relative to the current page, where
   * the server's `FRONTEND_URL || default` would fall back to the default.
   */
  lemma EmptyBaseKept(recipeId: int, nowMs: int)
    ensures StartsWith(GenerateReviewQrUrl(recipeId, Some(""), nowMs), "/#/review/")
    ensures QrController.BaseUrl(Some("")) == DefaultBaseUrl
  {
    assert "" + "/#/review/" == "/#/review/";
  }

  /** `getTestReviewUrl(recipeId)`: the link with the default base. */
  function GetTestReviewUrl(recipeId: int, nowMs: int): (url: string)
    ensures url == GenerateReviewQrUrl(recipeId, Some(DefaultBaseUrl), nowMs)
    ensures StartsWith(url, DefaultBaseUrl + "/#/review/")
  {
    GenerateReviewQrUrl(recipeId, None, nowMs)
  }
}
