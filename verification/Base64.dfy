// Base64 as the data channel uses it: `btoa` on the sending side (section 4 of RFC 4648),
// `atob` behind a validating pattern on the receiving side.

module Base64 {
  import opened Basics

  type sextet = n: nat | n < 64

  predicate IsBase64Char(c: char) {
    'A' <= c <= 'Z' || 'a' <= c <= 'z' || '0' <= c <= '9' || c == '+' || c == '/'
  }

  function CharOf(v: sextet): char {
    if v < 26 then 'A' + v as char
    else if v < 52 then 'a' + (v - 26) as char
    else if v < 62 then '0' + (v - 52) as char
    else if v == 62 then '+' else '/'
  }

  function ValueOf(c: char): sextet
    requires IsBase64Char(c)
  {
    if 'A' <= c <= 'Z' then (c - 'A') as nat
    else if 'a' <= c <= 'z' then (c - 'a') as nat + 26
    else if '0' <= c <= '9' then (c - '0') as nat + 52
    else if c == '+' then 62 else 63
  }

  // Table 1 of RFC 4648.
  const UPPER := "ABCDEFGHIJKLMNOPQRSTUVWXYZ"
  const LOWER := "abcdefghijklmnopqrstuvwxyz"
  const DIGITS := "0123456789"

  function Alphabet(): string { UPPER + LOWER + DIGITS + "+/" }

  /** The character of a sextet is the one of the table. */
  lemma AlphabetIs(v: sextet)
    ensures |Alphabet()| == 64 && CharOf(v) == Alphabet()[v]
  {
    assert |UPPER| == 26 && |LOWER| == 26 && |DIGITS| == 10;
    assert v < 26 ==> UPPER[v] == 'A' + v as char;
    assert 26 <= v < 52 ==> LOWER[v - 26] == 'a' + (v - 26) as char;
    assert 52 <= v < 62 ==> DIGITS[v - 52] == '0' + (v - 52) as char;
  }

  lemma ValueOfCharOf(v: sextet)
    ensures IsBase64Char(CharOf(v)) && ValueOf(CharOf(v)) == v
  {
  }

  // The four sextets of three bytes.
  function S0(a: byte): sextet { a / 4 }
  function S1(a: byte, b: byte): sextet { a % 4 * 16 + b / 16 }
  function S2(b: byte, c: byte): sextet { b % 16 * 4 + c / 64 }
  function S3(c: byte): sextet { c % 64 }

  // The three bytes of four sextets.
  function B0(u: nat, v: nat): byte requires u < 64 && v < 64 { u * 4 + v / 16 }
  function B1(v: nat, w: nat): byte requires v < 64 && w < 64 { v % 16 * 16 + w / 4 }
  function B2(w: nat, x: nat): byte requires w < 64 && x < 64 { w % 4 * 64 + x }

  // Three bytes make four sextets; a shorter tail is completed with zero bits.
  function Sextets(bytes: seq<byte>): seq<sextet> {
    if bytes == [] then []
    else if |bytes| == 1 then [S0(bytes[0]), S1(bytes[0], 0)]
    else if |bytes| == 2 then [S0(bytes[0]), S1(bytes[0], bytes[1]), S2(bytes[1], 0)]
    else [S0(bytes[0]), S1(bytes[0], bytes[1]), S2(bytes[1], bytes[2]), S3(bytes[2])] + Sextets(bytes[3..])
  }

  function Text(values: seq<sextet>): (s: string)
    ensures |s| == |values|
    ensures forall i :: 0 <= i < |s| ==> s[i] == CharOf(values[i])
  {
    seq(|values|, i requires 0 <= i < |values| => CharOf(values[i]))
  }

  function Padding(length: nat): string {
    if length == 0 then "" else if length == 1 then "==" else if length == 2 then "=" else Padding(length - 3)
  }

  // The number of groups of three bytes, counting a short last one.
  function GroupCount(length: nat): nat {
    if length == 0 then 0 else if length < 3 then 1 else 1 + GroupCount(length - 3)
  }

  lemma {:induction false} GroupCountValue(length: nat)
    ensures GroupCount(length) == (length + 2) / 3
  {
    if length >= 3 {
      GroupCountValue(length - 3);
    }
  }

  function Encode(bytes: seq<byte>): string { Text(Sextets(bytes)) + Padding(|bytes|) }

  // The byte groups of a sextet list; left-over bits of a short final group are dropped.
  function Bytes(values: seq<sextet>): seq<byte> {
    if |values| < 2 then []
    else if |values| == 2 then [B0(values[0], values[1])]
    else if |values| == 3 then [B0(values[0], values[1]), B1(values[1], values[2])]
    else [B0(values[0], values[1]), B1(values[1], values[2]), B2(values[2], values[3])] + Bytes(values[4..])
  }

  function StripPadding(s: string): (t: string)
    ensures |t| <= |s|
  {
    if |s| == 0 || |s| % 4 != 0 || s[|s| - 1] != '=' then s
    else if s[|s| - 2] == '=' then s[..|s| - 2]
    else s[..|s| - 1]
  }

  // `atob`; None is the exception it throws.
  function Atob(s: string): Option<seq<byte>> {
    var t := StripPadding(s);
    if |t| % 4 == 1 || exists i :: 0 <= i < |t| && !IsBase64Char(t[i]) then None
    else Some(Bytes(seq(|t|, i requires 0 <= i < |t| => ValueOf(t[i]))))
  }

  // The pattern ^[A-Za-z0-9+/]+=*$.
  ghost predicate MatchesPattern(s: string) {
    exists n :: PaddingStartsAt(s, n)
  }

  ghost predicate PaddingStartsAt(s: string, n: nat) {
    && 1 <= n <= |s|
    && (forall i :: 0 <= i < n ==> IsBase64Char(s[i]))
    && (forall i :: n <= i < |s| ==> s[i] == '=')
  }

  ghost function SanitizeBase64(value: string, maxLength: nat, maxDecodedBytes: nat): Option<string> {
    if |value| > maxLength || |value| == 0 || |value| % 4 != 0 || !MatchesPattern(value) then None
    else match Atob(value)
      case None => None
      case Some(bytes) => if |bytes| > maxDecodedBytes then None else Some(value)
  }

  lemma GroupRoundTrip(a: byte, b: byte, c: byte)
    ensures B0(S0(a), S1(a, b)) == a
    ensures B1(S1(a, b), S2(b, c)) == b
    ensures B2(S2(b, c), S3(c)) == c
  {
  }

  lemma BytesOfGroup(u: sextet, v: sextet, w: sextet, x: sextet, rest: seq<sextet>)
    ensures Bytes([u, v, w, x] + rest) == [B0(u, v), B1(v, w), B2(w, x)] + Bytes(rest)
  {
    assert ([u, v, w, x] + rest)[4..] == rest;
  }

  /** Section 4 of RFC 4648: the four sextets are the 24 bits of the three bytes, in order. */
  lemma GroupIsTheSame24Bits(a: byte, b: byte, c: byte)
    ensures ((S0(a) * 64 + S1(a, b)) * 64 + S2(b, c)) * 64 + S3(c) == (a * 256 + b) * 256 + c
  {
  }

  lemma OneByteRoundTrip(a: byte)
    ensures Bytes(Sextets([a])) == [a]
  {
    var u, v := S0(a), S1(a, 0);
    assert Bytes([u, v]) == [B0(u, v)];
    GroupRoundTrip(a, 0, 0);
  }

  lemma TwoBytesRoundTrip(a: byte, b: byte)
    ensures Bytes(Sextets([a, b])) == [a, b]
  {
    var u, v, w := S0(a), S1(a, b), S2(b, 0);
    assert Bytes([u, v, w]) == [B0(u, v), B1(v, w)];
    GroupRoundTrip(a, b, 0);
  }

  lemma {:induction false} BytesOfSextets(bytes: seq<byte>)
    ensures Bytes(Sextets(bytes)) == bytes
  {
    if |bytes| == 0 {
    } else if |bytes| == 1 {
      assert bytes == [bytes[0]];
      OneByteRoundTrip(bytes[0]);
    } else if |bytes| == 2 {
      assert bytes == [bytes[0], bytes[1]];
      TwoBytesRoundTrip(bytes[0], bytes[1]);
    } else {
      var a, b, c, rest := bytes[0], bytes[1], bytes[2], bytes[3..];
      BytesOfSextets(rest);
      BytesOfGroup(S0(a), S1(a, b), S2(b, c), S3(c), Sextets(rest));
      GroupRoundTrip(a, b, c);
      assert bytes == [a, b, c] + rest;
    }
  }

  // Whole groups of four characters, for every group of three bytes or a part of one.
  lemma {:induction false} SextetCount(bytes: seq<byte>)
    ensures |Sextets(bytes)| + |Padding(|bytes|)| == 4 * GroupCount(|bytes|)
    ensures bytes != [] ==> Sextets(bytes) != []
    ensures Padding(|bytes|) in {"", "=", "=="}
  {
    if |bytes| >= 3 {
      SextetCount(bytes[3..]);
    }
  }

  lemma TextIsBase64(values: seq<sextet>)
    ensures forall i :: 0 <= i < |values| ==> IsBase64Char(Text(values)[i]) && ValueOf(Text(values)[i]) == values[i]
  {
    forall i | 0 <= i < |values|
      ensures IsBase64Char(Text(values)[i]) && ValueOf(Text(values)[i]) == values[i]
    {
      ValueOfCharOf(values[i]);
    }
  }

  lemma TextHasNoPadding(values: seq<sextet>)
    ensures forall i :: 0 <= i < |values| ==> IsBase64Char(Text(values)[i]) && Text(values)[i] != '='
  {
    TextIsBase64(values);
  }

  lemma EncodeShape(bytes: seq<byte>)
    ensures |Encode(bytes)| == 4 * GroupCount(|bytes|)
    ensures StripPadding(Encode(bytes)) == Text(Sextets(bytes))
  {
    SextetCount(bytes);
    StripText(Sextets(bytes), Padding(|bytes|), GroupCount(|bytes|));
  }

  lemma StripText(values: seq<sextet>, pad: string, groups: nat)
    requires |values| + |pad| == 4 * groups
    requires pad in {"", "=", "=="} && (pad != "" ==> values != [])
    ensures StripPadding(Text(values) + pad) == Text(values)
  {
    TextHasNoPadding(values);
    var t := Text(values);
    assert (t + pad)[..|t|] == t;
  }

  /** Decoding what the sender encoded gives back the same bytes. */
  lemma RoundTrip(bytes: seq<byte>)
    ensures Atob(Encode(bytes)) == Some(bytes)
  {
    EncodeShape(bytes);
    TextIsBase64(Sextets(bytes));
    LengthOfText(bytes);
    BytesOfSextets(bytes);
    var t := Text(Sextets(bytes));
    assert seq(|t|, i requires 0 <= i < |t| => ValueOf(t[i])) == Sextets(bytes);
  }

  lemma LengthOfText(bytes: seq<byte>)
    ensures |Sextets(bytes)| % 4 != 1
  {
    SextetCount(bytes);
  }

  /** The receiver's validator passes an encoding exactly when it is not empty and both its
      length and its decoded length are within the limits. */
  lemma EncodePassesSanitizer(bytes: seq<byte>, maxLength: nat, maxDecodedBytes: nat)
    ensures SanitizeBase64(Encode(bytes), maxLength, maxDecodedBytes)
         == if bytes != [] && |Encode(bytes)| <= maxLength && |bytes| <= maxDecodedBytes
            then Some(Encode(bytes)) else None
  {
    EncodeShape(bytes);
    RoundTrip(bytes);
    EncodeMatches(bytes);
    SanitizeWhenDecodable(Encode(bytes), bytes, GroupCount(|bytes|), maxLength, maxDecodedBytes);
  }

  lemma EncodeMatches(bytes: seq<byte>)
    ensures bytes != [] ==> MatchesPattern(Encode(bytes))
    ensures GroupCount(|bytes|) > 0 <==> bytes != []
  {
    if bytes != [] {
      SextetCount(bytes);
      MatchesWhenPadded(Sextets(bytes), Padding(|bytes|));
    }
  }

  lemma SanitizeWhenDecodable(s: string, bytes: seq<byte>, groups: nat, maxLength: nat, maxDecodedBytes: nat)
    requires |s| == 4 * groups && Atob(s) == Some(bytes)
    requires groups > 0 <==> bytes != []
    requires bytes != [] ==> MatchesPattern(s)
    ensures SanitizeBase64(s, maxLength, maxDecodedBytes)
         == if bytes != [] && |s| <= maxLength && |bytes| <= maxDecodedBytes then Some(s) else None
  {
  }

  lemma MatchesWhenPadded(values: seq<sextet>, pad: string)
    requires values != []
    requires pad in {"", "=", "=="}
    ensures MatchesPattern(Text(values) + pad)
  {
    TextHasNoPadding(values);
    assert PaddingStartsAt(Text(values) + pad, |values|);
  }
}
