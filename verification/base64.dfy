/** Base 64 encoding as section 4 of RFC 4648 defines it (standard alphabet,
    `=` padding), the URL- and filename-safe alphabet of section 5 without
    padding, and the character rewriting that turns the first into the
    second. `Decode` inverts the unpadded section 5 encoding. */
module Base64 {
  import opened Common

  type byte = x: int | 0 <= x < 256

  /** A value of the section 4 alphabet (Table 1 of RFC 4648). */
  function StdChar(v: int): char
    requires 0 <= v < 64
  {
    if v < 26 then (65 + v) as char
    else if v < 52 then (97 + v - 26) as char
    else if v < 62 then (48 + v - 52) as char
    else if v == 62 then '+'
    else '/'
  }

  /** A value of the section 5 alphabet (Table 2 of RFC 4648). */
  function UrlChar(v: int): (c: char)
    requires 0 <= v < 64
    ensures IsUrlSafe(c)
  {
    if v < 26 then (65 + v) as char
    else if v < 52 then (97 + v - 26) as char
    else if v < 62 then (48 + v - 52) as char
    else if v == 62 then '-'
    else '_'
  }

  /** A character of the section 5 alphabet. */
  predicate IsUrlSafe(c: char) {
    ('A' <= c <= 'Z') || ('a' <= c <= 'z') || ('0' <= c <= '9') || c == '-' || c == '_'
  }

  /** The value a section 5 character stands for. */
  function UrlValue(c: char): (v: int)
    requires IsUrlSafe(c)
    ensures 0 <= v < 64 && UrlChar(v) == c
  {
    if 'A' <= c <= 'Z' then c as int - 65
    else if 'a' <= c <= 'z' then c as int - 97 + 26
    else if '0' <= c <= '9' then c as int - 48 + 52
    else if c == '-' then 62
    else 63
  }

  lemma UrlValueOfChar(v: int)
    requires 0 <= v < 64
    ensures UrlValue(UrlChar(v)) == v
  {
  }

  // The four 6-bit groups of a 24-bit input group, most significant first.
  function Sextet0(b0: byte): int { b0 / 4 }
  function Sextet1(b0: byte, b1: byte): int { (b0 % 4) * 16 + b1 / 16 }
  function Sextet2(b1: byte, b2: byte): int { (b1 % 16) * 4 + b2 / 64 }
  function Sextet3(b2: byte): int { b2 % 64 }

  /** The length of an unpadded encoding of `n` bytes. */
  function UnpaddedLength(n: nat): nat {
    4 * (n / 3) + (if n % 3 == 0 then 0 else n % 3 + 1)
  }

  /** Section 4: every 3 bytes become 4 characters; a final 1 or 2 bytes
      become 2 or 3 characters and `==` or `=`. */
  function EncodeStd(b: seq<byte>): (s: string)
    ensures |s| == 4 * ((|b| + 2) / 3)
    decreases |b|
  {
    if |b| == 0 then ""
    else if |b| == 1 then [StdChar(Sextet0(b[0])), StdChar(Sextet1(b[0], 0))] + "=="
    else if |b| == 2 then [StdChar(Sextet0(b[0])), StdChar(Sextet1(b[0], b[1])), StdChar(Sextet2(b[1], 0))] + "="
    else
      [StdChar(Sextet0(b[0])), StdChar(Sextet1(b[0], b[1])), StdChar(Sextet2(b[1], b[2])), StdChar(Sextet3(b[2]))]
      + EncodeStd(b[3..])
  }

  /** Section 5 without the padding (section 3.2 allows leaving it out). */
  function Encode(b: seq<byte>): (s: string)
    ensures |s| == UnpaddedLength(|b|)
    ensures forall k | 0 <= k < |s| :: IsUrlSafe(s[k])
    decreases |b|
  {
    if |b| == 0 then ""
    else if |b| == 1 then [UrlChar(Sextet0(b[0])), UrlChar(Sextet1(b[0], 0))]
    else if |b| == 2 then [UrlChar(Sextet0(b[0])), UrlChar(Sextet1(b[0], b[1])), UrlChar(Sextet2(b[1], 0))]
    else
      [UrlChar(Sextet0(b[0])), UrlChar(Sextet1(b[0], b[1])), UrlChar(Sextet2(b[1], b[2])), UrlChar(Sextet3(b[2]))]
      + Encode(b[3..])
  }

  // The three bytes that four 6-bit groups carry, most significant first.
  function Byte0(v0: int, v1: int): int { v0 * 4 + v1 / 16 }
  function Byte1(v1: int, v2: int): int { (v1 % 16) * 16 + v2 / 4 }
  function Byte2(v2: int, v3: int): int { (v2 % 4) * 64 + v3 }

  /** Reads back the bytes of an unpadded section 5 encoding; a length that
      no encoding has, or a character outside the alphabet, is rejected. */
  function Decode(s: string): (r: Option<seq<byte>>)
    decreases |s|
  {
    if |s| == 0 then Some([])
    else if |s| == 1 || !IsUrlSafe(s[0]) || !IsUrlSafe(s[1]) then None
    else
      var v0, v1 := UrlValue(s[0]), UrlValue(s[1]);
      var b0: byte := Byte0(v0, v1);
      if |s| == 2 then Some([b0])
      else if !IsUrlSafe(s[2]) then None
      else
        var v2 := UrlValue(s[2]);
        var b1: byte := Byte1(v1, v2);
        if |s| == 3 then Some([b0, b1])
        else if !IsUrlSafe(s[3]) then None
        else
          var v3 := UrlValue(s[3]);
          var b2: byte := Byte2(v2, v3);
          match Decode(s[4..])
          case None => None
          case Some(rest) => Some([b0, b1, b2] + rest)
  }

  lemma GroupRoundTrip(b0: byte, b1: byte, b2: byte)
    ensures 0 <= Sextet0(b0) < 64 && 0 <= Sextet1(b0, b1) < 64
    ensures 0 <= Sextet2(b1, b2) < 64 && 0 <= Sextet3(b2) < 64
    ensures Byte0(Sextet0(b0), Sextet1(b0, b1)) == b0
    ensures Byte1(Sextet1(b0, b1), Sextet2(b1, b2)) == b1
    ensures Byte2(Sextet2(b1, b2), Sextet3(b2)) == b2
  {
  }

  lemma LastByteRoundTrip(b0: byte)
    ensures 0 <= Sextet0(b0) < 64 && 0 <= Sextet1(b0, 0) < 64
    ensures Byte0(Sextet0(b0), Sextet1(b0, 0)) == b0
  {
  }

  // What each encoding and the bytes themselves look like in terms of the
  // sextets, for a final one or two bytes and for a full group. Each fact
  // has its own lemma: proved together they cost the solver far more.

  lemma UrlOfOne(b: seq<byte>)
    requires |b| == 1
    ensures 0 <= Sextet0(b[0]) < 64 && 0 <= Sextet1(b[0], 0) < 64
    ensures Encode(b) == [UrlChar(Sextet0(b[0])), UrlChar(Sextet1(b[0], 0))]
  {
    LastByteRoundTrip(b[0]);
  }

  lemma StdOfOne(b: seq<byte>)
    requires |b| == 1
    ensures 0 <= Sextet0(b[0]) < 64 && 0 <= Sextet1(b[0], 0) < 64
    ensures EncodeStd(b) == [StdChar(Sextet0(b[0])), StdChar(Sextet1(b[0], 0)), '=', '=']
  {
    LastByteRoundTrip(b[0]);
  }

  lemma BytesOfOne(b: seq<byte>)
    requires |b| == 1
    ensures 0 <= Byte0(Sextet0(b[0]), Sextet1(b[0], 0)) < 256
    ensures b == [Byte0(Sextet0(b[0]), Sextet1(b[0], 0))]
  {
    LastByteRoundTrip(b[0]);
  }

  lemma UrlOfTwo(b: seq<byte>)
    requires |b| == 2
    ensures 0 <= Sextet0(b[0]) < 64 && 0 <= Sextet1(b[0], b[1]) < 64 && 0 <= Sextet2(b[1], 0) < 64
    ensures Encode(b) == [UrlChar(Sextet0(b[0])), UrlChar(Sextet1(b[0], b[1])), UrlChar(Sextet2(b[1], 0))]
  {
    GroupRoundTrip(b[0], b[1], 0);
  }

  lemma StdOfTwo(b: seq<byte>)
    requires |b| == 2
    ensures 0 <= Sextet0(b[0]) < 64 && 0 <= Sextet1(b[0], b[1]) < 64 && 0 <= Sextet2(b[1], 0) < 64
    ensures EncodeStd(b) == [StdChar(Sextet0(b[0])), StdChar(Sextet1(b[0], b[1])), StdChar(Sextet2(b[1], 0)), '=']
  {
    GroupRoundTrip(b[0], b[1], 0);
  }

  lemma BytesOfTwo(b: seq<byte>)
    requires |b| == 2
    ensures 0 <= Byte0(Sextet0(b[0]), Sextet1(b[0], b[1])) < 256
    ensures 0 <= Byte1(Sextet1(b[0], b[1]), Sextet2(b[1], 0)) < 256
    ensures b == [Byte0(Sextet0(b[0]), Sextet1(b[0], b[1])), Byte1(Sextet1(b[0], b[1]), Sextet2(b[1], 0))]
  {
    GroupRoundTrip(b[0], b[1], 0);
  }

  lemma UrlOfGroup(b: seq<byte>)
    requires |b| >= 3
    ensures 0 <= Sextet0(b[0]) < 64 && 0 <= Sextet1(b[0], b[1]) < 64
    ensures 0 <= Sextet2(b[1], b[2]) < 64 && 0 <= Sextet3(b[2]) < 64
    ensures Encode(b) == [UrlChar(Sextet0(b[0])), UrlChar(Sextet1(b[0], b[1])),
                          UrlChar(Sextet2(b[1], b[2])), UrlChar(Sextet3(b[2]))] + Encode(b[3..])
  {
    GroupRoundTrip(b[0], b[1], b[2]);
  }

  lemma StdOfGroup(b: seq<byte>)
    requires |b| >= 3
    ensures 0 <= Sextet0(b[0]) < 64 && 0 <= Sextet1(b[0], b[1]) < 64
    ensures 0 <= Sextet2(b[1], b[2]) < 64 && 0 <= Sextet3(b[2]) < 64
    ensures EncodeStd(b) == [StdChar(Sextet0(b[0])), StdChar(Sextet1(b[0], b[1])),
                             StdChar(Sextet2(b[1], b[2])), StdChar(Sextet3(b[2]))] + EncodeStd(b[3..])
  {
    GroupRoundTrip(b[0], b[1], b[2]);
  }

  lemma BytesOfGroup(b: seq<byte>)
    requires |b| >= 3
    ensures 0 <= Byte0(Sextet0(b[0]), Sextet1(b[0], b[1])) < 256
    ensures 0 <= Byte1(Sextet1(b[0], b[1]), Sextet2(b[1], b[2])) < 256
    ensures 0 <= Byte2(Sextet2(b[1], b[2]), Sextet3(b[2])) < 256
    ensures b == [Byte0(Sextet0(b[0]), Sextet1(b[0], b[1])), Byte1(Sextet1(b[0], b[1]), Sextet2(b[1], b[2])),
                  Byte2(Sextet2(b[1], b[2]), Sextet3(b[2]))] + b[3..]
  {
    GroupRoundTrip(b[0], b[1], b[2]);
    assert b == [b[0], b[1], b[2]] + b[3..];
  }

  /** Decoding undoes encoding: no two byte strings share an encoding. */
  lemma {:induction false} DecodeEncode(b: seq<byte>)
    ensures Decode(Encode(b)) == Some(b)
    decreases |b|
  {
    if |b| == 1 {
      DecodeOneByte(b);
    } else if |b| == 2 {
      DecodeTwoBytes(b);
    } else if |b| >= 3 {
      DecodeEncode(b[3..]);
      DecodeGroup(b);
    }
  }

  lemma DecodeOneByte(b: seq<byte>)
    requires |b| == 1
    ensures Decode(Encode(b)) == Some(b)
  {
    UrlOfOne(b);
    BytesOfOne(b);
    DecodeTwo(Sextet0(b[0]), Sextet1(b[0], 0));
  }

  lemma DecodeTwoBytes(b: seq<byte>)
    requires |b| == 2
    ensures Decode(Encode(b)) == Some(b)
  {
    UrlOfTwo(b);
    BytesOfTwo(b);
    DecodeThree(Sextet0(b[0]), Sextet1(b[0], b[1]), Sextet2(b[1], 0));
  }

  lemma DecodeTwo(v0: int, v1: int)
    requires 0 <= v0 < 64 && 0 <= v1 < 64 && 0 <= Byte0(v0, v1) < 256
    ensures Decode([UrlChar(v0), UrlChar(v1)]) == Some([Byte0(v0, v1)])
  {
    UrlValueOfChar(v0);
    UrlValueOfChar(v1);
  }

  lemma DecodeThree(v0: int, v1: int, v2: int)
    requires 0 <= v0 < 64 && 0 <= v1 < 64 && 0 <= v2 < 64
    requires 0 <= Byte0(v0, v1) < 256 && 0 <= Byte1(v1, v2) < 256
    ensures Decode([UrlChar(v0), UrlChar(v1), UrlChar(v2)]) == Some([Byte0(v0, v1), Byte1(v1, v2)])
  {
    UrlValueOfChar(v0);
    UrlValueOfChar(v1);
    UrlValueOfChar(v2);
  }

  /** One full group decodes to its three bytes, in front of the rest. */
  lemma DecodeGroup(b: seq<byte>)
    requires |b| >= 3
    requires Decode(Encode(b[3..])) == Some(b[3..])
    ensures Decode(Encode(b)) == Some(b)
  {
    UrlOfGroup(b);
    BytesOfGroup(b);
    DecodeFour(Sextet0(b[0]), Sextet1(b[0], b[1]), Sextet2(b[1], b[2]), Sextet3(b[2]), Encode(b[3..]), b[3..]);
  }

  /** Four characters in front of an encoding `rest` of `t` decode to the
      bytes they carry followed by `t`. */
  lemma DecodeFour(v0: int, v1: int, v2: int, v3: int, rest: string, t: seq<byte>)
    requires 0 <= v0 < 64 && 0 <= v1 < 64 && 0 <= v2 < 64 && 0 <= v3 < 64
    requires Decode(rest) == Some(t)
    ensures 0 <= Byte0(v0, v1) < 256 && 0 <= Byte1(v1, v2) < 256 && 0 <= Byte2(v2, v3) < 256
    ensures Decode([UrlChar(v0), UrlChar(v1), UrlChar(v2), UrlChar(v3)] + rest)
         == Some([Byte0(v0, v1), Byte1(v1, v2), Byte2(v2, v3)] + t)
  {
    var s := [UrlChar(v0), UrlChar(v1), UrlChar(v2), UrlChar(v3)] + rest;
    assert s[4..] == rest;
    UrlValueOfChar(v0);
    UrlValueOfChar(v1);
    UrlValueOfChar(v2);
    UrlValueOfChar(v3);
  }

  /** `s.replace(/a/g, b)`. */
  function ReplaceAll(s: string, a: char, b: char): (r: string)
    ensures |r| == |s|
    ensures a != b ==> a !in r
  {
    if s == [] then [] else [if s[0] == a then b else s[0]] + ReplaceAll(s[1..], a, b)
  }

  /** `s.replace(/a/g, '')`. */
  function RemoveAll(s: string, a: char): (r: string)
    ensures a !in r
    ensures |r| <= |s|
  {
    if s == [] then [] else (if s[0] == a then [] else [s[0]]) + RemoveAll(s[1..], a)
  }

  lemma {:induction false} RemoveAllConcat(s: string, t: string, a: char)
    ensures RemoveAll(s + t, a) == RemoveAll(s, a) + RemoveAll(t, a)
  {
    if s != [] {
      var head := if s[0] == a then [] else [s[0]];
      assert (s + t)[0] == s[0];
      assert (s + t)[1..] == s[1..] + t;
      RemoveAllConcat(s[1..], t, a);
      assert RemoveAll(s, a) == head + RemoveAll(s[1..], a);
      assert RemoveAll(s + t, a) == head + RemoveAll(s[1..] + t, a);
      assert RemoveAll(s + t, a) == head + (RemoveAll(s[1..], a) + RemoveAll(t, a));
    } else {
      assert s + t == t;
    }
  }

  lemma {:induction false} ReplaceAllConcat(s: string, t: string, a: char, b: char)
    ensures ReplaceAll(s + t, a, b) == ReplaceAll(s, a, b) + ReplaceAll(t, a, b)
  {
    if s != [] {
      var head := [if s[0] == a then b else s[0]];
      assert (s + t)[0] == s[0];
      assert (s + t)[1..] == s[1..] + t;
      ReplaceAllConcat(s[1..], t, a, b);
      assert ReplaceAll(s + t, a, b) == head + (ReplaceAll(s[1..], a, b) + ReplaceAll(t, a, b));
    } else {
      assert s + t == t;
    }
  }

  /** The three rewrites `generateRandomToken` applies: `+` to `-`, `/` to
      `_`, and `=` dropped. */
  function ToUrlAlphabet(s: string): (r: string)
    ensures '+' !in r && '/' !in r && '=' !in r
    ensures |r| <= |s|
  {
    ReplaceAllAbsent(ReplaceAll(s, '+', '-'), '/', '_', '+');
    RemoveAllAbsent(ReplaceAll(ReplaceAll(s, '+', '-'), '/', '_'), '=', '+');
    RemoveAllAbsent(ReplaceAll(ReplaceAll(s, '+', '-'), '/', '_'), '=', '/');
    RemoveAll(ReplaceAll(ReplaceAll(s, '+', '-'), '/', '_'), '=')
  }

  /** Removing one character does not bring back another that was absent. */
  lemma {:induction false} RemoveAllAbsent(s: string, a: char, c: char)
    requires c !in s
    ensures c !in RemoveAll(s, a)
  {
    if s != [] {
      assert s[0] != c;
      RemoveAllAbsent(s[1..], a, c);
    }
  }

  /** A rewrite does not bring back a character that was absent. */
  lemma {:induction false} ReplaceAllAbsent(s: string, a: char, b: char, c: char)
    requires c !in s && c != b
    ensures c !in ReplaceAll(s, a, b)
  {
    if s != [] {
      assert s[0] != c;
      ReplaceAllAbsent(s[1..], a, b, c);
    }
  }

  lemma ToUrlAlphabetConcat(s: string, t: string)
    ensures ToUrlAlphabet(s + t) == ToUrlAlphabet(s) + ToUrlAlphabet(t)
  {
    ReplaceAllConcat(s, t, '+', '-');
    ReplaceAllConcat(ReplaceAll(s, '+', '-'), ReplaceAll(t, '+', '-'), '/', '_');
    RemoveAllConcat(ReplaceAll(ReplaceAll(s, '+', '-'), '/', '_'), ReplaceAll(ReplaceAll(t, '+', '-'), '/', '_'), '=');
  }

  /** What the three rewrites do to one character. */
  function UrlDigit(c: char): string {
    if c == '+' then "-" else if c == '/' then "_" else if c == '=' then "" else [c]
  }

  /** The three rewrites applied character by character. */
  function UrlDigits(s: string): string {
    if s == [] then [] else UrlDigit(s[0]) + UrlDigits(s[1..])
  }

  lemma ToUrlAlphabetCons(c: char, t: string)
    ensures ToUrlAlphabet([c] + t) == UrlDigit(c) + ToUrlAlphabet(t)
  {
    ToUrlAlphabetConcat([c], t);
    assert [c][1..] == [];
  }

  /** The three global rewrites act on each character on its own. */
  lemma {:induction false} ToUrlAlphabetDigits(s: string)
    ensures ToUrlAlphabet(s) == UrlDigits(s)
  {
    if s != [] {
      assert s == [s[0]] + s[1..];
      ToUrlAlphabetCons(s[0], s[1..]);
      ToUrlAlphabetDigits(s[1..]);
    }
  }

  lemma UrlDigitsCons(c: char, t: string)
    ensures UrlDigits([c] + t) == UrlDigit(c) + UrlDigits(t)
  {
    assert ([c] + t)[1..] == t;
  }

  /** A character of the section 4 alphabet becomes the section 5 character
      for the same value. */
  lemma StdToUrl(v: int)
    requires 0 <= v < 64
    ensures UrlDigit(StdChar(v)) == [UrlChar(v)]
  {
  }

  /** Rewriting a section 4 encoding into the section 5 alphabet and dropping
      the padding gives the unpadded section 5 encoding of the same bytes. */
  lemma RewriteIsUrlEncoding(b: seq<byte>)
    ensures ToUrlAlphabet(EncodeStd(b)) == Encode(b)
  {
    ToUrlAlphabetDigits(EncodeStd(b));
    DigitsOfEncoding(b);
  }

  lemma {:induction false} DigitsOfEncoding(b: seq<byte>)
    ensures UrlDigits(EncodeStd(b)) == Encode(b)
    decreases |b|
  {
    if |b| == 1 {
      DigitsOfOneByte(b);
    } else if |b| == 2 {
      DigitsOfTwoBytes(b);
    } else if |b| >= 3 {
      DigitsOfEncoding(b[3..]);
      DigitsOfGroup(b);
    }
  }

  lemma DigitsOfOneByte(b: seq<byte>)
    requires |b| == 1
    ensures UrlDigits(EncodeStd(b)) == Encode(b)
  {
    UrlOfOne(b);
    StdOfOne(b);
    DigitsOfPairChars(Sextet0(b[0]), Sextet1(b[0], 0));
  }

  lemma DigitsOfTwoBytes(b: seq<byte>)
    requires |b| == 2
    ensures UrlDigits(EncodeStd(b)) == Encode(b)
  {
    UrlOfTwo(b);
    StdOfTwo(b);
    DigitsOfTripleChars(Sextet0(b[0]), Sextet1(b[0], b[1]), Sextet2(b[1], 0));
  }

  lemma DigitsOfGroup(b: seq<byte>)
    requires |b| >= 3
    requires UrlDigits(EncodeStd(b[3..])) == Encode(b[3..])
    ensures UrlDigits(EncodeStd(b)) == Encode(b)
  {
    UrlOfGroup(b);
    StdOfGroup(b);
    DigitsOfGroupChars(Sextet0(b[0]), Sextet1(b[0], b[1]), Sextet2(b[1], b[2]), Sextet3(b[2]),
                       EncodeStd(b[3..]), Encode(b[3..]));
  }

  lemma DigitsOfPairChars(v0: int, v1: int)
    requires 0 <= v0 < 64 && 0 <= v1 < 64
    ensures UrlDigits([StdChar(v0), StdChar(v1), '=', '=']) == [UrlChar(v0), UrlChar(v1)]
  {
    StdToUrl(v0);
    StdToUrl(v1);
    DigitsOfFour(StdChar(v0), StdChar(v1), '=', '=', []);
    assert [StdChar(v0), StdChar(v1), '=', '='] + [] == [StdChar(v0), StdChar(v1), '=', '='];
  }

  lemma DigitsOfTripleChars(v0: int, v1: int, v2: int)
    requires 0 <= v0 < 64 && 0 <= v1 < 64 && 0 <= v2 < 64
    ensures UrlDigits([StdChar(v0), StdChar(v1), StdChar(v2), '=']) == [UrlChar(v0), UrlChar(v1), UrlChar(v2)]
  {
    StdToUrl(v0);
    StdToUrl(v1);
    StdToUrl(v2);
    DigitsOfFour(StdChar(v0), StdChar(v1), StdChar(v2), '=', []);
    assert [StdChar(v0), StdChar(v1), StdChar(v2), '='] + [] == [StdChar(v0), StdChar(v1), StdChar(v2), '='];
  }

  lemma DigitsOfGroupChars(v0: int, v1: int, v2: int, v3: int, std: string, url: string)
    requires 0 <= v0 < 64 && 0 <= v1 < 64 && 0 <= v2 < 64 && 0 <= v3 < 64
    requires UrlDigits(std) == url
    ensures UrlDigits([StdChar(v0), StdChar(v1), StdChar(v2), StdChar(v3)] + std)
         == [UrlChar(v0), UrlChar(v1), UrlChar(v2), UrlChar(v3)] + url
  {
    StdToUrl(v0);
    StdToUrl(v1);
    StdToUrl(v2);
    StdToUrl(v3);
    DigitsOfFour(StdChar(v0), StdChar(v1), StdChar(v2), StdChar(v3), std);
    assert [UrlChar(v0)] + [UrlChar(v1)] + [UrlChar(v2)] + [UrlChar(v3)] + url
        == [UrlChar(v0), UrlChar(v1), UrlChar(v2), UrlChar(v3)] + url;
  }

  /** Four characters in front of any text rewrite one after the other. */
  lemma DigitsOfFour(c0: char, c1: char, c2: char, c3: char, rest: string)
    ensures UrlDigits([c0, c1, c2, c3] + rest)
         == UrlDigit(c0) + UrlDigit(c1) + UrlDigit(c2) + UrlDigit(c3) + UrlDigits(rest)
  {
    var s3 := [c3] + rest;
    var s2 := [c2] + s3;
    var s1 := [c1] + s2;
    assert [c0, c1, c2, c3] + rest == [c0] + s1;
    UrlDigitsCons(c3, rest);
    UrlDigitsCons(c2, s3);
    UrlDigitsCons(c1, s2);
    UrlDigitsCons(c0, s1);
  }

  /** An unpadded encoding of `ceil(3L/4)` bytes has at least `L` characters. */
  lemma EnoughCharacters(length: nat)
    ensures UnpaddedLength((3 * length + 3) / 4) >= length
  {
    var n := (3 * length + 3) / 4;
    assert 4 * n >= 3 * length;
    assert 3 * UnpaddedLength(n) >= 4 * n;
  }
}
