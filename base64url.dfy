/** Unpadded base64url, the "URL and Filename safe" alphabet of section 5 of RFC 4648 without
    '=' padding, as Go's `base64.RawURLEncoding` implements it: the encoder emits no padding;
    the decoder skips '\r' and '\n', refuses any other character outside the alphabet
    (including '='), refuses a lone trailing character, and ignores the unused low bits of a
    trailing two- or three-character group (Go's decoder is not strict by default). */
module Base64Url {
  import opened Wrappers

  type Byte = x: int | 0 <= x < 256
  type Sextet = x: int | 0 <= x < 64

  /** The alphabet of section 5 of RFC 4648: A-Z, a-z, 0-9, '-', '_'. */
  function Symbol(v: Sextet): (c: char)
    ensures Value(c) == Some(v)
  {
    if v < 26 then ('A' as int + v) as char
    else if v < 52 then ('a' as int + (v - 26)) as char
    else if v < 62 then ('0' as int + (v - 52)) as char
    else if v == 62 then '-'
    else '_'
  }

  /** The alphabet position of `c`, or None for a character outside the alphabet. */
  function Value(c: char): Option<Sextet>
  {
    if 'A' <= c <= 'Z' then Some(c as int - 'A' as int)
    else if 'a' <= c <= 'z' then Some(c as int - 'a' as int + 26)
    else if '0' <= c <= '9' then Some(c as int - '0' as int + 52)
    else if c == '-' then Some(62)
    else if c == '_' then Some(63)
    else None
  }

  /** A character of the URL-safe alphabet. */
  predicate IsUrlSafe(c: char)
  {
    Value(c).Some?
  }

  /** Go's `EncodedLen` for an unpadded encoding. */
  function EncodedLen(n: nat): nat
  {
    n / 3 * 4 + (n % 3 * 8 + 5) / 6
  }

  /** `RawURLEncoding.EncodeToString`: each 3-byte group becomes 4 symbols, a trailing
      1- or 2-byte group becomes 2 or 3 symbols. */
  function Encode(b: seq<Byte>): (s: string)
    ensures |s| == EncodedLen(|b|)
    ensures forall i :: 0 <= i < |s| ==> IsUrlSafe(s[i])
    decreases |b|
  {
    if |b| == 0 then ""
    else if |b| == 1 then [Symbol(b[0] / 4), Symbol(b[0] % 4 * 16)]
    else if |b| == 2 then [Symbol(b[0] / 4), Symbol(b[0] % 4 * 16 + b[1] / 16), Symbol(b[1] % 16 * 4)]
    else EncodeGroup(b[0], b[1], b[2]) + Encode(b[3..])
  }

  /** The four symbols of a full 3-byte group. */
  function EncodeGroup(x: Byte, y: Byte, z: Byte): (s: string)
    ensures |s| == 4 && forall i :: 0 <= i < 4 ==> IsUrlSafe(s[i])
  {
    [Symbol(x / 4), Symbol(x % 4 * 16 + y / 16), Symbol(y % 16 * 4 + z / 64), Symbol(z % 64)]
  }

  /** The input with every '\r' and '\n' removed, as Go's decoder skips them. */
  function StripNewlines(s: string): (t: string)
    ensures forall i :: 0 <= i < |t| ==> t[i] != '\r' && t[i] != '\n'
  {
    if |s| == 0 then ""
    else if s[0] == '\r' || s[0] == '\n' then StripNewlines(s[1..])
    else [s[0]] + StripNewlines(s[1..])
  }

  /** Decoding of newline-free input, four symbols at a time. */
  function DecodeSymbols(s: string): Option<seq<Byte>>
    decreases |s|
  {
    if |s| == 0 then Some([])
    else if |s| == 1 || Value(s[0]).None? || Value(s[1]).None? then None
    else
      var a, b := Value(s[0]).value, Value(s[1]).value;
      if |s| == 2 then Some([a * 4 + b / 16])
      else if Value(s[2]).None? then None
      else
        var c := Value(s[2]).value;
        if |s| == 3 then Some([a * 4 + b / 16, b % 16 * 16 + c / 4])
        else if Value(s[3]).None? then None
        else
          var d := Value(s[3]).value;
          match DecodeSymbols(s[4..])
          case None => None
          case Some(rest) => Some([a * 4 + b / 16, b % 16 * 16 + c / 4, c % 4 * 64 + d] + rest)
  }

  /** `RawURLEncoding.DecodeString`; None stands for Go's CorruptInputError. */
  function DecodeString(s: string): Option<seq<Byte>>
  {
    DecodeSymbols(StripNewlines(s))
  }

  /** Decoding fails on any character that is neither in the alphabet nor a newline. */
  lemma {:induction false} DecodeRejectsForeign(s: string, i: nat)
    requires i < |s| && !IsUrlSafe(s[i]) && s[i] != '\r' && s[i] != '\n'
    ensures DecodeString(s) == None
  {
    var k := StrippedIndex(s, i);
    ForeignSymbolFails(StripNewlines(s), k);
  }

  /** Where the `i`-th character of `s` lands after newlines are stripped. */
  lemma {:induction false} StrippedIndex(s: string, i: nat) returns (k: nat)
    requires i < |s| && s[i] != '\r' && s[i] != '\n'
    ensures k < |StripNewlines(s)| && StripNewlines(s)[k] == s[i]
  {
    if i == 0 {
      k := 0;
    } else {
      var k' := StrippedIndex(s[1..], i - 1);
      k := if s[0] == '\r' || s[0] == '\n' then k' else k' + 1;
    }
  }

  lemma {:induction false} ForeignSymbolFails(t: string, k: nat)
    requires k < |t| && !IsUrlSafe(t[k])
    ensures DecodeSymbols(t) == None
    decreases |t|
  {
    if |t| >= 4 && k >= 4 {
      ForeignSymbolFails(t[4..], k - 4);
    }
  }

  /** Encoded text contains no newline, so stripping leaves it as it is. */
  lemma {:induction false} StripUrlSafe(s: string)
    requires forall i :: 0 <= i < |s| ==> IsUrlSafe(s[i])
    ensures StripNewlines(s) == s
  {
    if |s| > 0 {
      StripUrlSafe(s[1..]);
      assert [s[0]] + s[1..] == s;
    }
  }

  /** One 3-byte group survives the trip through four symbols. */
  lemma GroupRoundTrip(x: Byte, y: Byte, z: Byte)
    ensures var a, b, c, d := x / 4, x % 4 * 16 + y / 16, y % 16 * 4 + z / 64, z % 64;
      a * 4 + b / 16 == x && b % 16 * 16 + c / 4 == y && c % 4 * 64 + d == z
  {
    var b := x % 4 * 16 + y / 16;
    assert b / 16 == x % 4 && b % 16 == y / 16;
    var c := y % 16 * 4 + z / 64;
    assert c / 4 == y % 16 && c % 4 == z / 64;
  }

  /** A trailing single byte survives the trip through two symbols. */
  lemma DecodeOneByte(x: Byte)
    ensures DecodeSymbols(Encode([x])) == Some([x])
  {
    var s := Encode([x]);
    assert (x % 4 * 16) / 16 == x % 4;
    assert Value(s[0]) == Some(x / 4) && Value(s[1]) == Some(x % 4 * 16);
  }

  /** A trailing pair of bytes survives the trip through three symbols. */
  lemma DecodeTwoBytes(x: Byte, y: Byte)
    ensures DecodeSymbols(Encode([x, y])) == Some([x, y])
  {
    var s := Encode([x, y]);
    GroupRoundTrip(x, y, 0);
    assert (y % 16 * 4) / 4 == y % 16;
    assert Value(s[0]) == Some(x / 4);
    assert Value(s[1]) == Some(x % 4 * 16 + y / 16);
    assert Value(s[2]) == Some(y % 16 * 4);
  }

  /** Four valid symbols in front decode to their three bytes in front of the rest. */
  lemma DecodeFront(s: string, a: Sextet, b: Sextet, c: Sextet, d: Sextet)
    requires |s| >= 4 && Value(s[0]) == Some(a) && Value(s[1]) == Some(b)
    requires Value(s[2]) == Some(c) && Value(s[3]) == Some(d)
    ensures DecodeSymbols(s[4..]).Some? ==>
      DecodeSymbols(s) == Some([a * 4 + b / 16, b % 16 * 16 + c / 4, c % 4 * 64 + d] + DecodeSymbols(s[4..]).value)
  {
  }

  /** A full group in front of more symbols decodes to its three bytes in front of theirs. */
  lemma DecodeGroup(x: Byte, y: Byte, z: Byte, rest: string)
    ensures DecodeSymbols(rest).Some? ==>
      DecodeSymbols(EncodeGroup(x, y, z) + rest) == Some([x, y, z] + DecodeSymbols(rest).value)
  {
    var s := EncodeGroup(x, y, z) + rest;
    assert s[4..] == rest;
    DecodeFront(s, x / 4, x % 4 * 16 + y / 16, y % 16 * 4 + z / 64, z % 64);
    GroupRoundTrip(x, y, z);
  }

  /** Decoding inverts encoding (the symbols alone). */
  lemma {:induction false} DecodeSymbolsEncode(b: seq<Byte>)
    ensures DecodeSymbols(Encode(b)) == Some(b)
    decreases |b|
  {
    if |b| == 1 {
      assert b == [b[0]];
      DecodeOneByte(b[0]);
    } else if |b| == 2 {
      assert b == [b[0], b[1]];
      DecodeTwoBytes(b[0], b[1]);
    } else if |b| >= 3 {
      DecodeSymbolsEncode(b[3..]);
      DecodeGroup(b[0], b[1], b[2], Encode(b[3..]));
      assert [b[0], b[1], b[2]] + b[3..] == b;
    }
  }

  /** Round trip through Go's `RawURLEncoding`: `DecodeString(EncodeToString(b)) == b`. */
  lemma DecodeEncode(b: seq<Byte>)
    ensures DecodeString(Encode(b)) == Some(b)
  {
    StripUrlSafe(Encode(b));
    DecodeSymbolsEncode(b);
  }

  /** A 32-byte value encodes to exactly 43 URL-safe characters. */
  lemma Encode32(b: seq<Byte>)
    requires |b| == 32
    ensures |Encode(b)| == 43
  {
  }
}
