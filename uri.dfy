/**
 * `encodeURIComponent` (ECMA-262, section 19.2.6.5 "encodeURIComponent ( uriComponent )"):
 * every character outside the unreserved set becomes the `%XX` escapes of its UTF-8 bytes,
 * with upper-case hexadecimal digits. Dafny's `char` is a Unicode scalar value, so the
 * lone-surrogate URIError of the standard cannot arise.
 *
 * `Decode` is the partner used to state that nothing is lost: it reads the escapes back.
 */
module Uri {
  import opened Js

  /** uriAlpha, DecimalDigit and uriMark: the characters left as they are. */
  predicate Unreserved(c: char)
  {
    ('A' <= c <= 'Z') || ('a' <= c <= 'z') || ('0' <= c <= '9') || c in "-_.!~*'()"
  }

  function HexDigit(d: nat): char
    requires d < 16
  {
    if d < 10 then DigitChar(d) else ('A' as int + d - 10) as char
  }

  predicate IsByte(b: int) { 0 <= b < 256 }

  /** The UTF-8 encoding of a code point. */
  function Utf8(cp: nat): (bytes: seq<int>)
    requires cp < 0x11_0000
    ensures 1 <= |bytes| <= 4
    ensures forall i :: 0 <= i < |bytes| ==> IsByte(bytes[i])
  {
    if cp < 0x80 then [cp]
    else if cp < 0x800 then [0xC0 + cp / 64, 0x80 + cp % 64]
    else if cp < 0x1_0000 then [0xE0 + cp / 4096, 0x80 + (cp / 64) % 64, 0x80 + cp % 64]
    else [0xF0 + cp / 262144, 0x80 + (cp / 4096) % 64, 0x80 + (cp / 64) % 64, 0x80 + cp % 64]
  }

  function Escape(b: int): string
    requires IsByte(b)
  {
    ['%', HexDigit(b / 16), HexDigit(b % 16)]
  }

  function EscapeAll(bytes: seq<int>): (r: string)
    requires forall i :: 0 <= i < |bytes| ==> IsByte(bytes[i])
    ensures |r| == 3 * |bytes|
    ensures forall i :: 0 <= i < |r| ==> Unreserved(r[i]) || r[i] == '%'
  {
    if bytes == [] then [] else Escape(bytes[0]) + EscapeAll(bytes[1..])
  }

  function EncodeChar(c: char): (r: string)
    ensures forall i :: 0 <= i < |r| ==> Unreserved(r[i]) || r[i] == '%'
  {
    if Unreserved(c) then [c] else EscapeAll(Utf8(c as int))
  }

  /** Only unreserved characters and `%` remain: in particular no `&` and no `=`. */
  function EncodeURIComponent(s: string): (r: string)
    ensures forall i :: 0 <= i < |r| ==> Unreserved(r[i]) || r[i] == '%'
  {
    if s == [] then [] else EncodeChar(s[0]) + EncodeURIComponent(s[1..])
  }

  // ---- the decoding partner ----

  function HexValue(c: char): Option<nat>
  {
    if '0' <= c <= '9' then Some(c as int - '0' as int)
    else if 'A' <= c <= 'F' then Some(c as int - 'A' as int + 10)
    else if 'a' <= c <= 'f' then Some(c as int - 'a' as int + 10)
    else None
  }

  /** The byte written as `%XX` at index `i`, if there is one. */
  function ByteAt(s: string, i: nat): Option<int>
  {
    if i + 3 <= |s| && s[i] == '%' && HexValue(s[i + 1]).Some? && HexValue(s[i + 2]).Some? then
      Some(16 * HexValue(s[i + 1]).value + HexValue(s[i + 2]).value)
    else None
  }

  /** The low six bits of a UTF-8 continuation byte written at index `i`. */
  function ContAt(s: string, i: nat): Option<int>
  {
    match ByteAt(s, i)
    case Some(b) => if 0x80 <= b < 0xC0 then Some(b - 0x80) else None
    case None => None
  }

  predicate IsScalar(cp: int)
  {
    (0 <= cp < 0xD800) || (0xE000 <= cp < 0x11_0000)
  }

  /** One escaped character at the front of `s`: the character and the length of its escapes. */
  function DecodeEscaped(s: string): (r: Option<(char, nat)>)
    ensures r.Some? ==> 3 <= r.value.1 <= |s|
  {
    match ByteAt(s, 0)
    case None => None
    case Some(b0) =>
      var (cp, n) :=
        if b0 < 0x80 then (b0, 3)
        else if 0xC0 <= b0 < 0xE0 && ContAt(s, 3).Some? then
          ((b0 - 0xC0) * 64 + ContAt(s, 3).value, 6)
        else if 0xE0 <= b0 < 0xF0 && ContAt(s, 3).Some? && ContAt(s, 6).Some? then
          ((b0 - 0xE0) * 4096 + ContAt(s, 3).value * 64 + ContAt(s, 6).value, 9)
        else if 0xF0 <= b0 < 0xF8 && ContAt(s, 3).Some? && ContAt(s, 6).Some? && ContAt(s, 9).Some? then
          ((b0 - 0xF0) * 262144 + ContAt(s, 3).value * 4096 + ContAt(s, 6).value * 64
            + ContAt(s, 9).value, 12)
        else (-1, 3);
      if IsScalar(cp) then Some((cp as char, n)) else None
  }

  function Prepend(c: char, r: Option<string>): Option<string>
  {
    match r
    case Some(t) => Some([c] + t)
    case None => None
  }

  /** Percent-decoding: escapes become the characters their UTF-8 bytes spell. */
  function Decode(s: string): Option<string>
    decreases |s|
  {
    if s == [] then Some([])
    else if s[0] != '%' then Prepend(s[0], Decode(s[1..]))
    else match DecodeEscaped(s)
      case None => None
      case Some((c, n)) => Prepend(c, Decode(s[n..]))
  }

  lemma HexRoundTrip(d: nat)
    requires d < 16
    ensures HexValue(HexDigit(d)) == Some(d)
  {
  }

  /** The `k`-th escape of `EscapeAll(bytes)` reads back as `bytes[k]`. */
  lemma {:induction false} ByteAtEscapes(bytes: seq<int>, rest: string, k: nat)
    requires forall i :: 0 <= i < |bytes| ==> IsByte(bytes[i])
    requires k < |bytes|
    ensures ByteAt(EscapeAll(bytes) + rest, 3 * k) == Some(bytes[k])
  {
    var t := EscapeAll(bytes[1..]) + rest;
    EscapeAllCons(bytes, rest);
    if k == 0 {
      ByteAtEscape(bytes[0], t);
    } else {
      ByteAtEscapes(bytes[1..], rest, k - 1);
      ByteAtShift(Escape(bytes[0]), t, 3 * (k - 1));
    }
  }

  lemma EscapeAllCons(bytes: seq<int>, rest: string)
    requires forall i :: 0 <= i < |bytes| ==> IsByte(bytes[i])
    requires bytes != []
    ensures EscapeAll(bytes) + rest == Escape(bytes[0]) + (EscapeAll(bytes[1..]) + rest)
    ensures |Escape(bytes[0])| == 3
    ensures forall i :: 0 <= i < |bytes[1..]| ==> IsByte(bytes[1..][i])
  {
    assert forall i :: 0 <= i < |bytes[1..]| ==> bytes[1..][i] == bytes[i + 1];
  }

  /** One `%XX` escape reads back as its byte. */
  lemma ByteAtEscape(b: int, t: string)
    requires IsByte(b)
    ensures ByteAt(Escape(b) + t, 0) == Some(b)
  {
    var s := Escape(b) + t;
    assert s[0] == '%' && s[1] == HexDigit(b / 16) && s[2] == HexDigit(b % 16);
    HexRoundTrip(b / 16);
    HexRoundTrip(b % 16);
  }

  /** Reading a byte past a prefix is reading it in what follows the prefix. */
  lemma ByteAtShift(p: string, t: string, i: nat)
    ensures ByteAt(p + t, |p| + i) == ByteAt(t, i)
  {
    if i + 3 <= |t| {
      assert (p + t)[|p| + i] == t[i];
      assert (p + t)[|p| + i + 1] == t[i + 1];
      assert (p + t)[|p| + i + 2] == t[i + 2];
    }
  }

  /** The escapes of a reserved character decode to that character, and exactly they are consumed. */
  lemma DecodeEscapedChar(c: char, rest: string)
    requires !Unreserved(c)
    ensures DecodeEscaped(EncodeChar(c) + rest) == Some((c, |EncodeChar(c)|))
  {
    var bytes := Utf8(c as int);
    var s := EncodeChar(c) + rest;
    assert s == EscapeAll(bytes) + rest;
    ByteAtEscapes(bytes, rest, 0);
    if c as int < 0x80 {
    } else if c as int < 0x800 {
      ByteAtEscapes(bytes, rest, 1);
      DecodeTwo(c, s);
    } else if c as int < 0x1_0000 {
      EscapedThree(c, bytes, rest);
    } else {
      EscapedFour(c, bytes, rest);
    }
  }

  lemma EscapedThree(c: char, bytes: seq<int>, rest: string)
    requires 0x800 <= c as int < 0x1_0000 && bytes == Utf8(c as int)
    ensures DecodeEscaped(EscapeAll(bytes) + rest) == Some((c, 9))
  {
    var cp := c as int;
    var a, b, d := cp / 4096, (cp / 64) % 64, cp % 64;
    Digits(cp);
    assert bytes == [0xE0 + a, 0x80 + b, 0x80 + d];
    DecodeThreeBytes(c, a, b, d, rest);
  }

  lemma EscapedFour(c: char, bytes: seq<int>, rest: string)
    requires 0x1_0000 <= c as int && bytes == Utf8(c as int)
    ensures DecodeEscaped(EscapeAll(bytes) + rest) == Some((c, 12))
  {
    var cp := c as int;
    var a, b, e, d := cp / 262144, (cp / 4096) % 64, (cp / 64) % 64, cp % 64;
    Digits(cp);
    assert bytes == [0xF0 + a, 0x80 + b, 0x80 + e, 0x80 + d];
    DecodeFourBytes(c, a, b, e, d, rest);
  }

  /** A code point read as base-64 digits, the way UTF-8 spreads it over bytes. */
  lemma Digits(cp: nat)
    ensures cp == (cp / 4096) * 4096 + ((cp / 64) % 64) * 64 + cp % 64
    ensures cp == (cp / 262144) * 262144 + ((cp / 4096) % 64) * 4096 + ((cp / 64) % 64) * 64 + cp % 64
    ensures cp < 0x1_0000 ==> cp / 4096 < 16
    ensures cp < 0x11_0000 ==> cp / 262144 < 8
  {
    var q1 := cp / 64;
    var q2 := q1 / 64;
    assert cp == q2 * 4096 + (q1 % 64) * 64 + cp % 64;
    assert q2 == cp / 4096;
    var q3 := q2 / 64;
    assert cp == q3 * 262144 + (q2 % 64) * 4096 + (q1 % 64) * 64 + cp % 64;
    assert q3 == cp / 262144;
  }

  /** Three escapes spelling the UTF-8 bytes of digits `a`, `b`, `d` decode to the character they make. */
  lemma DecodeThreeBytes(c: char, a: int, b: int, d: int, rest: string)
    requires 0 <= a < 16 && 0 <= b < 64 && 0 <= d < 64
    requires c as int == a * 4096 + b * 64 + d
    ensures DecodeEscaped(EscapeAll([0xE0 + a, 0x80 + b, 0x80 + d]) + rest) == Some((c, 9))
  {
    var bytes := [0xE0 + a, 0x80 + b, 0x80 + d];
    ByteAtEscapes(bytes, rest, 0);
    ByteAtEscapes(bytes, rest, 1);
    ByteAtEscapes(bytes, rest, 2);
    DecodeThree(c, EscapeAll(bytes) + rest, a, b, d);
  }

  /** Four escapes spelling the UTF-8 bytes of digits `a`, `b`, `e`, `d` decode to the character they make. */
  lemma DecodeFourBytes(c: char, a: int, b: int, e: int, d: int, rest: string)
    requires 0 <= a < 8 && 0 <= b < 64 && 0 <= e < 64 && 0 <= d < 64
    requires c as int == a * 262144 + b * 4096 + e * 64 + d
    ensures DecodeEscaped(EscapeAll([0xF0 + a, 0x80 + b, 0x80 + e, 0x80 + d]) + rest) == Some((c, 12))
  {
    var bytes := [0xF0 + a, 0x80 + b, 0x80 + e, 0x80 + d];
    ByteAtEscapes(bytes, rest, 0);
    ByteAtEscapes(bytes, rest, 1);
    ByteAtEscapes(bytes, rest, 2);
    ByteAtEscapes(bytes, rest, 3);
    DecodeFour(c, EscapeAll(bytes) + rest, a, b, e, d);
  }

  lemma DecodeTwo(c: char, s: string)
    requires 0x80 <= c as int < 0x800
    requires ByteAt(s, 0) == Some(0xC0 + c as int / 64)
    requires ByteAt(s, 3) == Some(0x80 + c as int % 64)
    ensures DecodeEscaped(s) == Some((c, 6))
  {
    assert ContAt(s, 3) == Some(c as int % 64);
  }

  lemma DecodeThree(c: char, s: string, a: int, b: int, d: int)
    requires 0 <= a < 16 && 0 <= b < 64 && 0 <= d < 64
    requires c as int == a * 4096 + b * 64 + d
    requires ByteAt(s, 0) == Some(0xE0 + a)
    requires ByteAt(s, 3) == Some(0x80 + b)
    requires ByteAt(s, 6) == Some(0x80 + d)
    ensures DecodeEscaped(s) == Some((c, 9))
  {
    assert ContAt(s, 3) == Some(b);
    assert ContAt(s, 6) == Some(d);
  }

  lemma DecodeFour(c: char, s: string, a: int, b: int, e: int, d: int)
    requires 0 <= a < 8 && 0 <= b < 64 && 0 <= e < 64 && 0 <= d < 64
    requires c as int == a * 262144 + b * 4096 + e * 64 + d
    requires ByteAt(s, 0) == Some(0xF0 + a)
    requires ByteAt(s, 3) == Some(0x80 + b)
    requires ByteAt(s, 6) == Some(0x80 + e)
    requires ByteAt(s, 9) == Some(0x80 + d)
    ensures DecodeEscaped(s) == Some((c, 12))
  {
    assert ContAt(s, 3) == Some(b);
    assert ContAt(s, 6) == Some(e);
    assert ContAt(s, 9) == Some(d);
  }

  /** Decoding undoes encodeURIComponent. */
  lemma {:induction false} DecodeEncode(s: string)
    ensures Decode(EncodeURIComponent(s)) == Some(s)
  {
    if s != [] {
      var rest := EncodeURIComponent(s[1..]);
      assert EncodeURIComponent(s) == EncodeChar(s[0]) + rest;
      DecodeEncode(s[1..]);
      DecodeCharThen(s[0], rest);
      assert s == [s[0]] + s[1..];
    }
  }

  /** Decoding the escapes of one character, then the rest. */
  lemma DecodeCharThen(c: char, rest: string)
    ensures Decode(EncodeChar(c) + rest) == Prepend(c, Decode(rest))
  {
    var e := EncodeChar(c) + rest;
    if Unreserved(c) {
      assert e[0] == c && e[1..] == rest;
    } else {
      DecodeEscapedChar(c, rest);
      assert e[0] == '%';
      assert e[|EncodeChar(c)|..] == rest;
    }
  }
}
