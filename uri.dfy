/** `encodeURIComponent` as ECMA-262 defines it (the Encode abstract operation
    of section 18.2.6 in the 2020 edition), over strings of Unicode scalar
    values: characters of the unreserved set are kept, every other character
    becomes the UTF-8 octets of its code point, each written as `%XY` with
    upper-case hexadecimal digits. `Decode` is the matching
    `decodeURIComponent`, and `DecodeEncode` proves the two are inverse, so an
    encoded value embedded in a request can always be recovered. */
module Uri {
  import opened Wrappers

  type Octet = b: nat | b < 256

  /** The characters `encodeURIComponent` leaves unescaped:
      A-Z a-z 0-9 - _ . ! ~ * ' ( ) */
  predicate Unreserved(c: char) {
    'A' <= c <= 'Z' || 'a' <= c <= 'z' || '0' <= c <= '9' ||
    c == '-' || c == '_' || c == '.' || c == '!' || c == '~' ||
    c == '*' || c == '\'' || c == '(' || c == ')'
  }

  predicate UpperHex(c: char) {
    '0' <= c <= '9' || 'A' <= c <= 'F'
  }

  /** Every character an encoded string may contain. */
  predicate UriSafe(c: char) {
    Unreserved(c) || c == '%' || UpperHex(c)
  }

  function HexDigit(d: nat): (c: char)
    requires d < 16
    ensures UpperHex(c)
  {
    if d < 10 then ('0' as int + d) as char else ('A' as int + d - 10) as char
  }

  /** The value of a hexadecimal digit of either case. */
  function HexValue(c: char): (r: Option<nat>)
    ensures r.Some? ==> r.value < 16
  {
    if '0' <= c <= '9' then Some(c as int - '0' as int)
    else if 'A' <= c <= 'F' then Some(c as int - 'A' as int + 10)
    else if 'a' <= c <= 'f' then Some(c as int - 'a' as int + 10)
    else None
  }

  lemma HexValueDigit(d: nat)
    requires d < 16
    ensures HexValue(HexDigit(d)) == Some(d)
  {
  }

  // ---------------------------------------------------------------------
  // Encoding

  /** The UTF-8 octets of a code point. */
  function Utf8(c: char): (bs: seq<Octet>)
    ensures 1 <= |bs| <= 4
  {
    var cp := c as int;
    if cp < 0x80 then [cp]
    else if cp < 0x800 then [0xC0 + cp / 64, 0x80 + cp % 64]
    else if cp < 0x10000 then [0xE0 + cp / 4096, 0x80 + (cp / 64) % 64, 0x80 + cp % 64]
    else [0xF0 + cp / 262144, 0x80 + (cp / 4096) % 64, 0x80 + (cp / 64) % 64, 0x80 + cp % 64]
  }

  /** Each octet as `%XY`. */
  function Percent(bs: seq<Octet>): (s: string)
    ensures |s| == 3 * |bs|
    ensures forall i :: 0 <= i < |s| ==> UriSafe(s[i])
  {
    if bs == [] then ""
    else ['%', HexDigit(bs[0] / 16), HexDigit(bs[0] % 16)] + Percent(bs[1..])
  }

  function EncodeChar(c: char): (s: string)
    ensures forall i :: 0 <= i < |s| ==> UriSafe(s[i])
  {
    if Unreserved(c) then [c] else Percent(Utf8(c))
  }

  /** `encodeURIComponent(s)`. The result holds only unreserved characters,
      '%' and hexadecimal digits; in particular none of '&', '?', '=', '#'
      and '/', which structure a URL. */
  function Encode(s: string): (r: string)
    ensures forall i :: 0 <= i < |r| ==> UriSafe(r[i])
  {
    if s == [] then "" else EncodeChar(s[0]) + Encode(s[1..])
  }

  // ---------------------------------------------------------------------
  // Decoding

  /** The octet written as `%XY` at position `i` of `s`, if there is one. */
  function OctetAt(s: string, i: nat): (r: Option<Octet>)
    ensures r.Some? ==> i + 3 <= |s|
  {
    if i + 3 <= |s| && s[i] == '%' then
      match (HexValue(s[i + 1]), HexValue(s[i + 2]))
      case (Some(hi), Some(lo)) => Some(hi * 16 + lo)
      case _ => None
    else None
  }

  /** `n` consecutive `%XY` octets at the start of `s`. */
  function Octets(s: string, n: nat): (r: Option<seq<Octet>>)
    ensures r.Some? ==> |r.value| == n && 3 * n <= |s|
  {
    if n == 0 then Some([])
    else match OctetAt(s, 0)
      case None => None
      case Some(b) =>
        match Octets(s[3..], n - 1)
        case None => None
        case Some(rest) => Some([b] + rest)
  }

  /** The length of a UTF-8 sequence given its first octet (0: not a lead octet). */
  function Utf8Length(lead: Octet): nat {
    if lead < 0x80 then 1
    else if 0xC0 <= lead < 0xE0 then 2
    else if 0xE0 <= lead < 0xF0 then 3
    else if 0xF0 <= lead < 0xF8 then 4
    else 0
  }

  predicate Continuation(b: Octet) {
    0x80 <= b < 0xC0
  }

  /** The code point of a well-formed UTF-8 sequence; overlong forms,
      surrogates and values past U+10FFFF are rejected. */
  function Utf8Decode(bs: seq<Octet>): Option<char>
    requires 1 <= |bs| <= 4
  {
    if Utf8Length(bs[0]) != |bs| then None
    else if exists i :: 1 <= i < |bs| && !Continuation(bs[i]) then None
    else
      var cp := CodePoint(bs);
      var least: int := if |bs| == 1 then 0 else if |bs| == 2 then 0x80 else if |bs| == 3 then 0x800 else 0x10000;
      if cp < least || (0xD800 <= cp < 0xE000) || 0x11_0000 <= cp then None
      else Some(cp as char)
  }

  /** The code point a UTF-8 sequence of the given length spells. */
  function CodePoint(bs: seq<Octet>): int
    requires 1 <= |bs| <= 4
  {
    var b0 := bs[0] as int;
    if |bs| == 1 then b0
    else if |bs| == 2 then (b0 - 0xC0) * 64 + (bs[1] as int - 0x80)
    else if |bs| == 3 then (b0 - 0xE0) * 4096 + (bs[1] as int - 0x80) * 64 + (bs[2] as int - 0x80)
    else (b0 - 0xF0) * 262144 + (bs[1] as int - 0x80) * 4096 + (bs[2] as int - 0x80) * 64 + (bs[3] as int - 0x80)
  }

  function Prepend(c: char, rest: Option<string>): Option<string> {
    match rest
    case None => None
    case Some(t) => Some([c] + t)
  }

  /** `decodeURIComponent(s)`; `None` where it would throw a URIError. */
  function Decode(s: string): Option<string>
    decreases |s|
  {
    if s == [] then Some("")
    else if s[0] != '%' then Prepend(s[0], Decode(s[1..]))
    else match OctetAt(s, 0)
      case None => None
      case Some(lead) =>
        var n := Utf8Length(lead);
        if n == 0 then None
        else match Octets(s, n)
          case None => None
          case Some(bs) =>
            match Utf8Decode(bs)
            case None => None
            case Some(c) => Prepend(c, Decode(s[3 * n..]))
  }

  // ---------------------------------------------------------------------
  // Round trip

  lemma {:induction false} OctetsPercent(bs: seq<Octet>, rest: string)
    ensures Octets(Percent(bs) + rest, |bs|) == Some(bs)
    decreases |bs|
  {
    if bs != [] {
      var s := Percent(bs) + rest;
      HexValueDigit(bs[0] / 16);
      HexValueDigit(bs[0] % 16);
      assert OctetAt(s, 0) == Some(bs[0]);
      assert s[3..] == Percent(bs[1..]) + rest;
      OctetsPercent(bs[1..], rest);
      assert [bs[0]] + bs[1..] == bs;
    }
  }

  /** Splitting a number into base-64 digits and joining them again. */
  lemma Base64Digits(cp: nat)
    ensures (cp / 64) / 64 == cp / 4096 && (cp / 4096) / 64 == cp / 262144
    ensures (cp / 4096) * 4096 + ((cp / 64) % 64) * 64 + cp % 64 == cp
    ensures (cp / 262144) * 262144 + ((cp / 4096) % 64) * 4096 + ((cp / 64) % 64) * 64 + cp % 64 == cp
  {
    var q := cp / 64;
    var p := q / 64;
    var t := p / 64;
    assert cp == q * 64 + cp % 64;
    assert q == p * 64 + q % 64;
    assert p == t * 64 + p % 64;
    assert cp == p * 4096 + (q % 64) * 64 + cp % 64;
    assert cp == t * 262144 + (p % 64) * 4096 + (q % 64) * 64 + cp % 64;
  }

  lemma Utf8RoundTrip(c: char)
    ensures Utf8Length(Utf8(c)[0]) == |Utf8(c)|
    ensures forall i :: 1 <= i < |Utf8(c)| ==> Continuation(Utf8(c)[i])
    ensures Utf8Decode(Utf8(c)) == Some(c)
  {
    var cp := c as int;
    var bs := Utf8(c);
    Base64Digits(cp);
    if cp < 0x80 {
    } else if cp < 0x800 {
      assert bs == [0xC0 + cp / 64, 0x80 + cp % 64];
      assert CodePoint(bs) == cp;
    } else if cp < 0x10000 {
      assert bs == [0xE0 + cp / 4096, 0x80 + (cp / 64) % 64, 0x80 + cp % 64];
      assert CodePoint(bs) == cp;
    } else {
      assert CodePoint(bs) == cp;
    }
  }

  lemma DecodeEncodeChar(c: char, rest: string)
    ensures Decode(EncodeChar(c) + rest) == Prepend(c, Decode(rest))
  {
    var s := EncodeChar(c) + rest;
    if Unreserved(c) {
      assert s[0] == c && s[1..] == rest;
    } else {
      var bs := Utf8(c);
      Utf8RoundTrip(c);
      OctetsPercent(bs, rest);
      HexValueDigit(bs[0] / 16);
      HexValueDigit(bs[0] % 16);
      assert OctetAt(s, 0) == Some(bs[0]);
      assert s[3 * |bs|..] == rest;
    }
  }

  /** `decodeURIComponent(encodeURIComponent(s)) == s` for every string. */
  lemma {:induction false} DecodeEncode(s: string)
    ensures Decode(Encode(s)) == Some(s)
    decreases |s|
  {
    if s != [] {
      assert Encode(s) == EncodeChar(s[0]) + Encode(s[1..]);
      DecodeEncodeChar(s[0], Encode(s[1..]));
      DecodeEncode(s[1..]);
      assert Prepend(s[0], Some(s[1..])) == Some([s[0]] + s[1..]);
      assert [s[0]] + s[1..] == s;
    }
  }

  /** Encoding is injective: distinct values never share an encoding. */
  lemma EncodeInjective(a: string, b: string)
    ensures Encode(a) == Encode(b) <==> a == b
  {
    DecodeEncode(a);
    DecodeEncode(b);
  }
}
