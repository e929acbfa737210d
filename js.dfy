/** The few JavaScript built-ins the library leans on, restricted to the
    values the library feeds them: rendering an integer Number as a String,
    the truthiness of an optional string, `String(undefined)`, and
    `String.prototype.indexOf` / `String.prototype.replace` with a plain
    string pattern. */
module Js {
  import opened Wrappers

  // ---------------------------------------------------------------------
  // Number to String, for integer values (radix 10, no exponent form)

  predicate IsDigit(c: char) {
    '0' <= c <= '9'
  }

  function DigitChar(d: nat): (c: char)
    requires d < 10
    ensures IsDigit(c) && c as int - '0' as int == d
  {
    ('0' as int + d) as char
  }

  /** The decimal rendering of a natural number, as `String(n)` gives it. */
  function NatToString(n: nat): (s: string)
    ensures 1 <= |s|
    ensures |s| == 1 <==> n < 10
    ensures forall i :: 0 <= i < |s| ==> IsDigit(s[i])
    decreases n
  {
    (if n < 10 then "" else NatToString(n / 10)) + [DigitChar(n % 10)]
  }

  /** The number a string of decimal digits denotes (the inverse rendering). */
  function DigitsValue(s: string): nat
    requires forall i :: 0 <= i < |s| ==> IsDigit(s[i])
  {
    if s == [] then 0
    else
      assert IsDigit(s[|s| - 1]);
      DigitsValue(s[..|s| - 1]) * 10 + (s[|s| - 1] as int - '0' as int)
  }

  lemma {:induction false} NatToStringValue(n: nat)
    ensures DigitsValue(NatToString(n)) == n
    decreases n
  {
    var s := NatToString(n);
    assert s[..|s| - 1] == (if n < 10 then "" else NatToString(n / 10));
    if n >= 10 {
      NatToStringValue(n / 10);
    }
  }

  lemma NatToStringInjective(a: nat, b: nat)
    ensures NatToString(a) == NatToString(b) <==> a == b
  {
    NatToStringValue(a);
    NatToStringValue(b);
  }

  /** The decimal rendering of an integer, with a leading '-' when negative. */
  function IntToString(i: int): (s: string)
    ensures 1 <= |s|
    ensures s[0] == '-' <==> i < 0
    ensures forall k :: 0 < k < |s| ==> IsDigit(s[k])
    ensures IsDigit(s[0]) || s[0] == '-'
  {
    if i < 0 then "-" + NatToString(-i) else NatToString(i)
  }

  lemma IntToStringInjective(a: int, b: int)
    ensures IntToString(a) == IntToString(b) <==> a == b
  {
    if IntToString(a) == IntToString(b) {
      if a < 0 {
        assert b < 0;
        assert NatToString(-a) == IntToString(a)[1..] == IntToString(b)[1..] == NatToString(-b);
        NatToStringInjective(-a, -b);
      } else {
        assert b >= 0;
        NatToStringInjective(a, b);
      }
    }
  }

  /** The rendering of a one-digit number is that digit alone. */
  lemma OneDigitString(i: int, d: nat)
    requires d < 10
    ensures IntToString(i) == [DigitChar(d)] <==> i == d
  {
    assert IntToString(d) == [DigitChar(d)];
    IntToStringInjective(i, d);
  }

  // ---------------------------------------------------------------------
  // Values that are either a string or undefined

  /** JavaScript truthiness of a string-or-undefined: the empty string and
      undefined are falsy. */
  predicate Truthy(v: Option<string>) {
    v.Some? && v.value != ""
  }

  /** `String(v)`, as `encodeURIComponent` applies it to its argument. */
  function ToString(v: Option<string>): string {
    match v
    case None => "undefined"
    case Some(s) => s
  }

  // ---------------------------------------------------------------------
  // indexOf and replace with a plain string pattern

  predicate OccursAt(s: string, pat: string, i: nat) {
    i + |pat| <= |s| && s[i..i + |pat|] == pat
  }

  /** `s.indexOf(pat, from)`: the first occurrence at or after `from`. */
  function IndexOfFrom(s: string, pat: string, from: nat): (r: Option<nat>)
    requires from <= |s|
    ensures r.Some? ==> from <= r.value && OccursAt(s, pat, r.value)
    ensures r.Some? ==> forall j :: from <= j < r.value ==> !OccursAt(s, pat, j)
    ensures r.None? ==> forall j :: from <= j <= |s| ==> !OccursAt(s, pat, j)
    decreases |s| - from
  {
    if OccursAt(s, pat, from) then Some(from)
    else if from == |s| then None
    else IndexOfFrom(s, pat, from + 1)
  }

  function IndexOf(s: string, pat: string): Option<nat> {
    IndexOfFrom(s, pat, 0)
  }

  /** `s.replace(pat, rep)` for a string `pat` whose replacement `rep` holds
      no `$` pattern: only the FIRST occurrence of `pat` is replaced. */
  function ReplaceFirst(s: string, pat: string, rep: string): (r: string)
    ensures (forall j: nat :: j <= |s| ==> !OccursAt(s, pat, j)) ==> r == s
    ensures forall i: nat :: OccursAt(s, pat, i) && (forall j :: 0 <= j < i ==> !OccursAt(s, pat, j)) ==>
      r == s[..i] + rep + s[i + |pat|..]
  {
    match IndexOf(s, pat)
    case None => s
    case Some(i) => s[..i] + rep + s[i + |pat|..]
  }
}
