/**
 * String helpers shared by several modules: the decimal rendering and parsing of
 * unsigned integers (Rust's `to_string` and `str::parse::<u32>`), substring search
 * (`str::contains`) and splitting on the path separator `::` (`str::split("::")`).
 */
module Strings {
  import opened Wrappers

  const U32_LIMIT: nat := 0x1_0000_0000

  predicate IsDigit(c: char) { '0' <= c <= '9' }

  predicate AllDigits(s: string) { forall i :: 0 <= i < |s| ==> IsDigit(s[i]) }

  function DigitChar(d: nat): (c: char)
    requires d < 10
    ensures IsDigit(c)
  { ('0' as int + d) as char }

  function DigitValue(c: char): (d: nat)
    requires IsDigit(c)
    ensures d < 10
  { c as int - '0' as int }

  /** Decimal rendering of a natural number without leading zeros. */
  function NatToString(n: nat): (s: string)
    ensures |s| > 0 && AllDigits(s)
    ensures |s| > 1 ==> s[0] != '0'
    ensures n < 10 <==> |s| == 1
    decreases n
  {
    if n < 10 then [DigitChar(n)] else NatToString(n / 10) + [DigitChar(n % 10)]
  }

  /** The value of a string of decimal digits, most significant first. */
  function DigitsValue(s: string): nat
    requires AllDigits(s)
    decreases |s|
  {
    if s == [] then 0 else DigitsValue(s[..|s| - 1]) * 10 + DigitValue(s[|s| - 1])
  }

  lemma {:induction false} DigitsValueOfNatToString(n: nat)
    ensures DigitsValue(NatToString(n)) == n
    decreases n
  {
    var s := NatToString(n);
    if n >= 10 {
      DigitsValueOfNatToString(n / 10);
      assert s[..|s| - 1] == NatToString(n / 10);
    }
  }

  /** Distinct numbers have distinct renderings. */
  lemma {:induction false} NatToStringInjective(m: nat, n: nat)
    requires NatToString(m) == NatToString(n)
    ensures m == n
  {
    DigitsValueOfNatToString(m);
    DigitsValueOfNatToString(n);
  }

  /**
   * Rust's `str::parse::<u32>`: an optional leading `+`, then one or more decimal
   * digits whose value fits in 32 bits; anything else is an error (`None`).
   */
  function ParseU32(s: string): (r: Option<nat>)
    ensures r.Some? ==> r.value < U32_LIMIT
  {
    var digits := if |s| > 0 && s[0] == '+' then s[1..] else s;
    if |digits| == 0 || !AllDigits(digits) then None
    else if DigitsValue(digits) < U32_LIMIT then Some(DigitsValue(digits))
    else None
  }

  lemma {:induction false} ParseU32OfNatToString(n: nat)
    requires n < U32_LIMIT
    ensures ParseU32(NatToString(n)) == Some(n)
  {
    DigitsValueOfNatToString(n);
  }

  /** Index of the first occurrence of `c` in `s`, as `str::find(char)`. */
  function FindChar(s: string, c: char): (r: Option<nat>)
    ensures r.Some? ==> r.value < |s| && s[r.value] == c && c !in s[..r.value]
    ensures r.None? <==> c !in s
  {
    if s == [] then None
    else if s[0] == c then Some(0)
    else match FindChar(s[1..], c) {
      case None => None
      case Some(i) => Some(i + 1)
    }
  }

  /** `hay.contains(needle)`: the needle occurs somewhere in the haystack. */
  predicate ContainsSubstring(hay: string, needle: string)
    decreases |hay|
  {
    needle <= hay || (|hay| > 0 && ContainsSubstring(hay[1..], needle))
  }

  predicate OccursAt(hay: string, needle: string, i: nat)
  {
    i + |needle| <= |hay| && hay[i..i + |needle|] == needle
  }

  lemma {:induction false} OccursAtShift(hay: string, needle: string, i: nat)
    requires |hay| > 0
    ensures OccursAt(hay[1..], needle, i) <==> OccursAt(hay, needle, i + 1)
  {
    if i + 1 + |needle| <= |hay| {
      assert hay[1..][i..i + |needle|] == hay[i + 1..i + 1 + |needle|];
    }
  }

  lemma {:induction false} ContainsSubstringSpec(hay: string, needle: string)
    ensures ContainsSubstring(hay, needle) <==> exists i: nat :: OccursAt(hay, needle, i)
    decreases |hay|
  {
    if needle <= hay {
      assert OccursAt(hay, needle, 0);
    } else if |hay| > 0 {
      ContainsSubstringSpec(hay[1..], needle);
      if exists i: nat :: OccursAt(hay[1..], needle, i) {
        var i: nat :| OccursAt(hay[1..], needle, i);
        OccursAtShift(hay, needle, i);
      }
      if exists i: nat :: OccursAt(hay, needle, i) {
        var i: nat :| OccursAt(hay, needle, i);
        assert i != 0;
        OccursAtShift(hay, needle, i - 1);
      }
    }
  }

  predicate IsSep(s: string, i: nat) { i + 1 < |s| && s[i] == ':' && s[i + 1] == ':' }

  /** Index of the first `::` at or after `from`. */
  function FindSep(s: string, from: nat): (r: Option<nat>)
    ensures r.Some? ==> from <= r.value && IsSep(s, r.value)
    ensures r.Some? ==> forall j :: from <= j < r.value ==> !IsSep(s, j)
    ensures r.None? ==> forall j :: from <= j ==> !IsSep(s, j)
    decreases |s| - from
  {
    if from + 1 >= |s| then None
    else if IsSep(s, from) then Some(from)
    else FindSep(s, from + 1)
  }

  /** `s.split("::")`: the pieces between successive separators, found left to right. */
  function SplitPath(s: string): (parts: seq<string>)
    ensures |parts| >= 1
    decreases |s|
  {
    match FindSep(s, 0) {
      case None => [s]
      case Some(i) => [s[..i]] + SplitPath(s[i + 2..])
    }
  }

  /** Joins path segments with `::` (the inverse of `SplitPath` on colon-free segments). */
  function JoinPath(parts: seq<string>): string
    requires |parts| >= 1
  {
    if |parts| == 1 then parts[0] else parts[0] + "::" + JoinPath(parts[1..])
  }

  predicate NoColon(s: string) { ':' !in s }

  lemma {:induction false} SplitJoinPath(parts: seq<string>)
    requires |parts| >= 1
    requires forall k :: 0 <= k < |parts| ==> NoColon(parts[k])
    ensures SplitPath(JoinPath(parts)) == parts
  {
    var s := JoinPath(parts);
    if |parts| > 1 {
      var p := parts[0];
      var rest := JoinPath(parts[1..]);
      assert s == p + "::" + rest;
      assert IsSep(s, |p|);
      forall j | 0 <= j < |p| ensures !IsSep(s, j) { assert s[j] == p[j]; }
      assert s[..|p|] == p;
      assert s[|p| + 2..] == rest;
      SplitJoinPath(parts[1..]);
    }
  }
}
