/**
 * The parts of Python's `str` and `int` behaviour that the pipeline relies on
 * to build directory names and to read them back: `str(n)`, the `02d` format,
 * `int(s)`, `s.split(sep)`, `s.replace(sep, "")` and string ordering.
 */
module PyText {
  import opened Wrappers

  predicate IsDigit(c: char) {
    '0' <= c <= '9'
  }

  predicate AllDigits(s: string) {
    forall i :: 0 <= i < |s| ==> IsDigit(s[i])
  }

  /** `c` does not occur anywhere in `s`. */
  predicate Lacks(s: string, c: char) {
    forall i :: 0 <= i < |s| ==> s[i] != c
  }

  function DigitChar(d: nat): (c: char)
    requires d < 10
    ensures IsDigit(c) && c as int - '0' as int == d
  {
    ('0' as int + d) as char
  }

  /** `str(n)` for a non-negative integer: decimal digits, no leading zero. */
  function NatToStr(n: nat): (r: string)
    ensures 1 <= |r| && AllDigits(r)
    ensures |r| == 1 <==> n < 10
    decreases n
  {
    if n < 10 then [DigitChar(n)] else NatToStr(n / 10) + [DigitChar(n % 10)]
  }

  /** `str(i)` (and `f"{i}"`): a minus sign for negative values, then the digits. */
  function IntToStr(i: int): string {
    if i < 0 then "-" + NatToStr(-i) else NatToStr(i)
  }

  /** `f"{i:02d}"`: zero-padded to two characters; a sign already fills the width. */
  function Pad2(i: int): string {
    if 0 <= i < 10 then "0" + NatToStr(i) else IntToStr(i)
  }

  /** The value of a string of decimal digits, leading zeros allowed. */
  function DigitsValue(s: string): nat
    requires AllDigits(s)
  {
    if s == [] then 0 else DigitsValue(s[..|s| - 1]) * 10 + (s[|s| - 1] as int - '0' as int)
  }

  /**
   * `int(s)`: an optional sign followed by at least one ASCII digit; anything
   * else raises ValueError, modelled as None.
   */
  function ParseInt(s: string): Option<int> {
    if |s| > 0 && (s[0] == '-' || s[0] == '+') then
      if |s| > 1 && AllDigits(s[1..]) then
        Some(if s[0] == '-' then 0 - DigitsValue(s[1..]) as int else DigitsValue(s[1..]) as int)
      else None
    else if |s| > 0 && AllDigits(s) then Some(DigitsValue(s))
    else None
  }

  lemma {:induction false} DigitsValueOfNatToStr(n: nat)
    ensures DigitsValue(NatToStr(n)) == n
    decreases n
  {
    if n >= 10 {
      var p := NatToStr(n / 10);
      var s := p + [DigitChar(n % 10)];
      assert s[..|s| - 1] == p;
      DigitsValueOfNatToStr(n / 10);
    }
  }

  /** Reading back what `str(i)` wrote gives `i`, for every integer. */
  lemma IntToStrRoundTrip(i: int)
    ensures ParseInt(IntToStr(i)) == Some(i)
  {
    if i < 0 {
      var s := "-" + NatToStr(-i);
      assert s[1..] == NatToStr(-i);
      DigitsValueOfNatToStr(-i);
    } else {
      DigitsValueOfNatToStr(i);
    }
  }

  /** The `02d` format is at least two characters wide and reads back as `i`. */
  lemma Pad2RoundTrip(i: int)
    ensures |Pad2(i)| >= 2
    ensures ParseInt(Pad2(i)) == Some(i)
    ensures i >= 10 || i < 0 ==> Pad2(i) == IntToStr(i)
  {
    if 0 <= i < 10 {
      var s := "0" + NatToStr(i);
      assert AllDigits(s);
      assert s[..|s| - 1] == "0";
      assert DigitsValue("0") == 0 by { assert ("0")[..0] == []; }
    } else {
      IntToStrRoundTrip(i);
      if i < 0 {
        assert |NatToStr(-i)| >= 1;
      }
    }
  }

  lemma IntToStrIsDecimal(i: int)
    ensures |IntToStr(i)| >= 1
    ensures forall k :: 0 <= k < |IntToStr(i)| ==> IsDigit(IntToStr(i)[k]) || IntToStr(i)[k] == '-'
  {
  }

  /** Digits and the minus sign are neither `=` nor `v`: the names built from numbers never contain a separator. */
  lemma NumbersLackSeparators(i: int)
    ensures Lacks(IntToStr(i), '=') && Lacks(IntToStr(i), 'v')
    ensures Lacks(Pad2(i), '=') && Lacks(Pad2(i), 'v')
  {
    IntToStrIsDecimal(i);
  }

  // ---------------------------------------------------------------------------
  // str.startswith / str.endswith (the shapes that `glob("prefix*")` and `glob("*.suffix")` match)

  predicate StartsWith(s: string, prefix: string) {
    |prefix| <= |s| && s[..|prefix|] == prefix
  }

  predicate EndsWith(s: string, suffix: string) {
    |suffix| <= |s| && s[|s| - |suffix|..] == suffix
  }

  // ---------------------------------------------------------------------------
  // str.split and str.replace

  predicate OccursAt(s: string, sep: string, i: nat) {
    i + |sep| <= |s| && s[i..i + |sep|] == sep
  }

  /** The first position at or after `i` where `sep` occurs in `s`, or -1. */
  function FindFrom(s: string, sep: string, i: nat): (r: int)
    requires |sep| > 0
    ensures r == -1 || (i <= r && OccursAt(s, sep, r))
    ensures r == -1 ==> forall k :: i <= k ==> !OccursAt(s, sep, k)
    ensures r >= 0 ==> forall k :: i <= k < r ==> !OccursAt(s, sep, k)
    decreases |s| - i
  {
    if i + |sep| > |s| then -1
    else if s[i..i + |sep|] == sep then i
    else FindFrom(s, sep, i + 1)
  }

  /** `s.split(sep)` for a non-empty separator. */
  function Split(s: string, sep: string): (r: seq<string>)
    requires |sep| > 0
    ensures |r| >= 1
    decreases |s|
  {
    var k := FindFrom(s, sep, 0);
    if k < 0 then [s] else [s[..k]] + Split(s[k + |sep|..], sep)
  }

  function Concat(parts: seq<string>): string {
    if parts == [] then "" else parts[0] + Concat(parts[1..])
  }

  /** `s.replace(sep, "")`, which Python defines as `"".join(s.split(sep))`. */
  function RemoveAll(s: string, sep: string): string
    requires |sep| > 0
  {
    Concat(Split(s, sep))
  }

  /** `s.split(sep)[1]`; IndexError (None) when `sep` does not occur. */
  function SecondField(s: string, sep: string): Option<string>
    requires |sep| > 0
  {
    var f := Split(s, sep);
    if |f| >= 2 then Some(f[1]) else None
  }

  lemma {:induction false} NoStartBefore(s: string, sep: string, i: nat, k: nat)
    requires |sep| > 0 && i <= k <= |s|
    requires forall j :: i <= j < k ==> s[j] != sep[0]
    ensures FindFrom(s, sep, i) == FindFrom(s, sep, k)
    decreases k - i
  {
    if i < k {
      assert !OccursAt(s, sep, i) by {
        if i + |sep| <= |s| { assert s[i..i + |sep|][0] == s[i]; }
      }
      NoStartBefore(s, sep, i + 1, k);
    }
  }

  lemma SplitWithoutSeparator(t: string, sep: string)
    requires |sep| > 0 && Lacks(t, sep[0])
    ensures Split(t, sep) == [t]
  {
    NoStartBefore(t, sep, 0, |t|);
  }

  /**
   * A text that starts with `p + sep`, where `p` lacks the separator's first
   * character, splits into at least two fields: `s.split(sep)[1]` exists.
   */
  lemma SplitAfterKey(s: string, p: string, sep: string)
    requires |sep| > 0 && Lacks(p, sep[0]) && StartsWith(s, p + sep)
    ensures |Split(s, sep)| >= 2
  {
    NoStartBefore(s, sep, 0, |p|);
    assert s[|p|..|p| + |sep|] == (p + sep)[|p|..];
  }

  /**
   * When the separator's first character occurs neither in `p` nor in `t`,
   * `(p + sep + t).split(sep)` is exactly `[p, t]`.
   */
  lemma SplitAround(p: string, sep: string, t: string)
    requires |sep| > 0 && Lacks(p, sep[0]) && Lacks(t, sep[0])
    ensures Split(p + sep + t, sep) == [p, t]
  {
    var s := p + sep + t;
    NoStartBefore(s, sep, 0, |p|);
    assert s[|p|..|p| + |sep|] == sep;
    assert s[..|p|] == p;
    assert s[|p| + |sep|..] == t;
    SplitWithoutSeparator(t, sep);
  }

  // ---------------------------------------------------------------------------
  // String ordering (`<` on str compares code points lexicographically)

  predicate StrLt(a: string, b: string)
    decreases |a|
  {
    if a == [] then b != []
    else if b == [] then false
    else if a[0] != b[0] then a[0] < b[0]
    else StrLt(a[1..], b[1..])
  }

  predicate StrLe(a: string, b: string) {
    a == b || StrLt(a, b)
  }

  lemma {:induction false} StrLtTotal(a: string, b: string)
    ensures a == b || StrLt(a, b) || StrLt(b, a)
    decreases |a|
  {
    if a != [] && b != [] && a[0] == b[0] {
      StrLtTotal(a[1..], b[1..]);
      if a[1..] == b[1..] {
        assert a == [a[0]] + a[1..] && b == [b[0]] + b[1..];
      }
    }
  }

  lemma {:induction false} StrLtIrreflexive(a: string)
    ensures !StrLt(a, a)
    decreases |a|
  {
    if a != [] {
      StrLtIrreflexive(a[1..]);
    }
  }

  lemma {:induction false} StrLtTransitive(a: string, b: string, c: string)
    requires StrLt(a, b) && StrLt(b, c)
    ensures StrLt(a, c)
    decreases |a|
  {
    if a != [] && b != [] && c != [] && a[0] == b[0] && b[0] == c[0] {
      StrLtTransitive(a[1..], b[1..], c[1..]);
    }
  }
}
