/**
 * String operations the front end and back end use, with the semantics of
 * ECMAScript's `String.prototype` methods and Python's `str` methods.
 */
module Text {

  /** ECMAScript WhiteSpace and LineTerminator code points: what `trim()` removes. */
  predicate IsJsSpace(c: char) {
    var n := c as int;
    n == 0x09 || n == 0x0A || n == 0x0B || n == 0x0C || n == 0x0D || n == 0x20
    || n == 0xA0 || n == 0x1680 || (0x2000 <= n <= 0x200A) || n == 0x2028 || n == 0x2029
    || n == 0x202F || n == 0x205F || n == 0x3000 || n == 0xFEFF
  }

  /** Leading white space removed. */
  function TrimStart(s: string): (r: string)
    ensures |r| <= |s| && r == s[|s| - |r|..]
    ensures r == [] || !IsJsSpace(r[0])
    ensures forall i :: 0 <= i < |s| - |r| ==> IsJsSpace(s[i])
  {
    if |s| > 0 && IsJsSpace(s[0]) then TrimStart(s[1..]) else s
  }

  /** Trailing white space removed. */
  function TrimEnd(s: string): (r: string)
    ensures |r| <= |s| && r == s[..|r|]
    ensures r == [] || !IsJsSpace(r[|r| - 1])
    ensures forall i :: |r| <= i < |s| ==> IsJsSpace(s[i])
  {
    if |s| > 0 && IsJsSpace(s[|s| - 1]) then TrimEnd(s[..|s| - 1]) else s
  }

  /** How many white-space characters `s` starts with. */
  function LeadingSpaces(s: string): (n: nat)
    ensures n <= |s|
    ensures forall i :: 0 <= i < n ==> IsJsSpace(s[i])
    ensures n < |s| ==> !IsJsSpace(s[n])
  {
    |s| - |TrimStart(s)|
  }

  /**
   * `s.trim()`: the slice of `s` left after its leading white space and its trailing white
   * space are removed; nothing else changes.
   */
  function Trim(s: string): (r: string)
    ensures |r| <= |s|
    ensures r == [] || (!IsJsSpace(r[0]) && !IsJsSpace(r[|r| - 1]))
  {
    TrimEnd(TrimStart(s))
  }

  /**
   * What `trim()` keeps: the slice starting after the leading white space, with only white
   * space after it; together with `Trim`'s own contract this pins the result down.
   */
  lemma TrimIsSlice(s: string)
    ensures var a, r := LeadingSpaces(s), Trim(s);
      && a + |r| <= |s| && r == s[a..a + |r|]
      && (forall i :: a + |r| <= i < |s| ==> IsJsSpace(s[i]))
  {
    TrimSlice(s, TrimStart(s), Trim(s));
  }

  /** The white space `TrimEnd` drops from `t == s[a..]` lies at the end of `s`. */
  lemma TrimSlice(s: string, t: string, r: string)
    requires |t| <= |s| && t == s[|s| - |t|..]
    requires |r| <= |t| && r == t[..|r|]
    requires forall i :: |r| <= i < |t| ==> IsJsSpace(t[i])
    ensures r == s[|s| - |t|..|s| - |t| + |r|]
    ensures forall i :: |s| - |t| + |r| <= i < |s| ==> IsJsSpace(s[i])
  {
    var a := |s| - |t|;
    forall i | a + |r| <= i < |s|
      ensures IsJsSpace(s[i])
    {
      assert s[i] == t[i - a];
    }
  }

  /** A string without leading white space keeps its first character under `trim()`,
      and trimming `p + s` for such a string only trims the end of `s`. */
  lemma TrimPrefixed(p: string, s: string)
    requires p != [] && !IsJsSpace(p[0])
    requires s != [] && !IsJsSpace(s[0])
    ensures Trim(p + s) == p + Trim(s)
  {
    assert TrimStart(p + s) == p + s;
    assert TrimStart(s) == s;
    TrimEndAppend(p, s);
  }

  lemma TrimEndAppend(p: string, s: string)
    requires s != [] && !IsJsSpace(s[0])
    ensures TrimEnd(p + s) == p + TrimEnd(s)
    decreases |s|
  {
    if IsJsSpace(s[|s| - 1]) {
      assert (p + s)[..|p + s| - 1] == p + s[..|s| - 1];
      TrimEndAppend(p, s[..|s| - 1]);
    }
  }

  /** `s.replace(/\\/g, '/')`: every backslash becomes a forward slash. */
  function ReplaceBackslashes(s: string): (r: string)
    ensures |r| == |s|
    ensures forall i :: 0 <= i < |s| ==> r[i] == (if s[i] == '\\' then '/' else s[i])
  {
    if s == [] then [] else [if s[0] == '\\' then '/' else s[0]] + ReplaceBackslashes(s[1..])
  }

  lemma ReplaceBackslashesAppend(a: string, b: string)
    ensures ReplaceBackslashes(a + b) == ReplaceBackslashes(a) + ReplaceBackslashes(b)
  {
    var l, r := ReplaceBackslashes(a + b), ReplaceBackslashes(a) + ReplaceBackslashes(b);
    assert forall i :: 0 <= i < |l| ==> l[i] == r[i];
  }

  predicate StartsWith(s: string, prefix: string) {
    |prefix| <= |s| && s[..|prefix|] == prefix
  }

  predicate EndsWith(s: string, suffix: string) {
    |suffix| <= |s| && s[|s| - |suffix|..] == suffix
  }

  predicate IsDigit(c: char) {
    '0' <= c <= '9'
  }

  predicate AllDigits(s: string) {
    forall i :: 0 <= i < |s| ==> IsDigit(s[i])
  }

  function DigitChar(d: nat): char
    requires d < 10
  {
    "0123456789"[d]
  }

  function DigitValue(c: char): nat
    requires IsDigit(c)
  {
    c as int - '0' as int
  }

  /** The number a string of decimal digits denotes. */
  function DigitsValue(s: string): nat
    requires AllDigits(s)
  {
    if s == [] then 0 else 10 * DigitsValue(s[..|s| - 1]) + DigitValue(s[|s| - 1])
  }

  /** `n.toString()` for a non-negative integer: shortest decimal digits. */
  function NatToString(n: nat): (r: string)
    ensures r != [] && AllDigits(r)
    ensures |r| == 1 || r[0] != '0'
    ensures n < 10 <==> |r| == 1
  {
    if n < 10 then [DigitChar(n)] else NatToString(n / 10) + [DigitChar(n % 10)]
  }

  /** Reading the digits back gives the number. */
  lemma {:induction false} NatToStringValue(n: nat)
    ensures DigitsValue(NatToString(n)) == n
  {
    if n >= 10 {
      var r := NatToString(n);
      assert r[..|r| - 1] == NatToString(n / 10);
      NatToStringValue(n / 10);
    }
  }

  /** `String(i)` for any integer. */
  function IntToString(i: int): (r: string)
    ensures r != []
    ensures i >= 0 <==> r[0] != '-'
  {
    if i >= 0 then NatToString(i) else "-" + NatToString(-i)
  }

  /** `s.padStart(n, c)`. */
  function PadStart(s: string, n: nat, c: char): (r: string)
    ensures |r| == if |s| >= n then |s| else n
    ensures r[|r| - |s|..] == s
    ensures forall i :: 0 <= i < |r| - |s| ==> r[i] == c
  {
    if |s| >= n then s else seq(n - |s|, _ => c) + s
  }

  /** Padding with '0' does not change the number the digits denote. */
  lemma {:induction false} ZeroPadValue(s: string, n: nat)
    requires AllDigits(s)
    ensures AllDigits(PadStart(s, n, '0'))
    ensures DigitsValue(PadStart(s, n, '0')) == DigitsValue(s)
  {
    if |s| < n {
      var z := seq(n - |s|, _ => '0');
      ZerosValue(z, s);
    }
  }

  lemma {:induction false} ZerosValue(z: string, s: string)
    requires forall i :: 0 <= i < |z| ==> z[i] == '0'
    requires AllDigits(s)
    ensures AllDigits(z + s)
    ensures DigitsValue(z + s) == DigitsValue(s)
    decreases |s|
  {
    if s == [] {
      assert z + s == z;
      AllZeros(z);
    } else {
      assert (z + s)[..|z + s| - 1] == z + s[..|s| - 1];
      ZerosValue(z, s[..|s| - 1]);
    }
  }

  lemma {:induction false} AllZeros(z: string)
    requires forall i :: 0 <= i < |z| ==> z[i] == '0'
    ensures AllDigits(z) && DigitsValue(z) == 0
  {
    if z != [] {
      AllZeros(z[..|z| - 1]);
    }
  }

  /** ASCII upper-case letters mapped to lower case; every other character kept. */
  function LowerAscii(s: string): (r: string)
    ensures |r| == |s|
    ensures forall i :: 0 <= i < |s| ==>
      r[i] == (if 'A' <= s[i] <= 'Z' then (s[i] as int + 32) as char else s[i])
  {
    if s == [] then [] else
      [if 'A' <= s[0] <= 'Z' then (s[0] as int + 32) as char else s[0]] + LowerAscii(s[1..])
  }

  /** Python `s.split(sep)[0]`: the text before the first `sep`, or all of `s`. */
  function BeforeFirst(s: string, sep: char): (r: string)
    ensures StartsWith(s, r)
    ensures sep !in r
    ensures |r| < |s| ==> s[|r|] == sep
  {
    if s == [] || s[0] == sep then [] else [s[0]] + BeforeFirst(s[1..], sep)
  }

  /** JavaScript `s.split(sep).pop()`: the text after the last `sep`, or all of `s`. */
  function AfterLast(s: string, sep: char): (r: string)
    ensures EndsWith(s, r)
    ensures sep !in r
    ensures |r| < |s| ==> s[|s| - |r| - 1] == sep
  {
    if s == [] || s[|s| - 1] == sep then [] else AfterLast(s[..|s| - 1], sep) + [s[|s| - 1]]
  }
}
