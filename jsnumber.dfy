/**
 * The part of JavaScript's number semantics the controllers use: the integer results of
 * `parseInt(s, 16)`, `NaN`, `Math.max` and `>`.
 */
module JsNumber {

  /** A JavaScript number restricted to what `parseInt` can produce: an integer, or `NaN`. */
  datatype JsNum = Num(value: int) | NaN

  /** `Math.max(a, b)`: `NaN` as soon as either argument is `NaN`, otherwise the larger value. */
  function Max(a: JsNum, b: JsNum): (r: JsNum)
    ensures r.NaN? <==> a.NaN? || b.NaN?
    ensures r.Num? ==> r.value >= a.value && r.value >= b.value
    ensures r.Num? ==> r.value == a.value || r.value == b.value
  {
    if a.NaN? || b.NaN? then NaN
    else if a.value >= b.value then a else b
  }

  /** `a > b`: every comparison with `NaN` is false. */
  predicate Greater(a: JsNum, b: JsNum) {
    a.Num? && b.Num? && a.value > b.value
  }

  /** The white space and line terminators that `parseInt` skips before the number. */
  predicate IsSpace(c: char) {
    c == '\t' || c == '\n' || c == '\U{B}' || c == '\U{C}' || c == '\r' || c == ' '
    || c == '\U{A0}' || c == '\U{1680}' || ('\U{2000}' <= c <= '\U{200A}')
    || c == '\U{2028}' || c == '\U{2029}' || c == '\U{202F}' || c == '\U{205F}'
    || c == '\U{3000}' || c == '\U{FEFF}'
  }

  predicate IsHexDigit(c: char) {
    ('0' <= c <= '9') || ('a' <= c <= 'f') || ('A' <= c <= 'F')
  }

  function DigitValue(c: char): (d: nat)
    requires IsHexDigit(c)
    ensures d < 16
  {
    if '0' <= c <= '9' then c as int - '0' as int
    else if 'a' <= c <= 'f' then c as int - 'a' as int + 10
    else c as int - 'A' as int + 10
  }

  function Pow16(n: nat): (p: nat)
    ensures p >= 1
  {
    if n == 0 then 1 else 16 * Pow16(n - 1)
  }

  /** The value of a string of hexadecimal digits, most significant first. */
  function HexValue(ds: string): (v: nat)
    requires forall k :: 0 <= k < |ds| ==> IsHexDigit(ds[k])
  {
    if ds == [] then 0 else DigitValue(ds[0]) * Pow16(|ds| - 1) + HexValue(ds[1..])
  }

  /** The longest prefix of `s` made of hexadecimal digits. */
  function HexPrefix(s: string): (ds: string)
    ensures ds <= s
    ensures forall k :: 0 <= k < |ds| ==> IsHexDigit(ds[k])
    ensures |ds| == |s| || !IsHexDigit(s[|ds|])
  {
    if s != [] && IsHexDigit(s[0]) then [s[0]] + HexPrefix(s[1..]) else []
  }

  /** `trimStart`: `s` without its leading white space. */
  function TrimStart(s: string): (t: string)
    ensures |t| <= |s| && t == s[|s| - |t|..]
    ensures forall k :: 0 <= k < |s| - |t| ==> IsSpace(s[k])
    ensures t == [] || !IsSpace(t[0])
  {
    if s != [] && IsSpace(s[0]) then TrimStart(s[1..]) else s
  }

  /**
   * `parseInt(s, 16)`: skip leading white space, take an optional sign, drop an optional `0x`/`0X`
   * prefix, then read the longest run of hexadecimal digits; no digit at all gives `NaN`.
   * (`-0` is the integer 0 here.)
   */
  function ParseIntHex(s: string): JsNum {
    var t := TrimStart(s);
    var negative := t != [] && t[0] == '-';
    var u := if t != [] && (t[0] == '-' || t[0] == '+') then t[1..] else t;
    var v := if |u| >= 2 && u[0] == '0' && (u[1] == 'x' || u[1] == 'X') then u[2..] else u;
    var ds := HexPrefix(v);
    if ds == [] then NaN
    else
      var m: int := HexValue(ds);
      Num(if negative then -m else m)
  }

  /** Leading zero digits do not change a hexadecimal value. */
  lemma {:induction false} HexValueLeadingZeros(zeros: string, ds: string)
    requires forall k :: 0 <= k < |zeros| ==> zeros[k] == '0'
    requires forall k :: 0 <= k < |ds| ==> IsHexDigit(ds[k])
    ensures forall k :: 0 <= k < |zeros + ds| ==> IsHexDigit((zeros + ds)[k])
    ensures HexValue(zeros + ds) == HexValue(ds)
  {
    var x := zeros + ds;
    if zeros != [] {
      var rest := zeros[1..] + ds;
      assert x[1..] == rest;
      HexValueLeadingZeros(zeros[1..], ds);
      assert x[0] == '0';
      assert DigitValue(x[0]) == 0;
      assert HexValue(x) == DigitValue(x[0]) * Pow16(|x| - 1) + HexValue(rest);
    } else {
      assert x == ds;
    }
  }

  /** The digit run of a zero-padded string is the padding followed by the digit run of the rest. */
  lemma {:induction false} HexPrefixLeadingZeros(zeros: string, s: string)
    requires forall k :: 0 <= k < |zeros| ==> zeros[k] == '0'
    ensures HexPrefix(zeros + s) == zeros + HexPrefix(s)
  {
    var x := zeros + s;
    if zeros != [] {
      assert x[0] == '0' && IsHexDigit(x[0]);
      assert x[1..] == zeros[1..] + s;
      HexPrefixLeadingZeros(zeros[1..], s);
      assert HexPrefix(x) == [x[0]] + HexPrefix(x[1..]);
      assert zeros == [zeros[0]] + zeros[1..];
    } else {
      assert x == s;
    }
  }

  /** A hexadecimal digit is neither white space nor a sign, so `parseInt` reads it as a digit. */
  lemma HexDigitIsNotSpace(c: char)
    requires IsHexDigit(c)
    ensures !IsSpace(c) && c != '-' && c != '+'
  {
  }

  /** When `s` starts with a digit and not with a `0x`/`0X` prefix, `parseInt` reads exactly its leading digit run. */
  lemma PlainHexReadsDigitRun(s: string)
    requires s != [] && IsHexDigit(s[0])
    requires !(|s| >= 2 && s[0] == '0' && (s[1] == 'x' || s[1] == 'X'))
    ensures ParseIntHex(s) == Num(HexValue(HexPrefix(s)))
  {
    HexDigitIsNotSpace(s[0]);
    assert TrimStart(s) == s;
    assert HexPrefix(s) == [s[0]] + HexPrefix(s[1..]);
  }

  /**
   * Left-padding with zeros does not change what `parseInt(_, 16)` reads, provided the text starts with a
   * hexadecimal digit and not with its own `0x`/`0X` prefix.
   */
  lemma PadStartKeepsHexValue(zeros: string, s: string)
    requires forall k :: 0 <= k < |zeros| ==> zeros[k] == '0'
    requires s != [] && IsHexDigit(s[0])
    requires !(|s| >= 2 && s[0] == '0' && (s[1] == 'x' || s[1] == 'X'))
    ensures ParseIntHex(zeros + s) == ParseIntHex(s) == Num(HexValue(HexPrefix(s)))
  {
    var p := zeros + s;
    PlainHexReadsDigitRun(s);
    if zeros != [] {
      assert p[0] == '0' && IsHexDigit(p[0]);
      assert |p| >= 2 ==> p[1] == (if |zeros| > 1 then '0' else s[0]);
      PlainHexReadsDigitRun(p);
      HexPrefixLeadingZeros(zeros, s);
      HexValueLeadingZeros(zeros, HexPrefix(s));
    } else {
      assert p == s;
    }
  }
}
