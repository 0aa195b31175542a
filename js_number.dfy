/**
 * The number built-ins the portal applies to its stored timestamps:
 * `parseInt` (with no radix argument) and `Number.prototype.toString`
 * on the integer millisecond values `Date.now()` returns.
 */
module JsNumber {
  import opened Options
  import opened JsString

  /** The value of `c` as a digit in bases up to 36, or 36 when it is no digit at all. */
  function DigitValue(c: char): nat {
    if '0' <= c <= '9' then c as int - '0' as int
    else if 'a' <= c <= 'z' then c as int - 'a' as int + 10
    else if 'A' <= c <= 'Z' then c as int - 'A' as int + 10
    else 36
  }

  predicate IsDigit(c: char, radix: nat) {
    DigitValue(c) < radix
  }

  /** The longest prefix of `s` made of digits in base `radix`; `parseInt` ignores what follows it. */
  function DigitPrefix(s: string, radix: nat): (d: string)
    ensures |d| <= |s| && d == s[..|d|]
    ensures forall k :: 0 <= k < |d| ==> IsDigit(d[k], radix)
    ensures |d| < |s| ==> !IsDigit(s[|d|], radix)
  {
    if s != [] && IsDigit(s[0], radix) then [s[0]] + DigitPrefix(s[1..], radix) else []
  }

  /** The number a digit string denotes in base `radix`, most significant digit first. */
  function DigitsValue(ds: string, radix: nat): nat {
    if ds == [] then 0 else DigitsValue(ds[..|ds| - 1], radix) * radix + DigitValue(ds[|ds| - 1])
  }

  /**
   * `parseInt(s)`: skip leading white space, read an optional sign, switch to
   * base 16 after a `0x`/`0X` prefix, then read the longest digit prefix.
   * `None` stands for NaN, the result when no digit follows.
   */
  function ParseInt(s: string): Option<int> {
    var t := TrimStart(s);
    var negative := t != [] && t[0] == '-';
    var u := if t != [] && (t[0] == '-' || t[0] == '+') then t[1..] else t;
    var hex := |u| >= 2 && u[0] == '0' && (u[1] == 'x' || u[1] == 'X');
    var radix := if hex then 16 else 10;
    var ds := DigitPrefix(if hex then u[2..] else u, radix);
    var magnitude: int := DigitsValue(ds, radix);
    if ds == [] then None
    else if negative then Some(-magnitude)
    else Some(magnitude)
  }

  function DigitChar(d: nat): char
    requires d < 10
  {
    ('0' as int + d) as char
  }

  /** The decimal digits of `n`, without leading zeros. */
  function DecimalDigits(n: nat): (ds: string)
    ensures |ds| >= 1
    ensures forall k :: 0 <= k < |ds| ==> IsDigit(ds[k], 10)
    ensures DigitsValue(ds, 10) == n
    ensures ds[0] == '0' <==> n == 0
  {
    if n < 10 then [DigitChar(n)]
    else
      var ds := DecimalDigits(n / 10) + [DigitChar(n % 10)];
      assert ds[..|ds| - 1] == DecimalDigits(n / 10);
      ds
  }

  /** `n.toString()` for an integer `n`. */
  function IntToString(n: int): (s: string)
    ensures s != [] && !IsWhiteSpace(s[0])
  {
    if n < 0 then "-" + DecimalDigits(-n) else DecimalDigits(n)
  }

  /** A string of digits is its own longest digit prefix. */
  lemma {:induction false} DigitPrefixOfDigits(ds: string, radix: nat)
    requires forall k :: 0 <= k < |ds| ==> IsDigit(ds[k], radix)
    ensures DigitPrefix(ds, radix) == ds
  {
    if ds != [] {
      DigitPrefixOfDigits(ds[1..], radix);
      assert [ds[0]] + ds[1..] == ds;
    }
  }

  /** A timestamp written with `toString` reads back with `parseInt` as the same number. */
  lemma ParseIntOfIntToString(n: int)
    ensures ParseInt(IntToString(n)) == Some(n)
  {
    var s := IntToString(n);
    assert TrimStart(s) == s;
    var m: nat := if n < 0 then -n else n;
    var u := DecimalDigits(m);
    assert n < 0 ==> s[1..] == u;
    assert |u| >= 2 ==> u[0] != '0';
    DigitPrefixOfDigits(u, 10);
  }
}
