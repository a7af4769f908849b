/**
 The fragment of PHP's value model that the plugin's logic depends on: scalar
 values compared with `===`, `isset` and `empty`, the string conversion that
 `preg_replace` performs on its subject, decimal rendering of integers, and
 WordPress's `absint`.
 */
module Php {

  /** A PHP scalar. Strict comparison (`===`) is datatype equality. */
  datatype Value = Str(s: string) | Int(i: int) | Bool(b: bool) | Null

  datatype Option<+T> = None | Some(value: T) {
    function GetOr(default: T): T {
      match this
      case Some(v) => v
      case None => default
    }
  }

  /** PHP's `isset` on an array entry: the key is present and its value is not null. */
  predicate IsSet<K>(m: map<K, Value>, k: K) {
    k in m && m[k] != Null
  }

  /** PHP's `empty` on a scalar: true for null, false, 0, '' and '0'. */
  predicate Empty(v: Value) {
    v == Null || v == Bool(false) || v == Int(0) || v == Str("") || v == Str("0")
  }

  predicate IsDigit(c: char) {
    '0' <= c <= '9'
  }

  predicate AllDigits(s: string) {
    forall i :: 0 <= i < |s| ==> IsDigit(s[i])
  }

  function DigitChar(d: nat): (c: char)
    requires d < 10
    ensures IsDigit(c)
  {
    ('0' as int + d) as char
  }

  function DigitValue(c: char): (d: nat)
    requires IsDigit(c)
    ensures d < 10
  {
    c as int - '0' as int
  }

  /** Decimal rendering of a natural number: digits only, no leading zero. */
  function NatToString(n: nat): (r: string)
    ensures |r| > 0 && AllDigits(r)
    ensures n > 0 ==> r[0] != '0'
    decreases n
  {
    if n < 10 then [DigitChar(n)] else NatToString(n / 10) + [DigitChar(n % 10)]
  }

  /** The number a string of decimal digits denotes. */
  function DigitsToNat(s: string): nat
    requires AllDigits(s)
    decreases |s|
  {
    if s == [] then 0 else DigitsToNat(s[..|s| - 1]) * 10 + DigitValue(s[|s| - 1])
  }

  /** Reading back a rendered number gives the number. */
  lemma {:induction false} DigitsRoundTrip(n: nat)
    ensures DigitsToNat(NatToString(n)) == n
    decreases n
  {
    var r := NatToString(n);
    if n >= 10 {
      DigitsRoundTrip(n / 10);
      assert r[..|r| - 1] == NatToString(n / 10);
      assert DigitValue(r[|r| - 1]) == n % 10;
    }
  }

  /** PHP's string conversion of an integer. */
  function IntToString(i: int): (r: string)
    ensures |r| > 0
    ensures i >= 0 <==> r[0] != '-'
  {
    if i < 0 then "-" + NatToString(-i) else NatToString(i)
  }

  /** The string `preg_replace` works on when handed a scalar. */
  function ToPhpString(v: Value): string {
    match v
    case Str(s) => s
    case Int(i) => IntToString(i)
    case Bool(b) => if b then "1" else ""
    case Null => ""
  }

  predicate IsSpace(c: char) {
    c == ' ' || c == '\t' || c == '\n' || c == '\r' || c as int == 11 || c as int == 12
  }

  function SkipSpace(s: string): (r: string)
    ensures |r| <= |s| && r == s[|s| - |r|..]
    ensures |r| > 0 ==> !IsSpace(r[0])
    decreases |s|
  {
    if |s| > 0 && IsSpace(s[0]) then SkipSpace(s[1..]) else s
  }

  /** The longest prefix of `s` made of decimal digits. */
  function LeadingDigits(s: string): (r: string)
    ensures AllDigits(r) && r <= s
    ensures |r| < |s| ==> !IsDigit(s[|r|])
    decreases |s|
  {
    if |s| > 0 && IsDigit(s[0]) then [s[0]] + LeadingDigits(s[1..]) else []
  }

  lemma {:induction false} LeadingDigitsOfDigits(s: string)
    requires AllDigits(s)
    ensures LeadingDigits(s) == s
    decreases |s|
  {
    if |s| > 0 {
      LeadingDigitsOfDigits(s[1..]);
    }
  }

  /** PHP's integer cast of a decimal string: leading whitespace, an optional sign, then digits. */
  function StringToInt(s: string): int {
    var t := SkipSpace(s);
    if |t| > 0 && t[0] == '-' then 0 - DigitsToNat(LeadingDigits(t[1..])) as int
    else if |t| > 0 && t[0] == '+' then DigitsToNat(LeadingDigits(t[1..])) as int
    else DigitsToNat(LeadingDigits(t)) as int
  }

  lemma NatStringRoundTrip(n: nat)
    ensures StringToInt(NatToString(n)) == n
  {
    var d := NatToString(n);
    assert IsDigit(d[0]);
    assert !IsSpace(d[0]);
    assert SkipSpace(d) == d;
    assert d[0] != '-' && d[0] != '+';
    LeadingDigitsOfDigits(d);
    assert StringToInt(d) == DigitsToNat(d);
    DigitsRoundTrip(n);
  }

  lemma NegativeStringRoundTrip(n: nat)
    requires n > 0
    ensures StringToInt(IntToString(0 - n)) == 0 - n
  {
    var d := NatToString(n);
    var r := IntToString(0 - n);
    assert r == "-" + d;
    assert SkipSpace(r) == r;
    assert r[1..] == d;
    LeadingDigitsOfDigits(d);
    DigitsRoundTrip(n);
  }

  /** Converting an integer to a string and back gives the integer. */
  lemma IntStringRoundTrip(i: int)
    ensures StringToInt(IntToString(i)) == i
  {
    if i < 0 {
      NegativeStringRoundTrip(0 - i);
    } else {
      NatStringRoundTrip(i);
    }
  }

  /** WordPress `absint`: the absolute value of the integer conversion. */
  function Absint(v: Value): (r: nat)
    ensures v.Int? ==> r == if v.i < 0 then -v.i else v.i
    ensures v.Bool? ==> r == if v.b then 1 else 0
    ensures v.Null? ==> r == 0
    ensures v.Str? ==> r == if StringToInt(v.s) < 0 then -StringToInt(v.s) else StringToInt(v.s)
  {
    match v
    case Int(i) => if i < 0 then -i else i
    case Bool(b) => if b then 1 else 0
    case Null => 0
    case Str(s) => var i := StringToInt(s); if i < 0 then -i else i
  }

  /** A TTL stored as the string form of a number (as form input arrives) is read back unchanged. */
  lemma AbsintOfRenderedNat(n: nat)
    ensures Absint(Str(NatToString(n))) == n
    ensures Absint(Str(IntToString(0 - n))) == n
  {
    IntStringRoundTrip(n);
    IntStringRoundTrip(0 - n);
  }

  function UpperChar(c: char): char {
    if 'a' <= c <= 'z' then (c as int - 32) as char else c
  }

  /** `strtoupper` on ASCII text. */
  function Upper(s: string): (r: string)
    ensures |r| == |s|
    ensures forall i :: 0 <= i < |s| ==> r[i] == UpperChar(s[i])
  {
    seq(|s|, i requires 0 <= i < |s| => UpperChar(s[i]))
  }
}
