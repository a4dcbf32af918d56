/** Decimal text: std::to_string of a non-negative int and std::stoi. */
module Decimal {

  const INT_MAX: int := 0x7fff_ffff

  predicate IsDigit(c: char) {
    '0' <= c <= '9'
  }

  predicate AllDigits(s: string) {
    forall i :: 0 <= i < |s| ==> IsDigit(s[i])
  }

  function Digit(d: nat): (c: char)
    requires d < 10
    ensures IsDigit(c) && c as int == '0' as int + d
  {
    '0' + d as char
  }

  /** The printed form of n: its digits, most significant first, without a leading zero. */
  function ToString(n: nat): (s: string)
    ensures s != "" && AllDigits(s)
    ensures n > 0 ==> s[0] != '0'
  {
    if n < 10 then [Digit(n)] else ToString(n / 10) + [Digit(n % 10)]
  }

  function Value(s: string): nat
    requires AllDigits(s)
  {
    if s == "" then 0 else 10 * Value(s[..|s| - 1]) + (s[|s| - 1] as int - '0' as int)
  }

  /** The digits that s starts with. */
  function LeadingDigits(s: string): (d: string)
    ensures AllDigits(d)
  {
    if s == "" || !IsDigit(s[0]) then "" else [s[0]] + LeadingDigits(s[1..])
  }

  function SkipBlanks(s: string): string {
    if s != "" && (s[0] == ' ' || '\t' <= s[0] <= '\r') then SkipBlanks(s[1..]) else s
  }

  /** What std::stoi returns or throws. */
  datatype Parsed = Number(n: int) | InvalidArgument | OutOfRange

  /** Leading blanks, an optional sign, and as many digits as follow; the rest is ignored. */
  function Stoi(s: string): Parsed {
    var t := SkipBlanks(s);
    var signed := t != "" && (t[0] == '-' || t[0] == '+');
    var digits := LeadingDigits(if signed then t[1..] else t);
    if digits == "" then InvalidArgument
    else
      var v: int := Value(digits);
      var n := if signed && t[0] == '-' then -v else v;
      if -INT_MAX - 1 <= n <= INT_MAX then Number(n) else OutOfRange
  }

  lemma {:induction false} ValueToString(n: nat)
    ensures Value(ToString(n)) == n
  {
    if n >= 10 {
      ValueToString(n / 10);
      assert ToString(n)[..|ToString(n)| - 1] == ToString(n / 10);
    } else {
      assert ToString(n)[..0] == "";
    }
  }

  lemma {:induction false} LeadingDigitsAll(s: string)
    requires AllDigits(s)
    ensures LeadingDigits(s) == s
  {
    if s != "" { LeadingDigitsAll(s[1..]); }
  }

  /** On a string of digits, stoi reads them all. */
  lemma {:induction false} StoiDigits(s: string)
    requires s != "" && AllDigits(s)
    ensures Stoi(s) == if Value(s) <= INT_MAX then Number(Value(s)) else OutOfRange
  {
    LeadingDigitsAll(s);
    assert IsDigit(s[0]);
  }

  /** stoi undoes to_string. */
  lemma {:induction false} StoiToString(n: nat)
    requires n <= INT_MAX
    ensures Stoi(ToString(n)) == Number(n)
  {
    ValueToString(n);
    StoiDigits(ToString(n));
  }

  lemma {:induction false} ToStringInjective(m: nat, n: nat)
    requires ToString(m) == ToString(n)
    ensures m == n
  {
    ValueToString(m);
    ValueToString(n);
  }

  /** The digit of n that stands for the k-th power of ten: the last one after k divisions by ten. */
  function DigitOf(n: nat, k: nat): nat {
    if k == 0 then n % 10 else DigitOf(n / 10, k - 1)
  }

  /** The printed form has the digits of n, and as many of them as there are divisions by ten before
      nothing is left. */
  lemma {:induction false} ToStringDigits(n: nat, k: nat)
    requires k < |ToString(n)|
    ensures var s := ToString(n); s[|s| - 1 - k] as int == '0' as int + DigitOf(n, k)
    ensures n < 10 <==> |ToString(n)| == 1
    ensures n >= 10 ==> |ToString(n)| == |ToString(n / 10)| + 1
  {
    if n >= 10 && k > 0 {
      ToStringDigits(n / 10, k - 1);
      assert ToString(n)[|ToString(n)| - 1 - k] == ToString(n / 10)[|ToString(n / 10)| - 1 - (k - 1)];
    }
  }

  /** Leading zeros mean nothing. */
  lemma {:induction false} ValueLeadingZero(s: string)
    requires AllDigits(s)
    ensures AllDigits("0" + s) && Value("0" + s) == Value(s)
    decreases |s|
  {
    if s == "" {
      assert "0"[..0] == "" && Value("") == 0;
    } else {
      var n := |s| - 1;
      assert ("0" + s)[..|s|] == "0" + s[..n];
      ValueLeadingZero(s[..n]);
    }
  }

  predicate AllBlank(s: string) {
    forall i :: 0 <= i < |s| ==> s[i] == ' ' || '\t' <= s[i] <= '\r'
  }

  lemma {:induction false} SkipBlanksAll(b: string, s: string)
    requires AllBlank(b) && (s == "" || !(s[0] == ' ' || '\t' <= s[0] <= '\r'))
    ensures SkipBlanks(b + s) == s
    decreases |b|
  {
    if b == "" {
      assert b + s == s;
    } else {
      assert (b + s)[1..] == b[1..] + s;
      SkipBlanksAll(b[1..], s);
    }
  }

  lemma {:induction false} LeadingDigitsOf(d: string, rest: string)
    requires AllDigits(d) && (rest == "" || !('0' <= rest[0] <= '9'))
    ensures LeadingDigits(d + rest) == d
    decreases |d|
  {
    if d == "" {
      assert d + rest == rest;
    } else {
      assert (d + rest)[1..] == d[1..] + rest;
      LeadingDigitsOf(d[1..], rest);
    }
  }

  /** stoi reads blanks, perhaps a sign, and digits, and does not look at what follows them. */
  lemma {:induction false} StoiReads(blanks: string, sign: string, digits: string, rest: string)
    requires AllBlank(blanks) && (sign == "" || sign == "-" || sign == "+")
    requires digits != "" && (forall i :: 0 <= i < |digits| ==> '0' <= digits[i] <= '9')
    requires rest == "" || !('0' <= rest[0] <= '9')
    ensures AllDigits(digits)
    ensures var v: int := Value(digits);
            var n := if sign == "-" then -v else v;
            Stoi(blanks + sign + digits + rest) ==
              if -0x8000_0000 <= n < 0x8000_0000 then Number(n) else OutOfRange
  {
    var t := sign + digits + rest;
    assert blanks + sign + digits + rest == blanks + t;
    assert t[0] == if sign == "" then digits[0] else sign[0];
    SkipBlanksAll(blanks, t);
    LeadingDigitsOf(digits, rest);
    assert (if sign == "" then t else t[1..]) == digits + rest;
    hide SkipBlanks, LeadingDigits, Value;
  }

  /** Without digits there is nothing to read. */
  lemma {:induction false} StoiRefuses(blanks: string, sign: string, rest: string)
    requires AllBlank(blanks) && (sign == "" || sign == "-" || sign == "+")
    requires rest == "" || !('0' <= rest[0] <= '9')
    requires sign == "" && rest != "" ==> rest[0] != '-' && rest[0] != '+' && !AllBlank(rest[..1])
    ensures Stoi(blanks + sign + rest) == InvalidArgument
  {
    var t := sign + rest;
    assert blanks + sign + rest == blanks + t;
    assert rest != "" ==> rest[..1][0] == rest[0];
    SkipBlanksAll(blanks, t);
    assert (if sign == "" then t else t[1..]) == rest;
  }
}
