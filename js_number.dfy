/** `parseInt(s)` of JavaScript without a radix argument (section 19.2.5
    of ECMA-262): leading white space is skipped, one sign is read, a `0x`
    or `0X` prefix selects base 16, and the longest run of digits that
    follows is the value; no digit at all is `NaN`, written `None`. */
module JsNumber {
  import opened Wrappers
  import opened JsText

  predicate IsDigit(c: char) {
    '0' <= c <= '9'
  }

  predicate IsHexLetter(c: char) {
    ('a' <= c <= 'f') || ('A' <= c <= 'F')
  }

  /** A digit of the given base (10 or 16). */
  predicate DigitIn(c: char, radix: nat) {
    IsDigit(c) || (radix == 16 && IsHexLetter(c))
  }

  function DigitValue(c: char): (r: nat)
    requires IsDigit(c) || IsHexLetter(c)
    ensures r < 16
    ensures IsDigit(c) ==> r < 10
  {
    if IsDigit(c) then c as int - '0' as int
    else if 'a' <= c <= 'f' then c as int - 'a' as int + 10
    else c as int - 'A' as int + 10
  }

  /** The length of the longest prefix of `s` made of digits of `radix`. */
  function DigitRun(s: string, radix: nat): (r: nat)
    ensures r <= |s|
    ensures forall i :: 0 <= i < r ==> DigitIn(s[i], radix)
    ensures r < |s| ==> !DigitIn(s[r], radix)
  {
    if s == [] || !DigitIn(s[0], radix) then 0
    else
      var r := DigitRun(s[1..], radix);
      assert forall i :: 1 <= i < r + 1 ==> s[i] == s[1..][i - 1];
      1 + r
  }

  /** The value of a digit string, most significant digit first. */
  function ValueOf(d: string, radix: nat): nat
    requires forall i :: 0 <= i < |d| ==> DigitIn(d[i], radix)
  {
    if d == [] then 0
    else
      var last := d[|d| - 1];
      assert DigitIn(last, radix);
      ValueOf(d[..|d| - 1], radix) * radix + DigitValue(last)
  }

  /** The number spelt by the longest digit prefix of `s`, if any. */
  function LeadingNumber(s: string, radix: nat): Option<nat> {
    var n := DigitRun(s, radix);
    if n == 0 then None else Some(ValueOf(s[..n], radix))
  }

  function ParseInt(s: string): Option<int> {
    var t := TrimStart(s);
    var negative := t != [] && t[0] == '-';
    var u := if t != [] && (t[0] == '-' || t[0] == '+') then t[1..] else t;
    var hex := |u| >= 2 && u[0] == '0' && (u[1] == 'x' || u[1] == 'X');
    var magnitude := if hex then LeadingNumber(u[2..], 16) else LeadingNumber(u, 10);
    if magnitude.None? then None
    else
      var m: int := magnitude.value;
      Some(if negative then -m else m)
  }

  /** Reading back a decimal rendering gives the number. */
  lemma {:induction false} ValueOfDecimal(n: nat)
    ensures ValueOf(DecimalString(n), 10) == n
  {
    if n >= 10 {
      var d := DecimalString(n / 10);
      var s := DecimalString(n);
      assert s == d + [DigitChar(n % 10)];
      assert s[..|s| - 1] == d;
      ValueOfDecimal(n / 10);
    }
  }

  /** Text that starts with a decimal digit, other than a `0` followed by
      `x`, is read in base 10 from its first character. */
  lemma {:induction false} ParseIntFromDigit(s: string)
    requires s != [] && IsDigit(s[0])
    requires |s| < 2 || s[0] != '0' || (s[1] != 'x' && s[1] != 'X')
    ensures LeadingNumber(s, 10).Some?
    ensures ParseInt(s) == Some(LeadingNumber(s, 10).value)
  {
    assert !IsSpace(s[0]);
    assert TrimStart(s) == s;
  }

  lemma {:induction false} LeadingNumberDecimal(n: nat, rest: string)
    requires rest == [] || !DigitIn(rest[0], 10)
    ensures LeadingNumber(DecimalString(n) + rest, 10) == Some(n)
  {
    var d := DecimalString(n);
    var s := d + rest;
    DigitRunStops(s, |d|, 10);
    assert s[..|d|] == d;
    ValueOfDecimal(n);
  }

  /** `parseInt` reads a decimal rendering back, and stops at the first
      character that is not a digit: `parseInt('12px')` is 12. The one
      exception is an `x` after a lone `0`, which switches to base 16. */
  lemma {:induction false} ParseIntDecimal(n: nat, rest: string)
    requires rest == [] || (!DigitIn(rest[0], 10) && (n != 0 || (rest[0] != 'x' && rest[0] != 'X')))
    ensures ParseInt(DecimalString(n) + rest) == Some(n)
  {
    var d := DecimalString(n);
    var s := d + rest;
    assert s[0] == d[0];
    if |d| >= 2 {
      assert s[1] == d[1];
    } else if |s| >= 2 {
      assert s[1] == rest[0];
    }
    ParseIntFromDigit(s);
    LeadingNumberDecimal(n, rest);
  }

  /** The listing's default query values. */
  lemma {:induction false} ParseIntDefaults()
    ensures ParseInt("10") == Some(10) && ParseInt("0") == Some(0)
  {
    assert DecimalString(1) == "1";
    assert DecimalString(10) == DecimalString(1) + [DigitChar(0)];
    assert DecimalString(10) + [] == "10";
    ParseIntDecimal(10, []);
    assert DecimalString(0) + [] == "0";
    ParseIntDecimal(0, []);
  }

  lemma {:induction false} DigitRunStops(s: string, k: nat, radix: nat)
    requires k <= |s|
    requires forall i :: 0 <= i < k ==> DigitIn(s[i], radix)
    requires k == |s| || !DigitIn(s[k], radix)
    ensures DigitRun(s, radix) == k
  {
    if k > 0 {
      assert forall i :: 0 <= i < k - 1 ==> s[1..][i] == s[i + 1];
      DigitRunStops(s[1..], k - 1, radix);
    }
  }

  /** No digit, no number: a blank string or a word is `NaN`. */
  lemma {:induction false} ParseIntNoDigits(s: string)
    requires IsBlank(s) || (s != [] && !IsSpace(s[0]) && !DigitIn(s[0], 10) && s[0] != '-' && s[0] != '+')
    ensures ParseInt(s) == None
  {
    if IsBlank(s) {
      TrimStartBlank(s);
    } else {
      assert TrimStart(s) == s;
    }
  }
}
