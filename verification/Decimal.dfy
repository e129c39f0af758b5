/** printf's %d and %ld, and the reading back by atol and sscanf's %d. */
module Decimal {
  import opened Sequences

  predicate IsDigit(c: char) {
    '0' <= c <= '9'
  }

  predicate IsSpace(c: char) {
    c == ' ' || '\t' <= c <= '\r'
  }

  function DigitOf(d: nat): char
    requires d < 10
  {
    '0' + d as char
  }

  function DigitValue(c: char): (d: nat)
    requires IsDigit(c)
    ensures d < 10 && DigitOf(d) == c
  {
    c as int - '0' as int
  }

  predicate AllDigits(s: string) {
    forall i :: 0 <= i < |s| ==> IsDigit(s[i])
  }

  function Digits(n: nat): (s: string)
    ensures s != "" && AllDigits(s)
  {
    if n < 10 then [DigitOf(n)] else Digits(n / 10) + [DigitOf(n % 10)]
  }

  function Print(i: int): string {
    if i < 0 then "-" + Digits(-i) else Digits(i)
  }

  /** The number of leading digits. */
  function DigitRun(s: string): (k: nat)
    ensures k <= |s|
    ensures AllDigits(s[..k])
    ensures k < |s| ==> !IsDigit(s[k])
  {
    if s == "" || !IsDigit(s[0]) then 0
    else
      var k := DigitRun(s[1..]);
      assert s[..k + 1] == [s[0]] + s[1..][..k];
      k + 1
  }

  function Value(s: string): nat
    requires AllDigits(s)
  {
    if s == "" then 0 else 10 * Value(s[..|s| - 1]) + DigitValue(s[|s| - 1])
  }

  function SkipSpaces(s: string): string {
    if s != "" && IsSpace(s[0]) then SkipSpaces(s[1..]) else s
  }

  function ParseDigits(s: string): Option<int> {
    var k := DigitRun(s);
    if k == 0 then None else Some(Value(s[..k]))
  }

  /** White space, an optional sign, digits; None when there is no digit. */
  function Parse(s: string): Option<int> {
    var t := SkipSpaces(s);
    if t != "" && t[0] == '-' then
      match ParseDigits(t[1..])
      case None => None
      case Some(n) => Some(-n)
    else if t != "" && t[0] == '+' then ParseDigits(t[1..])
    else ParseDigits(t)
  }

  function Atol(s: string): int {
    var n := Parse(s);
    if n.Some? then n.value else 0
  }

  lemma {:induction false} ValueOfDigits(n: nat)
    ensures Value(Digits(n)) == n
  {
    var s := Digits(n);
    if n >= 10 {
      ValueOfDigits(n / 10);
      assert s[..|s| - 1] == Digits(n / 10);
    }
    assert Value(s) == 10 * Value(s[..|s| - 1]) + DigitValue(s[|s| - 1]);
  }

  lemma {:induction false} RunOfDigits(digits: string, rest: string)
    requires AllDigits(digits) && (rest == "" || !IsDigit(rest[0]))
    ensures DigitRun(digits + rest) == |digits|
  {
    if digits == "" {
      assert digits + rest == rest;
    } else {
      RunOfDigits(digits[1..], rest);
      assert (digits + rest)[1..] == digits[1..] + rest;
    }
  }

  lemma {:induction false} DigitsParse(n: nat, rest: string)
    requires rest == "" || !IsDigit(rest[0])
    ensures ParseDigits(Digits(n) + rest) == Some(n)
  {
    RunOfDigits(Digits(n), rest);
    ValueOfDigits(n);
    assert (Digits(n) + rest)[..|Digits(n)|] == Digits(n);
  }

  lemma {:induction false} SignedParses(negative: bool, digits: string, rest: string, n: int)
    requires digits != "" && IsDigit(digits[0]) && ParseDigits(digits + rest) == Some(n)
    ensures Parse((if negative then "-" + digits else digits) + rest) == Some(if negative then -n else n)
  {
    var t := digits + rest;
    assert t[0] == digits[0];
    if negative {
      var s := "-" + digits + rest;
      assert s[1..] == t && SkipSpaces(s) == s;
    } else {
      assert SkipSpaces(t) == t;
    }
  }

  /** Whatever follows the number, if it does not go on with a digit, the number is read back. */
  lemma {:induction false} PrintParses(i: int, rest: string)
    requires rest == "" || !IsDigit(rest[0])
    ensures Parse(Print(i) + rest) == Some(i)
  {
    var n: nat := if i < 0 then -i else i;
    DigitsParse(n, rest);
    SignedParses(i < 0, Digits(n), rest, n);
  }

  // ---- Letter by letter -----------------------------------------------------------------------

  /** n without its last k decimal digits. */
  function Dropped(n: nat, k: nat): nat {
    if k == 0 then n else Dropped(n / 10, k - 1)
  }

  /** The digits are n's decimal digits, the last one last, and there is no zero in front. */
  lemma {:induction false} DigitsAreDecimal(n: nat, k: nat)
    requires k < |Digits(n)|
    ensures Digits(n)[|Digits(n)| - 1 - k] == "0123456789"[Dropped(n, k) % 10]
    ensures Digits(n)[0] == '0' <==> n == 0
  {
    if n < 10 {
      assert DigitOf(n) == "0123456789"[n];
    } else {
      assert DigitOf(n % 10) == "0123456789"[n % 10];
      DigitsAreDecimal(n / 10, if k > 0 then k - 1 else 0);
    }
  }

  predicate AllSpaces(s: string) {
    forall i :: 0 <= i < |s| ==> s[i] in " \t\n\U{0b}\U{0c}\r"
  }

  lemma {:induction false} SpacesAreSkipped(spaces: string, rest: string)
    requires AllSpaces(spaces) && (rest == "" || !IsSpace(rest[0]))
    ensures SkipSpaces(spaces + rest) == rest
  {
    if spaces == "" {
      assert spaces + rest == rest;
    } else {
      SpacesAreSkipped(spaces[1..], rest);
      assert (spaces + rest)[1..] == spaces[1..] + rest;
    }
  }

  /** White space and a plus sign in front of a number are passed over. */
  lemma ParsesPast(spaces: string, i: int, rest: string)
    requires AllSpaces(spaces) && (rest == "" || !IsDigit(rest[0]))
    ensures Parse(spaces + (Print(i) + rest)) == Some(i)
    ensures i >= 0 ==> Parse(spaces + ("+" + (Print(i) + rest))) == Some(i)
  {
    PrintParses(i, rest);
    var printed := Print(i) + rest;
    assert !IsSpace(printed[0]) by {
      assert printed[0] == Print(i)[0];
      assert i >= 0 ==> IsDigit(Digits(i)[0]);
    }
    SpacesAreSkipped(spaces, printed);
    SpacesAreSkipped("", printed);
    assert "" + printed == printed;
    if i >= 0 {
      SpacesAreSkipped(spaces, "+" + printed);
      assert ("+" + printed)[1..] == printed;
      DigitsParse(i, rest);
    }
  }

  /** Without a digit there is no number, and atol reads 0. */
  lemma NoDigitNoNumber(spaces: string, sign: string, rest: string)
    requires AllSpaces(spaces) && sign in ["", "+", "-"]
    requires rest == "" || (!IsDigit(rest[0]) && !IsSpace(rest[0]) && rest[0] != '+' && rest[0] != '-')
    ensures Parse(spaces + (sign + rest)) == None && Atol(spaces + (sign + rest)) == 0
  {
    SpacesAreSkipped(spaces, sign + rest);
    if sign != "" {
      assert (sign + rest)[1..] == rest;
    } else {
      assert sign + rest == rest;
    }
  }
}
