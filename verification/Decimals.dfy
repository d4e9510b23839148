/** JavaScript's decimal integers: String(n), parseInt(s, 10) and trim(), on exact integers. */
module Decimals {
  import opened Wrappers

  predicate IsDigit(c: char) { '0' <= c <= '9' }

  predicate AllDigits(s: string) { forall c :: c in s ==> IsDigit(c) }

  function Digit(d: nat): char
    requires d < 10
  {
    '0' + d as char
  }

  function DigitValue(c: char): nat
    requires IsDigit(c)
  {
    c as int - '0' as int
  }

  /** String(n) for an integer. */
  function Print(n: nat): string {
    if n < 10 then [Digit(n)] else Print(n / 10) + [Digit(n % 10)]
  }

  function PrintInt(n: int): string {
    if n < 0 then "-" + Print(-n) else Print(n)
  }

  function Value(s: string): nat
    requires AllDigits(s)
  {
    if s == "" then 0 else 10 * Value(s[..|s| - 1]) + DigitValue(s[|s| - 1])
  }

  function DigitPrefix(s: string): (r: string)
    ensures AllDigits(r)
  {
    if s == "" || !IsDigit(s[0]) then "" else [s[0]] + DigitPrefix(s[1..])
  }

  predicate IsSpace(c: char) {
    var u := c as int;
    || 0x09 <= u <= 0x0D || u in {0x20, 0xA0, 0x1680, 0x2028, 0x2029, 0x202F, 0x205F, 0x3000, 0xFEFF}
    || 0x2000 <= u <= 0x200A
  }

  function TrimStart(s: string): string {
    if s != "" && IsSpace(s[0]) then TrimStart(s[1..]) else s
  }

  function TrimEnd(s: string): string {
    if s != "" && IsSpace(s[|s| - 1]) then TrimEnd(s[..|s| - 1]) else s
  }

  function Trim(s: string): string {
    TrimEnd(TrimStart(s))
  }

  /** parseInt(text, 10): past leading spaces, an optional sign and the longest run of digits; None is NaN. */
  function ParseInt(text: string): Option<int> {
    var s := TrimStart(text);
    var signed := s != "" && (s[0] == '-' || s[0] == '+');
    var digits := DigitPrefix(if signed then s[1..] else s);
    if digits == "" then None
    else
      var magnitude: int := Value(digits);
      Some(if signed && s[0] == '-' then -magnitude else magnitude)
  }

  /** A numeral: not empty, and no leading zero unless it is zero itself. */
  predicate Canonical(s: string) {
    s != "" && AllDigits(s) && (s[0] == '0' ==> s == "0")
  }

  lemma {:induction false} PrintIsCanonical(n: nat)
    ensures Canonical(Print(n)) && Value(Print(n)) == n
    ensures n > 0 ==> Print(n)[0] != '0'
  {
    if n >= 10 {
      PrintIsCanonical(n / 10);
      assert Print(n)[..|Print(n)| - 1] == Print(n / 10);
    } else {
      assert Print(n)[..0] == "";
    }
  }

  /** Only one canonical numeral has a given value. */
  lemma {:induction false} CanonicalIsPrinted(s: string)
    requires Canonical(s)
    ensures Print(Value(s)) == s
    ensures |s| > 1 ==> Value(s) >= 10
    decreases |s|
  {
    var init, last := s[..|s| - 1], s[|s| - 1];
    assert s == init + [last];
    assert IsDigit(last) by {
      assert last in s;
    }
    assert Digit(DigitValue(last)) == last;
    if init == "" {
      assert Value(init) == 0 && s == [last];
    } else {
      assert Canonical(init) by {
        assert init[0] == s[0];
      }
      CanonicalIsPrinted(init);
      assert Print(0) == "0" && Value(init) > 0;
    }
  }

  lemma {:induction false} DigitsAreTheirOwnPrefix(s: string)
    requires AllDigits(s)
    ensures DigitPrefix(s) == s
  {
    if s == "" {
    } else {
      DigitsAreTheirOwnPrefix(s[1..]);
      assert s == [s[0]] + s[1..];
    }
  }

  lemma ParseDigits(digits: string)
    requires digits != "" && AllDigits(digits)
    ensures ParseInt(digits) == Some(Value(digits))
  {
    DigitsAreTheirOwnPrefix(digits);
    assert digits[0] in digits;
  }

  lemma ParseNegative(digits: string)
    requires digits != "" && AllDigits(digits)
    ensures var value: int := Value(digits); ParseInt("-" + digits) == Some(-value)
  {
    DigitsAreTheirOwnPrefix(digits);
    var s := "-" + digits;
    assert s[0] == '-' && s[1..] == digits;
    assert TrimStart(s) == s;
  }

  /** The digits up to the first character that is none. */
  lemma {:induction false} DigitsUpTo(digits: string, rest: string)
    requires AllDigits(digits) && (rest != "" ==> !IsDigit(rest[0]))
    ensures DigitPrefix(digits + rest) == digits
  {
    if digits == "" {
      assert digits + rest == rest;
    } else {
      assert digits[0] in digits;
      assert (digits + rest)[1..] == digits[1..] + rest;
      DigitsUpTo(digits[1..], rest);
      assert digits == [digits[0]] + digits[1..];
    }
  }

  /** Leading spaces, a sign, and whatever follows the digits do not keep a number from being read; no digits do. */
  lemma ParseIntReads(pad: string, sign: string, digits: string, rest: string)
    requires (forall c :: c in pad ==> IsSpace(c)) && sign in {"", "-", "+"} && AllDigits(digits)
    requires rest != "" ==> !IsDigit(rest[0])
    requires sign == digits == "" && rest != "" ==> !IsSpace(rest[0]) && rest[0] != '-' && rest[0] != '+'
    ensures var value: int := Value(digits);
            ParseInt(pad + (sign + (digits + rest))) ==
              if digits == "" then None else Some(if sign == "-" then -value else value)
  {
    var s := sign + (digits + rest);
    if digits != "" {
      assert digits[0] in digits;
    }
    if s == "" {
      assert pad + s == pad;
      AllSpacesTrim(pad);
    } else {
      TrimStartDropsPadding(pad, s);
    }
    DigitsUpTo(digits, rest);
    if sign == "" {
      assert s == digits + rest;
    } else {
      assert s[1..] == digits + rest;
    }
  }

  lemma {:induction false} AllSpacesTrim(pad: string)
    requires forall c :: c in pad ==> IsSpace(c)
    ensures TrimStart(pad) == ""
  {
    if pad == "" {
    } else {
      AllSpacesTrim(pad[1..]);
    }
  }

  lemma ParsePrinted(n: int)
    ensures ParseInt(PrintInt(n)) == Some(n)
  {
    var abs := if n < 0 then -n else n;
    PrintIsCanonical(abs);
    if n < 0 {
      ParseNegative(Print(abs));
    } else {
      ParseDigits(Print(abs));
    }
  }

  lemma {:induction false} TrimStartDropsPadding(pad: string, s: string)
    requires (forall c :: c in pad ==> IsSpace(c)) && s != "" && !IsSpace(s[0])
    ensures TrimStart(pad + s) == s
  {
    if pad == "" {
      assert pad + s == s;
    } else {
      assert (pad + s)[1..] == pad[1..] + s;
      TrimStartDropsPadding(pad[1..], s);
    }
  }

  lemma {:induction false} TrimEndDropsPadding(s: string, pad: string)
    requires (forall c :: c in pad ==> IsSpace(c)) && s != "" && !IsSpace(s[|s| - 1])
    ensures TrimEnd(s + pad) == s
  {
    if pad == "" {
      assert s + pad == s;
    } else {
      assert (s + pad)[..|s + pad| - 1] == s + pad[..|pad| - 1];
      TrimEndDropsPadding(s, pad[..|pad| - 1]);
    }
  }

  lemma TrimDropsPadding(before: string, s: string, after: string)
    requires forall c :: c in before + after ==> IsSpace(c)
    requires s != "" && !IsSpace(s[0]) && !IsSpace(s[|s| - 1])
    ensures Trim(before + s + after) == s
  {
    assert before + s + after == before + (s + after);
    assert forall c :: c in before ==> c in before + after;
    assert forall c :: c in after ==> c in before + after;
    TrimStartDropsPadding(before, s + after);
    TrimEndDropsPadding(s, after);
  }
}
