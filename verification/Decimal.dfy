/** Decimal numbers as printf writes them and scanf and strtol read them. */
module Decimal {

  predicate IsDigit(c: char) {
    '0' <= c <= '9'
  }

  /** isspace in the C locale. */
  predicate IsSpace(c: char) {
    c == ' ' || c == '\t' || c == '\n' || c == '\r' || c as int == 11 || c as int == 12
  }

  function DigitOf(d: int): (c: char)
    requires 0 <= d < 10
    ensures IsDigit(c) && ValueOf(c) == d
  {
    '0' + d as char
  }

  function ValueOf(c: char): int {
    c as int - '0' as int
  }

  function Digits(n: nat): (s: string)
    ensures s != [] && forall i | 0 <= i < |s| :: IsDigit(s[i])
  {
    if n < 10 then [DigitOf(n)] else Digits(n / 10) + [DigitOf(n % 10)]
  }

  /** %d and %ld */
  function Print(n: int): string {
    if n < 0 then "-" + Digits(-n) else Digits(n)
  }

  function SkipSpaces(s: string): (rest: string)
    ensures |rest| <= |s|
    ensures rest != [] ==> !IsSpace(rest[0])
  {
    if s != [] && IsSpace(s[0]) then SkipSpaces(s[1..]) else s
  }

  /** The digits that s begins with, read after a number acc, and what follows them. */
  function ReadDigits(s: string, acc: int): (r: (int, string))
    ensures |r.1| <= |s|
  {
    if s != [] && IsDigit(s[0]) then ReadDigits(s[1..], 10 * acc + ValueOf(s[0])) else (acc, s)
  }

  datatype Scanned = NoNumber | Number(value: int, rest: string)

  /** White space, a sign, digits: one conversion %d of scanf. */
  function Scan(s: string): (r: Scanned)
    ensures r.Number? ==> |r.rest| < |s|
  {
    var t := SkipSpaces(s);
    var negative := t != [] && t[0] == '-';
    var u := if t != [] && (t[0] == '-' || t[0] == '+') then t[1..] else t;
    if u == [] || !IsDigit(u[0]) then NoNumber
    else
      var (n, rest) := ReadDigits(u[1..], ValueOf(u[0]));
      Number(if negative then -n else n, rest)
  }

  lemma {:induction false} ReadsDigits(n: nat, rest: string)
    ensures ReadDigits(Digits(n) + rest, 0) == ReadDigits(rest, n)
  {
    if n < 10 {
      assert (Digits(n) + rest)[1..] == rest;
    } else {
      var last := [DigitOf(n % 10)];
      assert Digits(n) + rest == Digits(n / 10) + (last + rest);
      ReadsDigits(n / 10, last + rest);
      assert (last + rest)[1..] == rest;
    }
  }

  /** A printed number that no digit follows is read back. */
  lemma ScansPrinted(n: nat, rest: string)
    requires rest == [] || !IsDigit(rest[0])
    ensures Scan(Digits(n) + rest) == Number(n, rest)
  {
    var s := Digits(n) + rest;
    assert IsDigit(s[0]);
    assert SkipSpaces(s) == s;
    ReadsDigits(n, rest);
    assert ReadDigits(s, 0) == ReadDigits(s[1..], ValueOf(s[0]));
  }

  /** So is a number with a sign, and a plus sign is passed over. */
  lemma ScansSigned(n: int, rest: string)
    requires rest == [] || !IsDigit(rest[0])
    ensures Scan(Print(n) + rest) == Number(n, rest)
    ensures n >= 0 ==> Scan("+" + Print(n) + rest) == Number(n, rest)
  {
    if n < 0 {
      ScansBehindSign("-", -n, rest);
    } else {
      ScansPrinted(n, rest);
      ScansBehindSign("+", n, rest);
    }
  }

  lemma ScansBehindSign(sign: string, n: nat, rest: string)
    requires (sign == "-" || sign == "+") && (rest == [] || !IsDigit(rest[0]))
    ensures Scan(sign + Digits(n) + rest) == Number(if sign == "-" then 0 - n else n, rest)
  {
    var s, u := sign + Digits(n) + rest, Digits(n) + rest;
    assert s[0] == sign[0] && s[1..] == u;
    assert SkipSpaces(s) == s && IsDigit(u[0]);
    ReadsDigits(n, rest);
    assert ReadDigits(u, 0) == ReadDigits(u[1..], ValueOf(u[0]));
  }

  /** No digit is printed in vain. */
  lemma {:induction false} DigitsLead(n: nat)
    ensures n > 0 ==> Digits(n)[0] != '0'
    ensures n == 0 ==> Digits(n) == "0"
  {
    if n >= 10 {
      DigitsLead(n / 10);
    }
  }

  lemma ScansAfterSpace(c: char, s: string)
    requires IsSpace(c)
    ensures Scan([c] + s) == Scan(s)
  {
    assert ([c] + s)[1..] == s;
  }

  function Pow10(k: nat): nat {
    if k == 0 then 1 else 10 * Pow10(k - 1)
  }

  lemma {:induction false} DigitsShort(n: nat, k: nat)
    requires k > 0 && n < Pow10(k)
    ensures |Digits(n)| <= k
  {
    if n >= 10 {
      DigitsShort(n / 10, k - 1);
    }
  }

  /** Texts that are put together. */
  lemma Regroup(a: string, b: string, c: string)
    ensures a + (b + c) == a + b + c
  {
  }
}
