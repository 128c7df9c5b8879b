/** Printing naturals in decimal, and scanning them back the way %d does. */
module Decimal {
  import opened Common

  function Digit(d: int): char
    requires 0 <= d < 10
  {
    '0' + d as char
  }

  predicate IsDigit(c: char) {
    '0' <= c <= '9'
  }

  function Print(n: nat): string {
    if n < 10 then [Digit(n)] else Print(n / 10) + [Digit(n % 10)]
  }

  /** The number a string of digits spells. */
  function ValueOf(ds: string): nat
    requires forall i :: 0 <= i < |ds| ==> IsDigit(ds[i])
  {
    if ds == "" then 0
    else
      var last := ds[|ds| - 1];
      assert IsDigit(last);
      ValueOf(ds[..|ds| - 1]) * 10 + (last as int - '0' as int)
  }

  /** How many characters at the front are digits. */
  function Leading(s: string): (n: nat)
    ensures n <= |s| && forall i :: 0 <= i < n ==> IsDigit(s[i])
    ensures n < |s| ==> !IsDigit(s[n])
  {
    if s == "" || !IsDigit(s[0]) then 0 else 1 + Leading(s[1..])
  }

  predicate Blank(c: char) {
    c == ' ' || c == '\t' || c == '\r' || c as int == 11 || c as int == 12
  }

  function SkipBlanks(s: string): string {
    if s != "" && Blank(s[0]) then SkipBlanks(s[1..]) else s
  }

  /** %d into an unsigned field: blanks are skipped, then the longest run of digits
      must exist and must not exceed the largest value of the type. */
  function ScanUint(s: string, largest: nat): Option<(nat, string)> {
    var t := SkipBlanks(s);
    var n := Leading(t);
    if n == 0 || ValueOf(t[..n]) > largest then None else Some((ValueOf(t[..n]), t[n..]))
  }

  /** %d into a signed field: a sign may stand before the digits. */
  function ScanInt(s: string, largest: int): Option<(int, string)> {
    var t := SkipBlanks(s);
    var negative := t != "" && t[0] == '-';
    var u := if t != "" && (t[0] == '-' || t[0] == '+') then t[1..] else t;
    var n := Leading(u);
    if n == 0 then None
    else
      var v: int := if negative then 0 - ValueOf(u[..n]) else ValueOf(u[..n]);
      if v > largest || v < 0 - largest - 1 then None else Some((v, u[n..]))
  }

  lemma {:induction false} PrintedDigits(n: nat)
    ensures Print(n) != "" && forall i :: 0 <= i < |Print(n)| ==> IsDigit(Print(n)[i])
    ensures ValueOf(Print(n)) == n
    ensures Print(n)[0] == '0' ==> n == 0 && Print(n) == "0"
  {
    if n >= 10 {
      PrintedDigits(n / 10);
      var s := Print(n);
      assert s[..|s| - 1] == Print(n / 10);
    }
  }

  lemma {:induction false} LeadingOfDigits(ds: string, rest: string)
    requires forall i :: 0 <= i < |ds| ==> IsDigit(ds[i])
    requires rest == "" || !IsDigit(rest[0])
    ensures Leading(ds + rest) == |ds|
  {
    if ds == "" {
      assert ds + rest == rest;
    } else {
      assert (ds + rest)[1..] == ds[1..] + rest;
      LeadingOfDigits(ds[1..], rest);
    }
  }

  /** A printed number in range is scanned back, up to the first non-digit. */
  lemma ScanPrinted(n: nat, rest: string, largest: nat)
    requires n <= largest && (rest == "" || !IsDigit(rest[0]))
    ensures ScanUint(Print(n) + rest, largest) == Some((n, rest))
    ensures ScanInt(Print(n) + rest, largest) == Some((n, rest))
  {
    PrintedDigits(n);
    LeadingOfDigits(Print(n), rest);
    var s := Print(n) + rest;
    assert IsDigit(s[0]) && !Blank(s[0]);
    assert s[..|Print(n)|] == Print(n) && s[|Print(n)|..] == rest;
  }

  /** A number too large for its field is refused. */
  lemma TooLargeIsRefused(n: nat, rest: string, largest: nat)
    requires n > largest && (rest == "" || !IsDigit(rest[0]))
    ensures ScanUint(Print(n) + rest, largest) == None && ScanInt(Print(n) + rest, largest) == None
  {
    PrintedDigits(n);
    LeadingOfDigits(Print(n), rest);
    var s := Print(n) + rest;
    assert IsDigit(s[0]) && !Blank(s[0]);
    assert s[..|Print(n)|] == Print(n) && s[|Print(n)|..] == rest;
  }

  /** A sign is taken where the field is signed. */
  lemma SignedScan(n: nat, rest: string, largest: nat)
    requires n <= largest && (rest == "" || !IsDigit(rest[0]))
    ensures ScanInt("-" + (Print(n) + rest), largest) == Some((0 - n, rest))
    ensures ScanInt("+" + (Print(n) + rest), largest) == Some((n, rest))
  {
    PrintedDigits(n);
    LeadingOfDigits(Print(n), rest);
    var u := Print(n) + rest;
    assert u[..|Print(n)|] == Print(n) && u[|Print(n)|..] == rest;
    assert ("-" + u)[1..] == u && ("+" + u)[1..] == u;
    assert !Blank(("-" + u)[0]) && !Blank(("+" + u)[0]);
  }

  /** Where it is not, a sign is refused like anything else that is no digit. */
  lemma NoDigitsNoNumber(s: string, largest: nat)
    requires s == "" || (!Blank(s[0]) && !IsDigit(s[0]))
    ensures ScanUint(s, largest) == None
  {
  }

  /** Blanks before the number do not matter. */
  lemma BlanksAreSkipped(c: char, s: string, largest: nat)
    requires c == ' ' || c == '\t'
    ensures ScanUint([c] + s, largest) == ScanUint(s, largest) && ScanInt([c] + s, largest) == ScanInt(s, largest)
  {
    assert ([c] + s)[1..] == s;
    assert SkipBlanks([c] + s) == SkipBlanks(s);
  }
}
