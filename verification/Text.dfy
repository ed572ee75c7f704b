/**
 The string helpers the HTTP code leans on: trimming and searching
 (core/string.hh) and the decimal and hexadecimal conversions of the C++
 library (`std::to_string`, `std::hex`, `std::stol`, `std::stoi`).

 A byte is a `char`; nothing below depends on a `char` being less than 256.
 */
module Text {
  const CR := '\r'
  const LF := '\n'
  const NUL := '\0'
  const CRLF: string := "\r\n"

  predicate IsWs(c: char) {
    c == ' ' || c == '\t' || c == '\n' || c == '\r' || c == '\U{0C}' || c == '\U{0B}'
  }

  predicate IsBlank(c: char) {
    c == ' ' || c == '\t'
  }

  function RTrim(s: string): string {
    if s != "" && IsWs(s[|s| - 1]) then RTrim(s[..|s| - 1]) else s
  }

  function LTrim(s: string): string {
    if s != "" && IsWs(s[0]) then LTrim(s[1..]) else s
  }

  function LTrimBlank(s: string): string {
    if s != "" && IsBlank(s[0]) then LTrimBlank(s[1..]) else s
  }

  function Trim(s: string): string {
    LTrim(RTrim(s))
  }

  /** Neither end is white space. */
  predicate Trimmed(s: string) {
    s == "" || (!IsWs(s[0]) && !IsWs(s[|s| - 1]))
  }

  /** A printed header value gets one space in front; trimming takes it off again. */
  lemma TrimUndoesSpace(s: string)
    requires Trimmed(s)
    ensures Trim(s) == s && Trim(" " + s) == s
  {
    if s == "" {
      assert (" " + s)[..0] == "";
    } else {
      assert RTrim(" " + s) == " " + s;
      assert (" " + s)[1..] == s;
    }
  }

  /** The first index of `c` at or after `from`, or |s|. */
  function IndexOf(s: string, c: char, from: nat): (i: nat)
    requires from <= |s|
    ensures from <= i <= |s|
    ensures i < |s| ==> s[i] == c
    ensures forall j :: from <= j < i ==> s[j] != c
    decreases |s| - from
  {
    if from == |s| || s[from] == c then from else IndexOf(s, c, from + 1)
  }

  predicate Without(s: string, c: char) {
    forall i :: 0 <= i < |s| ==> s[i] != c
  }

  predicate InLine(c: char) {
    c != '\r' && c != '\n' && c != '\0'
  }

  /** `s` is a whole line: it has no line end and no NUL. */
  predicate OneLine(s: string) {
    forall i :: 0 <= i < |s| ==> InLine(s[i])
  }

  lemma Assoc(a: string, b: string, c: string)
    ensures (a + b) + c == a + (b + c)
  {
  }

  lemma Cancel(a: string, x: string, y: string)
    requires a + x == a + y
    ensures x == y
  {
    assert x == (a + x)[|a|..];
    assert y == (a + y)[|a|..];
  }

  // ---------------------------------------------------------------------------
  // Printing numbers

  function DigitChar(d: nat): (c: char)
    requires d < 16
  {
    if d < 10 then '0' + d as char else 'a' + (d - 10) as char
  }

  function Digits(n: nat, base: nat): (s: string)
    requires 2 <= base <= 16
    ensures s != ""
  {
    if n < base then [DigitChar(n)] else Digits(n / base, base) + [DigitChar(n % base)]
  }

  /** `std::to_string` */
  function Dec(n: nat): string { Digits(n, 10) }

  /** `std::hex` */
  function Hex(n: nat): string { Digits(n, 16) }

  // ---------------------------------------------------------------------------
  // Reading numbers

  /** What `std::stol` does: a value, or one of its two exceptions. */
  datatype Number = Number(value: int) | InvalidArgument | OutOfRange

  const LONG_MAX: int := 0x7fff_ffff_ffff_ffff
  const INT_MAX: int := 0x7fff_ffff

  /** The value of a digit, or 36 when `c` is not a digit in any base. */
  function DigitValue(c: char): nat {
    if '0' <= c <= '9' then c as int - '0' as int
    else if 'a' <= c <= 'z' then c as int - 'a' as int + 10
    else if 'A' <= c <= 'Z' then c as int - 'A' as int + 10
    else 36
  }

  /** Reads digits as long as there are any. */
  function ReadDigits(s: string, base: nat, acc: nat): nat {
    if s == "" || DigitValue(s[0]) >= base then acc
    else ReadDigits(s[1..], base, acc * base + DigitValue(s[0]))
  }

  function SkipPrefix(s: string, base: nat): string {
    if base == 16 && |s| > 2 && s[0] == '0' && s[1] in "xX" && DigitValue(s[2]) < 16 then s[2..] else s
  }

  /** `strtol` behind `std::stol` and `std::stoi`: white space, a sign, an
      optional 0x in base 16, then at least one digit; `max` is the largest value
      of the result type. */
  function Stol(s: string, base: nat, max: int): Number {
    var t := LTrim(s);
    var negative := t != "" && t[0] == '-';
    var u := SkipPrefix(if t != "" && t[0] in "+-" then t[1..] else t, base);
    if u == "" || DigitValue(u[0]) >= base then InvalidArgument
    else
      var magnitude: int := ReadDigits(u, base, 0);
      var v := if negative then -magnitude else magnitude;
      if -max - 1 <= v <= max then Number(v) else OutOfRange
  }

  predicate AllDigits(s: string, base: nat) {
    forall i :: 0 <= i < |s| ==> DigitValue(s[i]) < base
  }

  lemma {:induction false} ReadDigitsSnoc(s: string, c: char, base: nat, acc: nat)
    requires AllDigits(s, base) && DigitValue(c) < base
    ensures ReadDigits(s + [c], base, acc) == ReadDigits(s, base, acc) * base + DigitValue(c)
  {
    if s == "" {
      assert (s + [c])[1..] == "";
    } else {
      assert (s + [c])[1..] == s[1..] + [c];
      ReadDigitsSnoc(s[1..], c, base, acc * base + DigitValue(s[0]));
    }
  }

  lemma DigitCharValue(d: nat)
    requires d < 16
    ensures DigitValue(DigitChar(d)) == d
  {
  }

  lemma {:induction false} DigitsRead(n: nat, base: nat)
    requires base == 10 || base == 16
    ensures AllDigits(Digits(n, base), base)
    ensures ReadDigits(Digits(n, base), base, 0) == n
  {
    DigitCharValue(n % base);
    if n >= base {
      DigitsRead(n / base, base);
      ReadDigitsSnoc(Digits(n / base, base), DigitChar(n % base), base, 0);
    } else {
      assert Digits(n, base)[1..] == "";
    }
  }

  lemma DigitsAreClean(s: string, base: nat)
    requires AllDigits(s, base) && base <= 16 && s != ""
    ensures OneLine(s) && Without(s, ' ') && Trimmed(s)
    ensures LTrim(s) == s && s[0] !in "+-" && SkipPrefix(s, base) == s
  {
    forall i | 0 <= i < |s| ensures InLine(s[i]) && s[i] != ' ' && !IsWs(s[i]) {
      assert DigitValue(s[i]) < base;
    }
    assert DigitValue(s[0]) < base;
    assert |s| > 1 ==> DigitValue(s[1]) < base;
  }

  /** Reading a printed number gives it back, exactly while it fits the result type. */
  lemma PrintedNumberRoundTrip(n: nat, base: nat, max: nat)
    requires base == 10 || base == 16
    ensures Stol(Digits(n, base), base, max) == if n <= max then Number(n) else OutOfRange
    ensures OneLine(Digits(n, base)) && Without(Digits(n, base), ' ') && Trimmed(Digits(n, base))
  {
    DigitsRead(n, base);
    var s := Digits(n, base);
    DigitsAreClean(s, base);
    assert SkipPrefix(s, base) == s;
  }
}
