/**
  JavaScript value semantics that the backend relies on: spreadsheet cells,
  truthiness (`||` defaulting), `String(...)`, `trim`, `toUpperCase`,
  `includes`, `startsWith`, `replace` with a string pattern, and the
  number readers `parseFloat` and `parseInt`.
*/
module Js {

  datatype Option<+T> = None | Some(value: T)

  datatype Result<+T> = Success(value: T) | Failure(error: string)

  /** A cell value as the spreadsheet decoder or a JSON body yields it.
      Numeric cells are integers; `DateObj` is a JavaScript Date object,
      carried with the text that `String(date)` produces for it. */
  datatype Cell = Undefined | Str(s: string) | Num(n: int) | Bool(b: bool) | DateObj(shown: string)

  /** JavaScript truthiness: `undefined`, `''`, `0` and `false` are falsy. */
  predicate Truthy(c: Cell) {
    match c
    case Undefined => false
    case Str(s) => s != ""
    case Num(n) => n != 0
    case Bool(b) => b
    case DateObj(_) => true
  }

  /** `a || b` */
  function Or(a: Cell, b: Cell): Cell {
    if Truthy(a) then a else b
  }

  // ---------------------------------------------------------------------
  // Characters and digits
  // ---------------------------------------------------------------------

  /** The characters `String.prototype.trim` and `parseFloat` skip:
      WhiteSpace (TAB, VT, FF, ZWNBSP and the Zs category) and LineTerminator. */
  predicate IsSpace(c: char) {
    c == ' ' || c == '\t' || c == '\n' || c == '\r' || c == '\U{B}' || c == '\U{C}'
    || c == '\U{A0}' || c == '\U{1680}' || ('\U{2000}' <= c <= '\U{200A}')
    || c == '\U{2028}' || c == '\U{2029}' || c == '\U{202F}' || c == '\U{205F}'
    || c == '\U{3000}' || c == '\U{FEFF}'
  }

  predicate IsDigit(c: char) {
    '0' <= c <= '9'
  }

  function DigitVal(c: char): nat
    requires IsDigit(c)
  {
    c as int - '0' as int
  }

  function DigitChar(d: nat): char
    requires d < 10
  {
    (48 + d) as char
  }

  predicate AllDigits(s: string) {
    forall i | 0 <= i < |s| :: IsDigit(s[i])
  }

  /** Value of a string of decimal digits, most significant digit first. */
  function DigitsValue(s: string): nat
    requires AllDigits(s)
    decreases |s|
  {
    if |s| == 0 then 0 else 10 * DigitsValue(s[..|s| - 1]) + DigitVal(s[|s| - 1])
  }

  /** Length of the run of decimal digits that starts the string. */
  function DigitRun(s: string): (n: nat)
    ensures n <= |s| && AllDigits(s[..n])
    ensures n < |s| ==> !IsDigit(s[n])
    decreases |s|
  {
    if |s| > 0 && IsDigit(s[0]) then
      var m := DigitRun(s[1..]);
      assert s[..m + 1] == [s[0]] + s[1..][..m];
      m + 1
    else 0
  }

  function Pow10(n: nat): nat
    ensures Pow10(n) > 0
  {
    if n == 0 then 1 else 10 * Pow10(n - 1)
  }

  // ---------------------------------------------------------------------
  // String conversions
  // ---------------------------------------------------------------------

  /** Decimal text of a natural number, without leading zeros. */
  function NatToString(n: nat): (s: string)
    ensures |s| > 0 && AllDigits(s)
    decreases n
  {
    if n < 10 then [DigitChar(n)] else NatToString(n / 10) + [DigitChar(n % 10)]
  }

  /** `String(n)` for an integer number. */
  function IntToString(n: int): string {
    if n < 0 then "-" + NatToString(-n) else NatToString(n)
  }

  /** `String(value)`: the text JavaScript converts a cell to. */
  function CellString(c: Cell): string {
    match c
    case Undefined => "undefined"
    case Str(s) => s
    case Num(n) => IntToString(n)
    case Bool(b) => if b then "true" else "false"
    case DateObj(shown) => shown
  }

  function TrimStart(s: string): string
    decreases |s|
  {
    if |s| > 0 && IsSpace(s[0]) then TrimStart(s[1..]) else s
  }

  function TrimEnd(s: string): string
    decreases |s|
  {
    if |s| > 0 && IsSpace(s[|s| - 1]) then TrimEnd(s[..|s| - 1]) else s
  }

  /** `String.prototype.trim` */
  function Trim(s: string): string {
    TrimEnd(TrimStart(s))
  }

  function UpperChar(c: char): char {
    if 'a' <= c <= 'z' then (c as int - 32) as char else c
  }

  function LowerChar(c: char): char {
    if 'A' <= c <= 'Z' then (c as int + 32) as char else c
  }

  /** `String.prototype.toUpperCase` on the ASCII letters. */
  function Upper(s: string): (r: string)
    ensures |r| == |s|
  {
    seq(|s|, i requires 0 <= i < |s| => UpperChar(s[i]))
  }

  /** `String.prototype.toLowerCase` on the ASCII letters. */
  function Lower(s: string): (r: string)
    ensures |r| == |s|
  {
    seq(|s|, i requires 0 <= i < |s| => LowerChar(s[i]))
  }

  predicate StartsWith(s: string, p: string) {
    |p| <= |s| && s[..|p|] == p
  }

  /** `s.includes(p)` */
  predicate Includes(s: string, p: string)
    decreases |s|
  {
    StartsWith(s, p) || (|s| > 0 && Includes(s[1..], p))
  }

  /** `s.indexOf(p)`, or None for -1. */
  function IndexOf(s: string, p: string): (r: Option<nat>)
    ensures r.Some? ==> r.value + |p| <= |s| && s[r.value..r.value + |p|] == p
    decreases |s|
  {
    if StartsWith(s, p) then Some(0)
    else if |s| == 0 then None
    else match IndexOf(s[1..], p)
      case None => None
      case Some(i) => Some(i + 1)
  }

  /** `s.replace(p, r)` with a string pattern: only the first occurrence is replaced. */
  function ReplaceFirst(s: string, p: string, r: string): string {
    match IndexOf(s, p)
    case None => s
    case Some(i) => s[..i] + r + s[i + |p|..]
  }

  // ---------------------------------------------------------------------
  // parseFloat / parseInt
  // ---------------------------------------------------------------------

  /** Value of the fraction digits after a decimal point. */
  function FractionValue(digits: string): real
    requires AllDigits(digits)
  {
    DigitsValue(digits) as real / Pow10(|digits|) as real
  }

  /** Digits, an optional point and fraction digits (at least one digit in
      all) at the start of `s`, read as a number. */
  function UnsignedNumber(s: string): Option<real> {
    var ip := DigitRun(s);
    var rest := s[ip..];
    if |rest| > 0 && rest[0] == '.' then
      var fp := DigitRun(rest[1..]);
      if ip == 0 && fp == 0 then None
      else Some(DigitsValue(s[..ip]) as real + FractionValue(rest[1..][..fp]))
    else if ip == 0 then None
    else Some(DigitsValue(s[..ip]) as real)
  }

  /** The longest prefix of `s` that is a decimal literal (an optional sign
      and an unsigned number), read as a number; None where `parseFloat`
      gives NaN. */
  function LeadingNumber(s: string): Option<real> {
    if |s| > 0 && s[0] == '-' then
      match UnsignedNumber(s[1..])
      case None => None
      case Some(x) => Some(-x)
    else if |s| > 0 && s[0] == '+' then UnsignedNumber(s[1..])
    else UnsignedNumber(s)
  }

  /** `parseFloat(text)`: leading white space is skipped. */
  function ParseFloatText(s: string): Option<real> {
    LeadingNumber(TrimStart(s))
  }

  /** `parseFloat(value)`: the value is converted with `String` first. */
  function ParseFloat(c: Cell): Option<real> {
    ParseFloatText(CellString(c))
  }

  /** `parseInt(text)` in base ten: white space, an optional sign, then digits. */
  function ParseIntText(s: string): Option<int> {
    var t := TrimStart(s);
    var negative := |t| > 0 && t[0] == '-';
    var body := if |t| > 0 && (t[0] == '+' || t[0] == '-') then t[1..] else t;
    var n := DigitRun(body);
    if n == 0 then None
    else Some(if negative then -(DigitsValue(body[..n]) as int) else DigitsValue(body[..n]))
  }

  /** `Math.round`: the nearest integer, halves rounded up. */
  function Round(x: real): int {
    (x + 0.5).Floor
  }

  // ---------------------------------------------------------------------
  // Lemmas
  // ---------------------------------------------------------------------

  lemma {:induction false} DigitsValueOfNat(n: nat)
    ensures DigitsValue(NatToString(n)) == n
    decreases n
  {
    var s := NatToString(n);
    if n >= 10 {
      DigitsValueOfNat(n / 10);
      assert s[..|s| - 1] == NatToString(n / 10);
    }
  }

  lemma DigitRunAll(s: string, rest: string)
    requires AllDigits(s)
    requires |rest| == 0 || !IsDigit(rest[0])
    ensures DigitRun(s + rest) == |s|
    decreases |s|
  {
    if |s| > 0 {
      assert (s + rest)[1..] == s[1..] + rest;
      DigitRunAll(s[1..], rest);
    }
  }

  /** A digit string followed by neither a digit nor a point is read as its value. */
  lemma LeadingNumberOfDigits(digits: string, tail: string)
    requires |digits| > 0 && AllDigits(digits)
    requires |tail| == 0 || (!IsDigit(tail[0]) && tail[0] != '.')
    ensures LeadingNumber(digits + tail) == Some(DigitsValue(digits) as real)
  {
    var s := digits + tail;
    assert s[0] == digits[0];
    DigitRunAll(digits, tail);
    assert s[..|digits|] == digits;
    assert s[|digits|..] == tail;
  }

  /** Reading back the text of an integer gives the integer:
      `parseFloat(String(n)) === n`. */
  lemma ParseFloatOfInt(n: int)
    ensures ParseFloat(Num(n)) == Some(n as real)
  {
    var s := IntToString(n);
    var digits := NatToString(if n < 0 then -n else n);
    assert TrimStart(s) == s by {
      assert !IsSpace(s[0]);
    }
    assert digits + "" == digits;
    LeadingNumberOfDigits(digits, "");
    DigitsValueOfNat(if n < 0 then -n else n);
    if n < 0 {
      assert s[1..] == digits;
    }
  }

  lemma {:induction false} UpperCharIdempotent(c: char)
    ensures UpperChar(UpperChar(c)) == UpperChar(c)
  {
  }

  /** `x.toUpperCase().toUpperCase() === x.toUpperCase()`: the resolver looks
      up an already upper-cased code with `toUpperCase` again and finds it. */
  lemma UpperIdempotent(s: string)
    ensures Upper(Upper(s)) == Upper(s)
  {
    forall i | 0 <= i < |s| ensures Upper(Upper(s))[i] == Upper(s)[i] {
      UpperCharIdempotent(s[i]);
    }
  }

  /** `p` occurs in `s` at position `i`. */
  predicate OccursAt(s: string, p: string, i: int) {
    0 <= i && i + |p| <= |s| && s[i..i + |p|] == p
  }

  /** `s.includes(p)` holds exactly when `p` occurs at some position. */
  lemma {:induction false} IncludesAt(s: string, p: string)
    ensures Includes(s, p) <==> exists i :: OccursAt(s, p, i)
    decreases |s|
  {
    if StartsWith(s, p) {
      assert OccursAt(s, p, 0);
    } else if |s| > 0 {
      IncludesAt(s[1..], p);
      if Includes(s[1..], p) {
        var i :| OccursAt(s[1..], p, i);
        assert s[i + 1..i + 1 + |p|] == s[1..][i..i + |p|];
        assert OccursAt(s, p, i + 1);
      }
      if exists i :: OccursAt(s, p, i) {
        var i :| OccursAt(s, p, i);
        assert i != 0;
        assert s[1..][i - 1..i - 1 + |p|] == s[i..i + |p|];
        assert OccursAt(s[1..], p, i - 1);
      }
    }
  }

  /** Witness form of `IncludesAt`, for showing that a query contains a word. */
  lemma IncludesWitness(s: string, p: string, i: nat)
    requires OccursAt(s, p, i)
    ensures Includes(s, p)
  {
    IncludesAt(s, p);
  }

  /** A character of a contained text is a character of the text. */
  lemma IncludedChar(s: string, p: string, j: nat)
    requires Includes(s, p) && j < |p|
    ensures p[j] in s
  {
    IncludesAt(s, p);
    var i :| OccursAt(s, p, i);
    assert s[i..i + |p|][j] == s[i + j];
  }

  /** A text lacking one of the characters of `p` does not contain `p`. */
  lemma Excludes(s: string, p: string, j: nat)
    requires j < |p| && p[j] !in s
    ensures !Includes(s, p)
  {
    if Includes(s, p) {
      IncludedChar(s, p, j);
    }
  }
}
