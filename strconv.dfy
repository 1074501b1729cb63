/**
 * The part of Go's strconv package that the HTTP handler relies on:
 * ParseInt(s, 10, 64), with its error values and their texts. FormatInt(n, 10)
 * is not called by the handler; it is here as the reference inverse that the
 * round-trip lemmas are stated against. ParseInt follows the library's own
 * order of checks: an optional sign, then ParseUint's left-to-right digit
 * loop, which stops at the first non-digit (invalid syntax) or at the first
 * digit that overflows 64 unsigned bits (value out of range), and finally
 * the signed range check.
 */
module Strconv {
  import opened Wrappers
  import opened GoInt

  /** The two causes ParseInt reports: strconv.ErrSyntax and strconv.ErrRange. */
  datatype NumErr = ErrSyntax | ErrRange

  /** A *strconv.NumError raised by ParseInt: the input it was given and the cause. */
  datatype NumError = NumError(num: string, err: NumErr) {
    /** The text of NumError.Error(). */
    function Error(): string {
      "strconv.ParseInt: parsing " + Quote(num) + ": "
        + (if err == ErrSyntax then "invalid syntax" else "value out of range")
    }
  }

  /** strconv.Quote, for inputs that need no escaping. */
  function Quote(s: string): string {
    "\"" + s + "\""
  }

  predicate IsDigit(c: char) {
    '0' <= c <= '9'
  }

  function DigitValue(c: char): nat
    requires IsDigit(c)
  {
    c as int - '0' as int
  }

  function DigitChar(d: nat): (c: char)
    requires d < 10
    ensures IsDigit(c) && DigitValue(c) == d
  {
    ('0' as int + d) as char
  }

  function Pow10(k: nat): (p: nat)
    ensures p >= 1
  {
    if k == 0 then 1 else 10 * Pow10(k - 1)
  }

  // ---------------------------------------------------------------------------
  // The reference grammar: what a base-10 integer literal is and what it denotes.

  predicate AllDigits(s: string) {
    forall i :: 0 <= i < |s| ==> IsDigit(s[i])
  }

  /** The literal with its leading sign, if any, removed. */
  function Unsigned(s: string): string {
    if |s| > 0 && (s[0] == '+' || s[0] == '-') then s[1..] else s
  }

  /** An optional sign followed by at least one decimal digit, and nothing else. */
  predicate IsDecimalLiteral(s: string) {
    |Unsigned(s)| > 0 && AllDigits(Unsigned(s))
  }

  /** Positional value of a digit string: the first digit weighs 10^(|s|-1). */
  function DecimalValue(s: string): nat
    requires AllDigits(s)
  {
    if s == [] then 0 else DigitValue(s[0]) * Pow10(|s| - 1) + DecimalValue(s[1..])
  }

  /** The integer a decimal literal denotes. */
  function LiteralValue(s: string): int
    requires IsDecimalLiteral(s)
  {
    if s[0] == '-' then -(DecimalValue(Unsigned(s)) as int) else DecimalValue(Unsigned(s))
  }

  // ---------------------------------------------------------------------------
  // The library's algorithm.

  /** What ParseUint(s, 10, 64) gives: a value, or one of its two errors. */
  datatype UintResult = Uint(value: nat) | UintSyntax | UintRange

  /**
   * ParseUint's loop over the remaining characters `s`, with the value `n`
   * accumulated so far.
   */
  function ParseUintDigits(s: string, n: nat): UintResult
    requires n <= MaxUint64
    decreases |s|
  {
    if s == [] then Uint(n)
    else if !IsDigit(s[0]) then UintSyntax
    else if n * 10 + DigitValue(s[0]) > MaxUint64 then UintRange
    else ParseUintDigits(s[1..], n * 10 + DigitValue(s[0]))
  }

  /** strconv.ParseUint(s, 10, 64). */
  function ParseUint(s: string): UintResult {
    if s == "" then UintSyntax else ParseUintDigits(s, 0)
  }

  /** The cutoff 1 << 63 of ParseInt's signed range check. */
  const Cutoff: nat := 0x8000_0000_0000_0000

  /** strconv.ParseInt(s, 10, 64). */
  function ParseInt(s: string): (r: Result<int64, NumError>)
    ensures r.Failure? ==> r.error.num == s
  {
    if s == "" then Failure(NumError(s, ErrSyntax))
    else
      var neg := s[0] == '-';
      var body := if s[0] == '+' || s[0] == '-' then s[1..] else s;
      match ParseUint(body)
      case UintSyntax => Failure(NumError(s, ErrSyntax))
      case UintRange => Failure(NumError(s, ErrRange))
      case Uint(un) =>
        if !neg && un >= Cutoff then Failure(NumError(s, ErrRange))
        else if neg && un > Cutoff then Failure(NumError(s, ErrRange))
        else Success((if neg then -(un as int) else un) as int64)
  }

  /** strconv.FormatUint(n, 10): the shortest decimal digits of n. */
  function FormatUint(n: nat): string
    decreases n
  {
    if n < 10 then [DigitChar(n)] else FormatUint(n / 10) + [DigitChar(n % 10)]
  }

  /** strconv.FormatInt(n, 10). */
  function FormatInt(n: int64): string {
    if n < 0 then "-" + FormatUint(-(n as int)) else FormatUint(n as int)
  }

  // ---------------------------------------------------------------------------
  // ParseInt agrees with the reference grammar.

  lemma ShiftDigit(n: int, d: int, p: int)
    ensures n * (10 * p) + d * p == (n * 10 + d) * p
  {
  }

  lemma ScaleUp(n: nat, p: nat)
    requires p >= 1
    ensures n * p >= n
  {
  }

  lemma {:induction false} AllDigitsTail(s: string)
    requires |s| > 0 && IsDigit(s[0])
    ensures AllDigits(s) <==> AllDigits(s[1..])
  {
    if AllDigits(s[1..]) {
      forall i | 0 <= i < |s| ensures IsDigit(s[i]) {
        if i > 0 { assert s[i] == s[1..][i - 1]; }
      }
    }
  }

  lemma {:induction false} DigitsLoop(s: string, n: nat)
    requires n <= MaxUint64
    ensures AllDigits(s) ==>
      ParseUintDigits(s, n) ==
        (if n * Pow10(|s|) + DecimalValue(s) <= MaxUint64
         then Uint(n * Pow10(|s|) + DecimalValue(s)) else UintRange)
    ensures !AllDigits(s) ==> !ParseUintDigits(s, n).Uint?
    decreases |s|
  {
    if s == [] {
    } else if !IsDigit(s[0]) {
    } else {
      var d := DigitValue(s[0]);
      var n1 := n * 10 + d;
      var p := Pow10(|s| - 1);
      AllDigitsTail(s);
      if AllDigits(s) {
        assert Pow10(|s|) == 10 * p;
        ShiftDigit(n, d, p);
        assert n * Pow10(|s|) + DecimalValue(s) == n1 * p + DecimalValue(s[1..]);
        if n1 > MaxUint64 {
          ScaleUp(n1, p);
        }
      }
      if n1 <= MaxUint64 {
        DigitsLoop(s[1..], n1);
      }
    }
  }

  /**
   * ParseInt accepts exactly the decimal literals whose value fits in int64,
   * returns that value, and reports a literal outside the range as a range error.
   */
  lemma ParseIntMatchesLiteral(s: string)
    ensures ParseInt(s).Success? <==> IsDecimalLiteral(s) && InInt64(LiteralValue(s))
    ensures ParseInt(s).Success? ==> ParseInt(s).value as int == LiteralValue(s)
    ensures IsDecimalLiteral(s) && !InInt64(LiteralValue(s)) ==>
      ParseInt(s) == Failure(NumError(s, ErrRange))
  {
    if s != "" {
      var body := Unsigned(s);
      assert body == if s[0] == '+' || s[0] == '-' then s[1..] else s;
      if body != "" {
        DigitsLoop(body, 0);
      }
    }
  }

  lemma {:induction false} DecimalValueSnoc(s: string, c: char)
    requires AllDigits(s) && IsDigit(c)
    ensures AllDigits(s + [c])
    ensures DecimalValue(s + [c]) == DecimalValue(s) * 10 + DigitValue(c)
    decreases |s|
  {
    if s == [] {
      assert [] + [c] == [c];
    } else {
      var t := s + [c];
      assert t[0] == s[0] && t[1..] == s[1..] + [c];
      DecimalValueSnoc(s[1..], c);
      var p := Pow10(|s| - 1);
      var d := DigitValue(s[0]);
      assert Pow10(|s|) == 10 * p;
      ShiftDigit(d * p, 0, 1);
      assert d * (10 * p) == (d * p) * 10;
      assert DecimalValue(t) == d * (10 * p) + (DecimalValue(s[1..]) * 10 + DigitValue(c));
    }
  }

  /** FormatUint produces a non-empty digit string denoting n. */
  lemma {:induction false} FormatUintDenotes(n: nat)
    ensures |FormatUint(n)| > 0 && AllDigits(FormatUint(n))
    ensures DecimalValue(FormatUint(n)) == n
    decreases n
  {
    if n < 10 {
      assert FormatUint(n)[1..] == [];
    } else {
      FormatUintDenotes(n / 10);
      DecimalValueSnoc(FormatUint(n / 10), DigitChar(n % 10));
    }
  }

  /** ParseInt inverts FormatInt on every int64. */
  lemma ParseIntFormatInt(n: int64)
    ensures IsDecimalLiteral(FormatInt(n)) && LiteralValue(FormatInt(n)) == n as int
    ensures ParseInt(FormatInt(n)) == Success(n)
  {
    var s := FormatInt(n);
    if n < 0 {
      FormatUintDenotes(-(n as int));
      assert s[0] == '-' && s[1..] == FormatUint(-(n as int));
    } else {
      FormatUintDenotes(n as int);
      assert IsDigit(s[0]);
    }
    ParseIntMatchesLiteral(s);
  }
}
