/**
 * Decimal numbers as the loader formats and parses them: fmt's `%d` and
 * `%02d`, and strconv's ParseBool, ParseInt(s, 10, 64) and ParseUint(s, 10, 64)
 * with their syntax and range errors.
 */
module Numbers {
  import opened Outcomes

  const MaxInt64: int := 0x7FFF_FFFF_FFFF_FFFF
  const MinInt64: int := -0x8000_0000_0000_0000
  const MaxUint64: int := 0xFFFF_FFFF_FFFF_FFFF

  predicate IsDigit(ch: char) {
    '0' <= ch <= '9'
  }

  function DigitValue(ch: char): nat
    requires IsDigit(ch)
  {
    ch as int - '0' as int
  }

  function DigitChar(d: nat): (ch: char)
    requires d < 10
    ensures IsDigit(ch) && DigitValue(ch) == d
  {
    (d + '0' as int) as char
  }

  predicate AllDigits(s: string) {
    forall i :: 0 <= i < |s| ==> IsDigit(s[i])
  }

  /** The number a string of decimal digits denotes. */
  function DigitsValue(s: string): nat
    requires AllDigits(s)
    decreases |s|
  {
    if s == [] then 0 else DigitsValue(s[..|s| - 1]) * 10 + DigitValue(s[|s| - 1])
  }

  lemma {:induction false} DigitsValuePrefix(s: string, k: nat)
    requires AllDigits(s) && k <= |s|
    ensures DigitsValue(s[..k]) <= DigitsValue(s)
    decreases |s|
  {
    if k < |s| {
      var t := s[..|s| - 1];
      assert t[..k] == s[..k];
      DigitsValuePrefix(t, k);
    } else {
      assert s[..k] == s;
    }
  }

  /** fmt's `%d` of a non-negative value. */
  function NatToString(n: nat): string
    decreases n
  {
    if n < 10 then [DigitChar(n)] else NatToString(n / 10) + [DigitChar(n % 10)]
  }

  /** `%d` gives a non-empty digit string that denotes the value. */
  lemma {:induction false} NatToStringDenotes(n: nat)
    ensures |NatToString(n)| >= 1 && AllDigits(NatToString(n))
    ensures DigitsValue(NatToString(n)) == n
    decreases n
  {
    if n >= 10 {
      NatToStringDenotes(n / 10);
      var s := NatToString(n);
      assert s[..|s| - 1] == NatToString(n / 10);
    }
  }

  /** fmt's `%d` of any value. */
  function IntToString(i: int): string {
    if i < 0 then "-" + NatToString(-i) else NatToString(i)
  }

  /** fmt's `%02d`: at least two digits, padded with a leading zero. */
  function Pad2(n: nat): string {
    if n < 10 then "0" + NatToString(n) else NatToString(n)
  }

  /** Below 100, `%02d` is exactly the tens digit and the units digit. */
  lemma Pad2Digits(n: nat)
    requires n < 100
    ensures Pad2(n) == [DigitChar(n / 10), DigitChar(n % 10)]
  {
    if n >= 10 {
      assert NatToString(n / 10) == [DigitChar(n / 10)];
    }
  }

  datatype NumError = Syntax(input: string) | Range(input: string)

  /**
   * The digit loop of strconv.ParseUint: the first character that is not a
   * digit is a syntax error, the first digit that takes the value past
   * 2^64 - 1 a range error.
   */
  function ScanUint(s: string, i: nat, acc: nat): Result<nat, NumError>
    requires i <= |s|
    decreases |s| - i
  {
    if i == |s| then Ok(acc)
    else if !IsDigit(s[i]) then Err(Syntax(s))
    else if acc * 10 + DigitValue(s[i]) > MaxUint64 then Err(Range(s))
    else ScanUint(s, i + 1, acc * 10 + DigitValue(s[i]))
  }

  /** strconv.ParseUint(s, 10, 64). */
  function ParseUint(s: string): Result<nat, NumError> {
    if s == [] then Err(Syntax(s)) else ScanUint(s, 0, 0)
  }

  lemma {:induction false} ScanUintSpec(s: string, i: nat)
    requires i <= |s| && AllDigits(s[..i]) && DigitsValue(s[..i]) <= MaxUint64
    ensures ScanUint(s, i, DigitsValue(s[..i])).Ok?
            <==> AllDigits(s) && DigitsValue(s) <= MaxUint64
    ensures ScanUint(s, i, DigitsValue(s[..i])).Ok? ==> ScanUint(s, i, DigitsValue(s[..i])).value == DigitsValue(s)
    decreases |s| - i
  {
    if i == |s| {
      assert s[..i] == s;
    } else {
      var p := s[..i + 1];
      assert p[..i] == s[..i];
      if IsDigit(s[i]) {
        assert AllDigits(p);
        assert DigitsValue(p) == DigitsValue(s[..i]) * 10 + DigitValue(s[i]);
        if AllDigits(s) {
          DigitsValuePrefix(s, i + 1);
        }
        if DigitsValue(p) <= MaxUint64 {
          ScanUintSpec(s, i + 1);
        }
      }
    }
  }

  /**
   * ParseUint accepts exactly the non-empty digit strings whose value fits in
   * 64 bits, and returns that value; in particular no sign is accepted.
   */
  lemma ParseUintSpec(s: string)
    ensures ParseUint(s).Ok? <==> s != [] && AllDigits(s) && DigitsValue(s) <= MaxUint64
    ensures ParseUint(s).Ok? ==> ParseUint(s).value == DigitsValue(s)
  {
    if s != [] {
      assert s[..0] == [];
      ScanUintSpec(s, 0);
    }
  }

  /** A signed text is never an unsigned number. */
  lemma ParseUintRejectsSign(s: string)
    requires s != [] && (s[0] == '-' || s[0] == '+')
    ensures ParseUint(s).Err?
  {
    ParseUintSpec(s);
  }

  /** Round trip: parsing the decimal text of a 64-bit unsigned value gives the value. */
  lemma ParseUintFormat(n: nat)
    requires n <= MaxUint64
    ensures ParseUint(NatToString(n)) == Ok(n)
  {
    NatToStringDenotes(n);
    ParseUintSpec(NatToString(n));
  }

  /** strconv.ParseInt(s, 10, 64): an optional sign, then ParseUint's digits, then the signed range check. */
  function ParseInt(s: string): Result<int, NumError> {
    if s == [] then Err(Syntax(s))
    else
      var neg := s[0] == '-';
      var body := if s[0] == '+' || s[0] == '-' then s[1..] else s;
      match ParseUint(body)
      case Err(Syntax(_)) => Err(Syntax(s))
      case Err(Range(_)) => Err(Range(s))
      case Ok(u) =>
        if !neg && u > MaxInt64 then Err(Range(s))
        else if neg && u > -MinInt64 then Err(Range(s))
        else Ok(if neg then -(u as int) else u as int)
  }

  /** ParseInt accepts exactly an optional sign followed by digits whose signed value fits in 64 bits. */
  lemma ParseIntSpec(s: string)
    ensures ParseInt(s).Ok? <==>
      s != [] &&
      var body := if s[0] == '+' || s[0] == '-' then s[1..] else s;
      body != [] && AllDigits(body) &&
      var v := if s[0] == '-' then -(DigitsValue(body) as int) else DigitsValue(body) as int;
      MinInt64 <= v <= MaxInt64
    ensures ParseInt(s).Ok? ==>
      var body := if s[0] == '+' || s[0] == '-' then s[1..] else s;
      ParseInt(s).value == if s[0] == '-' then -(DigitsValue(body) as int) else DigitsValue(body) as int
  {
    if s != [] {
      var body := if s[0] == '+' || s[0] == '-' then s[1..] else s;
      ParseUintSpec(body);
    }
  }

  /** Round trip: parsing the decimal text of a 64-bit signed value gives the value. */
  lemma ParseIntFormat(i: int)
    requires MinInt64 <= i <= MaxInt64
    ensures ParseInt(IntToString(i)) == Ok(i)
  {
    var s := IntToString(i);
    if i < 0 {
      NatToStringDenotes(-i);
      assert s[1..] == NatToString(-i);
      ParseUintSpec(NatToString(-i));
    } else {
      NatToStringDenotes(i);
      assert IsDigit(s[0]);
      ParseUintSpec(s);
    }
  }

  /** strconv.ParseBool. */
  function ParseBool(s: string): Result<bool, NumError> {
    if s in {"1", "t", "T", "TRUE", "true", "True"} then Ok(true)
    else if s in {"0", "f", "F", "FALSE", "false", "False"} then Ok(false)
    else Err(Syntax(s))
  }

  /** strconv.FormatBool. */
  function FormatBool(b: bool): string {
    if b then "true" else "false"
  }

  lemma ParseBoolFormat(b: bool)
    ensures ParseBool(FormatBool(b)) == Ok(b)
  {
  }
}
