/**
 * Go's `strconv.ParseInt(s, 10, 64)`, as the signature middleware uses it to read the
 * `Auth-Date` header. The parse accepts an optional `+` or `-` followed by decimal digits.
 * The digits are read left to right into an unsigned 64-bit value. A character that is not
 * a digit is a syntax error (value 0). A value that passes 2^64 - 1 while reading is a range
 * error (value 2^64 - 1), whatever follows. The signed result is then clamped to the int64
 * range, with a range error when clamping happens.
 * `FormatInt` is the inverse used to write such a header.
 */
module Strconv {

  const MaxInt64: int := 0x7fff_ffff_ffff_ffff
  const MinInt64: int := -0x8000_0000_0000_0000
  const MaxUint64: int := 0xffff_ffff_ffff_ffff

  datatype NumError = NoError | ErrSyntax | ErrRange

  /** The `(value, err)` pair returned by the parse functions. */
  datatype Parsed = Parsed(value: int, err: NumError)

  predicate IsDigit(c: char)
  {
    '0' <= c <= '9'
  }

  predicate AllDigits(s: string)
  {
    forall i :: 0 <= i < |s| ==> IsDigit(s[i])
  }

  function DigitValue(c: char): (d: nat)
    requires IsDigit(c)
    ensures d < 10
  {
    (c as int) - ('0' as int)
  }

  /** The number a string of decimal digits denotes, most significant digit first. */
  function Decimal(s: string): nat
    requires AllDigits(s)
  {
    if s == [] then 0 else 10 * Decimal(s[..|s| - 1]) + DigitValue(s[|s| - 1])
  }

  /** The text after an optional leading sign. */
  function Unsigned(s: string): string
  {
    if |s| > 0 && (s[0] == '+' || s[0] == '-') then s[1..] else s
  }

  predicate Negative(s: string)
  {
    |s| > 0 && s[0] == '-'
  }

  /** An optional sign followed by one or more decimal digits. */
  predicate WellFormed(s: string)
  {
    |Unsigned(s)| > 0 && AllDigits(Unsigned(s))
  }

  /** The integer a well-formed string denotes, before any range check. */
  function Denotes(s: string): int
    requires WellFormed(s)
  {
    var magnitude: int := Decimal(Unsigned(s));
    if Negative(s) then -magnitude else magnitude
  }

  /** The digit loop of `ParseUint` for base 10 and 64 bits, continuing from the value `acc` read so far. */
  function Scan(s: string, acc: nat): (p: Parsed)
    requires acc <= MaxUint64
    ensures 0 <= p.value <= MaxUint64
    ensures p.err == ErrSyntax ==> p.value == 0
    ensures p.err == ErrRange ==> p.value == MaxUint64
    decreases |s|
  {
    if s == [] then Parsed(acc, NoError)
    else if !IsDigit(s[0]) then Parsed(0, ErrSyntax)
    else
      var n := 10 * acc + DigitValue(s[0]);
      if n > MaxUint64 then Parsed(MaxUint64, ErrRange) else Scan(s[1..], n)
  }

  /** `strconv.ParseUint(s, 10, 64)`: the empty string is a syntax error. */
  function ParseUint(s: string): Parsed
  {
    if s == [] then Parsed(0, ErrSyntax) else Scan(s, 0)
  }

  /**
   * `strconv.ParseInt(s, 10, 64)`. The value is always an int64; a syntax error gives 0;
   * a result without error comes from a well-formed string and is the number it denotes.
   */
  function ParseInt(s: string): (p: Parsed)
    ensures MinInt64 <= p.value <= MaxInt64
    ensures p.err == ErrSyntax ==> p.value == 0
    ensures p.err == ErrRange ==> p.value == MaxInt64 || p.value == MinInt64
    ensures p.err == NoError ==> WellFormed(s) && p.value == Denotes(s)
  {
    if s == [] then Parsed(0, ErrSyntax)
    else
      var neg := s[0] == '-';
      var u := ParseUint(Unsigned(s));
      if u.err == ErrSyntax then Parsed(0, ErrSyntax)
      else if !neg && u.value >= MaxInt64 + 1 then Parsed(MaxInt64, ErrRange)
      else if neg && u.value > MaxInt64 + 1 then Parsed(MinInt64, ErrRange)
      else
        ParseUintOk(Unsigned(s));
        Parsed(if neg then -u.value else u.value, NoError)
  }

  /** Scanning `s + t` is scanning `s`, then, when that succeeded, scanning `t` from its value. */
  lemma {:induction false} ScanAppend(s: string, t: string, acc: nat)
    requires acc <= MaxUint64
    ensures Scan(s + t, acc) == if Scan(s, acc).err == NoError then Scan(t, Scan(s, acc).value) else Scan(s, acc)
    decreases |s|
  {
    if s != [] {
      assert (s + t)[0] == s[0];
      if IsDigit(s[0]) && 10 * acc + DigitValue(s[0]) <= MaxUint64 {
        assert (s + t)[1..] == s[1..] + t;
        ScanAppend(s[1..], t, 10 * acc + DigitValue(s[0]));
      }
    } else {
      assert s + t == t;
    }
  }

  /** On a digit string, the scan gives the number the digits denote, or a range error when it exceeds 2^64 - 1. */
  lemma {:induction false} ScanDigits(s: string)
    requires AllDigits(s)
    ensures Scan(s, 0) == if Decimal(s) <= MaxUint64 then Parsed(Decimal(s), NoError) else Parsed(MaxUint64, ErrRange)
    decreases |s|
  {
    if s != [] {
      var p, c := s[..|s| - 1], s[|s| - 1];
      assert s == p + [c];
      ScanDigits(p);
      ScanAppend(p, [c], 0);
    }
  }

  /** A scan without error read digits only, and their value. */
  lemma {:induction false} ScanOk(s: string, acc: nat)
    requires acc <= MaxUint64
    requires Scan(s, acc).err == NoError
    ensures AllDigits(s)
    decreases |s|
  {
    if s != [] {
      ScanOk(s[1..], 10 * acc + DigitValue(s[0]));
      assert forall i :: 1 <= i < |s| ==> s[i] == s[1..][i - 1];
    }
  }

  /** A successful `ParseUint` read a non-empty digit string, and its value is the number those digits denote. */
  lemma ParseUintOk(s: string)
    requires ParseUint(s).err == NoError
    ensures |s| > 0 && AllDigits(s) && ParseUint(s).value == Decimal(s)
  {
    ScanOk(s, 0);
    ScanDigits(s);
  }

  /** On a well-formed string `ParseInt` gives the denoted number when it is an int64, and clamps with a range error otherwise. */
  lemma ParseIntWellFormed(s: string)
    requires WellFormed(s)
    ensures ParseInt(s) == if MinInt64 <= Denotes(s) <= MaxInt64 then Parsed(Denotes(s), NoError)
                           else if Denotes(s) > MaxInt64 then Parsed(MaxInt64, ErrRange)
                           else Parsed(MinInt64, ErrRange)
  {
    ScanDigits(Unsigned(s));
  }

  /**
   * `ParseInt` yields 0 exactly when it reports a syntax error or the string is a well-formed
   * spelling of zero (`"0"`, `"-00"`, ...): the value the middleware keeps after discarding the error.
   */
  lemma ParseIntZero(s: string)
    ensures ParseInt(s).value == 0 <==> ParseInt(s).err == ErrSyntax || (WellFormed(s) && Decimal(Unsigned(s)) == 0)
  {
    if WellFormed(s) {
      ParseIntWellFormed(s);
    }
  }

  /** An empty string, or one whose first character after the sign is not a digit, is a syntax error. */
  lemma ParseIntNoLeadingDigit(s: string)
    requires |Unsigned(s)| == 0 || !IsDigit(Unsigned(s)[0])
    ensures ParseInt(s) == Parsed(0, ErrSyntax)
  {
  }

  /** The decimal digits of `n`, most significant first, without leading zeros. */
  function Digits(n: nat): (s: string)
    ensures |s| > 0 && AllDigits(s)
  {
    var c := ('0' as int + n % 10) as char;
    if n < 10 then [c] else Digits(n / 10) + [c]
  }

  lemma {:induction false} DigitsDenote(n: nat)
    ensures Decimal(Digits(n)) == n
  {
    var c := ('0' as int + n % 10) as char;
    if n >= 10 {
      DigitsDenote(n / 10);
      var s := Digits(n);
      assert s[..|s| - 1] == Digits(n / 10) && s[|s| - 1] == c;
    }
  }

  /** `strconv.FormatInt(n, 10)`: how a client writes a timestamp header. */
  function FormatInt(n: int): (s: string)
    ensures WellFormed(s) && Denotes(s) == n
  {
    DigitsDenote(if n < 0 then -n else n);
    if n < 0 then "-" + Digits(-n) else Digits(n)
  }

  /** Round trip: `ParseInt` reads back every int64 that `FormatInt` writes, without error. */
  lemma ParseFormat(n: int)
    requires MinInt64 <= n <= MaxInt64
    ensures ParseInt(FormatInt(n)) == Parsed(n, NoError)
  {
    ParseIntWellFormed(FormatInt(n));
  }
}
