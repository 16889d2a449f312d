/** The conversions of Go's `strconv` package that INCR uses: `strconv.Atoi`
    (base-10 parse into the 64-bit `int`) and `strconv.Itoa` (canonical
    decimal), and the two's-complement wrap-around of the 64-bit `int`. */
module GoStrconv {

  datatype Option<T> = None | Some(value: T)

  const MinInt64: int := -0x8000_0000_0000_0000
  const MaxInt64: int := 0x7FFF_FFFF_FFFF_FFFF

  predicate IsInt64(n: int) {
    MinInt64 <= n <= MaxInt64
  }

  /** Go's `int` addition on a 64-bit platform: the mathematical result folded
      back into [MinInt64, MaxInt64] modulo 2^64. */
  function Wrap64(n: int): (r: int)
    ensures IsInt64(r)
    ensures IsInt64(n) ==> r == n
    ensures (r - n) % 0x1_0000_0000_0000_0000 == 0
  {
    (n - MinInt64) % 0x1_0000_0000_0000_0000 + MinInt64
  }

  /** `intValue + 1` on a 64-bit `int`: the successor, except that the
      largest value wraps around to the smallest. */
  function Inc64(n: int): int
    requires IsInt64(n)
  {
    if n == MaxInt64 then MinInt64 else n + 1
  }

  /** Inc64 is the two's-complement addition of one. */
  lemma Inc64IsWrappedSuccessor(n: int)
    requires IsInt64(n)
    ensures Inc64(n) == Wrap64(n + 1)
    ensures IsInt64(Inc64(n))
  {
  }

  predicate IsDigit(c: char) {
    '0' <= c <= '9'
  }

  predicate AllDigits(s: string) {
    forall i | 0 <= i < |s| :: IsDigit(s[i])
  }

  function DigitValue(c: char): (d: nat)
    requires IsDigit(c)
    ensures d < 10
  {
    (c as int) - ('0' as int)
  }

  function DigitChar(d: nat): (c: char)
    requires d < 10
    ensures IsDigit(c) && DigitValue(c) == d
  {
    (('0' as int) + d) as char
  }

  /** The number that a string of decimal digits denotes, most significant
      digit first. */
  function DigitsValue(ds: string): nat
    requires AllDigits(ds)
  {
    if ds == [] then 0 else 10 * DigitsValue(ds[..|ds| - 1]) + DigitValue(ds[|ds| - 1])
  }

  /** The syntax `strconv.ParseInt(s, 10, 0)` accepts, without its range check:
      an optional '+' or '-' followed by one or more ASCII digits (base 10
      admits no underscores and no letters). */
  function ParseDecimal(s: string): Option<int> {
    if |s| > 0 && (s[0] == '+' || s[0] == '-') then
      var ds := s[1..];
      if |ds| > 0 && AllDigits(ds) then
        var magnitude: int := DigitsValue(ds);
        Some(if s[0] == '-' then -magnitude else magnitude)
      else
        None
    else if |s| > 0 && AllDigits(s) then
      Some(DigitsValue(s))
    else
      None
  }

  /** `strconv.Atoi`: a decimal literal whose value fits the 64-bit `int`, or
      an error (None) for a syntax error or a value out of range. */
  function Atoi(s: string): Option<int> {
    match ParseDecimal(s)
    case Some(n) => if IsInt64(n) then Some(n) else None
    case None => None
  }

  /** Atoi accepts exactly an optional sign followed by at least one digit,
      whose value lies in the 64-bit range; a leading '-' gives a value at
      most zero and anything else one at least zero. */
  lemma AtoiAccepts(s: string)
    ensures Atoi(s).Some? <==>
      && |s| > 0
      && (forall i | 0 <= i < |s| :: IsDigit(s[i]) || (i == 0 && |s| > 1 && (s[0] == '+' || s[0] == '-')))
      && IsInt64(ParseDecimal(s).value)
    ensures Atoi(s).Some? ==> IsInt64(Atoi(s).value)
    ensures Atoi(s).Some? && s[0] == '-' ==> Atoi(s).value <= 0
    ensures Atoi(s).Some? && s[0] != '-' ==> Atoi(s).value >= 0
  {
  }

  /** Decimal digits of a natural number, with no leading zero. */
  function NatDigits(n: nat): (ds: string)
    ensures |ds| >= 1 && AllDigits(ds)
    ensures ds[0] == '0' ==> n == 0
  {
    if n < 10 then [DigitChar(n)] else NatDigits(n / 10) + [DigitChar(n % 10)]
  }

  /** `strconv.Itoa`: the canonical decimal form, with a '-' for negatives. */
  function Itoa(n: int): string {
    if n < 0 then "-" + NatDigits(-n) else NatDigits(n)
  }

  /** Itoa writes digits only, preceded by '-' exactly for a negative number. */
  lemma ItoaShape(n: int)
    ensures |Itoa(n)| >= 1
    ensures forall i | 0 <= i < |Itoa(n)| :: IsDigit(Itoa(n)[i]) || (i == 0 && Itoa(n)[i] == '-')
    ensures Itoa(n)[0] == '-' <==> n < 0
  {
  }

  /** NatDigits and DigitsValue are inverse. */
  lemma {:induction false} DigitsValueOfNatDigits(n: nat)
    ensures DigitsValue(NatDigits(n)) == n
  {
    if n >= 10 {
      var ds := NatDigits(n);
      assert ds[..|ds| - 1] == NatDigits(n / 10);
      DigitsValueOfNatDigits(n / 10);
    }
  }

  /** An unsigned run of digits parses to its value. */
  lemma ParseDecimalOfDigits(ds: string)
    requires |ds| > 0 && AllDigits(ds)
    ensures ParseDecimal(ds) == Some(DigitsValue(ds))
  {
    assert IsDigit(ds[0]);
  }

  /** A '-' followed by a run of digits parses to the negated value. */
  lemma ParseDecimalOfNegative(ds: string)
    requires |ds| > 0 && AllDigits(ds)
    ensures ParseDecimal("-" + ds) == Some(-(DigitsValue(ds) as int))
  {
    var s := "-" + ds;
    assert s[0] == '-';
    assert s[1..] == ds;
  }

  /** Every integer survives Itoa then the syntactic parse. */
  lemma ParseDecimalOfItoa(n: int)
    ensures ParseDecimal(Itoa(n)) == Some(n)
  {
    if n < 0 {
      DigitsValueOfNatDigits(-n);
      ParseDecimalOfNegative(NatDigits(-n));
    } else {
      DigitsValueOfNatDigits(n);
      ParseDecimalOfDigits(NatDigits(n));
    }
  }

  /** Atoi inverts Itoa exactly on the 64-bit range, and rejects Itoa's output
      outside it. */
  lemma AtoiOfItoa(n: int)
    ensures Atoi(Itoa(n)) == (if IsInt64(n) then Some(n) else None)
  {
    ParseDecimalOfItoa(n);
  }

  /** Itoa is injective: two integers with the same decimal form are equal. */
  lemma ItoaInjective(m: int, n: int)
    requires Itoa(m) == Itoa(n)
    ensures m == n
  {
    ParseDecimalOfItoa(m);
    ParseDecimalOfItoa(n);
  }

  /** The decimal forms Itoa produces: digits with no leading zero, preceded by
      '-' for a negative number; zero is "0" and never "-0". */
  predicate IsCanonical(s: string) {
    var ds := if |s| > 0 && s[0] == '-' then s[1..] else s;
    |ds| >= 1 && AllDigits(ds) && (ds[0] == '0' ==> s == "0")
  }

  lemma ItoaIsCanonical(n: int)
    ensures IsCanonical(Itoa(n))
  {
    if n < 0 {
      assert Itoa(n)[1..] == NatDigits(-n);
    }
  }

  lemma {:induction false} DigitsValuePositive(ds: string)
    requires |ds| >= 1 && AllDigits(ds) && ds[0] != '0'
    ensures DigitsValue(ds) >= 1
  {
    if |ds| > 1 {
      DigitsValuePositive(ds[..|ds| - 1]);
    }
  }

  lemma {:induction false} NatDigitsOfDigitsValue(ds: string)
    requires |ds| >= 1 && AllDigits(ds) && (ds[0] == '0' ==> |ds| == 1)
    ensures NatDigits(DigitsValue(ds)) == ds
  {
    if |ds| > 1 {
      var init := ds[..|ds| - 1];
      DigitsValuePositive(init);
      NatDigitsOfDigitsValue(init);
      assert ds == init + [ds[|ds| - 1]];
    }
  }

  /** Itoa inverts the parse on canonical forms, so the canonical form of a
      number is unique. */
  lemma ItoaOfCanonical(s: string)
    requires IsCanonical(s)
    ensures ParseDecimal(s).Some? && Itoa(ParseDecimal(s).value) == s
  {
    if s[0] == '-' {
      NatDigitsOfDigitsValue(s[1..]);
      DigitsValuePositive(s[1..]);
      assert s == "-" + s[1..];
    } else {
      NatDigitsOfDigitsValue(s);
    }
  }
}
