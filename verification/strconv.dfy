/**
 Go's `strconv.Atoi` on a 64-bit platform, which is what `parseUint` in
 example2/example2.go calls. Go returns a pair (value, error); when the
 error is a range error the value is NOT zero but the largest magnitude of
 the right sign, and `parseUint` keeps that value because it discards the
 error.

 The executable definitions follow the library's control flow (the fast
 path of `Atoi`, the sign handling of `ParseInt`, the digit loop of
 `ParseUint` with its two overflow checks); `DecimalValue` and `DigitRun`
 are an independent reading of a decimal numeral, and the lemmas at the end
 connect the two.
 */
module Strconv {
  import opened GoInts

  /** The `Err` field of Go's `*strconv.NumError`, or no error at all */
  datatype NumError = NoError | ErrSyntax | ErrRange

  /** The pair a Go conversion function returns */
  datatype Conversion = Conversion(value: int, err: NumError)

  predicate IsDigit(c: char) {
    '0' <= c <= '9'
  }

  function DigitValue(c: char): (d: nat)
    requires IsDigit(c)
    ensures d <= 9
  {
    c as int - '0' as int
  }

  // ---------------------------------------------------------------------
  // Reference reading of decimal numerals
  // ---------------------------------------------------------------------

  function Pow10(k: nat): (p: nat)
    ensures 1 <= p
  {
    if k == 0 then 1 else 10 * Pow10(k - 1)
  }

  predicate AllDigits(s: string) {
    forall i :: 0 <= i < |s| ==> IsDigit(s[i])
  }

  /** The number a string of decimal digits denotes, most significant first */
  function DecimalValue(s: string): nat
    requires AllDigits(s)
  {
    if s == [] then 0 else DigitValue(s[0]) * Pow10(|s| - 1) + DecimalValue(s[1..])
  }

  /** Length of the longest prefix of `s` made of digits only */
  function DigitRun(s: string): (r: nat)
    ensures r <= |s|
    ensures AllDigits(s[..r])
    ensures r < |s| ==> !IsDigit(s[r])
  {
    if s == [] || !IsDigit(s[0]) then 0
    else
      var r := 1 + DigitRun(s[1..]);
      assert s[..r] == [s[0]] + s[1..][..r - 1];
      r
  }

  /** The optional leading sign `ParseInt` and `Atoi` accept */
  predicate Negative(s: string) {
    |s| > 0 && s[0] == '-'
  }

  function Unsigned(s: string): (body: string)
    ensures |s| > 0 && (s[0] == '+' || s[0] == '-') ==> body == s[1..]
    ensures |s| == 0 || (s[0] != '+' && s[0] != '-') ==> body == s
  {
    if |s| > 0 && (s[0] == '+' || s[0] == '-') then s[1..] else s
  }

  /** An optional sign followed by at least one digit and nothing else */
  predicate WellFormed(s: string) {
    |Unsigned(s)| > 0 && AllDigits(Unsigned(s))
  }

  function SignedValue(s: string): int
    requires WellFormed(s)
  {
    var magnitude: int := DecimalValue(Unsigned(s));
    if Negative(s) then -magnitude else magnitude
  }

  /** The digits before the first non-digit already exceed 64 bits: the
      library's digit loop stops there with a range error. */
  predicate LeadingRunOverflows(s: string) {
    var body := Unsigned(s);
    MaxUint64 < DecimalValue(body[..DigitRun(body)])
  }

  // ---------------------------------------------------------------------
  // The library's control flow
  // ---------------------------------------------------------------------

  /** Smallest `n` such that `n * 10` exceeds 64 bits */
  const Cutoff: int := MaxUint64 / 10 + 1

  /** The digit loop of `ParseUint(s, 10, 64)` with accumulator `n` */
  function ScanDigits(s: string, n: int): (c: Conversion)
    requires 0 <= n <= MaxUint64
    ensures 0 <= c.value <= MaxUint64
    ensures c.err == ErrSyntax ==> c.value == 0
    ensures c.err == ErrRange ==> c.value == MaxUint64
    ensures c.err == NoError ==> n <= c.value
    decreases |s|
  {
    if s == [] then Conversion(n, NoError)
    else if !IsDigit(s[0]) then Conversion(0, ErrSyntax)
    else if n >= Cutoff then Conversion(MaxUint64, ErrRange)
    else if n * 10 + DigitValue(s[0]) > MaxUint64 then Conversion(MaxUint64, ErrRange)
    else ScanDigits(s[1..], n * 10 + DigitValue(s[0]))
  }

  /** `strconv.ParseUint(s, 10, 64)` */
  function ParseUint(s: string): (c: Conversion)
    ensures 0 <= c.value <= MaxUint64
    ensures c.err == ErrSyntax ==> c.value == 0
    ensures c.err == ErrRange ==> c.value == MaxUint64
  {
    if s == [] then Conversion(0, ErrSyntax) else ScanDigits(s, 0)
  }

  /** `strconv.ParseInt(s, 10, 64)` */
  function ParseInt(s: string): (c: Conversion)
    ensures MinInt64 <= c.value <= MaxInt64
    ensures c.err == ErrSyntax ==> c.value == 0
    ensures c.err == ErrRange ==> c.value == if Negative(s) then MinInt64 else MaxInt64
  {
    if s == [] then Conversion(0, ErrSyntax)
    else
      var un := ParseUint(Unsigned(s));
      if un.err == ErrSyntax then Conversion(0, ErrSyntax)
      else if !Negative(s) && un.value >= MaxInt64 + 1 then Conversion(MaxInt64, ErrRange)
      else if Negative(s) && un.value > MaxInt64 + 1 then Conversion(MinInt64, ErrRange)
      else Conversion(if Negative(s) then -un.value else un.value, NoError)
  }

  /** The digit loop of the fast path of `Atoi`, which has no overflow check */
  function FastDigits(s: string, n: nat): (c: Conversion)
    ensures c.err != ErrRange
    ensures c.err == ErrSyntax ==> c.value == 0
    decreases |s|
  {
    if s == [] then Conversion(n, NoError)
    else if !IsDigit(s[0]) then Conversion(0, ErrSyntax)
    else FastDigits(s[1..], n * 10 + DigitValue(s[0]))
  }

  /** The fast path `Atoi` takes for inputs shorter than 19 bytes */
  function AtoiFast(s: string): Conversion
    requires 0 < |s| < 19
  {
    if (s[0] == '-' || s[0] == '+') && |s| == 1 then Conversion(0, ErrSyntax)
    else
      var n := FastDigits(Unsigned(s), 0);
      if n.err == ErrSyntax then n
      else if Negative(s) then Conversion(-n.value, NoError)
      else n
  }

  /** `strconv.Atoi(s)`. Go measures the length in bytes; this model measures
      it in characters, which cannot change the result because both paths
      agree on every input the fast path accepts (`FastPathAgrees`). */
  function Atoi(s: string): (c: Conversion)
    ensures c == ParseInt(s)
    ensures MinInt64 <= c.value <= MaxInt64
    ensures c.err == ErrSyntax ==> c.value == 0
    ensures c.err == ErrRange ==> c.value == if Negative(s) then MinInt64 else MaxInt64
  {
    if 0 < |s| < 19 then FastPathAgrees(s); AtoiFast(s) else ParseInt(s)
  }

  // ---------------------------------------------------------------------
  // What the library computes, in terms of the reference reading
  // ---------------------------------------------------------------------

  lemma Pow10Step(k: nat)
    requires 0 < k
    ensures Pow10(k) == 10 * Pow10(k - 1)
  {
  }

  lemma {:induction false} Pow10Add(a: nat, b: nat)
    ensures Pow10(a + b) == Pow10(a) * Pow10(b)
    decreases a
  {
    if a > 0 {
      Pow10Add(a - 1, b);
    }
  }

  lemma Pow10Of18()
    ensures Pow10(18) == 1_000_000_000_000_000_000
  {
    assert Pow10(6) == 1_000_000 by {
      assert Pow10(1) == 10;
      assert Pow10(2) == 100;
      assert Pow10(3) == 1000;
      assert Pow10(4) == 10_000;
      assert Pow10(5) == 100_000;
    }
    Pow10Add(6, 6);
    Pow10Add(12, 6);
  }

  lemma {:induction false} Pow10Monotone(j: nat, k: nat)
    requires j <= k
    ensures Pow10(j) <= Pow10(k)
    decreases k
  {
    if j < k {
      Pow10Monotone(j, k - 1);
    }
  }

  lemma {:induction false} DecimalValueBound(s: string)
    requires AllDigits(s)
    ensures DecimalValue(s) < Pow10(|s|)
    decreases |s|
  {
    if s != [] {
      DecimalValueBound(s[1..]);
      var p := Pow10(|s| - 1);
      var d := DigitValue(s[0]);
      Pow10Step(|s|);
      DigitScaleBound(d, p);
      assert DecimalValue(s) == d * p + DecimalValue(s[1..]);
    }
  }

  /** A digit times `p`, plus `p`, is at most `10 * p` */
  lemma DigitScaleBound(d: nat, p: nat)
    requires d <= 9
    ensures d * p + p <= 10 * p
  {
    calc {
      d * p + p;
    ==
      (d + 1) * p;
    <=  { assert d + 1 <= 10; }
      10 * p;
    }
  }

  lemma ScaleAtLeast(d: nat, p: nat, lower: nat)
    requires 2 <= d && lower <= p
    ensures 2 * lower <= d * p
  {
  }

  /** A run of twenty or more digits led by a digit of at least 2 denotes a
      number beyond 64 bits */
  lemma LongRunOverflows(s: string)
    requires 20 <= DigitRun(s) && '2' <= s[0]
    ensures MaxUint64 < DecimalValue(s[..DigitRun(s)])
  {
    var r := DigitRun(s);
    var t := s[..r];
    var d := DigitValue(t[0]);
    var p := Pow10(r - 1);
    assert d * p <= DecimalValue(t);
    assert 10 * Pow10(18) <= p by {
      Pow10Monotone(19, r - 1);
      Pow10Step(19);
    }
    Pow10Of18();
    ScaleAtLeast(d, p, 10 * Pow10(18));
  }

  /** Splitting the first digit off a digit run */
  lemma RunOfDigit(s: string)
    requires s != [] && IsDigit(s[0])
    ensures DigitRun(s) == 1 + DigitRun(s[1..])
    ensures s[..DigitRun(s)] == [s[0]] + s[1..][..DigitRun(s[1..])]
    ensures DecimalValue(s[..DigitRun(s)])
         == DigitValue(s[0]) * Pow10(DigitRun(s[1..])) + DecimalValue(s[1..][..DigitRun(s[1..])])
  {
    var r := DigitRun(s);
    var t := s[..r];
    assert t[1..] == s[1..][..r - 1];
  }

  /** Accumulating `n` in front of a numeral of `r` digits */
  lemma ShiftAccumulator(n: int, d: nat, r: nat, v: nat)
    requires 0 <= n
    ensures n * Pow10(r + 1) + (d * Pow10(r) + v) == (n * 10 + d) * Pow10(r) + v
  {
    calc {
      n * Pow10(r + 1) + (d * Pow10(r) + v);
      { Pow10Step(r + 1); }
      n * (10 * Pow10(r)) + d * Pow10(r) + v;
      (n * 10) * Pow10(r) + d * Pow10(r) + v;
      (n * 10 + d) * Pow10(r) + v;
    }
  }

  lemma AtLeastOnce(m: nat, p: nat)
    requires 1 <= p
    ensures m <= m * p
  {
  }

  /** The digit loop of `ParseUint`: a range error exactly when the leading
      digit run overflows 64 bits (checked before anything after the run), a
      syntax error when the run is followed by a non-digit, else the value. */
  lemma {:induction false} ScanDigitsMeaning(s: string, n: int)
    requires 0 <= n <= MaxUint64
    ensures var r := DigitRun(s);
            var v := n * Pow10(r) + DecimalValue(s[..r]);
            ScanDigits(s, n)
            == if MaxUint64 < v then Conversion(MaxUint64, ErrRange)
               else if r < |s| then Conversion(0, ErrSyntax)
               else Conversion(v, NoError)
    decreases |s|
  {
    if s == [] || !IsDigit(s[0]) {
      assert s[..0] == [];
    } else {
      var d := DigitValue(s[0]);
      var t := s[1..];
      var rt := DigitRun(t);
      var vt := DecimalValue(t[..rt]);
      RunOfDigit(s);
      ShiftAccumulator(n, d, rt, vt);
      var m := n * 10 + d;
      assert n * Pow10(DigitRun(s)) + DecimalValue(s[..DigitRun(s)]) == m * Pow10(rt) + vt;
      if n >= Cutoff || m > MaxUint64 {
        assert MaxUint64 < m;
        AtLeastOnce(m, Pow10(rt));
        assert ScanDigits(s, n) == Conversion(MaxUint64, ErrRange);
      } else {
        assert ScanDigits(s, n) == ScanDigits(t, m);
        ScanDigitsMeaning(t, m);
      }
    }
  }

  lemma ParseUintMeaning(s: string)
    ensures var r := DigitRun(s);
            var v := DecimalValue(s[..r]);
            ParseUint(s)
            == if s == [] then Conversion(0, ErrSyntax)
               else if MaxUint64 < v then Conversion(MaxUint64, ErrRange)
               else if r < |s| then Conversion(0, ErrSyntax)
               else Conversion(v, NoError)
  {
    if s != [] {
      ScanDigitsMeaning(s, 0);
    }
  }

  /** The fast digit loop reads a numeral and refuses anything else */
  lemma {:induction false} FastDigitsMeaning(s: string, n: nat)
    ensures var r := DigitRun(s);
            FastDigits(s, n)
            == if r < |s| then Conversion(0, ErrSyntax)
               else Conversion(n * Pow10(r) + DecimalValue(s[..r]), NoError)
    decreases |s|
  {
    if s == [] || !IsDigit(s[0]) {
      assert s[..0] == [];
    } else {
      var d := DigitValue(s[0]);
      var t := s[1..];
      var rt := DigitRun(t);
      RunOfDigit(s);
      ShiftAccumulator(n, d, rt, DecimalValue(t[..rt]));
      FastDigitsMeaning(t, n * 10 + d);
    }
  }

  /** On inputs shorter than 19 characters the fast path of `Atoi` and
      `ParseInt` return the same pair, including for malformed input. */
  lemma FastPathAgrees(s: string)
    requires 0 < |s| < 19
    ensures AtoiFast(s) == ParseInt(s)
  {
    var body := Unsigned(s);
    var r := DigitRun(body);
    DecimalValueBound(body[..r]);
    Pow10Monotone(r, 18);
    Pow10Of18();
    ParseUintMeaning(body);
    FastDigitsMeaning(body, 0);
  }

  /** `Atoi` read against the reference: a well-formed numeral converts to
      its value, clamped to the int64 range with a range error; malformed
      input is a syntax error unless its leading digits already overflow. */
  lemma AtoiMeaning(s: string)
    ensures WellFormed(s) && MinInt64 <= SignedValue(s) <= MaxInt64
            ==> Atoi(s) == Conversion(SignedValue(s), NoError)
    ensures WellFormed(s) && MaxInt64 < SignedValue(s) ==> Atoi(s) == Conversion(MaxInt64, ErrRange)
    ensures WellFormed(s) && SignedValue(s) < MinInt64 ==> Atoi(s) == Conversion(MinInt64, ErrRange)
    ensures !WellFormed(s) ==> Atoi(s).err != NoError
    ensures !WellFormed(s) ==> (Atoi(s).err == ErrSyntax <==> !LeadingRunOverflows(s))
  {
    var body := Unsigned(s);
    var r := DigitRun(body);
    ParseUintMeaning(body);
    if WellFormed(s) {
      assert r == |body|;
      assert body[..r] == body;
    }
  }
}
