/** Whole bytes shown and typed as decimal gigabytes, with no rounding in either direction. */
module GbText {
  import opened Text

  const GB := 1_000_000_000

  /** White space as the runtime's `trim` sees it. */
  predicate IsSpace(c: char) {
    || '\t' <= c <= '\r' || c == ' ' || c == '\U{00A0}' || c == '\U{1680}' || '\U{2000}' <= c <= '\U{200A}'
    || c == '\U{2028}' || c == '\U{2029}' || c == '\U{202F}' || c == '\U{205F}' || c == '\U{3000}' || c == '\U{FEFF}'
  }

  function Zeros(n: nat): (z: string)
    ensures |z| == n && AllDigits(z)
  {
    seq(n, _ => '0')
  }

  function PadStart(s: string, n: nat): (p: string)
    ensures AllDigits(s) ==> AllDigits(p)
  {
    if |s| >= n then s else Zeros(n - |s|) + s
  }

  function PadEnd(s: string, n: nat): (p: string)
    ensures |p| >= n
    ensures AllDigits(s) ==> AllDigits(p)
  {
    if |s| >= n then s else s + Zeros(n - |s|)
  }

  function StripZeros(s: string): (t: string)
    ensures t <= s
  {
    if s != "" && s[|s| - 1] == '0' then StripZeros(s[..|s| - 1]) else s
  }

  /** A whole part and a fraction of `places` digits, trailing zeros dropped. */
  function Show(whole: nat, fraction: nat, places: nat): string {
    if fraction == 0 then Decimal(whole)
    else Decimal(whole) + "." + StripZeros(PadStart(Decimal(fraction), places))
  }

  /** Digits, at most one point among them, and possibly nothing at all. */
  predicate LooksDecimal(t: string) {
    var i := Find(t, '.');
    AllDigits(t[..i]) && (i < |t| ==> AllDigits(t[i + 1..]))
  }

  function WholePart(t: string): string {
    t[..Find(t, '.')]
  }

  function FractionPart(t: string): string {
    var i := Find(t, '.');
    if i < |t| then t[i + 1..] else ""
  }

  /** The digits of a trimmed text, cut or filled to `places` after the point. */
  function Digits(t: string, places: nat): (digits: string)
    requires LooksDecimal(t)
    ensures AllDigits(digits)
  {
    WholePart(t) + PadEnd(FractionPart(t), places)[..places]
  }

  function Read(value: string, places: nat): Option<string> {
    var t := Trim(value, IsSpace);
    if !LooksDecimal(t) || t == "" || t == "." then None
    else
      var amount := Value(Digits(t, places));
      if amount > 0 then Some(Decimal(amount)) else None
  }

  function BytesToGb(bytes: nat): string {
    Show(bytes / GB, bytes % GB, 9)
  }

  /** A count of bytes as a numeral, or nothing for a text that is not a positive amount. */
  function GbToBytes(value: string): Option<string> {
    Read(value, 9)
  }

  // ---------------------------------------------------------------------------
  // What is typed is rounded down, nothing else
  // ---------------------------------------------------------------------------

  lemma {:induction false} ShiftTimes(v: nat, k: nat)
    ensures Shift(v, k) == v * Shift(1, k)
  {
    if k > 0 {
      ShiftTimes(v, k - 1);
      Assoc(10, v, Shift(1, k - 1));
      Assoc(v, 10, Shift(1, k - 1));
    }
  }

  lemma {:induction false} ShiftTwice(v: nat, j: nat, k: nat)
    ensures Shift(Shift(v, j), k) == Shift(v, j + k)
  {
    if k > 0 {
      ShiftTwice(v, j, k - 1);
    }
  }

  lemma NinePlaces(n: nat)
    requires n == 9
    ensures Shift(1, n) == GB
  {
    ShiftTwice(1, 3, 3);
    ShiftTwice(1, 6, 3);
    assert Shift(1, 3) == 1000;
    assert Shift(1000, 3) == 1000_000;
  }

  lemma Assoc(a: int, b: int, c: int)
    ensures a * (b * c) == (a * b) * c
  {
  }

  lemma Quotient(x: nat, m: nat, q: nat, r: nat)
    requires m > 0 && x == q * m + r && r < m
    ensures x / m == q
  {
    assert (x / m - q) * m == r - x % m;
    if x / m > q {
      Grows(x / m - q, m);
    } else if x / m < q {
      Grows(q - x / m, m);
    }
  }

  lemma Grows(k: nat, m: nat)
    requires k >= 1
    ensures k * m >= m
  {
  }

  lemma Distribute(v: nat, p: nat, r: nat, q: nat)
    ensures (v * p + r) * q == v * (p * q) + r * q
  {
  }

  lemma Shrinks(r: nat, p: nat, q: nat)
    requires r < p && q > 0
    ensures r * q < p * q
  {
  }

  /** The share of `v` parts out of `parts` of a unit, rounded down. */
  function Share(v: nat, unit: nat, parts: nat): nat
    requires parts > 0
  {
    v * unit / parts
  }

  lemma FloorExact(v: nat, k: nat, f: nat, unit: nat, parts: nat)
    requires unit == Shift(1, k + f) && parts == Shift(1, f)
    ensures Share(v, unit, parts) == Shift(v, k)
  {
    ShiftTimes(v, k);
    ShiftTwice(1, k, f);
    var p := Shift(1, k);
    ShiftTimes(p, f);
    Assoc(v, p, parts);
    Quotient(v * unit, parts, v * p, 0);
  }

  lemma FloorCut(v: nat, r: nat, c: nat, places: nat, unit: nat, parts: nat)
    requires r < Shift(1, c) && unit == Shift(1, places) && parts == Shift(1, c + places)
    ensures Share(Shift(v, c) + r, unit, parts) == v
  {
    ShiftTimes(v, c);
    ShiftTwice(1, c, places);
    ShiftTimes(Shift(1, c), places);
    ShareOfSum(v, Shift(1, c), r, unit, parts);
  }

  lemma ShareOfSum(v: nat, p: nat, r: nat, unit: nat, parts: nat)
    requires r < p && unit > 0 && parts == p * unit > 0
    ensures Share(v * p + r, unit, parts) == v
  {
    Distribute(v, p, r, unit);
    Shrinks(r, p, unit);
    Quotient((v * p + r) * unit, parts, v, r * unit);
  }

  /** The amount written as whole and fraction digits, in whole units rounded down. */
  function FloorUnits(whole: string, fraction: string, unit: nat): nat
    requires AllDigits(whole) && AllDigits(fraction)
  {
    Share(Value(whole + fraction), unit, Shift(1, |fraction|))
  }

  lemma {:induction false} ZerosWorth(n: nat)
    ensures Value(Zeros(n)) == 0
  {
    if n > 0 {
      ZerosWorth(n - 1);
      assert Zeros(n)[..n - 1] == Zeros(n - 1);
    }
  }

  lemma PaddedValue(s: string, k: nat)
    requires AllDigits(s)
    ensures Value(s + Zeros(k)) == Shift(Value(s), k)
  {
    ValueConcat(s, Zeros(k));
    ZerosWorth(k);
  }

  lemma PaddedWorth(whole: string, fraction: string, k: nat)
    requires AllDigits(whole) && AllDigits(fraction)
    ensures Value(whole + (fraction + Zeros(k))) == Shift(Value(whole + fraction), k)
  {
    assert whole + (fraction + Zeros(k)) == (whole + fraction) + Zeros(k);
    PaddedValue(whole + fraction, k);
  }

  lemma CutWorth(whole: string, fraction: string, places: nat) returns (rest: nat)
    requires AllDigits(whole) && AllDigits(fraction) && |fraction| >= places
    ensures Value(whole + fraction) == Shift(Value(whole + fraction[..places]), |fraction| - places) + rest
    ensures rest < Shift(1, |fraction| - places)
  {
    var kept, cut := whole + fraction[..places], fraction[places..];
    assert whole + fraction == kept + cut;
    ValueConcat(kept, cut);
    ValueBound(cut);
    rest := Value(cut);
  }

  lemma DigitsAreFloor(t: string, places: nat, unit: nat)
    requires LooksDecimal(t) && unit == Shift(1, places)
    ensures Value(Digits(t, places)) == FloorUnits(WholePart(t), FractionPart(t), unit)
  {
    if |FractionPart(t)| < places {
      PaddedDigitsAreFloor(t, places, unit);
    } else {
      CutDigitsAreFloor(t, places, unit);
    }
  }

  lemma PaddedDigitsAreFloor(t: string, places: nat, unit: nat)
    requires LooksDecimal(t) && unit == Shift(1, places) && |FractionPart(t)| < places
    ensures Value(Digits(t, places)) == FloorUnits(WholePart(t), FractionPart(t), unit)
  {
    var whole, fraction := WholePart(t), FractionPart(t);
    var f := |fraction|;
    PaddedWorth(whole, fraction, places - f);
    assert PadEnd(fraction, places)[..places] == fraction + Zeros(places - f);
    FloorExact(Value(whole + fraction), places - f, f, unit, Shift(1, f));
  }

  lemma CutDigitsAreFloor(t: string, places: nat, unit: nat)
    requires LooksDecimal(t) && unit == Shift(1, places) && |FractionPart(t)| >= places
    ensures Value(Digits(t, places)) == FloorUnits(WholePart(t), FractionPart(t), unit)
  {
    var whole, fraction := WholePart(t), FractionPart(t);
    var f := |fraction|;
    var rest := CutWorth(whole, fraction, places);
    FloorCut(Value(whole + fraction[..places]), rest, f - places, places, unit, Shift(1, f));
  }

  lemma NothingTyped(t: string, unit: nat)
    requires t == "" || t == "."
    ensures LooksDecimal(t) && FloorUnits(WholePart(t), FractionPart(t), unit) == 0
  {
    assert WholePart(t) == "" && FractionPart(t) == "";
    assert Value("") * unit == 0;
  }

  /**
   * On every text that has the shape of a decimal the answer is the amount rounded
   * down to whole bytes, or nothing when that is zero; on any other text, nothing.
   */
  lemma GbToBytesIsFloor(value: string)
    ensures var t := Trim(value, IsSpace);
      GbToBytes(value) ==
        if LooksDecimal(t) && FloorUnits(WholePart(t), FractionPart(t), GB) > 0
        then Some(Decimal(FloorUnits(WholePart(t), FractionPart(t), GB)))
        else None
  {
    ReadIsFloor(value, GB, 9);
  }

  lemma ReadIsFloor(value: string, unit: nat, places: nat)
    requires places == 9 && unit == GB
    ensures var t := Trim(value, IsSpace);
      Read(value, places) ==
        if LooksDecimal(t) && FloorUnits(WholePart(t), FractionPart(t), unit) > 0
        then Some(Decimal(FloorUnits(WholePart(t), FractionPart(t), unit)))
        else None
  {
    var t := Trim(value, IsSpace);
    NinePlaces(places);
    if LooksDecimal(t) {
      DigitsAreFloor(t, places, unit);
      if t == "" || t == "." {
        NothingTyped(t, unit);
      }
    }
  }

  // ---------------------------------------------------------------------------
  // What is shown can be typed back
  // ---------------------------------------------------------------------------

  lemma {:induction false} DecimalLength(n: nat, k: nat)
    requires k > 0 && n < Shift(1, k)
    ensures |Decimal(n)| <= k
  {
    assert Shift(1, k) == 10 * Shift(1, k - 1);
    if n >= 10 && k > 1 {
      DecimalLength(n / 10, k - 1);
    }
  }

  lemma StripThenPad(s: string, n: nat)
    requires |s| <= n
    ensures PadEnd(StripZeros(s), n) == PadEnd(s, n)
  {
    StrippedAreZeros(s);
    PadAfterZeros(StripZeros(s), s, n);
  }

  lemma PadAfterZeros(t: string, s: string, n: nat)
    requires t <= s && |s| <= n
    requires forall i :: |t| <= i < |s| ==> s[i] == '0'
    ensures PadEnd(t, n) == PadEnd(s, n)
  {
    var x, y := PadEnd(t, n), PadEnd(s, n);
    forall i: nat | i < n
      ensures |x| == |y| == n && x[i] == y[i]
    {
      PadAt(t, n, i);
      PadAt(s, n, i);
    }
    assert |x| == |y| == n;
  }

  lemma PadAt(s: string, n: nat, i: nat)
    requires |s| <= n && i < n
    ensures |PadEnd(s, n)| == n && PadEnd(s, n)[i] == if i < |s| then s[i] else '0'
  {
  }

  lemma {:induction false} StrippedAreZeros(s: string)
    ensures forall i :: |StripZeros(s)| <= i < |s| ==> s[i] == '0'
  {
    if s != "" && s[|s| - 1] == '0' {
      StrippedAreZeros(s[..|s| - 1]);
    }
  }

  /** The fraction digits of an amount are worth what they stand for. */
  lemma FractionWorth(fraction: nat, n: nat)
    requires n > 0 && fraction < Shift(1, n)
    ensures var p := PadStart(Decimal(fraction), n);
      |p| == n && AllDigits(p) && Value(p) == fraction
  {
    DecimalLength(fraction, n);
    var d := Decimal(fraction);
    if |d| < n {
      var z := Zeros(n - |d|);
      ValueConcat(z, d);
      ZerosWorth(n - |d|);
      ShiftZero(|d|);
    }
  }

  lemma {:induction false} ShiftZero(k: nat)
    ensures Shift(0, k) == 0
  {
    if k > 0 {
      ShiftZero(k - 1);
    }
  }

  lemma WholeAndFraction(n: nat, places: nat)
    requires places == 9
    ensures n == Shift(n / GB, places) + n % GB
    ensures Shift(1, places) == GB
  {
    NinePlaces(places);
    ShiftTimes(n / GB, places);
  }

  lemma ShowRead(whole: nat, fraction: nat, places: nat)
    requires places > 0 && fraction < Shift(1, places) && Shift(whole, places) + fraction > 0
    ensures Read(Show(whole, fraction, places), places) == Some(Decimal(Shift(whole, places) + fraction))
  {
    var w := Decimal(whole);
    if fraction == 0 {
      ReadWhole(w, places);
    } else {
      var p := PadStart(Decimal(fraction), places);
      FractionWorth(fraction, places);
      ValueConcat(w, p);
      ReadFraction(w, p);
    }
  }

  /** Showing an amount and reading it back gives the amount, of any size. */
  lemma RoundTrip(n: nat)
    requires n > 0
    ensures GbToBytes(BytesToGb(n)) == Some(Decimal(n))
  {
    RoundTripAt(n, 9);
  }

  lemma RoundTripAt(n: nat, places: nat)
    requires n > 0 && places == 9
    ensures Read(Show(n / GB, n % GB, places), places) == Some(Decimal(n))
  {
    WholeAndFraction(n, places);
    ShowRead(n / GB, n % GB, places);
  }

  lemma ReadWhole(w: string, places: nat)
    requires AllDigits(w) && w != "" && Shift(Value(w), places) > 0
    ensures Read(w, places) == Some(Decimal(Shift(Value(w), places)))
  {
    ShownWhole(w);
    PaddedValue(w, places);
    assert Digits(w, places) == w + Zeros(places);
  }

  lemma ReadFraction(w: string, p: string)
    requires AllDigits(w) && w != "" && AllDigits(p) && Value(p) > 0 && Value(w + p) > 0
    ensures Read(w + "." + StripZeros(p), |p|) == Some(Decimal(Value(w + p)))
  {
    var f := StripZeros(p);
    var t := w + "." + f;
    SomethingLeft(p);
    ShownWithPoint(w, f);
    StripThenPad(p, |p|);
    assert Digits(t, |p|) == w + p;
  }

  lemma SomethingLeft(p: string)
    requires AllDigits(p) && Value(p) > 0
    ensures StripZeros(p) != ""
  {
    StrippedAreZeros(p);
    if StripZeros(p) == "" {
      AllZerosWorth(p);
    }
  }

  lemma AllZerosWorth(p: string)
    requires forall i :: 0 <= i < |p| ==> p[i] == '0'
    ensures AllDigits(p) && Value(p) == 0
  {
    ZerosWorth(|p|);
    assert p == Zeros(|p|);
  }

  lemma DigitsAreNoSpaces(s: string)
    requires AllDigits(s) && s != ""
    ensures !IsSpace(s[0]) && !IsSpace(s[|s| - 1]) && Free(s, '.')
  {
    assert IsDigit(s[0]) && IsDigit(s[|s| - 1]);
  }

  lemma ShownWhole(w: string)
    requires AllDigits(w) && w != ""
    ensures Trim(w, IsSpace) == w && LooksDecimal(w) && w != "." && WholePart(w) == w && FractionPart(w) == ""
  {
    DigitsAreNoSpaces(w);
    NothingToTrim(w, IsSpace);
    FindOnFree(w, '.');
    assert w[..|w|] == w;
  }

  lemma ShownWithPoint(w: string, f: string)
    requires AllDigits(w) && AllDigits(f) && w != "" && f != ""
    ensures var t := w + "." + f;
      Trim(t, IsSpace) == t && LooksDecimal(t) && |t| > 1 && WholePart(t) == w && FractionPart(t) == f
  {
    var t := w + "." + f;
    DigitsAreNoSpaces(w);
    DigitsAreNoSpaces(f);
    NothingToTrim(t, IsSpace);
    FindOnPrefix(w, f, '.');
    assert t == w + ['.'] + f;
    assert t[..|w|] == w && t[|w| + 1..] == f;
  }
}
