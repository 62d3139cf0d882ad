/** Separator-joined text and decimal numerals, shared by the codecs and the path code. */
module Text {

  datatype Option<+T> = None | Some(value: T)
  {
    function GetOr(default: T): T {
      if Some? then value else default
    }
  }

  // ---------------------------------------------------------------------------
  // Joining and splitting
  // ---------------------------------------------------------------------------

  ghost predicate Free(s: string, sep: char) {
    sep !in s
  }

  ghost predicate AllFree(parts: seq<string>, sep: char) {
    forall i :: 0 <= i < |parts| ==> Free(parts[i], sep)
  }

  function Join(parts: seq<string>, sep: char): string {
    if |parts| == 0 then ""
    else if |parts| == 1 then parts[0]
    else parts[0] + [sep] + Join(parts[1..], sep)
  }

  /** Where the first `sep` stands, or the length when there is none. */
  function Find(s: string, sep: char): (i: nat)
    ensures i <= |s| && Free(s[..i], sep)
    ensures i < |s| ==> s[i] == sep
  {
    if s == "" || s[0] == sep then 0 else 1 + Find(s[1..], sep)
  }

  function Split(s: string, sep: char): (parts: seq<string>)
    ensures |parts| > 0 && AllFree(parts, sep)
    decreases |s|
  {
    var i := Find(s, sep);
    if i == |s| then
      assert s[..i] == s;
      [s]
    else [s[..i]] + Split(s[i + 1..], sep)
  }

  lemma {:induction false} JoinConcat(a: seq<string>, b: seq<string>, sep: char)
    requires a != [] && b != []
    ensures Join(a + b, sep) == Join(a, sep) + [sep] + Join(b, sep)
    decreases |a|
  {
    assert (a + b)[0] == a[0] && (a + b)[1..] == a[1..] + b;
    if |a| == 1 {
      assert a[1..] + b == b;
    } else {
      JoinConcat(a[1..], b, sep);
      assert Join(a + b, sep) == a[0] + [sep] + Join(a[1..] + b, sep);
      assert Join(a, sep) == a[0] + [sep] + Join(a[1..], sep);
    }
  }

  function Count(s: string, c: char): nat {
    if s == "" then 0 else (if s[0] == c then 1 else 0) + Count(s[1..], c)
  }

  function CountAll(parts: seq<string>, c: char): nat {
    if parts == [] then 0 else Count(parts[0], c) + CountAll(parts[1..], c)
  }

  lemma {:induction false} FindOnPrefix(s: string, t: string, sep: char)
    requires Free(s, sep)
    ensures Find(s + [sep] + t, sep) == |s|
  {
    var u := s + [sep] + t;
    if s != "" {
      assert u[0] == s[0] && s[0] in s;
      assert u[1..] == s[1..] + [sep] + t;
      FindOnPrefix(s[1..], t, sep);
    }
  }

  lemma {:induction false} FindOnFree(s: string, sep: char)
    requires Free(s, sep)
    ensures Find(s, sep) == |s|
  {
    if s != "" {
      assert s[0] in s;
      FindOnFree(s[1..], sep);
    }
  }

  lemma SplitFree(s: string, sep: char)
    requires Free(s, sep)
    ensures Split(s, sep) == [s]
  {
    FindOnFree(s, sep);
  }

  lemma SplitFirst(s: string, t: string, sep: char)
    requires Free(s, sep)
    ensures Split(s + [sep] + t, sep) == [s] + Split(t, sep)
  {
    var u := s + [sep] + t;
    FindOnPrefix(s, t, sep);
    assert u[..|s|] == s && u[|s| + 1..] == t;
  }

  /** Splitting undoes joining, for parts that do not contain the separator. */
  lemma {:induction false} SplitJoin(parts: seq<string>, sep: char)
    requires |parts| > 0 && AllFree(parts, sep)
    ensures Split(Join(parts, sep), sep) == parts
  {
    if |parts| == 1 {
      SplitFree(parts[0], sep);
    } else {
      SplitFirst(parts[0], Join(parts[1..], sep), sep);
      SplitJoin(parts[1..], sep);
    }
  }

  lemma {:induction false} CountConcat(a: string, b: string, c: char)
    ensures Count(a + b, c) == Count(a, c) + Count(b, c)
  {
    if a == "" {
      assert a + b == b;
    } else {
      assert (a + b)[1..] == a[1..] + b;
      CountConcat(a[1..], b, c);
    }
  }

  lemma {:induction false} CountFree(s: string, c: char)
    ensures Count(s, c) == 0 <==> Free(s, c)
  {
    if s != "" {
      CountFree(s[1..], c);
      assert s == [s[0]] + s[1..];
    }
  }

  lemma {:induction false} CountAllFree(parts: seq<string>, c: char)
    ensures CountAll(parts, c) == 0 <==> AllFree(parts, c)
  {
    if parts != [] {
      CountFree(parts[0], c);
      CountAllFree(parts[1..], c);
      assert parts == [parts[0]] + parts[1..];
    }
  }

  lemma {:induction false} CountJoin(parts: seq<string>, sep: char)
    requires |parts| > 0
    ensures Count(Join(parts, sep), sep) == CountAll(parts, sep) + |parts| - 1
  {
    if |parts| == 1 {
      assert CountAll(parts[1..], sep) == 0;
    } else {
      var tail := Join(parts[1..], sep);
      CountConcat(parts[0] + [sep], tail, sep);
      CountConcat(parts[0], [sep], sep);
      assert Count([sep], sep) == 1 by { assert [sep][1..] == ""; }
      CountJoin(parts[1..], sep);
    }
  }

  /**
   * One clean side is enough: when as many parts join to the same text and one
   * list has no separator inside its parts, neither has the other, and they are
   * the same list.
   */
  lemma JoinInjective(a: seq<string>, b: seq<string>, sep: char)
    requires |a| == |b| > 0 && AllFree(b, sep)
    requires Join(a, sep) == Join(b, sep)
    ensures a == b
  {
    CountJoin(a, sep);
    CountJoin(b, sep);
    CountAllFree(a, sep);
    CountAllFree(b, sep);
    SplitJoin(a, sep);
    SplitJoin(b, sep);
  }

  /** With both sides clean, even the number of parts is determined. */
  lemma JoinInjectiveAnyLength(a: seq<string>, b: seq<string>, sep: char)
    requires |a| > 0 && |b| > 0 && AllFree(a, sep) && AllFree(b, sep)
    requires Join(a, sep) == Join(b, sep)
    ensures a == b
  {
    SplitJoin(a, sep);
    SplitJoin(b, sep);
  }

  // ---------------------------------------------------------------------------
  // Trimming
  // ---------------------------------------------------------------------------

  function TrimStart(s: string, blank: char -> bool): string {
    if s != "" && blank(s[0]) then TrimStart(s[1..], blank) else s
  }

  function TrimEnd(s: string, blank: char -> bool): string {
    if s != "" && blank(s[|s| - 1]) then TrimEnd(s[..|s| - 1], blank) else s
  }

  function Trim(s: string, blank: char -> bool): string {
    TrimEnd(TrimStart(s, blank), blank)
  }

  lemma NothingToTrim(s: string, blank: char -> bool)
    requires s != "" ==> !blank(s[0]) && !blank(s[|s| - 1])
    ensures Trim(s, blank) == s
  {
  }

  lemma {:induction false} TrimPadding(before: string, s: string, after: string, blank: char -> bool)
    requires forall c :: c in before || c in after ==> blank(c)
    requires s != "" && !blank(s[0]) && !blank(s[|s| - 1])
    ensures Trim(before + s + after, blank) == s
    decreases |before| + |after|
  {
    var t := before + s + after;
    if before != "" {
      assert t[0] == before[0];
      assert t[1..] == before[1..] + s + after;
      TrimPadding(before[1..], s, after, blank);
    } else if after != "" {
      var cut := after[..|after| - 1];
      assert t[0] == s[0];
      assert t[|t| - 1] == after[|after| - 1];
      assert t[..|t| - 1] == "" + s + cut;
      assert (s + cut)[0] == s[0];
      assert "" + s + cut == s + cut;
      TrimPadding("", s, cut, blank);
    } else {
      assert t == s;
    }
  }

  // ---------------------------------------------------------------------------
  // Decimal numerals
  // ---------------------------------------------------------------------------

  const DIGITS := "0123456789"

  predicate IsDigit(c: char) {
    '0' <= c <= '9'
  }

  predicate AllDigits(s: string) {
    forall i :: 0 <= i < |s| ==> IsDigit(s[i])
  }

  function DigitValue(c: char): (d: nat)
    requires IsDigit(c)
    ensures d < 10 && DIGITS[d] == c
  {
    c as int - '0' as int
  }

  /** The value of a run of digits; the empty run is zero. */
  function Value(s: string): nat
    requires AllDigits(s)
  {
    if s == "" then 0 else 10 * Value(s[..|s| - 1]) + DigitValue(s[|s| - 1])
  }

  /** The shortest numeral for n. */
  function Decimal(n: nat): (s: string)
    ensures |s| > 0 && AllDigits(s) && Value(s) == n
  {
    if n < 10 then [DIGITS[n]]
    else
      var s := Decimal(n / 10) + [DIGITS[n % 10]];
      assert s[..|s| - 1] == Decimal(n / 10);
      s
  }

  /** `v` followed by `k` zeros. */
  function Shift(v: nat, k: nat): (w: nat)
    ensures v > 0 ==> w > 0
  {
    if k == 0 then v else 10 * Shift(v, k - 1)
  }

  lemma ValueSnoc(a: string, d: char)
    requires AllDigits(a) && IsDigit(d)
    ensures AllDigits(a + [d]) && Value(a + [d]) == 10 * Value(a) + DigitValue(d)
  {
    assert (a + [d])[..|a|] == a;
  }

  lemma {:induction false} ValueConcat(a: string, b: string)
    requires AllDigits(a) && AllDigits(b)
    ensures AllDigits(a + b) && Value(a + b) == Shift(Value(a), |b|) + Value(b)
    decreases |b|
  {
    if b == "" {
      assert a + b == a;
    } else {
      var c, d := b[..|b| - 1], b[|b| - 1];
      ValueConcat(a, c);
      assert a + b == (a + c) + [d];
      ValueSnoc(a + c, d);
    }
  }

  /** A run of digits is worth less than one followed by as many zeros. */
  lemma {:induction false} ValueBound(s: string)
    requires AllDigits(s)
    ensures Value(s) < Shift(1, |s|)
  {
    if s != "" {
      ValueBound(s[..|s| - 1]);
    }
  }
}
