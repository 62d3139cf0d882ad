/** The order on version strings that decides upgrades, and the check that uses it. */
module Versions {
  import opened Clock
  import opened Text
  import opened SigningInputs

  /** White space as the runtime's `TrimSpace` sees it. */
  predicate IsSpace(c: char) {
    || '\t' <= c <= '\r' || c == ' ' || c == '\U{0085}' || c == '\U{00A0}' || c == '\U{1680}'
    || '\U{2000}' <= c <= '\U{200A}' || c == '\U{2028}' || c == '\U{2029}' || c == '\U{202F}' || c == '\U{205F}'
    || c == '\U{3000}'
  }

  /** The largest value of the platform's 64-bit signed integer. */
  const MAX_INT := 0x7FFF_FFFF_FFFF_FFFF

  /** What a version string means to the order: three numbers and a suffix. */
  datatype Key = Key(major: nat, minor: nat, patch: nat, pre: string)

  function TrimV(s: string): string {
    if s != "" && s[0] == 'v' then s[1..] else s
  }

  predicate IsMark(c: char) {
    c == '-' || c == '+'
  }

  /** Where the suffix begins: the first mark, or the length when there is none. */
  function FindMark(s: string): (i: nat)
    ensures i <= |s|
    ensures i < |s| ==> IsMark(s[i])
    ensures forall k :: 0 <= k < i ==> !IsMark(s[k])
  {
    if s == "" || IsMark(s[0]) then 0 else 1 + FindMark(s[1..])
  }

  /** At most three pieces; the last keeps whatever separators remain. */
  function SplitThree(s: string): (parts: seq<string>)
    ensures 0 < |parts| <= 3
  {
    var i := Find(s, '.');
    if i == |s| then [s]
    else
      var t := s[i + 1..];
      var j := Find(t, '.');
      if j == |t| then [s[..i], t] else [s[..i], t[..j], t[j + 1..]]
  }

  /** A field that is no number in range, or is negative, is worth zero. */
  function Field(s: string): (n: nat)
    ensures n <= MAX_INT
  {
    var digits := if s != "" && (s[0] == '-' || s[0] == '+') then s[1..] else s;
    if digits == "" || !AllDigits(digits) || s[0] == '-' || Value(digits) > MAX_INT then 0 else Value(digits)
  }

  function FieldAt(parts: seq<string>, i: nat): nat {
    if i < |parts| then Field(parts[i]) else 0
  }

  function KeyOf(version: string): Key {
    var v := TrimV(Trim(version, IsSpace));
    var i := FindMark(v);
    var parts := SplitThree(v[..i]);
    Key(FieldAt(parts, 0), FieldAt(parts, 1), FieldAt(parts, 2), if i < |v| then v[i + 1..] else "")
  }

  method Fill(fields: seq<string>) returns (parts: array<nat>)
    requires |fields| <= 3
    ensures fresh(parts) && parts.Length == 3
    ensures forall k :: 0 <= k < 3 ==> parts[k] == FieldAt(fields, k)
  {
    parts := new nat[3](_ => 0);
    var i := 0;
    while i < |fields|
      invariant 0 <= i <= |fields|
      invariant forall k :: 0 <= k < 3 ==> parts[k] == if k < i then FieldAt(fields, k) else 0
    {
      if i > 2 { break; }
      parts[i] := Field(fields[i]);
      i := i + 1;
    }
  }

  method SplitVersion(version: string) returns (parts: array<nat>, pre: string)
    ensures fresh(parts) && parts.Length == 3
    ensures Key(parts[0], parts[1], parts[2], pre) == KeyOf(version)
  {
    var v := TrimV(Trim(version, IsSpace));
    pre := "";
    var index := FindMark(v);
    if index < |v| {
      pre := v[index + 1..];
      v := v[..index];
    } else {
      assert v[..index] == v;
    }
    parts := Fill(SplitThree(v));
  }

  // ---------------------------------------------------------------------------
  // The order
  // ---------------------------------------------------------------------------

  /** Strings in dictionary order, character by character. */
  predicate Earlier(a: string, b: string) {
    if b == "" then false
    else if a == "" then true
    else a[0] < b[0] || (a[0] == b[0] && Earlier(a[1..], b[1..]))
  }

  predicate PreOlder(a: string, b: string) {
    if a == "" then false else if b == "" then true else Earlier(a, b)
  }

  /** The first number that differs decides; with none, a suffix makes it older. */
  predicate Older(a: Key, b: Key) {
    || a.major < b.major
    || (a.major == b.major && a.minor < b.minor)
    || (a.major == b.major && a.minor == b.minor && a.patch < b.patch)
    || (a.major == b.major && a.minor == b.minor && a.patch == b.patch && PreOlder(a.pre, b.pre))
  }

  function Sign(a: Key, b: Key): (sign: int)
    ensures -1 <= sign <= 1
  {
    if Older(a, b) then -1 else if a == b then 0 else 1
  }

  function Compare(a: string, b: string): (sign: int)
    ensures -1 <= sign <= 1
  {
    Sign(KeyOf(a), KeyOf(b))
  }

  /** The comparing loop and the suffix rules, on what two versions were split into. */
  method CompareParts(aCore: array<nat>, aPre: string, bCore: array<nat>, bPre: string) returns (sign: int)
    requires aCore.Length == bCore.Length == 3
    ensures sign == Sign(Key(aCore[0], aCore[1], aCore[2], aPre), Key(bCore[0], bCore[1], bCore[2], bPre))
  {
    var i := 0;
    while i < 3
      invariant 0 <= i <= 3
      invariant forall k :: 0 <= k < i ==> aCore[k] == bCore[k]
    {
      if aCore[i] != bCore[i] {
        assert i == 0 || i == 1 || i == 2;
        if aCore[i] < bCore[i] { return -1; }
        return 1;
      }
      i := i + 1;
    }
    EarlierTrichotomy(aPre, bPre);
    EarlierIrreflexive(aPre);
    if aPre == "" && bPre == "" { return 0; }
    if aPre == "" { return 1; }
    if bPre == "" { return -1; }
    if Earlier(aPre, bPre) { return -1; }
    if Earlier(bPre, aPre) { return 1; }
    return 0;
  }

  method CompareVersions(a: string, b: string) returns (sign: int)
    ensures sign == Compare(a, b)
  {
    var aCore, aPre := SplitVersion(a);
    var bCore, bPre := SplitVersion(b);
    sign := CompareParts(aCore, aPre, bCore, bPre);
  }

  lemma {:induction false} EarlierIrreflexive(a: string)
    ensures !Earlier(a, a)
  {
    if a != "" {
      EarlierIrreflexive(a[1..]);
    }
  }

  lemma {:induction false} EarlierTransitive(a: string, b: string, c: string)
    requires Earlier(a, b) && Earlier(b, c)
    ensures Earlier(a, c)
  {
    if a != "" && a[0] == b[0] == c[0] {
      EarlierTransitive(a[1..], b[1..], c[1..]);
    }
  }

  lemma {:induction false} EarlierTrichotomy(a: string, b: string)
    ensures a == b || Earlier(a, b) || Earlier(b, a)
  {
    if a != "" && b != "" && a[0] == b[0] {
      EarlierTrichotomy(a[1..], b[1..]);
      assert a == [a[0]] + a[1..] && b == [b[0]] + b[1..];
    }
  }

  lemma PreOlderTransitive(a: string, b: string, c: string)
    requires PreOlder(a, b) && PreOlder(b, c)
    ensures PreOlder(a, c)
  {
    if c != "" {
      EarlierTransitive(a, b, c);
    }
  }

  lemma OlderTransitive(a: Key, b: Key, c: Key)
    requires Older(a, b) && Older(b, c)
    ensures Older(a, c)
  {
    if PreOlder(a.pre, b.pre) && PreOlder(b.pre, c.pre) {
      PreOlderTransitive(a.pre, b.pre, c.pre);
    }
  }

  lemma OlderIrreflexive(a: Key)
    ensures !Older(a, a)
  {
    EarlierIrreflexive(a.pre);
  }

  lemma OlderNotBoth(a: Key, b: Key)
    requires Older(a, b)
    ensures !Older(b, a) && a != b
  {
    OlderIrreflexive(a);
    if Older(b, a) {
      OlderTransitive(a, b, a);
    }
  }

  lemma OlderTotal(a: Key, b: Key)
    ensures a == b || Older(a, b) || Older(b, a)
  {
    EarlierTrichotomy(a.pre, b.pre);
  }

  /** What the order on keys keeps, whichever three are compared. */
  lemma SignIsTotalOrder(a: Key, b: Key, c: Key)
    ensures Sign(a, b) == -Sign(b, a)
    ensures Sign(a, b) <= 0 && Sign(b, c) <= 0 ==>
      Sign(a, c) == if Sign(a, b) < Sign(b, c) then Sign(a, b) else Sign(b, c)
    ensures Sign(a, b) == 0 ==> Sign(a, c) == Sign(b, c)
  {
    OlderTotal(a, b);
    OlderIrreflexive(a);
    if Older(a, b) {
      OlderNotBoth(a, b);
      if Older(b, c) {
        OlderTransitive(a, b, c);
      }
    } else if Older(b, a) {
      OlderNotBoth(b, a);
    }
  }

  /**
   * A total preorder on all strings: swapping the sides swaps the sign, older-than
   * chains, and strings that compare equal compare alike with everything.
   */
  lemma CompareIsTotalPreorder(a: string, b: string, c: string)
    ensures Compare(a, b) == -Compare(b, a)
    ensures Compare(a, b) <= 0 && Compare(b, c) <= 0 ==>
      Compare(a, c) == if Compare(a, b) < Compare(b, c) then Compare(a, b) else Compare(b, c)
    ensures Compare(a, b) == 0 ==> Compare(a, c) == Compare(b, c)
  {
    SignIsTotalOrder(KeyOf(a), KeyOf(b), KeyOf(c));
  }

  // ---------------------------------------------------------------------------
  // What the strings mean
  // ---------------------------------------------------------------------------

  /** A written version: optional `v`, three numerals, and a suffix behind its mark. */
  function Render(v: bool, core: (nat, nat, nat), mark: string, pre: string): string {
    (if v then "v" else "") + Numbers(core) + mark + pre
  }

  function Numbers(core: (nat, nat, nat)): string {
    Decimal(core.0) + "." + (Decimal(core.1) + "." + Decimal(core.2))
  }

  lemma NumeralClean(n: nat)
    ensures var d := Decimal(n);
      && (forall c :: c in d ==> IsDigit(c) && !IsMark(c) && !IsSpace(c) && c != 'v')
      && Free(d, '.')
      && (n <= MAX_INT ==> Field(d) == n)
  {
    var d := Decimal(n);
    assert IsDigit(d[0]);
  }

  lemma NumbersClean(core: (nat, nat, nat))
    ensures var d := Numbers(core);
      && (forall c :: c in d ==> !IsMark(c) && !IsSpace(c) && c != 'v')
      && d != ""
  {
    NumeralClean(core.0);
    NumeralClean(core.1);
    NumeralClean(core.2);
  }

  lemma ThreePieces(a: string, b: string, c: string)
    requires Free(a, '.') && Free(b, '.')
    ensures SplitThree(a + "." + (b + "." + c)) == [a, b, c]
  {
    var tail := b + "." + c;
    var s := a + "." + tail;
    FindOnPrefix(a, tail, '.');
    assert s == a + ['.'] + tail;
    assert s[..|a|] == a && s[|a| + 1..] == tail;
    FindOnPrefix(b, c, '.');
    assert tail == b + ['.'] + c;
    assert tail[..|b|] == b && tail[|b| + 1..] == c;
  }

  lemma {:induction false} FindMarkAt(s: string, i: nat)
    requires i <= |s| && (i < |s| ==> IsMark(s[i]))
    requires forall k :: 0 <= k < i ==> !IsMark(s[k])
    ensures FindMark(s) == i
  {
    if i > 0 {
      assert !IsMark(s[0]);
      FindMarkAt(s[1..], i - 1);
    }
  }

  /**
   * Reading a written version gives back its numbers and suffix, whatever white space
   * surrounds it: numbers up to the integer limit, a suffix that ends in no white space.
   */
  lemma KeyOfRender(
      text: string, before: string, v: bool, core: (nat, nat, nat), mark: string, pre: string, after: string)
    requires core.0 <= MAX_INT && core.1 <= MAX_INT && core.2 <= MAX_INT
    requires forall c :: c in before || c in after ==> IsSpace(c)
    requires if pre == "" then mark == "" else mark in ["-", "+"] && !IsSpace(pre[|pre| - 1])
    requires text == before + Render(v, core, mark, pre) + after
    ensures KeyOf(text) == Key(core.0, core.1, core.2, pre)
  {
    var d := Numbers(core);
    NumbersClean(core);
    Unwrapped(before, v, d, mark, pre, after);
    assert Render(v, core, mark, pre) == (if v then "v" else "") + d + mark + pre;
    MarkFollows(d, mark, pre);
    CoreOfNumbers(core);
  }

  lemma Unwrapped(before: string, v: bool, d: string, mark: string, pre: string, after: string)
    requires forall c :: c in before || c in after ==> IsSpace(c)
    requires d != "" && forall c :: c in d ==> !IsSpace(c) && c != 'v'
    requires if pre == "" then mark == "" else !IsSpace(pre[|pre| - 1])
    ensures TrimV(Trim(before + ((if v then "v" else "") + d + mark + pre) + after, IsSpace)) == d + mark + pre
  {
    var body := d + mark + pre;
    var text := (if v then "v" else "") + d + mark + pre;
    assert text == (if v then "v" else "") + body;
    assert d[0] in d && d[|d| - 1] in d;
    assert body[0] == d[0];
    assert body[|body| - 1] == if pre == "" then d[|d| - 1] else pre[|pre| - 1];
    TrimPadding(before, text, after, IsSpace);
  }

  lemma MarkFollows(d: string, mark: string, pre: string)
    requires forall c :: c in d ==> !IsMark(c)
    requires if pre == "" then mark == "" else mark in ["-", "+"]
    ensures var body := d + mark + pre;
      && FindMark(body) == |d| && body[..|d|] == d
      && (if pre == "" then |d| == |body| else |d| < |body| && body[|d| + 1..] == pre)
  {
    var body := d + mark + pre;
    forall k | 0 <= k < |d|
      ensures !IsMark(body[k])
    {
      assert body[k] == d[k] && d[k] in d;
    }
    FindMarkAt(body, |d|);
  }

  lemma CoreOfNumbers(core: (nat, nat, nat))
    requires core.0 <= MAX_INT && core.1 <= MAX_INT && core.2 <= MAX_INT
    ensures var parts := SplitThree(Numbers(core));
      (FieldAt(parts, 0), FieldAt(parts, 1), FieldAt(parts, 2)) == core
  {
    var a, b, c := Decimal(core.0), Decimal(core.1), Decimal(core.2);
    NumeralClean(core.0);
    NumeralClean(core.1);
    NumeralClean(core.2);
    ThreePieces(a, b, c);
  }

  /** In the dictionary before the other: a proper beginning of it, or smaller where they first differ. */
  ghost predicate InFront(a: string, b: string) {
    a < b || exists k: nat :: k < |a| && k < |b| && a[..k] == b[..k] && a[k] < b[k]
  }

  lemma {:induction false} EarlierIsInFront(a: string, b: string)
    ensures Earlier(a, b) <==> InFront(a, b)
  {
    if a != "" && b != "" {
      EarlierIsInFront(a[1..], b[1..]);
      if a[0] == b[0] {
        InFrontBehind(a, b);
      } else {
        assert a[..0] == b[..0];
        forall k: nat | k < |a| && k < |b| && a[..k] == b[..k] ensures k > 0 ==> a[0] == b[0] {
          SameBeginning(a, b, k);
        }
      }
    }
  }

  lemma SameBeginning(a: string, b: string, k: nat)
    requires k <= |a| && k <= |b| && a[..k] == b[..k]
    ensures k > 0 ==> a[0] == b[0]
  {
    if k > 0 {
      assert a[..k][0] == a[0];
    }
  }

  lemma InFrontBehind(a: string, b: string)
    requires a != "" && b != "" && a[0] == b[0]
    ensures InFront(a, b) <==> InFront(a[1..], b[1..])
  {
    assert a == [a[0]] + a[1..] && b == [b[0]] + b[1..];
    if k: nat :| k < |a| && k < |b| && a[..k] == b[..k] && a[k] < b[k] {
      assert a[1..][..k - 1] == a[..k][1..] && b[1..][..k - 1] == b[..k][1..];
      assert a[1..][k - 1] == a[k] && b[1..][k - 1] == b[k];
    }
    if k: nat :| k < |a[1..]| && k < |b[1..]| && a[1..][..k] == b[1..][..k] && a[1..][k] < b[1..][k] {
      assert a[..k + 1] == [a[0]] + a[1..][..k] && b[..k + 1] == [b[0]] + b[1..][..k];
      assert a[k + 1] == a[1..][k] && b[k + 1] == b[1..][k];
    }
  }

  function Suffixed(core: (nat, nat, nat), mark: string, pre: string): string {
    Render(false, core, if pre == "" then "" else mark, pre)
  }

  /**
   * Written versions are ordered by their first number, then the second, then the third;
   * of equal numbers the one without suffix is newest, and suffixes go by the dictionary.
   */
  lemma WrittenOrder(a: (nat, nat, nat), p: string, b: (nat, nat, nat), q: string, mark: string)
    requires a.0 <= MAX_INT && a.1 <= MAX_INT && a.2 <= MAX_INT
    requires b.0 <= MAX_INT && b.1 <= MAX_INT && b.2 <= MAX_INT && mark in ["-", "+"]
    requires (p == "" || !IsSpace(p[|p| - 1])) && (q == "" || !IsSpace(q[|q| - 1]))
    ensures Compare(Suffixed(a, mark, p), Suffixed(b, mark, q)) == -1 <==>
      || a.0 < b.0 || (a.0 == b.0 && a.1 < b.1) || (a.0 == b.0 && a.1 == b.1 && a.2 < b.2)
      || (a == b && p != "" && (q == "" || InFront(p, q)))
  {
    var s, t := Suffixed(a, mark, p), Suffixed(b, mark, q);
    BareKey(s, a, if p == "" then "" else mark, p);
    BareKey(t, b, if q == "" then "" else mark, q);
    EarlierIsInFront(p, q);
    SignOfKeys(s, t, Key(a.0, a.1, a.2, p), Key(b.0, b.1, b.2, q));
  }

  lemma SignOfKeys(s: string, t: string, x: Key, y: Key)
    requires KeyOf(s) == x && KeyOf(t) == y
    ensures Compare(s, t) == -1 <==> Older(x, y)
  {
  }

  /**
   * Build metadata is treated like a pre-release: it makes a version older than the
   * same numbers without it.
   */
  lemma BuildMetadataIsOlder(core: (nat, nat, nat), build: string)
    requires core.0 <= MAX_INT && core.1 <= MAX_INT && core.2 <= MAX_INT
    requires build != "" && !IsSpace(build[|build| - 1])
    ensures Compare(Render(false, core, "+", build), Render(false, core, "", "")) == -1
  {
    BareKey(Render(false, core, "+", build), core, "+", build);
    BareKey(Render(false, core, "", ""), core, "", "");
  }

  lemma BareKey(text: string, core: (nat, nat, nat), mark: string, pre: string)
    requires core.0 <= MAX_INT && core.1 <= MAX_INT && core.2 <= MAX_INT
    requires if pre == "" then mark == "" else mark in ["-", "+"] && !IsSpace(pre[|pre| - 1])
    requires text == Render(false, core, mark, pre)
    ensures KeyOf(text) == Key(core.0, core.1, core.2, pre)
  {
    assert "" + text + "" == text;
    KeyOfRender(text, "", false, core, mark, pre, "");
  }

  // ---------------------------------------------------------------------------
  // Accepting a manifest
  // ---------------------------------------------------------------------------

  predicate ValidChannel(c: string) {
    c == "stable" || c == "beta"
  }

  datatype Verdict =
    | Accepted(manifest: Manifest)
    | Malformed | WrongChannel | UnknownKey | BadSignature | Expired | Downgrade | TooOldToJump | UnsafeUrl

  /** One manifest as served: its key id, whether that key signed it, and the clock. */
  datatype Offer = Offer(manifest: Manifest, keyId: string, signatureOk: bool, now: int)

  predicate IsHex(c: char) {
    '0' <= c <= '9' || 'a' <= c <= 'f' || 'A' <= c <= 'F'
  }

  predicate HexDigest(s: string) {
    |s| == 64 && forall i :: 0 <= i < |s| ==> IsHex(s[i])
  }

  predicate SoundArtifact(a: Artifact) {
    "https://" <= a.url && HexDigest(a.sha256)
  }

  /** Signed by a trusted key, for this channel, and still current. */
  predicate Authentic(o: Offer, channel: string, keys: set<string>) {
    && o.manifest.version != "" && o.manifest.artifacts != []
    && o.manifest.channel == channel && ValidChannel(channel)
    && o.keyId in keys && o.signatureOk
    && o.manifest.expiresAt != ZERO_TIME && o.now < o.manifest.expiresAt
  }

  predicate SoundArtifacts(m: Manifest) {
    forall i :: 0 <= i < |m.artifacts| ==> SoundArtifact(m.artifacts[i])
  }

  /** Newer than what runs, and within reach of it. */
  predicate Upgrades(m: Manifest, current: string) {
    Compare(m.version, current) == 1 && (m.minimum != "" ==> Compare(current, m.minimum) >= 0)
  }

  predicate Acceptable(o: Offer, current: string, channel: string, keys: set<string>) {
    Authentic(o, channel, keys) && Upgrades(o.manifest, current) && SoundArtifacts(o.manifest)
  }

  /** Signed by a trusted key, for the channel asked, which is one of the two there are, and not expired. */
  ghost predicate Trusted(o: Offer, channel: string, keys: set<string>) {
    && o.keyId in keys && o.signatureOk && o.manifest.channel == channel && channel in {"stable", "beta"}
    && o.manifest.version != "" && |o.manifest.artifacts| > 0
    && o.now < o.manifest.expiresAt && o.manifest.expiresAt != -62_135_596_800_000_000_000
  }

  /** To be had over TLS, with a digest of 64 hexadecimal characters. */
  ghost predicate Fetchable(a: Artifact) {
    && |a.url| >= 8 && a.url[..8] == "https://" && |a.sha256| == 64
    && forall i :: 0 <= i < 64 ==>
      '0' <= a.sha256[i] <= '9' || 'a' <= a.sha256[i] <= 'f' || 'A' <= a.sha256[i] <= 'F'
  }

  ghost predicate AllFetchable(m: Manifest) {
    forall i :: 0 <= i < |m.artifacts| ==> Fetchable(m.artifacts[i])
  }

  lemma SoundMeansFetchable(m: Manifest)
    ensures SoundArtifacts(m) <==> AllFetchable(m)
  {
    forall i | 0 <= i < |m.artifacts|
      ensures SoundArtifact(m.artifacts[i]) <==> Fetchable(m.artifacts[i])
    {
    }
  }

  lemma AcceptableMeans(o: Offer, current: string, channel: string, keys: set<string>)
    ensures Acceptable(o, current, channel, keys) <==>
      && Trusted(o, channel, keys) && AllFetchable(o.manifest) && Compare(o.manifest.version, current) == 1
      && (o.manifest.minimum == "" || Compare(current, o.manifest.minimum) >= 0)
  {
    SoundMeansFetchable(o.manifest);
  }

  class UpdateVerifier {
    const keys: set<string>
    const current: string
    const channel: string

    constructor (current: string, channel: string, keys: set<string>)
      ensures this.current == current && this.channel == channel && this.keys == keys
    {
      this.current, this.channel, this.keys := current, channel, keys;
    }

    /** Every check in order; an authentic manifest that is not newer is always a downgrade. */
    method Verify(o: Offer) returns (v: Verdict)
      ensures v.Accepted? <==> Acceptable(o, current, channel, keys)
      ensures v.Accepted? <==>
        && Trusted(o, channel, keys) && AllFetchable(o.manifest) && Compare(o.manifest.version, current) == 1
        && (o.manifest.minimum == "" || Compare(current, o.manifest.minimum) >= 0)
      ensures v.Accepted? ==> v.manifest == o.manifest
      ensures v.Downgrade? <==> Authentic(o, channel, keys) && Compare(o.manifest.version, current) <= 0
      ensures v.TooOldToJump? <==>
        && Authentic(o, channel, keys) && Compare(o.manifest.version, current) == 1
        && !Upgrades(o.manifest, current)
    {
      AcceptableMeans(o, current, channel, keys);
      v := Check(o);
    }

    method Check(o: Offer) returns (v: Verdict)
      ensures v.Accepted? <==> Acceptable(o, current, channel, keys)
      ensures v.Accepted? ==> v.manifest == o.manifest
      ensures v.Downgrade? <==> Authentic(o, channel, keys) && Compare(o.manifest.version, current) <= 0
      ensures v.TooOldToJump? <==>
        && Authentic(o, channel, keys) && Compare(o.manifest.version, current) == 1
        && !Upgrades(o.manifest, current)
    {
      var refusal := CheckAuthentic(o);
      if refusal.Some? { return refusal.value; }
      refusal := CheckOrder(o.manifest);
      if refusal.Some? { return refusal.value; }
      refusal := CheckArtifacts(o.manifest);
      if refusal.Some? { return refusal.value; }
      return Accepted(o.manifest);
    }

    method CheckAuthentic(o: Offer) returns (refusal: Option<Verdict>)
      ensures refusal.None? <==> Authentic(o, channel, keys)
      ensures refusal.Some? ==> refusal.value in {Malformed, WrongChannel, UnknownKey, BadSignature, Expired}
      ensures refusal == Some(Expired) ==>
        o.signatureOk && (o.manifest.expiresAt == ZERO_TIME || o.manifest.expiresAt <= o.now)
    {
      var m := o.manifest;
      if m.version == "" || |m.artifacts| == 0 { return Some(Malformed); }
      if !ValidChannel(m.channel) { return Some(Malformed); }
      if m.channel != channel { return Some(WrongChannel); }
      if o.keyId !in keys { return Some(UnknownKey); }
      if !o.signatureOk { return Some(BadSignature); }
      if m.expiresAt == ZERO_TIME || !(o.now < m.expiresAt) { return Some(Expired); }
      return None;
    }

    method CheckOrder(m: Manifest) returns (refusal: Option<Verdict>)
      ensures refusal.None? <==> Upgrades(m, current)
      ensures refusal == Some(Downgrade) <==> Compare(m.version, current) <= 0
      ensures refusal.Some? ==> refusal.value in {Downgrade, TooOldToJump}
    {
      var order := CompareVersions(m.version, current);
      if order == 0 { return Some(Downgrade); }
      if order == -1 { return Some(Downgrade); }
      if m.minimum != "" {
        var reach := CompareVersions(current, m.minimum);
        if reach < 0 { return Some(TooOldToJump); }
      }
      return None;
    }

    method CheckArtifacts(m: Manifest) returns (refusal: Option<Verdict>)
      ensures refusal.None? <==> SoundArtifacts(m)
      ensures refusal.Some? ==> refusal.value in {UnsafeUrl, Malformed}
    {
      var i := 0;
      while i < |m.artifacts|
        invariant 0 <= i <= |m.artifacts|
        invariant forall k :: 0 <= k < i ==> SoundArtifact(m.artifacts[k])
      {
        if !("https://" <= m.artifacts[i].url) { return Some(UnsafeUrl); }
        if !HexDigest(m.artifacts[i].sha256) { return Some(Malformed); }
        i := i + 1;
      }
      return None;
    }
  }

  // ---------------------------------------------------------------------------
  // An artifact folded into the minimum
  // ---------------------------------------------------------------------------

  predicate NoMark(s: string) {
    forall i :: 0 <= i < |s| ==> !IsMark(s[i])
  }

  predicate NoMarks(a: Artifact) {
    NoMark(a.component) && NoMark(a.platform) && NoMark(a.url) && NoMark(a.sha256) && a.bytes >= 0
  }

  /** The five lines of such an artifact hold no mark, and end in a digit. */
  lemma LinesWithoutMark(a: Artifact)
    requires NoMarks(a)
    ensures var rest := Join(ArtifactLines(a), '\n');
      rest != "" && NoMark(rest) && IsDigit(rest[|rest| - 1])
  {
    var bytes := Decimal(a.bytes);
    NumeralClean(a.bytes);
    var first := [a.component, a.platform, a.url, Lower(a.sha256)];
    JoinOfFour(a.component, a.platform, a.url, Lower(a.sha256));
    assert NoMark(Lower(a.sha256)) && NoMark(bytes);
    assert ArtifactLines(a) == first + [bytes];
    JoinConcat(first, [bytes], '\n');
    assert IsDigit(bytes[|bytes| - 1]);
  }

  lemma JoinOfFour(a: string, b: string, c: string, d: string)
    ensures Join([a, b, c, d], '\n') == a + "\n" + (b + "\n" + (c + "\n" + d))
  {
    assert [c, d][1..] == [d];
    assert Join([c, d], '\n') == c + "\n" + d;
    assert [b, c, d][1..] == [c, d];
    assert Join([b, c, d], '\n') == b + "\n" + (c + "\n" + d);
    assert [a, b, c, d][1..] == [b, c, d];
  }

  lemma PlainKey(text: string)
    requires text != "" && IsDigit(text[0]) && IsDigit(text[|text| - 1]) && NoMark(text)
    ensures var parts := SplitThree(text);
      KeyOf(text) == Key(FieldAt(parts, 0), FieldAt(parts, 1), FieldAt(parts, 2), "")
  {
    NothingToTrim(text, IsSpace);
    FindMarkAt(text, |text|);
    assert text[..|text|] == text;
  }

  lemma BrokenField(c: string, rest: string)
    requires c != "" && IsDigit(c[0])
    ensures Field(c + "\n" + rest) == 0
  {
    var third := c + "\n" + rest;
    assert third[|c|] == '\n' && third[0] == c[0];
    assert !IsDigit(third[|c|]);
  }

  lemma NoMarkConcat(a: string, b: string)
    requires NoMark(a) && NoMark(b)
    ensures NoMark(a + b)
  {
  }

  lemma FoldedHasNoMark(core: (nat, nat, nat), rest: string)
    requires NoMark(rest)
    ensures NoMark(Numbers(core) + "\n" + rest)
  {
    var d := Numbers(core);
    NumbersClean(core);
    assert forall k :: 0 <= k < |d| ==> d[k] in d;
    NoMarkConcat(d, "\n");
    NoMarkConcat(d + "\n", rest);
  }

  /** A minimum with an artifact folded in loses its third number. */
  lemma FoldedMinimumReads(core: (nat, nat, nat), rest: string)
    requires core.0 <= MAX_INT && core.1 <= MAX_INT && core.2 <= MAX_INT
    requires rest != "" && NoMark(rest) && IsDigit(rest[|rest| - 1])
    ensures KeyOf(Numbers(core) + "\n" + rest) == Key(core.0, core.1, 0, "")
  {
    var a, c, text := Decimal(core.0), Decimal(core.2), Numbers(core) + "\n" + rest;
    FoldedPieces(core, rest);
    NumeralClean(core.0);
    NumeralClean(core.1);
    assert IsDigit(c[0]) && IsDigit(a[0]) && text[0] == a[0];
    FoldedHasNoMark(core, rest);
    PlainKey(text);
    BrokenField(c, rest);
  }

  lemma FoldedPieces(core: (nat, nat, nat), rest: string)
    ensures SplitThree(Numbers(core) + "\n" + rest)
      == [Decimal(core.0), Decimal(core.1), Decimal(core.2) + "\n" + rest]
  {
    var a, b, c := Decimal(core.0), Decimal(core.1), Decimal(core.2);
    NumeralClean(core.0);
    NumeralClean(core.1);
    assert Numbers(core) + "\n" + rest == a + "." + (b + "." + (c + "\n" + rest));
    ThreePieces(a, b, c + "\n" + rest);
  }

  lemma FoldedKey(core: (nat, nat, nat), m: Manifest)
    requires core.0 <= MAX_INT && core.1 <= MAX_INT && core.2 <= MAX_INT
    requires m.minimum == Numbers(core) && m.artifacts != [] && NoMarks(m.artifacts[0])
    ensures KeyOf(Folded(m).minimum) == Key(core.0, core.1, 0, "") && Folded(m).minimum != ""
  {
    var a := m.artifacts[0];
    LinesWithoutMark(a);
    JoinConcat([m.minimum], ArtifactLines(a), '\n');
    FoldedMinimumReads(core, Join(ArtifactLines(a), '\n'));
  }

  lemma NumbersKey(core: (nat, nat, nat))
    requires core.0 <= MAX_INT && core.1 <= MAX_INT && core.2 <= MAX_INT
    ensures KeyOf(Numbers(core)) == Key(core.0, core.1, core.2, "") && Numbers(core) != ""
  {
    NumbersClean(core);
    assert Numbers(core) == "" + Render(false, core, "", "") + "";
    KeyOfRender(Numbers(core), "", false, core, "", "", "");
  }

  /**
   * What the line count leaves open matters: a manifest that refuses to be jumped to from
   * the version running is accepted once its first artifact is folded into its minimum,
   * under the signature it was issued with.
   */
  lemma FoldingIsAccepted(o: Offer, core: (nat, nat, nat), running: (nat, nat, nat), channel: string,
                          keys: set<string>, fmt: int -> string)
    requires core.0 <= MAX_INT && core.1 <= MAX_INT && core.2 <= MAX_INT && running.2 < core.2
    requires running.0 == core.0 && running.1 == core.1
    requires Authentic(o, channel, keys) && SoundArtifacts(o.manifest) && |o.manifest.artifacts| >= 2
    requires o.manifest.minimum == Numbers(core) && NoMarks(o.manifest.artifacts[0])
    requires Compare(o.manifest.version, Numbers(running)) == 1
    ensures !Acceptable(o, Numbers(running), channel, keys)
    ensures var altered := o.(manifest := Folded(o.manifest));
      && ReleaseInput(altered.manifest, fmt) == ReleaseInput(o.manifest, fmt)
      && altered.manifest != o.manifest && Acceptable(altered, Numbers(running), channel, keys)
  {
    var m, folded := o.manifest, Folded(o.manifest);
    FoldingKeepsInput(m, fmt);
    NumbersKey(core);
    NumbersKey(running);
    FoldedKey(core, m);
    forall i | 0 <= i < |folded.artifacts|
      ensures SoundArtifact(folded.artifacts[i])
    {
      assert folded.artifacts[i] == m.artifacts[i + 1];
    }
    var now := Key(running.0, running.1, running.2, "");
    CompareByKey(Numbers(running), m.minimum, now, Key(core.0, core.1, core.2, ""));
    CompareByKey(Numbers(running), folded.minimum, now, Key(core.0, core.1, 0, ""));
    ReachDecides(m, Numbers(running));
    ReachDecides(folded, Numbers(running));
  }

  lemma CompareByKey(a: string, b: string, x: Key, y: Key)
    requires KeyOf(a) == x && KeyOf(b) == y && x.major == y.major && x.minor == y.minor && x.pre == y.pre == ""
    ensures Compare(a, b) == if x.patch < y.patch then -1 else if x.patch == y.patch then 0 else 1
  {
  }

  lemma ReachDecides(m: Manifest, current: string)
    requires Compare(m.version, current) == 1 && m.minimum != ""
    ensures Upgrades(m, current) <==> Compare(current, m.minimum) >= 0
  {
  }

  function ExampleArtifact(component: string): Artifact {
    Artifact(component, "linux", "https://a", seq(64, _ => '0'), 1)
  }

  lemma ExampleIsSound(component: string)
    requires NoMark(component) && Free(component, '\n')
    ensures var a := ExampleArtifact(component); SoundArtifact(a) && NoMarks(a) && CleanArtifact(a)
  {
    var a := ExampleArtifact(component);
    assert NoMark(a.platform) && NoMark(a.url);
    assert a.url[..8] == "https://";
  }

  /** Version x.(y+1).0, which asks for x.y.z at least. */
  function ExampleOffer(x: nat, y: nat, z: nat): Offer {
    Offer(Manifest(Numbers((x, y + 1, 0)), "stable", 0, 100, Numbers((x, y, z)),
                   [ExampleArtifact("agent"), ExampleArtifact("desktop")]), "k", true, 0)
  }

  lemma ExampleIsAuthentic(x: nat, y: nat, z: nat)
    ensures var o := ExampleOffer(x, y, z);
      && Authentic(o, "stable", {"k"}) && SoundArtifacts(o.manifest) && CleanManifest(o.manifest)
      && NoMarks(o.manifest.artifacts[0])
  {
    ExampleIsSound("agent");
    ExampleIsSound("desktop");
    NumbersNoBreak((x, y + 1, 0));
    NumbersNoBreak((x, y, z));
  }

  lemma ExampleIsNewer(x: nat, y: nat)
    requires x <= MAX_INT && y < MAX_INT
    ensures Compare(Numbers((x, y + 1, 0)), Numbers((x, y, 0))) == 1
  {
    NumbersKey((x, y + 1, 0));
    NumbersKey((x, y, 0));
  }

  /** Such manifests: where 2.0.0 runs, one of 2.1.0 that asks for 2.0.1, and so on. */
  lemma FoldingExample(x: nat, y: nat, z: nat, fmt: int -> string)
    requires x <= MAX_INT && y < MAX_INT && 0 < z <= MAX_INT
    ensures var o, running := ExampleOffer(x, y, z), Numbers((x, y, 0));
      var altered := o.(manifest := Folded(o.manifest));
      && CleanManifest(o.manifest) && !Acceptable(o, running, "stable", {"k"})
      && ReleaseInput(altered.manifest, fmt) == ReleaseInput(o.manifest, fmt)
      && Acceptable(altered, running, "stable", {"k"})
  {
    ExampleIsAuthentic(x, y, z);
    ExampleIsNewer(x, y);
    FoldingIsAccepted(ExampleOffer(x, y, z), (x, y, z), (x, y, 0), "stable", {"k"}, fmt);
  }

  lemma NumbersNoBreak(core: (nat, nat, nat))
    ensures Free(Numbers(core), '\n') && Numbers(core) != ""
  {
    NumbersClean(core);
    assert forall c :: c in Numbers(core) ==> c != '\n';
  }

  // ---------------------------------------------------------------------------
  // Whole runs of updates
  // ---------------------------------------------------------------------------

  /** The manifests accepted along a run of offers, each installed before the next is judged. */
  function Taken(current: string, offers: seq<Offer>, accepts: (Offer, string) -> bool): (taken: seq<Manifest>)
    decreases |offers|
  {
    if offers == [] then []
    else
      var before := Taken(current, offers[..|offers| - 1], accepts);
      var o := offers[|offers| - 1];
      if accepts(o, Running(current, before)) then before + [o.manifest] else before
  }

  function Running(current: string, taken: seq<Manifest>): string {
    if taken == [] then current else taken[|taken| - 1].version
  }

  /** A rule that accepts only what is newer than what runs, seen through `key`. */
  ghost predicate OnlyNewer(accepts: (Offer, string) -> bool, key: string -> Key) {
    forall o, current :: accepts(o, current) ==> Older(key(current), key(o.manifest.version))
  }

  /** What the order sees of the version a run begins with and of those accepted after it. */
  function Line(current: string, taken: seq<Manifest>, key: string -> Key): seq<Key> {
    [key(current)] + seq(|taken|, i requires 0 <= i < |taken| => key(taken[i].version))
  }

  /** Each is older than all that follow. */
  ghost predicate Ascending(line: seq<Key>) {
    forall i, j :: 0 <= i < j < |line| ==> Older(line[i], line[j])
  }

  lemma OneMoreAscends(line: seq<Key>, k: Key)
    requires Ascending(line) && line != [] && Older(line[|line| - 1], k)
    ensures Ascending(line + [k])
  {
    forall i | 0 <= i < |line|
      ensures Older(line[i], k)
    {
      if i < |line| - 1 {
        OlderTransitive(line[i], line[|line| - 1], k);
      }
    }
  }

  lemma LineGrows(current: string, taken: seq<Manifest>, m: Manifest, key: string -> Key)
    ensures Line(current, taken + [m], key) == Line(current, taken, key) + [key(m.version)]
    ensures Line(current, taken, key)[|taken|] == key(Running(current, taken))
  {
  }

  lemma {:induction false} TakenAscends(current: string, offers: seq<Offer>, accepts: (Offer, string) -> bool,
                                        key: string -> Key)
    requires OnlyNewer(accepts, key)
    ensures Ascending(Line(current, Taken(current, offers, accepts), key))
    decreases |offers|
  {
    if offers != [] {
      var short, o := offers[..|offers| - 1], offers[|offers| - 1];
      TakenAscends(current, short, accepts, key);
      var before := Taken(current, short, accepts);
      if accepts(o, Running(current, before)) {
        LineGrows(current, before, o.manifest, key);
        OneMoreAscends(Line(current, before, key), key(o.manifest.version));
      }
    }
  }

  lemma AscendingIsDistinct(current: string, taken: seq<Manifest>, key: string -> Key)
    requires Ascending(Line(current, taken, key))
    ensures forall i, j :: 0 <= i < j < |taken| ==> taken[i] != taken[j]
  {
    var line := Line(current, taken, key);
    forall i, j | 0 <= i < j < |taken|
      ensures taken[i] != taken[j]
    {
      OlderIrreflexive(line[i + 1]);
      assert Older(line[i + 1], line[j + 1]);
    }
  }

  /** What a verifier on this channel, trusting these keys, accepts over what runs. */
  function Accepting(channel: string, keys: set<string>): (Offer, string) -> bool {
    (o, current) => Acceptable(o, current, channel, keys)
  }

  lemma AcceptingOnlyNewer(channel: string, keys: set<string>)
    ensures OnlyNewer(Accepting(channel, keys), KeyOf)
  {
    forall o, current | Accepting(channel, keys)(o, current)
      ensures Older(KeyOf(current), KeyOf(o.manifest.version))
    {
      OlderTotal(KeyOf(current), KeyOf(o.manifest.version));
    }
  }

  /**
   * Along any run of offers, an accepted version is newer than the one the run began with
   * and than every version accepted before it: no version, and no other spelling of it,
   * comes back, and no manifest is accepted twice.
   */
  lemma AcceptedStrictlyIncreases(current: string, offers: seq<Offer>, channel: string, keys: set<string>)
    ensures var taken := Taken(current, offers, Accepting(channel, keys));
      Ascending(Line(current, taken, KeyOf)) && forall i, j :: 0 <= i < j < |taken| ==> taken[i] != taken[j]
  {
    AcceptingOnlyNewer(channel, keys);
    TakenAscends(current, offers, Accepting(channel, keys), KeyOf);
    AscendingIsDistinct(current, Taken(current, offers, Accepting(channel, keys)), KeyOf);
  }
}
