/**
 * The four byte sequences NetLink signs: power commands, remote-desktop grants,
 * agent requests and release manifests.
 *
 * A timestamp is an instant in nanoseconds; how it is rendered is a parameter `fmt`,
 * of which only two things are used (GoodFormat): it holds no line break, and it prints
 * the millisecond and nothing finer. The body digest of an agent request is a parameter
 * in the same way.
 */
module SigningInputs {
  import opened Clock
  import opened Text

  const POWER_DOMAIN := "netlink.power.v1"
  const REMOTE_DOMAIN := "netlink.remote.v1"
  const RELEASE_DOMAIN := "netlink.release.v1"
  const AGENT_DOMAIN := "netlink.agent.v1"

  datatype Command = Command(
    id: string, action: string, deviceId: string, spaceId: string,
    issuedAt: int, expiresAt: int, nonce: string, requestedBy: string)

  datatype Grant = Grant(
    sessionId: string, spaceId: string, agentId: string, mode: string,
    requestedBy: string, issuedAt: int, expiresAt: int, nonce: string)

  datatype AgentRequest = AgentRequest(
    verb: string, path: string, timestamp: string, nonce: string, body: seq<int>)

  datatype Artifact = Artifact(component: string, platform: string, url: string, sha256: string, bytes: int)

  datatype Manifest = Manifest(
    version: string, channel: string, releasedAt: int, expiresAt: int,
    minimum: string, artifacts: seq<Artifact>)

  /** Instants print alike exactly when they fall in one millisecond, and never with a line break. */
  ghost predicate GoodFormat(fmt: int -> string) {
    && (forall t :: Free(fmt(t), '\n'))
    && (forall t, u :: fmt(t) == fmt(u) <==> Ms(t) == Ms(u))
  }

  ghost predicate GoodDigest(digest: seq<int> -> string) {
    && (forall b :: Free(digest(b), '\n'))
    && (forall b, c :: digest(b) == digest(c) ==> b == c)
  }

  // ---------------------------------------------------------------------------
  // What each input is: its lines
  // ---------------------------------------------------------------------------

  function PowerLines(c: Command, fmt: int -> string): seq<string> {
    [POWER_DOMAIN, c.id, c.action, c.deviceId, c.spaceId,
     fmt(c.issuedAt), fmt(c.expiresAt), c.nonce, c.requestedBy]
  }

  function PowerInput(c: Command, fmt: int -> string): string {
    Join(PowerLines(c, fmt), '\n')
  }

  function GrantLines(g: Grant, fmt: int -> string): seq<string> {
    [REMOTE_DOMAIN, g.sessionId, g.spaceId, g.agentId, g.mode, g.requestedBy,
     fmt(g.issuedAt), fmt(g.expiresAt), g.nonce]
  }

  function GrantInput(g: Grant, fmt: int -> string): string {
    Join(GrantLines(g, fmt), '\n')
  }

  function UpperChar(c: char): char {
    if 'a' <= c <= 'z' then (c as int - 'a' as int + 'A' as int) as char else c
  }

  function Upper(s: string): string {
    seq(|s|, i requires 0 <= i < |s| => UpperChar(s[i]))
  }

  function LowerChar(c: char): char {
    if 'A' <= c <= 'Z' then (c as int - 'A' as int + 'a' as int) as char else c
  }

  function Lower(s: string): string {
    seq(|s|, i requires 0 <= i < |s| => LowerChar(s[i]))
  }

  function AgentLines(r: AgentRequest, digest: seq<int> -> string): seq<string> {
    [AGENT_DOMAIN, Upper(r.verb), r.path, r.timestamp, r.nonce, digest(r.body)]
  }

  function AgentInput(r: AgentRequest, digest: seq<int> -> string): string {
    Join(AgentLines(r, digest), '\n')
  }

  function SignedDecimal(n: int): string {
    if n < 0 then "-" + Decimal(-n) else Decimal(n)
  }

  function ArtifactLines(a: Artifact): seq<string> {
    [a.component, a.platform, a.url, Lower(a.sha256), SignedDecimal(a.bytes)]
  }

  function AllArtifactLines(arts: seq<Artifact>): (lines: seq<string>)
    ensures |lines| == 5 * |arts|
  {
    if arts == [] then [] else AllArtifactLines(arts[..|arts| - 1]) + ArtifactLines(arts[|arts| - 1])
  }

  function ReleaseLines(m: Manifest, fmt: int -> string): (lines: seq<string>)
    ensures |lines| == 6 + 5 * |m.artifacts|
  {
    [RELEASE_DOMAIN, m.version, m.channel, fmt(m.releasedAt), fmt(m.expiresAt), m.minimum]
      + AllArtifactLines(m.artifacts)
  }

  function ReleaseInput(m: Manifest, fmt: int -> string): string {
    Join(ReleaseLines(m, fmt), '\n')
  }

  // ---------------------------------------------------------------------------
  // The builders
  // ---------------------------------------------------------------------------

  lemma {:induction false} JoinSnoc(parts: seq<string>, last: string, sep: char)
    requires |parts| > 0
    ensures Join(parts + [last], sep) == Join(parts, sep) + [sep] + last
  {
    var all := parts + [last];
    if |parts| == 1 {
      assert all[1..] == [last];
    } else {
      assert all[1..] == parts[1..] + [last];
      JoinSnoc(parts[1..], last, sep);
    }
  }

  /** Writes lines one after another, each behind a line break. */
  method WriteLines(start: string, ghost before: seq<string>, lines: seq<string>) returns (b: string)
    requires |before| > 0 && start == Join(before, '\n')
    ensures b == Join(before + lines, '\n')
  {
    b := start;
    assert before + lines[..0] == before;
    for i := 0 to |lines|
      invariant b == Join(before + lines[..i], '\n')
    {
      JoinSnoc(before + lines[..i], lines[i], '\n');
      assert before + lines[..i + 1] == (before + lines[..i]) + [lines[i]];
      b := b + "\n";
      b := b + lines[i];
    }
    assert lines[..|lines|] == lines;
  }

  /** Five lines on each artifact in turn. */
  ghost function Listed(arts: seq<Artifact>): seq<string> {
    if arts == [] then []
    else
      var a := arts[0];
      [a.component, a.platform, a.url, Lower(a.sha256), SignedDecimal(a.bytes)] + Listed(arts[1..])
  }

  lemma {:induction false} AllAreListed(arts: seq<Artifact>)
    ensures AllArtifactLines(arts) == Listed(arts)
  {
    if arts != [] {
      FirstArtifactLines(arts);
      AllAreListed(arts[1..]);
    }
  }

  method BuildPowerInput(c: Command, fmt: int -> string) returns (b: string)
    ensures b == PowerInput(c, fmt)
    ensures b == Join(["netlink.power.v1", c.id, c.action, c.deviceId, c.spaceId,
                       fmt(c.issuedAt), fmt(c.expiresAt), c.nonce, c.requestedBy], '\n')
  {
    b := WriteLines(POWER_DOMAIN, [POWER_DOMAIN],
      [c.id, c.action, c.deviceId, c.spaceId, fmt(c.issuedAt), fmt(c.expiresAt), c.nonce, c.requestedBy]);
    assert PowerLines(c, fmt) == [POWER_DOMAIN] +
      [c.id, c.action, c.deviceId, c.spaceId, fmt(c.issuedAt), fmt(c.expiresAt), c.nonce, c.requestedBy];
  }

  method BuildGrantInput(g: Grant, fmt: int -> string) returns (b: string)
    ensures b == GrantInput(g, fmt)
    ensures b == Join(["netlink.remote.v1", g.sessionId, g.spaceId, g.agentId, g.mode, g.requestedBy,
                       fmt(g.issuedAt), fmt(g.expiresAt), g.nonce], '\n')
  {
    b := WriteLines(REMOTE_DOMAIN, [REMOTE_DOMAIN],
      [g.sessionId, g.spaceId, g.agentId, g.mode, g.requestedBy, fmt(g.issuedAt), fmt(g.expiresAt), g.nonce]);
    assert GrantLines(g, fmt) == [REMOTE_DOMAIN] +
      [g.sessionId, g.spaceId, g.agentId, g.mode, g.requestedBy, fmt(g.issuedAt), fmt(g.expiresAt), g.nonce];
  }

  method BuildReleaseInput(m: Manifest, fmt: int -> string) returns (b: string)
    ensures b == ReleaseInput(m, fmt)
    ensures b == Join(["netlink.release.v1", m.version, m.channel, fmt(m.releasedAt), fmt(m.expiresAt), m.minimum]
                        + Listed(m.artifacts), '\n')
  {
    AllAreListed(m.artifacts);
    b := WriteRelease(m, fmt);
  }

  method WriteRelease(m: Manifest, fmt: int -> string) returns (b: string)
    ensures b == ReleaseInput(m, fmt)
  {
    ghost var head := [RELEASE_DOMAIN, m.version, m.channel, fmt(m.releasedAt), fmt(m.expiresAt), m.minimum];
    b := WriteLines(RELEASE_DOMAIN, [RELEASE_DOMAIN],
      [m.version, m.channel, fmt(m.releasedAt), fmt(m.expiresAt), m.minimum]);
    assert head == [RELEASE_DOMAIN] + [m.version, m.channel, fmt(m.releasedAt), fmt(m.expiresAt), m.minimum];
    assert head + AllArtifactLines(m.artifacts[..0]) == head;
    for i := 0 to |m.artifacts|
      invariant b == Join(head + AllArtifactLines(m.artifacts[..i]), '\n')
    {
      ghost var done := m.artifacts[..i];
      ghost var next := m.artifacts[..i + 1];
      assert next[..|next| - 1] == done && next[|next| - 1] == m.artifacts[i];
      b := WriteLines(b, head + AllArtifactLines(done), ArtifactLines(m.artifacts[i]));
      assert head + AllArtifactLines(next)
          == (head + AllArtifactLines(done)) + ArtifactLines(m.artifacts[i]);
    }
    assert m.artifacts[..|m.artifacts|] == m.artifacts;
  }

  // ---------------------------------------------------------------------------
  // An input determines its fields
  // ---------------------------------------------------------------------------

  ghost predicate CleanCommand(c: Command) {
    && Free(c.id, '\n') && Free(c.action, '\n') && Free(c.deviceId, '\n')
    && Free(c.spaceId, '\n') && Free(c.nonce, '\n') && Free(c.requestedBy, '\n')
  }

  ghost predicate CleanGrant(g: Grant) {
    && Free(g.sessionId, '\n') && Free(g.spaceId, '\n') && Free(g.agentId, '\n')
    && Free(g.mode, '\n') && Free(g.requestedBy, '\n') && Free(g.nonce, '\n')
  }

  ghost predicate CleanRequest(r: AgentRequest) {
    Free(r.verb, '\n') && Free(r.path, '\n') && Free(r.timestamp, '\n') && Free(r.nonce, '\n')
  }

  ghost predicate CleanArtifact(a: Artifact) {
    Free(a.component, '\n') && Free(a.platform, '\n') && Free(a.url, '\n') && Free(a.sha256, '\n')
  }

  ghost predicate CleanManifest(m: Manifest) {
    && Free(m.version, '\n') && Free(m.channel, '\n') && Free(m.minimum, '\n')
    && forall i :: 0 <= i < |m.artifacts| ==> CleanArtifact(m.artifacts[i])
  }

  /** The same in everything that is signed: alike but for fractions of a millisecond. */
  predicate SameCommand(a: Command, b: Command) {
    && a.(issuedAt := b.issuedAt, expiresAt := b.expiresAt) == b
    && Ms(a.issuedAt) == Ms(b.issuedAt) && Ms(a.expiresAt) == Ms(b.expiresAt)
  }

  predicate SameGrant(a: Grant, b: Grant) {
    && a.(issuedAt := b.issuedAt, expiresAt := b.expiresAt) == b
    && Ms(a.issuedAt) == Ms(b.issuedAt) && Ms(a.expiresAt) == Ms(b.expiresAt)
  }

  /**
   * What the control plane signed is clean; what is presented with the signature can be
   * anything at all. The inputs are equal exactly when the commands are the same to the
   * millisecond.
   */
  lemma PowerInputDeterminesCommand(presented: Command, signed: Command, fmt: int -> string)
    requires GoodFormat(fmt) && CleanCommand(signed)
    ensures PowerInput(presented, fmt) == PowerInput(signed, fmt) <==> SameCommand(presented, signed)
  {
    var p, s := PowerLines(presented, fmt), PowerLines(signed, fmt);
    if PowerInput(presented, fmt) == PowerInput(signed, fmt) {
      JoinInjective(p, s, '\n');
      assert p[1] == s[1] && p[2] == s[2] && p[3] == s[3] && p[4] == s[4];
      assert p[5] == s[5] && p[6] == s[6] && p[7] == s[7] && p[8] == s[8];
    }
    if SameCommand(presented, signed) {
      assert p == s;
    }
  }

  lemma GrantInputDeterminesGrant(presented: Grant, signed: Grant, fmt: int -> string)
    requires GoodFormat(fmt) && CleanGrant(signed)
    ensures GrantInput(presented, fmt) == GrantInput(signed, fmt) <==> SameGrant(presented, signed)
  {
    var p, s := GrantLines(presented, fmt), GrantLines(signed, fmt);
    if GrantInput(presented, fmt) == GrantInput(signed, fmt) {
      JoinInjective(p, s, '\n');
      assert p[1] == s[1] && p[2] == s[2] && p[3] == s[3] && p[4] == s[4];
      assert p[5] == s[5] && p[6] == s[6] && p[7] == s[7] && p[8] == s[8];
    }
    if SameGrant(presented, signed) {
      assert p == s;
    }
  }

  lemma CaseKeepsLineBreaks(s: string)
    ensures Free(Upper(s), '\n') <==> Free(s, '\n')
    ensures Free(Lower(s), '\n') <==> Free(s, '\n')
  {
    forall i | 0 <= i < |s|
      ensures Upper(s)[i] == '\n' <==> s[i] == '\n'
      ensures Lower(s)[i] == '\n' <==> s[i] == '\n'
    {
    }
    if '\n' in s {
      var i :| 0 <= i < |s| && s[i] == '\n';
      assert Upper(s)[i] == '\n' && Lower(s)[i] == '\n';
    }
  }

  /** The method is signed in upper case, so it is determined up to case. */
  lemma AgentInputDeterminesRequest(presented: AgentRequest, signed: AgentRequest, digest: seq<int> -> string)
    requires GoodDigest(digest) && CleanRequest(signed)
    requires AgentInput(presented, digest) == AgentInput(signed, digest)
    ensures Upper(presented.verb) == Upper(signed.verb)
    ensures presented.(verb := signed.verb) == signed
  {
    CaseKeepsLineBreaks(signed.verb);
    var p, s := AgentLines(presented, digest), AgentLines(signed, digest);
    JoinInjective(p, s, '\n');
    assert p[1] == s[1] && p[2] == s[2] && p[3] == s[3] && p[4] == s[4] && p[5] == s[5];
  }

  lemma SignLeads(n: int)
    ensures |SignedDecimal(n)| > 0 && (SignedDecimal(n)[0] == '-' <==> n < 0)
  {
    if n >= 0 {
      assert IsDigit(Decimal(n)[0]);
    }
  }

  lemma SignedDecimalInjective(m: int, n: int)
    requires SignedDecimal(m) == SignedDecimal(n)
    ensures m == n
  {
    SignLeads(m);
    SignLeads(n);
    if m < 0 {
      assert SignedDecimal(m)[1..] == Decimal(-m) && SignedDecimal(n)[1..] == Decimal(-n);
    }
  }

  lemma {:induction false} ArtifactLinesFree(arts: seq<Artifact>)
    requires forall i :: 0 <= i < |arts| ==> CleanArtifact(arts[i])
    ensures AllFree(AllArtifactLines(arts), '\n')
  {
    if arts != [] {
      var a := arts[|arts| - 1];
      ArtifactLinesFree(arts[..|arts| - 1]);
      CaseKeepsLineBreaks(a.sha256);
      assert Free(SignedDecimal(a.bytes), '\n') by {
        assert AllDigits(Decimal(if a.bytes < 0 then -a.bytes else a.bytes));
      }
    }
  }

  ghost predicate SameArtifacts(a: seq<Artifact>, b: seq<Artifact>) {
    && |a| == |b|
    && forall i :: 0 <= i < |a| ==>
      Lower(a[i].sha256) == Lower(b[i].sha256) && a[i].(sha256 := b[i].sha256) == b[i]
  }

  lemma {:induction false} ArtifactLinesDetermine(a: seq<Artifact>, b: seq<Artifact>)
    requires AllArtifactLines(a) == AllArtifactLines(b)
    ensures SameArtifacts(a, b)
  {
    if a != [] && b != [] {
      var n, m := |a| - 1, |b| - 1;
      LastLines(a);
      LastLines(b);
      ArtifactLinesDetermine(a[..n], b[..m]);
      OneArtifactDetermined(a[n], b[m]);
      OneMoreArtifact(a, b, n);
    }
  }

  lemma OneMoreArtifact(a: seq<Artifact>, b: seq<Artifact>, n: nat)
    requires |a| == |b| == n + 1 && SameArtifacts(a[..n], b[..n])
    requires Lower(a[n].sha256) == Lower(b[n].sha256) && a[n].(sha256 := b[n].sha256) == b[n]
    ensures SameArtifacts(a, b)
  {
    forall i | 0 <= i < |a|
      ensures Lower(a[i].sha256) == Lower(b[i].sha256) && a[i].(sha256 := b[i].sha256) == b[i]
    {
      if i < n {
        assert a[..n][i] == a[i] && b[..n][i] == b[i];
      }
    }
  }

  lemma LastLines(a: seq<Artifact>)
    requires a != []
    ensures |AllArtifactLines(a)| == 5 * |a|
    ensures AllArtifactLines(a)[..5 * (|a| - 1)] == AllArtifactLines(a[..|a| - 1])
    ensures AllArtifactLines(a)[5 * (|a| - 1)..] == ArtifactLines(a[|a| - 1])
  {
  }

  lemma OneArtifactDetermined(a: Artifact, b: Artifact)
    requires ArtifactLines(a) == ArtifactLines(b)
    ensures Lower(a.sha256) == Lower(b.sha256) && a.(sha256 := b.sha256) == b
  {
    var x, y := ArtifactLines(a), ArtifactLines(b);
    assert x[0] == y[0] && x[1] == y[1] && x[2] == y[2] && x[3] == y[3] && x[4] == y[4];
    SignedDecimalInjective(a.bytes, b.bytes);
  }

  /** The same in everything that is signed, hash case and fractions of a millisecond aside. */
  ghost predicate SameManifest(a: Manifest, b: Manifest) {
    && SameArtifacts(a.artifacts, b.artifacts)
    && a.(artifacts := b.artifacts, releasedAt := b.releasedAt, expiresAt := b.expiresAt) == b
    && Ms(a.releasedAt) == Ms(b.releasedAt) && Ms(a.expiresAt) == Ms(b.expiresAt)
  }

  lemma LinesDetermineManifest(presented: Manifest, signed: Manifest, fmt: int -> string)
    requires GoodFormat(fmt) && ReleaseLines(presented, fmt) == ReleaseLines(signed, fmt)
    ensures SameManifest(presented, signed)
  {
    var p, s := ReleaseLines(presented, fmt), ReleaseLines(signed, fmt);
    assert p[1] == s[1] && p[2] == s[2] && p[3] == s[3] && p[4] == s[4] && p[5] == s[5];
    assert p[6..] == AllArtifactLines(presented.artifacts) && s[6..] == AllArtifactLines(signed.artifacts);
    ArtifactLinesDetermine(presented.artifacts, signed.artifacts);
  }

  lemma SameManifestIsClean(presented: Manifest, signed: Manifest)
    requires SameManifest(presented, signed) && CleanManifest(signed)
    ensures CleanManifest(presented)
  {
    forall i | 0 <= i < |presented.artifacts|
      ensures CleanArtifact(presented.artifacts[i])
    {
      var a, b := presented.artifacts[i], signed.artifacts[i];
      assert a.(sha256 := b.sha256) == b && CleanArtifact(b);
      CaseKeepsLineBreaks(a.sha256);
      CaseKeepsLineBreaks(b.sha256);
    }
  }

  /**
   * What a clean manifest's input leaves open is only how many artifacts its lines are
   * read as. A manifest presented with that input is the one signed exactly when it has
   * as many, and exactly when its fields are clean too.
   */
  lemma ReleaseInputDeterminesManifestIff(presented: Manifest, signed: Manifest, fmt: int -> string)
    requires GoodFormat(fmt) && CleanManifest(signed)
    requires ReleaseInput(presented, fmt) == ReleaseInput(signed, fmt)
    ensures SameManifest(presented, signed) <==> |presented.artifacts| == |signed.artifacts|
    ensures SameManifest(presented, signed) <==> CleanManifest(presented)
  {
    var p, s := ReleaseLines(presented, fmt), ReleaseLines(signed, fmt);
    ArtifactLinesFree(signed.artifacts);
    if |presented.artifacts| == |signed.artifacts| {
      JoinInjective(p, s, '\n');
      LinesDetermineManifest(presented, signed, fmt);
    }
    if CleanManifest(presented) {
      ArtifactLinesFree(presented.artifacts);
      JoinInjectiveAnyLength(p, s, '\n');
      LinesDetermineManifest(presented, signed, fmt);
    }
    if SameManifest(presented, signed) {
      SameManifestIsClean(presented, signed);
    }
  }

  /** The same manifest with its first artifact written into the field before it. */
  function Folded(m: Manifest): Manifest
    requires m.artifacts != []
  {
    m.(minimum := Join([m.minimum] + ArtifactLines(m.artifacts[0]), '\n'), artifacts := m.artifacts[1..])
  }

  lemma {:induction false} FirstArtifactLines(arts: seq<Artifact>)
    requires arts != []
    ensures AllArtifactLines(arts) == ArtifactLines(arts[0]) + AllArtifactLines(arts[1..])
  {
    var n := |arts| - 1;
    if n > 0 {
      FirstArtifactLines(arts[..n]);
      assert arts[..n][1..] == arts[1..][..n - 1];
      assert arts[1..][n - 1] == arts[n];
    }
  }

  /**
   * Folding an artifact away changes the manifest and not its input, however clean the
   * manifest was. (With two artifacts or more, one is left to be served.)
   */
  lemma FoldingKeepsInput(m: Manifest, fmt: int -> string)
    requires m.artifacts != []
    ensures Folded(m) != m && ReleaseInput(Folded(m), fmt) == ReleaseInput(m, fmt)
  {
    var head := [RELEASE_DOMAIN, m.version, m.channel, fmt(m.releasedAt), fmt(m.expiresAt)];
    var mid, tail := [m.minimum] + ArtifactLines(m.artifacts[0]), AllArtifactLines(m.artifacts[1..]);
    FoldableLines(m, fmt, head, mid, tail);
    JoinNested(head, mid, tail, '\n');
  }

  lemma FoldableLines(m: Manifest, fmt: int -> string, head: seq<string>, mid: seq<string>, tail: seq<string>)
    requires m.artifacts != []
    requires head == [RELEASE_DOMAIN, m.version, m.channel, fmt(m.releasedAt), fmt(m.expiresAt)]
    requires mid == [m.minimum] + ArtifactLines(m.artifacts[0]) && tail == AllArtifactLines(m.artifacts[1..])
    ensures ReleaseLines(m, fmt) == head + mid + tail
    ensures ReleaseLines(Folded(m), fmt) == head + [Join(mid, '\n')] + tail
  {
    FirstArtifactLines(m.artifacts);
    assert head + [m.minimum] + (ArtifactLines(m.artifacts[0]) + tail) == head + mid + tail;
  }

  /** Joining some of the parts beforehand changes nothing. */
  lemma JoinNested(head: seq<string>, mid: seq<string>, tail: seq<string>, sep: char)
    requires head != [] && mid != []
    ensures Join(head + mid + tail, sep) == Join(head + [Join(mid, sep)] + tail, sep)
  {
    var one := [Join(mid, sep)];
    if tail == [] {
      assert head + mid + tail == head + mid && head + one + tail == head + one;
      JoinConcat(head, mid, sep);
      JoinConcat(head, one, sep);
    } else {
      JoinConcat(head + mid, tail, sep);
      JoinConcat(head, mid, sep);
      JoinConcat(head + one, tail, sep);
      JoinConcat(head, one, sep);
    }
  }

  // ---------------------------------------------------------------------------
  // Inputs of different kinds never coincide
  // ---------------------------------------------------------------------------

  lemma FirstLineDecides(a: seq<string>, b: seq<string>)
    requires |a| > 1 && |b| > 1 && Free(a[0], '\n') && Free(b[0], '\n') && a[0] != b[0]
    ensures Join(a, '\n') != Join(b, '\n')
  {
    FindOnPrefix(a[0], Join(a[1..], '\n'), '\n');
    FindOnPrefix(b[0], Join(b[1..], '\n'), '\n');
    var s, t := Join(a, '\n'), Join(b, '\n');
    assert s[..|a[0]|] == a[0] && t[..|b[0]|] == b[0];
  }

  /** Domain separation, whatever the fields hold. */
  lemma DomainsNeverMeet(c: Command, g: Grant, r: AgentRequest, m: Manifest,
                         fmt: int -> string, digest: seq<int> -> string)
    ensures PowerInput(c, fmt) != GrantInput(g, fmt)
    ensures PowerInput(c, fmt) != AgentInput(r, digest)
    ensures PowerInput(c, fmt) != ReleaseInput(m, fmt)
    ensures GrantInput(g, fmt) != AgentInput(r, digest)
    ensures GrantInput(g, fmt) != ReleaseInput(m, fmt)
    ensures AgentInput(r, digest) != ReleaseInput(m, fmt)
  {
    var lines := [PowerLines(c, fmt), GrantLines(g, fmt), AgentLines(r, digest), ReleaseLines(m, fmt)];
    assert |POWER_DOMAIN| == 16 && |REMOTE_DOMAIN| == 17 && |RELEASE_DOMAIN| == 18 && |AGENT_DOMAIN| == 16;
    assert POWER_DOMAIN[8] == 'p' && AGENT_DOMAIN[8] == 'a';
    FirstLineDecides(lines[0], lines[1]);
    FirstLineDecides(lines[0], lines[2]);
    FirstLineDecides(lines[0], lines[3]);
    FirstLineDecides(lines[1], lines[2]);
    FirstLineDecides(lines[1], lines[3]);
    FirstLineDecides(lines[2], lines[3]);
  }
}
