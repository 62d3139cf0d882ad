/**
 * The folders an owner has approved. Every request names an approved folder and a
 * relative path, is resolved to a place on disk, and only then acts there. Nothing else
 * touches the disk between two system calls of one request.
 */
module Vault {
  import opened Text
  import opened Paths
  import opened Disk

  /** An approved folder: its real place on disk. */
  datatype Root = Root(path: Location, readOnly: bool)

  datatype State = State(vol: Volume, roots: map<string, Root>)
  {
    const fs: Fs := vol.fs
  }

  datatype Refusal = NotApproved | OutsideRoot | Io | ReadOnly | NotAFolder | NotAFile

  datatype Resolved = Ok(path: Location, root: Root) | Refused(reason: Refusal)

  // ---------------------------------------------------------------------------
  // Resolving
  // ---------------------------------------------------------------------------

  predicate IsLetter(c: char) {
    'a' <= c <= 'z' || 'A' <= c <= 'Z'
  }

  predicate HasDriveLetter(path: string) {
    |path| >= 2 && path[1] == ':' && IsLetter(path[0])
  }

  predicate IsNetworkPath(path: string) {
    |path| >= 2 && ((path[0] == '\\' && path[1] == '\\') || (path[0] == '/' && path[1] == '/'))
  }

  function Slashed(path: string): (s: string)
    ensures |s| == |path|
    ensures forall i :: 0 <= i < |s| ==> s[i] == if path[i] == '\\' then '/' else path[i]
  {
    seq(|path|, i requires 0 <= i < |path| => if path[i] == '\\' then '/' else path[i])
  }

  predicate Nameable(relative: string) {
    && !Rooted(relative) && !HasDriveLetter(relative) && !IsNetworkPath(relative)
    && '\0' !in relative && ':' !in relative
  }

  /** Rooted, behind a drive letter or on a network share, or with a character no name may hold. */
  ghost predicate Absolute(relative: string) {
    || (|relative| >= 1 && relative[0] == '/')
    || (|relative| >= 2 && relative[0] == '\\' && relative[1] == '\\')
    || exists i :: 0 <= i < |relative| && (relative[i] == ':' || relative[i] == '\0')
  }

  function Candidate(root: Location, relative: string): string {
    var cleaned := Clean(Slashed(relative));
    JoinPath(Render(root), if cleaned == "." then "" else cleaned)
  }

  predicate Inside(root: Location, loc: Location) {
    WithinRoot(Render(root), Render(loc))
  }

  /** Whether the nearest part of a missing path that exists lies in the root. */
  predicate AncestorInside(fs: Fs, root: Location, current: Location)
    decreases |current|
  {
    var p := Walk(fs, current);
    if p.Found? then Inside(root, p.loc)
    else
      && p.NotExist() && current != []
      && (Inside(root, Parent(current)) || Parent(current) == root)
      && AncestorInside(fs, root, Parent(current))
  }

  function Resolve(s: State, id: string, relative: string): Resolved {
    if id !in s.roots then Refused(NotApproved)
    else
      var root := s.roots[id];
      if !Nameable(relative) then Refused(OutsideRoot)
      else
        var candidate := Candidate(root.path, relative);
        if !WithinRoot(Render(root.path), candidate) then Refused(OutsideRoot)
        else
          var loc := Parse(candidate);
          var p := Walk(s.fs, loc);
          if p.Found? then if Inside(root.path, p.loc) then Ok(p.loc, root) else Refused(OutsideRoot)
          else if p.NotExist() then
            if AncestorInside(s.fs, root.path, Parent(loc)) then Ok(loc, root) else Refused(OutsideRoot)
          else Refused(Io)
  }

  // ---------------------------------------------------------------------------
  // The requests
  // ---------------------------------------------------------------------------

  /** A change of names, on the volume. */
  function OnNames(v: Volume, d: Done): Wrote {
    Wrote(v.(fs := d.fs), d.ok)
  }

  /** Writing makes the folders on the way first. */
  function Put(v: Volume, path: Location, offset: int, data: seq<int>): Wrote {
    var made := MkdirAll(v.fs, Parent(path));
    if made.ok then WriteFile(v.(fs := made.fs), path, offset, data) else OnNames(v, made)
  }

  datatype Request =
    | Approve(id: string, absolute: string, readOnly: bool)
    | Revoke(id: string)
    | Write(id: string, relative: string, offset: int, data: seq<int>)
    | MakeDir(id: string, relative: string)
    | Rename(id: string, from: string, to: string)
    | Delete(id: string, relative: string)

  predicate Writable(r: Resolved) {
    r.Ok? && !r.root.readOnly
  }

  /** An approved folder itself is not removed. */
  predicate Removable(r: Resolved) {
    Writable(r) && r.path != r.root.path
  }

  /** What a request that changes the disk does there. */
  function Acted(s: State, q: Request): Wrote {
    match q
    case Write(id, relative, offset, data) => Written(s.vol, Resolve(s, id, relative), offset, data)
    case MakeDir(id, relative) => Made(s.vol, Resolve(s, id, relative))
    case Rename(id, from, to) => Renamed(s.vol, Resolve(s, id, from), Resolve(s, id, to))
    case Delete(id, relative) => Deleted(s.vol, Resolve(s, id, relative))
    case Approve(_, _, _) => Wrote(s.vol, true)
    case Revoke(_) => Wrote(s.vol, true)
  }

  function Written(v: Volume, r: Resolved, offset: int, data: seq<int>): Wrote {
    if Writable(r) then Put(v, r.path, offset, data) else Wrote(v, false)
  }

  function Made(v: Volume, r: Resolved): Wrote {
    if Writable(r) then OnNames(v, MkdirAll(v.fs, r.path)) else Wrote(v, false)
  }

  function Renamed(v: Volume, r: Resolved, t: Resolved): Wrote {
    if Writable(r) && t.Ok? then OnNames(v, Disk.Rename(v.fs, r.path, t.path)) else Wrote(v, false)
  }

  function Deleted(v: Volume, r: Resolved): Wrote {
    if Removable(r) then OnNames(v, Remove(v.fs, r.path)) else Wrote(v, false)
  }

  function Approved(s: State, id: string, absolute: string, readOnly: bool): map<string, Root> {
    var p := Walk(s.fs, Parse(absolute));
    if p.Found? && p.loc in s.fs && s.fs[p.loc].Dir? then s.roots[id := Root(p.loc, readOnly)] else s.roots
  }

  function Apply(s: State, q: Request): State {
    match q
    case Approve(id, absolute, readOnly) => s.(roots := Approved(s, id, absolute, readOnly))
    case Revoke(id) => s.(roots := s.roots - {id})
    case _ => s.(vol := Acted(s, q).vol)
  }

  ghost predicate Valid(s: State) {
    Sound(s.vol) && forall id :: id in s.roots ==> Canonical(s.roots[id].path)
  }

  /** The names in a folder that a listing shows. */
  function Shown(fs: Fs, root: Location, folder: Location): set<string> {
    set l | l in fs && l != [] && Parent(l) == folder && ShowsEntry(fs, root, l) :: l[|l| - 1]
  }

  /** A link is shown only when it leads to a place inside the root. */
  predicate ShowsEntry(fs: Fs, root: Location, l: Location)
    requires l in fs
  {
    !fs[l].Link? || (var p := Walk(fs, l); p.Found? && Inside(root, p.loc))
  }

  class FolderVault {
    var roots: map<string, Root>
    var vol: Volume

    function Contents(): State
      reads this
    {
      State(vol, roots)
    }

    constructor (vol: Volume)
      ensures Contents() == State(vol, map[])
    {
      this.vol, roots := vol, map[];
    }

    method Approve(id: string, absolute: string, readOnly: bool) returns (ok: bool)
      modifies this
      ensures Contents() == Apply(old(Contents()), Request.Approve(id, absolute, readOnly))
      ensures ok <==> var p := Walk(vol.fs, Parse(absolute)); p.Found? && p.loc in vol.fs && vol.fs[p.loc] == Dir
      ensures ok ==> roots == old(roots)[id := Root(Walk(vol.fs, Parse(absolute)).loc, readOnly)]
      ensures !ok ==> roots == old(roots)
      ensures vol == old(vol)
    {
      var p := Walk(vol.fs, Parse(absolute));
      if !p.Found? { return false; }
      if p.loc !in vol.fs || !vol.fs[p.loc].Dir? { return false; }
      roots := roots[id := Root(p.loc, readOnly)];
      return true;
    }

    method Revoke(id: string)
      modifies this
      ensures Contents() == Apply(old(Contents()), Request.Revoke(id))
      ensures roots == old(roots) - {id} && vol == old(vol)
    {
      roots := roots - {id};
    }

    /** Climbs from a missing path to the first part that exists. */
    method ExistingAncestorIsInside(root: Location, candidate: Location) returns (inside: bool)
      ensures inside == AncestorInside(vol.fs, root, Parent(candidate))
    {
      var current := Parent(candidate);
      while true
        invariant AncestorInside(vol.fs, root, Parent(candidate)) == AncestorInside(vol.fs, root, current)
        decreases |current|
      {
        var p := Walk(vol.fs, current);
        if p.Found? { return Inside(root, p.loc); }
        if !p.NotExist() { return false; }
        var parent := Parent(current);
        if parent == current { return false; }
        if !Inside(root, parent) && parent != root { return false; }
        current := parent;
      }
    }

    method ResolvePath(id: string, relative: string) returns (r: Resolved)
      ensures r == Resolve(Contents(), id, relative)
      ensures r == Refused(NotApproved) <==> id !in roots
      ensures r.Ok? ==> id in roots && r.root == roots[id] && !Absolute(relative)
      ensures id in roots && Absolute(relative) ==> r == Refused(OutsideRoot)
    {
      if id !in roots { return Refused(NotApproved); }
      var root := roots[id];
      if Rooted(relative) || HasDriveLetter(relative) || IsNetworkPath(relative) { return Refused(OutsideRoot); }
      if '\0' in relative || ':' in relative { return Refused(OutsideRoot); }
      var candidate := Candidate(root.path, relative);
      if !WithinRoot(Render(root.path), candidate) { return Refused(OutsideRoot); }
      var loc := Parse(candidate);
      var p := Walk(vol.fs, loc);
      if !p.Found? {
        if p.NotExist() {
          var inside := ExistingAncestorIsInside(root.path, loc);
          if !inside { return Refused(OutsideRoot); }
          return Ok(loc, root);
        }
        return Refused(Io);
      }
      if !Inside(root.path, p.loc) { return Refused(OutsideRoot); }
      return Ok(p.loc, root);
    }

    method List(id: string, relative: string) returns (ok: bool, names: set<string>)
      ensures ok <==>
        var r := Resolve(Contents(), id, relative);
        r.Ok? && (var p := Walk(vol.fs, r.path); p.Found? && p.loc in vol.fs && vol.fs[p.loc].Dir?)
      ensures ok ==>
        var r := Resolve(Contents(), id, relative);
        names == Shown(vol.fs, r.root.path, Walk(vol.fs, r.path).loc)
    {
      var r := ResolvePath(id, relative);
      if r.Refused? { return false, {}; }
      var p := Walk(vol.fs, r.path);
      if !p.Found? || p.loc !in vol.fs || !vol.fs[p.loc].Dir? { return false, {}; }
      return true, Shown(vol.fs, r.root.path, p.loc);
    }

    /** A read succeeds exactly on a file and up to its end, and returns all bytes from the offset on. */
    method Open(id: string, relative: string, offset: int) returns (ok: bool, content: seq<int>)
      ensures ok <==>
        var r := Resolve(Contents(), id, relative);
        r.Ok? && (var file := FileAt(vol, r.path); file.Some? && offset <= |vol.bytes[file.value]|)
      ensures ok ==>
        var bytes := vol.bytes[FileAt(vol, Resolve(Contents(), id, relative).path).value];
        content == if offset > 0 then bytes[offset..] else bytes
    {
      var r := ResolvePath(id, relative);
      if r.Refused? { return false, []; }
      var file := FileAt(vol, r.path);
      if file.None? { return false, []; }
      var bytes := vol.bytes[file.value];
      if offset > 0 {
        if offset > |bytes| { return false, []; }
        return true, bytes[offset..];
      }
      return true, bytes;
    }

    method Write(id: string, relative: string, offset: int, data: seq<int>) returns (ok: bool)
      modifies this
      ensures Contents() == Apply(old(Contents()), Request.Write(id, relative, offset, data))
      ensures ok == Acted(old(Contents()), Request.Write(id, relative, offset, data)).ok
      ensures old(Valid(Contents())) ==>
        WriteShows(old(vol), vol, Resolve(old(Contents()), id, relative), offset, data, ok)
      ensures roots == old(roots)
    {
      var r := ResolvePath(id, relative);
      if Valid(Contents()) {
        ResolvedIsReady(Contents(), id, relative);
        WriteIsShown(vol, r, offset, data);
      }
      ok := WriteAt(r, offset, data);
    }

    method WriteAt(r: Resolved, offset: int, data: seq<int>) returns (ok: bool)
      modifies this`vol
      ensures Wrote(vol, ok) == Written(old(vol), r, offset, data)
    {
      if r.Refused? || r.root.readOnly { return false; }
      var made := MkdirAll(vol.fs, Parent(r.path));
      vol := vol.(fs := made.fs);
      if !made.ok { return false; }
      var written := WriteFile(vol, r.path, offset, data);
      vol := written.vol;
      return written.ok;
    }

    method MakeDir(id: string, relative: string) returns (ok: bool)
      modifies this
      ensures Contents() == Apply(old(Contents()), Request.MakeDir(id, relative))
      ensures ok == Acted(old(Contents()), Request.MakeDir(id, relative)).ok
      ensures old(Valid(Contents())) ==> MakeShows(old(vol), vol, Resolve(old(Contents()), id, relative), ok)
      ensures roots == old(roots)
    {
      var r := ResolvePath(id, relative);
      if Valid(Contents()) {
        ResolvedIsReady(Contents(), id, relative);
        MakeIsShown(vol, r);
      }
      ok := MakeAt(r);
    }

    method MakeAt(r: Resolved) returns (ok: bool)
      modifies this`vol
      ensures Wrote(vol, ok) == Made(old(vol), r)
    {
      if r.Refused? || r.root.readOnly { return false; }
      var made := MkdirAll(vol.fs, r.path);
      vol := vol.(fs := made.fs);
      return made.ok;
    }

    method RenameItem(id: string, from: string, to: string) returns (ok: bool)
      modifies this
      ensures Contents() == Apply(old(Contents()), Request.Rename(id, from, to))
      ensures ok == Acted(old(Contents()), Request.Rename(id, from, to)).ok
      ensures old(Valid(Contents())) ==>
        RenameShows(old(vol), vol, Resolve(old(Contents()), id, from), Resolve(old(Contents()), id, to), ok)
      ensures roots == old(roots)
    {
      var r := ResolvePath(id, from);
      var t := ResolvePath(id, to);
      if Valid(Contents()) {
        ResolvedIsReady(Contents(), id, from);
        ResolvedIsReady(Contents(), id, to);
        RenameIsShown(vol, r, t);
      }
      ok := RenameAt(r, t);
    }

    method RenameAt(r: Resolved, t: Resolved) returns (ok: bool)
      modifies this`vol
      ensures Wrote(vol, ok) == Renamed(old(vol), r, t)
    {
      if r.Refused? || r.root.readOnly { return false; }
      if t.Refused? { return false; }
      var moved := Disk.Rename(vol.fs, r.path, t.path);
      vol := vol.(fs := moved.fs);
      return moved.ok;
    }

    method Delete(id: string, relative: string) returns (ok: bool)
      modifies this
      ensures Contents() == Apply(old(Contents()), Request.Delete(id, relative))
      ensures ok == Acted(old(Contents()), Request.Delete(id, relative)).ok
      ensures old(Valid(Contents())) ==> DeleteShows(old(vol), vol, Resolve(old(Contents()), id, relative), ok)
      ensures roots == old(roots)
    {
      var r := ResolvePath(id, relative);
      if Valid(Contents()) {
        ResolvedIsReady(Contents(), id, relative);
        DeleteIsShown(vol, r);
      }
      ok := DeleteAt(r);
    }

    method DeleteAt(r: Resolved) returns (ok: bool)
      modifies this`vol
      ensures Wrote(vol, ok) == Deleted(old(vol), r)
    {
      if r.Refused? || r.root.readOnly { return false; }
      if r.path == r.root.path { return false; }
      var removed := Remove(vol.fs, r.path);
      vol := vol.(fs := removed.fs);
      return removed.ok;
    }
  }

  // ---------------------------------------------------------------------------
  // Where a resolved path lies
  // ---------------------------------------------------------------------------

  /** The path names an entry at or below the root, without any link on the way. */
  ghost predicate Placed(fs: Fs, root: Location, path: Location) {
    && root <= path && path in fs && !fs[path].Link?
    && forall left :: Locate(fs, [], path, left) == Found(path, left)
  }

  /** Nothing is there yet, and the deepest part that exists leads to a folder at or below the root. */
  ghost predicate Awaited(fs: Fs, root: Location, path: Location) {
    Walk(fs, path).NotExist() && exists k: nat, loc, left :: Deepest(fs, path, k, loc, left) && root <= loc
  }

  ghost predicate MissingFrom(fs: Fs, path: Location, k: nat) {
    forall i :: k < i <= |path| ==> Walk(fs, path[..i]).NotExist()
  }

  /** The climb stops at the deepest part that exists, and finds it inside. */
  lemma {:induction false} ClimbEnds(fs: Fs, root: Location, path: Location, j: nat) returns (k: nat)
    requires j < |path| && AncestorInside(fs, root, path[..j]) && MissingFrom(fs, path, j)
    ensures k < |path| && Walk(fs, path[..k]).Found? && Inside(root, Walk(fs, path[..k]).loc)
    ensures MissingFrom(fs, path, k)
    decreases j
  {
    if Walk(fs, path[..j]).Found? {
      StartsInside(fs, root, path[..j]);
      k := j;
    } else {
      Climbs(fs, root, path, j);
      k := ClimbEnds(fs, root, path, j - 1);
    }
  }

  lemma AncestorFound(fs: Fs, root: Location, path: Location, j: nat) returns (k: nat, loc: Location, left: nat)
    requires Tree(fs) && Canonical(root) && Canonical(path) && j < |path|
    requires AncestorInside(fs, root, path[..j]) && MissingFrom(fs, path, j)
    ensures Deepest(fs, path, k, loc, left) && root <= loc
  {
    k := ClimbEnds(fs, root, path, j);
    FolderOnTheWay(fs, root, path, k);
    loc, left := Walk(fs, path[..k]).loc, Walk(fs, path[..k]).left;
  }

  lemma Climbs(fs: Fs, root: Location, path: Location, j: nat)
    requires j <= |path| && AncestorInside(fs, root, path[..j]) && !Walk(fs, path[..j]).Found?
    ensures j > 0 && AncestorInside(fs, root, path[..j - 1]) && Walk(fs, path[..j]).NotExist()
  {
    assert j > 0 ==> Parent(path[..j]) == path[..j - 1];
  }

  lemma StartsInside(fs: Fs, root: Location, current: Location)
    requires AncestorInside(fs, root, current) && Walk(fs, current).Found?
    ensures Inside(root, Walk(fs, current).loc)
  {
  }

  lemma FolderOnTheWay(fs: Fs, root: Location, path: Location, j: nat)
    requires Tree(fs) && Canonical(root) && Canonical(path) && j < |path|
    requires Walk(fs, path[..j]).Found? && Inside(root, Walk(fs, path[..j]).loc) && Walk(fs, path[..j + 1]).NotExist()
    ensures var loc := Walk(fs, path[..j]).loc; root <= loc && loc in fs && fs[loc] == Dir
  {
    CanonicalIsFree(path[..j]);
    WalkEnds(fs, [], path[..j], LINKS);
    var loc := Walk(fs, path[..j]).loc;
    assert Proper(fs, loc);
    WithinRootIsPrefix(root, loc);
    WalkOn(fs, [], path[..j], [path[j]], LINKS);
    assert path[..j + 1] == path[..j] + [path[j]];
  }

  lemma CandidateIsClean(root: Location, relative: string) returns (there: Location)
    requires Canonical(root)
    ensures Canonical(there) && Candidate(root, relative) == Render(there) && Parse(Render(there)) == there
  {
    var cleaned := Clean(Slashed(relative));
    var second := if cleaned == "." then "" else cleaned;
    JoinLeads(root, second);
    there := Fold(root, Split(second, '/'), true);
    ParseRender(there);
  }

  lemma InsideIsPlaced(fs: Fs, root: Location, loc: Location)
    requires Tree(fs) && root <= loc && loc in fs && !fs[loc].Link?
    ensures Canonical(loc) && Placed(fs, root, loc)
  {
    assert Proper(fs, loc);
    forall left
      ensures Locate(fs, [], loc, left) == Found(loc, left)
    {
      NamesLead(fs, loc, left);
    }
  }

  lemma FoundIsPlaced(fs: Fs, root: Location, there: Location)
    requires Tree(fs) && Canonical(root) && Canonical(there)
    requires Walk(fs, there).Found? && Inside(root, Walk(fs, there).loc)
    ensures Canonical(Walk(fs, there).loc) && Placed(fs, root, Walk(fs, there).loc)
  {
    CanonicalIsFree(there);
    WalkEnds(fs, [], there, LINKS);
    var loc := Walk(fs, there).loc;
    assert Proper(fs, loc);
    WithinRootIsPrefix(root, loc);
    InsideIsPlaced(fs, root, loc);
  }

  /** The candidate behind a resolved path, and which of the two kinds it is. */
  lemma WhatIsResolved(s: State, id: string, relative: string) returns (there: Location)
    requires Valid(s) && Resolve(s, id, relative).Ok?
    ensures Canonical(there) && Candidate(s.roots[id].path, relative) == Render(there) && Parse(Render(there)) == there
    ensures var r, p := Resolve(s, id, relative), Walk(s.fs, there);
      && Canonical(r.path) && r.root == s.roots[id]
      && (if p.Found? then r.path == p.loc && Placed(s.fs, r.root.path, r.path)
          else r.path == there && Awaited(s.fs, r.root.path, there))
  {
    var root := s.roots[id].path;
    there := CandidateIsClean(root, relative);
    if Walk(s.fs, there).Found? {
      FoundIsPlaced(s.fs, root, there);
    } else {
      MissingIsAwaited(s.fs, root, there);
    }
  }

  /**
   * Whatever the request says, a resolved path either names what is really at or below
   * the root, or hangs off a folder that really is.
   */
  lemma ResolveStaysInside(s: State, id: string, relative: string)
    requires Valid(s) && Resolve(s, id, relative).Ok?
    ensures var r := Resolve(s, id, relative);
      && id in s.roots && r.root == s.roots[id] && Canonical(r.path)
      && (Placed(s.fs, r.root.path, r.path) || Awaited(s.fs, r.root.path, r.path))
  {
    var there := WhatIsResolved(s, id, relative);
  }

  lemma MissingAtEnd(fs: Fs, loc: Location)
    requires Walk(fs, loc).NotExist()
    ensures loc != [] && MissingFrom(fs, loc, |loc| - 1)
  {
    assert Walk(fs, []).Found?;
    assert loc[..|loc|] == loc;
  }

  lemma MissingIsAwaited(fs: Fs, root: Location, loc: Location)
    requires Tree(fs) && Canonical(root) && Canonical(loc)
    requires Walk(fs, loc).NotExist() && AncestorInside(fs, root, Parent(loc))
    ensures Awaited(fs, root, loc)
  {
    MissingAtEnd(fs, loc);
    assert Parent(loc) == loc[..|loc| - 1];
    var k, at, left := AncestorFound(fs, root, loc, |loc| - 1);
  }

  // ---------------------------------------------------------------------------
  // What each request leaves alone
  // ---------------------------------------------------------------------------

  lemma EntryInside(fs: Fs, root: Location, path: Location)
    requires Tree(fs) && Canonical(path) && Entry(fs, path).Some?
    requires Placed(fs, root, path) || Awaited(fs, root, path)
    ensures root <= Entry(fs, path).value
  {
    var n := |path|;
    assert Parent(path) == path[..n - 1];
    if Placed(fs, root, path) {
      assert Proper(fs, path);
      NamesLead(fs, Parent(path), LINKS);
      assert Entry(fs, path).value == path;
    } else {
      var k: nat, loc, left :| Deepest(fs, path, k, loc, left) && root <= loc;
      assert k == n - 1;
    }
  }

  lemma MakeDirConfined(fs: Fs, root: Location, path: Location)
    requires Tree(fs) && Canonical(path)
    requires Placed(fs, root, path) || Awaited(fs, root, path)
    ensures Confined(fs, MkdirAll(fs, path).fs, root)
  {
    if !Placed(fs, root, path) {
      var k: nat, loc, left :| Deepest(fs, path, k, loc, left) && root <= loc;
      MakingConfined(fs, root, path, k, |path|, loc, left);
      assert path[..|path|] == path;
    }
  }

  lemma MakingConfined(fs: Fs, root: Location, path: Location, k: nat, j: nat, loc: Location, left: nat)
    requires Tree(fs) && Canonical(path) && Deepest(fs, path, k, loc, left) && root <= loc && k <= j <= |path|
    ensures Confined(fs, MkdirAll(fs, path[..j]).fs, root)
  {
    MkdirAllChain(fs, path, k, j, loc, left);
    if j > k && loc + [path[k]] !in fs {
      ChainAdds(fs, loc, Between(path, k, j));
    }
  }

  /** Making a folder that succeeds leaves a folder there. */
  lemma MadeIsThere(fs: Fs, root: Location, path: Location)
    requires Tree(fs) && Canonical(path) && MkdirAll(fs, path).ok
    requires Placed(fs, root, path) || Awaited(fs, root, path)
    ensures var after := MkdirAll(fs, path).fs;
      var p := Walk(after, path);
      p.Found? && root <= p.loc && p.loc in after && after[p.loc] == Dir
  {
    if Placed(fs, root, path) {
      assert Walk(fs, path) == Found(path, LINKS);
    } else {
      var k: nat, loc, left :| Deepest(fs, path, k, loc, left) && root <= loc;
      var n := |path|;
      assert path[..n] == path;
      MkdirAllChain(fs, path, k, n, loc, left);
      ChainIsWalked(fs, path, k, n, loc, left);
    }
  }

  /** Where a write would create a file that is not there: the end of a last link, if there is one. */
  predicate CreatesOutside(fs: Fs, root: Location, path: Location) {
    var p := Walk(fs, path);
    p.Vacant? && !(root <= p.loc)
  }

  /** How a write alters an entry: it creates it, or other bytes go into the file it names. */
  predicate AltersAt(v: Volume, path: Location, offset: int, data: seq<int>, l: Location) {
    var p, file := Walk(v.fs, path), FileAt(v, path);
    || (p.Vacant? && l == p.loc)
    || (file.Some? && l in v.fs && v.fs[l] == File(file.value)
        && (var now := Resulting(v.bytes[file.value], offset, data); now.Some? && now.value != v.bytes[file.value]))
  }

  /** Opening and writing alter exactly those entries. */
  lemma WriteFileAltersExactly(v: Volume, path: Location, offset: int, data: seq<int>, l: Location)
    requires Sound(v) && Canonical(path)
    ensures Same(v, WriteFile(v, path, offset, data).vol, l) <==> !AltersAt(v, path, offset, data, l)
  {
    CanonicalIsFree(path);
    WalkEnds(v.fs, [], path, LINKS);
  }

  lemma PutPlaced(v: Volume, root: Location, path: Location, offset: int, data: seq<int>)
    requires Sound(v) && Canonical(path) && Placed(v.fs, root, path)
    ensures Put(v, path, offset, data) == WriteFile(v, path, offset, data)
  {
    assert Proper(v.fs, path);
    NamesLead(v.fs, Parent(path), LINKS);
    assert v.(fs := v.fs) == v;
  }

  /** Missing folders on the way: once made, the file's name is vacant at the end of the chain. */
  lemma ChainEndsAtFile(fs: Fs, path: Location, k: nat, loc: Location, left: nat)
    requires Tree(fs) && Canonical(path) && Deepest(fs, path, k, loc, left) && k < |path| - 1
    requires loc + [path[k]] !in fs
    ensures var made := MkdirAll(fs, Parent(path));
      made.ok && Walk(made.fs, path) == Vacant(loc + Between(path, k, |path|))
  {
    var j := |path| - 1;
    assert Parent(path) == path[..j] && path == path[..j] + [path[j]];
    MkdirAllChain(fs, path, k, j, loc, left);
    var made := Chain(fs, loc, Between(path, k, j));
    ChainIsWalked(fs, path, k, j, loc, left);
    ChainEndsVacant(fs, path, k, j + 1, loc);
    WalkOn(made, [], path[..j], [path[j]], LINKS);
    assert GoodName(path[j]);
    Step(made, loc + Between(path, k, j), path[j], left);
    assert path[..j + 1] == path;
  }

  lemma PutBehindChain(v: Volume, root: Location, path: Location, k: nat, loc: Location, left: nat,
                       offset: int, data: seq<int>, l: Location)
    requires Sound(v) && Canonical(path) && Deepest(v.fs, path, k, loc, left) && root <= loc && k < |path| - 1
    requires Walk(v.fs, path).NotExist() && !(root <= l)
    ensures Walk(v.fs, path) == Missing && Same(v, Put(v, path, offset, data).vol, l)
  {
    var j := |path| - 1;
    assert Parent(path) == path[..j];
    MissingBehind(v.fs, path, k, j, loc, left);
    MakingConfined(v.fs, root, path, k, j, loc, left);
    MkdirAllChain(v.fs, path, k, j, loc, left);
    if loc + [path[k]] !in v.fs {
      ChainEndsAtFile(v.fs, path, k, loc, left);
      var made := v.(fs := MkdirAll(v.fs, Parent(path)).fs);
      assert Same(v, made, l);
      assert Same(made, WriteFile(made, path, offset, data).vol, l);
    }
  }

  lemma MissingBehind(fs: Fs, path: Location, k: nat, j: nat, loc: Location, left: nat)
    requires Tree(fs) && Canonical(path) && Deepest(fs, path, k, loc, left) && k < j < |path|
    requires Walk(fs, path).NotExist()
    ensures Walk(fs, path) == Missing
  {
    WalkOn(fs, [], path[..j], path[j..], LINKS);
    assert path == path[..j] + path[j..];
    assert !Walk(fs, path[..j]).Found?;
  }

  /** With the folder for it in place, a write alters what opening the path alters. */
  lemma PutInFolder(v: Volume, path: Location, k: nat, loc: Location, left: nat, offset: int, data: seq<int>)
    requires Sound(v) && Canonical(path) && Deepest(v.fs, path, k, loc, left) && k == |path| - 1
    ensures Put(v, path, offset, data) == WriteFile(v, path, offset, data)
  {
    assert Parent(path) == path[..k];
    MkdirAllChain(v.fs, path, k, k, loc, left);
    assert v.(fs := v.fs) == v;
  }

  /** A write leaves an entry outside the root the same exactly when it does not alter it there. */
  lemma WriteLeavesAloneIff(v: Volume, root: Location, path: Location, offset: int, data: seq<int>, l: Location)
    requires Sound(v) && Canonical(path) && !(root <= l)
    requires Placed(v.fs, root, path) || Awaited(v.fs, root, path)
    ensures Same(v, Put(v, path, offset, data).vol, l) <==> !AltersAt(v, path, offset, data, l)
  {
    if Placed(v.fs, root, path) {
      PutPlaced(v, root, path, offset, data);
      WriteFileAltersExactly(v, path, offset, data, l);
    } else {
      var k: nat, loc, left :| Deepest(v.fs, path, k, loc, left) && root <= loc;
      if k < |path| - 1 {
        PutBehindChain(v, root, path, k, loc, left, offset, data, l);
      } else {
        PutInFolder(v, path, k, loc, left, offset, data);
        WriteFileAltersExactly(v, path, offset, data, l);
      }
    }
  }

  /** The file written has a name outside the root as well, and is given other bytes. */
  ghost predicate RewritesOutside(v: Volume, root: Location, path: Location, offset: int, data: seq<int>) {
    var file := FileAt(v, path);
    && file.Some?
    && (var now := Resulting(v.bytes[file.value], offset, data); now.Some? && now.value != v.bytes[file.value])
    && exists l :: l in v.fs && !(root <= l) && v.fs[l] == File(file.value)
  }

  /**
   * A write changes nothing outside the root exactly when it creates nothing there, which
   * a last name that is a link to a vacant place would make it do, and does not put other
   * bytes into a file that has a second name there.
   */
  lemma WriteConfinedIff(v: Volume, root: Location, path: Location, offset: int, data: seq<int>)
    requires Sound(v) && Canonical(path)
    requires Placed(v.fs, root, path) || Awaited(v.fs, root, path)
    ensures (forall l :: !(root <= l) ==> Same(v, Put(v, path, offset, data).vol, l))
      <==> !CreatesOutside(v.fs, root, path) && !RewritesOutside(v, root, path, offset, data)
  {
    var after := Put(v, path, offset, data).vol;
    forall l | !(root <= l)
      ensures Same(v, after, l) <==> !AltersAt(v, path, offset, data, l)
    {
      WriteLeavesAloneIff(v, root, path, offset, data, l);
    }
    if CreatesOutside(v.fs, root, path) {
      assert AltersAt(v, path, offset, data, Walk(v.fs, path).loc);
    }
    if RewritesOutside(v, root, path, offset, data) {
      var l :| l in v.fs && !(root <= l) && v.fs[l] == File(FileAt(v, path).value);
      assert AltersAt(v, path, offset, data, l);
    }
  }

  ghost predicate SharesLink(fs: Fs) {
    fs == map[[] := Dir, ["s"] := Dir, ["s", "l"] := Link("/t")]
  }

  lemma TargetNames()
    ensures Split("/t", '/') == ["", "t"]
  {
    SplitRender(["t"]);
    assert Render(["t"]) == "/t";
  }

  lemma LinkLeadsOut(fs: Fs, left: nat)
    requires SharesLink(fs) && left > 0
    ensures Locate(fs, [], ["s", "l"], left) == Vacant(["t"])
    ensures Locate(fs, [], ["s"], left) == Found(["s"], left)
  {
    TargetNames();
    assert ["", "t"] + [] == ["", "t"];
    assert ["", "t"][1..] == ["t"] && ["t"][1..] == [] && [] + ["t"] == ["t"];
    assert Locate(fs, [], ["", "t"], left - 1) == Vacant(["t"]);
    assert ["s"] + ["l"] == ["s", "l"] && ["l"][1..] == [];
    assert Locate(fs, ["s"], ["l"], left) == Vacant(["t"]);
    assert ["s", "l"][1..] == ["l"] && ["s"][1..] == [] && [] + ["s"] == ["s"];
  }

  lemma CreatesAtVacantPlace(v: Volume, path: Location, there: Location, data: seq<int>)
    requires var p := Walk(v.fs, Parent(path)); p.Found? && p.loc in v.fs && v.fs[p.loc].Dir?
    requires Walk(v.fs, path) == Vacant(there)
    ensures there in Put(v, path, 0, data).vol.fs
  {
  }

  lemma LinkWalks(fs: Fs, root: Location, path: Location)
    requires root == ["s"] && path == ["s", "l"] && SharesLink(fs)
    ensures Walk(fs, path) == Vacant(["t"]) && Walk(fs, Parent(path)) == Found(root, LINKS)
  {
    LinkLeadsOut(fs, LINKS);
    assert Parent(path) == root;
  }

  lemma LinkIsInside(root: Location, path: Location)
    requires root == ["s"] && path == ["s", "l"]
    ensures Inside(root, path) && Inside(root, root)
  {
    WithinRootIsPrefix(root, path);
    WithinRootIsPrefix(root, root);
  }

  lemma LinkResolves(s: State, id: string, relative: string, root: Location, path: Location)
    requires relative == "l" && root == ["s"] && path == ["s", "l"]
    requires SharesLink(s.fs) && id in s.roots && s.roots[id].path == root
    ensures Resolve(s, id, relative) == Ok(path, s.roots[id])
  {
    LinkWalks(s.fs, root, path);
    LinkIsInside(root, path);
    NameOfLink();
    ResolvesToVacant(s, id, relative, path);
  }

  lemma VacantIsCreated(s: State, id: string, relative: string, there: Location, data: seq<int>)
    requires var r := Resolve(s, id, relative);
      && r.Ok? && !r.root.readOnly && Walk(s.fs, r.path) == Vacant(there)
      && (var p := Walk(s.fs, Parent(r.path)); p.Found? && p.loc in s.fs && s.fs[p.loc].Dir?)
    ensures Alters(s, Write(id, relative, 0, data), there)
    ensures there in Apply(s, Write(id, relative, 0, data)).fs
  {
    CreatesAtVacantPlace(s.vol, Resolve(s, id, relative).path, there, data);
    PutIsApplied(s, id, relative, 0, data);
  }

  /** Such a link: a request for `l` in the shared folder `/s` that holds a link `l` to the vacant place `/t`. */
  lemma LinkToVacantPlace(s: State, id: string, relative: string, target: Location, data: seq<int>)
    requires relative == "l" && target == ["t"]
    requires SharesLink(s.fs) && id in s.roots && s.roots[id] == Root(["s"], false)
    ensures Alters(s, Write(id, relative, 0, data), target)
    ensures target !in s.fs && target in Apply(s, Write(id, relative, 0, data)).fs
  {
    var root, path := ["s"], ["s", "l"];
    LinkWalks(s.fs, root, path);
    LinkResolves(s, id, relative, root, path);
    VacantIsCreated(s, id, relative, target, data);
  }

  /** A candidate that leads nowhere yet, in a folder that is there. */
  lemma ResolvesToVacant(s: State, id: string, relative: string, there: Location)
    requires id in s.roots && Nameable(relative)
    requires var root := s.roots[id].path;
      && Candidate(root, relative) == Render(there) && Parse(Render(there)) == there
      && Inside(root, there) && Walk(s.fs, there).NotExist()
      && Walk(s.fs, Parent(there)).Found? && Inside(root, Walk(s.fs, Parent(there)).loc)
    ensures Resolve(s, id, relative) == Ok(there, s.roots[id])
  {
  }

  lemma PutIsApplied(s: State, id: string, relative: string, offset: int, data: seq<int>)
    requires var r := Resolve(s, id, relative); r.Ok? && !r.root.readOnly
    ensures Apply(s, Write(id, relative, offset, data)).vol
      == Put(s.vol, Resolve(s, id, relative).path, offset, data).vol
  {
  }

  lemma NameOfLink()
    ensures Candidate(["s"], "l") == Render(["s", "l"]) && Parse(Render(["s", "l"])) == ["s", "l"]
  {
    assert Slashed("l") == "l";
    assert Join(["l"], '/') == "l";
    NamesAreClean(["s"], ["l"]);
    assert ["s"] + ["l"] == ["s", "l"];
    ParseRender(["s", "l"]);
  }

  /** How a request alters an entry outside the folder it names: by a write that leads there. */
  predicate Alters(s: State, q: Request, l: Location) {
    q.Write? &&
    var r := Resolve(s, q.id, q.relative);
    r.Ok? && !r.root.readOnly && AltersAt(s.vol, r.path, q.offset, q.data, l)
  }

  /** One request leaves an entry outside the folder it names the same exactly when it does not alter it. */
  lemma RequestLeavesAloneIff(s: State, q: Request, l: Location)
    requires Valid(s) && !q.Approve? && !q.Revoke? && q.id in s.roots && !(s.roots[q.id].path <= l)
    ensures Same(s.vol, Acted(s, q).vol, l) <==> !Alters(s, q, l)
  {
    match q
    case Write(id, relative, offset, data) => {
      if Resolve(s, id, relative).Ok? {
        ResolveStaysInside(s, id, relative);
        var r := Resolve(s, id, relative);
        WriteLeavesAloneIff(s.vol, r.root.path, r.path, offset, data, l);
      }
    }
    case Rename(id, from, to) => { RenameLeavesAlone(s, id, from, to, l); }
    case MakeDir(id, relative) => { MakeDirLeavesAlone(s, id, relative, l); }
    case Delete(id, relative) => { DeleteLeavesAlone(s, id, relative, l); }
    case Approve(_, _, _) => {}
    case Revoke(_) => {}
  }

  lemma MakeDirLeavesAlone(s: State, id: string, relative: string, l: Location)
    requires Valid(s) && id in s.roots && !(s.roots[id].path <= l)
    ensures Same(s.vol, Acted(s, MakeDir(id, relative)).vol, l)
  {
    var r := Resolve(s, id, relative);
    if r.Ok? {
      ResolveStaysInside(s, id, relative);
      MakeDirConfined(s.fs, r.root.path, r.path);
      ConfinedIsSame(s.vol, MkdirAll(s.fs, r.path).fs, r.root.path, l);
    }
  }

  lemma DeleteRemoves(s: State, id: string, relative: string)
    ensures var r, after := Resolve(s, id, relative), Acted(s, Delete(id, relative)).vol;
      after == s.vol || (r.Ok? && after == s.vol.(fs := Remove(s.fs, r.path).fs))
  {
  }

  lemma DeleteLeavesAlone(s: State, id: string, relative: string, l: Location)
    requires Valid(s) && id in s.roots && !(s.roots[id].path <= l)
    ensures Same(s.vol, Acted(s, Delete(id, relative)).vol, l)
  {
    DeleteRemoves(s, id, relative);
    var r := Resolve(s, id, relative);
    if r.Ok? {
      ResolveStaysInside(s, id, relative);
      RemoveConfined(s.fs, r.root.path, r.path);
      ConfinedIsSame(s.vol, Remove(s.fs, r.path).fs, r.root.path, l);
    }
  }

  lemma RemoveConfined(fs: Fs, root: Location, path: Location)
    requires Tree(fs) && Canonical(path)
    requires Placed(fs, root, path) || Awaited(fs, root, path)
    ensures Confined(fs, Remove(fs, path).fs, root)
  {
    if Entry(fs, path).Some? {
      EntryInside(fs, root, path);
    }
  }

  lemma RenameLeavesAlone(s: State, id: string, from: string, to: string, l: Location)
    requires Valid(s) && id in s.roots && !(s.roots[id].path <= l)
    ensures Same(s.vol, Acted(s, Rename(id, from, to)).vol, l)
  {
    var r, t := Resolve(s, id, from), Resolve(s, id, to);
    if r.Ok? && t.Ok? {
      ResolveStaysInside(s, id, from);
      ResolveStaysInside(s, id, to);
      RenameConfined(s.fs, r.root.path, r.path, t.path);
      ConfinedIsSame(s.vol, Disk.Rename(s.fs, r.path, t.path).fs, r.root.path, l);
    }
  }

  lemma ConfinedIsSame(v: Volume, fs: Fs, root: Location, l: Location)
    requires Confined(v.fs, fs, root) && !(root <= l)
    ensures Same(v, v.(fs := fs), l)
  {
  }

  /** Only a folder that is approved, and not read-only, is resolved for writing. */
  lemma WritableIsApproved(s: State, id: string, relative: string)
    requires Writable(Resolve(s, id, relative))
    ensures id in s.roots && !s.roots[id].readOnly
  {
  }

  /** Only a request to a writable folder touches the disk. */
  lemma NothingElseActs(s: State, q: Request)
    requires q.Approve? || q.Revoke? || q.id !in s.roots || s.roots[q.id].readOnly
    ensures Acted(s, q).vol == s.vol && Apply(s, q).vol == s.vol
  {
    match q
    case Write(id, relative, _, _) => {
      if Writable(Resolve(s, id, relative)) { WritableIsApproved(s, id, relative); }
    }
    case MakeDir(id, relative) => {
      if Writable(Resolve(s, id, relative)) { WritableIsApproved(s, id, relative); }
    }
    case Rename(id, from, _) => {
      if Writable(Resolve(s, id, from)) { WritableIsApproved(s, id, from); }
    }
    case Delete(id, relative) => {
      if Writable(Resolve(s, id, relative)) { WritableIsApproved(s, id, relative); }
    }
    case Approve(_, _, _) => {}
    case Revoke(_) => {}
  }

  lemma RenameConfined(fs: Fs, root: Location, from: Location, to: Location)
    requires Tree(fs) && Canonical(from) && Canonical(to)
    requires Placed(fs, root, from) || Awaited(fs, root, from)
    requires Placed(fs, root, to) || Awaited(fs, root, to)
    ensures Confined(fs, Disk.Rename(fs, from, to).fs, root)
  {
    var a, b := Entry(fs, from), Entry(fs, to);
    RenameMoves(fs, from, to);
    if a.Some? && b.Some? {
      EntryInside(fs, root, from);
      EntryInside(fs, root, to);
      MovedIsConfined(fs, a.value, b.value, root);
    }
  }

  lemma ApproveKeepsValid(s: State, q: Request)
    requires Valid(s) && q.Approve?
    ensures Valid(Apply(s, q))
  {
    var names := Parse(q.absolute);
    FoldKeepsCanonical([], Split(q.absolute, '/'));
    CanonicalIsFree(names);
    WalkEnds(s.fs, [], names, LINKS);
    var p := Walk(s.fs, names);
    if p.Found? {
      assert Proper(s.fs, p.loc);
    }
  }

  lemma PutKeepsSound(v: Volume, path: Location, offset: int, data: seq<int>)
    requires Sound(v) && Canonical(path)
    ensures Sound(Put(v, path, offset, data).vol)
  {
    MkdirAllKeepsTree(v.fs, Parent(path));
    MkdirAllMakesNoFile(v.fs, Parent(path), v.bytes.Keys);
    WriteFileKeepsSound(v.(fs := MkdirAll(v.fs, Parent(path)).fs), path, offset, data);
  }

  lemma WrittenKeepsSound(v: Volume, r: Resolved, offset: int, data: seq<int>)
    requires Sound(v) && (r.Ok? ==> Canonical(r.path))
    ensures Sound(Written(v, r, offset, data).vol)
  {
    if Writable(r) {
      PutKeepsSound(v, r.path, offset, data);
    }
  }

  lemma MadeKeepsSound(v: Volume, r: Resolved)
    requires Sound(v) && (r.Ok? ==> Canonical(r.path))
    ensures Sound(Made(v, r).vol)
  {
    if Writable(r) {
      MkdirAllKeepsTree(v.fs, r.path);
      MkdirAllMakesNoFile(v.fs, r.path, v.bytes.Keys);
    }
  }

  lemma RenamedKeepsSound(v: Volume, r: Resolved, t: Resolved)
    requires Sound(v) && (r.Ok? ==> Canonical(r.path)) && (t.Ok? ==> Canonical(t.path))
    ensures Sound(Renamed(v, r, t).vol)
  {
    if Writable(r) && t.Ok? {
      RenameKeepsTree(v.fs, r.path, t.path);
      RenameMakesNoFile(v.fs, r.path, t.path, v.bytes.Keys);
    }
  }

  lemma DeletedKeepsSound(v: Volume, r: Resolved)
    requires Sound(v) && (r.Ok? ==> Canonical(r.path))
    ensures Sound(Deleted(v, r).vol)
  {
    if Removable(r) {
      RemoveKeepsSound(v, r.path);
    }
  }

  lemma ResolvedIsCanonical(s: State, id: string, relative: string)
    requires Valid(s)
    ensures Resolve(s, id, relative).Ok? ==> Canonical(Resolve(s, id, relative).path)
  {
    if Resolve(s, id, relative).Ok? {
      ResolveStaysInside(s, id, relative);
    }
  }

  lemma RequestKeepsValid(s: State, q: Request)
    requires Valid(s)
    ensures Valid(Apply(s, q))
  {
    match q
    case Approve(_, _, _) => { ApproveKeepsValid(s, q); }
    case Revoke(_) => {}
    case Write(id, relative, offset, data) => {
      ResolvedIsCanonical(s, id, relative);
      WrittenKeepsSound(s.vol, Resolve(s, id, relative), offset, data);
    }
    case MakeDir(id, relative) => {
      ResolvedIsCanonical(s, id, relative);
      MadeKeepsSound(s.vol, Resolve(s, id, relative));
    }
    case Rename(id, from, to) => {
      ResolvedIsCanonical(s, id, from);
      ResolvedIsCanonical(s, id, to);
      RenamedKeepsSound(s.vol, Resolve(s, id, from), Resolve(s, id, to));
    }
    case Delete(id, relative) => {
      ResolvedIsCanonical(s, id, relative);
      DeletedKeepsSound(s.vol, Resolve(s, id, relative));
    }
  }

  // ---------------------------------------------------------------------------
  // What a caller sees of each request
  // ---------------------------------------------------------------------------

  /** No entry is lost or changed, and no file but one is given other bytes. */
  ghost predicate Spares(before: Volume, after: Volume, file: Option<nat>) {
    && Extends(before.fs, after.fs)
    && forall n :: n in before.bytes && file != Some(n) ==> n in after.bytes && after.bytes[n] == before.bytes[n]
  }

  /** What a file that held `was` holds after a write, and whether that succeeds. */
  ghost predicate Rewrites(was: seq<int>, now: seq<int>, offset: int, data: seq<int>, ok: bool) {
    && (ok <==> offset <= 0 || offset == |was|)
    && (!ok ==> now == was)
    && (offset == 0 ==> now == data)
    && (ok && offset > 0 ==> now == was + data)
    && (offset < 0 ==> LaidOver(was, data, now))
  }

  /** A write: refused outright, into the file that is there, or into one that it creates. */
  ghost predicate WriteShows(before: Volume, after: Volume, r: Resolved, offset: int, data: seq<int>, ok: bool) {
    if r.Refused? || r.root.readOnly then !ok && after == before
    else
      var file := FileAt(before, r.path);
      && Spares(before, after, file)
      && (file.Some? ==>
            && after.fs == before.fs && file.value in after.bytes
            && Rewrites(before.bytes[file.value], after.bytes[file.value], offset, data, ok))
      && (file.None? && Walk(before.fs, r.path).Found? ==> !ok && after == before)
      && (file.None? && ok ==> offset <= 0 && Holds(after, r.path, data))
  }

  /** Making a folder: a folder is there, and nothing else is lost, changed or made but folders. */
  ghost predicate MakeShows(before: Volume, after: Volume, r: Resolved, ok: bool) {
    if r.Refused? || r.root.readOnly then !ok && after == before
    else
      && Extends(before.fs, after.fs) && after.bytes == before.bytes
      && (forall l :: l in after.fs && l !in before.fs ==> after.fs[l] == Dir)
      && (ok ==>
            var p := Walk(after.fs, r.path);
            p.Found? && r.root.path <= p.loc && p.loc in after.fs && after.fs[p.loc] == Dir)
  }

  /** Renaming: the entry the first path names, and all below it, stands where the second names. */
  ghost predicate RenameShows(before: Volume, after: Volume, r: Resolved, t: Resolved, ok: bool) {
    if r.Refused? || r.root.readOnly || t.Refused? then !ok && after == before
    else
      var a, b := Entry(before.fs, r.path), Entry(before.fs, t.path);
      && after.bytes == before.bytes
      && (ok <==> a.Some? && b.Some? && Renameable(before.fs, a.value, b.value))
      && (ok ==> Renames(before.fs, after.fs, a.value, b.value))
      && (!ok ==> after == before)
  }

  /** Deleting: one entry that is not the folder approved and has nothing below it is gone. */
  ghost predicate DeleteShows(before: Volume, after: Volume, r: Resolved, ok: bool) {
    if r.Refused? || r.root.readOnly || r.path == r.root.path then !ok && after == before
    else
      var e := Entry(before.fs, r.path);
      && after.bytes == before.bytes
      && (ok <==> e.Some? && e.value in before.fs
                  && forall l :: l in before.fs && l != [] ==> l[..|l| - 1] != e.value)
      && (ok ==> after.fs == before.fs - {e.value} && !Walk(after.fs, r.path).Found?)
      && (!ok ==> after == before)
  }

  lemma PlacedIsShown(v: Volume, root: Location, path: Location, offset: int, data: seq<int>)
    requires Sound(v) && Canonical(path) && Placed(v.fs, root, path)
    ensures var w, file := Put(v, path, offset, data), FileAt(v, path);
      && Spares(v, w.vol, file)
      && (file.Some? ==>
            && w.vol.fs == v.fs && file.value in w.vol.bytes
            && Rewrites(v.bytes[file.value], w.vol.bytes[file.value], offset, data, w.ok))
      && (file.None? ==> !w.ok && w.vol == v)
  {
    PutPlaced(v, root, path, offset, data);
    assert Walk(v.fs, path) == Found(path, LINKS);
  }

  /** Once the folders on the way to what is not there are made, it is still not there. */
  lemma StillNotThere(fs: Fs, root: Location, path: Location)
    requires Tree(fs) && Canonical(path) && Awaited(fs, root, path) && MkdirAll(fs, Parent(path)).ok
    ensures Walk(MkdirAll(fs, Parent(path)).fs, path).NotExist()
  {
    var k: nat, loc, left :| Deepest(fs, path, k, loc, left) && root <= loc;
    var j := |path| - 1;
    assert Parent(path) == path[..j];
    MkdirAllChain(fs, path, k, j, loc, left);
    if k < j {
      ChainEndsAtFile(fs, path, k, loc, left);
    }
  }

  lemma CreatedIsShown(v: Volume, path: Location, offset: int, data: seq<int>)
    requires Sound(v) && Canonical(path) && Walk(v.fs, path).NotExist()
    ensures var w := WriteFile(v, path, offset, data);
      Spares(v, w.vol, None) && (w.ok ==> offset <= 0 && Holds(w.vol, path, data))
  {
    CanonicalIsFree(path);
    WalkEnds(v.fs, [], path, LINKS);
    if WriteFile(v, path, offset, data).ok {
      WrittenIsThere(v, path, offset, data);
    }
  }

  lemma AwaitedIsShown(v: Volume, root: Location, path: Location, offset: int, data: seq<int>)
    requires Sound(v) && Canonical(path) && Awaited(v.fs, root, path)
    ensures var w := Put(v, path, offset, data);
      Spares(v, w.vol, None) && (w.ok ==> offset <= 0 && Holds(w.vol, path, data))
  {
    var up := MkdirAll(v.fs, Parent(path));
    MkdirAllExtends(v.fs, Parent(path));
    if up.ok {
      MkdirAllKeepsTree(v.fs, Parent(path));
      MkdirAllMakesNoFile(v.fs, Parent(path), v.bytes.Keys);
      StillNotThere(v.fs, root, path);
      CreatedIsShown(v.(fs := up.fs), path, offset, data);
    }
  }

  lemma WriteIsShown(v: Volume, r: Resolved, offset: int, data: seq<int>)
    requires Sound(v) && (r.Ok? ==> Canonical(r.path))
    requires r.Ok? ==> Placed(v.fs, r.root.path, r.path) || Awaited(v.fs, r.root.path, r.path)
    ensures var w := Written(v, r, offset, data); WriteShows(v, w.vol, r, offset, data, w.ok)
  {
    if Writable(r) {
      if Placed(v.fs, r.root.path, r.path) {
        assert Walk(v.fs, r.path) == Found(r.path, LINKS);
        PlacedIsShown(v, r.root.path, r.path, offset, data);
      } else {
        AwaitedIsShown(v, r.root.path, r.path, offset, data);
      }
    }
  }

  lemma MakeIsShown(v: Volume, r: Resolved)
    requires Sound(v) && (r.Ok? ==> Canonical(r.path))
    requires r.Ok? ==> Placed(v.fs, r.root.path, r.path) || Awaited(v.fs, r.root.path, r.path)
    ensures var w := Made(v, r); MakeShows(v, w.vol, r, w.ok)
  {
    if Writable(r) {
      MkdirAllExtends(v.fs, r.path);
      if MkdirAll(v.fs, r.path).ok {
        MadeIsThere(v.fs, r.root.path, r.path);
      }
    }
  }

  lemma RenameIsShown(v: Volume, r: Resolved, t: Resolved)
    requires Sound(v) && (r.Ok? ==> Canonical(r.path)) && (t.Ok? ==> Canonical(t.path))
    ensures var w := Renamed(v, r, t); RenameShows(v, w.vol, r, t, w.ok)
  {
    if Writable(r) && t.Ok? {
      RenameRenames(v.fs, r.path, t.path);
    }
  }

  lemma DeleteIsShown(v: Volume, r: Resolved)
    requires Sound(v) && (r.Ok? ==> Canonical(r.path))
    ensures var w := Deleted(v, r); DeleteShows(v, w.vol, r, w.ok)
  {
    if Removable(r) && Remove(v.fs, r.path).ok {
      RemovedIsGone(v.fs, r.path);
    }
  }

  lemma ResolvedIsReady(s: State, id: string, relative: string)
    requires Valid(s)
    ensures var r := Resolve(s, id, relative);
      r.Ok? ==> Canonical(r.path) && (Placed(s.fs, r.root.path, r.path) || Awaited(s.fs, r.root.path, r.path))
  {
    if Resolve(s, id, relative).Ok? {
      ResolveStaysInside(s, id, relative);
    }
  }

  // ---------------------------------------------------------------------------
  // Whole runs
  // ---------------------------------------------------------------------------

  function Run(s: State, requests: seq<Request>): State
    decreases |requests|
  {
    if requests == [] then s else Run(Apply(s, requests[0]), requests[1..])
  }

  ghost predicate OutsideAllWritable(l: Location, roots: map<string, Root>) {
    forall id :: id in roots && !roots[id].readOnly ==> !(roots[id].path <= l)
  }

  /** At every moment of the run `l` is outside the writable folders, and no write leads to it. */
  ghost predicate LeavesAlone(s: State, requests: seq<Request>, l: Location)
    decreases |requests|
  {
    OutsideAllWritable(l, s.roots) &&
    (requests == [] || (!Alters(s, requests[0], l) && LeavesAlone(Apply(s, requests[0]), requests[1..], l)))
  }

  lemma RequestLeavesOutside(s: State, q: Request, l: Location)
    requires Valid(s) && OutsideAllWritable(l, s.roots) && !Alters(s, q, l)
    ensures Same(s.vol, Apply(s, q).vol, l)
  {
    if q.Approve? || q.Revoke? || q.id !in s.roots || s.roots[q.id].readOnly {
      NothingElseActs(s, q);
    } else {
      RequestLeavesAloneIff(s, q, l);
    }
  }

  /** Any run of requests leaves an entry that stays outside, and that no write leads to, as it was. */
  lemma {:induction false} OutsideUnchanged(s: State, requests: seq<Request>, l: Location)
    requires Valid(s) && LeavesAlone(s, requests, l)
    ensures Valid(Run(s, requests)) && Same(s.vol, Run(s, requests).vol, l)
    decreases |requests|
  {
    if requests != [] {
      RequestLeavesOutside(s, requests[0], l);
      RequestKeepsValid(s, requests[0]);
      OutsideUnchanged(Apply(s, requests[0]), requests[1..], l);
    }
  }

  // ---------------------------------------------------------------------------
  // What is read
  // ---------------------------------------------------------------------------

  lemma PutFromStart(v: Volume, root: Location, path: Location, data: seq<int>)
    requires Sound(v) && Canonical(path) && Put(v, path, 0, data).ok
    ensures Holds(Put(v, path, 0, data).vol, path, data)
  {
    var made := v.(fs := MkdirAll(v.fs, Parent(path)).fs);
    MkdirAllKeepsTree(v.fs, Parent(path));
    MkdirAllMakesNoFile(v.fs, Parent(path), v.bytes.Keys);
    WrittenIsThere(made, path, 0, data);
  }

  /** A file created for an awaited path is where the walk ends, inside the root. */
  lemma LandsInside(v: Volume, root: Location, path: Location, data: seq<int>)
    requires Sound(v) && Canonical(path) && Awaited(v.fs, root, path) && !CreatesOutside(v.fs, root, path)
    requires Put(v, path, 0, data).ok
    ensures var p := Walk(Put(v, path, 0, data).vol.fs, path); p.Found? && root <= p.loc
  {
    var k: nat, loc, left :| Deepest(v.fs, path, k, loc, left) && root <= loc;
    var j := |path| - 1;
    assert Parent(path) == path[..j];
    MkdirAllChain(v.fs, path, k, j, loc, left);
    if k < j {
      ChainEndsAtFile(v.fs, path, k, loc, left);
    }
    var made := MkdirAll(v.fs, Parent(path)).fs;
    var p := Walk(made, path);
    MkdirAllKeepsTree(v.fs, Parent(path));
    CanonicalIsFree(path);
    WalkEnds(made, [], path, LINKS);
    assert p.Vacant? && root <= p.loc;
    FillingEndsWalk(made, p.loc, v.next, [], path, LINKS);
  }

  lemma PutLands(v: Volume, root: Location, there: Location, path: Location, data: seq<int>)
    requires Sound(v) && Canonical(path) && Canonical(there) && Put(v, path, 0, data).ok
    requires var p := Walk(v.fs, there);
      if p.Found? then path == p.loc && Placed(v.fs, root, path)
      else path == there && Awaited(v.fs, root, there) && !CreatesOutside(v.fs, root, there)
    ensures var after := Put(v, path, 0, data).vol;
      Walk(after.fs, there).Found? && root <= Walk(after.fs, there).loc && Holds(after, there, data)
  {
    PutFromStart(v, root, path, data);
    if Walk(v.fs, there).Found? {
      PutPlaced(v, root, path, 0, data);
      assert Walk(v.fs, path) == Found(path, LINKS);
    } else {
      LandsInside(v, root, there, data);
    }
  }

  /** The write asked for creates nothing outside its folder. */
  predicate LandsIn(s: State, id: string, relative: string) {
    var r := Resolve(s, id, relative);
    r.Ok? && !CreatesOutside(s.fs, r.root.path, r.path)
  }

  /** After a write from the start, the path asked for leads to the file written, inside the root. */
  lemma WriteLands(s: State, id: string, relative: string, data: seq<int>) returns (there: Location)
    requires Valid(s) && LandsIn(s, id, relative) && Acted(s, Write(id, relative, 0, data)).ok
    ensures Canonical(there) && Candidate(s.roots[id].path, relative) == Render(there) && Parse(Render(there)) == there
    ensures var after := Acted(s, Write(id, relative, 0, data)).vol;
      && Walk(after.fs, there).Found? && s.roots[id].path <= Walk(after.fs, there).loc
      && Holds(after, there, data)
  {
    there := WhatIsResolved(s, id, relative);
    var r := Resolve(s, id, relative);
    PutLands(s.vol, r.root.path, there, r.path, data);
  }

  lemma ResolvesTo(s: State, id: string, relative: string, there: Location)
    requires Valid(s) && id in s.roots && Nameable(relative)
    requires var root := s.roots[id].path;
      && Candidate(root, relative) == Render(there) && Parse(Render(there)) == there
      && WithinRoot(Render(root), Candidate(root, relative))
      && Walk(s.fs, there).Found? && root <= Walk(s.fs, there).loc && Walk(s.fs, there).loc in s.fs
    ensures Resolve(s, id, relative) == Ok(Walk(s.fs, there).loc, s.roots[id])
  {
    assert Proper(s.fs, Walk(s.fs, there).loc);
    WithinRootIsPrefix(s.roots[id].path, Walk(s.fs, there).loc);
  }

  /** The same request is then resolved to that file. */
  lemma ResolvedAfterWrite(s: State, id: string, relative: string, data: seq<int>)
    requires Valid(s) && LandsIn(s, id, relative) && Acted(s, Write(id, relative, 0, data)).ok
    ensures var t := Apply(s, Write(id, relative, 0, data));
      var r := Resolve(t, id, relative);
      Valid(t) && r.Ok? && !r.root.readOnly && Placed(t.fs, r.root.path, r.path) && Holds(t.vol, r.path, data)
  {
    var t := Apply(s, Write(id, relative, 0, data));
    RequestKeepsValid(s, Write(id, relative, 0, data));
    var there := WriteLands(s, id, relative, data);
    ResolvesTo(t, id, relative, there);
    InsideIsPlaced(t.fs, t.roots[id].path, Walk(t.fs, there).loc);
  }

  lemma PutOnPlaced(v: Volume, root: Location, path: Location, before: seq<int>, data: seq<int>)
    requires Sound(v) && Canonical(path) && Placed(v.fs, root, path) && Holds(v, path, before)
    ensures var w := Put(v, path, |before|, data); w.ok && w.vol.fs == v.fs && Holds(w.vol, path, before + data)
  {
    PutPlaced(v, root, path, |before|, data);
    assert Walk(v.fs, path) == Found(path, LINKS);
    assert before == [] ==> before + data == data;
  }

  /**
   * A resumable upload: a first part written from the start, and the rest at the offset
   * reached, leave exactly the two parts one after the other.
   */
  lemma UploadResumes(s: State, id: string, relative: string, a: seq<int>, b: seq<int>)
    requires Valid(s) && LandsIn(s, id, relative) && Acted(s, Write(id, relative, 0, a)).ok
    ensures var t := Apply(s, Write(id, relative, 0, a));
      var q := Write(id, relative, |a|, b);
      var u := Apply(t, q);
      var r := Resolve(t, id, relative);
      Acted(t, q).ok && r.Ok? && Placed(u.fs, r.root.path, r.path) && Holds(u.vol, r.path, a + b)
  {
    ResolvedAfterWrite(s, id, relative, a);
    var t := Apply(s, Write(id, relative, 0, a));
    var r := Resolve(t, id, relative);
    ResolveStaysInside(t, id, relative);
    PutOnPlaced(t.vol, r.root.path, r.path, a, b);
  }

  /** Whatever a request reads, a file or a folder, is at or below the root of its folder. */
  lemma ReadsStayInside(s: State, id: string, relative: string)
    requires Valid(s) && Resolve(s, id, relative).Ok? && Walk(s.fs, Resolve(s, id, relative).path).Found?
    ensures var r := Resolve(s, id, relative);
      Walk(s.fs, r.path).loc == r.path && s.roots[id].path <= r.path && r.path in s.fs
  {
    ResolveStaysInside(s, id, relative);
  }

  lemma ShowsIffLeadsInside(fs: Fs, root: Location, l: Location)
    requires Tree(fs) && Canonical(root) && l in fs && root <= l
    ensures ShowsEntry(fs, root, l) <==> Walk(fs, l).Found? && root <= Walk(fs, l).loc
  {
    assert Proper(fs, l);
    CanonicalIsFree(l);
    WalkEnds(fs, [], l, LINKS);
    if !fs[l].Link? {
      NamesLead(fs, l, LINKS);
    }
    var p := Walk(fs, l);
    if p.Found? {
      assert Proper(fs, p.loc);
      WithinRootIsPrefix(root, p.loc);
    }
  }

  lemma InShown(fs: Fs, root: Location, folder: Location, name: string)
    ensures name in Shown(fs, root, folder) <==> folder + [name] in fs && ShowsEntry(fs, root, folder + [name])
  {
    var l := folder + [name];
    assert Parent(l) == folder && l[|l| - 1] == name;
    forall k | k in fs && k != [] && Parent(k) == folder && k[|k| - 1] == name
      ensures k == l
    {
    }
  }

  /** A name is shown exactly when it is there and what it leads to exists inside the root. */
  lemma ShownIffReachable(fs: Fs, root: Location, folder: Location, name: string)
    requires Tree(fs) && Canonical(root) && root <= folder
    ensures name in Shown(fs, root, folder) <==>
      && folder + [name] in fs
      && Walk(fs, folder + [name]).Found? && root <= Walk(fs, folder + [name]).loc
  {
    InShown(fs, root, folder, name);
    if folder + [name] in fs {
      ShowsIffLeadsInside(fs, root, folder + [name]);
    }
  }

  /** The path a listing gives for a name in a folder. */
  function ListedPath(root: Location, folder: Location, name: string): string
    requires root <= folder
  {
    Join(folder[|root|..] + [name], '/')
  }

  /** Nothing in the text that resolving refuses at once. */
  predicate Clear(relative: string) {
    ':' !in relative && '\0' !in relative && !("\\\\" <= relative)
  }

  /** Read with its backslashes as slashes, the path leads to this entry. */
  predicate LeadsTo(fs: Fs, root: Location, relative: string, loc: Location) {
    var text := Candidate(root, Slashed(relative));
    WithinRoot(Render(root), text) && (var p := Walk(fs, Parse(text)); p.Found? && p.loc == loc)
  }

  lemma SlashedTwice(path: string)
    ensures Slashed(Slashed(path)) == Slashed(path)
    ensures '\\' !in path ==> Slashed(path) == path
  {
  }

  /**
   * What a listing shows can be asked for by the path it gives exactly when no colon, NUL
   * or leading pair of backslashes stands in it, and, where a name holds a backslash, the
   * path read with slashes leads to that entry all the same.
   */
  lemma ListedCanBeAskedForIff(s: State, id: string, folder: Location, name: string)
    requires Valid(s) && id in s.roots && s.roots[id].path <= folder
    requires name in Shown(s.fs, s.roots[id].path, folder)
    ensures Walk(s.fs, folder + [name]).Found?
    ensures var root, relative := s.roots[id], ListedPath(s.roots[id].path, folder, name);
      var loc := Walk(s.fs, folder + [name]).loc;
      (Resolve(s, id, relative) == Ok(loc, root)) <==>
      (Clear(relative) && ('\\' in relative ==> LeadsTo(s.fs, root.path, relative, loc)))
  {
    var root, relative := s.roots[id].path, ListedPath(s.roots[id].path, folder, name);
    var there := folder + [name];
    ShownIffReachable(s.fs, root, folder, name);
    assert Proper(s.fs, there);
    CanonicalIsFree(there);
    WalkEnds(s.fs, [], there, LINKS);
    ListedIsNameable(root, folder, name);
    SlashedTwice(relative);
    var loc := Walk(s.fs, there).loc;
    if '\\' !in relative {
      ListedCandidate(root, folder, name);
      assert LeadsTo(s.fs, root, relative, loc);
    }
    if Clear(relative) {
      AskedLeadsIff(s, id, relative, loc);
    }
  }

  /** A request is resolved to an entry inside the root exactly when its slashed form leads there. */
  lemma AskedLeadsIff(s: State, id: string, relative: string, loc: Location)
    requires Valid(s) && id in s.roots && Nameable(relative)
    requires loc in s.fs && !s.fs[loc].Link? && s.roots[id].path <= loc
    ensures Resolve(s, id, relative) == Ok(loc, s.roots[id]) <==> LeadsTo(s.fs, s.roots[id].path, relative, loc)
  {
    var root := s.roots[id].path;
    SlashedTwice(relative);
    assert Candidate(root, Slashed(relative)) == Candidate(root, relative);
    var c := CandidateIsClean(root, relative);
    assert Proper(s.fs, loc);
    WithinRootIsPrefix(root, loc);
    NamesLead(s.fs, loc, LINKS);
  }

  lemma ListedIsNameable(root: Location, folder: Location, name: string)
    requires root <= folder && Canonical(folder + [name])
    ensures var relative := ListedPath(root, folder, name); Nameable(relative) <==> Clear(relative)
  {
    var names, there := folder[|root|..] + [name], folder + [name];
    assert there[..|root|] == root && there == root + names;
    assert forall i :: 0 <= i < |names| ==> names[i] == there[|root| + i];
    assert forall i :: 0 <= i < |root| ==> root[i] == there[i];
    NamesAreClean(root, names);
  }

  /** Without a backslash, the candidate made from a listed path is the entry listed. */
  lemma ListedCandidate(root: Location, folder: Location, name: string)
    requires root <= folder && Canonical(folder + [name])
    requires '\\' !in ListedPath(root, folder, name)
    ensures var relative, there := ListedPath(root, folder, name), folder + [name];
      && Candidate(root, relative) == Render(there) && Parse(Render(there)) == there
      && WithinRoot(Render(root), Render(there))
  {
    var names, there, relative := folder[|root|..] + [name], folder + [name], ListedPath(root, folder, name);
    assert there == root + names;
    assert forall i :: 0 <= i < |names| ==> names[i] == there[|root| + i];
    assert forall i :: 0 <= i < |root| ==> root[i] == there[i];
    NamesAreClean(root, names);
    SlashedTwice(relative);
    ParseRender(there);
    WithinRootIsPrefix(root, there);
  }
}
