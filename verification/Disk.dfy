/**
 * A filesystem with symbolic links, and the calls the folder vault makes on it. A path
 * handed to a call is a list of names from the root; walking it follows links, with one
 * limit on how many. A file is its number, under which its bytes are kept: any number of
 * names may lead to one file. The operating system's other refusals (permissions, space,
 * name length) are not modelled.
 */
module Disk {
  import opened Text
  import opened Paths

  datatype Node = Dir | File(number: nat) | Link(target: string)

  type Fs = map<Location, Node>

  /** The names and the bytes of the files; `next` has not been given to a file yet. */
  datatype Volume = Volume(fs: Fs, bytes: map<nat, seq<int>>, next: nat)

  const LINKS := 255

  function Parent(loc: Location): Location {
    if loc == [] then [] else loc[..|loc| - 1]
  }

  ghost predicate Proper(fs: Fs, l: Location) {
    Canonical(l) && Parent(l) in fs && fs[Parent(l)] == Dir
  }

  /** Every entry has a proper name and lies in a directory. */
  ghost predicate Tree(fs: Fs) {
    && [] in fs && fs[[]] == Dir
    && forall l {:trigger Proper(fs, l)} :: l in fs ==> Proper(fs, l)
  }

  /**
   * Where a walk ends: at an entry with some links left to follow, at a last name that is
   * vacant, at an earlier name that is missing, or in an error.
   */
  datatype Place =
    | Found(loc: Location, left: nat)
    | Vacant(loc: Location)
    | Missing
    | NotADirectory
    | TooManyLinks
  {
    predicate NotExist() {
      Vacant? || Missing?
    }
  }

  function Locate(fs: Fs, at: Location, todo: seq<string>, left: nat): Place
    decreases left, |todo|
  {
    if todo == [] then Found(at, left)
    else
      var c, rest := todo[0], todo[1..];
      if c == "" || c == "." then Locate(fs, at, rest, left)
      else if c == ".." then Locate(fs, Parent(at), rest, left)
      else
        var next := at + [c];
        if next !in fs then if rest == [] then Vacant(next) else Missing
        else
          match fs[next]
          case Dir => Locate(fs, next, rest, left)
          case File(_) => if rest == [] then Found(next, left) else NotADirectory
          case Link(target) =>
            if left == 0 then TooManyLinks
            else Locate(fs, if Rooted(target) then [] else at, Split(target, '/') + rest, left - 1)
  }

  function Walk(fs: Fs, path: Location): Place {
    Locate(fs, [], path, LINKS)
  }

  // ---------------------------------------------------------------------------
  // Walking
  // ---------------------------------------------------------------------------

  /** A walk ends at what is no link, or at a vacant name in a directory. */
  lemma {:induction false} WalkEnds(fs: Fs, at: Location, todo: seq<string>, left: nat)
    requires Tree(fs) && at in fs && fs[at] == Dir && AllFree(todo, '/')
    ensures var p := Locate(fs, at, todo, left);
      && (p.Found? ==> p.loc in fs && !fs[p.loc].Link?)
      && (p.Vacant? ==> p.loc !in fs && p.loc != [] && Proper(fs, p.loc))
    decreases left, |todo|
  {
    if todo != [] {
      var c, rest := todo[0], todo[1..];
      var next := at + [c];
      assert Proper(fs, at);
      if c == "" || c == "." {
        WalkEnds(fs, at, rest, left);
      } else if c == ".." {
        WalkEnds(fs, Parent(at), rest, left);
      } else if next in fs && fs[next].Dir? {
        WalkEnds(fs, next, rest, left);
      } else if next in fs && fs[next].Link? && left > 0 {
        var target := fs[next].target;
        WalkEnds(fs, if Rooted(target) then [] else at, Split(target, '/') + rest, left - 1);
      } else if next !in fs {
        assert Free(c, '/');
        assert Parent(next) == at;
      }
    }
  }

  /** Walking on after a first part. */
  function Onward(fs: Fs, p: Place, more: seq<string>): Place {
    match p
    case Found(loc, left) => if loc in fs && fs[loc].File? then NotADirectory else Locate(fs, loc, more, left)
    case Vacant(_) => Missing
    case Missing => Missing
    case NotADirectory => NotADirectory
    case TooManyLinks => TooManyLinks
  }

  lemma {:induction false} WalkOn(fs: Fs, at: Location, first: seq<string>, more: seq<string>, left: nat)
    requires Tree(fs) && at in fs && fs[at] == Dir && more != []
    ensures Locate(fs, at, first + more, left) == Onward(fs, Locate(fs, at, first, left), more)
    decreases left, |first|
  {
    if first == [] {
      assert first + more == more;
    } else {
      var c, rest := first[0], first[1..];
      var all := first + more;
      assert Proper(fs, at);
      assert all[0] == c && all[1..] == rest + more;
      var next := at + [c];
      if c == "" || c == "." {
        WalkOn(fs, at, rest, more, left);
      } else if c == ".." {
        WalkOn(fs, Parent(at), rest, more, left);
      } else if next in fs && fs[next].Dir? {
        WalkOn(fs, next, rest, more, left);
      } else if next in fs && fs[next].Link? && left > 0 {
        var target := fs[next].target;
        var names := Split(target, '/');
        assert names + (rest + more) == (names + rest) + more;
        WalkOn(fs, if Rooted(target) then [] else at, names + rest, more, left - 1);
      }
    }
  }

  ghost predicate Extends(fs: Fs, bigger: Fs) {
    forall l :: l in fs ==> l in bigger && bigger[l] == fs[l]
  }

  /** New entries do not change where a successful walk ends. */
  lemma {:induction false} WalkStands(fs: Fs, bigger: Fs, at: Location, todo: seq<string>, left: nat)
    requires Extends(fs, bigger) && Locate(fs, at, todo, left).Found?
    ensures Locate(bigger, at, todo, left) == Locate(fs, at, todo, left)
    decreases left, |todo|
  {
    if todo != [] {
      var c, rest := todo[0], todo[1..];
      var next := at + [c];
      if c == "" || c == "." {
        WalkStands(fs, bigger, at, rest, left);
      } else if c == ".." {
        WalkStands(fs, bigger, Parent(at), rest, left);
      } else if fs[next].Dir? {
        WalkStands(fs, bigger, next, rest, left);
      } else if fs[next].Link? {
        var target := fs[next].target;
        WalkStands(fs, bigger, if Rooted(target) then [] else at, Split(target, '/') + rest, left - 1);
      }
    }
  }

  /** One good name more. */
  lemma Step(fs: Fs, at: Location, c: string, left: nat)
    requires GoodName(c)
    ensures at + [c] !in fs ==> Locate(fs, at, [c], left) == Vacant(at + [c])
    ensures at + [c] in fs && !fs[at + [c]].Link? ==> Locate(fs, at, [c], left) == Found(at + [c], left)
  {
    assert [c][1..] == [];
  }

  /** The name of an entry that is no link leads to that entry. */
  lemma {:induction false} NamesLead(fs: Fs, loc: Location, left: nat)
    requires Tree(fs) && loc in fs && !fs[loc].Link?
    ensures Locate(fs, [], loc, left) == Found(loc, left)
    decreases |loc|
  {
    if loc != [] {
      var c := loc[|loc| - 1];
      assert Proper(fs, loc);
      assert GoodName(c);
      NamesLead(fs, Parent(loc), left);
      assert loc == Parent(loc) + [c];
      WalkOn(fs, [], Parent(loc), [c], left);
      Step(fs, Parent(loc), c, left);
    }
  }

  // ---------------------------------------------------------------------------
  // The calls
  // ---------------------------------------------------------------------------

  /** The entry a path names when its last name is not followed. */
  function Entry(fs: Fs, path: Location): Option<Location> {
    if path == [] then None
    else
      var p := Walk(fs, Parent(path));
      if p.Found? && p.loc in fs && fs[p.loc].Dir? then Some(p.loc + [path[|path| - 1]]) else None
  }

  datatype Done = Done(fs: Fs, ok: bool)

  function Mkdir(fs: Fs, path: Location): Done {
    var e := Entry(fs, path);
    if e.None? then Done(fs, false)
    else if e.value in fs then Done(fs, fs[e.value].Dir?)
    else Done(fs[e.value := Dir], true)
  }

  /** A directory and whatever of its parents is missing; what exists already is left alone. */
  function MkdirAll(fs: Fs, path: Location): Done
    decreases |path|
  {
    var p := Walk(fs, path);
    if p.Found? then Done(fs, p.loc in fs && fs[p.loc].Dir?)
    else if path == [] then Done(fs, false)
    else
      var up := MkdirAll(fs, Parent(path));
      if up.ok then Mkdir(up.fs, path) else up
  }

  /** The bytes of a file after writing from its start without cutting it first. */
  function Overlaid(content: seq<int>, data: seq<int>): seq<int> {
    if |data| >= |content| then data else data + content[|data|..]
  }

  /** What a file holds after a write; a resumed write has to start at its end. */
  function Resulting(content: seq<int>, offset: int, data: seq<int>): Option<seq<int>> {
    if offset == 0 then Some(data)
    else if offset < 0 then Some(Overlaid(content, data))
    else if |content| == offset then Some(content + data)
    else None
  }

  datatype Wrote = Wrote(vol: Volume, ok: bool)

  /** The file a path leads to. */
  function FileAt(v: Volume, path: Location): Option<nat> {
    var p := Walk(v.fs, path);
    if p.Found? && p.loc in v.fs && v.fs[p.loc].File? && v.fs[p.loc].number in v.bytes
    then Some(v.fs[p.loc].number) else None
  }

  /** Opening for writing creates a vacant file, whatever the offset. */
  function WriteFile(v: Volume, path: Location, offset: int, data: seq<int>): Wrote {
    var p, file := Walk(v.fs, path), FileAt(v, path);
    if p.Vacant? then
      Wrote(Volume(v.fs[p.loc := File(v.next)], v.bytes[v.next := if offset <= 0 then data else []], v.next + 1),
            offset <= 0)
    else if file.Some? then
      var content := Resulting(v.bytes[file.value], offset, data);
      if content.Some? then Wrote(v.(bytes := v.bytes[file.value := content.value]), true) else Wrote(v, false)
    else Wrote(v, false)
  }

  predicate HasChild(fs: Fs, loc: Location) {
    exists l :: l in fs && l != [] && Parent(l) == loc
  }

  function Remove(fs: Fs, path: Location): Done {
    var e := Entry(fs, path);
    if e.None? || e.value !in fs || HasChild(fs, e.value) then Done(fs, false)
    else Done(fs - {e.value}, true)
  }

  /** `from` and all below it, now at `to`. */
  function Moved(fs: Fs, from: Location, to: Location): (after: Fs)
    ensures forall l :: l in after <==>
      (l in fs && !(from <= l) && l != to) || (to <= l && from + l[|to|..] in fs)
    ensures forall l :: l in after ==>
      after[l] == if to <= l && from + l[|to|..] in fs then fs[from + l[|to|..]] else fs[l]
  {
    var kept := map l | l in fs && !(from <= l) && l != to :: fs[l];
    var names := set l | l in fs && from <= l :: to + l[|from|..];
    var moved := map l | l in names && to <= l && from + l[|to|..] in fs :: fs[from + l[|to|..]];
    MovedNames(fs, from, to);
    kept + moved
  }

  lemma MovedNames(fs: Fs, from: Location, to: Location)
    ensures forall l :: to <= l && from + l[|to|..] in fs ==> l in (set k | k in fs && from <= k :: to + k[|from|..])
  {
    forall l | to <= l && from + l[|to|..] in fs
      ensures l in (set k | k in fs && from <= k :: to + k[|from|..])
    {
      var k := from + l[|to|..];
      assert k[|from|..] == l[|to|..];
      assert to + k[|from|..] == l;
    }
  }

  /** A directory is never replaced, none is moved below itself, and two names of one file are left alone. */
  function Rename(fs: Fs, from: Location, to: Location): Done {
    var a, b := Entry(fs, from), Entry(fs, to);
    if a.None? || b.None? || a.value !in fs then Done(fs, false)
    else if b.value in fs && fs[b.value].Dir? then Done(fs, false)
    else if a.value == b.value then Done(fs, true)
    else if fs[a.value].File? && b.value in fs && fs[b.value] == fs[a.value] then Done(fs, true)
    else if fs[a.value].Dir? && (b.value in fs || a.value <= b.value) then Done(fs, false)
    else Done(Moved(fs, a.value, b.value), true)
  }

  // ---------------------------------------------------------------------------
  // What the calls keep
  // ---------------------------------------------------------------------------

  /** Nothing changed except at and below `root`. */
  ghost predicate Confined(before: Fs, after: Fs, root: Location) {
    forall l :: !(root <= l) ==> (l in before <==> l in after) && (l in before ==> after[l] == before[l])
  }

  /** An entry is there in both or in neither, is the same, and reads the same. */
  ghost predicate Same(before: Volume, after: Volume, l: Location) {
    && (l in before.fs <==> l in after.fs)
    && (l in before.fs ==> after.fs[l] == before.fs[l] && Content(after, l) == Content(before, l))
  }

  function Content(v: Volume, l: Location): Option<seq<int>> {
    if l in v.fs && v.fs[l].File? && v.fs[l].number in v.bytes then Some(v.bytes[v.fs[l].number]) else None
  }

  ghost predicate FilesAmong(fs: Fs, numbers: set<nat>) {
    forall l :: l in fs && fs[l].File? ==> fs[l].number in numbers
  }

  /** Names lie in directories, every file has its bytes, and `next` is free. */
  ghost predicate Sound(v: Volume) {
    && Tree(v.fs) && FilesAmong(v.fs, v.bytes.Keys)
    && (forall n :: n in v.bytes ==> n < v.next)
  }

  lemma EntryIsProper(fs: Fs, path: Location)
    requires Tree(fs) && Canonical(path) && Entry(fs, path).Some?
    ensures var e := Entry(fs, path).value;
      e != [] && Proper(fs, e)
  {
    var e, p := Entry(fs, path).value, Walk(fs, Parent(path));
    assert Parent(e) == p.loc;
    assert GoodName(path[|path| - 1]);
    assert Proper(fs, p.loc);
  }

  lemma AddKeepsTree(fs: Fs, e: Location, n: Node)
    requires Tree(fs) && e != [] && Proper(fs, e)
    requires e in fs ==> !fs[e].Dir?
    ensures Tree(fs[e := n])
  {
    var after := fs[e := n];
    forall l | l in after
      ensures Proper(after, l)
    {
      assert Proper(fs, l);
    }
  }

  lemma MkdirKeepsTree(fs: Fs, path: Location)
    requires Tree(fs) && Canonical(path)
    ensures Tree(Mkdir(fs, path).fs)
  {
    var e := Entry(fs, path);
    if e.Some? && e.value !in fs {
      EntryIsProper(fs, path);
      AddKeepsTree(fs, e.value, Dir);
    }
  }

  lemma {:induction false} MkdirAllKeepsTree(fs: Fs, path: Location)
    requires Tree(fs) && Canonical(path)
    ensures Tree(MkdirAll(fs, path).fs)
    decreases |path|
  {
    if !Walk(fs, path).Found? && path != [] {
      MkdirAllKeepsTree(fs, Parent(path));
      MkdirKeepsTree(MkdirAll(fs, Parent(path)).fs, path);
    }
  }

  lemma WriteFileKeepsSound(v: Volume, path: Location, offset: int, data: seq<int>)
    requires Sound(v) && Canonical(path)
    ensures Sound(WriteFile(v, path, offset, data).vol)
  {
    CanonicalIsFree(path);
    WalkEnds(v.fs, [], path, LINKS);
    var p := Walk(v.fs, path);
    if p.Vacant? {
      AddKeepsTree(v.fs, p.loc, File(v.next));
    }
  }

  /** Calls that change names only make no file. */
  lemma {:induction false} MkdirAllMakesNoFile(fs: Fs, path: Location, numbers: set<nat>)
    requires FilesAmong(fs, numbers)
    ensures FilesAmong(MkdirAll(fs, path).fs, numbers)
    decreases |path|
  {
    if !Walk(fs, path).Found? && path != [] {
      MkdirAllMakesNoFile(fs, Parent(path), numbers);
    }
  }

  lemma RenameMakesNoFile(fs: Fs, from: Location, to: Location, numbers: set<nat>)
    requires FilesAmong(fs, numbers)
    ensures FilesAmong(Rename(fs, from, to).fs, numbers)
  {
  }

  lemma RemoveKeepsTree(fs: Fs, path: Location)
    requires Tree(fs) && Canonical(path)
    ensures Tree(Remove(fs, path).fs)
  {
    var e := Entry(fs, path);
    if e.Some? {
      EntryIsProper(fs, path);
      if e.value in fs && !HasChild(fs, e.value) {
        forall l | l in fs - {e.value}
          ensures Proper(fs - {e.value}, l)
        {
          assert Proper(fs, l);
          assert l != [] ==> Parent(l) != e.value;
        }
      }
    }
  }

  lemma RemoveKeepsSound(v: Volume, path: Location)
    requires Sound(v) && Canonical(path)
    ensures Sound(v.(fs := Remove(v.fs, path).fs))
  {
    RemoveKeepsTree(v.fs, path);
  }

  lemma {:induction false} AncestorIn(fs: Fs, l: Location, a: Location)
    requires Tree(fs) && l in fs && a < l
    ensures a in fs && fs[a] == Dir
    decreases |l|
  {
    assert Proper(fs, l);
    if a != Parent(l) {
      AncestorIn(fs, Parent(l), a);
    }
  }

  lemma MovedKeepsTree(fs: Fs, from: Location, to: Location)
    requires Tree(fs) && from in fs && from != [] && to != [] && from != to && Proper(fs, to)
    requires to in fs ==> !fs[to].Dir? && !fs[from].Dir?
    requires fs[from].Dir? ==> !(from <= to)
    ensures Tree(Moved(fs, from, to))
  {
    var after := Moved(fs, from, to);
    TargetParentOutside(fs, from, to);
    forall l | l in after
      ensures Proper(after, l)
    {
      if to <= l && from + l[|to|..] in fs {
        if l == to {
          ParentStays(fs, from, to, Parent(to));
        } else {
          MovedIsProper(fs, from, to, l);
        }
      } else {
        assert Proper(fs, l);
        if l != [] {
          NotBelow(from, l);
        }
        ParentStays(fs, from, to, Parent(l));
      }
    }
    ParentStays(fs, from, to, []);
  }

  lemma NotBelow(from: Location, l: Location)
    requires l != [] && !(from <= l)
    ensures !(from <= Parent(l))
  {
  }

  lemma TargetParentOutside(fs: Fs, from: Location, to: Location)
    requires Tree(fs) && from in fs && to != [] && from != to && Proper(fs, to)
    requires fs[from].Dir? ==> !(from <= to)
    ensures !(from <= Parent(to))
  {
    if from <= Parent(to) {
      if from != Parent(to) {
        AncestorIn(fs, Parent(to), from);
      }
    }
  }

  lemma MovedIsProper(fs: Fs, from: Location, to: Location, l: Location)
    requires Tree(fs) && Canonical(to) && to <= l && l != to && from + l[|to|..] in fs
    ensures Proper(Moved(fs, from, to), l)
  {
    var k := from + l[|to|..];
    assert Proper(fs, k);
    assert Parent(k) == from + Parent(l)[|to|..];
    forall i | 0 <= i < |l|
      ensures GoodName(l[i])
    {
      if i >= |to| {
        assert l[i] == k[i - |to| + |from|];
      } else {
        assert l[i] == to[i];
      }
    }
  }

  lemma ParentStays(fs: Fs, from: Location, to: Location, p: Location)
    requires Tree(fs) && p in fs && fs[p] == Dir && !(from <= p) && from in fs && from != []
    requires to in fs ==> !fs[to].Dir?
    requires to != [] && Proper(fs, to)
    ensures p in Moved(fs, from, to) && Moved(fs, from, to)[p] == Dir
  {
    if to < p {
      AncestorIn(fs, p, to);
    }
  }

  lemma RenameMoves(fs: Fs, from: Location, to: Location)
    ensures var after := Rename(fs, from, to).fs;
      || after == fs
      || (Entry(fs, from).Some? && Entry(fs, to).Some?
          && after == Moved(fs, Entry(fs, from).value, Entry(fs, to).value))
  {
  }

  lemma RenameKeepsTree(fs: Fs, from: Location, to: Location)
    requires Tree(fs) && Canonical(from) && Canonical(to)
    ensures Tree(Rename(fs, from, to).fs)
  {
    var a, b := Entry(fs, from), Entry(fs, to);
    if Rename(fs, from, to).fs != fs {
      EntryIsProper(fs, from);
      EntryIsProper(fs, to);
      MovedKeepsTree(fs, a.value, b.value);
    }
  }

  lemma MovedIsConfined(fs: Fs, from: Location, to: Location, root: Location)
    requires root <= from && root <= to
    ensures Confined(fs, Moved(fs, from, to), root)
  {
  }

  // ---------------------------------------------------------------------------
  // Making what is missing
  // ---------------------------------------------------------------------------

  /** Directories below `loc`, one inside the other. */
  function Chain(fs: Fs, loc: Location, names: Location): Fs
    decreases |names|
  {
    if names == [] then fs else Chain(fs, loc, Parent(names))[loc + names := Dir]
  }

  lemma {:induction false} ChainHas(fs: Fs, loc: Location, names: Location)
    ensures forall i :: 0 < i <= |names| ==>
      loc + names[..i] in Chain(fs, loc, names) && Chain(fs, loc, names)[loc + names[..i]] == Dir
    decreases |names|
  {
    if names != [] {
      ChainHas(fs, loc, Parent(names));
      forall i | 0 < i <= |names|
        ensures loc + names[..i] in Chain(fs, loc, names) && Chain(fs, loc, names)[loc + names[..i]] == Dir
      {
        if i < |names| {
          assert Parent(names)[..i] == names[..i];
        } else {
          assert names[..i] == names;
        }
      }
    }
  }

  lemma {:induction false} ChainAdds(fs: Fs, loc: Location, names: Location)
    requires Tree(fs) && names != [] && loc + [names[0]] !in fs
    ensures var after := Chain(fs, loc, names);
      && Extends(fs, after) && Confined(fs, after, loc)
      && (forall l :: l in after && l !in fs ==> |l| <= |loc + names|)
    decreases |names|
  {
    NothingBelow(fs, loc, names);
    if |names| > 1 {
      ChainAdds(fs, loc, Parent(names));
    } else {
      assert Parent(names) == [];
    }
  }

  /** Good names, each of them a directory, lead to the last. */
  lemma {:induction false} DirectoriesLead(fs: Fs, at: Location, names: Location, left: nat)
    requires Canonical(names)
    requires forall i :: 0 < i <= |names| ==> at + names[..i] in fs && fs[at + names[..i]] == Dir
    ensures Locate(fs, at, names, left) == Found(at + names, left)
    decreases |names|
  {
    if names != [] {
      var next, rest := at + [names[0]], names[1..];
      assert at + names[..1] == next;
      assert GoodName(names[0]);
      forall i | 0 < i <= |rest|
        ensures next + rest[..i] in fs && fs[next + rest[..i]] == Dir
      {
        assert next + rest[..i] == at + names[..i + 1];
      }
      DirectoriesLead(fs, next, rest, left);
      assert next + rest == at + names;
    }
  }

  lemma ChainLeads(fs: Fs, loc: Location, names: Location, left: nat)
    requires Canonical(names) && names != []
    ensures var after := Chain(fs, loc, names);
      Locate(after, loc, names, left) == Found(loc + names, left) && after[loc + names] == Dir
  {
    ChainHas(fs, loc, names);
    DirectoriesLead(Chain(fs, loc, names), loc, names, left);
    assert names[..|names|] == names;
  }

  lemma NothingBelow(fs: Fs, loc: Location, names: Location)
    requires Tree(fs) && names != [] && loc + [names[0]] !in fs
    ensures loc + names !in fs
  {
    if |names| == 1 {
      assert names == [names[0]];
    } else if loc + names in fs {
      assert (loc + names)[..|loc| + 1] == loc + [names[0]];
      AncestorIn(fs, loc + names, loc + [names[0]]);
    }
  }

  /** The deepest part of `path` that can be walked: its first k names, which lead to `loc`. */
  ghost predicate Deepest(fs: Fs, path: Location, k: nat, loc: Location, left: nat) {
    && k < |path| && Walk(fs, path[..k]) == Found(loc, left) && loc in fs && fs[loc] == Dir
    && forall i :: k < i <= |path| ==> !Walk(fs, path[..i]).Found?
  }

  /** The names between two depths. */
  function Between(path: Location, k: nat, j: nat): Location
    requires k <= j <= |path|
  {
    path[k..j]
  }

  lemma BetweenParent(path: Location, k: nat, j: nat)
    requires k < j <= |path|
    ensures Between(path, k, j) != [] && Parent(Between(path, k, j)) == Between(path, k, j - 1)
  {
    assert path[k..j][..j - 1 - k] == path[k..j - 1];
  }

  lemma WalkFromDeepest(fs: Fs, bigger: Fs, path: Location, k: nat, j: nat, loc: Location, left: nat)
    requires Tree(bigger) && Extends(fs, bigger) && k < j <= |path|
    requires Walk(fs, path[..k]) == Found(loc, left) && loc in fs && fs[loc] == Dir
    ensures Walk(bigger, path[..j]) == Locate(bigger, loc, Between(path, k, j), left)
  {
    WalkStands(fs, bigger, [], path[..k], LINKS);
    WalkOn(bigger, [], path[..k], Between(path, k, j), LINKS);
    assert path[..j] == path[..k] + Between(path, k, j);
  }

  /**
   * Where the first name behind the deepest part is vacant, making directories adds a
   * chain below it; where a link stands there that leads nowhere, nothing is made.
   */
  lemma {:induction false} MkdirAllChain(fs: Fs, path: Location, k: nat, j: nat, loc: Location, left: nat)
    requires Tree(fs) && Canonical(path) && Deepest(fs, path, k, loc, left) && k <= j <= |path|
    ensures j == k ==> MkdirAll(fs, path[..j]) == Done(fs, true)
    ensures j > k && loc + [path[k]] in fs ==> MkdirAll(fs, path[..j]) == Done(fs, false)
    ensures j > k && loc + [path[k]] !in fs ==>
      MkdirAll(fs, path[..j]) == Done(Chain(fs, loc, Between(path, k, j)), true)
    decreases j
  {
    if j > k {
      MkdirAllChain(fs, path, k, j - 1, loc, left);
      assert Parent(path[..j]) == path[..j - 1];
      if j - 1 == k {
        FirstMissing(fs, path, k, loc, left);
      } else if loc + [path[k]] !in fs {
        MkdirOnChain(fs, path, k, j, loc, left);
      }
    }
  }

  lemma FirstMissing(fs: Fs, path: Location, k: nat, loc: Location, left: nat)
    requires Tree(fs) && Canonical(path) && Deepest(fs, path, k, loc, left)
    ensures Mkdir(fs, path[..k + 1]) ==
      if loc + [path[k]] in fs then Done(fs, false) else Done(Chain(fs, loc, Between(path, k, k + 1)), true)
    ensures loc + [path[k]] in fs ==> fs[loc + [path[k]]].Link?
  {
    var c := path[k];
    assert GoodName(c);
    assert Parent(path[..k + 1]) == path[..k];
    assert Between(path, k, k + 1) == [c];
    assert Parent([c]) == [];
    WalkFromDeepest(fs, fs, path, k, k + 1, loc, left);
    Step(fs, loc, c, left);
  }

  lemma MkdirOnChain(fs: Fs, path: Location, k: nat, j: nat, loc: Location, left: nat)
    requires Tree(fs) && Canonical(path) && Deepest(fs, path, k, loc, left) && k + 1 < j <= |path|
    requires loc + [path[k]] !in fs
    requires MkdirAll(fs, path[..j - 1]) == Done(Chain(fs, loc, Between(path, k, j - 1)), true)
    ensures Mkdir(Chain(fs, loc, Between(path, k, j - 1)), path[..j]) == Done(Chain(fs, loc, Between(path, k, j)), true)
  {
    var short, long := Between(path, k, j - 1), Between(path, k, j);
    ChainIsWalked(fs, path, k, j - 1, loc, left);
    ChainEndsVacant(fs, path, k, j, loc);
    MkdirAt(Chain(fs, loc, short), path[..j], loc + short, left);
    BetweenParent(path, k, j);
  }

  lemma ChainEndsVacant(fs: Fs, path: Location, k: nat, j: nat, loc: Location)
    requires Tree(fs) && k + 1 < j <= |path| && loc + [path[k]] !in fs
    ensures loc + Between(path, k, j) !in Chain(fs, loc, Between(path, k, j - 1))
    ensures path[..j] != [] && Parent(path[..j]) == path[..j - 1]
    ensures (loc + Between(path, k, j - 1)) + [path[..j][j - 1]] == loc + Between(path, k, j)
  {
    NothingBelow(fs, loc, Between(path, k, j));
    ChainAdds(fs, loc, Between(path, k, j - 1));
    BetweenSnoc(path, k, j);
  }

  lemma BetweenSnoc(path: Location, k: nat, j: nat)
    requires k < j <= |path|
    ensures Between(path, k, j) == Between(path, k, j - 1) + [path[j - 1]]
  {
    assert path[k..j][..j - 1 - k] == path[k..j - 1];
  }

  lemma MkdirAt(fs: Fs, path: Location, there: Location, left: nat)
    requires path != [] && Walk(fs, Parent(path)) == Found(there, left) && there in fs && fs[there] == Dir
    requires there + [path[|path| - 1]] !in fs
    ensures Mkdir(fs, path) == Done(fs[there + [path[|path| - 1]] := Dir], true)
  {
  }

  lemma ChainIsWalked(fs: Fs, path: Location, k: nat, j: nat, loc: Location, left: nat)
    requires Tree(fs) && Canonical(path) && Deepest(fs, path, k, loc, left) && k < j <= |path|
    requires loc + [path[k]] !in fs && MkdirAll(fs, path[..j]).fs == Chain(fs, loc, Between(path, k, j))
    ensures var after := Chain(fs, loc, Between(path, k, j));
      var there := loc + Between(path, k, j);
      Tree(after) && Walk(after, path[..j]) == Found(there, left) && there in after && after[there] == Dir
  {
    var names := Between(path, k, j);
    MkdirAllKeepsTree(fs, path[..j]);
    ChainAdds(fs, loc, names);
    ChainLeads(fs, loc, names, left);
    ChainHas(fs, loc, names);
    assert names[..|names|] == names;
    WalkFromDeepest(fs, Chain(fs, loc, names), path, k, j, loc, left);
  }

  // ---------------------------------------------------------------------------
  // What is written is there
  // ---------------------------------------------------------------------------

  /** A file put at the vacant end of a walk is where that walk then ends. */
  lemma {:induction false} FillingEndsWalk(fs: Fs, x: Location, n: nat, at: Location, todo: seq<string>, left: nat)
    requires x !in fs && Locate(fs, at, todo, left) == Vacant(x)
    ensures var p := Locate(fs[x := File(n)], at, todo, left); p.Found? && p.loc == x
    decreases left, |todo|
  {
    var c, rest := todo[0], todo[1..];
    var next := at + [c];
    if c == "" || c == "." {
      FillingEndsWalk(fs, x, n, at, rest, left);
    } else if c == ".." {
      FillingEndsWalk(fs, x, n, Parent(at), rest, left);
    } else if next in fs && fs[next].Dir? {
      FillingEndsWalk(fs, x, n, next, rest, left);
    } else if next in fs && fs[next].Link? {
      var target := fs[next].target;
      FillingEndsWalk(fs, x, n, if Rooted(target) then [] else at, Split(target, '/') + rest, left - 1);
    }
  }

  /** The path leads to a file that holds these bytes. */
  predicate Holds(v: Volume, path: Location, content: seq<int>) {
    var file := FileAt(v, path);
    file.Some? && v.bytes[file.value] == content
  }

  /** What a path leads to after a write that succeeds, given what it led to before. */
  lemma WrittenIsThere(v: Volume, path: Location, offset: int, data: seq<int>)
    requires Sound(v) && Canonical(path) && WriteFile(v, path, offset, data).ok
    ensures var after := WriteFile(v, path, offset, data).vol;
      && (Walk(v.fs, path).Vacant? ==> offset <= 0 && Holds(after, path, data))
      && (offset == 0 ==> Holds(after, path, data))
      && (forall old_ :: Holds(v, path, old_) && offset > 0 ==> offset == |old_| && Holds(after, path, old_ + data))
      && (forall old_ :: Holds(v, path, old_) && offset < 0 ==>
            exists now :: Holds(after, path, now) && LaidOver(old_, data, now))
  {
    CanonicalIsFree(path);
    WalkEnds(v.fs, [], path, LINKS);
    var p := Walk(v.fs, path);
    if p.Vacant? {
      FillingEndsWalk(v.fs, p.loc, v.next, [], path, LINKS);
    }
    forall old_ | Holds(v, path, old_) && offset < 0
      ensures exists now :: Holds(WriteFile(v, path, offset, data).vol, path, now) && LaidOver(old_, data, now)
    {
      assert Holds(WriteFile(v, path, offset, data).vol, path, Overlaid(old_, data));
    }
  }

  /** As long as the longer of the two: the data as far as it goes, and behind it what was there. */
  ghost predicate LaidOver(was: seq<int>, data: seq<int>, now: seq<int>) {
    && |now| == (if |data| >= |was| then |data| else |was|)
    && (forall k :: 0 <= k < |data| ==> now[k] == data[k])
    && (forall k :: |data| <= k < |was| ==> now[k] == was[k])
  }

  /** Making directories removes and changes nothing, and makes nothing else. */
  lemma {:induction false} MkdirAllExtends(fs: Fs, path: Location)
    ensures var after := MkdirAll(fs, path).fs;
      Extends(fs, after) && forall l :: l in after && l !in fs ==> after[l] == Dir
    decreases |path|
  {
    if !Walk(fs, path).Found? && path != [] {
      MkdirAllExtends(fs, Parent(path));
    }
  }

  /** A path whose last name was removed from where the rest leads is a path to nothing. */
  lemma NothingAtTheEnd(fs: Fs, after: Fs, path: Location)
    requires Tree(fs) && Tree(after) && Extends(after, fs) && Canonical(path) && Entry(fs, path).Some?
    requires Entry(fs, path).value !in after
    ensures !Walk(after, path).Found?
  {
    var up, last := Parent(path), path[|path| - 1];
    assert path == up + [last] && GoodName(last);
    WalkOn(after, [], up, [last], LINKS);
    var p := Walk(after, up);
    if p.Found? {
      WalkStands(after, fs, [], up, LINKS);
      Step(after, p.loc, last, p.left);
    }
  }

  /** An entry removed is gone: its path leads nowhere any more. */
  lemma RemovedIsGone(fs: Fs, path: Location)
    requires Tree(fs) && Canonical(path) && Remove(fs, path).ok
    ensures Entry(fs, path).Some? && Entry(fs, path).value in fs
    ensures Remove(fs, path).fs == fs - {Entry(fs, path).value}
    ensures !Walk(Remove(fs, path).fs, path).Found?
  {
    RemoveKeepsTree(fs, path);
    NothingAtTheEnd(fs, Remove(fs, path).fs, path);
  }

  /** What renaming does, seen from the entries a and b that the two paths name. */
  ghost predicate Renames(before: Fs, after: Fs, a: Location, b: Location)
    requires a in before
  {
    if a == b || (before[a].File? && b in before && before[b] == before[a]) then after == before
    else
      && (forall m :: b + m in after <==> a + m in before)
      && (forall m :: a + m in before ==> b + m in after && after[b + m] == before[a + m])
      && (forall l :: a <= l && !(b <= l) ==> l !in after)
      && (forall l :: !(a <= l) && !(b <= l) ==> (l in after <==> l in before))
      && (forall l :: !(a <= l) && !(b <= l) && l in before ==> l in after && after[l] == before[l])
  }

  /** A directory is not replaced, and does not go below itself. */
  ghost predicate Renameable(before: Fs, a: Location, b: Location) {
    && a in before && !(b in before && before[b] == Dir)
    && (before[a] == Dir ==> b !in before && !(a <= b))
  }

  lemma RenameRenames(fs: Fs, from: Location, to: Location)
    requires Tree(fs) && Canonical(from) && Canonical(to)
    ensures var a, b, d := Entry(fs, from), Entry(fs, to), Rename(fs, from, to);
      && (d.ok <==> a.Some? && b.Some? && Renameable(fs, a.value, b.value))
      && (d.ok ==> Renames(fs, d.fs, a.value, b.value))
      && (!d.ok ==> d.fs == fs)
  {
    var a, b := Entry(fs, from), Entry(fs, to);
    if a.Some? && b.Some? {
      RenameEntries(fs, a.value, b.value, Rename(fs, from, to));
    }
  }

  lemma RenameEntries(fs: Fs, a: Location, b: Location, d: Done)
    requires Tree(fs)
    requires d == if a !in fs || (b in fs && fs[b].Dir?) then Done(fs, false)
                  else if a == b || (fs[a].File? && b in fs && fs[b] == fs[a]) then Done(fs, true)
                  else if fs[a].Dir? && (b in fs || a <= b) then Done(fs, false)
                  else Done(Moved(fs, a, b), true)
    ensures d.ok <==> Renameable(fs, a, b)
    ensures d.ok ==> Renames(fs, d.fs, a, b)
    ensures !d.ok ==> d.fs == fs
  {
    if Renameable(fs, a, b) && a != b && !(fs[a].File? && b in fs && fs[b] == fs[a]) {
      MovedRenames(fs, a, b);
    }
  }

  lemma MovedRenames(fs: Fs, a: Location, b: Location)
    requires Tree(fs) && a in fs && a != b && !(b in fs && fs[b].Dir?)
    ensures var after := Moved(fs, a, b);
      Renames(fs, after, a, b) || (fs[a].File? && b in fs && fs[b] == fs[a])
  {
    var after := Moved(fs, a, b);
    forall m
      ensures b + m in after <==> a + m in fs
      ensures a + m in fs ==> b + m in after && after[b + m] == fs[a + m]
    {
      assert (b + m)[|b|..] == m;
      if b + m in fs && m != [] {
        assert b < b + m;
        AncestorIn(fs, b + m, b);
      }
      assert m == [] ==> b + m == b;
    }
  }
}
