/**
 * Path text: cleaning, joining, and the separator-aware prefix test. An absolute path
 * that is clean is the rendering of a location, the list of its names below the root.
 */
module Paths {
  import opened Text

  type Location = seq<string>

  /** A name that stands for itself: no separator, not empty, not a step to self or parent. */
  ghost predicate GoodName(c: string) {
    c != "" && c != "." && c != ".." && Free(c, '/')
  }

  ghost predicate Canonical(loc: Location) {
    forall i :: 0 <= i < |loc| ==> GoodName(loc[i])
  }

  function Render(loc: Location): string {
    "/" + Join(loc, '/')
  }

  // ---------------------------------------------------------------------------
  // Cleaning
  // ---------------------------------------------------------------------------

  function Push(done: Location, c: string, rooted: bool): Location {
    if c == "" || c == "." then done
    else if c == ".." then
      if done != [] && done[|done| - 1] != ".." then done[..|done| - 1]
      else if rooted then done
      else done + [c]
    else done + [c]
  }

  function Fold(done: Location, parts: seq<string>, rooted: bool): Location
    decreases |parts|
  {
    if parts == [] then done else Fold(Push(done, parts[0], rooted), parts[1..], rooted)
  }

  predicate Rooted(path: string) {
    path != "" && path[0] == '/'
  }

  /** The shortest equivalent path, by its text alone. */
  function Clean(path: string): string {
    var text := Join(Fold([], Split(path, '/'), Rooted(path)), '/');
    if Rooted(path) then "/" + text else if text == "" then "." else text
  }

  function JoinPath(first: string, second: string): string {
    if second == "" then Clean(first) else Clean(first + "/" + second)
  }

  /** The names an absolute path is made of, for opening it. */
  function Parse(path: string): Location {
    Fold([], Split(path, '/'), true)
  }

  lemma {:induction false} FoldConcat(done: Location, a: seq<string>, b: seq<string>, rooted: bool)
    ensures Fold(done, a + b, rooted) == Fold(Fold(done, a, rooted), b, rooted)
    decreases |a|
  {
    if a == [] {
      assert a + b == b;
    } else {
      assert (a + b)[0] == a[0] && (a + b)[1..] == a[1..] + b;
      FoldConcat(Push(done, a[0], rooted), a[1..], b, rooted);
    }
  }

  lemma {:induction false} FoldKeepsCanonical(done: Location, parts: seq<string>)
    requires Canonical(done) && AllFree(parts, '/')
    ensures Canonical(Fold(done, parts, true))
    decreases |parts|
  {
    if parts != [] {
      assert Free(parts[0], '/');
      FoldKeepsCanonical(Push(done, parts[0], true), parts[1..]);
    }
  }

  lemma {:induction false} FoldOfCanonical(done: Location, loc: Location, rooted: bool)
    requires Canonical(loc)
    ensures Fold(done, loc, rooted) == done + loc
    decreases |loc|
  {
    if loc == [] {
      assert done + loc == done;
    } else {
      assert GoodName(loc[0]);
      FoldOfCanonical(done + [loc[0]], loc[1..], rooted);
      assert loc == [loc[0]] + loc[1..];
      assert done + loc == (done + [loc[0]]) + loc[1..];
    }
  }

  lemma {:induction false} SplitConcat(a: string, b: string, sep: char)
    ensures Split(a + [sep] + b, sep) == Split(a, sep) + Split(b, sep)
    decreases |a|
  {
    var i := Find(a, sep);
    if i == |a| {
      assert a[..i] == a;
      SplitFree(a, sep);
      SplitFirst(a, b, sep);
    } else {
      Reassociate(a, i, b, sep);
      var rest := a[i + 1..];
      SplitConcat(rest, b, sep);
      Prepend([a[..i]], Split(rest, sep), Split(b, sep));
    }
  }

  lemma Prepend(a: seq<string>, b: seq<string>, c: seq<string>)
    ensures (a + b) + c == a + (b + c)
  {
  }

  lemma Reassociate(a: string, i: nat, b: string, sep: char)
    requires i < |a| && Free(a[..i], sep) && a[i] == sep
    ensures Split(a, sep) == [a[..i]] + Split(a[i + 1..], sep)
    ensures Split(a + [sep] + b, sep) == [a[..i]] + Split(a[i + 1..] + [sep] + b, sep)
  {
    var first, rest := a[..i], a[i + 1..];
    SplitFirst(first, rest, sep);
    assert a == first + [sep] + rest;
    SplitFirst(first, rest + [sep] + b, sep);
    assert a + [sep] + b == first + [sep] + (rest + [sep] + b);
  }

  lemma CanonicalIsFree(loc: Location)
    requires Canonical(loc)
    ensures AllFree(loc, '/')
  {
  }

  lemma SplitRender(loc: Location)
    requires Canonical(loc)
    ensures Split(Render(loc), '/') == [""] + if loc == [] then [""] else loc
  {
    CanonicalIsFree(loc);
    var text := Join(loc, '/');
    assert Render(loc) == "" + ['/'] + text;
    SplitConcat("", text, '/');
    if loc != [] {
      SplitJoin(loc, '/');
    }
  }

  lemma ParseRender(loc: Location)
    requires Canonical(loc)
    ensures Parse(Render(loc)) == loc
  {
    SplitRender(loc);
    FoldOfRendered(loc, []);
    var lead := [""] + if loc == [] then [""] else loc;
    assert lead + [] == lead;
  }

  /** Folding what a rendering splits into, and then more parts. */
  lemma FoldOfRendered(loc: Location, more: seq<string>)
    requires Canonical(loc)
    ensures Fold([], ([""] + if loc == [] then [""] else loc) + more, true) == Fold(loc, more, true)
  {
    var lead := [""] + if loc == [] then [""] else loc;
    FoldConcat([], lead, more, true);
    if loc == [] {
      assert lead[1..] == [""] && lead[1..][1..] == [];
    } else {
      assert lead[1..] == loc;
      FoldOfCanonical([], loc, true);
      assert [] + loc == loc;
    }
    assert lead + [] == lead;
  }

  /** Joining a relative path to a location goes where its steps lead from there. */
  lemma JoinLeads(loc: Location, second: string)
    requires Canonical(loc)
    ensures var there := Fold(loc, Split(second, '/'), true);
      Canonical(there) && JoinPath(Render(loc), second) == Render(there)
  {
    SplitRender(loc);
    FoldKeepsCanonical(loc, Split(second, '/'));
    if second == "" {
      FoldOfRendered(loc, []);
      var lead := [""] + if loc == [] then [""] else loc;
      assert lead + [] == lead;
      assert Split("", '/') == [""];
    } else {
      var path := Render(loc) + "/" + second;
      SplitConcat(Render(loc), second, '/');
      assert path == Render(loc) + ['/'] + second;
      FoldOfRendered(loc, Split(second, '/'));
    }
  }

  /** Names joined to a relative path are clean, and lead from a location to those names below it. */
  lemma NamesAreClean(loc: Location, names: Location)
    requires Canonical(loc) && Canonical(names) && names != []
    ensures var relative := Join(names, '/');
      && relative != "" && relative != "." && !Rooted(relative) && Clean(relative) == relative
      && JoinPath(Render(loc), relative) == Render(loc + names)
  {
    var relative := Join(names, '/');
    CanonicalIsFree(names);
    SplitJoin(names, '/');
    assert GoodName(names[0]);
    assert relative[0] == names[0][0] && names[0][0] in names[0];
    FoldOfCanonical([], names, false);
    assert [] + names == names;
    if relative == "." {
      SplitFree(".", '/');
    }
    JoinLeads(loc, relative);
    FoldOfCanonical(loc, names, true);
  }

  // ---------------------------------------------------------------------------
  // The prefix test
  // ---------------------------------------------------------------------------

  /** Whether the path is the root itself or text below it. */
  predicate WithinRoot(root: string, path: string) {
    path == root ||
    (if root != "" && root[|root| - 1] == '/' then root else root + "/") <= path
  }

  lemma {:induction false} JoinEnd(loc: Location)
    requires Canonical(loc) && loc != []
    ensures var t := Join(loc, '/'); t != "" && t[|t| - 1] != '/'
    decreases |loc|
  {
    assert GoodName(loc[0]);
    if |loc| == 1 {
      assert loc[0][|loc[0]| - 1] in loc[0];
    } else {
      JoinEnd(loc[1..]);
    }
  }

  lemma RenderInjective(a: Location, b: Location)
    requires Canonical(a) && Canonical(b) && Render(a) == Render(b)
    ensures a == b
  {
    ParseRender(a);
    ParseRender(b);
  }

  /** A text prefix that ends at a separator is a prefix of names. */
  lemma PrefixOfNames(root: Location, loc: Location)
    requires Canonical(root) && Canonical(loc) && root != []
    requires Render(root) + "/" <= Render(loc)
    ensures root <= loc
  {
    var a, b := Join(root, '/'), Join(loc, '/');
    var rest := Render(loc)[|Render(root)| + 1..];
    assert Render(loc) == Render(root) + "/" + rest;
    assert b == a + ['/'] + rest by {
      assert b == Render(loc)[1..];
      assert (Render(root) + "/" + rest)[1..] == a + ['/'] + rest;
    }
    CanonicalIsFree(root);
    CanonicalIsFree(loc);
    SplitConcat(a, rest, '/');
    SplitJoin(root, '/');
    assert loc != [];
    SplitJoin(loc, '/');
  }

  lemma NamesGivePrefix(root: Location, loc: Location)
    requires Canonical(root) && Canonical(loc) && root != [] && root < loc
    ensures Render(root) + "/" <= Render(loc)
  {
    var rest := loc[|root|..];
    assert loc == root + rest;
    JoinConcat(root, rest, '/');
    assert Render(loc) == Render(root) + "/" + Join(rest, '/');
  }

  /**
   * On rendered locations the test on the text is exactly the test on names: a sibling
   * whose name merely begins alike is outside.
   */
  lemma WithinRootIsPrefix(root: Location, loc: Location)
    requires Canonical(root) && Canonical(loc)
    ensures WithinRoot(Render(root), Render(loc)) <==> root <= loc
  {
    if root == [] {
      assert Render(root) == "/";
    } else {
      JoinEnd(root);
      var r := Render(root);
      assert r[|r| - 1] != '/';
      if Render(loc) == r {
        RenderInjective(root, loc);
      } else if r + "/" <= Render(loc) {
        PrefixOfNames(root, loc);
      }
      if root < loc {
        NamesGivePrefix(root, loc);
      }
      assert root <= loc ==> root == loc || root < loc;
    }
  }
}
