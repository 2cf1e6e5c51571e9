/** Interactive mode: the `--exclude` list, the scan for Go files that
    prunes excluded directories, and the answer to the yes/no prompt. */
module Interactive {
  import opened Wrappers
  import opened Strings
  import opened Paths
  import opened Seqs

  // ---------------------------------------------------------------------
  // Exclusions
  // ---------------------------------------------------------------------

  /** The trimmed pieces that are not empty, in order. */
  function NonEmptyTrimmed(pieces: seq<string>): seq<string>
  {
    if pieces == [] then []
    else
      var t := TrimSpace(pieces[|pieces| - 1]);
      NonEmptyTrimmed(pieces[..|pieces| - 1]) + (if t != "" then [t] else [])
  }

  /** The directory names excluded by the `--exclude` value `excludeDirs`. */
  function Exclusions(excludeDirs: string): seq<string>
  {
    if excludeDirs == "" then [] else NonEmptyTrimmed(Split(excludeDirs, ','))
  }

  /** The parsing loop of `runInteractiveMode`. */
  method ParseExclusions(excludeDirs: string) returns (exclusions: seq<string>)
    ensures exclusions == Exclusions(excludeDirs)
  {
    exclusions := [];
    if excludeDirs != "" {
      var pieces := Split(excludeDirs, ',');
      for n := 0 to |pieces|
        invariant exclusions == NonEmptyTrimmed(pieces[..n])
      {
        assert pieces[..n + 1][..n] == pieces[..n];
        var trimmed := TrimSpace(pieces[n]);
        if trimmed != "" {
          exclusions := exclusions + [trimmed];
        }
      }
      assert pieces[..|pieces|] == pieces;
    }
  }

  /** Every exclusion is a non-empty name without a comma and without
      spaces at either end. */
  lemma ExclusionsWellFormed(excludeDirs: string)
    ensures forall i :: 0 <= i < |Exclusions(excludeDirs)| ==>
      var x := Exclusions(excludeDirs)[i];
      x != "" && Trimmed(x) && ',' !in x
  {
    if excludeDirs != "" {
      SplitSpec(excludeDirs, ',');
      NonEmptyTrimmedWellFormed(Split(excludeDirs, ','));
    }
  }

  lemma {:induction false} NonEmptyTrimmedWellFormed(pieces: seq<string>)
    requires forall i :: 0 <= i < |pieces| ==> ',' !in pieces[i]
    ensures forall i :: 0 <= i < |NonEmptyTrimmed(pieces)| ==>
      var x := NonEmptyTrimmed(pieces)[i];
      x != "" && Trimmed(x) && ',' !in x
    decreases |pieces|
  {
    if pieces != [] {
      var last := pieces[|pieces| - 1];
      NonEmptyTrimmedWellFormed(pieces[..|pieces| - 1]);
      TrimSpaceSplits(last);
      TrimSpaceSpec(last);
    }
  }

  /** The empty value needs no special case: it splits into one empty piece,
      which is dropped. */
  lemma ExclusionsOfAnyValue(excludeDirs: string)
    ensures Exclusions(excludeDirs) == NonEmptyTrimmed(Split(excludeDirs, ','))
  {
    if excludeDirs == "" {
      assert Split("", ',') == [""];
      assert NonEmptyTrimmed([""]) == NonEmptyTrimmed([]) + [];
    }
  }

  lemma {:induction false} NonEmptyTrimmedAppend(a: seq<string>, b: seq<string>)
    ensures NonEmptyTrimmed(a + b) == NonEmptyTrimmed(a) + NonEmptyTrimmed(b)
    decreases |b|
  {
    if b == [] {
      assert a + b == a;
    } else {
      var b', last := b[..|b| - 1], b[|b| - 1];
      var t := TrimSpace(last);
      assert (a + b)[..|a + b| - 1] == a + b';
      assert (a + b)[|a + b| - 1] == last;
      NonEmptyTrimmedAppend(a, b');
      AppendAssociative(NonEmptyTrimmed(a), NonEmptyTrimmed(b'), if t != "" then [t] else []);
    }
  }

  /** The pieces around a comma are parsed independently: ",," and a
      trailing comma add nothing. */
  lemma ExclusionsConcat(a: string, b: string)
    ensures Exclusions(a + "," + b) == Exclusions(a) + Exclusions(b)
  {
    ExclusionsOfAnyValue(a + "," + b);
    ExclusionsOfAnyValue(a);
    ExclusionsOfAnyValue(b);
    SplitAround(a, b, ',');
    NonEmptyTrimmedAppend(Split(a, ','), Split(b, ','));
  }

  /** One name, possibly padded with spaces, is one exclusion. */
  lemma ExclusionsOfName(name: string, before: string, after: string)
    requires name != "" && Trimmed(name) && ',' !in name
    requires AllSpace(before) && AllSpace(after) && ',' !in before && ',' !in after
    ensures Exclusions(before + name + after) == [name]
  {
    var s := before + name + after;
    assert s != "";
    assert ',' !in s by {
      assert forall i :: 0 <= i < |s| ==> s[i] == (if i < |before| then before[i] else if i < |before| + |name| then name[i - |before|] else after[i - |before| - |name|]);
    }
    SplitWithoutSeparator(s, ',');
    TrimSpaceAround(before, name, after);
    TrimSpaceOfTrimmed(name);
    assert NonEmptyTrimmed([s]) == NonEmptyTrimmed([]) + [name];
  }

  /** The value built by joining pieces with commas parses to those pieces,
      trimmed, without the empty ones. */
  lemma ExclusionsOfJoin(pieces: seq<string>)
    requires forall i :: 0 <= i < |pieces| ==> ',' !in pieces[i]
    ensures Exclusions(Join(pieces, ',')) == NonEmptyTrimmed(pieces)
  {
    ExclusionsOfAnyValue(Join(pieces, ','));
    if pieces == [] {
      assert Split("", ',') == [""];
      assert NonEmptyTrimmed([""]) == NonEmptyTrimmed([]) + [];
    } else {
      SplitJoin(pieces, ',');
    }
  }

  /** Three comma-separated pieces: each contributes its trimmed text unless
      that is empty. */
  lemma ThreePieces(a: string, b: string, c: string)
    requires ',' !in a && ',' !in b && ',' !in c
    ensures Exclusions(Join([a, b, c], ',')) == Kept(a) + Kept(b) + Kept(c)
  {
    ExclusionsOfJoin([a, b, c]);
    NonEmptyTrimmedThree(a, b, c);
  }

  /** What one piece contributes. */
  function Kept(piece: string): seq<string>
  {
    if TrimSpace(piece) != "" then [TrimSpace(piece)] else []
  }

  lemma NonEmptyTrimmedOne(p: string)
    ensures NonEmptyTrimmed([p]) == Kept(p)
  {
    assert [p][..0] == [];
  }

  lemma NonEmptyTrimmedThree(a: string, b: string, c: string)
    ensures NonEmptyTrimmed([a, b, c]) == Kept(a) + Kept(b) + Kept(c)
  {
    NonEmptyTrimmedAppend([a, b], [c]);
    NonEmptyTrimmedAppend([a], [b]);
    assert [a, b] + [c] == [a, b, c];
    assert [a] + [b] == [a, b];
    NonEmptyTrimmedOne(a);
    NonEmptyTrimmedOne(b);
    NonEmptyTrimmedOne(c);
  }

  /** A name with spaces around it is kept as the name. */
  lemma KeptPadded(name: string, before: string, after: string)
    requires name != "" && Trimmed(name)
    requires AllSpace(before) && AllSpace(after)
    ensures Kept(before + name + after) == [name]
  {
    TrimSpaceAround(before, name, after);
    TrimSpaceOfTrimmed(name);
  }

  /** The rows of the parser's test table. One name: */
  lemma SingleFolderExample()
    ensures Exclusions("vendor") == ["vendor"]
  {
    PlainName("vendor");
    ExclusionsOfName("vendor", "", "");
    assert "" + "vendor" + "" == "vendor";
  }

  /** Three names, with or without spaces around each: */
  lemma MultipleFoldersRow(v: string, t: string, b: string, sp: string)
    requires v != "" && Trimmed(v) && ',' !in v
    requires t != "" && Trimmed(t) && ',' !in t
    requires b != "" && Trimmed(b) && ',' !in b
    requires AllSpace(sp) && ',' !in sp
    ensures Exclusions(Join([sp + v + sp, sp + t + sp, sp + b + sp], ',')) == [v, t, b]
  {
    NoCommaPadded(v, sp);
    NoCommaPadded(t, sp);
    NoCommaPadded(b, sp);
    ThreePieces(sp + v + sp, sp + t + sp, sp + b + sp);
    KeptPadded(v, sp, sp);
    KeptPadded(t, sp, sp);
    KeptPadded(b, sp, sp);
  }

  lemma NoCommaPadded(name: string, sp: string)
    requires ',' !in name && ',' !in sp
    ensures ',' !in sp + name + sp
  {
  }

  /** A trailing comma adds nothing: */
  lemma TrailingCommaRow(v: string, t: string)
    requires v != "" && Trimmed(v) && ',' !in v
    requires t != "" && Trimmed(t) && ',' !in t
    ensures Exclusions(Join([v, t, ""], ',')) == [v, t]
  {
    ThreePieces(v, t, "");
    KeptPadded(v, "", "");
    KeptPadded(t, "", "");
    assert "" + v + "" == v;
    assert "" + t + "" == t;
  }

  /** Commas alone give no exclusion. */
  lemma OnlyCommasExample()
    ensures Exclusions(",,") == []
  {
    assert Split(",,", ',') == ["", "", ""];
    NonEmptyTrimmedThree("", "", "");
  }

  /** A plain lower-case name is a well-formed exclusion. */
  lemma PlainName(name: string)
    requires name != [] && forall i :: 0 <= i < |name| ==> 'a' <= name[i] <= 'z'
    ensures Trimmed(name) && ',' !in name
  {
  }

  // ---------------------------------------------------------------------
  // Scanning for Go files
  // ---------------------------------------------------------------------

  /** The directory tree `filepath.Walk` visits: a file, or a directory with
      its entries in the order Walk visits them (sorted by name). */
  datatype Entry = File(name: string) | Dir(name: string, children: seq<Entry>)

  /** The paths `scanGoFiles` collects below `e`, reached at `path`: a file
      whose name ends in ".go" is collected, a directory whose name is
      excluded is skipped with everything below it, and any other directory
      is walked child by child. */
  function GoFiles(path: string, e: Entry, excludedDirs: seq<string>): seq<string>
    decreases e
  {
    match e
    case File(name) => if HasSuffix(name, ".go") then [path] else []
    case Dir(name, children) => if name in excludedDirs then [] else ChildrenGoFiles(path, children, excludedDirs)
  }

  /** The paths collected in the first entries of a directory at `path`. */
  function ChildrenGoFiles(path: string, children: seq<Entry>, excludedDirs: seq<string>): seq<string>
    decreases children
  {
    if children == [] then []
    else
      var last := children[|children| - 1];
      ChildrenGoFiles(path, children[..|children| - 1], excludedDirs)
        + GoFiles(JoinPath(path, last.name), last, excludedDirs)
  }

  /** The exclusion check of the walk callback: the loop over the excluded
      names that answers `filepath.SkipDir` on a match. */
  method IsExcluded(base: string, excludedDirs: seq<string>) returns (skip: bool)
    ensures skip <==> base in excludedDirs
  {
    for n := 0 to |excludedDirs|
      invariant base !in excludedDirs[..n]
    {
      if base == excludedDirs[n] {
        return true;
      }
      assert excludedDirs[..n + 1] == excludedDirs[..n] + [excludedDirs[n]];
    }
    assert excludedDirs[..|excludedDirs|] == excludedDirs;
    return false;
  }

  /** One call of the walk: the callback on `e` at `path`, then the walk of
      its entries unless the callback skipped it; `files` is what was
      collected before. */
  method Walk(path: string, e: Entry, excludedDirs: seq<string>, files: seq<string>) returns (out: seq<string>)
    ensures out == files + GoFiles(path, e, excludedDirs)
    decreases e, 1
  {
    out := files;
    match e {
      case File(name) =>
        if HasSuffix(name, ".go") {
          out := out + [path];
        }
      case Dir(name, children) =>
        var skip := IsExcluded(name, excludedDirs);
        if !skip {
          out := WalkChildren(path, e, excludedDirs, out);
        }
    }
  }

  /** The walk of a directory's entries, in order. */
  method WalkChildren(path: string, dir: Entry, excludedDirs: seq<string>, files: seq<string>) returns (out: seq<string>)
    requires dir.Dir?
    ensures out == files + ChildrenGoFiles(path, dir.children, excludedDirs)
    decreases dir, 0
  {
    var children := dir.children;
    out := files;
    for n := 0 to |children|
      invariant out == files + ChildrenGoFiles(path, children[..n], excludedDirs)
    {
      assert children[..n + 1][..n] == children[..n];
      out := Walk(JoinPath(path, children[n].name), children[n], excludedDirs, out);
      AppendAssociative(files, ChildrenGoFiles(path, children[..n], excludedDirs),
                        GoFiles(JoinPath(path, children[n].name), children[n], excludedDirs));
    }
    assert children[..|children|] == children;
  }

  /** `scanGoFiles(root, excludedDirs)` over the tree `tree` found at `root`;
      the walk error is not modelled (the tree is always readable). */
  method ScanGoFiles(root: string, tree: Entry, excludedDirs: seq<string>) returns (files: seq<string>)
    ensures files == GoFiles(root, tree, excludedDirs)
  {
    files := Walk(root, tree, excludedDirs, []);
  }

  /** A file of the tree: its path, its name and the names of the
      directories on the way to it, outermost first. */
  datatype FoundFile = FoundFile(path: string, name: string, dirs: seq<string>)

  /** Every file below `e` reached at `path`, in walk order, ignoring
      exclusions. */
  function AllFiles(path: string, e: Entry): seq<FoundFile>
    decreases e
  {
    match e
    case File(name) => [FoundFile(path, name, [])]
    case Dir(name, children) => Inside(name, AllChildrenFiles(path, children))
  }

  function AllChildrenFiles(path: string, children: seq<Entry>): seq<FoundFile>
    decreases children
  {
    if children == [] then []
    else
      var last := children[|children| - 1];
      AllChildrenFiles(path, children[..|children| - 1]) + AllFiles(JoinPath(path, last.name), last)
  }

  /** The files, each now also inside the directory `dir`. */
  function Inside(dir: string, fs: seq<FoundFile>): (r: seq<FoundFile>)
    ensures |r| == |fs|
    ensures forall i :: 0 <= i < |fs| ==> r[i] == fs[i].(dirs := [dir] + fs[i].dirs)
  {
    if fs == [] then []
    else Inside(dir, fs[..|fs| - 1]) + [fs[|fs| - 1].(dirs := [dir] + fs[|fs| - 1].dirs)]
  }

  /** A file is selected when its name ends in ".go" and no directory on the
      way to it is excluded. */
  predicate Selected(f: FoundFile, excludedDirs: seq<string>)
  {
    HasSuffix(f.name, ".go") && forall d :: d in f.dirs ==> d !in excludedDirs
  }

  /** The paths of the selected files, in order. */
  function SelectedPaths(fs: seq<FoundFile>, excludedDirs: seq<string>): seq<string>
  {
    if fs == [] then []
    else
      var f := fs[|fs| - 1];
      SelectedPaths(fs[..|fs| - 1], excludedDirs) + (if Selected(f, excludedDirs) then [f.path] else [])
  }

  lemma {:induction false} SelectedPathsAppend(a: seq<FoundFile>, b: seq<FoundFile>, excludedDirs: seq<string>)
    ensures SelectedPaths(a + b, excludedDirs) == SelectedPaths(a, excludedDirs) + SelectedPaths(b, excludedDirs)
    decreases |b|
  {
    if b == [] {
      assert a + b == a;
    } else {
      var b', f := b[..|b| - 1], b[|b| - 1];
      assert (a + b)[..|a + b| - 1] == a + b';
      assert (a + b)[|a + b| - 1] == f;
      SelectedPathsAppend(a, b', excludedDirs);
      AppendAssociative(SelectedPaths(a, excludedDirs), SelectedPaths(b', excludedDirs),
                        if Selected(f, excludedDirs) then [f.path] else []);
    }
  }

  /** Inside an excluded directory nothing is selected; inside another one
      the same files are selected as before. */
  lemma {:induction false} SelectedPathsInside(dir: string, fs: seq<FoundFile>, excludedDirs: seq<string>)
    ensures SelectedPaths(Inside(dir, fs), excludedDirs)
            == if dir in excludedDirs then [] else SelectedPaths(fs, excludedDirs)
    decreases |fs|
  {
    if fs != [] {
      var inside := Inside(dir, fs);
      assert inside[..|inside| - 1] == Inside(dir, fs[..|fs| - 1]);
      assert dir in inside[|inside| - 1].dirs;
      SelectedPathsInside(dir, fs[..|fs| - 1], excludedDirs);
    }
  }

  /** The scan collects exactly the paths of the files whose name ends in
      ".go" and that lie in no excluded directory (the walk's root
      included), in walk order. */
  lemma {:induction false} GoFilesSelects(path: string, e: Entry, excludedDirs: seq<string>)
    ensures GoFiles(path, e, excludedDirs) == SelectedPaths(AllFiles(path, e), excludedDirs)
    decreases e, 1
  {
    match e {
      case File(name) =>
        assert [FoundFile(path, name, [])][..0] == [];
      case Dir(name, children) =>
        ChildrenGoFilesSelects(path, e, |children|, excludedDirs);
        assert children[..|children|] == children;
        SelectedPathsInside(name, AllChildrenFiles(path, children), excludedDirs);
    }
  }

  lemma {:induction false} ChildrenGoFilesSelects(path: string, dir: Entry, n: nat, excludedDirs: seq<string>)
    requires dir.Dir? && n <= |dir.children|
    ensures ChildrenGoFiles(path, dir.children[..n], excludedDirs)
            == SelectedPaths(AllChildrenFiles(path, dir.children[..n]), excludedDirs)
    decreases dir, 0, n
  {
    if n > 0 {
      var cs := dir.children[..n];
      var last := dir.children[n - 1];
      assert cs[..n - 1] == dir.children[..n - 1];
      assert cs[n - 1] == last;
      ChildrenGoFilesSelects(path, dir, n - 1, excludedDirs);
      GoFilesSelects(JoinPath(path, last.name), last, excludedDirs);
      SelectedPathsAppend(AllChildrenFiles(path, cs[..n - 1]), AllFiles(JoinPath(path, last.name), last), excludedDirs);
    }
  }

  /** Every collected path ends in ".go", provided a file given as the walk's
      root sits at a path ending in its name. */
  lemma {:induction false} GoFilesEndInGo(path: string, e: Entry, excludedDirs: seq<string>)
    requires e.File? ==> HasSuffix(path, e.name)
    ensures AllGo(GoFiles(path, e, excludedDirs))
    decreases e, 1
  {
    match e {
      case File(name) =>
        if HasSuffix(name, ".go") {
          HasSuffixTransitive(path, name, ".go");
        }
      case Dir(name, children) =>
        if name !in excludedDirs {
          ChildrenGoFilesEndInGo(path, e, |children|, excludedDirs);
          assert children[..|children|] == children;
        }
    }
  }

  lemma {:induction false} ChildrenGoFilesEndInGo(path: string, dir: Entry, n: nat, excludedDirs: seq<string>)
    requires dir.Dir? && n <= |dir.children|
    ensures AllGo(ChildrenGoFiles(path, dir.children[..n], excludedDirs))
    decreases dir, 0, n
  {
    if n > 0 {
      var cs := dir.children[..n];
      var last := dir.children[n - 1];
      assert cs[..n - 1] == dir.children[..n - 1];
      assert cs[n - 1] == last;
      ChildrenGoFilesEndInGo(path, dir, n - 1, excludedDirs);
      GoFilesEndInGo(JoinPath(path, last.name), last, excludedDirs);
      AllGoAppend(ChildrenGoFiles(path, cs[..n - 1], excludedDirs), GoFiles(JoinPath(path, last.name), last, excludedDirs));
    }
  }

  /** Every path ends in ".go". */
  predicate AllGo(paths: seq<string>)
  {
    forall i :: 0 <= i < |paths| ==> HasSuffix(paths[i], ".go")
  }

  lemma AllGoAppend(a: seq<string>, b: seq<string>)
    requires AllGo(a) && AllGo(b)
    ensures AllGo(a + b)
  {
    assert forall i :: 0 <= i < |a + b| ==> (a + b)[i] == if i < |a| then a[i] else b[i - |a|];
  }

  /** Excluding more names only removes paths from the result. */
  lemma {:induction false} SelectedPathsMonotone(fs: seq<FoundFile>, fewer: seq<string>, more: seq<string>)
    requires forall d :: d in fewer ==> d in more
    ensures forall p :: p in SelectedPaths(fs, more) ==> p in SelectedPaths(fs, fewer)
    ensures |SelectedPaths(fs, more)| <= |SelectedPaths(fs, fewer)|
    decreases |fs|
  {
    if fs != [] {
      SelectedPathsMonotone(fs[..|fs| - 1], fewer, more);
    }
  }

  lemma ExcludingMoreOnlyRemoves(path: string, e: Entry, fewer: seq<string>, more: seq<string>)
    requires forall d :: d in fewer ==> d in more
    ensures forall p :: p in GoFiles(path, e, more) ==> p in GoFiles(path, e, fewer)
    ensures |GoFiles(path, e, more)| <= |GoFiles(path, e, fewer)|
  {
    GoFilesSelects(path, e, more);
    GoFilesSelects(path, e, fewer);
    SelectedPathsMonotone(AllFiles(path, e), fewer, more);
  }

  /** Names that no file's directory carries exclude nothing. */
  lemma {:induction false} SelectedPathsUnaffected(fs: seq<FoundFile>, excludedDirs: seq<string>)
    requires forall i, d :: 0 <= i < |fs| && d in fs[i].dirs ==> d !in excludedDirs
    ensures SelectedPaths(fs, excludedDirs) == SelectedPaths(fs, [])
    decreases |fs|
  {
    if fs != [] {
      SelectedPathsUnaffected(fs[..|fs| - 1], excludedDirs);
    }
  }

  lemma ExcludingAbsentNames(path: string, e: Entry, excludedDirs: seq<string>)
    requires var fs := AllFiles(path, e);
      forall i, d :: 0 <= i < |fs| && d in fs[i].dirs ==> d !in excludedDirs
    ensures GoFiles(path, e, excludedDirs) == GoFiles(path, e, [])
  {
    GoFilesSelects(path, e, excludedDirs);
    GoFilesSelects(path, e, []);
    SelectedPathsUnaffected(AllFiles(path, e), excludedDirs);
  }

  /** How many paths the scan collects; it does not depend on the paths. */
  function GoCount(e: Entry, excludedDirs: seq<string>): nat
    decreases e
  {
    match e
    case File(name) => if HasSuffix(name, ".go") then 1 else 0
    case Dir(name, children) => if name in excludedDirs then 0 else ChildrenGoCount(children, excludedDirs)
  }

  function ChildrenGoCount(children: seq<Entry>, excludedDirs: seq<string>): nat
    decreases children
  {
    if children == [] then 0
    else ChildrenGoCount(children[..|children| - 1], excludedDirs) + GoCount(children[|children| - 1], excludedDirs)
  }

  lemma {:induction false} GoFilesCount(path: string, e: Entry, excludedDirs: seq<string>)
    ensures |GoFiles(path, e, excludedDirs)| == GoCount(e, excludedDirs)
    decreases e, 1
  {
    match e {
      case File(name) =>
      case Dir(name, children) =>
        ChildrenGoFilesCount(path, e, |children|, excludedDirs);
        assert children[..|children|] == children;
    }
  }

  lemma {:induction false} ChildrenGoFilesCount(path: string, dir: Entry, n: nat, excludedDirs: seq<string>)
    requires dir.Dir? && n <= |dir.children|
    ensures |ChildrenGoFiles(path, dir.children[..n], excludedDirs)| == ChildrenGoCount(dir.children[..n], excludedDirs)
    decreases dir, 0, n
  {
    if n > 0 {
      var cs := dir.children[..n];
      var last := dir.children[n - 1];
      assert cs[..n - 1] == dir.children[..n - 1];
      assert cs[n - 1] == last;
      ChildrenGoFilesCount(path, dir, n - 1, excludedDirs);
      GoFilesCount(JoinPath(path, last.name), last, excludedDirs);
    }
  }

  /** The tree of the scan's test: a README and six Go files, two of them
      below `vendor` and `testdata`, one two levels down in `nested/deep`;
      the root directory's own name is `rootName`. */
  function Fixture(rootName: string): Entry
  {
    Dir(rootName, [
      File("README.md"),
      Dir("internal", [File("util.go")]),
      File("main.go"),
      Dir("nested", [Dir("deep", [File("handler.go")])]),
      Dir("pkg", [File("service.go")]),
      Dir("testdata", [File("fixture.go")]),
      Dir("vendor", [File("dep.go")])
    ])
  }

  lemma {:induction false} ChildrenGoCountFront(c: Entry, cs: seq<Entry>, excludedDirs: seq<string>)
    ensures ChildrenGoCount([c] + cs, excludedDirs) == GoCount(c, excludedDirs) + ChildrenGoCount(cs, excludedDirs)
    decreases |cs|
  {
    if cs == [] {
      assert ([c] + cs)[..0] == [];
    } else {
      assert ([c] + cs)[..|cs|] == [c] + cs[..|cs| - 1];
      ChildrenGoCountFront(c, cs[..|cs| - 1], excludedDirs);
    }
  }

  lemma ChildrenGoCountSeven(c0: Entry, c1: Entry, c2: Entry, c3: Entry, c4: Entry, c5: Entry, c6: Entry, x: seq<string>)
    ensures ChildrenGoCount([c0, c1, c2, c3, c4, c5, c6], x)
      == GoCount(c0, x) + GoCount(c1, x) + GoCount(c2, x) + GoCount(c3, x) + GoCount(c4, x) + GoCount(c5, x) + GoCount(c6, x)
  {
    var s6 := [c6];
    ChildrenGoCountFront(c6, [], x);
    assert [c6] + [] == s6;
    var s5 := [c5] + s6;
    ChildrenGoCountFront(c5, s6, x);
    var s4 := [c4] + s5;
    ChildrenGoCountFront(c4, s5, x);
    var s3 := [c3] + s4;
    ChildrenGoCountFront(c3, s4, x);
    var s2 := [c2] + s3;
    ChildrenGoCountFront(c2, s3, x);
    var s1 := [c1] + s2;
    ChildrenGoCountFront(c1, s2, x);
    var s0 := [c0] + s1;
    ChildrenGoCountFront(c0, s1, x);
    assert s0 == [c0, c1, c2, c3, c4, c5, c6];
  }

  /** A directory holding one entry collects what that entry does, unless
      the directory is excluded. */
  lemma OneEntryDir(d: string, c: Entry, x: seq<string>)
    ensures GoCount(Dir(d, [c]), x) == if d in x then 0 else GoCount(c, x)
  {
    ChildrenGoCountFront(c, [], x);
  }

  /** The count for a tree shaped like the test's, whatever its names. */
  lemma ShapeCount(r: string, readme: string, internal: string, util: string, main: string,
                   nested: string, deep: string, handler: string, pkg: string, service: string,
                   testdata: string, fixture: string, vendor: string, dep: string, x: seq<string>)
    requires r !in x && !HasSuffix(readme, ".go") && HasSuffix(util, ".go") && HasSuffix(main, ".go")
    requires HasSuffix(handler, ".go") && HasSuffix(service, ".go") && HasSuffix(fixture, ".go") && HasSuffix(dep, ".go")
    ensures GoCount(Dir(r, [File(readme), Dir(internal, [File(util)]), File(main),
                            Dir(nested, [Dir(deep, [File(handler)])]), Dir(pkg, [File(service)]),
                            Dir(testdata, [File(fixture)]), Dir(vendor, [File(dep)])]), x)
      == 1
       + (if internal in x then 0 else 1)
       + (if nested in x || deep in x then 0 else 1)
       + (if pkg in x then 0 else 1)
       + (if testdata in x then 0 else 1)
       + (if vendor in x then 0 else 1)
  {
    ChildrenGoCountSeven(File(readme), Dir(internal, [File(util)]), File(main),
      Dir(nested, [Dir(deep, [File(handler)])]), Dir(pkg, [File(service)]),
      Dir(testdata, [File(fixture)]), Dir(vendor, [File(dep)]), x);
    OneEntryDir(internal, File(util), x);
    OneEntryDir(deep, File(handler), x);
    OneEntryDir(nested, Dir(deep, [File(handler)]), x);
    OneEntryDir(pkg, File(service), x);
    OneEntryDir(testdata, File(fixture), x);
    OneEntryDir(vendor, File(dep), x);
  }

  /** How many Go files the scan of the test's tree collects, for any
      exclusion list that does not name the root. */
  lemma FixtureCount(rootName: string, x: seq<string>)
    requires rootName !in x
    ensures GoCount(Fixture(rootName), x)
      == 1
       + (if "internal" in x then 0 else 1)
       + (if "nested" in x || "deep" in x then 0 else 1)
       + (if "pkg" in x then 0 else 1)
       + (if "testdata" in x then 0 else 1)
       + (if "vendor" in x then 0 else 1)
  {
    ShapeCount(rootName, "README.md", "internal", "util.go", "main.go", "nested", "deep", "handler.go",
               "pkg", "service.go", "testdata", "fixture.go", "vendor", "dep.go", x);
  }

  /** The rows of the scan's test: six Go files without exclusions, one
      fewer without `vendor`, two fewer without `vendor` and `testdata`, one
      fewer without `deep` (matched by name two levels down), and all six
      when the excluded name matches no directory. */
  lemma FixtureCounts(root: string, rootName: string)
    requires rootName != "vendor" && rootName != "testdata" && rootName != "deep" && rootName != "doesnotexist"
    ensures |GoFiles(root, Fixture(rootName), [])| == 6
    ensures |GoFiles(root, Fixture(rootName), ["vendor"])| == 5
    ensures |GoFiles(root, Fixture(rootName), ["vendor", "testdata"])| == 4
    ensures |GoFiles(root, Fixture(rootName), ["deep"])| == 5
    ensures |GoFiles(root, Fixture(rootName), ["doesnotexist"])| == 6
  {
    FixtureCount(rootName, []);
    FixtureCount(rootName, ["vendor"]);
    FixtureCount(rootName, ["vendor", "testdata"]);
    FixtureCount(rootName, ["deep"]);
    FixtureCount(rootName, ["doesnotexist"]);
    GoFilesCount(root, Fixture(rootName), []);
    GoFilesCount(root, Fixture(rootName), ["vendor"]);
    GoFilesCount(root, Fixture(rootName), ["vendor", "testdata"]);
    GoFilesCount(root, Fixture(rootName), ["deep"]);
    GoFilesCount(root, Fixture(rootName), ["doesnotexist"]);
  }

  // ---------------------------------------------------------------------
  // The yes/no prompt
  // ---------------------------------------------------------------------

  /** The answer of `promptUser`, given the line read from standard input
      (`None` when reading failed, end of input before a line break
      included): yes exactly when the trimmed, lower-cased line is "y" or
      "yes". */
  function PromptUser(response: Option<string>): bool
  {
    match response
    case None => false
    case Some(line) =>
      var answer := ToLower(TrimSpace(line));
      answer == "y" || answer == "yes"
  }

  /** The answers accepted, spelt out: a line that was read and, once
      trimmed, is "y" or "yes" in any mix of cases; a failed read declines. */
  lemma PromptAccepts(response: Option<string>)
    ensures PromptUser(response) <==> (
      && response.Some?
      && var t := TrimSpace(response.value);
         || (|t| == 1 && t[0] in "yY")
         || (|t| == 3 && t[0] in "yY" && t[1] in "eE" && t[2] in "sS"))
  {
    if response.Some? {
      var t := TrimSpace(response.value);
      var answer := ToLower(t);
      if |t| == 1 {
        assert answer == "y" <==> answer[0] == 'y';
      } else if |t| == 3 {
        assert answer == "yes" <==> answer[0] == 'y' && answer[1] == 'e' && answer[2] == 's';
      }
    }
  }

  /** Spaces around the answer, the line break included, do not matter. */
  lemma PromptIgnoresSpaces(before: string, line: string, after: string)
    requires AllSpace(before) && AllSpace(after)
    ensures PromptUser(Some(before + line + after)) == PromptUser(Some(line))
  {
    TrimSpaceAround(before, line, after);
  }
}
