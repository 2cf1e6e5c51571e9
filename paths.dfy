/** The parts of Go's `path/filepath` package that the command-line code
    relies on, for the '/' separator of Unix systems. */
module Paths {
  import opened Strings
  import opened Seqs

  /** `filepath.Ext`: the suffix of `path` that starts at the last '.' of its
      final element, or "" when that element has no '.'. */
  function Ext(path: string): (e: string)
    ensures e == [] || (e[0] == '.' && '/' !in e && '.' !in e[1..] && HasSuffix(path, e))
    ensures e == [] ==> forall i :: 0 <= i < |path| && path[i] == '.' ==> '/' in path[i..]
    decreases |path|
  {
    if path == [] then ""
    else
      var c := path[|path| - 1];
      var front := path[..|path| - 1];
      if c == '/' then
        assert forall i :: 0 <= i < |path| ==> path[i..][|path| - 1 - i] == '/';
        ""
      else if c == '.' then "."
      else
        var e := Ext(front);
        if e == [] then
          assert forall i :: 0 <= i < |front| ==> path[i..] == front[i..] + [c];
          ""
        else
          assert path == front + [c];
          e + [c]
  }

  /** A '.' followed by a plain name is its own extension. */
  lemma {:induction false} ExtOfDotName(name: string)
    requires '.' !in name && '/' !in name
    ensures Ext("." + name) == "." + name
    decreases |name|
  {
    if name != [] {
      var n', c := name[..|name| - 1], name[|name| - 1];
      FrontLast(name);
      AppendAssociative(".", n', [c]);
      var p := ("." + n') + [c];
      assert p[..|p| - 1] == "." + n';
      ExtOfDotName(n');
    }
  }

  /** A path ending in a '.' and a plain name has that extension. */
  lemma ExtOfSuffix(path: string, ext: string)
    requires ext != [] && ext[0] == '.' && '.' !in ext[1..] && '/' !in ext[1..]
    requires HasSuffix(path, ext)
    ensures Ext(path) == ext
  {
    var stem := path[..|path| - |ext|];
    assert path == stem + ext;
    assert ext == "." + ext[1..];
    ExtOfDotName(ext[1..]);
    ExtOfAppend(stem, ext);
  }

  /** A joined element ending in a '.' and a plain name has that extension. */
  lemma ExtOfJoin(dir: string, name: string, ext: string)
    requires ext != [] && ext[0] == '.' && '.' !in ext[1..] && '/' !in ext[1..]
    requires HasSuffix(name, ext)
    ensures Ext(JoinPath(dir, name)) == ext
  {
    HasSuffixTransitive(JoinPath(dir, name), name, ext);
    ExtOfSuffix(JoinPath(dir, name), ext);
  }

  /** The extension of a string is decided by its end. */
  lemma {:induction false} ExtOfAppend(a: string, b: string)
    requires Ext(b) != ""
    ensures Ext(a + b) == Ext(b)
    decreases |b|
  {
    var ab := a + b;
    assert ab[..|ab| - 1] == a + b[..|b| - 1];
    assert ab[|ab| - 1] == b[|b| - 1];
    if b[|b| - 1] != '/' && b[|b| - 1] != '.' {
      ExtOfAppend(a, b[..|b| - 1]);
    }
  }

  /** What `filepath.Join` puts before the joined element: nothing for an
      empty or "." directory, otherwise the directory ending in one '/'. */
  function DirPrefix(dir: string): (d: string)
    ensures d == [] || d[|d| - 1] == '/'
  {
    if dir == "" || dir == "." then ""
    else if dir[|dir| - 1] == '/' then dir
    else dir + "/"
  }

  /** `filepath.Join(dir, name)` where `dir` is already a clean path and
      `name` is one plain path element: the element under the directory. */
  function JoinPath(dir: string, name: string): (p: string)
    ensures HasSuffix(p, name) && |name| <= |p|
  {
    DirPrefix(dir) + name
  }

  /** An element without a '.' after a directory has no extension. */
  lemma {:induction false} ExtWithoutDot(d: string, name: string)
    requires '.' !in name && '/' !in name
    requires d == [] || d[|d| - 1] == '/'
    ensures Ext(d + name) == ""
    decreases |name|
  {
    if name == [] {
      assert d + name == d;
    } else {
      var n' := name[..|name| - 1];
      assert (d + name)[..|d + name| - 1] == d + n';
      assert (d + name)[|d + name| - 1] == name[|name| - 1];
      ExtWithoutDot(d, n');
    }
  }

  /** A string without trailing '/' characters. */
  function TrimTrailingSlashes(path: string): (r: string)
    ensures r == [] || r[|r| - 1] != '/'
  {
    if path != [] && path[|path| - 1] == '/' then TrimTrailingSlashes(path[..|path| - 1])
    else path
  }

  /** The characters after the last '/' of `path`. */
  function LastElement(path: string): (r: string)
    ensures '/' !in r
  {
    if path == [] || path[|path| - 1] == '/' then ""
    else LastElement(path[..|path| - 1]) + [path[|path| - 1]]
  }

  /** `filepath.Base`: the last element of `path` once trailing slashes are
      removed; "." for the empty path and "/" for a path of slashes only. */
  function Base(path: string): (r: string)
    ensures r != ""
    ensures r == "/" || '/' !in r
  {
    if path == "" then "."
    else
      var p := TrimTrailingSlashes(path);
      if p == "" then "/" else LastElement(p)
  }

  /** The base name of a joined path is the element that was joined. */
  lemma BaseOfJoin(dir: string, name: string)
    requires name != "" && '/' !in name
    ensures Base(JoinPath(dir, name)) == name
  {
    var d := DirPrefix(dir);
    assert (d + name)[|d + name| - 1] == name[|name| - 1];
    LastElementAfterSlash(d, name);
  }

  /** The last element of a path that ends in a '/'-free element after a
      '/' (or after nothing) is that element. */
  lemma {:induction false} LastElementAfterSlash(d: string, name: string)
    requires '/' !in name
    requires d == [] || d[|d| - 1] == '/'
    ensures LastElement(d + name) == name
    decreases |name|
  {
    if name == [] {
      assert d + name == d;
    } else {
      var n' := name[..|name| - 1];
      var c := name[|name| - 1];
      assert (d + name)[..|d + name| - 1] == d + n';
      assert (d + name)[|d + name| - 1] == c;
      LastElementAfterSlash(d, n');
      assert name == n' + [c];
    }
  }
}
