/** The parts of Go's `strings` package that the command-line code relies on,
    over strings as sequences of Unicode scalar values. */
module Strings {

  /** `strings.Split(s, string(sep))` for a one-character separator: the
      pieces between separators, in order; an empty input gives one empty
      piece, and a trailing separator gives a trailing empty piece. */
  function Split(s: string, sep: char): (parts: seq<string>)
    ensures |parts| >= 1
    decreases |s|
  {
    if s == [] then [""]
    else
      var rest := Split(s[1..], sep);
      if s[0] == sep then [""] + rest
      else [[s[0]] + rest[0]] + rest[1..]
  }

  /** No piece contains the separator, and joining the pieces gives the
      input back. */
  lemma {:induction false} SplitSpec(s: string, sep: char)
    ensures forall i :: 0 <= i < |Split(s, sep)| ==> sep !in Split(s, sep)[i]
    ensures Join(Split(s, sep), sep) == s
    decreases |s|
  {
    if s != [] {
      var rest := Split(s[1..], sep);
      SplitSpec(s[1..], sep);
      if s[0] == sep {
        assert s == [sep] + s[1..];
      } else {
        var parts := [[s[0]] + rest[0]] + rest[1..];
        assert parts[1..] == rest[1..];
        assert s == [s[0]] + s[1..];
      }
    }
  }

  /** `strings.Join(parts, string(sep))`. */
  function Join(parts: seq<string>, sep: char): string
  {
    if |parts| == 0 then ""
    else if |parts| == 1 then parts[0]
    else parts[0] + [sep] + Join(parts[1..], sep)
  }

  /** Splitting distributes over a separator between two strings. */
  lemma {:induction false} SplitAround(a: string, b: string, sep: char)
    ensures Split(a + [sep] + b, sep) == Split(a, sep) + Split(b, sep)
    decreases |a|
  {
    if a == [] {
      assert a + [sep] + b == [sep] + b;
    } else {
      assert (a + [sep] + b)[1..] == a[1..] + [sep] + b;
      SplitAround(a[1..], b, sep);
    }
  }

  /** Joining pieces that do not contain the separator and splitting the
      result gives the pieces back. */
  lemma {:induction false} SplitJoin(parts: seq<string>, sep: char)
    requires |parts| >= 1
    requires forall i :: 0 <= i < |parts| ==> sep !in parts[i]
    ensures Split(Join(parts, sep), sep) == parts
    decreases |parts|
  {
    SplitWithoutSeparator(parts[0], sep);
    if |parts| > 1 {
      SplitJoin(parts[1..], sep);
      SplitAround(parts[0], Join(parts[1..], sep), sep);
      assert parts == [parts[0]] + parts[1..];
    }
  }

  /** A string without the separator is one piece. */
  lemma {:induction false} SplitWithoutSeparator(s: string, sep: char)
    requires sep !in s
    ensures Split(s, sep) == [s]
    decreases |s|
  {
    if s != [] {
      assert sep !in s[1..];
      SplitWithoutSeparator(s[1..], sep);
      assert s == [s[0]] + s[1..];
    }
  }

  /** `unicode.IsSpace`: the Latin-1 spaces and the other characters with the
      Unicode White_Space property. */
  predicate IsSpace(c: char)
  {
    c == '\t' || c == '\n' || c == '\U{000B}' || c == '\U{000C}' || c == '\r' || c == ' '
    || c == '\U{0085}' || c == '\U{00A0}' || c == '\U{1680}'
    || ('\U{2000}' <= c <= '\U{200A}')
    || c == '\U{2028}' || c == '\U{2029}' || c == '\U{202F}' || c == '\U{205F}' || c == '\U{3000}'
  }

  /** Every character of `s` is a space. */
  predicate AllSpace(s: string)
  {
    forall i :: 0 <= i < |s| ==> IsSpace(s[i])
  }

  /** Neither end of `s` is a space (the empty string included). */
  predicate Trimmed(s: string)
  {
    s == [] || (!IsSpace(s[0]) && !IsSpace(s[|s| - 1]))
  }

  /** Drops the leading spaces. */
  function TrimLeft(s: string): string
  {
    if s != [] && IsSpace(s[0]) then TrimLeft(s[1..]) else s
  }

  /** Drops the trailing spaces. */
  function TrimRight(s: string): string
  {
    if s != [] && IsSpace(s[|s| - 1]) then TrimRight(s[..|s| - 1]) else s
  }

  /** `strings.TrimSpace`: `s` without its leading and trailing spaces. */
  function TrimSpace(s: string): string
  {
    TrimRight(TrimLeft(s))
  }

  /** `TrimLeft` removes a prefix of spaces and stops at a non-space. */
  lemma {:induction false} TrimLeftSpec(s: string)
    ensures var r := TrimLeft(s);
      && |r| <= |s| && r == s[|s| - |r|..]
      && AllSpace(s[..|s| - |r|])
      && (r == [] || !IsSpace(r[0]))
    decreases |s|
  {
    if s != [] && IsSpace(s[0]) {
      TrimLeftSpec(s[1..]);
      var r := TrimLeft(s[1..]);
      assert s[..|s| - |r|] == [s[0]] + s[1..][..|s[1..]| - |r|];
    }
  }

  /** `TrimRight` removes a suffix of spaces and stops at a non-space. */
  lemma {:induction false} TrimRightSpec(s: string)
    ensures var r := TrimRight(s);
      && |r| <= |s| && r == s[..|r|]
      && AllSpace(s[|r|..])
      && (r == [] || !IsSpace(r[|r| - 1]))
    decreases |s|
  {
    if s != [] && IsSpace(s[|s| - 1]) {
      TrimRightSpec(s[..|s| - 1]);
      var r := TrimRight(s[..|s| - 1]);
      assert s[|r|..] == s[..|s| - 1][|r|..] + [s[|s| - 1]];
    }
  }

  /** The trimmed form has no space at either end and is no longer than `s`. */
  lemma TrimSpaceSpec(s: string)
    ensures Trimmed(TrimSpace(s)) && |TrimSpace(s)| <= |s|
  {
    var l := TrimLeft(s);
    TrimLeftSpec(s);
    TrimRightSpec(l);
    var r := TrimRight(l);
    assert r != [] ==> r[0] == l[0];
  }

  /** Trimming splits `s` into spaces, the trimmed core and spaces. */
  lemma TrimSpaceSplits(s: string)
    ensures exists i, j :: 0 <= i <= j <= |s| && TrimSpace(s) == s[i..j]
                           && AllSpace(s[..i]) && AllSpace(s[j..])
  {
    var l := TrimLeft(s);
    TrimLeftSpec(s);
    TrimRightSpec(l);
    var i := |s| - |l|;
    var j := i + |TrimRight(l)|;
    assert TrimSpace(s) == s[i..j];
    assert s[j..] == l[|TrimRight(l)|..];
  }

  /** Trimming keeps a string that has no space at either end. */
  lemma TrimSpaceOfTrimmed(s: string)
    requires Trimmed(s)
    ensures TrimSpace(s) == s
  {
  }

  /** Spaces around a string do not change its trimmed form. */
  lemma {:induction false} TrimSpaceAround(a: string, s: string, b: string)
    requires AllSpace(a) && AllSpace(b)
    ensures TrimSpace(a + s + b) == TrimSpace(s)
  {
    calc {
      TrimSpace(a + s + b);
      TrimRight(TrimLeft(a + s + b));
      { assert a + s + b == a + (s + b); TrimLeftDropsSpaces(a, s + b); }
      TrimRight(TrimLeft(s + b));
      { TrimLeftOfAppend(s, b); }
      TrimRight(TrimLeft(s) + b);
      { TrimRightDropsSpaces(TrimLeft(s), b); }
      TrimRight(TrimLeft(s));
      TrimSpace(s);
    }
  }

  lemma {:induction false} TrimLeftDropsSpaces(a: string, s: string)
    requires AllSpace(a)
    ensures TrimLeft(a + s) == TrimLeft(s)
    decreases |a|
  {
    if a != [] {
      assert (a + s)[1..] == a[1..] + s;
      TrimLeftDropsSpaces(a[1..], s);
    } else {
      assert a + s == s;
    }
  }

  lemma {:induction false} TrimRightDropsSpaces(s: string, b: string)
    requires AllSpace(b)
    ensures TrimRight(s + b) == TrimRight(s)
    decreases |b|
  {
    if b != [] {
      assert (s + b)[..|s + b| - 1] == s + b[..|b| - 1];
      TrimRightDropsSpaces(s, b[..|b| - 1]);
    } else {
      assert s + b == s;
    }
  }

  /** Trimming the left end commutes with appending spaces on the right,
      up to the spaces that the right trim removes anyway. */
  lemma {:induction false} TrimLeftOfAppend(s: string, b: string)
    requires AllSpace(b)
    ensures TrimRight(TrimLeft(s + b)) == TrimRight(TrimLeft(s) + b)
    decreases |s|
  {
    if s == [] {
      assert s + b == b;
      TrimLeftDropsSpaces(b, []);
      assert b + [] == b;
      TrimRightDropsSpaces([], b);
      assert TrimLeft(s) == [];
      assert [] + b == b;
    } else if IsSpace(s[0]) {
      assert (s + b)[1..] == s[1..] + b;
      TrimLeftOfAppend(s[1..], b);
    } else {
      assert TrimLeft(s + b) == s + b;
    }
  }

  /** `strings.HasSuffix`. */
  predicate HasSuffix(s: string, suffix: string)
  {
    |suffix| <= |s| && s[|s| - |suffix|..] == suffix
  }

  /** A string ends with `suffix` exactly when it is some string followed
      by `suffix`. */
  lemma HasSuffixSpec(s: string, suffix: string, p: string)
    ensures HasSuffix(p + suffix, suffix)
    ensures HasSuffix(s, suffix) ==> s == s[..|s| - |suffix|] + suffix
  {
    assert (p + suffix)[|p|..] == suffix;
  }

  /** Being a suffix is transitive. */
  lemma HasSuffixTransitive(s: string, t: string, u: string)
    requires HasSuffix(s, t) && HasSuffix(t, u)
    ensures HasSuffix(s, u)
  {
    assert s[|s| - |u|..] == s[|s| - |t|..][|t| - |u|..];
  }

  /** The lower-case form of an ASCII letter; other characters are kept. */
  function LowerChar(c: char): char
  {
    if 'A' <= c <= 'Z' then (c as int - 'A' as int + 'a' as int) as char else c
  }

  /** `strings.ToLower`, restricted to ASCII letters. */
  function ToLower(s: string): (r: string)
    ensures |r| == |s|
    ensures forall i :: 0 <= i < |s| ==> r[i] == LowerChar(s[i])
  {
    if s == [] then [] else [LowerChar(s[0])] + ToLower(s[1..])
  }
}
