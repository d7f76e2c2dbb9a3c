/**
 * File-system paths as java.nio sees them on a Unix file system: a path is
 * a root flag and a sequence of name components; parsing drops redundant
 * and trailing separators; startsWith compares whole components.
 */
module Paths {

  const Separator: char := '/'

  datatype Path = Path(rooted: bool, names: seq<string>)

  /** A name component: not empty and free of separators. */
  predicate ValidName(name: string)
  {
    name != [] && Separator !in name
  }

  predicate WellFormed(p: Path)
  {
    forall i :: 0 <= i < |p.names| ==> ValidName(p.names[i])
  }

  /** The length of the leading run of non-separator characters. */
  function SegmentLength(s: string): (k: nat)
    ensures k <= |s|
    ensures forall i :: 0 <= i < k ==> s[i] != Separator
    ensures k < |s| ==> s[k] == Separator
    decreases |s|
  {
    if s == [] || s[0] == Separator then 0 else 1 + SegmentLength(s[1..])
  }

  /** The name components of `s`: the maximal runs of non-separator characters, in order. */
  function Names(s: string): (names: seq<string>)
    ensures forall i :: 0 <= i < |names| ==> ValidName(names[i])
    decreases |s|
  {
    if s == [] then []
    else if s[0] == Separator then Names(s[1..])
    else
      var k := SegmentLength(s);
      [s[..k]] + Names(s[k..])
  }

  /** Paths.get(s): rooted when `s` starts with a separator. */
  function Parse(s: string): (p: Path)
    ensures WellFormed(p)
  {
    Path(s != [] && s[0] == Separator, Names(s))
  }

  /** The names joined by single separators. */
  function Join(names: seq<string>): string
    decreases |names|
  {
    if names == [] then []
    else if |names| == 1 then names[0]
    else names[0] + [Separator] + Join(names[1..])
  }

  /** Path.toString(): the normal form of a path. */
  function Render(p: Path): string
  {
    (if p.rooted then [Separator] else []) + Join(p.names)
  }

  /**
   * Path.startsWith: same root, and the other path's components are the
   * first components of this one.
   */
  predicate StartsWith(p: Path, prefix: Path)
  {
    p.rooted == prefix.rooted && |prefix.names| <= |p.names| && p.names[..|prefix.names|] == prefix.names
  }

  /** A separator in front of a string does not change its components. */
  lemma NamesSkipsSeparator(s: string)
    ensures Names([Separator] + s) == Names(s)
  {
    assert ([Separator] + s)[1..] == s;
  }

  /** A valid name followed by a separator (or nothing) is one whole segment. */
  lemma {:induction false} SegmentOfName(name: string, rest: string)
    requires ValidName(name)
    requires rest == [] || rest[0] == Separator
    ensures SegmentLength(name + rest) == |name|
  {
    // no separator inside the name, and one right after it (or the end)
    assert forall i :: 0 <= i < |name| ==> (name + rest)[i] == name[i] && name[i] in name;
    assert |name| < |name + rest| ==> (name + rest)[|name|] == Separator;
  }

  /** Splitting what Join built gives back the same components. */
  lemma {:induction false} NamesOfJoin(names: seq<string>)
    requires forall i :: 0 <= i < |names| ==> ValidName(names[i])
    ensures Names(Join(names)) == names
    decreases |names|
  {
    if |names| == 1 {
      NamesOfSegment(names[0], []);
      assert names[0] + [] == names[0];
    } else if |names| > 1 {
      var rest := Join(names[1..]);
      assert Join(names) == names[0] + ([Separator] + rest);
      NamesOfSegment(names[0], [Separator] + rest);
      NamesSkipsSeparator(rest);
      NamesOfJoin(names[1..]);
    }
  }

  /** A joined path does not start with a separator. */
  lemma JoinStartsWithName(names: seq<string>)
    requires forall i :: 0 <= i < |names| ==> ValidName(names[i])
    ensures Join(names) != [] ==> Join(names)[0] != Separator
  {
    if |names| >= 1 {
      assert names[0][0] in names[0];
      assert Join(names)[0] == names[0][0];
    }
  }

  /** Rendering a well-formed path and parsing it again gives the same path. */
  lemma ParseRender(p: Path)
    requires WellFormed(p)
    ensures Parse(Render(p)) == p
  {
    NamesOfJoin(p.names);
    JoinStartsWithName(p.names);
    if p.rooted {
      NamesSkipsSeparator(Join(p.names));
    } else {
      assert Render(p) == Join(p.names);
      assert Join(p.names) == [] ==> p.names == [];
    }
  }

  /** Parsing is idempotent through rendering: Render gives a normal form of the string. */
  lemma RenderNormalizes(s: string)
    ensures Parse(Render(Parse(s))) == Parse(s)
  {
    ParseRender(Parse(s));
  }

  /** A valid name up to a separator (or the end) is the first component. */
  lemma NamesOfSegment(name: string, rest: string)
    requires ValidName(name)
    requires rest == [] || rest[0] == Separator
    ensures Names(name + rest) == [name] + Names(rest)
  {
    SegmentOfName(name, rest);
    assert name[0] in name;
    assert (name + rest)[0] == name[0];
    assert (name + rest)[..|name|] == name;
    assert (name + rest)[|name|..] == rest;
  }

  /** A rooted path string of two or three valid names parses to those names. */
  lemma ParseRooted(a: string, b: string, c: string)
    requires ValidName(a) && ValidName(b) && (c == [] || ValidName(c))
    ensures c == [] ==> Parse("/" + a + "/" + b) == Path(true, [a, b])
    ensures c != [] ==> Parse("/" + a + "/" + b + "/" + c) == Path(true, [a, b, c])
  {
    var tail := if c == [] then [] else "/" + c;
    var names := if c == [] then [a, b] else [a, b, c];
    NamesOfJoin(names);
    assert Join(names) == a + "/" + b + tail by {
      if c != [] {
        assert Join(names[1..]) == b + "/" + Join(names[2..]);
      }
    }
    NamesSkipsSeparator(Join(names));
    assert c == [] ==> "/" + a + "/" + b == [Separator] + Join(names);
    assert c != [] ==> "/" + a + "/" + b + "/" + c == [Separator] + Join(names);
  }

  /** The characters of `s` that are not separators, in order. */
  function WithoutSeparators(s: string): string
    decreases |s|
  {
    if s == [] then [] else (if s[0] == Separator then [] else [s[0]]) + WithoutSeparators(s[1..])
  }

  /** The names written one after the other, with nothing between them. */
  function Concat(names: seq<string>): string
    decreases |names|
  {
    if names == [] then [] else names[0] + Concat(names[1..])
  }

  /** A leading run of non-separators is kept whole when separators are removed. */
  lemma {:induction false} WithoutSeparatorsKeepsRun(s: string, k: nat)
    requires k <= |s| && forall i :: 0 <= i < k ==> s[i] != Separator
    ensures WithoutSeparators(s) == s[..k] + WithoutSeparators(s[k..])
    decreases k
  {
    if k > 0 {
      WithoutSeparatorsKeepsRun(s[1..], k - 1);
      assert s[1..][..k - 1] == s[1..k] && s[1..][k - 1..] == s[k..];
      assert s[..k] == [s[0]] + s[1..k];
    }
  }

  /**
   * Parsing loses no character but the separators: the names, written one
   * after the other, are exactly `s` with its separators removed.
   */
  lemma {:induction false} NamesKeepEveryCharacter(s: string)
    ensures Concat(Names(s)) == WithoutSeparators(s)
    decreases |s|
  {
    if s != [] {
      if s[0] == Separator {
        NamesKeepEveryCharacter(s[1..]);
      } else {
        var k := SegmentLength(s);
        NamesKeepEveryCharacter(s[k..]);
        WithoutSeparatorsKeepsRun(s, k);
        assert Names(s) == [s[..k]] + Names(s[k..]);
        assert Concat([s[..k]] + Names(s[k..])) == s[..k] + Concat(Names(s[k..])) by {
          assert ([s[..k]] + Names(s[k..]))[1..] == Names(s[k..]);
        }
      }
    }
  }

  /**
   * startsWith is component-wise, not character-wise: "/a/bc" does not
   * start with "/a/b" although the strings do, while "/a/b/c" does.
   */
  lemma StartsWithWholeComponents()
    ensures !StartsWith(Parse("/a/bc"), Parse("/a/b"))
    ensures StartsWith(Parse("/a/b/c"), Parse("/a/b"))
  {
    ParseRooted("a", "bc", "");
    ParseRooted("a", "b", "");
    ParseRooted("a", "b", "c");
    assert "/a/bc" == "/" + "a" + "/" + "bc";
    assert "/a/b" == "/" + "a" + "/" + "b";
    assert "/a/b/c" == "/" + "a" + "/" + "b" + "/" + "c";
    assert ["a", "bc"][..2][1] == "bc";
    assert ["a", "b", "c"][..2] == ["a", "b"];
  }
}
