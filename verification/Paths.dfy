/**
 * Slash-separated relative paths, as strings: parents, what lies below a path, and the order in
 * which lists of paths are sorted.
 *
 * Browsing and restoring look at paths as the program does: the parent is what comes before the last
 * slash, and a path lies below another when that one and a slash are its beginning. `BelowParent`
 * ties the two together, so walking up by parents visits exactly what a path lies below. Nothing is
 * assumed about the paths themselves: empty names, doubled and leading slashes are covered.
 */
module Paths {
  type Path = string

  const SLASH: char := '/'

  /** `p` is `d` followed by a slash and something. */
  predicate Below(p: Path, d: Path) {
    d != [] && |d| < |p| && p[..|d|] == d && p[|d|] == SLASH
  }

  /** The path itself or anything below it. */
  predicate Covers(d: Path, p: Path) {
    p == d || (|d| < |p| && p[..|d|] == d && p[|d|] == SLASH)
  }

  /** Everything before the last slash, or nothing. */
  function ParentOf(p: Path): (parent: Path)
    ensures p == [] ==> parent == []
    ensures p != [] ==> |parent| < |p|
  {
    if p == [] then [] else if p[|p| - 1] == SLASH then p[..|p| - 1] else ParentOf(p[..|p| - 1])
  }

  /** Where the parent ends: at the last slash, if there is one. */
  lemma {:induction false} ParentIsPrefix(p: Path)
    ensures var n := |ParentOf(p)|;
            && n <= |p| && ParentOf(p) == p[..n]
            && (n < |p| ==> p[n] == SLASH || n == 0)
            && (forall i :: n < i < |p| ==> p[i] != SLASH)
            && (n == 0 ==> forall i :: 0 < i < |p| ==> p[i] != SLASH)
  {
    if p != [] {
      var rest := p[..|p| - 1];
      if p[|p| - 1] != SLASH {
        ParentIsPrefix(rest);
        hide ParentOf;
        assert forall i :: 0 <= i < |rest| ==> rest[i] == p[i];
        assert rest[..|ParentOf(rest)|] == p[..|ParentOf(rest)|];
      }
    }
  }

  /** What lies above a path is its parent and what lies above that. */
  lemma BelowParent(p: Path, d: Path)
    ensures Below(p, d) <==> d != [] && (d == ParentOf(p) || Below(ParentOf(p), d))
  {
    ParentIsPrefix(p);
    hide ParentOf;
    var parent := ParentOf(p);
    assert |d| <= |parent| ==> p[..|d|] == parent[..|d|];
    assert Below(p, d) ==> |d| <= |parent|;
  }

  /** What lies above a path forms a chain: going up from `a`, the next one is its parent. */
  lemma AboveIsChain(p: Path, a: Path, d: Path)
    requires Below(p, a) && Below(p, d) && |d| <= |a|
    ensures d == a || (Below(a, d) && |d| <= |ParentOf(a)|)
  {
    if |d| < |a| {
      assert a[..|d|] == p[..|d|];
      BelowParent(a, d);
    } else {
      assert d == p[..|a|];
    }
    hide ParentOf;
  }

  // ----- Paths as lists of names -----

  /** The names between the slashes, empty ones included. */
  function Names(p: Path): (names: seq<string>)
    ensures names != []
  {
    if p == [] then [[]] else Prepended(p[0], Names(p[1..]))
  }

  /** One more character in front: a slash begins a new name. */
  function Prepended(c: char, names: seq<string>): (more: seq<string>)
    requires names != []
    ensures more != []
  {
    if c == SLASH then [[]] + names else [[c] + names[0]] + names[1..]
  }

  function Joined(names: seq<string>): Path
    requires names != []
  {
    if |names| == 1 then names[0] else names[0] + [SLASH] + Joined(names[1..])
  }

  lemma JoinedPrepended(c: char, names: seq<string>)
    requires names != []
    ensures Joined(Prepended(c, names)) == [c] + Joined(names)
  {
    var more := Prepended(c, names);
    if c == SLASH {
      assert more[1..] == names && more[0] == [];
    } else if |names| > 1 {
      assert more[1..] == names[1..] && more[0] == [c] + names[0];
      assert ([c] + names[0]) + [SLASH] + Joined(names[1..]) == [c] + (names[0] + [SLASH] + Joined(names[1..]));
    }
  }

  lemma {:induction false} JoinedNames(p: Path)
    ensures Joined(Names(p)) == p
  {
    if p != [] {
      JoinedNames(p[1..]);
      JoinedPrepended(p[0], Names(p[1..]));
      hide Joined, Prepended;
    }
  }

  lemma {:induction false} JoinedConcat(a: seq<string>, b: seq<string>)
    requires a != [] && b != []
    ensures Joined(a + b) == Joined(a) + [SLASH] + Joined(b)
  {
    if |a| == 1 {
      assert (a + b)[1..] == b;
    } else {
      assert (a + b)[1..] == a[1..] + b;
      JoinedConcat(a[1..], b);
    }
  }

  lemma PrependedConcat(c: char, a: seq<string>, b: seq<string>)
    requires a != []
    ensures Prepended(c, a + b) == Prepended(c, a) + b
  {
    if c == SLASH {
      assert [[]] + (a + b) == ([[]] + a) + b;
    } else {
      assert [[c] + a[0]] + (a + b)[1..] == ([[c] + a[0]] + a[1..]) + b;
    }
  }

  lemma NamesUnfold(p: Path)
    requires p != []
    ensures Names(p) == Prepended(p[0], Names(p[1..]))
  {
  }

  lemma NamesOfSlash(rest: Path)
    ensures Names([SLASH] + rest) == Names([]) + Names(rest)
  {
    assert ([SLASH] + rest)[1..] == rest;
  }

  lemma {:induction false} NamesConcat(d: Path, rest: Path)
    ensures Names(d + [SLASH] + rest) == Names(d) + Names(rest)
  {
    var p := d + [SLASH] + rest;
    if d == [] {
      NamesOfSlash(rest);
      assert p == [SLASH] + rest;
    } else {
      hide Names, Prepended;
      assert p[1..] == d[1..] + [SLASH] + rest;
      NamesConcat(d[1..], rest);
      NamesUnfold(p);
      NamesUnfold(d);
      PrependedConcat(d[0], Names(d[1..]), Names(rest));
    }
  }

  /** A path covers another one exactly when its names are the first names of the other. */
  lemma CoversByNames(d: Path, p: Path)
    ensures Covers(d, p) <==> Names(d) <= Names(p)
  {
    hide Names, Joined;
    JoinedNames(d);
    JoinedNames(p);
    if Covers(d, p) && p != d {
      assert p == d + [SLASH] + p[|d| + 1..];
      NamesConcat(d, p[|d| + 1..]);
    } else if Names(d) < Names(p) {
      var more := Names(p)[|Names(d)|..];
      assert Names(p) == Names(d) + more;
      JoinedConcat(Names(d), more);
    } else if Names(d) <= Names(p) {
      assert Names(d) == Names(p);
    }
  }

  /** Covering a path that is not empty is being it or lying above it. */
  lemma CoversIsBelow(d: Path, p: Path)
    requires d != []
    ensures Covers(d, p) <==> p == d || Below(p, d)
  {
  }

  // ----- The order of `<` on strings -----

  predicate Leq(a: Path, b: Path) {
    a == [] || (b != [] && (a[0] < b[0] || (a[0] == b[0] && Leq(a[1..], b[1..]))))
  }

  lemma {:induction false} LeqReflexive(a: Path)
    ensures Leq(a, a)
  {
    if a != [] { LeqReflexive(a[1..]); }
  }

  lemma {:induction false} LeqTotal(a: Path, b: Path)
    ensures Leq(a, b) || Leq(b, a)
  {
    if a != [] && b != [] { LeqTotal(a[1..], b[1..]); }
  }

  lemma {:induction false} LeqAntisymmetric(a: Path, b: Path)
    requires Leq(a, b) && Leq(b, a)
    ensures a == b
  {
    if a != [] {
      LeqAntisymmetric(a[1..], b[1..]);
      assert a == [a[0]] + a[1..] && b == [b[0]] + b[1..];
    }
  }

  lemma {:induction false} LeqTransitive(a: Path, b: Path, c: Path)
    requires Leq(a, b) && Leq(b, c)
    ensures Leq(a, c)
  {
    if a != [] && a[0] == b[0] && b[0] == c[0] { LeqTransitive(a[1..], b[1..], c[1..]); }
  }
}
