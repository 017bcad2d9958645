/**
 * Partial restore of a backup, in place: which paths are asked for, what is removed, what is put
 * back.
 *
 * A file tree is a map from paths to contents, and an archive is its sequence of entries.
 */
module Restore {
  import opened Options
  import opened Paths

  type Contents = nat

  type Tree = map<Path, Contents>

  // ----- The paths asked for -----

  datatype Selection = Chosen(paths: seq<Path>) | InvalidPath(path: Path) | ReservedPath(path: Path)

  /** The path, or one above it, is never restored, be it a directory or a file. */
  ghost predicate IsReserved(p: Path, exclude: (Path, bool) -> bool) {
    exists q :: Covers(q, p) && (exclude(q, true) || exclude(q, false))
  }

  /** Goes through the prefixes that end before a slash, and at last the path itself. */
  method IsReservedPath(p: Path, exclude: (Path, bool) -> bool) returns (reserved: bool)
    ensures reserved <==> IsReserved(p, exclude)
  {
    for k := 0 to |p|
      invariant forall q :: Covers(q, p) && |q| < k ==> !exclude(q, true) && !exclude(q, false)
    {
      if p[k] == SLASH && (exclude(p[..k], true) || exclude(p[..k], false)) {
        assert Covers(p[..k], p);
        return true;
      }
      forall q | Covers(q, p) && |q| == k ensures p[k] == SLASH && q == p[..k] {}
    }
    assert Covers(p, p);
    forall q | Covers(q, p) ensures q == p || |q| < |p| {}
    return exclude(p, true) || exclude(p, false);
  }

  /** A chosen path stands for itself and all it contains. */
  predicate Includes(paths: seq<Path>, p: Path) {
    exists i :: 0 <= i < |paths| && Covers(paths[i], p)
  }

  /** Covered by another path of the list. */
  predicate Redundant(p: Path, all: seq<Path>) {
    exists i :: 0 <= i < |all| && all[i] != p && Covers(all[i], p)
  }

  predicate StrictlySorted(paths: seq<Path>) {
    forall i, k :: 0 <= i < k < |paths| ==> Leq(paths[i], paths[k]) && paths[i] != paths[k]
  }

  /** No path of the list lies below another one. */
  predicate PrefixFree(paths: seq<Path>) {
    forall i, k :: 0 <= i < |paths| && 0 <= k < |paths| && i != k ==> !Covers(paths[i], paths[k])
  }

  lemma CoversIsTransitive(a: Path, b: Path, c: Path)
    requires Covers(a, b) && Covers(b, c)
    ensures Covers(a, c)
  {
    if a != b && b != c { assert c[..|a|] == b[..|a|]; }
  }

  /** Going up from a covered path ends at one that nothing else covers. */
  lemma {:induction false} SomethingCovers(p: Path, all: seq<Path>)
    requires p in all
    ensures exists q :: q in all && !Redundant(q, all) && Covers(q, p)
    decreases |p|
  {
    if Redundant(p, all) {
      var i :| 0 <= i < |all| && all[i] != p && Covers(all[i], p);
      SomethingCovers(all[i], all);
      var q :| q in all && !Redundant(q, all) && Covers(q, all[i]);
      CoversIsTransitive(q, all[i], p);
    } else {
      assert Covers(p, p);
    }
  }

  /** Keeps the paths that no other one covers. */
  method DropRedundant(all: seq<Path>) returns (kept: seq<Path>)
    requires StrictlySorted(all)
    ensures StrictlySorted(kept) && PrefixFree(kept)
    ensures forall p :: p in kept <==> p in all && !Redundant(p, all)
  {
    hide Covers, Leq;
    kept := [];
    for i := 0 to |all|
      invariant forall p :: p in kept <==> p in all[..i] && !Redundant(p, all)
      invariant StrictlySorted(kept)
      invariant forall k :: 0 <= k < |kept| ==> exists j :: 0 <= j < i && kept[k] == all[j]
    {
      assert all[..i + 1] == all[..i] + [all[i]];
      ghost var before := kept;
      if !Redundant(all[i], all) {
        forall k | 0 <= k < |kept| ensures Leq(kept[k], all[i]) && kept[k] != all[i] {
          var j :| 0 <= j < i && kept[k] == all[j];
        }
        kept := kept + [all[i]];
      }
    }
    assert all[..|all|] == all;
    forall i, k | 0 <= i < |kept| && 0 <= k < |kept| && i != k ensures !Covers(kept[i], kept[k]) {
      assert kept[i] in kept && kept[k] in kept;
      assert kept[i] != kept[k] by { SortedHasNoTwins(kept, i, k); }
      var j :| 0 <= j < |all| && all[j] == kept[i];
      assert !Redundant(kept[k], all);
    }
  }

  lemma SortedHasNoTwins(paths: seq<Path>, i: nat, k: nat)
    requires StrictlySorted(paths) && i < |paths| && k < |paths| && i != k
    ensures paths[i] != paths[k]
  {
    hide Leq;
    if i < k { assert paths[i] != paths[k]; } else { assert paths[k] != paths[i]; }
  }

  /** The list without the redundant paths accepts exactly what the whole list accepts. */
  lemma SameRegion(all: seq<Path>, kept: seq<Path>, p: Path)
    requires forall q :: q in kept <==> q in all && !Redundant(q, all)
    ensures Includes(kept, p) <==> Includes(all, p)
  {
    hide Covers, Redundant;
    if Includes(all, p) {
      var i :| 0 <= i < |all| && Covers(all[i], p);
      SomethingCovers(all[i], all);
      var q :| q in all && !Redundant(q, all) && Covers(q, all[i]);
      CoversIsTransitive(q, all[i], p);
      var k :| 0 <= k < |kept| && kept[k] == q;
    }
    if Includes(kept, p) {
      var k :| 0 <= k < |kept| && Covers(kept[k], p);
      assert kept[k] in all;
      var i :| 0 <= i < |all| && all[i] == kept[k];
    }
  }

  /** Puts a path where it belongs in a sorted list, unless it is there. */
  function InsertPath(p: Path, sorted: seq<Path>): seq<Path> {
    if sorted == [] then [p]
    else if sorted[0] == p then sorted
    else if Leq(sorted[0], p) then [sorted[0]] + InsertPath(p, sorted[1..])
    else [p] + sorted
  }

  predicate AllAfter(p: Path, sorted: seq<Path>) {
    forall i :: 0 <= i < |sorted| ==> Leq(p, sorted[i]) && p != sorted[i]
  }

  lemma ConsSorted(p: Path, sorted: seq<Path>)
    requires StrictlySorted(sorted) && AllAfter(p, sorted)
    ensures StrictlySorted([p] + sorted)
  {
    hide Leq;
  }

  lemma TailSorted(sorted: seq<Path>)
    requires StrictlySorted(sorted) && sorted != []
    ensures StrictlySorted(sorted[1..]) && AllAfter(sorted[0], sorted[1..])
  {
    hide Leq;
  }

  lemma {:induction false} InsertMembers(p: Path, sorted: seq<Path>)
    ensures forall q :: q in InsertPath(p, sorted) <==> q == p || q in sorted
  {
    hide Leq;
    if sorted != [] {
      InsertMembers(p, sorted[1..]);
      assert sorted == [sorted[0]] + sorted[1..];
    }
  }

  lemma {:induction false} InsertSorted(p: Path, sorted: seq<Path>)
    requires StrictlySorted(sorted)
    ensures StrictlySorted(InsertPath(p, sorted))
  {
    if sorted != [] && sorted[0] != p {
      var first, rest := sorted[0], sorted[1..];
      assert sorted == [first] + rest;
      TailSorted(sorted);
      if Leq(first, p) {
        InsertSorted(p, rest);
        InsertMembers(p, rest);
        hide Leq, StrictlySorted;
        assert AllAfter(first, InsertPath(p, rest)) by {
          forall i | 0 <= i < |InsertPath(p, rest)|
            ensures Leq(first, InsertPath(p, rest)[i]) && first != InsertPath(p, rest)[i]
          {
            var q := InsertPath(p, rest)[i];
            assert q in InsertPath(p, rest);
          }
        }
        hide AllAfter, InsertPath;
        ConsSorted(first, InsertPath(p, rest));
      } else {
        LeqTotal(first, p);
        hide Leq, StrictlySorted;
        forall i | 0 <= i < |sorted| ensures Leq(p, sorted[i]) && p != sorted[i] {
          if i > 0 { LaterIsAfter(p, first, rest, i - 1); }
        }
        ConsSorted(p, sorted);
      }
    }
  }

  lemma LaterIsAfter(p: Path, first: Path, rest: seq<Path>, i: nat)
    requires Leq(p, first) && p != first && AllAfter(first, rest) && i < |rest|
    ensures Leq(p, rest[i]) && p != rest[i]
  {
    LeqTransitive(p, first, rest[i]);
    if p == rest[i] { LeqAntisymmetric(p, first); }
  }

  /** The valid ones among the raw paths. */
  predicate IsAsked(raw: seq<Path>, safe: Path -> Option<Path>, rel: Path) {
    exists i :: 0 <= i < |raw| && safe(raw[i]) == Some(rel)
  }

  /** The raw path stands for a region that `p` is in. */
  predicate AsksFor(raw: Path, safe: Path -> Option<Path>, p: Path) {
    safe(raw).Some? && Covers(safe(raw).value, p)
  }

  ghost predicate IsFine(p: Path, safe: Path -> Option<Path>, exclude: (Path, bool) -> bool) {
    safe(p).Some? && !IsReserved(safe(p).value, exclude)
  }

  /** The path at `i` is the first one that is not fine, and the result says why. */
  ghost predicate IsRefusal(
    result: Selection, raw: seq<Path>, i: nat, safe: Path -> Option<Path>, exclude: (Path, bool) -> bool)
    requires i < |raw|
  {
    && !IsFine(raw[i], safe, exclude) && (forall j :: 0 <= j < i ==> IsFine(raw[j], safe, exclude))
    && result == match safe(raw[i]) case None => InvalidPath(raw[i]) case Some(rel) => ReservedPath(rel)
  }

  /**
   * The first path that is invalid or reserved refuses the request; otherwise the result is sorted,
   * without duplicates, without a path that another one covers, and stands for the same region.
   */
  method NormalizeRestorePaths(raw: seq<Path>, safe: Path -> Option<Path>, exclude: (Path, bool) -> bool)
    returns (result: Selection)
    ensures result.Chosen? <==> forall i :: 0 <= i < |raw| ==> IsFine(raw[i], safe, exclude)
    ensures !result.Chosen? ==> exists i :: 0 <= i < |raw| && IsRefusal(result, raw, i, safe, exclude)
    ensures result.Chosen? ==> StrictlySorted(result.paths) && PrefixFree(result.paths)
    ensures result.Chosen? ==>
              forall p :: Includes(result.paths, p) <==> exists i :: 0 <= i < |raw| && AsksFor(raw[i], safe, p)
  {
    hide Covers, Leq, IsReserved, StrictlySorted;
    var out: seq<Path> := [];
    NothingIsSorted();
    for i := 0 to |raw|
      invariant forall j :: 0 <= j < i ==> IsFine(raw[j], safe, exclude)
      invariant StrictlySorted(out)
      invariant forall rel :: rel in out <==> IsAsked(raw[..i], safe, rel)
    {
      if safe(raw[i]).None? {
        assert IsRefusal(InvalidPath(raw[i]), raw, i, safe, exclude);
        return InvalidPath(raw[i]);
      }
      var rel := safe(raw[i]).value;
      var reserved := IsReservedPath(rel, exclude);
      if reserved {
        assert IsRefusal(ReservedPath(rel), raw, i, safe, exclude);
        return ReservedPath(rel);
      }
      InsertSorted(rel, out);
      InsertMembers(rel, out);
      AskedSnoc(raw, safe, i);
      hide InsertPath;
      out := InsertPath(rel, out);
    }
    assert raw[..|raw|] == raw;
    var kept := DropRedundant(out);
    hide Redundant, PrefixFree;
    forall p ensures Includes(kept, p) <==> exists i :: 0 <= i < |raw| && AsksFor(raw[i], safe, p) {
      SameRegion(out, kept, p);
      RegionAsked(raw, safe, exclude, out, p);
    }
    result := Chosen(kept);
  }

  lemma NothingIsSorted()
    ensures StrictlySorted([])
  {
  }

  lemma AskedSnoc(raw: seq<Path>, safe: Path -> Option<Path>, i: nat)
    requires i < |raw|
    ensures forall rel ::
              IsAsked(raw[..i + 1], safe, rel) <==> IsAsked(raw[..i], safe, rel) || safe(raw[i]) == Some(rel)
  {
    forall rel | IsAsked(raw[..i], safe, rel) || safe(raw[i]) == Some(rel) ensures IsAsked(raw[..i + 1], safe, rel) {
      if safe(raw[i]) == Some(rel) {
        assert raw[..i + 1][i] == raw[i];
      } else {
        var j :| 0 <= j < i && safe(raw[..i][j]) == Some(rel);
        assert raw[..i + 1][j] == raw[..i][j];
      }
    }
    forall rel | IsAsked(raw[..i + 1], safe, rel) ensures IsAsked(raw[..i], safe, rel) || safe(raw[i]) == Some(rel) {
      var j :| 0 <= j < i + 1 && safe(raw[..i + 1][j]) == Some(rel);
      if j < i { assert raw[..i][j] == raw[..i + 1][j]; }
    }
  }

  lemma RegionAsked(raw: seq<Path>, safe: Path -> Option<Path>, exclude: (Path, bool) -> bool, out: seq<Path>, p: Path)
    requires forall j :: 0 <= j < |raw| ==> IsFine(raw[j], safe, exclude)
    requires forall rel :: rel in out <==> IsAsked(raw, safe, rel)
    ensures Includes(out, p) <==> exists i :: 0 <= i < |raw| && AsksFor(raw[i], safe, p)
  {
    hide Covers, IsReserved;
    if Includes(out, p) {
      var k :| 0 <= k < |out| && Covers(out[k], p);
      assert out[k] in out;
      assert IsAsked(raw, safe, out[k]);
      var i :| 0 <= i < |raw| && safe(raw[i]) == Some(out[k]);
      assert AsksFor(raw[i], safe, p);
    }
    if exists i :: 0 <= i < |raw| && AsksFor(raw[i], safe, p) {
      var i :| 0 <= i < |raw| && AsksFor(raw[i], safe, p);
      assert IsAsked(raw, safe, safe(raw[i]).value);
      var k :| 0 <= k < |out| && out[k] == safe(raw[i]).value;
    }
  }

  // ----- Removing and putting back -----

  datatype Entry = Entry(rel: Path, isFile: bool, contents: Contents)

  type Archive = seq<Entry>

  function RemoveAt(tree: Tree, p: Path): Tree {
    map f | f in tree && !Covers(p, f) :: tree[f]
  }

  /** What the archive puts at a path: the last entry for it. */
  function Archived(archive: Archive, p: Path): Option<Contents> {
    if archive == [] then None
    else
      var last := archive[|archive| - 1];
      if last.isFile && last.rel == p then Some(last.contents) else Archived(archive[..|archive| - 1], p)
  }

  /** The archive inside the chosen region, the old tree outside it. */
  function Restored(tree: Tree, archive: Archive, paths: seq<Path>, p: Path): Option<Contents> {
    if Includes(paths, p) then Archived(archive, p) else if p in tree then Some(tree[p]) else None
  }

  predicate InArchive(archive: Archive, p: Path) {
    exists i :: 0 <= i < |archive| && Covers(p, archive[i].rel)
  }

  datatype Outcome = Missing(paths: seq<Path>) | Done(files: nat)

  /** What has been extracted once the first `n` entries were handled. */
  ghost predicate ExtractedTo(now: Tree, cleared: Tree, archive: Archive, paths: seq<Path>, n: nat)
    requires n <= |archive|
  {
    forall p :: Lookup(now, p) == ExtractedAt(cleared, archive[..n], paths, p)
  }

  function ExtractedAt(cleared: Tree, archive: Archive, paths: seq<Path>, p: Path): Option<Contents> {
    if Includes(paths, p) && Archived(archive, p).Some? then Archived(archive, p) else Lookup(cleared, p)
  }

  lemma NothingExtracted(tree: Tree, archive: Archive, paths: seq<Path>)
    ensures ExtractedTo(tree, tree, archive, paths, 0)
  {
    hide Includes;
    assert archive[..0] == [];
  }

  lemma ExtractOne(now: Tree, next: Tree, cleared: Tree, archive: Archive, paths: seq<Path>, n: nat)
    requires n < |archive| && ExtractedTo(now, cleared, archive, paths, n)
    requires var e := archive[n]; next == if e.isFile && Includes(paths, e.rel) then now[e.rel := e.contents] else now
    ensures ExtractedTo(next, cleared, archive, paths, n + 1)
  {
    hide Includes;
    forall p ensures Lookup(next, p) == ExtractedAt(cleared, archive[..n + 1], paths, p) {
      ArchivedSnoc(archive, n, p);
      hide Archived;
      assert Lookup(now, p) == ExtractedAt(cleared, archive[..n], paths, p);
    }
  }

  lemma ArchivedSnoc(archive: Archive, n: nat, p: Path)
    requires n < |archive|
    ensures Archived(archive[..n + 1], p)
            == if archive[n].isFile && archive[n].rel == p then Some(archive[n].contents) else Archived(archive[..n], p)
  {
    assert archive[..n + 1][..n] == archive[..n];
  }

  class ServerFolder {
    var tree: Tree

    constructor (files: Tree)
      ensures tree == files
    {
      tree := files;
    }

    /** Removes every chosen path with all it contains. */
    method Clear(paths: seq<Path>)
      modifies this
      ensures forall p :: p in tree <==> p in old(tree) && !Includes(paths, p)
      ensures forall p <- tree :: tree[p] == old(tree)[p]
    {
      hide Covers;
      for i := 0 to |paths|
        invariant forall p :: p in tree <==> p in old(tree) && !Includes(paths[..i], p)
        invariant forall p <- tree :: tree[p] == old(tree)[p]
      {
        ghost var before := tree;
        tree := RemoveAt(tree, paths[i]);
        forall p ensures Includes(paths[..i + 1], p) <==> Includes(paths[..i], p) || Covers(paths[i], p) {
          IncludesSnoc(paths, i, p);
        }
      }
      assert paths[..|paths|] == paths;
    }

    /** Extracts the files of the chosen region; `cancelAt` is the entry before which a cancellation is seen. */
    method Extract(archive: Archive, paths: seq<Path>, cancelAt: Option<nat>) returns (files: nat, done: bool)
      modifies this
      ensures done <==> cancelAt.None? || cancelAt.value >= |archive|
      ensures ExtractedTo(tree, old(tree), archive, paths, if done then |archive| else cancelAt.value)
    {
      hide Includes, ExtractedAt, ExtractedTo;
      NothingExtracted(tree, archive, paths);
      files := 0;
      var n := 0;
      while n < |archive|
        invariant n <= |archive| && (cancelAt.Some? ==> n <= cancelAt.value)
        invariant ExtractedTo(tree, old(tree), archive, paths, n)
      {
        if cancelAt == Some(n) { return files, false; }
        ghost var now := tree;
        if archive[n].isFile && Includes(paths, archive[n].rel) {
          tree := tree[archive[n].rel := archive[n].contents];
          files := files + 1;
        }
        ExtractOne(now, tree, old(tree), archive, paths, n);
        n := n + 1;
      }
      done := true;
    }

    /**
     * In place: refuses without touching anything when a path is not in the archive; otherwise the
     * region becomes what the archive has there, and nothing outside it changes.
     */
    method RestoreInPlace(archive: Archive, paths: seq<Path>, cancelAt: Option<nat>)
      returns (outcome: Outcome, done: bool)
      modifies this
      ensures outcome.Missing? <==> exists i :: 0 <= i < |paths| && !InArchive(archive, paths[i])
      ensures outcome.Missing? ==> tree == old(tree) && !done
      ensures outcome.Missing? ==> forall p :: p in outcome.paths <==> p in paths && !InArchive(archive, p)
      ensures forall p :: !Includes(paths, p) ==> Restored(old(tree), archive, paths, p) == Lookup(tree, p)
      ensures done ==> forall p :: Restored(old(tree), archive, paths, p) == Lookup(tree, p)
    {
      hide Includes, Covers, InArchive;
      var missing: seq<Path> := [];
      for i := 0 to |paths|
        invariant forall p :: p in missing <==> p in paths[..i] && !InArchive(archive, p)
      {
        assert paths[..i + 1] == paths[..i] + [paths[i]];
        if !InArchive(archive, paths[i]) { missing := missing + [paths[i]]; }
      }
      assert paths[..|paths|] == paths;
      if missing != [] {
        assert missing[0] in missing;
        return Missing(missing), false;
      }
      forall i | 0 <= i < |paths| ensures InArchive(archive, paths[i]) { assert paths[i] in paths; }
      ghost var before := tree;
      Clear(paths);
      ghost var cleared := tree;
      var files: nat;
      files, done := Extract(archive, paths, cancelAt);
      ghost var n := if done then |archive| else cancelAt.value;
      forall p ensures !Includes(paths, p) || done ==> Restored(before, archive, paths, p) == Lookup(tree, p) {
        RestoredFrom(before, cleared, tree, archive, paths, n, p);
      }
      outcome := Done(files);
    }
  }

  function Lookup(tree: Tree, p: Path): Option<Contents> {
    if p in tree then Some(tree[p]) else None
  }

  lemma IncludesSnoc(paths: seq<Path>, i: nat, p: Path)
    requires i < |paths|
    ensures Includes(paths[..i + 1], p) <==> Includes(paths[..i], p) || Covers(paths[i], p)
  {
    hide Covers;
    if Includes(paths[..i], p) {
      var j :| 0 <= j < i && Covers(paths[..i][j], p);
      assert paths[..i + 1][j] == paths[..i][j];
    }
    if Covers(paths[i], p) { assert paths[..i + 1][i] == paths[i]; }
    if Includes(paths[..i + 1], p) {
      var j :| 0 <= j < i + 1 && Covers(paths[..i + 1][j], p);
      if j < i { assert paths[..i][j] == paths[..i + 1][j]; }
    }
  }

  lemma RestoredFrom(before: Tree, cleared: Tree, after: Tree, archive: Archive, paths: seq<Path>, n: nat, p: Path)
    requires n <= |archive| && ExtractedTo(after, cleared, archive, paths, n)
    requires forall q :: q in cleared <==> q in before && !Includes(paths, q)
    requires forall q <- cleared :: cleared[q] == before[q]
    ensures !Includes(paths, p) || n == |archive| ==> Restored(before, archive, paths, p) == Lookup(after, p)
  {
    hide Includes, Archived;
    if n == |archive| { assert archive[..n] == archive; }
  }
}
