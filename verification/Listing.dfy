/**
 * Browsing a backup: from the raw entries of an archive to directories with the size and the number
 * of files they contain, at whatever depth, and a bounded list of entries.
 *
 * `Summary` says what a directory is to show, by counting over all entries; the collector keeps a map
 * of directories equal to it, one entry at a time.
 */
module Listing {
  import opened Options
  import opened Paths

  datatype Kind = Dir | File | Other

  datatype Entry = Entry(rel: Path, kind: Kind, size: nat, mtimeMs: int)

  type Entries = seq<Entry>

  datatype Limits = Limits(perDir: nat, maxEntries: nat)

  // ----- The specification -----

  /** A file strictly below the directory. */
  predicate FileBelow(e: Entry, d: Path) {
    e.kind == File && Below(e.rel, d)
  }

  function SizeBelow(entries: Entries, d: Path): nat {
    if entries == [] then 0
    else
      var last := entries[|entries| - 1];
      SizeBelow(entries[..|entries| - 1], d) + (if FileBelow(last, d) then last.size else 0)
  }

  function FilesBelow(entries: Entries, d: Path): nat {
    if entries == [] then 0
    else
      var last := entries[|entries| - 1];
      FilesBelow(entries[..|entries| - 1], d) + (if FileBelow(last, d) then 1 else 0)
  }

  /** Files that are directly in the directory; the root is the empty path. */
  function FilesIn(entries: Entries, d: Path): nat {
    if entries == [] then 0
    else
      var last := entries[|entries| - 1];
      FilesIn(entries[..|entries| - 1], d) + (if last.kind == File && ParentOf(last.rel) == d then 1 else 0)
  }

  function TotalFiles(entries: Entries): nat {
    if entries == [] then 0
    else TotalFiles(entries[..|entries| - 1]) + (if entries[|entries| - 1].kind == File then 1 else 0)
  }

  function TotalBytes(entries: Entries): nat {
    if entries == [] then 0
    else
      var last := entries[|entries| - 1];
      TotalBytes(entries[..|entries| - 1]) + (if last.kind == File then last.size else 0)
  }

  /** An entry makes this directory known: it is the directory, or it lies below it. */
  predicate Shows(e: Entry, d: Path) {
    d != [] && ((e.kind == Dir && e.rel == d) || (e.kind != Other && Below(e.rel, d)))
  }

  predicate Known(entries: Entries, d: Path) {
    exists i :: 0 <= i < |entries| && Shows(entries[i], d)
  }

  /** The modification time a directory's own entry gave last. */
  function ModifiedAt(entries: Entries, d: Path): Option<int> {
    if entries == [] then None
    else
      var last := entries[|entries| - 1];
      if last.kind == Dir && last.rel == d && last.mtimeMs > 0 then Some(last.mtimeMs)
      else ModifiedAt(entries[..|entries| - 1], d)
  }

  /** The files that are listed: the first `perDir` of each directory. */
  function ListedFiles(entries: Entries, perDir: nat): Entries {
    if entries == [] then []
    else
      var last, rest := entries[|entries| - 1], entries[..|entries| - 1];
      if last.kind == File && FilesIn(rest, ParentOf(last.rel)) < perDir
      then ListedFiles(rest, perDir) + [last] else ListedFiles(rest, perDir)
  }

  // ----- One entry more -----

  lemma SizesSnoc(entries: Entries, e: Entry, d: Path)
    ensures SizeBelow(entries + [e], d) == SizeBelow(entries, d) + (if FileBelow(e, d) then e.size else 0)
    ensures FilesBelow(entries + [e], d) == FilesBelow(entries, d) + (if FileBelow(e, d) then 1 else 0)
  {
    hide FileBelow;
    assert (entries + [e])[..|entries|] == entries;
  }

  lemma CountsSnoc(entries: Entries, e: Entry, d: Path)
    ensures FilesIn(entries + [e], d) == FilesIn(entries, d) + (if e.kind == File && ParentOf(e.rel) == d then 1 else 0)
    ensures ModifiedAt(entries + [e], d)
            == if e.kind == Dir && e.rel == d && e.mtimeMs > 0 then Some(e.mtimeMs) else ModifiedAt(entries, d)
  {
    hide ParentOf;
    assert (entries + [e])[..|entries|] == entries;
  }

  lemma TotalsSnoc(entries: Entries, e: Entry, perDir: nat)
    ensures TotalFiles(entries + [e]) == TotalFiles(entries) + (if e.kind == File then 1 else 0)
    ensures TotalBytes(entries + [e]) == TotalBytes(entries) + (if e.kind == File then e.size else 0)
    ensures ListedFiles(entries + [e], perDir)
            == if e.kind == File && FilesIn(entries, ParentOf(e.rel)) < perDir
               then ListedFiles(entries, perDir) + [e] else ListedFiles(entries, perDir)
  {
    hide ParentOf, FilesIn;
    assert (entries + [e])[..|entries|] == entries;
  }

  lemma KnownSnoc(entries: Entries, e: Entry, d: Path)
    ensures Known(entries + [e], d) <==> Known(entries, d) || Shows(e, d)
  {
    hide Shows;
    var all := entries + [e];
    assert all[|entries|] == e;
    if Known(entries, d) {
      var i :| 0 <= i < |entries| && Shows(entries[i], d);
      assert all[i] == entries[i];
    }
  }

  /** A directory that nothing shows has nothing below it. */
  lemma {:induction false} UnknownIsEmpty(entries: Entries, d: Path)
    requires !Known(entries, d) && d != []
    ensures SizeBelow(entries, d) == 0 && FilesBelow(entries, d) == 0 && FilesIn(entries, d) == 0
    ensures ModifiedAt(entries, d) == None
  {
    if entries != [] {
      var rest, last := entries[..|entries| - 1], entries[|entries| - 1];
      assert entries == rest + [last];
      KnownSnoc(rest, last, d);
      UnknownIsEmpty(rest, d);
      BelowParent(last.rel, d);
      hide Known, Below, ParentOf;
    }
  }

  /** Closed under parents: whatever lies above a known directory is known. */
  lemma KnownIsClosed(entries: Entries, d: Path)
    requires Known(entries, d)
    ensures d != [] && (ParentOf(d) == [] || Known(entries, ParentOf(d)))
  {
    var i :| 0 <= i < |entries| && Shows(entries[i], d);
    var e, parent := entries[i], ParentOf(d);
    if parent != [] {
      BelowParent(d, parent);
      hide ParentOf;
      assert Shows(entries[i], parent);
    }
  }

  // ----- The directories, as they are collected -----

  datatype Agg = Agg(size: nat, files: nat, modifiedAt: Option<int>, listed: nat, truncated: bool)

  const EMPTY: Agg := Agg(0, 0, None, 0, false)

  function Min(a: nat, b: nat): nat { if a < b then a else b }

  /** What is known of a directory after these entries. */
  function Summary(entries: Entries, perDir: nat, d: Path): Agg {
    Agg(SizeBelow(entries, d), FilesBelow(entries, d), ModifiedAt(entries, d),
        Min(FilesIn(entries, d), perDir), FilesIn(entries, d) > perDir)
  }

  /** The root collects only what concerns its own files. */
  function RootSummary(entries: Entries, perDir: nat): Agg {
    Agg(0, 0, ModifiedAt(entries, []), Min(FilesIn(entries, []), perDir), FilesIn(entries, []) > perDir)
  }

  ghost predicate Collected(dirs: map<Path, Agg>, entries: Entries, perDir: nat) {
    && (forall d :: d in dirs <==> Known(entries, d))
    && (forall d <- dirs :: dirs[d] == Summary(entries, perDir, d))
  }

  /** The path and all that lies above it, except the root. */
  predicate AtOrAbove(d: Path, p: Path) {
    d != [] && (d == p || Below(p, d))
  }

  /** Closed under parents, as far as paths of this length go. */
  predicate ClosedTo(dirs: map<Path, Agg>, n: nat) {
    forall d <- dirs :: d != [] && (|d| <= n ==> ParentOf(d) == [] || ParentOf(d) in dirs)
  }

  lemma {:induction false} ClosedHasAll(dirs: map<Path, Agg>, p: Path, d: Path)
    requires ClosedTo(dirs, |p|) && p in dirs && Below(p, d)
    ensures d in dirs
    decreases |p|
  {
    BelowParent(p, d);
    if d != ParentOf(p) {
      hide ParentOf;
      ClosedHasAll(dirs, ParentOf(p), d);
    }
  }

  lemma CollectedIsClosed(dirs: map<Path, Agg>, entries: Entries, perDir: nat, n: nat)
    requires Collected(dirs, entries, perDir)
    ensures ClosedTo(dirs, n)
  {
    hide Known, Summary, ParentOf;
    forall d <- dirs ensures d != [] && (ParentOf(d) == [] || ParentOf(d) in dirs) { KnownIsClosed(entries, d); }
  }

  // ----- Collecting -----

  /** What `p` adds to the directories that are there. */
  ghost predicate Grown(before: map<Path, Agg>, after: map<Path, Agg>, p: Path) {
    && (forall d :: d in after <==> d in before || AtOrAbove(d, p))
    && (forall d <- after :: after[d] == if d in before then before[d] else EMPTY)
  }

  class Collector {
    var dirs: map<Path, Agg>
    var root: Agg
    var files: Entries
    var totalFiles: nat
    var totalBytes: nat
    var truncated: bool

    /** Everything collected is what the specification says of the entries seen so far. */
    ghost predicate Valid(seen: Entries, perDir: nat)
      reads this
    {
      && Collected(dirs, seen, perDir) && root == RootSummary(seen, perDir)
      && files == ListedFiles(seen, perDir)
      && totalFiles == TotalFiles(seen) && totalBytes == TotalBytes(seen)
      && (truncated <==> |files| < totalFiles)
    }

    constructor (perDir: nat)
      ensures Valid([], perDir)
    {
      dirs, root := map[], EMPTY;
      files, totalFiles, totalBytes, truncated := [], 0, 0, false;
    }

    /** Makes a directory known, and its parents up to one that is. */
    method DirOf(p: Path)
      requires ClosedTo(dirs, |p|)
      modifies this`dirs
      ensures Grown(old(dirs), dirs, p)
      decreases |p|
    {
      if p == [] { return; }
      ghost var before := dirs;
      if p in dirs {
        forall d | AtOrAbove(d, p) ensures d in dirs { if d != p { ClosedHasAll(dirs, p, d); } }
        return;
      }
      dirs := dirs[p := EMPTY];
      assert ClosedTo(dirs, |ParentOf(p)|);
      DirOf(ParentOf(p));
      GrownByParent(before, dirs, p);
    }

    /** Counts a file in every directory above it, from its parent up. */
    method CountUp(e: Entry, perDir: nat, ghost seen: Entries)
      requires e.kind == File && Collected(dirs, seen, perDir)
      modifies this`dirs
      ensures forall d :: d in dirs <==> Known(seen + [e], d)
      ensures forall d <- dirs :: dirs[d] == Partial(seen, e, perDir, d, 0)
    {
      hide Known, Summary, ParentOf, Below, Collected;
      var parent := ParentOf(e.rel);
      var a := parent;
      StartOfCount(dirs, seen, e, perDir);
      while a != []
        invariant a == [] || Below(e.rel, a)
        invariant |a| <= |parent| && (|a| == |parent| ==> a == parent && Collected(dirs, seen, perDir))
        invariant |a| < |parent| ==> forall d :: d in dirs <==> Known(seen + [e], d)
        invariant forall d <- dirs :: dirs[d] == Partial(seen, e, perDir, d, |a|)
        decreases |a|
      {
        ghost var before := dirs;
        CountIsClosed(dirs, seen, e, perDir, a);
        DirOf(a);
        GrownCount(before, dirs, seen, e, perDir, a);
        ghost var grown := dirs;
        dirs := dirs[a := dirs[a].(size := dirs[a].size + e.size, files := dirs[a].files + 1)];
        CountOne(grown, dirs, seen, e, perDir, a);
        ParentIsAbove(e.rel, a);
        a := ParentOf(a);
      }
      if parent == [] { NothingAbove(dirs, seen, e, perDir); }
    }

    method AddDir(e: Entry, perDir: nat, ghost seen: Entries)
      requires Valid(seen, perDir) && e.kind == Dir
      modifies this
      ensures Valid(seen + [e], perDir)
    {
      hide Known, Summary, ParentOf, Collected, RootSummary, Below, Grown, TotalFiles, TotalBytes, ListedFiles;
      ghost var before := dirs;
      CollectedIsClosed(dirs, seen, perDir, |e.rel|);
      DirOf(e.rel);
      DirAdded(before, dirs, seen, e, perDir);
      ghost var grown := dirs;
      if e.rel == [] {
        if e.mtimeMs > 0 { root := root.(modifiedAt := Some(e.mtimeMs)); }
      } else if e.mtimeMs > 0 {
        dirs := dirs[e.rel := dirs[e.rel].(modifiedAt := Some(e.mtimeMs))];
      }
      DirTimed(grown, dirs, seen, e, perDir);
      RootAfterDir(seen, e, perDir);
      TotalsSnoc(seen, e, perDir);
    }

    method AddFile(e: Entry, perDir: nat, ghost seen: Entries)
      requires Valid(seen, perDir) && e.kind == File
      modifies this
      ensures Valid(seen + [e], perDir)
    {
      hide Known, Summary, ParentOf, Collected, RootSummary, Below, Partial, FilesIn, ListedFiles, TotalFiles,
        TotalBytes;
      TotalsSnoc(seen, e, perDir);
      FewerListed(seen, perDir);
      totalFiles := totalFiles + 1;
      totalBytes := totalBytes + e.size;
      CountUp(e, perDir, seen);
      ghost var counted := dirs;
      var parent := ParentOf(e.rel);
      RootAfterFile(seen, e, perDir);
      if parent == [] {
        if root.listed >= perDir {
          root := root.(truncated := true);
          truncated := true;
        } else {
          root := root.(listed := root.listed + 1);
          files := files + [e];
        }
        RootFileAdded(dirs, seen, e, perDir);
      } else {
        HolderIsKnown(counted, seen, e, perDir);
        var holder := dirs[parent];
        if holder.listed >= perDir {
          dirs := dirs[parent := holder.(truncated := true)];
          truncated := true;
        } else {
          dirs := dirs[parent := holder.(listed := holder.listed + 1)];
          files := files + [e];
        }
        FileAdded(counted, dirs, seen, e, perDir);
      }
    }

    method AddOther(e: Entry, perDir: nat, ghost seen: Entries)
      requires Valid(seen, perDir) && e.kind == Other
      ensures Valid(seen + [e], perDir)
    {
      hide ParentOf, Below, FilesIn, TotalFiles, TotalBytes, ListedFiles;
      TotalsSnoc(seen, e, perDir);
      forall d
        ensures Known(seen + [e], d) <==> Known(seen, d)
        ensures Summary(seen + [e], perDir, d) == Summary(seen, perDir, d)
      {
        KnownSnoc(seen, e, d);
        SizesSnoc(seen, e, d);
        CountsSnoc(seen, e, d);
      }
      CountsSnoc(seen, e, []);
      hide Known, Summary;
    }
  }

  /** A directory's summary with the file counted, if the directory is deeper than `n`. */
  function Partial(seen: Entries, e: Entry, perDir: nat, d: Path, n: nat): Agg {
    var s := Summary(seen, perDir, d);
    if Below(e.rel, d) && |d| > n then s.(size := s.size + e.size, files := s.files + 1) else s
  }

  lemma StartOfCount(dirs: map<Path, Agg>, seen: Entries, e: Entry, perDir: nat)
    requires Collected(dirs, seen, perDir)
    ensures forall d <- dirs :: dirs[d] == Partial(seen, e, perDir, d, |ParentOf(e.rel)|)
    ensures ParentOf(e.rel) != [] ==> Below(e.rel, ParentOf(e.rel))
  {
    BelowParent(e.rel, ParentOf(e.rel));
    hide Known, Summary, ParentOf;
    forall d <- dirs ensures !(Below(e.rel, d) && |d| > |ParentOf(e.rel)|) { BelowParent(e.rel, d); }
  }

  lemma CountIsClosed(dirs: map<Path, Agg>, seen: Entries, e: Entry, perDir: nat, a: Path)
    requires Collected(dirs, seen, perDir) || forall d :: d in dirs <==> Known(seen + [e], d)
    ensures ClosedTo(dirs, |a|)
  {
    hide Known, Summary, ParentOf;
    if Collected(dirs, seen, perDir) {
      CollectedIsClosed(dirs, seen, perDir, |a|);
    } else {
      forall d <- dirs ensures d != [] && (ParentOf(d) == [] || ParentOf(d) in dirs) { KnownIsClosed(seen + [e], d); }
    }
  }

  lemma EmptySummary(seen: Entries, e: Entry, perDir: nat, d: Path, n: nat)
    requires !Known(seen, d) && d != [] && |d| <= n
    ensures Partial(seen, e, perDir, d, n) == EMPTY
  {
    UnknownIsEmpty(seen, d);
    hide Known, Below;
  }

  lemma GrownCount(before: map<Path, Agg>, after: map<Path, Agg>, seen: Entries, e: Entry, perDir: nat, a: Path)
    requires e.kind == File && a != [] && Below(e.rel, a) && Grown(before, after, a)
    requires || (Collected(before, seen, perDir) && a == ParentOf(e.rel))
             || forall d :: d in before <==> Known(seen + [e], d)
    requires forall d <- before :: before[d] == Partial(seen, e, perDir, d, |a|)
    ensures a in after && forall d :: d in after <==> Known(seen + [e], d)
    ensures forall d <- after :: after[d] == Partial(seen, e, perDir, d, |a|)
  {
    hide Known, Summary, ParentOf, Partial, Below;
    forall d
      ensures d in after <==> Known(seen + [e], d)
      ensures d in after ==> after[d] == Partial(seen, e, perDir, d, |a|)
    {
      KnownSnoc(seen, e, d);
      BelowParent(e.rel, d);
      AboveOf(e.rel, a, d);
      if d in after && d !in before && !Known(seen, d) { EmptySummary(seen, e, perDir, d, |a|); }
    }
  }

  /** What is at or above a directory above the file is above the file. */
  lemma AboveOf(p: Path, a: Path, d: Path)
    requires Below(p, a)
    ensures AtOrAbove(d, a) ==> Below(p, d) && |d| <= |a| && d != []
  {
  }

  lemma ParentIsAbove(p: Path, a: Path)
    requires Below(p, a)
    ensures ParentOf(a) == [] || Below(p, ParentOf(a))
    ensures |ParentOf(a)| < |a|
  {
    if ParentOf(a) != [] {
      BelowParent(a, ParentOf(a));
    }
    hide ParentOf;
  }

  lemma CountOne(before: map<Path, Agg>, after: map<Path, Agg>, seen: Entries, e: Entry, perDir: nat, a: Path)
    requires Below(e.rel, a) && a in before
    requires forall d <- before :: before[d] == Partial(seen, e, perDir, d, |a|)
    requires after == before[a := before[a].(size := before[a].size + e.size, files := before[a].files + 1)]
    ensures forall d <- after :: after[d] == Partial(seen, e, perDir, d, |ParentOf(a)|)
  {
    ParentIsAbove(e.rel, a);
    hide ParentOf, Summary;
    forall d <- after ensures after[d] == Partial(seen, e, perDir, d, |ParentOf(a)|) {
      if d != a && Below(e.rel, d) && |d| <= |a| { AboveIsChain(e.rel, a, d); }
    }
  }

  lemma NothingAbove(dirs: map<Path, Agg>, seen: Entries, e: Entry, perDir: nat)
    requires e.kind == File && ParentOf(e.rel) == [] && Collected(dirs, seen, perDir)
    ensures forall d :: d in dirs <==> Known(seen + [e], d)
  {
    hide Known, Summary, ParentOf;
    forall d ensures d in dirs <==> Known(seen + [e], d) {
      KnownSnoc(seen, e, d);
      BelowParent(e.rel, d);
    }
  }

  lemma GrownByParent(before: map<Path, Agg>, after: map<Path, Agg>, p: Path)
    requires p != [] && p !in before && Grown(before[p := EMPTY], after, ParentOf(p))
    ensures Grown(before, after, p)
  {
    hide ParentOf;
    forall d ensures AtOrAbove(d, p) <==> (d == p || AtOrAbove(d, ParentOf(p))) {
      BelowParent(p, d);
    }
    hide AtOrAbove;
  }
  lemma DirAdded(before: map<Path, Agg>, after: map<Path, Agg>, seen: Entries, e: Entry, perDir: nat)
    requires e.kind == Dir && Collected(before, seen, perDir) && Grown(before, after, e.rel)
    ensures e.rel != [] ==> e.rel in after
    ensures forall d :: d in after <==> Known(seen + [e], d)
    ensures forall d <- after :: after[d] == Summary(seen, perDir, d)
  {
    hide Known, Summary, Below;
    forall d
      ensures d in after <==> Known(seen + [e], d)
      ensures d in after ==> after[d] == Summary(seen, perDir, d)
    {
      KnownSnoc(seen, e, d);
      if d in after && d !in before { EmptyIsSummary(seen, perDir, d); }
    }
  }

  lemma EmptyIsSummary(seen: Entries, perDir: nat, d: Path)
    requires !Known(seen, d) && d != []
    ensures Summary(seen, perDir, d) == EMPTY
  {
    UnknownIsEmpty(seen, d);
    hide Known;
  }

  lemma SummaryAfterDir(seen: Entries, e: Entry, perDir: nat, d: Path)
    requires e.kind == Dir
    ensures Summary(seen + [e], perDir, d)
            == if e.rel == d && e.mtimeMs > 0 then Summary(seen, perDir, d).(modifiedAt := Some(e.mtimeMs))
               else Summary(seen, perDir, d)
  {
    SizesSnoc(seen, e, d);
    CountsSnoc(seen, e, d);
    hide SizeBelow, FilesBelow, FilesIn, ModifiedAt;
  }

  lemma DirTimed(before: map<Path, Agg>, after: map<Path, Agg>, seen: Entries, e: Entry, perDir: nat)
    requires e.kind == Dir
    requires forall d :: d in before <==> Known(seen + [e], d)
    requires forall d <- before :: before[d] == Summary(seen, perDir, d)
    requires e.rel != [] ==> e.rel in before
    requires after
             == if e.rel != [] && e.mtimeMs > 0 then before[e.rel := before[e.rel].(modifiedAt := Some(e.mtimeMs))]
                else before
    ensures Collected(after, seen + [e], perDir)
  {
    hide Known, Summary, Below;
    forall d <- after ensures after[d] == Summary(seen + [e], perDir, d) {
      SummaryAfterDir(seen, e, perDir, d);
      KnownIsClosed(seen + [e], d);
    }
  }

  lemma RootAfterDir(seen: Entries, e: Entry, perDir: nat)
    requires e.kind == Dir
    ensures RootSummary(seen + [e], perDir)
            == if e.rel == [] && e.mtimeMs > 0 then RootSummary(seen, perDir).(modifiedAt := Some(e.mtimeMs))
               else RootSummary(seen, perDir)
  {
    CountsSnoc(seen, e, []);
    hide FilesIn, ModifiedAt;
  }

  /** One more file in its directory. */
  function Listed(a: Agg, perDir: nat): Agg {
    if a.listed >= perDir then a.(truncated := true) else a.(listed := a.listed + 1)
  }

  lemma SummaryAfterFile(seen: Entries, e: Entry, perDir: nat, d: Path)
    requires e.kind == File && d != []
    ensures Summary(seen + [e], perDir, d)
            == if d == ParentOf(e.rel) then Listed(Partial(seen, e, perDir, d, 0), perDir)
               else Partial(seen, e, perDir, d, 0)
  {
    SizesSnoc(seen, e, d);
    CountsSnoc(seen, e, d);
    hide SizeBelow, FilesBelow, FilesIn, ModifiedAt, ParentOf, Below;
  }

  lemma RootAfterFile(seen: Entries, e: Entry, perDir: nat)
    requires e.kind == File
    ensures RootSummary(seen + [e], perDir)
            == if ParentOf(e.rel) == [] then Listed(RootSummary(seen, perDir), perDir) else RootSummary(seen, perDir)
    ensures RootSummary(seen, perDir).listed == Min(FilesIn(seen, []), perDir)
  {
    CountsSnoc(seen, e, []);
    hide FilesIn, ModifiedAt, ParentOf;
  }

  lemma HolderIsKnown(dirs: map<Path, Agg>, seen: Entries, e: Entry, perDir: nat)
    requires e.kind == File && ParentOf(e.rel) != []
    requires forall d :: d in dirs <==> Known(seen + [e], d)
    requires forall d <- dirs :: dirs[d] == Partial(seen, e, perDir, d, 0)
    ensures var parent := ParentOf(e.rel); parent in dirs && dirs[parent].listed == Min(FilesIn(seen, parent), perDir)
  {
    var parent := ParentOf(e.rel);
    KnownSnoc(seen, e, parent);
    BelowParent(e.rel, parent);
    hide Known, ParentOf, Below;
  }

  lemma FileAdded(before: map<Path, Agg>, after: map<Path, Agg>, seen: Entries, e: Entry, perDir: nat)
    requires e.kind == File && ParentOf(e.rel) in before
    requires forall d :: d in before <==> Known(seen + [e], d)
    requires forall d <- before :: before[d] == Partial(seen, e, perDir, d, 0)
    requires after == before[ParentOf(e.rel) := Listed(before[ParentOf(e.rel)], perDir)]
    ensures Collected(after, seen + [e], perDir)
  {
    hide Known, Summary, ParentOf, Partial, Listed;
    forall d <- after ensures after[d] == Summary(seen + [e], perDir, d) {
      KnownIsClosed(seen + [e], d);
      SummaryAfterFile(seen, e, perDir, d);
    }
  }

  lemma RootFileAdded(dirs: map<Path, Agg>, seen: Entries, e: Entry, perDir: nat)
    requires e.kind == File && ParentOf(e.rel) == []
    requires forall d :: d in dirs <==> Known(seen + [e], d)
    requires forall d <- dirs :: dirs[d] == Partial(seen, e, perDir, d, 0)
    ensures Collected(dirs, seen + [e], perDir)
  {
    hide Known, Summary, ParentOf, Partial, Listed;
    forall d <- dirs ensures dirs[d] == Summary(seen + [e], perDir, d) {
      KnownIsClosed(seen + [e], d);
      SummaryAfterFile(seen, e, perDir, d);
    }
  }

  lemma {:induction false} FewerListed(entries: Entries, perDir: nat)
    ensures |ListedFiles(entries, perDir)| <= TotalFiles(entries)
  {
    if entries != [] {
      hide FilesIn, ParentOf;
      FewerListed(entries[..|entries| - 1], perDir);
    }
  }

  /** Of each directory as many files are listed as it has, up to the limit; what is listed is a file given. */
  lemma {:induction false} ListedPerDir(entries: Entries, perDir: nat, d: Path)
    ensures FilesIn(ListedFiles(entries, perDir), d) == Min(FilesIn(entries, d), perDir)
    ensures forall e <- ListedFiles(entries, perDir) :: e in entries && e.kind == File
  {
    if entries != [] {
      hide ParentOf, ListedFiles, FilesIn;
      var rest, last := entries[..|entries| - 1], entries[|entries| - 1];
      ListedPerDir(rest, perDir, d);
      assert entries == rest + [last];
      TotalsSnoc(rest, last, perDir);
      CountsSnoc(rest, last, d);
      CountsSnoc(ListedFiles(rest, perDir), last, d);
    }
  }

  // ----- The answer -----

  datatype Item = Item(path: Path, isDir: bool, size: nat, files: nat, modifiedAt: Option<int>, truncated: bool)

  type Items = seq<Item>

  datatype Response = Response(entries: Items, totalFiles: nat, totalBytes: nat, truncated: bool)

  function DirItem(d: Path, a: Agg): Item {
    Item(d, true, a.size, a.files, a.modifiedAt, a.truncated)
  }

  function FileItem(e: Entry): Item {
    Item(e.rel, false, e.size, 0, if e.mtimeMs > 0 then Some(e.mtimeMs) else None, false)
  }

  function FileItems(entries: Entries): Items {
    if entries == [] then [] else [FileItem(entries[0])] + FileItems(entries[1..])
  }

  function Insert(x: Item, sorted: Items): Items {
    if sorted == [] then [x]
    else if Leq(sorted[0].path, x.path) then [sorted[0]] + Insert(x, sorted[1..])
    else [x] + sorted
  }

  /** A stable sort by path. */
  function SortByPath(items: Items): Items {
    if items == [] then [] else Insert(items[|items| - 1], SortByPath(items[..|items| - 1]))
  }

  predicate Ordered(items: Items) {
    forall i, k :: 0 <= i < k < |items| ==> Leq(items[i].path, items[k].path)
  }

  predicate AtLeast(items: Items, p: Path) {
    forall i :: 0 <= i < |items| ==> Leq(p, items[i].path)
  }

  lemma OrderedCons(x: Item, items: Items)
    requires Ordered(items) && AtLeast(items, x.path)
    ensures Ordered([x] + items)
  {
    hide Leq;
  }

  lemma OrderedTail(items: Items)
    requires Ordered(items) && items != []
    ensures Ordered(items[1..]) && AtLeast(items[1..], items[0].path)
  {
    hide Leq;
  }

  lemma AtLeastBelow(items: Items, p: Path, q: Path)
    requires AtLeast(items, p) && Leq(q, p)
    ensures AtLeast(items, q)
  {
    hide Leq;
    forall i | 0 <= i < |items| ensures Leq(q, items[i].path) { LeqTransitive(q, p, items[i].path); }
  }

  lemma {:induction false} InsertAtLeast(x: Item, items: Items, p: Path)
    requires AtLeast(items, p) && Leq(p, x.path)
    ensures AtLeast(Insert(x, items), p)
  {
    hide Leq;
    if items != [] { InsertAtLeast(x, items[1..], p); }
  }

  lemma {:induction false} InsertSorts(x: Item, items: Items)
    requires Ordered(items)
    ensures Ordered(Insert(x, items))
  {
    if items != [] {
      OrderedTail(items);
      LeqTotal(items[0].path, x.path);
      hide Leq, Ordered, AtLeast;
      if Leq(items[0].path, x.path) {
        InsertSorts(x, items[1..]);
        InsertAtLeast(x, items[1..], items[0].path);
        OrderedCons(items[0], Insert(x, items[1..]));
      } else {
        assert items == [items[0]] + items[1..];
        AtLeastBelow(items[1..], items[0].path, x.path);
        OrderedCons(x, items);
      }
    }
  }

  lemma {:induction false} InsertPermutes(x: Item, items: Items)
    ensures multiset(Insert(x, items)) == multiset(items) + multiset{x}
  {
    hide Leq;
    if items != [] {
      InsertPermutes(x, items[1..]);
      assert items == [items[0]] + items[1..];
    }
  }

  lemma {:induction false} SortSorts(items: Items)
    ensures Ordered(SortByPath(items)) && multiset(SortByPath(items)) == multiset(items)
  {
    hide Leq, Insert, Ordered;
    if items == [] {
      NothingIsOrdered();
    } else {
      var rest, last := items[..|items| - 1], items[|items| - 1];
      SortSorts(rest);
      InsertSorts(last, SortByPath(rest));
      InsertPermutes(last, SortByPath(rest));
      assert items == rest + [last];
    }
  }

  lemma NothingIsOrdered()
    ensures Ordered([])
  {
  }

  /** All known directories. */
  function KnownDirs(entries: Entries): set<Path> {
    set i, k | 0 <= i < |entries| && 0 <= k <= |entries[i].rel| && Shows(entries[i], entries[i].rel[..k])
      :: entries[i].rel[..k]
  }

  lemma KnownDirsAre(entries: Entries, d: Path)
    ensures d in KnownDirs(entries) <==> Known(entries, d)
  {
    if Known(entries, d) {
      var i :| 0 <= i < |entries| && Shows(entries[i], d);
      assert entries[i].rel[..|d|] == d;
    }
  }

  /** The item tells, field by field, what the directory contains. */
  predicate TellsDir(x: Item, entries: Entries, perDir: nat) {
    && Known(entries, x.path) && x.isDir
    && x.size == SizeBelow(entries, x.path) && x.files == FilesBelow(entries, x.path)
    && x.modifiedAt == ModifiedAt(entries, x.path)
    && (x.truncated <==> FilesIn(entries, x.path) > perDir)
  }

  /** The item tells, field by field, what the file's entry says. */
  predicate TellsFile(x: Item, e: Entry) {
    && x.path == e.rel && !x.isDir && x.size == e.size && x.files == 0 && !x.truncated
    && x.modifiedAt == if e.mtimeMs > 0 then Some(e.mtimeMs) else None
  }

  /** The items of the directories: each one once. */
  ghost predicate AreDirs(items: Items, entries: Entries, perDir: nat) {
    && (forall i :: 0 <= i < |items| ==> TellsDir(items[i], entries, perDir))
    && (forall d :: Known(entries, d) ==> exists i :: 0 <= i < |items| && items[i].path == d)
    && |items| == |KnownDirs(entries)|
  }

  /** The items of these files, one each, in any order. */
  ghost predicate AreFiles(items: Items, files: Entries) {
    exists inOrder: Items ::
      && multiset(items) == multiset(inOrder) && |inOrder| == |files|
      && forall i :: 0 <= i < |files| ==> TellsFile(inOrder[i], files[i])
  }

  lemma {:induction false} FileItemsTell(entries: Entries)
    ensures |FileItems(entries)| == |entries|
    ensures forall i :: 0 <= i < |entries| ==> TellsFile(FileItems(entries)[i], entries[i])
  {
    if entries != [] { FileItemsTell(entries[1..]); }
  }

  lemma ReorderedDirs(a: Items, b: Items, entries: Entries, perDir: nat)
    requires AreDirs(a, entries, perDir) && multiset(a) == multiset(b)
    ensures AreDirs(b, entries, perDir)
  {
    hide Known, TellsDir, KnownDirs;
    assert |a| == |multiset(a)| == |multiset(b)| == |b|;
    forall i | 0 <= i < |b| ensures TellsDir(b[i], entries, perDir) {
      assert b[i] in multiset(b);
      assert b[i] in multiset(a);
      var k :| 0 <= k < |a| && a[k] == b[i];
    }
    forall d | Known(entries, d) ensures exists i :: 0 <= i < |b| && b[i].path == d {
      var k :| 0 <= k < |a| && a[k].path == d;
      assert a[k] in multiset(a);
      assert a[k] in multiset(b);
      var i :| 0 <= i < |b| && b[i] == a[k];
    }
  }

  lemma DirItemTells(dirs: map<Path, Agg>, entries: Entries, perDir: nat, d: Path)
    requires Collected(dirs, entries, perDir) && d in dirs
    ensures TellsDir(DirItem(d, dirs[d]), entries, perDir)
  {
    hide Known, SizeBelow, FilesBelow, ModifiedAt, FilesIn;
  }

  /** Takes the directories out of the map, in any order. */
  method DirItems(dirs: map<Path, Agg>, entries: Entries, perDir: nat) returns (items: Items)
    requires Collected(dirs, entries, perDir)
    ensures AreDirs(items, entries, perDir)
  {
    hide Known, Summary, KnownDirs, TellsDir;
    items := [];
    var left := dirs.Keys;
    while left != {}
      invariant left <= dirs.Keys && |items| + |left| == |dirs.Keys|
      invariant forall i :: 0 <= i < |items|
                  ==> items[i].path in dirs && TellsDir(items[i], entries, perDir)
      invariant forall d :: d in dirs && d !in left ==> exists i :: 0 <= i < |items| && items[i].path == d
      decreases |left|
    {
      var d :| d in left;
      ghost var before := items;
      DirItemTells(dirs, entries, perDir, d);
      items := items + [DirItem(d, dirs[d])];
      left := left - {d};
      forall k | k in dirs && k !in left ensures exists i :: 0 <= i < |items| && items[i].path == k {
        if k == d {
          assert items[|before|].path == k;
        } else {
          var i :| 0 <= i < |before| && before[i].path == k;
          assert items[i].path == k;
        }
      }
    }
    assert dirs.Keys == KnownDirs(entries) by {
      forall d ensures d in dirs.Keys <==> d in KnownDirs(entries) { KnownDirsAre(entries, d); }
    }
  }

  /**
   * The listing before it is cut: known directories first, then the listed files, each part sorted.
   */
  ghost predicate IsListing(all: Items, entries: Entries, perDir: nat) {
    exists dirs: Items, files: Items ::
      && all == dirs + files
      && Ordered(dirs) && AreDirs(dirs, entries, perDir)
      && Ordered(files) && AreFiles(files, ListedFiles(entries, perDir))
  }

  /**
   * Every directory carries the size and the number of all files below it, listed or not; the totals
   * count every file; the answer is the listing cut to the limit; and it is flagged exactly when
   * some directory or file is missing from it.
   */
  method SummarizeListing(entries: Entries, limits: Limits) returns (r: Response, ghost all: Items)
    ensures IsListing(all, entries, limits.perDir)
    ensures r.entries == all[..Min(|all|, limits.maxEntries)]
    ensures r.totalFiles == TotalFiles(entries) && r.totalBytes == TotalBytes(entries)
    ensures r.truncated <==> |r.entries| < |KnownDirs(entries)| + TotalFiles(entries)
  {
    hide Collected, Known, Summary, KnownDirs, TotalFiles, TotalBytes, ListedFiles, RootSummary, Ordered, AreDirs,
      SortByPath, TellsFile, FileItems;
    var c := new Collector(limits.perDir);
    for i := 0 to |entries|
      invariant fresh(c) && c.Valid(entries[..i], limits.perDir)
    {
      assert entries[..i + 1] == entries[..i] + [entries[i]];
      match entries[i].kind
      case Dir => c.AddDir(entries[i], limits.perDir, entries[..i]);
      case File => c.AddFile(entries[i], limits.perDir, entries[..i]);
      case Other => c.AddOther(entries[i], limits.perDir, entries[..i]);
    }
    assert entries[..|entries|] == entries;
    var dirItems := DirItems(c.dirs, entries, limits.perDir);
    var fileItems := FileItems(c.files);
    SortSorts(dirItems);
    SortSorts(fileItems);
    ReorderedDirs(dirItems, SortByPath(dirItems), entries, limits.perDir);
    CountItems(entries, limits.perDir, dirItems, fileItems);
    FileItemsTell(c.files);
    assert AreFiles(SortByPath(fileItems), c.files);
    var out := SortByPath(dirItems) + SortByPath(fileItems);
    var truncated := c.truncated;
    all := out;
    if |out| > limits.maxEntries {
      out := out[..limits.maxEntries];
      truncated := true;
    }
    r := Response(out, c.totalFiles, c.totalBytes, truncated);
  }

  lemma CountItems(entries: Entries, perDir: nat, dirItems: Items, fileItems: Items)
    requires AreDirs(dirItems, entries, perDir) && fileItems == FileItems(ListedFiles(entries, perDir))
    ensures |SortByPath(dirItems)| == |KnownDirs(entries)|
    ensures |SortByPath(fileItems)| == |ListedFiles(entries, perDir)| <= TotalFiles(entries)
  {
    SortSorts(dirItems);
    SortSorts(fileItems);
    FileItemsTell(ListedFiles(entries, perDir));
    FewerListed(entries, perDir);
    hide KnownDirs, SortByPath, ListedFiles, TotalFiles, Known, Summary, FileItems, Ordered;
    assert |multiset(SortByPath(dirItems))| == |SortByPath(dirItems)|;
    assert |multiset(SortByPath(fileItems))| == |SortByPath(fileItems)|;
  }
}
