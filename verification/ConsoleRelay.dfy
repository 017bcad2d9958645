/**
 * The panel's console relay: what it does with batches and snapshots of one server's console.
 *
 * Lines are compared by number with the last number known before the batch, sorted, appended and
 * cut to the last thousand. `history` is everything that ever went into the ring and `published` what
 * browsers were sent; neither is kept by the program, and both only serve to say what the ring is.
 */
module ConsoleRelay {
  import opened Console

  const RING_MAX: nat := 1000

  // ----- Sorting by number -----

  predicate Increasing(lines: Lines) {
    forall i, k :: 0 <= i < k < |lines| ==> lines[i].number < lines[k].number
  }

  predicate Ordered(lines: Lines) {
    forall i, k :: 0 <= i < k < |lines| ==> lines[i].number <= lines[k].number
  }

  /** Behind all lines with the same or a smaller number. */
  function Insert(line: Line, lines: Lines): Lines {
    if lines == [] || line.number < lines[0].number then [line] + lines
    else [lines[0]] + Insert(line, lines[1..])
  }

  /** A stable sort. */
  function SortByNumber(lines: Lines): Lines {
    if lines == [] then [] else Insert(lines[|lines| - 1], SortByNumber(lines[..|lines| - 1]))
  }

  lemma {:induction false} InsertAtEnd(line: Line, lines: Lines)
    requires forall i :: 0 <= i < |lines| ==> lines[i].number <= line.number
    ensures Insert(line, lines) == lines + [line]
  {
    if lines != [] {
      InsertAtEnd(line, lines[1..]);
      assert lines == [lines[0]] + lines[1..];
    }
  }

  /** What is in order already stays as it is. */
  lemma {:induction false} SortKeepsOrdered(lines: Lines)
    requires Ordered(lines)
    ensures SortByNumber(lines) == lines
  {
    if lines != [] {
      var rest := lines[..|lines| - 1];
      SortKeepsOrdered(rest);
      InsertAtEnd(lines[|lines| - 1], rest);
      hide Insert;
    }
  }

  predicate AtLeast(lines: Lines, n: nat) {
    forall i :: 0 <= i < |lines| ==> lines[i].number >= n
  }

  lemma {:induction false} InsertPermutes(line: Line, lines: Lines)
    ensures multiset(Insert(line, lines)) == multiset(lines) + multiset{line}
  {
    if lines != [] {
      InsertPermutes(line, lines[1..]);
      assert lines == [lines[0]] + lines[1..];
    }
  }

  lemma {:induction false} InsertAtLeast(line: Line, lines: Lines, n: nat)
    requires AtLeast(lines, n) && line.number >= n
    ensures AtLeast(Insert(line, lines), n)
  {
    if lines != [] { InsertAtLeast(line, lines[1..], n); }
  }

  lemma OrderedCons(first: Line, lines: Lines)
    requires Ordered(lines) && AtLeast(lines, first.number)
    ensures Ordered([first] + lines)
  {
  }

  lemma OrderedTail(lines: Lines)
    requires Ordered(lines) && lines != []
    ensures Ordered(lines[1..]) && AtLeast(lines[1..], lines[0].number) && AtLeast(lines, lines[0].number)
  {
  }

  lemma {:induction false} InsertSorts(line: Line, lines: Lines)
    requires Ordered(lines)
    ensures Ordered(Insert(line, lines))
  {
    if lines == [] {
    } else if line.number < lines[0].number {
      OrderedTail(lines);
      assert AtLeast(lines, line.number);
      hide Ordered, AtLeast;
      OrderedCons(line, lines);
    } else {
      OrderedTail(lines);
      hide Ordered, AtLeast;
      InsertSorts(line, lines[1..]);
      InsertAtLeast(line, lines[1..], lines[0].number);
      OrderedCons(lines[0], Insert(line, lines[1..]));
    }
  }

  lemma {:induction false} SortSorts(lines: Lines)
    ensures Ordered(SortByNumber(lines)) && multiset(SortByNumber(lines)) == multiset(lines)
  {
    if lines != [] {
      var rest, last := lines[..|lines| - 1], lines[|lines| - 1];
      SortSorts(rest);
      InsertSorts(last, SortByNumber(rest));
      InsertPermutes(last, SortByNumber(rest));
      assert lines == rest + [last];
      hide Insert, Ordered;
    }
  }

  // ----- The relay's view of one server -----

  datatype Panel = Panel(
    ring: Lines,        // what a browser gets as a snapshot
    latest: nat,
    seen: nat,
    history: Lines,     // everything that ever went into the ring
    published: Lines)   // everything sent to watching browsers

  const EMPTY: Panel := Panel([], 0, 0, [], [])

  function Fresh(p: Panel, lines: Lines): Lines {
    SortByNumber(Above(lines, p.latest))
  }

  function LastOf(lines: Lines, max: nat): Lines {
    if |lines| > max then lines[|lines| - max..] else lines
  }

  function Max(a: nat, b: nat): nat { if a < b then b else a }

  function Append(p: Panel, added: Lines): Panel {
    var latest := if added == [] then p.latest else Max(p.latest, added[|added| - 1].number);
    p.(ring := LastOf(p.ring + added, RING_MAX), latest := latest,
       seen := Max(p.seen, latest), history := p.history + added)
  }

  /** A batch: lines already known are ignored, the others kept and published. */
  function OnLines(p: Panel, lines: Lines): Panel {
    var added := Fresh(p, lines);
    if added == [] then p else Append(p, added).(published := p.published + added)
  }

  /** The answer to a subscription: kept, but not published. */
  function Merge(p: Panel, lines: Lines, latest: nat): Panel {
    var added := Fresh(p, lines);
    var q := if added == [] then p else Append(p, added);
    q.(latest := Max(q.latest, latest), seen := Max(q.seen, latest))
  }

  function OnSeq(p: Panel, number: nat): Panel {
    if p.latest == 0 && p.seen == 0 then p.(seen := number) else p
  }

  // ----- What the relay keeps -----

  predicate EndsBy(lines: Lines, n: nat) {
    lines != [] ==> lines[|lines| - 1].number <= n
  }

  predicate PanelOk(p: Panel) {
    && Increasing(p.history) && EndsBy(p.history, p.latest)
    && Increasing(p.published) && EndsBy(p.published, p.latest)
    && p.ring == LastOf(p.history, RING_MAX)
  }

  /** No two lines of a batch carry the same number. */
  predicate NoTwins(lines: Lines) {
    forall i, k :: 0 <= i < k < |lines| ==> lines[i].number != lines[k].number
  }

  lemma {:induction false} AboveIsAbove(lines: Lines, n: nat)
    ensures forall i :: 0 <= i < |Above(lines, n)| ==> Above(lines, n)[i].number > n
  {
    if lines != [] {
      AboveIsAbove(lines[1..], n);
      AboveUnfold(lines, n);
      hide Above;
    }
  }

  lemma NoTwinsCons(first: Line, rest: Lines, some: Lines)
    requires NoTwins([first] + rest) && (forall line :: line in some ==> line in rest)
    ensures NoTwins(rest) && (NoTwins(some) ==> NoTwins([first] + some))
  {
    var all := [first] + rest;
    forall i, k | 0 <= i < k < |rest| ensures rest[i].number != rest[k].number {
      assert all[i + 1].number != all[k + 1].number;
    }
    forall i | 0 <= i < |some| ensures some[i].number != first.number {
      assert some[i] in rest;
      var k :| 0 <= k < |rest| && rest[k] == some[i];
      assert all[0].number != all[k + 1].number;
    }
  }

  lemma {:induction false} AboveNoTwins(lines: Lines, n: nat)
    requires NoTwins(lines)
    ensures NoTwins(Above(lines, n))
  {
    if lines != [] {
      AboveUnfold(lines, n);
      AboveMembers(lines[1..], n);
      assert lines == [lines[0]] + lines[1..];
      hide Above, NoTwins;
      NoTwinsCons(lines[0], lines[1..], Above(lines[1..], n));
      AboveNoTwins(lines[1..], n);
    }
  }

  lemma AppendKeepsRing(p: Panel, added: Lines)
    requires p.ring == LastOf(p.history, RING_MAX)
    ensures Append(p, added).ring == LastOf(p.history + added, RING_MAX)
  {
    var all := p.history + added;
    var short := p.ring + added;
    if |p.history| > RING_MAX {
      assert short == all[|p.history| - RING_MAX..];
      assert LastOf(short, RING_MAX) == LastOf(all, RING_MAX);
    }
  }

  lemma IncreasingConcat(a: Lines, b: Lines, n: nat)
    requires Increasing(a) && Increasing(b) && EndsBy(a, n) && (forall i :: 0 <= i < |b| ==> b[i].number > n)
    ensures Increasing(a + b)
  {
    var all := a + b;
    forall i, k | 0 <= i < k < |all| ensures all[i].number < all[k].number {
      if i < |a| <= k { assert a[i].number <= a[|a| - 1].number; }
    }
  }

  /** What is appended: the batch's new lines, in order, all above what is known. */
  lemma FreshIsAbove(p: Panel, lines: Lines)
    ensures Ordered(Fresh(p, lines))
    ensures forall i :: 0 <= i < |Fresh(p, lines)| ==> Fresh(p, lines)[i].number > p.latest
    ensures multiset(Fresh(p, lines)) == multiset(Above(lines, p.latest))
  {
    var above := Above(lines, p.latest);
    AboveIsAbove(lines, p.latest);
    SortSorts(above);
    hide Above, SortByNumber;
    forall i | 0 <= i < |Fresh(p, lines)| ensures Fresh(p, lines)[i].number > p.latest {
      assert Fresh(p, lines)[i] in multiset(Fresh(p, lines));
      assert Fresh(p, lines)[i] in above;
    }
  }

  /** The new lines of a batch, sorted: those above the last number known, and no others. */
  lemma NewLinesAre(lines: Lines, n: nat)
    ensures Ordered(SortByNumber(Above(lines, n)))
    ensures forall line :: line in SortByNumber(Above(lines, n)) <==> line in lines && line.number > n
  {
    var above, added := Above(lines, n), SortByNumber(Above(lines, n));
    SortSorts(above);
    AboveMembers(lines, n);
    hide SortByNumber, Above, Ordered;
    forall line ensures line in added <==> line in above {
      assert line in added <==> line in multiset(added);
      assert line in above <==> line in multiset(above);
    }
  }

  lemma AppendKeepsPanel(p: Panel, added: Lines)
    requires PanelOk(p) && Increasing(added) && (forall i :: 0 <= i < |added| ==> added[i].number > p.latest)
    ensures PanelOk(Append(p, added)) && PanelOk(Append(p, added).(published := p.published + added))
  {
    AppendKeepsRing(p, added);
    IncreasingConcat(p.history, added, p.latest);
    IncreasingConcat(p.published, added, p.latest);
    hide Increasing, LastOf;
  }

  lemma OrderedIncreases(lines: Lines)
    requires Ordered(lines)
    ensures Increasing(lines) <==> NoTwins(lines)
  {
  }

  /** Twins survive any reordering. */
  lemma TwinsSurvive(a: Lines, b: Lines)
    requires multiset(a) == multiset(b)
    ensures NoTwins(a) <==> NoTwins(b)
  {
    if NoTwins(a) && !NoTwins(b) { TwinsMove(b, a); }
    if NoTwins(b) && !NoTwins(a) { TwinsMove(a, b); }
  }

  lemma TwinsMove(a: Lines, b: Lines)
    requires multiset(a) == multiset(b) && !NoTwins(a)
    ensures !NoTwins(b)
  {
    var i, k :| 0 <= i < k < |a| && a[i].number == a[k].number;
    if NoTwins(b) {
      assert a[i] in multiset(a) && a[k] in multiset(a);
      var x :| 0 <= x < |b| && b[x] == a[i];
      var y :| 0 <= y < |b| && b[y] == a[k];
      if x == y {
        CountTwice(a, i, k);
        CountOnce(b, x);
      }
      assert false;
    }
  }

  lemma CountTwice(a: Lines, i: nat, k: nat)
    requires i < k < |a| && a[i] == a[k]
    ensures multiset(a)[a[i]] >= 2
  {
    assert a == a[..i] + [a[i]] + a[i + 1..k] + [a[k]] + a[k + 1..];
  }

  lemma CountOnce(b: Lines, x: nat)
    requires NoTwins(b) && x < |b|
    ensures multiset(b)[b[x]] == 1
  {
    assert b == b[..x] + [b[x]] + b[x + 1..];
    assert b[x] !in b[..x];
    assert b[x] !in b[x + 1..];
  }

  /**
   * A batch keeps the ring and what was published strictly increasing, exactly when its new lines
   * carry different numbers: lines are compared with what is known before the batch, not with each
   * other.
   */
  lemma OnLinesKeepsPanel(p: Panel, lines: Lines)
    requires PanelOk(p)
    ensures PanelOk(OnLines(p, lines)) <==> NoTwins(Above(lines, p.latest))
    ensures p.latest <= OnLines(p, lines).latest
  {
    var added := Fresh(p, lines);
    FreshIsAbove(p, lines);
    OrderedIncreases(added);
    TwinsSurvive(added, Above(lines, p.latest));
    hide Above, Fresh, NoTwins, Ordered;
    if Increasing(added) {
      AppendKeepsPanel(p, added);
    } else {
      assert added != [];
      NotIncreasing(p.history, added);
    }
    hide Increasing, LastOf;
  }

  lemma NotIncreasing(a: Lines, b: Lines)
    requires !Increasing(b)
    ensures !Increasing(a + b)
  {
    var i, k :| 0 <= i < k < |b| && b[i].number >= b[k].number;
    assert (a + b)[|a| + i] == b[i] && (a + b)[|a| + k] == b[k];
  }

  lemma MergeKeepsPanel(p: Panel, lines: Lines, latest: nat)
    requires PanelOk(p) && NoTwins(lines)
    ensures PanelOk(Merge(p, lines, latest)) && p.latest <= Merge(p, lines, latest).latest
  {
    var added := Fresh(p, lines);
    FreshIsAbove(p, lines);
    OrderedIncreases(added);
    AboveNoTwins(lines, p.latest);
    TwinsSurvive(added, Above(lines, p.latest));
    hide Above, Fresh, NoTwins, Ordered;
    AppendKeepsPanel(p, added);
    hide Increasing, LastOf;
  }

  // ----- The relay's buffer as the object the panel holds -----

  class RelayBuffer {
    var lines: Lines
    var latestSeq: nat
    var seenSeq: nat
    ghost var history: Lines
    ghost var published: Lines

    ghost function Value(): Panel
      reads this
    {
      Panel(lines, latestSeq, seenSeq, history, published)
    }

    constructor ()
      ensures Value() == EMPTY
    {
      lines, latestSeq, seenSeq, history, published := [], 0, 0, [], [];
    }

    method AppendLines(added: Lines)
      requires added != []
      modifies this
      ensures Value() == Append(old(Value()), added)
    {
      lines := lines + added;
      if |lines| > RING_MAX { lines := lines[|lines| - RING_MAX..]; }
      latestSeq := Max(latestSeq, added[|added| - 1].number);
      seenSeq := Max(seenSeq, latestSeq);
      history := history + added;
    }

    /** Handles a batch and returns what is published. */
    method HandleLines(batch: Lines) returns (sent: Lines)
      modifies this
      ensures Value() == OnLines(old(Value()), batch) && published == old(published) + sent
      ensures history == old(history) + sent && Ordered(sent)
      ensures forall line :: line in sent <==> line in batch && line.number > old(latestSeq)
      ensures latestSeq >= old(latestSeq)
      ensures seenSeq == if sent == [] then old(seenSeq) else Max(old(seenSeq), latestSeq)
    {
      hide SortByNumber, Above, Ordered, LastOf;
      sent := SortByNumber(Above(batch, latestSeq));
      NewLinesAre(batch, latestSeq);
      if sent == [] { return; }
      AppendLines(sent);
      published := published + sent;
    }

    method MergeAnswer(batch: Lines, latest: nat)
      modifies this
      ensures Value() == Merge(old(Value()), batch, latest) && published == old(published)
      ensures latestSeq >= latest && latestSeq >= old(latestSeq)
      ensures old(latestSeq) <= old(seenSeq) ==> seenSeq == Max(old(seenSeq), latestSeq)
    {
      var added := SortByNumber(Above(batch, latestSeq));
      if added != [] { AppendLines(added); }
      latestSeq := Max(latestSeq, latest);
      seenSeq := Max(seenSeq, latest);
    }

    method HandleSeq(number: nat)
      modifies this`seenSeq
      ensures Value() == OnSeq(old(Value()), number)
      ensures seenSeq == if old(latestSeq) > 0 || old(seenSeq) > 0 then old(seenSeq) else number
    {
      if latestSeq == 0 && seenSeq == 0 { seenSeq := number; }
    }
  }
}
