/**
 * Further results about updating `server.properties`: applying an update twice, and what happens to
 * the lines it does not name.
 *
 * Lines are `Stable` under an update when rewriting them changes none. What an update writes is stable
 * under the same update, unless a key to be removed occurs more than once: each pass removes one line
 * of it. For texts that keep no carriage return at the end this gives both halves of the result about
 * idempotence in PropertiesReturns.
 */
module PropertiesUpdates {
  import opened Options
  import opened Properties
  import opened PropertiesFile

  // ----- How often a key occurs -----

  lemma {:induction false} OccurrencesConcat(a: Lines, b: Lines, key: Text)
    ensures Occurrences(a + b, key) == Occurrences(a, key) + Occurrences(b, key)
  {
    hide Names;
    if a == [] {
      assert a + b == b;
    } else {
      OccurrencesConcat(a[1..], b, key);
      assert (a + b)[1..] == a[1..] + b;
    }
  }

  lemma OccurrencesOne(line: Text, key: Text)
    ensures Occurrences([line], key) == if Names(line, key) then 1 else 0
  {
    hide Names;
    var one: Lines := [line];
    assert one[1..] == [];
  }

  lemma OccurrencesOfRewritten(key: Text, value: Option<Text>, other: Text)
    ensures Occurrences(Rewritten(key, value), other) == if value.Some? && key == other then 1 else 0
  {
    if value.Some? {
      SplitInvertsRender(key, value.value);
      hide SplitLine, Render, Occurrences;
      OccurrencesOne(Render(key, value.value), other);
    } else {
      assert Rewritten(key, value) == [];
    }
  }

  lemma OccurrencesFirst(lines: Lines, key: Text)
    requires lines != []
    ensures Occurrences(lines, key) == (if Names(lines[0], key) then 1 else 0) + Occurrences(lines[1..], key)
  {
    hide Names;
  }

  /** Rewriting takes one line away from a key that is removed, and none from any other key. */
  lemma {:induction false} RewriteOccurrences(lines: Lines, remaining: Updates, key: Text)
    ensures Occurrences(Rewrite(lines, remaining).0, key)
            == if key in remaining && remaining[key].None? && Occurrences(lines, key) > 0
               then Occurrences(lines, key) - 1 else Occurrences(lines, key)
  {
    if lines != [] {
      hide SplitLine, Rewritten, Occurrences, Names;
      OccurrencesFirst(lines, key);
      NamesItsKey(lines[0], key);
      if Wanted(lines[0], remaining) {
        var k := SplitLine(lines[0]).value.key;
        RewriteOccurrences(lines[1..], remaining - {k}, key);
        OccurrencesOfRewritten(k, remaining[k], key);
        OccurrencesConcat(Rewritten(k, remaining[k]), Rewrite(lines[1..], remaining - {k}).0, key);
      } else {
        RewriteOccurrences(lines[1..], remaining, key);
        OccurrencesOne(lines[0], key);
        OccurrencesConcat([lines[0]], Rewrite(lines[1..], remaining).0, key);
      }
    }
  }

  lemma {:induction false} DropKeepsOccurrences(lines: Lines, key: Text)
    ensures Occurrences(DropTrailingEmpty(lines), key) == Occurrences(lines, key)
  {
    hide Names, Occurrences;
    if lines != [] && lines[|lines| - 1] == [] {
      DropKeepsOccurrences(lines[..|lines| - 1], key);
      OccurrencesConcat(lines[..|lines| - 1], [[]], key);
      OccurrencesOne([], key);
      EmptyHasNoKey(key);
      assert lines == lines[..|lines| - 1] + [[]];
    }
  }

  // ----- Lines that an update leaves as they are -----

  /** Rewriting these lines changes none of them. */
  ghost predicate Stable(lines: Lines, remaining: Updates) {
    lines == []
    || if Wanted(lines[0], remaining) then
         var key := SplitLine(lines[0]).value.key;
         remaining[key].Some? && lines[0] == Render(key, remaining[key].value) && Stable(lines[1..], remaining - {key})
       else Stable(lines[1..], remaining)
  }

  lemma {:induction false} StableIsUnchanged(lines: Lines, remaining: Updates)
    requires Stable(lines, remaining)
    ensures Rewrite(lines, remaining).0 == lines
  {
    hide SplitLine, Render;
    if lines != [] {
      assert lines == [lines[0]] + lines[1..];
      if Wanted(lines[0], remaining) {
        StableIsUnchanged(lines[1..], remaining - {SplitLine(lines[0]).value.key});
      } else {
        StableIsUnchanged(lines[1..], remaining);
      }
    }
  }

  lemma {:induction false} StableWithout(lines: Lines, remaining: Updates, key: Text)
    requires Occurrences(lines, key) == 0 && Stable(lines, remaining - {key})
    ensures Stable(lines, remaining)
  {
    hide SplitLine, Render, Names;
    if lines != [] {
      NamesItsKey(lines[0], key);
      if Wanted(lines[0], remaining) {
        var k := SplitLine(lines[0]).value.key;
        assert remaining - {key} - {k} == remaining - {k} - {key};
        StableWithout(lines[1..], remaining - {k}, key);
      } else {
        StableWithout(lines[1..], remaining, key);
      }
    }
  }

  /** No key that is to be removed occurs more than once. */
  ghost predicate RemovesSingles(lines: Lines, updates: Updates) {
    forall key <- updates :: updates[key].None? ==> Occurrences(lines, key) <= 1
  }

  lemma RenderIsWanted(key: Text, value: Text, remaining: Updates)
    requires key in remaining
    ensures Wanted(Render(key, value), remaining) && SplitLine(Render(key, value)).value.key == key
  {
    SplitInvertsRender(key, value);
  }

  lemma StablePrepend(key: Text, value: Text, lines: Lines, remaining: Updates)
    requires key in remaining && remaining[key] == Some(value) && Stable(lines, remaining - {key})
    ensures Stable([Render(key, value)] + lines, remaining)
  {
    RenderIsWanted(key, value, remaining);
    hide SplitLine, Render, Wanted;
    assert ([Render(key, value)] + lines)[1..] == lines;
  }

  lemma {:induction false} RewriteIsStable(lines: Lines, remaining: Updates)
    requires RemovesSingles(lines, remaining)
    ensures Stable(Rewrite(lines, remaining).0, remaining)
  {
    hide SplitLine, Render, Names, Occurrences;
    if lines != [] {
      var rest := lines[1..];
      forall key ensures Occurrences(rest, key) <= Occurrences(lines, key) { OccurrencesFirst(lines, key); }
      if Wanted(lines[0], remaining) {
        var key := SplitLine(lines[0]).value.key;
        var out := Rewrite(rest, remaining - {key}).0;
        RewriteIsStable(rest, remaining - {key});
        if remaining[key].Some? {
          hide Stable;
          StablePrepend(key, remaining[key].value, out, remaining);
        } else {
          OccurrencesFirst(lines, key);
          NamesItsKey(lines[0], key);
          RewriteOccurrences(rest, remaining - {key}, key);
          StableWithout(out, remaining, key);
          assert [] + out == out;
        }
      } else {
        RewriteIsStable(rest, remaining);
        assert ([lines[0]] + Rewrite(rest, remaining).0)[1..] == Rewrite(rest, remaining).0;
      }
    }
  }

  lemma {:induction false} StableConcat(a: Lines, b: Lines, remaining: Updates)
    ensures Stable(a + b, remaining) <==> Stable(a, remaining) && Stable(b, Rewrite(a, remaining).1)
  {
    hide SplitLine, Render, Rewritten;
    if a == [] {
      assert a + b == b;
    } else {
      assert (a + b)[1..] == a[1..] + b;
      if Wanted(a[0], remaining) {
        StableConcat(a[1..], b, remaining - {SplitLine(a[0]).value.key});
      } else {
        StableConcat(a[1..], b, remaining);
      }
    }
  }

  lemma {:induction false} DropIsStable(lines: Lines, remaining: Updates)
    requires Stable(lines, remaining)
    ensures Stable(DropTrailingEmpty(lines), remaining)
  {
    if lines != [] && lines[|lines| - 1] == [] {
      hide Stable;
      var rest := lines[..|lines| - 1];
      assert lines == rest + [[]];
      StableConcat(rest, [[]], remaining);
      DropIsStable(rest, remaining);
    }
  }

  /** Both sets of updates ask the same of every listed key that the first one still holds. */
  ghost predicate Covers(order: seq<Text>, left: Updates, remaining: Updates) {
    forall key <- order :: key in left ==> key in remaining && remaining[key] == left[key]
  }

  lemma {:induction false} AddedIsStable(order: seq<Text>, left: Updates, remaining: Updates)
    requires forall i, j :: 0 <= i < j < |order| ==> order[i] != order[j]
    requires Covers(order, left, remaining)
    ensures Stable(Added(order, left), remaining)
  {
    hide Render;
    if order != [] {
      var key, rest := order[0], order[1..];
      assert forall k <- rest :: k in order && k != key;
      if key in left && left[key].Some? {
        AddedIsStable(rest, left, remaining - {key});
        hide Stable;
        StablePrepend(key, left[key].value, Added(rest, left), remaining);
      } else {
        AddedIsStable(rest, left, remaining);
        assert [] + Added(rest, left) == Added(rest, left);
      }
    }
  }

  lemma UpdatedLinesAreStable(lines: Lines, updates: Updates, order: seq<Text>)
    requires Lists(order, updates) && RemovesSingles(lines, updates)
    ensures Stable(UpdatedLines(lines, updates, order), updates)
  {
    hide Stable, Rewrite, Added, DropTrailingEmpty, RemovesSingles, Occurrences;
    var (out, left) := Rewrite(lines, updates);
    var kept := DropTrailingEmpty(out);
    RewriteIsStable(lines, updates);
    DropIsStable(out, updates);
    var after := Rewrite(kept, updates).1;
    forall key <- order | key in left ensures key in after && after[key] == left[key] {
      RewriteOutcome(lines, updates, key);
      RewriteOccurrences(lines, updates, key);
      DropKeepsOccurrences(out, key);
      RewriteOutcome(kept, updates, key);
    }
    AddedIsStable(order, left, after);
    StableConcat(kept, Added(order, left), updates);
  }

  // ----- Applying an update twice -----

  lemma {:induction false} NothingAdded(order: seq<Text>, left: Updates)
    requires forall key <- order :: key in left ==> left[key].None?
    ensures Added(order, left) == []
  {
    hide Render;
    if order != [] {
      assert forall key <- order[1..] :: key in order;
      NothingAdded(order[1..], left);
    }
  }

  /** A removed key keeps one line less. */
  lemma UpdatedOccurrences(lines: Lines, updates: Updates, order: seq<Text>, key: Text)
    requires key in updates && updates[key].None? && Lists(order, updates)
    ensures Occurrences(UpdatedLines(lines, updates, order), key)
            == if Occurrences(lines, key) > 0 then Occurrences(lines, key) - 1 else 0
  {
    hide Rewrite, Added, DropTrailingEmpty, Occurrences, Last;
    var (out, left) := Rewrite(lines, updates);
    RewriteOccurrences(lines, updates, key);
    DropKeepsOccurrences(out, key);
    OccurrencesConcat(DropTrailingEmpty(out), Added(order, left), key);
    LastOfAdded(order, left, key);
    LastMeansOccurs(Added(order, left), key);
    RewriteOutcome(lines, updates, key);
  }

  /** Every key with a new value has a line afterwards. */
  lemma SetKeysOccur(lines: Lines, updates: Updates, order: seq<Text>, key: Text)
    requires key in updates && updates[key].Some? && Lists(order, updates)
    ensures Occurrences(UpdatedLines(lines, updates, order), key) > 0
  {
    hide UpdatedLines, Occurrences, Last, Lists;
    UpdatedLinesOutcome(lines, updates, order, key);
    LastMeansOccurs(UpdatedLines(lines, updates, order), key);
    LastMeansOccurs(lines, key);
  }

  lemma {:induction false} AddedHasNoEmpty(order: seq<Text>, left: Updates)
    ensures forall i :: 0 <= i < |Added(order, left)| ==> Added(order, left)[i] != []
  {
    if order != [] {
      AddedHasNoEmpty(order[1..], left);
      if order[0] in left && left[order[0]].Some? { RenderIsPlain(order[0], left[order[0]].value, NEWLINE); }
    }
  }

  lemma UpdatedEndsNonEmpty(lines: Lines, updates: Updates, order: seq<Text>)
    ensures var out := UpdatedLines(lines, updates, order); out != [] ==> out[|out| - 1] != []
  {
    hide Rewrite, Added, DropTrailingEmpty;
    var (out, left) := Rewrite(lines, updates);
    DropIsPrefix(out);
    AddedHasNoEmpty(order, left);
  }

  /** The lines of an updated text, updated again. */
  lemma UpdateLinesAgain(lines: Lines, updates: Updates, order: seq<Text>, extra: Lines)
    requires Lists(order, updates) && RemovesSingles(lines, updates) && extra in {[], [[]]}
    ensures var once := UpdatedLines(lines, updates, order); UpdatedLines(once + extra, updates, order) == once
  {
    hide Stable, Rewrite, Added, DropTrailingEmpty, RemovesSingles, Occurrences;
    var once := UpdatedLines(lines, updates, order);
    UpdatedLinesAreStable(lines, updates, order);
    UpdatedEndsNonEmpty(lines, updates, order);
    hide UpdatedLines;
    var again := once + extra;
    StableConcat(once, extra, updates);
    ExtraIsStable(extra, Rewrite(once, updates).1);
    StableIsUnchanged(again, updates);
    DropExtra(once, extra);
    var left := Rewrite(again, updates).1;
    forall key <- order | key in left ensures left[key].None? {
      RewriteOutcome(again, updates, key);
      OccurrencesConcat(once, extra, key);
      if updates[key].Some? { SetKeysOccur(lines, updates, order, key); }
    }
    NothingAdded(order, left);
    assert once + [] == once;
  }

  lemma ExtraIsStable(extra: Lines, remaining: Updates)
    requires extra in {[], [[]]}
    ensures Stable(extra, remaining)
  {
    if extra == [[]] { assert extra[1..] == []; }
  }

  lemma DropExtra(lines: Lines, extra: Lines)
    requires extra in {[], [[]]} && (lines != [] ==> lines[|lines| - 1] != [])
    ensures DropTrailingEmpty(lines + extra) == lines
  {
    if extra == [] {
      assert lines + extra == lines;
    } else {
      assert (lines + extra)[..|lines|] == lines;
    }
  }

  lemma {:induction false} JoinHasBreak(lines: Lines, eol: Text)
    requires eol == NEWLINE || eol == RETURN_NEWLINE
    requires AllPlain(lines, eol) && lines != []
    ensures HasReturnNewline(JoinLines(lines, eol)) <==> eol == RETURN_NEWLINE
  {
    var rest := JoinLines(lines[1..], eol);
    var text := JoinLines(lines, eol);
    assert text == lines[0] + eol + rest;
    if eol == RETURN_NEWLINE {
      var i := |lines[0]|;
      assert text[i] == CR && text[i + 1] == LF;
    } else {
      if lines[1..] != [] { JoinHasBreak(lines[1..], eol); }
      NoBreakAdded(lines[0], rest);
    }
  }

  lemma NoBreakAdded(line: Text, rest: Text)
    requires Plain(line, NEWLINE)
    ensures HasReturnNewline(line + NEWLINE + rest) <==> HasReturnNewline(rest)
  {
    var text := line + NEWLINE + rest;
    var n := |line| + 1;
    assert text[n..] == rest;
    if HasReturnNewline(text) {
      var i :| 0 <= i < |text| - 1 && text[i] == CR && text[i + 1] == LF;
      assert i >= n;
      assert rest[i - n] == CR && rest[i - n + 1] == LF;
    }
  }

  lemma SecondUpdateChangesNothing(text: Text, updates: Updates, order: seq<Text>)
    requires !KeepsReturn(text, updates) && Lists(order, updates)
    requires RemovesSingles(LinesToUpdate(text), updates)
    ensures Update(Update(text, updates, order), updates, order) == Update(text, updates, order)
  {
    hide KeepsReturn, Lists, RemovesSingles, SplitLines, UpdatedLines, AllPlain, HasReturnNewline, Update, JoinLines;
    var lines, eol := LinesToUpdate(text), Eol(text);
    var once := UpdatedLines(lines, updates, order);
    var result := Update(text, updates, order);
    assert result == JoinLines(once, eol) by { UpdateParts(text, updates, order); }
    UpdateParts(result, updates, order);
    UpdatedText(text, updates, order);
    UpdatedIsPlain(text, updates, order);
    if once == [] {
      JoinNothing(eol);
      UpdateLinesAgain(lines, updates, order, []);
      assert once + [] == [];
      JoinNothing(Eol(result));
    } else {
      JoinIsNonEmpty(once, eol);
      JoinHasBreak(once, eol);
      UpdateLinesAgain(lines, updates, order, [[]]);
    }
  }

  lemma UpdateParts(text: Text, updates: Updates, order: seq<Text>)
    ensures Update(text, updates, order) == JoinLines(UpdatedLines(LinesToUpdate(text), updates, order), Eol(text))
  {
  }

  lemma JoinNothing(eol: Text)
    ensures JoinLines([], eol) == []
  {
  }

  lemma JoinIsNonEmpty(lines: Lines, eol: Text)
    requires lines != [] && eol != []
    ensures JoinLines(lines, eol) != []
  {
  }

  lemma SecondUpdateRemovesMore(text: Text, updates: Updates, order: seq<Text>)
    requires !KeepsReturn(text, updates) && Lists(order, updates)
    requires !RemovesSingles(LinesToUpdate(text), updates)
    ensures Update(Update(text, updates, order), updates, order) != Update(text, updates, order)
  {
    hide KeepsReturn, Lists, SplitLines, UpdatedLines, AllPlain, HasReturnNewline, Update, JoinLines, Occurrences,
      LinesToUpdate;
    var lines := LinesToUpdate(text);
    var key :| key in updates && updates[key].None? && Occurrences(lines, key) > 1;
    var once := Update(text, updates, order);
    var twice := Update(once, updates, order);
    UpdatedText(text, updates, order);
    UpdatedEndsCleanly(text, updates, order);
    TextOccurrences(text, updates, order, key);
    TextOccurrences(once, updates, order, key);
    ParseOfLinesToUpdate(once, key);
  }

  lemma TextOccurrences(text: Text, updates: Updates, order: seq<Text>, key: Text)
    requires !KeepsReturn(text, updates) && Lists(order, updates) && key in updates && updates[key].None?
    ensures var n := Occurrences(LinesToUpdate(text), key);
            Occurrences(SplitLines(Update(text, updates, order)), key) == if n > 0 then n - 1 else 0
  {
    hide KeepsReturn, Lists, SplitLines, UpdatedLines, Update, Occurrences, LinesToUpdate, Names;
    var out := UpdatedLines(LinesToUpdate(text), updates, order);
    UpdatedText(text, updates, order);
    OccurrencesConcat(out, [[]], key);
    OccurrencesOne([], key);
    EmptyHasNoKey(key);
    UpdatedOccurrences(LinesToUpdate(text), updates, order, key);
  }

  /** An updated text ends in a line break, so the next update starts from clean lines. */
  lemma UpdatedEndsCleanly(text: Text, updates: Updates, order: seq<Text>)
    ensures EndsCleanly(Update(text, updates, order)) && !KeepsReturn(Update(text, updates, order), updates)
  {
    hide LinesToUpdate, UpdatedLines, HasReturnNewline;
    JoinEndsInBreak(UpdatedLines(LinesToUpdate(text), updates, order), Eol(text));
  }

  lemma {:induction false} JoinEndsInBreak(lines: Lines, eol: Text)
    requires eol == NEWLINE || eol == RETURN_NEWLINE
    ensures var text := JoinLines(lines, eol); text == [] || text[|text| - 1] == LF
  {
    if lines != [] { JoinEndsInBreak(lines[1..], eol); }
  }

  // ----- The lines an update does not name -----

  /** Comments, blank lines and the lines of keys that the update does not mention. */
  function Others(lines: Lines, updates: Updates): Lines {
    if lines == [] then []
    else Kept(lines[0], updates) + Others(lines[1..], updates)
  }

  /** What remains of one line. */
  function Kept(line: Text, updates: Updates): Lines {
    if Wanted(line, updates) then [] else [line]
  }

  lemma OthersFirst(lines: Lines, updates: Updates)
    requires lines != []
    ensures Others(lines, updates) == Kept(lines[0], updates) + Others(lines[1..], updates)
  {
    hide Kept;
  }

  lemma NoOthers(updates: Updates)
    ensures Others([], updates) == [] && [] + Others([], updates) == []
    ensures forall lines: Lines :: Others([], updates) + lines == lines
  {
  }

  lemma {:induction false} OthersConcat(a: Lines, b: Lines, updates: Updates)
    ensures Others(a + b, updates) == Others(a, updates) + Others(b, updates)
  {
    hide Kept, Others;
    if a == [] {
      assert a + b == b;
      NoOthers(updates);
    } else {
      var first, x, y := Kept(a[0], updates), Others(a[1..], updates), Others(b, updates);
      OthersConcat(a[1..], b, updates);
      OthersFirst(a, updates);
      assert (a + b)[1..] == a[1..] + b;
      OthersFirst(a + b, updates);
      assert first + (x + y) == (first + x) + y;
    }
  }

  lemma OthersOfRewritten(key: Text, value: Option<Text>, updates: Updates)
    requires key in updates
    ensures Others(Rewritten(key, value), updates) == []
  {
    if value.Some? {
      RenderIsWanted(key, value.value, updates);
      hide Wanted, Render, Others;
    }
  }

  lemma {:induction false} RewriteKeepsOthers(lines: Lines, remaining: Updates, updates: Updates)
    requires remaining.Keys <= updates.Keys
    ensures Others(Rewrite(lines, remaining).0, updates) == Others(lines, updates)
  {
    hide SplitLine, Rewritten;
    if lines != [] {
      if Wanted(lines[0], remaining) {
        var key := SplitLine(lines[0]).value.key;
        RewriteKeepsOthers(lines[1..], remaining - {key}, updates);
        OthersOfRewritten(key, remaining[key], updates);
        OthersConcat(Rewritten(key, remaining[key]), Rewrite(lines[1..], remaining - {key}).0, updates);
      } else {
        RewriteKeepsOthers(lines[1..], remaining, updates);
        assert ([lines[0]] + Rewrite(lines[1..], remaining).0)[1..] == Rewrite(lines[1..], remaining).0;
      }
    }
  }

  lemma {:induction false} AddedHasNoOthers(order: seq<Text>, left: Updates, updates: Updates)
    requires left.Keys <= updates.Keys
    ensures Others(Added(order, left), updates) == []
  {
    hide Rewritten, Wanted;
    if order != [] {
      AddedHasNoOthers(order[1..], left, updates);
      if order[0] in left {
        OthersOfRewritten(order[0], left[order[0]], updates);
        OthersConcat(Rewritten(order[0], left[order[0]]), Added(order[1..], left), updates);
      } else {
        assert [] + Added(order[1..], left) == Added(order[1..], left);
      }
    }
  }

  predicate AllEmpty(lines: Lines) {
    forall i :: 0 <= i < |lines| ==> lines[i] == []
  }

  /** The empty lines a drop removes. */
  lemma {:induction false} DropRemovesEmpty(lines: Lines)
    ensures var kept := DropTrailingEmpty(lines);
            |kept| <= |lines| && lines == kept + lines[|kept|..] && AllEmpty(lines[|kept|..])
  {
    if lines != [] && lines[|lines| - 1] == [] {
      var rest := lines[..|lines| - 1];
      DropRemovesEmpty(rest);
      var kept := DropTrailingEmpty(rest);
      assert lines[|kept|..] == rest[|kept|..] + [[]];
    }
  }

  lemma {:induction false} EmptyLinesAreOthers(lines: Lines, updates: Updates)
    requires AllEmpty(lines)
    ensures Others(lines, updates) == lines
  {
    if lines != [] {
      EmptyLinesAreOthers(lines[1..], updates);
      assert !Wanted([], updates);
      assert lines == [lines[0]] + lines[1..];
    }
  }

  lemma LeftIsAsked(lines: Lines, updates: Updates)
    ensures Rewrite(lines, updates).1.Keys <= updates.Keys
  {
    hide Rewrite, Last, Occurrences;
    forall key <- Rewrite(lines, updates).1 ensures key in updates { RewriteOutcome(lines, updates, key); }
  }

  /**
   * The lines an update does not name are all kept, unchanged and in order; only empty lines at the
   * end may go.
   */
  lemma OtherLinesAreKept(lines: Lines, updates: Updates, order: seq<Text>)
    ensures var kept, before := Others(UpdatedLines(lines, updates, order), updates), Others(lines, updates);
            |kept| <= |before| && before[..|kept|] == kept && AllEmpty(before[|kept|..])
  {
    hide Rewrite, Added, DropTrailingEmpty, Others;
    var (out, left) := Rewrite(lines, updates);
    var core := DropTrailingEmpty(out);
    RewriteKeepsOthers(lines, updates, updates);
    DropRemovesEmpty(out);
    OthersConcat(core, out[|core|..], updates);
    EmptyLinesAreOthers(out[|core|..], updates);
    LeftIsAsked(lines, updates);
    AddedHasNoOthers(order, left, updates);
    OthersConcat(core, Added(order, left), updates);
    assert Others(core, updates) + [] == Others(core, updates);
  }
}
