/**
 * What an update of `server.properties` does, for every text: the main results, with the case of a
 * text without CRLF whose last line ends in a carriage return that the update leaves where it is. The
 * line feed written behind it then makes the two a line break, and the line loses the return.
 */
module PropertiesReturns {
  import opened Options
  import opened Properties
  import opened PropertiesFile
  import opened PropertiesUpdates

  // ----- A carriage return at the end of a line -----

  lemma {:induction false} DropBeforeReturn(s: Text, p: Code -> bool)
    ensures DropWhile(s, p) != [] || !p(CR) ==> DropWhile(s + [CR], p) == DropWhile(s, p) + [CR]
    ensures DropWhile(s, p) == [] && p(CR) ==> DropWhile(s + [CR], p) == []
  {
    if s == [] {
      assert [CR][1..] == [];
    } else if p(s[0]) {
      DropBeforeReturn(s[1..], p);
      assert (s + [CR])[1..] == s[1..] + [CR];
    }
  }

  /** Reading a value: the return is read as itself, whatever stands before it. */
  lemma {:induction false} UnescapeReturn(s: Text)
    ensures Unescape(s + [CR]) == Unescape(s) + [CR]
    decreases |s|
  {
    if s == [] {
      var one: Text := [CR];
      assert UnescapeOne(one) == ([CR], 1) && one[1..] == [];
      assert Unescape(one) == [CR] + Unescape([]);
    } else {
      var (out, used) := UnescapeOne(s);
      if s == [BACKSLASH] {
        var two: Text := [BACKSLASH, CR];
        assert s + [CR] == two && UnescapeOne(two) == ([Meaning(CR)], 2) && two[2..] == [];
        assert Unescape(two) == [CR] + Unescape([]);
        assert Unescape(s) == [] by { assert s[1..] == []; }
      } else {
        EscapeBeforeReturn(s);
        UnescapeReturn(s[used..]);
        assert (s + [CR])[used..] == s[used..] + [CR];
        hide UnescapeOne;
        assert out + (Unescape(s[used..]) + [CR]) == (out + Unescape(s[used..])) + [CR];
      }
    }
  }

  lemma EscapeBeforeReturn(s: Text)
    requires s != [] && s != [BACKSLASH]
    ensures UnescapeOne(s + [CR]) == UnescapeOne(s)
  {
    var longer := s + [CR];
    if |s| >= 6 { assert longer[2..6] == s[2..6]; }
    if |s| == 5 { assert longer[2..6][3] == CR; }
  }

  /** How many units the scan of a key takes first: an escape takes two. */
  function Step(s: Text): (n: nat)
    requires s != []
    ensures 1 <= n <= |s|
  {
    if s[0] == BACKSLASH && |s| > 1 then 2 else 1
  }

  lemma ScanKeyStep(s: Text)
    ensures s == [] || IsDelimiter(s[0]) ==> ScanKey(s) == ([], s)
    ensures s != [] && !IsDelimiter(s[0])
            ==> ScanKey(s) == (s[..Step(s)] + ScanKey(s[Step(s)..]).0, ScanKey(s[Step(s)..]).1)
  {
    if s != [] { assert s[..1] == [s[0]]; }
  }

  /** With something behind the key the return goes there; otherwise it becomes part of the key. */
  lemma {:induction false} ScanKeyReturn(s: Text)
    ensures var (key, after) := ScanKey(s);
            ScanKey(s + [CR]) == if after == [] then (key + [CR], []) else (key, after + [CR])
    decreases |s|
  {
    var longer := s + [CR];
    ScanKeyStep(s);
    ScanKeyStep(longer);
    ScanKeyStep([]);
    hide ScanKey;
    if s == [] {
      assert longer[1..] == [] && longer[..1] == [] + [CR];
      assert longer[..1] + [] == [] + [CR];
    } else if !IsDelimiter(s[0]) {
      var n := Step(s);
      var (key, after) := ScanKey(s[n..]);
      if s == [BACKSLASH] {
        assert longer[2..] == [] && s[1..] == [];
        assert longer[..2] + [] == (s[..1] + []) + [CR];
      } else {
        ScanKeyReturn(s[n..]);
        assert longer[n..] == s[n..] + [CR] && longer[..n] == s[..n];
        assert s[..n] + (key + [CR]) == (s[..n] + key) + [CR];
      }
    }
  }

  /** The raw value behind a key. */
  function RawValue(after: Text): Text {
    var rest := DropWhile(after, IsBlank);
    if rest != [] && (rest[0] == EQUALS || rest[0] == COLON) then DropWhile(rest[1..], IsBlank) else rest
  }

  lemma RawValueReturn(after: Text)
    requires after != []
    ensures RawValue(after + [CR]) == RawValue(after) + [CR]
  {
    var rest := DropWhile(after, IsBlank);
    DropBeforeReturn(after, IsBlank);
    if rest != [] {
      DropBeforeReturn(rest[1..], IsBlank);
      assert (rest + [CR])[1..] == rest[1..] + [CR];
    }
  }

  lemma SplitLineIs(line: Text)
    ensures var t := DropWhile(line, IsSpace);
            SplitLine(line)
            == if t == [] || t[0] == HASH || t[0] == BANG then None
               else Some(Pair(Unescape(ScanKey(t).0), Unescape(RawValue(ScanKey(t).1))))
  {
    hide ScanKey, Unescape, DropWhile;
  }

  /**
   * A return at the end never decides whether a line is a pair; if it is one, the return belongs to
   * its value, or, when there is nothing behind the key, to its key.
   */
  lemma ReturnOfPair(x: Text)
    ensures SplitLine(x).None? <==> SplitLine(x + [CR]).None?
    ensures SplitLine(x).Some? ==>
              var a, b := SplitLine(x).value, SplitLine(x + [CR]).value;
              || (b.key == a.key && b.value == a.value + [CR])
              || (b.key == a.key + [CR] && b.value == a.value == [])
  {
    var t := DropWhile(x, IsSpace);
    DropBeforeReturn(x, IsSpace);
    SplitLineIs(x);
    SplitLineIs(x + [CR]);
    if t != [] {
      var (key, after) := ScanKey(t);
      ScanKeyReturn(t);
      UnescapeReturn(key);
      if after == [] {
        assert RawValue([]) == [] && Unescape([]) == [];
      } else {
        RawValueReturn(after);
        UnescapeReturn(RawValue(after));
      }
    }
    hide ScanKey, RawValue, Unescape, DropWhile, SplitLine;
  }

  // ----- The lines that count -----

  /** The last line without its carriage return. */
  function Stripped(text: Text): Text {
    var z := LastLine(text);
    if z == [] then [] else z[..|z| - 1]
  }

  /** The lines that the updated text is made of, as far as the parser will see them. */
  function Seen(text: Text, updates: Updates): Lines {
    if KeepsReturn(text, updates) then Front(text) + [Stripped(text)] else LinesToUpdate(text)
  }

  lemma StrippedIs(text: Text)
    requires !EndsCleanly(text)
    ensures LastLine(text) == Stripped(text) + [CR] && Plain(Stripped(text), RETURN_NEWLINE)
  {
    UncleanLines(text);
    hide EndsCleanly, LastLine, SplitLines;
  }

  /** What stands before and behind the last line of such a text after the update. */
  lemma KeptParts(text: Text, updates: Updates, order: seq<Text>)
    requires KeepsReturn(text, updates)
    ensures var (out, left) := Rewrite(Front(text), updates);
            && UpdatedLines(LinesToUpdate(text), updates, order) == out + [LastLine(text)] + Added(order, left)
            && AllPlain(out, NEWLINE) && AllPlain(Added(order, left), NEWLINE) && Eol(text) == NEWLINE
  {
    var (out, left) := Rewrite(Front(text), updates);
    UncleanLines(text);
    FrontAndLast(text);
    hide EndsCleanly, Plain, SplitLines, HasReturnNewline, Rewrite, Added, Front, LastLine, Taken;
    RewriteLast(Front(text), LastLine(text), updates);
    RewriteIsPlain(Front(text), updates, NEWLINE);
    AddedIsPlain(order, left, NEWLINE);
    DropOne(out + [LastLine(text)]);
  }

  lemma {:induction false} JoinConcat(a: Lines, b: Lines, eol: Text)
    ensures JoinLines(a + b, eol) == JoinLines(a, eol) + JoinLines(b, eol)
  {
    if a == [] {
      assert a + b == b && [] + JoinLines(b, eol) == JoinLines(b, eol);
    } else {
      JoinConcat(a[1..], b, eol);
      assert (a + b)[1..] == a[1..] + b;
      assert a[0] + eol + (JoinLines(a[1..], eol) + JoinLines(b, eol)) == JoinLines(a, eol) + JoinLines(b, eol);
    }
  }

  lemma JoinOne(line: Text, eol: Text)
    ensures JoinLines([line], eol) == line + eol
  {
    var one: Lines := [line];
    assert one[1..] == [] && line + eol + [] == line + eol;
  }

  /** Written and split again, the line has lost its return. */
  lemma KeptText(a: Lines, x: Text, b: Lines)
    requires AllPlain(a, NEWLINE) && Plain(x, RETURN_NEWLINE) && AllPlain(b, NEWLINE)
    ensures var text := JoinLines(a + [x + [CR]] + b, NEWLINE);
            && text == JoinLines(a, NEWLINE) + (x + RETURN_NEWLINE + JoinLines(b, NEWLINE))
            && SplitLines(text) == a + [x] + b + [[]]
  {
    hide AllPlain, Plain, SplitLines, JoinLines;
    var z := x + [CR];
    var later := JoinLines(b, NEWLINE);
    JoinConcat(a + [z], b, NEWLINE);
    JoinConcat(a, [z], NEWLINE);
    JoinOne(z, NEWLINE);
    assert z + NEWLINE == x + RETURN_NEWLINE;
    SplitInvertsJoin(b, NEWLINE);
    SplitFirst(x, RETURN_NEWLINE, later);
    SplitJoined(a, NEWLINE, x + RETURN_NEWLINE + later);
    assert JoinLines(a, NEWLINE) + (x + RETURN_NEWLINE) + later
        == JoinLines(a, NEWLINE) + (x + RETURN_NEWLINE + later);
    assert a + ([x] + (b + [[]])) == a + [x] + b + [[]];
  }

  lemma KeptResult(text: Text, updates: Updates, order: seq<Text>)
    requires KeepsReturn(text, updates)
    ensures var (out, left) := Rewrite(Front(text), updates);
            SplitLines(Update(text, updates, order)) == out + [Stripped(text)] + Added(order, left) + [[]]
  {
    KeptParts(text, updates, order);
    StrippedIs(text);
    UpdateParts(text, updates, order);
    var (out, left) := Rewrite(Front(text), updates);
    hide KeepsReturn, Rewrite, Added, Front, LastLine, Stripped, Update, LinesToUpdate, UpdatedLines, SplitLines,
      AllPlain, Plain;
    KeptText(out, Stripped(text), Added(order, left));
  }

  // ----- The value of every key after an update -----

  /** The key only comes into being when the last line loses its return, and was to be removed. */
  predicate Emerges(text: Text, updates: Updates, key: Text) {
    && KeepsReturn(text, updates) && key in updates && updates[key].None?
    && Names(Stripped(text), key) && Occurrences(Front(text), key) == 0
  }

  lemma SplitGivesLast(text: Text, lines: Lines, key: Text)
    requires SplitLines(text) == lines + [[]]
    ensures Lookup(ParseText(text), key) == Last(lines, key)
  {
    hide SplitLines, Last, Names;
    ParseGivesLast(SplitLines(text), key);
    LastSnoc(lines, [], key);
    EmptyHasNoKey(key);
  }

  /** What every key is worth after an update, for every text. */
  lemma UpdateOutcome(text: Text, updates: Updates, order: seq<Text>, key: Text)
    requires Lists(order, updates)
    ensures Lookup(ParseText(Update(text, updates, order)), key)
            == if key in updates && Occurrences(Seen(text, updates), key) <= 1 && !Emerges(text, updates, key)
               then updates[key] else Last(Seen(text, updates), key)
  {
    if KeepsReturn(text, updates) {
      KeptOutcome(text, updates, order, key);
    } else {
      hide KeepsReturn, SplitLines, Update, Last, Occurrences, Lists, UpdatedLines, LinesToUpdate, ParseText;
      var lines := UpdatedLines(LinesToUpdate(text), updates, order);
      UpdatedText(text, updates, order);
      SplitGivesLast(Update(text, updates, order), lines, key);
      UpdatedLinesOutcome(LinesToUpdate(text), updates, order, key);
    }
  }

  lemma KeptOutcome(text: Text, updates: Updates, order: seq<Text>, key: Text)
    requires Lists(order, updates) && KeepsReturn(text, updates)
    ensures Lookup(ParseText(Update(text, updates, order)), key)
            == if key in updates && Occurrences(Seen(text, updates), key) <= 1 && !Emerges(text, updates, key)
               then updates[key] else Last(Seen(text, updates), key)
  {
    hide KeepsReturn, SplitLines, Update, Last, Occurrences, ParseText, Front, Stripped, Rewrite, Added, Names;
    var (out, left) := Rewrite(Front(text), updates);
    var x := Stripped(text);
    KeptResult(text, updates, order);
    SplitGivesLast(Update(text, updates, order), out + [x] + Added(order, left), key);
    LastConcat(out + [x], Added(order, left), key);
    LastSnoc(out, x, key);
    LastOfAdded(order, left, key);
    RewriteOutcome(Front(text), updates, key);
    LastSnoc(Front(text), x, key);
    OccurrencesConcat(Front(text), [x], key);
    OccurrencesOne(x, key);
    LastMeansOccurs(Front(text), key);
  }

  // ----- When an update is applied -----

  /** A key that occurs several times must already have the value asked for. */
  ghost predicate DuplicatesSettled(lines: Lines, updates: Updates) {
    forall key <- updates :: Occurrences(lines, key) >= 2 ==> updates[key] == Last(lines, key)
  }

  /** Losing the last line's return changes no other key and brings up none that is to be removed. */
  ghost predicate ReturnHarmless(text: Text, updates: Updates) {
    && (forall key :: key !in updates ==> Last(Seen(text, updates), key) == Last(LinesToUpdate(text), key))
    && (forall key :: !Emerges(text, updates, key))
  }

  /**
   * For every text: parsing the updated text gives the parsed map with the updates applied, exactly
   * when every updated key that occurs more than once already had its new value, and the last line
   * can do without its carriage return if the update leaves it one.
   */
  lemma UpdateIsApplied(text: Text, updates: Updates, order: seq<Text>)
    requires Lists(order, updates)
    ensures ParseText(Update(text, updates, order)) == Applied(ParseText(text), updates)
            <==> DuplicatesSettled(Seen(text, updates), updates) && ReturnHarmless(text, updates)
    ensures !KeepsReturn(text, updates) ==> ReturnHarmless(text, updates)
  {
    var result, expected := ParseText(Update(text, updates, order)), Applied(ParseText(text), updates);
    var lines, seen := LinesToUpdate(text), Seen(text, updates);
    forall key
      ensures Lookup(result, key)
              == if key in updates && Occurrences(seen, key) <= 1 && !Emerges(text, updates, key) then updates[key]
                 else Last(seen, key)
      ensures Lookup(expected, key) == if key in updates then updates[key] else Last(lines, key)
      ensures Emerges(text, updates, key) ==>
                key in updates && Last(seen, key) != updates[key] && Occurrences(seen, key) == 1
    {
      UpdateOutcome(text, updates, order, key);
      LookupApplied(ParseText(text), updates, key);
      ParseOfLinesToUpdate(text, key);
      EmergesIs(text, updates, key);
    }
    hide ParseText, Update, Lists, Lookup, Occurrences, Last, Applied, Seen, Emerges, LinesToUpdate, KeepsReturn;
    MapsAgree(result, expected);
    if DuplicatesSettled(seen, updates) && ReturnHarmless(text, updates) {
      forall key ensures Lookup(result, key) == Lookup(expected, key) {}
    } else if result == expected {
      forall key ensures Lookup(result, key) == Lookup(expected, key) {}
      assert forall key :: !Emerges(text, updates, key);
      assert DuplicatesSettled(seen, updates);
    }
    if !KeepsReturn(text, updates) { CleanIsHarmless(text, updates); }
  }

  lemma CleanIsHarmless(text: Text, updates: Updates)
    requires !KeepsReturn(text, updates)
    ensures ReturnHarmless(text, updates)
  {
    hide KeepsReturn, Last, LinesToUpdate, Occurrences, Names, Front, Stripped;
  }

  lemma EmergesIs(text: Text, updates: Updates, key: Text)
    ensures Emerges(text, updates, key) ==>
              && key in updates && Last(Seen(text, updates), key) != updates[key]
              && Occurrences(Seen(text, updates), key) == 1
  {
    hide KeepsReturn, Last, Occurrences, Names, Front, Stripped, LinesToUpdate;
    LastSnoc(Front(text), Stripped(text), key);
    OccurrencesConcat(Front(text), [Stripped(text)], key);
    OccurrencesOne(Stripped(text), key);
  }

  /**
   * The failing family, from the last line alone: when its key occurs nowhere before it, an update of
   * a text that does not end cleanly is applied exactly when duplicates are settled and the last line
   * is no pair, or its key is one of those updated.
   */
  lemma LoneReturnDecides(text: Text, updates: Updates, order: seq<Text>)
    requires Lists(order, updates) && !EndsCleanly(text)
    requires var last := SplitLine(LastLine(text)); last.Some? ==> Occurrences(Front(text), last.value.key) == 0
    ensures ParseText(Update(text, updates, order)) == Applied(ParseText(text), updates)
            <==> && DuplicatesSettled(SplitLines(text), updates)
                 && (SplitLine(LastLine(text)).None? || SplitLine(LastLine(text)).value.key in updates)
  {
    hide ParseText, Update, Lists, Applied, SplitLines, Front, Stripped, Occurrences, SplitLine, Last,
      DuplicatesSettled;
    UpdateIsApplied(text, updates, order);
    FrontAndLast(text);
    StrippedIs(text);
    if SplitLine(LastLine(text)).None? {
      ReturnOfPair(Stripped(text));
      CommentIsHarmless(text, updates);
    } else if SplitLine(LastLine(text)).value.key in updates {
      assert !KeepsReturn(text, updates);
    } else {
      PairIsHarmed(text, updates);
    }
  }

  lemma CommentIsHarmless(text: Text, updates: Updates)
    requires !EndsCleanly(text) && SplitLine(LastLine(text)).None? && SplitLine(Stripped(text)).None?
    ensures ReturnHarmless(text, updates)
    ensures DuplicatesSettled(Seen(text, updates), updates) <==> DuplicatesSettled(SplitLines(text), updates)
  {
    FrontAndLast(text);
    hide EndsCleanly, SplitLines, Front, Stripped, LastLine, SplitLine, Occurrences, Last, LinesToUpdate, Taken;
    forall key
      ensures Last(Seen(text, updates), key) == Last(SplitLines(text), key)
      ensures Occurrences(Seen(text, updates), key) == Occurrences(SplitLines(text), key)
      ensures !Names(Stripped(text), key)
    {
      LastSnoc(Front(text), LastLine(text), key);
      LastSnoc(Front(text), Stripped(text), key);
      OccurrencesConcat(Front(text), [LastLine(text)], key);
      OccurrencesConcat(Front(text), [Stripped(text)], key);
      OccurrencesOne(LastLine(text), key);
      OccurrencesOne(Stripped(text), key);
    }
  }

  lemma PairIsHarmed(text: Text, updates: Updates)
    requires !EndsCleanly(text) && SplitLine(LastLine(text)).Some?
    requires var key := SplitLine(LastLine(text)).value.key; key !in updates && Occurrences(Front(text), key) == 0
    ensures !ReturnHarmless(text, updates)
  {
    var key := SplitLine(LastLine(text)).value.key;
    FrontAndLast(text);
    StrippedIs(text);
    ReturnOfPair(Stripped(text));
    hide EndsCleanly, SplitLines, Front, Stripped, LastLine, SplitLine, Occurrences, Last, LinesToUpdate;
    assert KeepsReturn(text, updates);
    LastSnoc(Front(text), LastLine(text), key);
    LastSnoc(Front(text), Stripped(text), key);
    LastMeansOccurs(Front(text), key);
    assert Last(Seen(text, updates), key) != Last(LinesToUpdate(text), key);
  }

  // ----- Applying an update twice -----

  lemma {:induction false} JoinLength(lines: Lines)
    ensures |JoinLines(lines, RETURN_NEWLINE)| == |JoinLines(lines, NEWLINE)| + |lines|
  {
    if lines != [] { JoinLength(lines[1..]); }
  }

  lemma WrittenWithReturn(a: Text, x: Text, b: Text)
    ensures HasReturnNewline(a + (x + RETURN_NEWLINE + b))
  {
    var text, i := a + (x + RETURN_NEWLINE + b), |a| + |x|;
    assert text[i] == CR && text[i + 1] == LF;
  }

  /** The text after the first update: its lines, and that it now has a CRLF. */
  lemma KeptOnce(text: Text, updates: Updates, order: seq<Text>)
    requires KeepsReturn(text, updates)
    ensures var (out, left) := Rewrite(Front(text), updates);
            var m, once := out + [Stripped(text)] + Added(order, left), Update(text, updates, order);
            && LinesToUpdate(once) == m + [[]] && Eol(once) == RETURN_NEWLINE
            && !KeepsReturn(once, updates) && |once| == |JoinLines(m, NEWLINE)| + 1
  {
    var (out, left) := Rewrite(Front(text), updates);
    var x, b, once := Stripped(text), Added(order, left), Update(text, updates, order);
    KeptParts(text, updates, order);
    StrippedIs(text);
    UpdateParts(text, updates, order);
    hide KeepsReturn, Rewrite, Added, Front, LastLine, Stripped, Update, UpdatedLines, SplitLines, AllPlain, Plain;
    KeptText(out, x, b);
    hide JoinLines;
    WrittenWithReturn(JoinLines(out, NEWLINE), x, JoinLines(b, NEWLINE));
    UpdatedEndsCleanly(text, updates, order);
    JoinConcat(out + [x], b, NEWLINE);
    JoinConcat(out, [x], NEWLINE);
    JoinOne(x, NEWLINE);
  }

  /** The second update writes every line with CRLF, so the text only stays when there is one line. */
  lemma KeptTwice(text: Text, updates: Updates, order: seq<Text>)
    requires KeepsReturn(text, updates)
    ensures var (out, left) := Rewrite(Front(text), updates);
            var m, once := out + [Stripped(text)] + Added(order, left), Update(text, updates, order);
            Update(once, updates, order) == once
            <==> |m| == 1 && UpdatedLines(m + [[]], updates, order) == m
  {
    var (out, left) := Rewrite(Front(text), updates);
    var m, once := out + [Stripped(text)] + Added(order, left), Update(text, updates, order);
    var again := UpdatedLines(m + [[]], updates, order);
    KeptOnce(text, updates, order);
    KeptResult(text, updates, order);
    UpdateParts(once, updates, order);
    hide KeepsReturn, Rewrite, Added, Front, Stripped, Update, UpdatedLines, SplitLines, JoinLines, LinesToUpdate;
    if Update(once, updates, order) == once {
      UpdatedText(once, updates, order);
      assert again + [[]] == m + [[]];
      assert again == m by { assert (again + [[]])[..|again|] == (m + [[]])[..|m|]; }
      JoinLength(m);
    } else if |m| == 1 && again == m {
      OneLineOnce(text, updates, order);
    }
  }

  /** With one line, what the first update wrote is that line and CRLF. */
  lemma OneLineOnce(text: Text, updates: Updates, order: seq<Text>)
    requires KeepsReturn(text, updates)
    ensures var (out, left) := Rewrite(Front(text), updates);
            var m := out + [Stripped(text)] + Added(order, left);
            |m| == 1 ==> Update(text, updates, order) == JoinLines(m, RETURN_NEWLINE)
  {
    var (out, left) := Rewrite(Front(text), updates);
    var x, b := Stripped(text), Added(order, left);
    KeptParts(text, updates, order);
    StrippedIs(text);
    UpdateParts(text, updates, order);
    hide KeepsReturn, Rewrite, Added, Front, LastLine, Stripped, Update, UpdatedLines, LinesToUpdate, AllPlain, Plain;
    KeptText(out, x, b);
    JoinOne(x, RETURN_NEWLINE);
    if |out + [x] + b| == 1 {
      assert out == [] && b == [] && out + [x] + b == [x];
      JoinNothing(NEWLINE);
      hide JoinLines;
      assert [] + (x + RETURN_NEWLINE + []) == x + RETURN_NEWLINE;
    }
  }

  /** When the last line is all that is left, everything that was asked for was a removal. */
  lemma OnlyRemovals(text: Text, updates: Updates, order: seq<Text>, key: Text)
    requires Lists(order, updates) && key in updates
    requires var (out, left) := Rewrite(Front(text), updates); out == [] && Added(order, left) == []
    ensures updates[key].None?
  {
    hide Rewrite, Added, Front, Last, Occurrences;
    var (out, left) := Rewrite(Front(text), updates);
    RewriteOutcome(Front(text), updates, key);
    LastOfAdded(order, left, key);
    LastMeansOccurs(Front(text), key);
    NoneInNothing(key);
  }

  /** A single line left of the text, when everything asked for is a removal. */
  lemma OneLineAgain(x: Text, updates: Updates, order: seq<Text>)
    requires forall key <- updates :: updates[key].None?
    ensures UpdatedLines([x] + [[]], updates, order) == [x] <==> x != [] && !Wanted(x, updates)
  {
    var left := Rewrite([x], updates).1;
    RewriteOne(x, updates);
    RewriteConcat([x], [[]], updates);
    RewriteOne([], left);
    LeftIsAsked([x] + [[]], updates);
    assert !Wanted([], left);
    hide Rewrite, Added, SplitLine, Wanted;
    LeftIsRemoved([x], updates);
    NothingAdded(order, left);
    var empty: Lines := [[]];
    assert Rewrite([x], updates).0 + empty == if Wanted(x, updates) then empty else [x] + empty;
    assert ([x] + empty)[..1] == [x] && empty[..0] == [] && [x][..0] == [];
    assert DropTrailingEmpty(empty) == [];
    assert DropTrailingEmpty([x] + empty) == DropTrailingEmpty([x]) == if x == [] then [] else [x];
  }

  lemma LeftIsRemoved(lines: Lines, updates: Updates)
    requires forall key <- updates :: updates[key].None?
    ensures var left := Rewrite(lines, updates).1; forall key :: key in left ==> left[key].None?
  {
    hide Rewrite, Last, Occurrences;
    forall key | key in Rewrite(lines, updates).1 ensures Rewrite(lines, updates).1[key].None? {
      RewriteOutcome(lines, updates, key);
    }
  }

  /**
   * For every text: applying the same update twice is the same as applying it once exactly when no key
   * to be removed occurs more than once, since each pass removes only the first line of a key. If the
   * update leaves a carriage return at the end, the first pass makes a CRLF of it and the second one
   * writes every line with CRLF; the text then only stays when that line is all that is left.
   */
  lemma UpdateIsIdempotent(text: Text, updates: Updates, order: seq<Text>)
    requires Lists(order, updates)
    ensures Update(Update(text, updates, order), updates, order) == Update(text, updates, order)
            <==> if KeepsReturn(text, updates)
                 then && UpdatedLines(LinesToUpdate(text), updates, order) == [LastLine(text)]
                      && Stripped(text) != [] && !Wanted(Stripped(text), updates)
                 else RemovesSingles(LinesToUpdate(text), updates)
  {
    hide Lists, LinesToUpdate, RemovesSingles, UpdatedLines, KeepsReturn, Update, Wanted, Stripped, LastLine,
      Rewrite, Added;
    if KeepsReturn(text, updates) {
      var (out, left) := Rewrite(Front(text), updates);
      var x := Stripped(text);
      var m := out + [x] + Added(order, left);
      KeptParts(text, updates, order);
      KeptTwice(text, updates, order);
      if |m| == 1 {
        assert out == [] && Added(order, left) == [];
        assert m == [x] && out + [LastLine(text)] + Added(order, left) == [LastLine(text)];
        forall key <- updates ensures updates[key].None? { OnlyRemovals(text, updates, order, key); }
        OneLineAgain(x, updates, order);
      }
    } else if RemovesSingles(LinesToUpdate(text), updates) {
      SecondUpdateChangesNothing(text, updates, order);
    } else {
      SecondUpdateRemovesMore(text, updates, order);
    }
  }
}
