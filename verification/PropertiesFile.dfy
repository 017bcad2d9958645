/**
 * Whole `server.properties` texts: parsing, and the update in place that keeps order, comments and
 * unknown keys.
 *
 * A text is split at LF, with a CR before it dropped; an update rewrites the first line of each key it
 * names, drops empty lines at the end, adds the keys that were missing, and joins the lines with the
 * line break the text uses. The lemmas say what each of these steps does to the value of a key, and
 * which lines can be written and read back; the main results are in PropertiesReturns.
 */
module PropertiesFile {
  import opened Options
  import opened Properties

  type Lines = seq<Text>

  /** What a caller asks for: a new value, or `None` to remove the key. */
  type Updates = map<Text, Option<Text>>

  // ----- Lines -----

  /** Position of the first line feed, or the length of the text. */
  function LineEnd(text: Text): (i: nat)
    ensures i <= |text| && (i < |text| ==> text[i] == LF)
    ensures forall j :: 0 <= j < i ==> text[j] != LF
  {
    if text == [] || text[0] == LF then 0 else 1 + LineEnd(text[1..])
  }

  /** A carriage return right before the line feed belongs to the line break. */
  function ChopReturn(line: Text): Text {
    if line != [] && line[|line| - 1] == CR then line[..|line| - 1] else line
  }

  /** `text.split(/\r?\n/)`. */
  function SplitLines(text: Text): (lines: Lines)
    ensures lines != []
  {
    var i := LineEnd(text);
    if i == |text| then [text] else [ChopReturn(text[..i])] + SplitLines(text[i + 1..])
  }

  /** Every line followed by the line break. */
  function JoinLines(lines: Lines, eol: Text): Text {
    if lines == [] then [] else lines[0] + eol + JoinLines(lines[1..], eol)
  }

  const NEWLINE: Text := [LF]
  const RETURN_NEWLINE: Text := [CR, LF]

  predicate HasReturnNewline(text: Text) {
    exists i :: 0 <= i < |text| - 1 && text[i] == CR && text[i + 1] == LF
  }

  /** A line that a line break can follow without merging with it. */
  predicate Plain(line: Text, eol: Text) {
    && (forall i :: 0 <= i < |line| ==> line[i] != LF)
    && (eol == NEWLINE && line != [] ==> line[|line| - 1] != CR)
  }

  predicate AllPlain(lines: Lines, eol: Text) {
    forall i :: 0 <= i < |lines| ==> Plain(lines[i], eol)
  }

  lemma LineEndAt(line: Text, eol: Text, rest: Text)
    requires eol == NEWLINE || eol == RETURN_NEWLINE
    requires Plain(line, eol)
    ensures var text := line + eol + rest;
            && LineEnd(text) == |line| + |eol| - 1
            && ChopReturn(text[..|line| + |eol| - 1]) == line
            && text[|line| + |eol|..] == rest
  {
    var text := line + eol + rest;
    var i := LineEnd(text);
    assert text[|line| + |eol| - 1] == LF;
    assert i == |line| + |eol| - 1;
    if eol == RETURN_NEWLINE {
      assert text[..i] == line + [CR];
    } else {
      assert text[..i] == line;
    }
  }

  lemma SplitFirst(line: Text, eol: Text, rest: Text)
    requires eol == NEWLINE || eol == RETURN_NEWLINE
    requires Plain(line, eol)
    ensures SplitLines(line + eol + rest) == [line] + SplitLines(rest)
  {
    LineEndAt(line, eol, rest);
    hide Plain, LineEnd, ChopReturn;
  }

  lemma {:induction false} SplitJoined(lines: Lines, eol: Text, rest: Text)
    requires eol == NEWLINE || eol == RETURN_NEWLINE
    requires AllPlain(lines, eol)
    ensures SplitLines(JoinLines(lines, eol) + rest) == lines + SplitLines(rest)
  {
    hide Plain, SplitLines;
    if lines == [] {
      assert [] + rest == rest && lines + SplitLines(rest) == SplitLines(rest);
    } else {
      var later := JoinLines(lines[1..], eol);
      SplitJoined(lines[1..], eol, rest);
      SplitFirst(lines[0], eol, later + rest);
      assert JoinLines(lines, eol) + rest == lines[0] + eol + (later + rest);
      assert [lines[0]] + (lines[1..] + SplitLines(rest)) == lines + SplitLines(rest);
    }
  }

  /** Joining lines and splitting the text gives them back, with one empty line at the end. */
  lemma SplitInvertsJoin(lines: Lines, eol: Text)
    requires eol == NEWLINE || eol == RETURN_NEWLINE
    requires AllPlain(lines, eol)
    ensures SplitLines(JoinLines(lines, eol)) == lines + [[]]
  {
    hide AllPlain, SplitLines, JoinLines;
    SplitJoined(lines, eol, []);
    EmptySplit();
    assert JoinLines(lines, eol) + [] == JoinLines(lines, eol);
  }

  lemma EmptySplit()
    ensures SplitLines([]) == [[]]
  {
  }

  // ----- Parsing -----

  function ParseLines(lines: Lines): map<Text, Text> {
    if lines == [] then map[]
    else
      var last := |lines| - 1;
      var parsed := ParseLines(lines[..last]);
      match SplitLine(lines[last])
      case None => parsed
      case Some(kv) => parsed[kv.key := kv.value]
  }

  function ParseText(text: Text): map<Text, Text> {
    ParseLines(SplitLines(text))
  }

  method ParseProperties(text: Text) returns (parsed: map<Text, Text>)
    ensures parsed == ParseText(text)
  {
    hide SplitLine, SplitLines;
    var lines := SplitLines(text);
    parsed := map[];
    for i := 0 to |lines|
      invariant parsed == ParseLines(lines[..i])
    {
      assert lines[..i + 1][..i] == lines[..i];
      var kv := SplitLine(lines[i]);
      if kv.Some? { parsed := parsed[kv.value.key := kv.value.value]; }
    }
    assert lines[..|lines|] == lines;
  }

  // ----- Updating -----

  predicate Names(line: Text, key: Text) {
    SplitLine(line).Some? && SplitLine(line).value.key == key
  }

  /** The key of a line, when it has one that is still to be updated. */
  predicate Wanted(line: Text, remaining: Updates) {
    SplitLine(line).Some? && SplitLine(line).value.key in remaining
  }

  /** The lines a wanted line becomes: its new text, or nothing. */
  function Rewritten(key: Text, value: Option<Text>): Lines {
    if value.None? then [] else [Render(key, value.value)]
  }

  /** Goes through the lines; only the first line of a key is rewritten. */
  function Rewrite(lines: Lines, remaining: Updates): (Lines, Updates) {
    if lines == [] then ([], remaining)
    else if Wanted(lines[0], remaining) then
      var key := SplitLine(lines[0]).value.key;
      var (out, left) := Rewrite(lines[1..], remaining - {key});
      (Rewritten(key, remaining[key]) + out, left)
    else
      var (out, left) := Rewrite(lines[1..], remaining);
      ([lines[0]] + out, left)
  }

  function DropTrailingEmpty(lines: Lines): Lines {
    if lines != [] && lines[|lines| - 1] == [] then DropTrailingEmpty(lines[..|lines| - 1]) else lines
  }

  /** New keys go to the end, in the order of the request. */
  function Added(order: seq<Text>, remaining: Updates): Lines {
    if order == [] then [] else AddedFor(order[0], remaining) + Added(order[1..], remaining)
  }

  /** The lines one requested key adds. */
  function AddedFor(key: Text, remaining: Updates): Lines {
    if key in remaining then Rewritten(key, remaining[key]) else []
  }

  function UpdatedLines(lines: Lines, updates: Updates, order: seq<Text>): Lines {
    var (out, remaining) := Rewrite(lines, updates);
    DropTrailingEmpty(out) + Added(order, remaining)
  }

  function LinesToUpdate(text: Text): Lines {
    if text == [] then [] else SplitLines(text)
  }

  function Eol(text: Text): Text {
    if HasReturnNewline(text) then RETURN_NEWLINE else NEWLINE
  }

  function Update(text: Text, updates: Updates, order: seq<Text>): Text {
    JoinLines(UpdatedLines(LinesToUpdate(text), updates, order), Eol(text))
  }

  /** The order in which the request lists its keys. */
  ghost predicate Lists(order: seq<Text>, updates: Updates) {
    && (forall i, j :: 0 <= i < j < |order| ==> order[i] != order[j])
    && (forall key :: key in order <==> key in updates)
  }

  lemma RewriteStep(lines: Lines, i: nat, remaining: Updates)
    requires i < |lines|
    ensures var rest := lines[i + 1..];
            Rewrite(lines[i..], remaining)
            == if Wanted(lines[i], remaining) then
                 var key := SplitLine(lines[i]).value.key;
                 var (out, left) := Rewrite(rest, remaining - {key});
                 (Rewritten(key, remaining[key]) + out, left)
               else ([lines[i]] + Rewrite(rest, remaining).0, Rewrite(rest, remaining).1)
  {
    hide SplitLine, Rewritten;
    assert lines[i..][1..] == lines[i + 1..];
  }

  lemma AddedStep(order: seq<Text>, i: nat, remaining: Updates)
    requires i < |order|
    ensures Added(order[i..], remaining)
            == (if order[i] in remaining then Rewritten(order[i], remaining[order[i]]) else [])
               + Added(order[i + 1..], remaining)
  {
    hide Rewritten;
    assert order[i..][1..] == order[i + 1..];
  }

  method UpdateProperties(text: Text, updates: Updates, order: seq<Text>) returns (result: Text)
    ensures result == Update(text, updates, order)
  {
    hide SplitLine, Render, Rewrite, Added, DropTrailingEmpty, LinesToUpdate, Eol, JoinLines;
    var eol, lines, remaining := Eol(text), LinesToUpdate(text), updates;
    var out: Lines := [];
    assert lines[0..] == lines;
    for i := 0 to |lines|
      invariant Rewrite(lines, updates).0 == out + Rewrite(lines[i..], remaining).0
      invariant Rewrite(lines, updates).1 == Rewrite(lines[i..], remaining).1
    {
      RewriteStep(lines, i, remaining);
      if Wanted(lines[i], remaining) {
        var key := SplitLine(lines[i]).value.key;
        var value := remaining[key];
        remaining := remaining - {key};
        if value.None? { continue; }
        out := out + [Render(key, value.value)];
      } else {
        out := out + [lines[i]];
      }
    }
    var none: Lines := lines[|lines|..];
    assert none == [] && out + none == out;
    RewriteEmpty(remaining);
    while out != [] && out[|out| - 1] == []
      invariant DropTrailingEmpty(out) == DropTrailingEmpty(Rewrite(lines, updates).0)
    {
      DropOne(out);
      out := out[..|out| - 1];
    }
    DropOne(out);
    assert order[0..] == order;
    for i := 0 to |order|
      invariant out + Added(order[i..], remaining) == UpdatedLines(lines, updates, order)
    {
      AddedStep(order, i, remaining);
      if order[i] in remaining && remaining[order[i]].Some? {
        out := out + [Render(order[i], remaining[order[i]].value)];
      }
    }
    var rest := order[|order|..];
    assert rest == [];
    AddedEmpty(remaining);
    assert out + Added(rest, remaining) == out;
    result := JoinLines(out, eol);
  }

  lemma RewriteEmpty(remaining: Updates)
    ensures Rewrite([], remaining) == ([], remaining)
  {
  }

  lemma AddedEmpty(remaining: Updates)
    ensures Added([], remaining) == []
  {
  }

  lemma DropOne(lines: Lines)
    ensures DropTrailingEmpty(lines)
            == if lines != [] && lines[|lines| - 1] == [] then DropTrailingEmpty(lines[..|lines| - 1]) else lines
  {
  }

  // ----- What a key is worth after an update -----

  /** The value the parser gives a key. */
  function Last(lines: Lines, key: Text): Option<Text> {
    if lines == [] then None
    else
      var later := Last(lines[1..], key);
      if later.Some? then later
      else if Names(lines[0], key) then Some(SplitLine(lines[0]).value.value)
      else None
  }

  function Occurrences(lines: Lines, key: Text): nat {
    if lines == [] then 0 else (if Names(lines[0], key) then 1 else 0) + Occurrences(lines[1..], key)
  }

  function Lookup(m: map<Text, Text>, key: Text): Option<Text> {
    if key in m then Some(m[key]) else None
  }

  lemma {:induction false} LastSnoc(lines: Lines, line: Text, key: Text)
    ensures Last(lines + [line], key)
            == if Names(line, key) then Some(SplitLine(line).value.value) else Last(lines, key)
  {
    hide Names, SplitLine;
    if lines == [] {
      assert [line][1..] == [];
    } else {
      LastSnoc(lines[1..], line, key);
      assert (lines + [line])[1..] == lines[1..] + [line];
    }
  }

  lemma ParseSnoc(lines: Lines, line: Text)
    ensures ParseLines(lines + [line])
            == match SplitLine(line)
               case None => ParseLines(lines)
               case Some(kv) => ParseLines(lines)[kv.key := kv.value]
  {
    hide SplitLine;
    assert (lines + [line])[..|lines|] == lines;
  }

  lemma {:induction false} ParseGivesLast(lines: Lines, key: Text)
    ensures Lookup(ParseLines(lines), key) == Last(lines, key)
  {
    hide SplitLine, Last, ParseLines;
    if lines == [] {
      NothingParsed(key);
    } else {
      var rest, line := lines[..|lines| - 1], lines[|lines| - 1];
      ParseGivesLast(rest, key);
      LastSnoc(rest, line, key);
      ParseSnoc(rest, line);
      assert lines == rest + [line];
    }
  }

  lemma NothingParsed(key: Text)
    ensures Lookup(ParseLines([]), key) == Last([], key)
  {
  }

  lemma {:induction false} LastConcat(a: Lines, b: Lines, key: Text)
    ensures Last(a + b, key) == if Last(b, key).Some? then Last(b, key) else Last(a, key)
  {
    hide Names, SplitLine;
    if a == [] {
      assert a + b == b;
    } else {
      LastConcat(a[1..], b, key);
      assert (a + b)[1..] == a[1..] + b;
    }
  }

  lemma LastOfRewritten(key: Text, value: Option<Text>, other: Text)
    ensures Last(Rewritten(key, value), other) == if other == key then value else None
  {
    if value.Some? {
      SplitInvertsRender(key, value.value);
      hide SplitLine, Render;
      assert Rewritten(key, value)[1..] == [];
    }
  }

  lemma {:induction false} LastMeansOccurs(lines: Lines, key: Text)
    ensures Last(lines, key).Some? <==> Occurrences(lines, key) > 0
  {
    hide Names, SplitLine;
    if lines != [] { LastMeansOccurs(lines[1..], key); }
  }

  /** What rewriting leaves of a key: nothing new to learn when it occurs twice or more. */
  function Outcome(lines: Lines, remaining: Updates, key: Text): Option<Text> {
    if key !in remaining || Occurrences(lines, key) >= 2 then Last(lines, key)
    else if Occurrences(lines, key) == 1 then remaining[key]
    else None
  }

  lemma {:induction false} RewriteOutcome(lines: Lines, remaining: Updates, key: Text)
    ensures var (out, left) := Rewrite(lines, remaining);
            && Last(out, key) == Outcome(lines, remaining, key)
            && (key in left <==> key in remaining && Occurrences(lines, key) == 0)
            && (key in left ==> left[key] == remaining[key])
  {
    if lines != [] {
      hide SplitLine, Rewritten, Last, Names;
      LastMeansOccurs(lines[1..], key);
      if Wanted(lines[0], remaining) {
        var k := SplitLine(lines[0]).value.key;
        var (out, left) := Rewrite(lines[1..], remaining - {k});
        RewriteOutcome(lines[1..], remaining - {k}, key);
        LastOfRewritten(k, remaining[k], key);
        LastConcat(Rewritten(k, remaining[k]), out, key);
        NamesItsKey(lines[0], key);
      } else {
        var (out, left) := Rewrite(lines[1..], remaining);
        RewriteOutcome(lines[1..], remaining, key);
        LastConcat([lines[0]], out, key);
        NamesItsKey(lines[0], key);
      }
    }
  }

  lemma NamesItsKey(line: Text, key: Text)
    ensures Names(line, key) <==> SplitLine(line).Some? && SplitLine(line).value.key == key
  {
  }

  lemma {:induction false} DropKeepsLast(lines: Lines, key: Text)
    ensures Last(DropTrailingEmpty(lines), key) == Last(lines, key)
  {
    if lines != [] && lines[|lines| - 1] == [] {
      DropKeepsLast(lines[..|lines| - 1], key);
      LastSnoc(lines[..|lines| - 1], [], key);
      assert lines == lines[..|lines| - 1] + [[]];
      assert !Names([], key);
    }
  }

  lemma LastOfAddedFor(key: Text, remaining: Updates, other: Text)
    ensures Last(AddedFor(key, remaining), other) == if other == key && key in remaining then remaining[key] else None
  {
    hide Rewritten, Names;
    if key in remaining { LastOfRewritten(key, remaining[key], other); }
  }

  lemma AddedFirst(order: seq<Text>, remaining: Updates)
    requires order != []
    ensures Added(order, remaining) == AddedFor(order[0], remaining) + Added(order[1..], remaining)
  {
    hide Rewritten;
  }

  lemma {:induction false} LastOfAdded(order: seq<Text>, remaining: Updates, key: Text)
    requires forall i, j :: 0 <= i < j < |order| ==> order[i] != order[j]
    ensures Last(Added(order, remaining), key)
            == if key in order && key in remaining then remaining[key] else None
  {
    hide Last, Added, AddedFor;
    if order == [] {
      AddedEmpty(remaining);
      NoneInNothing(key);
    } else {
      AddedFirst(order, remaining);
      LastOfAdded(order[1..], remaining, key);
      LastConcat(AddedFor(order[0], remaining), Added(order[1..], remaining), key);
      LastOfAddedFor(order[0], remaining, key);
      assert key in order <==> key == order[0] || key in order[1..];
    }
  }

  lemma NoneInNothing(key: Text)
    ensures Last([], key) == None
  {
  }

  /** The value of a key after an update, as far as the lines go. */
  function After(lines: Lines, updates: Updates, key: Text): Option<Text> {
    if key in updates && Occurrences(lines, key) <= 1 then updates[key] else Last(lines, key)
  }

  lemma UpdatedLinesOutcome(lines: Lines, updates: Updates, order: seq<Text>, key: Text)
    requires Lists(order, updates)
    ensures Last(UpdatedLines(lines, updates, order), key) == After(lines, updates, key)
  {
    hide Last, Rewrite, DropTrailingEmpty, Added, Occurrences;
    var (out, left) := Rewrite(lines, updates);
    RewriteOutcome(lines, updates, key);
    DropKeepsLast(out, key);
    LastOfAdded(order, left, key);
    LastConcat(DropTrailingEmpty(out), Added(order, left), key);
    LastMeansOccurs(lines, key);
  }

  // ----- Line breaks of the result -----

  /** The last line does not end in a carriage return that the added line feed would swallow. */
  predicate EndsCleanly(text: Text) {
    text == [] || text[|text| - 1] != CR || HasReturnNewline(text)
  }

  lemma {:induction false} SplitIsPlain(text: Text, eol: Text)
    requires eol == RETURN_NEWLINE || (!HasReturnNewline(text) && (text == [] || text[|text| - 1] != CR))
    ensures AllPlain(SplitLines(text), eol)
    decreases |text|
  {
    var i := LineEnd(text);
    if i < |text| {
      if eol == NEWLINE {
      }
      SplitIsPlain(text[i + 1..], eol);
      var lines := SplitLines(text[i + 1..]);
      assert Plain(ChopReturn(text[..i]), eol);
      assert SplitLines(text) == [ChopReturn(text[..i])] + lines;
    }
  }

  lemma {:induction false} EscapedIsPlain(s: Text)
    ensures forall i :: 0 <= i < |EscapeCommon(s)| ==> EscapeCommon(s)[i] != LF && EscapeCommon(s)[i] != CR
  {
    if s != [] {
      EscapedIsPlain(s[1..]);
      assert forall i :: 0 <= i < |EscapeOne(s[0])| ==> EscapeOne(s[0])[i] != LF && EscapeOne(s[0])[i] != CR;
      hide EscapeOne;
    }
  }

  lemma {:induction false} SpacesKeepPlain(s: Text)
    requires forall i :: 0 <= i < |s| ==> s[i] != LF && s[i] != CR
    ensures forall i :: 0 <= i < |EscapeSpaces(s)| ==> EscapeSpaces(s)[i] != LF && EscapeSpaces(s)[i] != CR
  {
    if s != [] { SpacesKeepPlain(s[1..]); }
  }

  lemma RenderIsPlain(key: Text, value: Text, eol: Text)
    ensures Plain(Render(key, value), eol) && Render(key, value) != []
  {
    EscapedIsPlain(key);
    SpacesKeepPlain(EscapeCommon(key));
    EscapedIsPlain(value);
    hide EscapeSpaces, EscapeCommon;
    assert forall i :: 0 <= i < |Render(key, value)| ==> Render(key, value)[i] != LF && Render(key, value)[i] != CR;
  }

  lemma RewrittenIsPlain(key: Text, value: Option<Text>, eol: Text)
    ensures AllPlain(Rewritten(key, value), eol)
  {
    hide Render, Plain;
    if value.Some? { RenderIsPlain(key, value.value, eol); }
  }

  lemma {:induction false} RewriteIsPlain(lines: Lines, remaining: Updates, eol: Text)
    requires AllPlain(lines, eol)
    ensures AllPlain(Rewrite(lines, remaining).0, eol)
  {
    hide Plain, Wanted, Rewritten;
    if lines != [] {
      if Wanted(lines[0], remaining) {
        WantedHasKey(lines[0], remaining);
        var key := SplitLine(lines[0]).value.key;
        RewriteIsPlain(lines[1..], remaining - {key}, eol);
        RewrittenIsPlain(key, remaining[key], eol);
      } else {
        RewriteIsPlain(lines[1..], remaining, eol);
      }
    }
  }

  lemma WantedHasKey(line: Text, remaining: Updates)
    ensures Wanted(line, remaining) ==> SplitLine(line).Some? && SplitLine(line).value.key in remaining
  {
  }

  lemma {:induction false} AddedIsPlain(order: seq<Text>, remaining: Updates, eol: Text)
    ensures AllPlain(Added(order, remaining), eol)
  {
    hide Plain, Rewritten;
    if order != [] {
      AddedIsPlain(order[1..], remaining, eol);
      if order[0] in remaining { RewrittenIsPlain(order[0], remaining[order[0]], eol); }
    }
  }

  lemma {:induction false} DropIsPrefix(lines: Lines)
    ensures DropTrailingEmpty(lines) <= lines
    ensures DropTrailingEmpty(lines) != [] ==> DropTrailingEmpty(lines)[|DropTrailingEmpty(lines)| - 1] != []
  {
    if lines != [] && lines[|lines| - 1] == [] { DropIsPrefix(lines[..|lines| - 1]); }
  }

  lemma LinesArePlain(text: Text)
    requires EndsCleanly(text)
    ensures AllPlain(LinesToUpdate(text), Eol(text))
  {
    hide HasReturnNewline, Plain, SplitLines;
    if text != [] { SplitIsPlain(text, Eol(text)); }
  }

  /** The first line of a key to be updated: it is rewritten or removed. */
  predicate Taken(before: Lines, line: Text, updates: Updates) {
    Wanted(line, updates) && Occurrences(before, SplitLine(line).value.key) == 0
  }

  function Front(text: Text): Lines {
    var lines := SplitLines(text);
    lines[..|lines| - 1]
  }

  function LastLine(text: Text): Text {
    var lines := SplitLines(text);
    lines[|lines| - 1]
  }

  /** The text ends in a carriage return that the update leaves where it is. */
  predicate KeepsReturn(text: Text, updates: Updates) {
    !EndsCleanly(text) && !Taken(Front(text), LastLine(text), updates)
  }

  lemma SplitStep(text: Text)
    requires LineEnd(text) < |text|
    ensures var i := LineEnd(text); SplitLines(text) == [ChopReturn(text[..i])] + SplitLines(text[i + 1..])
  {
    hide LineEnd, ChopReturn;
  }

  lemma FrontCons(text: Text, first: Text, rest: Text)
    requires SplitLines(text) == [first] + SplitLines(rest)
    ensures Front(text) == [first] + Front(rest) && LastLine(text) == LastLine(rest)
  {
    hide SplitLines;
    var lines := SplitLines(rest);
    assert ([first] + lines)[..|lines|] == [first] + lines[..|lines| - 1];
  }

  /** The first line of a text without CRLF, and what is behind it. */
  lemma FirstLineIsPlain(text: Text)
    requires !HasReturnNewline(text) && LineEnd(text) < |text|
    ensures Plain(ChopReturn(text[..LineEnd(text)]), NEWLINE) && !HasReturnNewline(text[LineEnd(text) + 1..])
  {
    var i := LineEnd(text);
    var rest := text[i + 1..];
    forall k | 0 <= k < |rest| - 1 ensures !(rest[k] == CR && rest[k + 1] == LF) {
      assert text[i + 1 + k] == rest[k] && text[i + 1 + k + 1] == rest[k + 1];
    }
  }

  lemma UncleanHasNoBreak(text: Text)
    requires !EndsCleanly(text)
    ensures !HasReturnNewline(text)
  {
  }

  lemma UncleanRest(text: Text)
    requires !EndsCleanly(text) && LineEnd(text) < |text|
    ensures !EndsCleanly(text[LineEnd(text) + 1..])
  {
    FirstLineIsPlain(text);
    hide HasReturnNewline, Plain, ChopReturn;
  }

  lemma UncleanLast(text: Text)
    requires !EndsCleanly(text) && LineEnd(text) == |text|
    ensures Front(text) == [] && LastLine(text) == text && text[|text| - 1] == CR && LF !in text
  {
    hide HasReturnNewline;
    assert SplitLines(text) == [text];
  }

  /** A text that does not end cleanly: plain lines, and a last one that ends in a carriage return. */
  lemma {:induction false} UncleanLines(text: Text)
    requires !EndsCleanly(text)
    ensures AllPlain(Front(text), NEWLINE)
    ensures LastLine(text) != [] && LastLine(text)[|LastLine(text)| - 1] == CR && LF !in LastLine(text)
    decreases |text|
  {
    var i := LineEnd(text);
    if i < |text| {
      UncleanRest(text);
      assert Plain(ChopReturn(text[..i]), NEWLINE) by { UncleanHasNoBreak(text); FirstLineIsPlain(text); }
      hide *;
      var line, rest := ChopReturn(text[..i]), text[i + 1..];
      SplitStep(text);
      FrontCons(text, line, rest);
      UncleanLines(rest);
      PlainCons(line, Front(rest));
    } else {
      UncleanLast(text);
    }
  }

  lemma PlainCons(line: Text, lines: Lines)
    requires Plain(line, NEWLINE) && AllPlain(lines, NEWLINE)
    ensures AllPlain([line] + lines, NEWLINE)
  {
    hide Plain;
  }

  lemma {:induction false} RewriteConcat(a: Lines, b: Lines, remaining: Updates)
    ensures var (out, left) := Rewrite(a, remaining);
            Rewrite(a + b, remaining) == (out + Rewrite(b, left).0, Rewrite(b, left).1)
  {
    hide SplitLine, Rewritten;
    if a == [] {
      assert a + b == b && [] + Rewrite(b, remaining).0 == Rewrite(b, remaining).0;
    } else {
      assert (a + b)[1..] == a[1..] + b;
      if Wanted(a[0], remaining) {
        var key := SplitLine(a[0]).value.key;
        var (out, left) := Rewrite(a[1..], remaining - {key});
        RewriteConcat(a[1..], b, remaining - {key});
        assert Rewritten(key, remaining[key]) + (out + Rewrite(b, left).0)
            == (Rewritten(key, remaining[key]) + out) + Rewrite(b, left).0;
      } else {
        var (out, left) := Rewrite(a[1..], remaining);
        RewriteConcat(a[1..], b, remaining);
        assert [a[0]] + (out + Rewrite(b, left).0) == ([a[0]] + out) + Rewrite(b, left).0;
      }
    }
  }

  /** What becomes of the last line. */
  lemma RewriteLast(before: Lines, line: Text, updates: Updates)
    ensures var (out, left) := Rewrite(before, updates);
            Rewrite(before + [line], updates)
            == if Taken(before, line, updates) then
                 var key := SplitLine(line).value.key; (out + Rewritten(key, updates[key]), left - {key})
               else (out + [line], left)
  {
    var (out, left) := Rewrite(before, updates);
    RewriteConcat(before, [line], updates);
    RewriteOne(line, left);
    if SplitLine(line).Some? { RewriteOutcome(before, updates, SplitLine(line).value.key); }
    hide Rewrite, Rewritten, Occurrences, SplitLine, Last;
    assert Wanted(line, left) <==> Taken(before, line, updates);
  }

  lemma RewriteOne(line: Text, left: Updates)
    ensures Rewrite([line], left)
            == if Wanted(line, left) then
                 var key := SplitLine(line).value.key; (Rewritten(key, left[key]), left - {key})
               else ([line], left)
  {
    hide SplitLine, Rewritten;
    var one: Lines := [line];
    assert one[1..] == [];
    if Wanted(line, left) {
      var key := SplitLine(line).value.key;
      RewriteEmpty(left - {key});
      assert Rewritten(key, left[key]) + [] == Rewritten(key, left[key]);
    } else {
      RewriteEmpty(left);
      assert one + [] == one;
    }
  }

  lemma FrontAndLast(text: Text)
    ensures SplitLines(text) == Front(text) + [LastLine(text)]
    ensures !EndsCleanly(text) ==> LinesToUpdate(text) == SplitLines(text) && Eol(text) == NEWLINE
  {
    hide HasReturnNewline;
  }

  lemma RewrittenTextIsPlain(text: Text, updates: Updates)
    requires !KeepsReturn(text, updates)
    ensures AllPlain(Rewrite(LinesToUpdate(text), updates).0, Eol(text))
  {
    hide Plain, Rewrite, HasReturnNewline, Rewritten, SplitLine, SplitLines;
    if EndsCleanly(text) {
      LinesArePlain(text);
      RewriteIsPlain(LinesToUpdate(text), updates, Eol(text));
    } else {
      UncleanLines(text);
      FrontAndLast(text);
      RewriteLast(Front(text), LastLine(text), updates);
      RewriteIsPlain(Front(text), updates, NEWLINE);
      var key := SplitLine(LastLine(text)).value.key;
      RewrittenIsPlain(key, updates[key], NEWLINE);
    }
  }

  lemma UpdatedIsPlain(text: Text, updates: Updates, order: seq<Text>)
    requires !KeepsReturn(text, updates)
    ensures AllPlain(UpdatedLines(LinesToUpdate(text), updates, order), Eol(text))
  {
    hide Plain, LinesToUpdate, Eol, KeepsReturn, Rewrite, Added, DropTrailingEmpty;
    var (out, left) := Rewrite(LinesToUpdate(text), updates);
    RewrittenTextIsPlain(text, updates);
    DropIsPrefix(out);
    AddedIsPlain(order, left, Eol(text));
  }

  /** The lines of the updated text are the updated lines, and the empty one after the last break. */
  lemma UpdatedText(text: Text, updates: Updates, order: seq<Text>)
    requires !KeepsReturn(text, updates)
    ensures SplitLines(Update(text, updates, order))
            == UpdatedLines(LinesToUpdate(text), updates, order) + [[]]
  {
    hide SplitLines, JoinLines, UpdatedLines, LinesToUpdate, HasReturnNewline, AllPlain, KeepsReturn;
    UpdatedIsPlain(text, updates, order);
    SplitInvertsJoin(UpdatedLines(LinesToUpdate(text), updates, order), Eol(text));
  }

  lemma ParseOfLinesToUpdate(text: Text, key: Text)
    ensures Last(LinesToUpdate(text), key) == Lookup(ParseText(text), key)
    ensures Occurrences(LinesToUpdate(text), key) == Occurrences(SplitLines(text), key)
  {
    hide SplitLine, ParseLines;
    ParseGivesLast(SplitLines(text), key);
    if text == [] {
      hide SplitLines;
      EmptySplit();
      assert !Names([], key) by { EmptyHasNoKey(key); }
      var one: Lines := [[]];
      assert one[1..] == [];
    }
  }

  lemma EmptyHasNoKey(key: Text)
    ensures !Names([], key)
  {
  }

  // ----- The specification of an update -----

  /** The map with the updates applied: `None` removes. */
  function Applied(parsed: map<Text, Text>, updates: Updates): map<Text, Text> {
    map key | key in parsed.Keys + updates.Keys && (key in updates ==> updates[key].Some?)
      :: if key in updates then updates[key].value else parsed[key]
  }

  lemma LookupApplied(parsed: map<Text, Text>, updates: Updates, key: Text)
    ensures Lookup(Applied(parsed, updates), key) == if key in updates then updates[key] else Lookup(parsed, key)
  {
  }

  lemma MapsAgree(a: map<Text, Text>, b: map<Text, Text>)
    ensures a == b <==> forall key :: Lookup(a, key) == Lookup(b, key)
  {
    if forall key :: Lookup(a, key) == Lookup(b, key) {
      forall key ensures key in a <==> key in b ensures key in a ==> a[key] == b[key] {
        assert Lookup(a, key) == Lookup(b, key);
      }
    }
  }
}
