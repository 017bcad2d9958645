/**
 * The agent's console buffer: a growing array with a moving head, and the proof that what it shows
 * is the longest suffix of everything pushed that fits the two bounds.
 */
module Console {
  import opened Options
  import opened Properties

  datatype Line = Line(number: nat, text: Text)

  type Lines = seq<Line>

  // ----- Sizes -----

  predicate IsHighSurrogate(c: Code) { 0xD800 <= c <= 0xDBFF }

  predicate IsLowSurrogate(c: Code) { 0xDC00 <= c <= 0xDFFF }

  /** Bytes of the UTF-8 encoding; an unpaired surrogate is written as U+FFFD. */
  function ByteLength(text: Text): nat {
    if text == [] then 0
    else if |text| >= 2 && IsHighSurrogate(text[0]) && IsLowSurrogate(text[1]) then 4 + ByteLength(text[2..])
    else (if text[0] < 0x80 then 1 else if text[0] < 0x800 then 2 else 3) + ByteLength(text[1..])
  }

  function Bytes(lines: Lines): nat {
    if lines == [] then 0 else ByteLength(lines[0].text) + Bytes(lines[1..])
  }

  lemma {:induction false} BytesConcat(a: Lines, b: Lines)
    ensures Bytes(a + b) == Bytes(a) + Bytes(b)
  {
    hide ByteLength;
    if a == [] {
      assert a + b == b;
    } else {
      BytesConcat(a[1..], b);
      assert (a + b)[1..] == a[1..] + b;
    }
  }

  // ----- The specification: the longest suffix within both bounds -----

  datatype Limits = Limits(maxLines: nat, maxBytes: nat)

  const DEFAULTS: Limits := Limits(5000, 2 * 1024 * 1024)

  predicate Fits(lines: Lines, limits: Limits) {
    |lines| <= limits.maxLines && Bytes(lines) <= limits.maxBytes
  }

  function Retained(lines: Lines, limits: Limits): Lines {
    if Fits(lines, limits) then lines
    else if lines == [] then []
    else Retained(lines[1..], limits)
  }

  lemma RetainedUnfold(lines: Lines, limits: Limits)
    ensures Retained(lines, limits)
            == if Fits(lines, limits) then lines else if lines == [] then [] else Retained(lines[1..], limits)
  {
    hide Fits;
  }

  lemma {:induction false} RetainedIsSuffix(lines: Lines, limits: Limits)
    ensures var kept := Retained(lines, limits); |kept| <= |lines| && kept == lines[|lines| - |kept|..]
  {
    RetainedUnfold(lines, limits);
    hide Retained, Fits;
    if lines != [] && !Fits(lines, limits) {
      RetainedIsSuffix(lines[1..], limits);
      var n := |lines| - |Retained(lines[1..], limits)|;
      assert lines[1..][n - 1..] == lines[n..];
    } else {
      assert lines[0..] == lines;
    }
  }

  /** It fits, and no longer suffix does. */
  lemma {:induction false} RetainedIsLongest(lines: Lines, limits: Limits, k: nat)
    requires k <= |lines|
    ensures Fits(Retained(lines, limits), limits)
    ensures Fits(lines[k..], limits) ==> |lines[k..]| <= |Retained(lines, limits)|
    decreases |lines|
  {
    RetainedUnfold(lines, limits);
    FitsIs(lines, limits);
    hide Retained, Fits;
    if !Fits(lines, limits) && lines != [] {
      var m := if k > 0 then k - 1 else 0;
      RetainedIsLongest(lines[1..], limits, m);
      assert k > 0 ==> lines[1..][m..] == lines[k..];
      assert lines[0..] == lines;
    }
  }

  /** Lines that were already dropped would be dropped again. */
  lemma {:induction false} RetainedStep(lines: Lines, x: Line, limits: Limits)
    ensures Retained(lines + [x], limits) == Retained(Retained(lines, limits) + [x], limits)
  {
    hide Retained, Fits;
    RetainedUnfold(lines, limits);
    if !Fits(lines, limits) && lines != [] {
      PrefixFits(lines, x, limits);
      RetainedUnfold(lines + [x], limits);
      RetainedStep(lines[1..], x, limits);
      assert (lines + [x])[1..] == lines[1..] + [x];
    }
  }

  lemma PrefixFits(lines: Lines, x: Line, limits: Limits)
    ensures Fits(lines + [x], limits) ==> Fits(lines, limits)
  {
    BytesConcat(lines, [x]);
  }

  // ----- Reading -----

  /** The lines numbered above `n`. */
  function Above(lines: Lines, n: nat): Lines {
    if lines == [] then []
    else (if lines[0].number > n then [lines[0]] else []) + Above(lines[1..], n)
  }

  /** Each line carries the number after the previous one's. */
  predicate Consecutive(lines: Lines) {
    forall i :: 0 <= i < |lines| - 1 ==> lines[i + 1].number == lines[i].number + 1
  }

  lemma {:induction false} ConsecutiveAt(lines: Lines, i: nat)
    requires Consecutive(lines) && i < |lines|
    ensures lines[i].number == lines[0].number + i
  {
    if i > 0 { ConsecutiveAt(lines, i - 1); }
  }

  /** How many of consecutive lines are numbered `n` or less. */
  function SplitPoint(lines: Lines, n: nat): (k: nat)
    ensures k <= |lines|
  {
    if lines == [] || n < lines[0].number then 0
    else if n - lines[0].number >= |lines| then |lines|
    else n - lines[0].number + 1
  }

  lemma ConsecutiveTail(lines: Lines, k: nat)
    requires Consecutive(lines) && k <= |lines|
    ensures Consecutive(lines[k..])
  {
    var rest := lines[k..];
    forall i | 0 <= i < |rest| - 1 ensures rest[i + 1].number == rest[i].number + 1 {
      assert lines[k + i + 1].number == lines[k + i].number + 1;
    }
  }

  lemma AboveUnfold(lines: Lines, n: nat)
    ensures Above(lines, n)
            == if lines == [] then []
               else if lines[0].number > n then [lines[0]] + Above(lines[1..], n) else Above(lines[1..], n)
  {
  }

  /** Of consecutive lines, those above `n` are a suffix. */
  lemma {:induction false} AboveIsSuffix(lines: Lines, n: nat)
    requires Consecutive(lines)
    ensures Above(lines, n) == lines[SplitPoint(lines, n)..]
  {
    hide Above;
    AboveUnfold(lines, n);
    if lines != [] {
      var rest := lines[1..];
      ConsecutiveTail(lines, 1);
      AboveIsSuffix(rest, n);
      if rest != [] { assert lines[0 + 1].number == lines[0].number + 1; }
      hide Consecutive;
      var k := SplitPoint(rest, n);
      if lines[0].number > n {
        assert [lines[0]] + rest == lines;
      } else {
        assert rest[k..] == lines[k + 1..];
      }
    }
  }

  /** What `since` answers. */
  datatype Answer = Answer(lines: Lines, truncated: bool)

  function Since(lines: Lines, since: Option<nat>): Answer {
    match since
    case None => Answer(lines, false)
    case Some(n) => Answer(Above(lines, n), lines != [] && n + 1 < lines[0].number)
  }

  /** Some line carries the number `m`. */
  predicate Carries(lines: Lines, m: nat) {
    exists i :: 0 <= i < |lines| && lines[i].number == m
  }

  /** A number above `n`, and at most that of the last line pushed, is carried by no line of `kept`. */
  predicate Missing(pushed: Lines, kept: Lines, n: nat) {
    pushed != [] && exists m :: n < m <= pushed[|pushed| - 1].number && !Carries(kept, m)
  }

  lemma CarriesIs(lines: Lines, m: nat)
    requires Consecutive(lines) && lines != []
    ensures Carries(lines, m) <==> lines[0].number <= m < lines[0].number + |lines|
  {
    forall i | 0 <= i < |lines| ensures lines[i].number == lines[0].number + i { ConsecutiveAt(lines, i); }
    hide Consecutive;
    if lines[0].number <= m < lines[0].number + |lines| {
      assert lines[m - lines[0].number].number == m;
    }
  }

  lemma MissingIs(pushed: Lines, start: nat, n: nat)
    requires Consecutive(pushed) && start < |pushed|
    ensures Missing(pushed, pushed[start..], n) <==> n + 1 < pushed[start].number
  {
    var kept := pushed[start..];
    ConsecutiveTail(pushed, start);
    ConsecutiveAt(kept, |kept| - 1);
    forall m: nat ensures Carries(kept, m) <==> kept[0].number <= m < kept[0].number + |kept| { CarriesIs(kept, m); }
    hide Consecutive, Carries;
    if n + 1 < kept[0].number { assert !Carries(kept, n + 1); }
  }

  lemma AboveContinues(kept: Lines, n: nat)
    requires Consecutive(kept) && kept != [] && kept[0].number <= n + 1
    ensures Consecutive(Above(kept, n)) && (Above(kept, n) != [] ==> Above(kept, n)[0].number == n + 1)
  {
    AboveIsSuffix(kept, n);
    var k := SplitPoint(kept, n);
    ConsecutiveTail(kept, k);
    if k < |kept| { ConsecutiveAt(kept, k); }
    hide Above, Consecutive;
  }

  /**
   * For lines pushed with consecutive numbers and a reader that has seen up to `n`, however far behind,
   * the answer is exactly the retained lines above `n`. While something is retained the flag is exact,
   * and an answer without the flag continues the reader's numbers without a gap.
   */
  lemma SinceIsExact(pushed: Lines, limits: Limits, n: nat)
    requires Consecutive(pushed)
    ensures var kept := Retained(pushed, limits);
            var answer := Since(kept, Some(n));
            && (forall line :: line in answer.lines <==> line in kept && line.number > n)
            && (kept != [] ==> (answer.truncated <==> Missing(pushed, kept, n)))
            && (!answer.truncated && answer.lines != []
                ==> answer.lines[0].number == n + 1 && Consecutive(answer.lines))
  {
    var kept := Retained(pushed, limits);
    RetainedIsSuffix(pushed, limits);
    var start := |pushed| - |kept|;
    hide Retained;
    ConsecutiveTail(pushed, start);
    AboveMembers(kept, n);
    if kept != [] {
      MissingIs(pushed, start, n);
      hide Above, Consecutive, Missing;
      if kept[0].number <= n + 1 { AboveContinues(kept, n); }
    }
  }

  lemma {:induction false} AboveMembers(lines: Lines, n: nat)
    ensures forall line :: line in Above(lines, n) <==> line in lines && line.number > n
  {
    if lines != [] {
      AboveMembers(lines[1..], n);
      assert lines == [lines[0]] + lines[1..];
    }
  }

  lemma LastLineFits(kept: Lines, limits: Limits)
    requires kept != [] && Fits(kept, limits)
    ensures ByteLength(kept[|kept| - 1].text) <= limits.maxBytes
  {
    FitsIs(kept, limits);
    hide Fits, Bytes, ByteLength;
    var rest, line := kept[..|kept| - 1], kept[|kept| - 1];
    assert kept == rest + [line];
    BytesConcat(rest, [line]);
    BytesOne(line);
  }

  lemma NothingSince(n: nat)
    ensures Since([], Some(n)) == Answer([], false)
  {
  }

  /** Nothing is retained exactly when the last line pushed does not fit on its own. */
  lemma {:induction false} EmptiedExactly(pushed: Lines, limits: Limits)
    requires pushed != []
    ensures Retained(pushed, limits) == []
            <==> limits.maxLines == 0 || ByteLength(pushed[|pushed| - 1].text) > limits.maxBytes
  {
    var kept := Retained(pushed, limits);
    var k := |pushed| - 1;
    var last: Lines := pushed[k..];
    RetainedIsLongest(pushed, limits, k);
    RetainedIsSuffix(pushed, limits);
    FitsIs(last, limits);
    FitsIs(kept, limits);
    hide Retained, Fits, Bytes, ByteLength;
    assert last == [pushed[k]];
    BytesOne(pushed[k]);
    if kept != [] {
      assert kept[|kept| - 1] == pushed[k];
      LastLineFits(kept, limits);
    }
  }

  /**
   * When the flag can be trusted, for every reader: exactly when the last line pushed fits the bounds
   * on its own, or the reader has it already. A larger line empties the buffer, and an empty buffer
   * never says that anything is missing.
   */
  lemma FlagIsExact(pushed: Lines, limits: Limits, n: nat)
    requires Consecutive(pushed) && pushed != []
    ensures var kept, last := Retained(pushed, limits), pushed[|pushed| - 1];
            (Since(kept, Some(n)).truncated <==> Missing(pushed, kept, n))
            <==> (0 < limits.maxLines && ByteLength(last.text) <= limits.maxBytes) || last.number <= n
  {
    var kept, last := Retained(pushed, limits), pushed[|pushed| - 1];
    EmptiedExactly(pushed, limits);
    SinceIsExact(pushed, limits, n);
    NothingSince(n);
    hide Retained, ByteLength, Consecutive, Since;
    if kept == [] {
      assert !Carries(kept, last.number);
    }
  }

  lemma BytesOne(line: Line)
    ensures Bytes([line]) == ByteLength(line.text)
  {
    hide ByteLength;
    var one: Lines := [line];
    assert one[1..] == [];
  }

  // ----- The buffer itself -----

  class ConsoleBuffer {
    var lines: Lines
    var head: nat
    var bytes: nat
    const limits: Limits
    ghost var pushed: Lines

    ghost function Contents(): Lines
      reads this
      requires head <= |lines|
    {
      lines[head..]
    }

    ghost predicate Valid()
      reads this
    {
      && head <= |lines|
      && Contents() == Retained(pushed, limits)
      && bytes == Bytes(Contents())
      && (|lines| <= 2 * limits.maxLines || |lines| <= limits.maxLines + 1024)
    }

    constructor (limits: Limits)
      ensures Valid() && pushed == [] && this.limits == limits
    {
      lines, head, bytes, pushed := [], 0, 0, [];
      this.limits := limits;
    }

    /** Drops lines at the head until both bounds hold. */
    method Evict()
      requires head <= |lines| && bytes == Bytes(Contents())
      modifies this`head, this`bytes
      ensures head <= |lines| && bytes == Bytes(Contents())
      ensures Contents() == Retained(old(Contents()), limits)
      ensures |lines| - head <= limits.maxLines
    {
      hide Retained, Bytes, Fits;
      ghost var all := lines[head..];
      while |lines| - head > 0 && (|lines| - head > limits.maxLines || bytes > limits.maxBytes)
        invariant head <= |lines|
        invariant bytes == Bytes(lines[head..])
        invariant Retained(lines[head..], limits) == Retained(all, limits)
        decreases |lines| - head
      {
        EvictOne(lines, head, limits);
        bytes := bytes - ByteLength(lines[head].text);
        head := head + 1;
      }
      RetainedUnfold(lines[head..], limits);
      FitsIs(lines[head..], limits);
    }

    /** Eviction and compaction change nothing but what the specification drops. */
    method Push(line: Line)
      requires Valid()
      modifies this
      ensures Valid() && pushed == old(pushed) + [line]
    {
      hide ByteLength, Retained, Bytes;
      RetainedStep(pushed, line, limits);
      BytesConcat(lines[head..], [line]);
      BytesOne(line);
      assert (lines + [line])[head..] == lines[head..] + [line];
      pushed := pushed + [line];
      lines := lines + [line];
      bytes := bytes + ByteLength(line.text);
      Evict();
      if head > 1024 && 2 * head > |lines| {
        lines := lines[head..];
        head := 0;
        assert lines[0..] == lines;
      }
    }

    method SinceLine(since: Option<nat>) returns (answer: Answer)
      requires Valid()
      ensures answer == Since(Contents(), since)
      ensures since.None? ==> answer == Answer(Contents(), false)
    {
      hide Above, Retained, Bytes;
      var all := lines[head..];
      if since.None? { return Answer(all, false); }
      var n := since.value;
      var truncated := all != [] && n + 1 < all[0].number;
      var above: Lines := [];
      assert all[0..] == all;
      for i := 0 to |all|
        invariant Above(all, n) == above + Above(all[i..], n)
      {
        AboveUnfold(all[i..], n);
        assert all[i..][1..] == all[i + 1..];
        if all[i].number > n { above := above + [all[i]]; }
      }
      AboveUnfold(all[|all|..], n);
      assert above + [] == above;
      return Answer(above, truncated);
    }

    method Clear()
      requires Valid()
      modifies this
      ensures Valid() && pushed == []
    {
      hide ByteLength;
      lines, head, bytes, pushed := [], 0, 0, [];
    }
  }

  lemma EvictOne(lines: Lines, head: nat, limits: Limits)
    requires head < |lines|
    ensures Bytes(lines[head..]) == ByteLength(lines[head].text) + Bytes(lines[head + 1..])
    ensures |lines| - head > limits.maxLines || Bytes(lines[head..]) > limits.maxBytes
            ==> Retained(lines[head..], limits) == Retained(lines[head + 1..], limits)
  {
    hide ByteLength;
    assert lines[head..][1..] == lines[head + 1..];
    RetainedUnfold(lines[head..], limits);
    hide Retained;
  }

  lemma FitsIs(lines: Lines, limits: Limits)
    ensures Fits(lines, limits) <==> |lines| <= limits.maxLines && Bytes(lines) <= limits.maxBytes
    ensures Bytes([]) == 0
  {
  }
}
