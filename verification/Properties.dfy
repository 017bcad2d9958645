/**
 * Lines of a `server.properties` file: escaping, splitting a line into key and value, and the proof
 * that writing a pair and reading the line gives the pair back, for every UTF-16 key and value.
 *
 * Texts are sequences of UTF-16 code units. Unescaping and escaping are recursive functions, and the
 * loops over indices and code points are proved equal to them.
 */
module Properties {
  import opened Options

  /** A UTF-16 code unit; strings may hold unpaired surrogates. */
  type Code = c: int | 0 <= c < 0x1_0000

  type Text = seq<Code>

  const TAB: Code := 9
  const LF: Code := 10
  const FF: Code := 12
  const CR: Code := 13
  const SPACE: Code := 32
  const BANG: Code := 33
  const HASH: Code := 35
  const COLON: Code := 58
  const EQUALS: Code := 61
  const BACKSLASH: Code := 92
  const LOWER_F: Code := 102
  const LOWER_N: Code := 110
  const LOWER_R: Code := 114
  const LOWER_T: Code := 116
  const LOWER_U: Code := 117

  /** The characters of `\s` in a JavaScript regular expression. */
  predicate IsSpace(c: Code) {
    9 <= c <= 13 || c == 32 || c == 0xA0 || c == 0x1680 || 0x2000 <= c <= 0x200A
    || c == 0x2028 || c == 0x2029 || c == 0x202F || c == 0x205F || c == 0x3000 || c == 0xFEFF
  }

  // ----- Hexadecimal -----

  predicate IsHex(c: Code) {
    48 <= c <= 57 || 65 <= c <= 70 || 97 <= c <= 102
  }

  function HexValue(c: Code): (v: int)
    requires IsHex(c)
    ensures 0 <= v < 16
  {
    if c <= 57 then c - 48 else if c <= 70 then c - 55 else c - 87
  }

  function HexDigit(v: int): (c: Code)
    requires 0 <= v < 16
    ensures IsHex(c) && HexValue(c) == v && c != SPACE
  {
    if v < 10 then v + 48 else v + 87
  }

  function Hex4(c: Code): Text {
    [HexDigit(c / 16 / 16 / 16), HexDigit(c / 16 / 16 % 16), HexDigit(c / 16 % 16), HexDigit(c % 16)]
  }

  function FromHex4(h: Text): Code
    requires |h| == 4 && forall i :: 0 <= i < 4 ==> IsHex(h[i])
  {
    HexValue(h[0]) * 4096 + HexValue(h[1]) * 256 + HexValue(h[2]) * 16 + HexValue(h[3])
  }

  predicate IsHex4(h: Text) {
    |h| == 4 && forall i :: 0 <= i < 4 ==> IsHex(h[i])
  }

  // ----- Reading -----

  /** What an escape `\n`, `\t`… stands for; any other character stands for itself. */
  function Meaning(n: Code): Code {
    if n == LOWER_N then LF
    else if n == LOWER_T then TAB
    else if n == LOWER_R then CR
    else if n == LOWER_F then FF
    else n
  }

  /** Reads one character: what it gives and how many units it takes. */
  function UnescapeOne(raw: Text): (Text, nat)
    requires raw != []
    ensures 1 <= UnescapeOne(raw).1 <= |raw|
  {
    if raw[0] != BACKSLASH then ([raw[0]], 1)
    else if |raw| == 1 then ([], 1)
    else if raw[1] == LOWER_U && |raw| >= 6 && IsHex4(raw[2..6]) then ([FromHex4(raw[2..6])], 6)
    else ([Meaning(raw[1])], 2)
  }

  function Unescape(raw: Text): Text {
    if raw == [] then []
    else
      var (out, used) := UnescapeOne(raw);
      out + Unescape(raw[used..])
  }

  function DropWhile(s: Text, p: Code -> bool): (rest: Text)
    ensures |rest| <= |s|
  {
    if s == [] || !p(s[0]) then s else DropWhile(s[1..], p)
  }

  predicate IsBlank(c: Code) { c == SPACE || c == TAB }

  predicate IsDelimiter(c: Code) { c == EQUALS || c == COLON || IsBlank(c) }

  /** The raw key at the start of a line, escapes still in it, and what follows it. */
  function ScanKey(s: Text): (Text, Text) {
    if s == [] || IsDelimiter(s[0]) then ([], s)
    else if s[0] == BACKSLASH then
      var taken := if |s| == 1 then 1 else 2;
      var (key, rest) := ScanKey(s[taken..]);
      (s[..taken] + key, rest)
    else
      var (key, rest) := ScanKey(s[1..]);
      ([s[0]] + key, rest)
  }

  datatype Pair = Pair(key: Text, value: Text)

  function SplitLine(line: Text): Option<Pair> {
    var trimmed := DropWhile(line, IsSpace);
    if trimmed == [] || trimmed[0] == HASH || trimmed[0] == BANG then None
    else
      var (key, after) := ScanKey(trimmed);
      var rest := DropWhile(after, IsBlank);
      var value :=
        if rest != [] && (rest[0] == EQUALS || rest[0] == COLON) then DropWhile(rest[1..], IsBlank) else rest;
      Some(Pair(Unescape(key), Unescape(value)))
  }

  // ----- Writing -----

  function EscapeOne(c: Code): Text {
    if c == BACKSLASH || c == EQUALS || c == COLON || c == HASH || c == BANG then [BACKSLASH, c]
    else if c == LF then [BACKSLASH, LOWER_N]
    else if c == CR then [BACKSLASH, LOWER_R]
    else if c == TAB then [BACKSLASH, LOWER_T]
    else if c == FF then [BACKSLASH, LOWER_F]
    else if c < 0x20 || c > 0x7E then [BACKSLASH, LOWER_U] + Hex4(c)
    else [c]
  }

  function EscapeCommon(s: Text): Text {
    if s == [] then [] else EscapeOne(s[0]) + EscapeCommon(s[1..])
  }

  function EscapeSpaces(s: Text): Text {
    if s == [] then []
    else EscapeSpace(s[0]) + EscapeSpaces(s[1..])
  }

  function EscapeKey(key: Text): Text {
    EscapeSpaces(EscapeCommon(key))
  }

  function EscapeValue(value: Text): Text {
    var common := EscapeCommon(value);
    if common != [] && common[0] == SPACE then [BACKSLASH] + common else common
  }

  function Render(key: Text, value: Text): Text {
    EscapeKey(key) + [EQUALS] + EscapeValue(value)
  }

  // ----- One character -----

  lemma ReadsBackOne(c: Code, rest: Text)
    ensures Unescape(EscapeOne(c) + rest) == [c] + Unescape(rest)
  {
    var e := EscapeOne(c);
    var raw := e + rest;
    if |e| == 6 { assert raw[2..6] == Hex4(c); }
    assert UnescapeOne(raw) == ([c], |e|);
    assert raw[|e|..] == rest;
  }

  lemma {:induction false} ReadsBack(s: Text)
    ensures Unescape(EscapeCommon(s)) == s
  {
    if s != [] {
      hide Unescape;
      ReadsBackOne(s[0], EscapeCommon(s[1..]));
      ReadsBack(s[1..]);
    } else {
      assert Unescape([]) == [];
    }
  }

  /** A space may also be escaped. */
  function EscapeOneKey(c: Code): Text {
    if c == SPACE then [BACKSLASH, SPACE] else EscapeOne(c)
  }

  function EscapeSpace(c: Code): Text {
    if c == SPACE then [BACKSLASH, SPACE] else [c]
  }

  lemma {:induction false} EscapeSpacesConcat(a: Text, b: Text)
    ensures EscapeSpaces(a + b) == EscapeSpaces(a) + EscapeSpaces(b)
  {
    hide EscapeSpace;
    if a == [] {
      assert a + b == b;
    } else {
      EscapeSpacesConcat(a[1..], b);
      assert (a + b)[1..] == a[1..] + b;
    }
  }

  lemma {:induction false} NoSpacesToEscape(s: Text)
    requires forall i :: 0 <= i < |s| ==> s[i] != SPACE
    ensures EscapeSpaces(s) == s
  {
    if s != [] { NoSpacesToEscape(s[1..]); }
  }

  lemma EscapeSpacesOne(c: Code)
    ensures EscapeSpaces(EscapeOne(c)) == EscapeOneKey(c)
  {
    if c == SPACE {
      assert EscapeOne(c)[1..] == [];
    } else {
      NoSpacesToEscape(EscapeOne(c));
    }
  }

  lemma EscapeKeyUnfold(key: Text)
    requires key != []
    ensures EscapeKey(key) == EscapeOneKey(key[0]) + EscapeKey(key[1..])
  {
    EscapeSpacesConcat(EscapeOne(key[0]), EscapeCommon(key[1..]));
    EscapeSpacesOne(key[0]);
  }

  lemma ReadsBackOneKey(c: Code, rest: Text)
    ensures Unescape(EscapeOneKey(c) + rest) == [c] + Unescape(rest)
  {
    if c == SPACE {
      var raw := EscapeOneKey(c) + rest;
      assert raw[2..] == rest && UnescapeOne(raw) == ([SPACE], 2);
    } else {
      ReadsBackOne(c, rest);
    }
  }

  lemma {:induction false} KeyReadsBack(key: Text)
    ensures Unescape(EscapeKey(key)) == key
  {
    if key != [] {
      hide Unescape, EscapeKey, EscapeOneKey;
      EscapeKeyUnfold(key);
      ReadsBackOneKey(key[0], EscapeKey(key[1..]));
      KeyReadsBack(key[1..]);
    } else {
      assert Unescape([]) == [];
    }
  }

  lemma ValueReadsBack(value: Text)
    ensures Unescape(EscapeValue(value)) == value
  {
    ReadsBack(value);
    var common := EscapeCommon(value);
    if common != [] && common[0] == SPACE {
      var raw := [BACKSLASH] + common;
      assert UnescapeOne(raw) == ([SPACE], 2) && raw[2..] == common[1..];
      assert UnescapeOne(common) == ([SPACE], 1);
    }
  }

  // ----- One line -----

  /** Adds text in front of the key of a scan. */
  function Before(s: Text, scan: (Text, Text)): (Text, Text) {
    (s + scan.0, scan.1)
  }

  lemma BeforeBefore(a: Text, b: Text, scan: (Text, Text))
    ensures Before(a, Before(b, scan)) == Before(a + b, scan)
    ensures Before([], scan) == scan
  {
    assert a + (b + scan.0) == (a + b) + scan.0;
    assert [] + scan.0 == scan.0;
  }

  lemma {:induction false} ScanPlain(s: Text, rest: Text)
    requires forall i :: 0 <= i < |s| ==> s[i] != BACKSLASH && !IsDelimiter(s[i])
    ensures ScanKey(s + rest) == Before(s, ScanKey(rest))
  {
    if s == [] {
      assert s + rest == rest;
      BeforeBefore([], [], ScanKey(rest));
    } else {
      ScanPlain(s[1..], rest);
      assert (s + rest)[1..] == s[1..] + rest;
      assert s == [s[0]] + s[1..];
      BeforeBefore([s[0]], s[1..], ScanKey(rest));
    }
  }

  lemma ScanBackslash(raw: Text)
    requires |raw| >= 2 && raw[0] == BACKSLASH
    ensures ScanKey(raw) == Before(raw[..2], ScanKey(raw[2..]))
  {
  }

  lemma ScanEscape(e: Text, rest: Text)
    requires |e| >= 2 && e[0] == BACKSLASH
    requires forall i :: 2 <= i < |e| ==> e[i] != BACKSLASH && !IsDelimiter(e[i])
    ensures ScanKey(e + rest) == Before(e, ScanKey(rest))
  {
    hide ScanKey, Before;
    var raw := e + rest;
    assert raw[2..] == e[2..] + rest && raw[..2] == e[..2];
    ScanBackslash(raw);
    ScanPlain(e[2..], rest);
    assert e == e[..2] + e[2..];
    BeforeBefore(e[..2], e[2..], ScanKey(rest));
  }

  lemma ScanOneKey(c: Code, rest: Text)
    ensures ScanKey(EscapeOneKey(c) + rest) == Before(EscapeOneKey(c), ScanKey(rest))
  {
    hide ScanKey, Before;
    if |EscapeOneKey(c)| == 1 {
      ScanPlain(EscapeOneKey(c), rest);
    } else {
      ScanEscape(EscapeOneKey(c), rest);
    }
  }

  lemma ScanEmptyKey(rest: Text)
    requires rest != [] && IsDelimiter(rest[0])
    ensures ScanKey(EscapeKey([]) + rest) == Before(EscapeKey([]), ([], rest))
  {
    assert EscapeKey([]) == [] && EscapeKey([]) + rest == rest;
    assert EscapeKey([]) + [] == [];
  }

  lemma {:induction false} ScanEscapedKey(key: Text, rest: Text)
    requires rest != [] && IsDelimiter(rest[0])
    ensures ScanKey(EscapeKey(key) + rest) == Before(EscapeKey(key), ([], rest))
  {
    hide EscapeKey, EscapeOneKey, ScanKey, Before, IsDelimiter;
    if key == [] {
      ScanEmptyKey(rest);
    } else {
      var one, others := EscapeOneKey(key[0]), EscapeKey(key[1..]);
      EscapeKeyUnfold(key);
      ScanEscapedKey(key[1..], rest);
      ScanOneKey(key[0], others + rest);
      BeforeBefore(one, others, ([], rest));
      assert EscapeKey(key) + rest == one + (others + rest);
    }
  }

  /** An escaped key never starts like a comment or with anything that would be trimmed. */
  lemma KeyStartsPlain(key: Text)
    ensures EscapeKey(key) != [] ==>
              !IsSpace(EscapeKey(key)[0]) && EscapeKey(key)[0] != HASH && EscapeKey(key)[0] != BANG
  {
    if key != [] {
      EscapeKeyUnfold(key);
      OneStartsPlain(key[0]);
    }
    hide EscapeOneKey, IsSpace;
  }

  lemma OneStartsPlain(c: Code)
    ensures var e := EscapeOneKey(c); e != [] && !IsSpace(e[0]) && e[0] != HASH && e[0] != BANG
  {
    hide Hex4;
  }

  lemma ValueStartsPlain(value: Text)
    ensures EscapeValue(value) != [] ==> !IsBlank(EscapeValue(value)[0])
  {
  }

  /** Writing a pair and reading the line gives the pair back, for every key and every value. */
  lemma SplitInvertsRender(key: Text, value: Text)
    ensures SplitLine(Render(key, value)) == Some(Pair(key, value))
  {
    hide EscapeKey, EscapeValue, Unescape, ScanKey;
    var line := Render(key, value);
    var after := [EQUALS] + EscapeValue(value);
    assert line == EscapeKey(key) + after;
    KeyStartsPlain(key);
    assert DropWhile(line, IsSpace) == line;
    ScanEscapedKey(key, after);
    assert EscapeKey(key) + [] == EscapeKey(key);
    assert DropWhile(after, IsBlank) == after;
    assert after[1..] == EscapeValue(value);
    ValueStartsPlain(value);
    KeyReadsBack(key);
    ValueReadsBack(value);
  }

  // ----- The loops -----

  /** `UnescapeOne` as the source's loop body reads it at index `i`. */
  lemma UnescapeAt(raw: Text, i: nat)
    requires i < |raw|
    ensures UnescapeOne(raw[i..])
            == if raw[i] != BACKSLASH then ([raw[i]], 1)
               else if i + 1 == |raw| then ([], 1)
               else if raw[i + 1] == LOWER_U && i + 6 <= |raw| && IsHex4(raw[i + 2..i + 6])
               then ([FromHex4(raw[i + 2..i + 6])], 6)
               else ([Meaning(raw[i + 1])], 2)
  {
    if i + 6 <= |raw| { assert raw[i..][2..6] == raw[i + 2..i + 6]; }
  }

  lemma Shift(out: Text, read: Text, tail: Text)
    ensures out + (read + tail) == (out + read) + tail
  {
  }

  method UnescapeValue(raw: Text) returns (out: Text)
    ensures out == Unescape(raw)
  {
    out := [];
    var i := 0;
    while i < |raw|
      invariant 0 <= i <= |raw|
      invariant Unescape(raw) == out + Unescape(raw[i..])
    {
      hide Unescape, UnescapeOne, IsHex4, FromHex4, Meaning;
      UnescapeAt(raw, i);
      ghost var (read, used) := UnescapeOne(raw[i..]);
      Shift(out, read, Unescape(raw[i + used..]));
      if raw[i] != BACKSLASH {
        out := out + [raw[i]];
        i := i + 1;
      } else if i + 1 == |raw| {
        i := i + 1;
      } else if raw[i + 1] == LOWER_U && i + 6 <= |raw| && IsHex4(raw[i + 2..i + 6]) {
        out := out + [HexCode(raw[i + 2..i + 6])];
        i := i + 6;
      } else {
        out := out + [Meaning(raw[i + 1])];
        i := i + 2;
      }
    }
    assert raw[i..] == [];
  }

  function HexCode(h: Text): (c: Code)
    requires IsHex4(h)
    ensures c == FromHex4(h)
  {
    FromHex4(h)
  }

  predicate IsPair(s: Text, i: nat) {
    i + 1 < |s| && 0xD800 <= s[i] <= 0xDBFF && 0xDC00 <= s[i + 1] <= 0xDFFF
  }

  lemma {:induction false} EscapeCommonConcat(a: Text, b: Text)
    ensures EscapeCommon(a + b) == EscapeCommon(a) + EscapeCommon(b)
  {
    hide EscapeOne;
    if a == [] {
      assert a + b == b;
    } else {
      EscapeCommonConcat(a[1..], b);
      assert (a + b)[1..] == a[1..] + b;
    }
  }

  lemma EscapeCommonSnoc(s: Text, i: nat)
    requires i < |s|
    ensures EscapeCommon(s[..i + 1]) == EscapeCommon(s[..i]) + EscapeOne(s[i])
  {
    hide EscapeOne;
    EscapeCommonConcat(s[..i], [s[i]]);
    assert s[..i + 1] == s[..i] + [s[i]];
    assert [s[i]][1..] == [];
  }

  lemma SurrogateEscape(c: Code)
    requires 0xD800 <= c <= 0xDFFF
    ensures EscapeOne(c) == [BACKSLASH, LOWER_U] + Hex4(c)
  {
  }

  // ----- What is written -----

  /** Characters that are written as they are. */
  predicate IsPlain(c: Code) {
    0x20 <= c <= 0x7E && c !in {BACKSLASH, EQUALS, COLON, HASH, BANG}
  }

  predicate Printable(s: Text) {
    forall i :: 0 <= i < |s| ==> 0x20 <= s[i] <= 0x7E
  }

  lemma PrintableConcat(a: Text, b: Text)
    requires Printable(a) && Printable(b)
    ensures Printable(a + b)
  {
  }

  lemma OneIsPrintable(c: Code)
    ensures Printable(EscapeOne(c)) && Printable(EscapeOneKey(c))
  {
  }

  lemma {:induction false} EscapedIsPrintable(s: Text)
    ensures Printable(EscapeCommon(s)) && Printable(EscapeKey(s))
  {
    if s != [] {
      EscapeKeyUnfold(s);
      EscapedIsPrintable(s[1..]);
      OneIsPrintable(s[0]);
      PrintableConcat(EscapeOne(s[0]), EscapeCommon(s[1..]));
      PrintableConcat(EscapeOneKey(s[0]), EscapeKey(s[1..]));
      hide EscapeOne, EscapeOneKey, EscapeKey, Printable;
    }
  }

  /** A line that is written is printable ASCII, whatever its key and its value. */
  lemma WrittenIsPrintable(key: Text, value: Text)
    ensures Printable(Render(key, value))
  {
    EscapedIsPrintable(key);
    EscapedIsPrintable(value);
    hide EscapeKey, EscapeCommon;
    var common := EscapeCommon(value);
    PrintableConcat([BACKSLASH], common);
    PrintableConcat([EQUALS], EscapeValue(value));
    PrintableConcat(EscapeKey(key), [EQUALS] + EscapeValue(value));
    assert Render(key, value) == EscapeKey(key) + ([EQUALS] + EscapeValue(value));
  }

  lemma {:induction false} PlainIsNotEscaped(s: Text)
    requires forall i :: 0 <= i < |s| ==> IsPlain(s[i])
    ensures EscapeCommon(s) == s
  {
    if s != [] {
      PlainIsNotEscaped(s[1..]);
      assert IsPlain(s[0]) && EscapeOne(s[0]) == [s[0]];
    }
  }

  /** Plain text is written as it is, but for a space in a key or at the start of a value. */
  lemma PlainIsKept(s: Text)
    requires forall i :: 0 <= i < |s| ==> IsPlain(s[i])
    ensures EscapeValue(s) == (if s != [] && s[0] == SPACE then [BACKSLASH] + s else s)
    ensures SPACE !in s ==> EscapeKey(s) == s
  {
    PlainIsNotEscaped(s);
    if SPACE !in s { NoSpacesToEscape(s); }
    hide EscapeCommon;
  }

  /** The number that digits of base sixteen stand for, the most significant one first. */
  function HexNumber(h: Text): nat
    requires forall c <- h :: IsHex(c)
  {
    if h == [] then 0 else 16 * HexNumber(h[..|h| - 1]) + HexValue(h[|h| - 1])
  }

  lemma HexSnoc(h: Text, n: nat)
    requires n < |h| && forall i :: 0 <= i < |h| ==> IsHex(h[i])
    ensures (forall c <- h[..n + 1] :: IsHex(c)) && (forall c <- h[..n] :: IsHex(c))
    ensures HexNumber(h[..n + 1]) == 16 * HexNumber(h[..n]) + HexValue(h[n])
  {
    assert h[..n + 1][..n] == h[..n] && h[..n + 1][n] == h[n];
  }

  lemma FourDigits(h: Text)
    requires |h| == 4 && forall i :: 0 <= i < 4 ==> IsHex(h[i])
    ensures forall c <- h :: IsHex(c)
    ensures FromHex4(h) == HexNumber(h)
  {
    hide HexValue, IsHex;
    assert HexNumber(h[..0]) == 0;
    hide HexNumber;
    HexSnoc(h, 0);
    HexSnoc(h, 1);
    HexSnoc(h, 2);
    HexSnoc(h, 3);
    assert h[..4] == h;
  }

  /** An escape of four digits is the unit with that number. */
  lemma EscapeIsNumber(h: Text, rest: Text)
    requires IsHex4(h)
    ensures forall c <- h :: IsHex(c)
    ensures FromHex4(h) == HexNumber(h)
    ensures UnescapeOne([BACKSLASH, LOWER_U] + h + rest) == ([FromHex4(h)], 6)
  {
    FourDigits(h);
    hide HexNumber, FromHex4, IsHex;
    assert ([BACKSLASH, LOWER_U] + h + rest)[2..6] == h;
  }

  lemma DigitsAreCaseless(c: Code)
    requires IsHex(c) && c >= 97
    ensures IsHex(c - 32) && HexValue(c - 32) == HexValue(c) && 10 <= HexValue(c)
  {
  }

  /** The source walks code points and writes the two units of a pair one after the other. */
  method EscapeAll(s: Text) returns (out: Text)
    ensures out == EscapeCommon(s)
  {
    out := [];
    var i := 0;
    while i < |s|
      invariant 0 <= i <= |s|
      invariant out == EscapeCommon(s[..i])
    {
      hide EscapeCommon, EscapeOne, Hex4;
      EscapeCommonSnoc(s, i);
      if IsPair(s, i) {
        EscapeCommonSnoc(s, i + 1);
        SurrogateEscape(s[i]);
        SurrogateEscape(s[i + 1]);
        out := out + ([BACKSLASH, LOWER_U] + Hex4(s[i]));
        out := out + ([BACKSLASH, LOWER_U] + Hex4(s[i + 1]));
        i := i + 2;
      } else {
        out := out + EscapeOne(s[i]);
        i := i + 1;
      }
    }
    assert s[..|s|] == s;
  }
}
