/**
 * What the byte counts of the console mean: the length of the UTF-8 encoding (RFC 3629, section 3) of
 * the characters of a UTF-16 text, in which an unpaired surrogate stands for U+FFFD.
 */
module Utf8 {
  import opened Properties
  import opened Console

  type Byte = b: nat | b < 256

  /** A Unicode scalar value. */
  predicate IsScalar(p: nat) { p < 0xD800 || 0xE000 <= p < 0x11_0000 }

  /** The code units of one character in UTF-16 (RFC 2781, section 2.1). */
  function Units(p: nat): seq<nat>
    requires IsScalar(p)
  {
    if p < 0x1_0000 then [p] else [0xD800 + (p - 0x1_0000) / 0x400, 0xDC00 + (p - 0x1_0000) % 0x400]
  }

  /** The characters of a text, one after the other. */
  ghost predicate Spells(text: Text, points: seq<nat>)
    decreases |points|
  {
    if points == [] then text == []
    else
      && IsScalar(points[0]) && text != []
      && if Units(points[0]) <= text then Spells(text[|Units(points[0])|..], points[1..])
         else points[0] == 0xFFFD && Unpaired(text) && Spells(text[1..], points[1..])
  }

  /** The text begins with a surrogate that is not half of a pair. */
  predicate Unpaired(text: Text) {
    && text != [] && 0xD800 <= text[0] < 0xE000
    && !(text[0] < 0xDC00 && |text| > 1 && 0xDC00 <= text[1] < 0xE000)
  }

  function Encode(p: nat): seq<Byte>
    requires IsScalar(p)
  {
    if p < 0x80 then [p]
    else if p < 0x800 then [0xC0 + p / 64, 0x80 + p % 64]
    else if p < 0x1_0000 then [0xE0 + p / 64 / 64, 0x80 + p / 64 % 64, 0x80 + p % 64]
    else [0xF0 + p / 64 / 64 / 64, 0x80 + p / 64 / 64 % 64, 0x80 + p / 64 % 64, 0x80 + p % 64]
  }

  function EncodeAll(points: seq<nat>): seq<Byte>
    requires forall p <- points :: IsScalar(p)
  {
    if points == [] then [] else Encode(points[0]) + EncodeAll(points[1..])
  }

  /** The first character of an encoded text, and how many bytes it takes. */
  function First(bytes: seq<Byte>): (nat, nat) {
    if bytes == [] then (0, 0)
    else
      var a := bytes[0];
      var count := if a < 0x80 then 1 else if a < 0xE0 then 2 else if a < 0xF0 then 3 else 4;
      if a < 0x80 || |bytes| < count then (a, 1)
      else
        var lead := if a < 0xC0 then a else if count == 2 then a - 0xC0 else if count == 3 then a - 0xE0 else a - 0xF0;
        (Tail(lead, bytes[1..count]), count)
  }

  /** What a continuation byte carries. */
  function Low(b: Byte): nat { if b >= 0x80 then b - 0x80 else b }

  function Tail(lead: nat, bytes: seq<Byte>): nat
    decreases |bytes|
  {
    if bytes == [] then lead else Tail(lead * 64 + Low(bytes[0]), bytes[1..])
  }

  lemma FirstReadsBack(p: nat, rest: seq<Byte>)
    requires IsScalar(p)
    ensures First(Encode(p) + rest) == (p, |Encode(p)|)
  {
    var bytes := Encode(p) + rest;
    var count := |Encode(p)|;
    assert bytes[0] == Encode(p)[0] && bytes[1..count] == Encode(p)[1..];
    if count == 2 {
      TailTwo(p);
    } else if count == 3 {
      TailThree(p);
    } else if count == 4 {
      TailFour(p);
    }
  }

  /** Character by character, an encoded text is read back. */
  lemma EncodingReadsBack(points: seq<nat>)
    requires points != [] && forall p <- points :: IsScalar(p)
    ensures var (p, n) := First(EncodeAll(points));
            p == points[0] && n <= |EncodeAll(points)| && EncodeAll(points)[n..] == EncodeAll(points[1..])
  {
    FirstReadsBack(points[0], EncodeAll(points[1..]));
    hide First;
  }

  lemma TailTwo(p: nat)
    ensures Tail(p / 64, [0x80 + p % 64]) == p
  {
    assert Tail(p / 64 * 64 + Low(0x80 + p % 64), []) == p;
  }

  lemma TailNext(lead: nat, b: Byte, rest: seq<Byte>)
    ensures Tail(lead, [b] + rest) == Tail(lead * 64 + Low(b), rest)
    ensures forall c: Byte :: rest == [c] ==> [b] + rest == [b, c]
    ensures forall c: Byte, d: Byte :: rest == [c, d] ==> [b] + rest == [b, c, d]
  {
    assert ([b] + rest)[1..] == rest;
  }

  lemma TailThree(p: nat)
    ensures Tail(p / 64 / 64, [0x80 + p / 64 % 64, 0x80 + p % 64]) == p
  {
    TailNext(p / 64 / 64, 0x80 + p / 64 % 64, [0x80 + p % 64]);
    assert p / 64 / 64 * 64 + Low(0x80 + p / 64 % 64) == p / 64;
    TailTwo(p);
  }

  lemma TailFour(p: nat)
    ensures Tail(p / 64 / 64 / 64, [0x80 + p / 64 / 64 % 64, 0x80 + p / 64 % 64, 0x80 + p % 64]) == p
  {
    TailNext(p / 64 / 64 / 64, 0x80 + p / 64 / 64 % 64, [0x80 + p / 64 % 64, 0x80 + p % 64]);
    assert p / 64 / 64 / 64 * 64 + Low(0x80 + p / 64 / 64 % 64) == p / 64 / 64;
    TailThree(p);
  }

  /** Every text spells some characters. */
  lemma {:induction false} EveryTextSpells(text: Text) returns (points: seq<nat>)
    ensures Spells(text, points) && forall p <- points :: IsScalar(p)
    decreases |text|
  {
    if text == [] {
      points := [];
    } else {
      var p: nat, n := text[0], 1;
      if Unpaired(text) {
        p := 0xFFFD;
      } else if 0xD800 <= text[0] < 0xDC00 {
        p, n := 0x1_0000 + (text[0] as int - 0xD800) * 0x400 + (text[1] as int - 0xDC00), 2;
        assert Units(p) == text[..2];
      }
      var rest := EveryTextSpells(text[n..]);
      points := [p] + rest;
      assert points[1..] == rest;
    }
  }

  /** The bytes counted for a text are those of the encoding of its characters. */
  lemma {:induction false} CountsEncodedBytes(text: Text, points: seq<nat>)
    requires Spells(text, points) && forall p <- points :: IsScalar(p)
    ensures ByteLength(text) == |EncodeAll(points)|
    decreases |points|
  {
    if points != [] {
      var p := points[0];
      var n := if Units(p) <= text then |Units(p)| else 1;
      CountsEncodedBytes(text[n..], points[1..]);
      FirstUnits(text, p);
    }
  }

  lemma FirstUnits(text: Text, p: nat)
    requires IsScalar(p) && text != [] && (Units(p) <= text || (p == 0xFFFD && Unpaired(text)))
    ensures var n := if Units(p) <= text then |Units(p)| else 1;
            ByteLength(text) == |Encode(p)| + ByteLength(text[n..])
  {
    if Units(p) <= text {
      assert text[0] == Units(p)[0] && (p >= 0x1_0000 ==> text[1] == Units(p)[1]);
    }
  }
}
