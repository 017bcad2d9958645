/**
 * RCON packets (Source RCON Protocol, "Basic Packet Structure"), written to bytes and read back from
 * any pieces.
 */
module Rcon {
  type Byte = b: int | 0 <= b < 256

  type Bytes = seq<Byte>

  /** A signed 32-bit integer. */
  type Int32 = v: int | -0x8000_0000 <= v < 0x8000_0000

  datatype Packet = Packet(id: Int32, kind: Int32, body: Bytes)

  const MAX_LENGTH: int := 0x10_0000

  const TRAILER: Bytes := [0, 0]

  // ----- Integers -----

  function WriteInt32(v: Int32): (bytes: Bytes)
    ensures |bytes| == 4
  {
    var u := if v < 0 then v + 0x1_0000_0000 else v;
    [u % 256, u / 256 % 256, u / 256 / 256 % 256, u / 256 / 256 / 256]
  }

  function ReadInt32(bytes: Bytes): Int32
    requires |bytes| >= 4
  {
    var u := bytes[0] as int + 256 * (bytes[1] as int + 256 * (bytes[2] as int + 256 * bytes[3] as int));
    if u >= 0x8000_0000 then u - 0x1_0000_0000 else u
  }

  lemma ReadInvertsWrite(v: Int32, rest: Bytes)
    ensures ReadInt32(WriteInt32(v) + rest) == v
  {
    var u := if v < 0 then v + 0x1_0000_0000 else v;
    var a, b, c := u / 256, u / 256 / 256, u / 256 / 256 / 256;
    assert u == 256 * a + u % 256 && a == 256 * b + a % 256 && b == 256 * c + b % 256;
  }

  // ----- Packets -----

  function Encode(p: Packet): Bytes
    requires |p.body| + 10 < 0x8000_0000
  {
    WriteInt32(|p.body| + 10) + WriteInt32(p.id) + WriteInt32(p.kind) + p.body + TRAILER
  }

  /** Bodies that a reader accepts. */
  predicate Readable(p: Packet) {
    |p.body| + 10 <= MAX_LENGTH
  }

  predicate AllReadable(packets: seq<Packet>) {
    forall i :: 0 <= i < |packets| ==> Readable(packets[i])
  }

  function EncodeAll(packets: seq<Packet>): Bytes
    requires AllReadable(packets)
  {
    if packets == [] then [] else Encode(packets[0]) + EncodeAll(packets[1..])
  }

  datatype Decoded = Decoded(packets: seq<Packet>, rest: Bytes)

  predicate Aberrant(length: int) {
    length < 10 || length > MAX_LENGTH
  }

  predicate Whole(buffer: Bytes) {
    |buffer| >= 4 && !Aberrant(ReadInt32(buffer)) && |buffer| >= 4 + ReadInt32(buffer)
  }

  /** The packet at the start of the buffer. */
  function First(buffer: Bytes): Packet
    requires Whole(buffer)
  {
    Packet(ReadInt32(buffer[4..]), ReadInt32(buffer[8..]), buffer[12..4 + ReadInt32(buffer) - 2])
  }

  function Decode(buffer: Bytes): Decoded
    decreases |buffer|
  {
    if |buffer| < 4 then Decoded([], buffer)
    else if Aberrant(ReadInt32(buffer)) then Decoded([], [])
    else if !Whole(buffer) then Decoded([], buffer)
    else
      var later := Decode(buffer[4 + ReadInt32(buffer)..]);
      Decoded([First(buffer)] + later.packets, later.rest)
  }

  /** No length that the reader refuses is met. */
  predicate Clean(buffer: Bytes)
    decreases |buffer|
  {
    |buffer| < 4
    || (!Aberrant(ReadInt32(buffer)) && (!Whole(buffer) || Clean(buffer[4 + ReadInt32(buffer)..])))
  }

  // ----- Round trip -----

  /** Three words, a body and what follows it. */
  lemma Layout(a: Bytes, b: Bytes, c: Bytes, body: Bytes, tail: Bytes)
    requires |a| == |b| == |c| == 4
    ensures var bytes := a + b + c + body + TRAILER + tail;
            && |bytes| == 14 + |body| + |tail|
            && bytes == a + bytes[4..] && bytes[4..] == b + bytes[8..] && bytes[8..] == c + bytes[12..]
            && bytes[12..12 + |body|] == body && bytes[14 + |body|..] == tail
  {
  }

  lemma EncodedParts(p: Packet, tail: Bytes)
    requires |p.body| + 10 < 0x8000_0000
    ensures var bytes := Encode(p) + tail;
            && |bytes| == 14 + |p.body| + |tail| && ReadInt32(bytes) == |p.body| + 10
            && ReadInt32(bytes[4..]) == p.id && ReadInt32(bytes[8..]) == p.kind
            && bytes[12..12 + |p.body|] == p.body && bytes[14 + |p.body|..] == tail
  {
    var bytes := Encode(p) + tail;
    var length, id, kind := WriteInt32(|p.body| + 10), WriteInt32(p.id), WriteInt32(p.kind);
    hide Encode, ReadInt32, WriteInt32;
    assert bytes == length + id + kind + p.body + TRAILER + tail by { EncodeIs(p); }
    Layout(length, id, kind, p.body, tail);
    ReadInvertsWrite(|p.body| + 10, bytes[4..]);
    ReadInvertsWrite(p.id, bytes[8..]);
    ReadInvertsWrite(p.kind, bytes[12..]);
  }

  lemma EncodeIs(p: Packet)
    requires |p.body| + 10 < 0x8000_0000
    ensures Encode(p) == WriteInt32(|p.body| + 10) + WriteInt32(p.id) + WriteInt32(p.kind) + p.body + TRAILER
  {
    hide WriteInt32;
  }

  /** The value of four little-endian bytes, without a sign. */
  function Unsigned(bytes: Bytes): int
    requires |bytes| == 4
  {
    bytes[0] as int + 256 * bytes[1] as int + 65536 * bytes[2] as int + 16777216 * bytes[3] as int
  }

  lemma WriteIsLittleEndian(v: Int32)
    ensures Unsigned(WriteInt32(v)) == if v < 0 then v + 0x1_0000_0000 else v
  {
    var u := if v < 0 then v + 0x1_0000_0000 else v;
    var a, b, c := u / 256, u / 256 / 256, u / 256 / 256 / 256;
    assert u == 256 * a + u % 256 && a == 256 * b + a % 256 && b == 256 * c + b % 256;
  }

  /** The bytes of a packet on the wire, field by field. */
  lemma EncodeLayout(p: Packet)
    requires |p.body| + 10 < 0x8000_0000
    ensures var bytes := Encode(p);
            && |bytes| == 4 + 4 + 4 + |p.body| + 2
            && Unsigned(bytes[0..4]) == |bytes| - 4
            && Unsigned(bytes[4..8]) == (if p.id < 0 then p.id + 0x1_0000_0000 else p.id)
            && Unsigned(bytes[8..12]) == (if p.kind < 0 then p.kind + 0x1_0000_0000 else p.kind)
            && bytes[12..12 + |p.body|] == p.body
            && bytes[12 + |p.body|..] == [0, 0]
  {
    EncodeIs(p);
    WriteIsLittleEndian(|p.body| + 10);
    WriteIsLittleEndian(p.id);
    WriteIsLittleEndian(p.kind);
    var length, id, kind := WriteInt32(|p.body| + 10), WriteInt32(p.id), WriteInt32(p.kind);
    var bytes := Encode(p);
    hide Encode, WriteInt32, Unsigned;
    assert bytes[0..4] == length && bytes[4..8] == id && bytes[8..12] == kind;
  }

  /** Reading starts with the packet that was written first. */
  lemma DecodeEncoded(p: Packet, tail: Bytes)
    requires Readable(p)
    ensures Decode(Encode(p) + tail) == Decoded([p] + Decode(tail).packets, Decode(tail).rest)
    ensures Clean(Encode(p) + tail) <==> Clean(tail)
  {
    EncodedParts(p, tail);
    hide Encode, ReadInt32;
    var bytes := Encode(p) + tail;
    assert First(bytes) == p;
    assert bytes[4 + ReadInt32(bytes)..] == tail;
  }

  /** Packets written one after the other are read back, with nothing left over. */
  lemma {:induction false} DecodeInvertsEncode(packets: seq<Packet>)
    requires AllReadable(packets)
    ensures Decode(EncodeAll(packets)) == Decoded(packets, []) && Clean(EncodeAll(packets))
  {
    hide Encode, ReadInt32;
    if packets != [] {
      DecodeInvertsEncode(packets[1..]);
      hide Decode, Clean;
      DecodeEncoded(packets[0], EncodeAll(packets[1..]));
      assert packets == [packets[0]] + packets[1..];
    }
  }

  /** The limit is exact: a longer body is dropped together with everything behind it. */
  lemma ReadBackExactlyWhenReadable(p: Packet)
    requires |p.body| + 10 < 0x8000_0000
    ensures Decode(Encode(p)) == Decoded([p], []) <==> Readable(p)
    ensures !Readable(p) ==> Decode(Encode(p)) == Decoded([], [])
  {
    assert Encode(p) + [] == Encode(p);
    EncodedParts(p, []);
    if Readable(p) {
      DecodeEncoded(p, []);
      assert [p] + [] == [p] && Decode([]) == Decoded([], []);
    }
    hide Encode, ReadInt32;
  }

  // ----- Any chunking -----

  lemma ReadPrefix(a: Bytes, b: Bytes)
    requires |a| >= 4
    ensures ReadInt32(a + b) == ReadInt32(a)
  {
  }

  lemma WholePrefix(a: Bytes, b: Bytes)
    requires Whole(a)
    ensures Whole(a + b) && ReadInt32(a + b) == ReadInt32(a) && First(a + b) == First(a)
    ensures (a + b)[4 + ReadInt32(a)..] == a[4 + ReadInt32(a)..] + b
  {
    ReadPrefix(a, b);
    assert (a + b)[4..] == a[4..] + b && (a + b)[8..] == a[8..] + b;
    ReadPrefix(a[4..], b);
    ReadPrefix(a[8..], b);
    hide ReadInt32;
    var n := ReadInt32(a);
    assert (a + b)[12..4 + n - 2] == a[12..4 + n - 2];
  }

  /** What is left of a clean buffer is the start of one packet. */
  lemma {:induction false} DecodeConcat(a: Bytes, b: Bytes)
    requires Clean(a)
    ensures var before := Decode(a);
            var after := Decode(before.rest + b);
            Decode(a + b) == Decoded(before.packets + after.packets, after.rest)
    decreases |a|
  {
    hide ReadInt32, First;
    if Whole(a) {
      WholePrefix(a, b);
      var n := 4 + ReadInt32(a);
      DecodeConcat(a[n..], b);
      var before := Decode(a[n..]);
      var after := Decode(before.rest + b);
      assert ([First(a)] + before.packets) + after.packets == [First(a)] + (before.packets + after.packets);
    } else {
      assert Decode(a) == Decoded([], a);
      assert [] + Decode(a + b).packets == Decode(a + b).packets;
    }
  }

  lemma {:induction false} CleanPrefix(a: Bytes, b: Bytes)
    requires Clean(a + b)
    ensures Clean(a) && Clean(Decode(a).rest + b)
    decreases |a|
  {
    hide ReadInt32, First;
    if |a| >= 4 { ReadPrefix(a, b); }
    if Whole(a) {
      WholePrefix(a, b);
      CleanPrefix(a[4 + ReadInt32(a)..], b);
    }
  }

  function Concat(chunks: seq<Bytes>): Bytes {
    if chunks == [] then [] else chunks[0] + Concat(chunks[1..])
  }

  /** What the client holds: bytes not read yet, and the packets so far. */
  datatype Inbox = Inbox(buffer: Bytes, received: seq<Packet>)

  function OnData(s: Inbox, chunk: Bytes): Inbox {
    var decoded := Decode(s.buffer + chunk);
    Inbox(decoded.rest, s.received + decoded.packets)
  }

  function Feed(s: Inbox, chunks: seq<Bytes>): Inbox
    decreases |chunks|
  {
    if chunks == [] then s else Feed(OnData(s, chunks[0]), chunks[1..])
  }

  /** The bytes not read yet start no packet that could be read. */
  predicate Waiting(buffer: Bytes) {
    !Whole(buffer) && Clean(buffer)
  }

  lemma WaitingDecodes(buffer: Bytes)
    requires Waiting(buffer)
    ensures Decode(buffer) == Decoded([], buffer)
  {
  }

  lemma {:induction false} RestIsWaiting(buffer: Bytes)
    requires Clean(buffer)
    ensures Waiting(Decode(buffer).rest)
    decreases |buffer|
  {
    hide ReadInt32, First;
    if Whole(buffer) { RestIsWaiting(buffer[4 + ReadInt32(buffer)..]); }
  }

  /** The first length that the reader refuses is met, in the very last four bytes. */
  predicate EndsRefused(buffer: Bytes)
    decreases |buffer|
  {
    && |buffer| >= 4
    && if Aberrant(ReadInt32(buffer)) then |buffer| == 4
       else Whole(buffer) && EndsRefused(buffer[4 + ReadInt32(buffer)..])
  }

  /** The pieces of these bytes do not matter. */
  predicate Steady(buffer: Bytes) {
    Clean(buffer) || EndsRefused(buffer)
  }

  lemma {:induction false} RefusedPrefix(a: Bytes, b: Bytes)
    requires EndsRefused(a + b)
    ensures if Clean(a) then EndsRefused(Decode(a).rest + b) else b == []
    decreases |a|
  {
    hide ReadInt32, First;
    if |a| >= 4 { ReadPrefix(a, b); }
    if Whole(a) {
      WholePrefix(a, b);
      RefusedPrefix(a[4 + ReadInt32(a)..], b);
    }
  }

  /** A refused length drops whatever was read together with it. */
  lemma {:induction false} RefusedDropsAll(buffer: Bytes)
    requires !Clean(buffer)
    ensures Decode(buffer).rest == []
    decreases |buffer|
  {
    hide ReadInt32, First;
    if Whole(buffer) { RefusedDropsAll(buffer[4 + ReadInt32(buffer)..]); }
  }

  /** With a byte behind the refused length, the length is refused without that byte too. */
  lemma {:induction false} RefusedBeforeLast(a: Bytes, x: Byte)
    ensures Clean(a) ==> Steady(a + [x])
    decreases |a|
  {
    hide ReadInt32, First;
    var b := a + [x];
    if |a| >= 4 { ReadPrefix(a, [x]); }
    if Whole(a) {
      WholePrefix(a, [x]);
      RefusedBeforeLast(a[4 + ReadInt32(a)..], x);
    } else if Whole(b) {
      assert |a| >= 4 && (Clean(a) ==> |b| == 4 + ReadInt32(b));
      if Clean(a) { assert b[4 + ReadInt32(b)..] == []; assert Clean([]); assert Clean(b); }
    } else if |b| == 4 {
      assert Aberrant(ReadInt32(b)) ==> EndsRefused(b);
    } else if |a| >= 4 && Clean(a) {
      assert Clean(b);
    }
  }

  lemma SteadyPrefix(a: Bytes, b: Bytes)
    requires Steady(a + b)
    ensures if Clean(a) then Steady(Decode(a).rest + b) else b == []
  {
    if Clean(a + b) { CleanPrefix(a, b); } else { RefusedPrefix(a, b); }
    hide Decode, Clean, EndsRefused;
  }

  /**
   * Cutting the same bytes differently changes nothing: the packets and the bytes left over are
   * those of the whole stream, when no refused length has a byte behind it.
   */
  lemma {:induction false} AnyChunking(s: Inbox, chunks: seq<Bytes>)
    requires Waiting(s.buffer) && Steady(s.buffer + Concat(chunks))
    ensures var whole := Decode(s.buffer + Concat(chunks));
            Feed(s, chunks) == Inbox(whole.rest, s.received + whole.packets)
    decreases |chunks|
  {
    hide Decode, Clean, Whole, EndsRefused;
    if chunks == [] {
      assert s.buffer + [] == s.buffer;
      WaitingDecodes(s.buffer);
      assert s.received + [] == s.received;
    } else {
      var a, b := s.buffer + chunks[0], Concat(chunks[1..]);
      assert s.buffer + Concat(chunks) == a + b;
      SteadyPrefix(a, b);
      var before := Decode(a);
      if Clean(a) {
        RestIsWaiting(a);
        AnyChunking(OnData(s, chunks[0]), chunks[1..]);
        DecodeConcat(a, b);
      } else {
        RefusedDropsAll(a);
        NothingWaits();
        assert [] + b == [];
        WaitingIsSteady([]);
        AnyChunking(OnData(s, chunks[0]), chunks[1..]);
        assert a + b == a;
        WaitingDecodes([]);
      }
      var after := Decode(before.rest + b);
      assert (s.received + before.packets) + after.packets == s.received + (before.packets + after.packets);
    }
  }

  lemma OnePiece(stream: Bytes)
    ensures Concat([stream]) == stream
  {
    var one := [stream];
    assert one[1..] == [];
  }

  /** Cutting off the byte behind a refused length leaves this byte in the buffer. */
  lemma LastByteMatters(s: Inbox, stream: Bytes)
    requires Waiting(s.buffer) && !Steady(s.buffer + stream)
    ensures exists chunks :: Concat(chunks) == stream && Feed(s, chunks) != Feed(s, [stream])
  {
    WaitingIsSteady(s.buffer);
    assert s.buffer + [] == s.buffer;
    var front, last := stream[..|stream| - 1], stream[|stream| - 1];
    var a := s.buffer + front;
    assert a + [last] == s.buffer + stream;
    RefusedBeforeLast(a, last);
    RefusedDropsAll(a);
    RefusedDropsAll(s.buffer + stream);
    OneByteStays(last);
    FeedOne(s, stream);
    FeedTwo(s, front, [last]);
    hide Decode, Clean, EndsRefused, Feed, Waiting;
    assert [] + [last] == [last];
    var cut := [front, [last]];
    assert cut[1..] == [[last]] && front + [last] == stream;
    OnePiece([last]);
    assert Concat(cut) == stream;
  }

  lemma WaitingIsSteady(buffer: Bytes)
    requires Waiting(buffer)
    ensures Steady(buffer)
  {
  }

  lemma OneByteStays(x: Byte)
    ensures Decode([x]) == Decoded([], [x])
  {
  }

  /** For every stream: the pieces in which it arrives do not matter iff no byte lies behind a refused length. */
  lemma PiecesMatterExactly(s: Inbox, stream: Bytes)
    requires Waiting(s.buffer)
    ensures (forall chunks :: Concat(chunks) == stream ==> Feed(s, chunks) == Feed(s, [stream]))
            <==> Clean(s.buffer + stream) || EndsRefused(s.buffer + stream)
  {
    OnePiece(stream);
    hide Clean, EndsRefused, Feed, Concat, Waiting, Decode;
    if Steady(s.buffer + stream) {
      AnyChunking(s, [stream]);
      forall chunks | Concat(chunks) == stream ensures Feed(s, chunks) == Feed(s, [stream]) { AnyChunking(s, chunks); }
    } else {
      LastByteMatters(s, stream);
    }
  }

  /** Whatever the pieces in which packets arrive, the client gets these packets. */
  lemma PacketsArrive(packets: seq<Packet>, chunks: seq<Bytes>)
    requires AllReadable(packets) && Concat(chunks) == EncodeAll(packets)
    ensures Feed(Inbox([], []), chunks) == Inbox([], packets)
  {
    NothingWaits();
    hide Decode, Clean, EncodeAll, Feed, Concat, Waiting, Readable;
    DecodeInvertsEncode(packets);
    var start := Inbox([], []);
    assert start.buffer + Concat(chunks) == Concat(chunks);
    AnyChunking(start, chunks);
    assert start.received + packets == packets;
  }

  lemma NothingWaits()
    ensures Waiting([])
  {
  }

  /** For example, a packet that arrives together with a refused length is dropped, one that arrives later is read. */
  lemma RefusedLengthDependsOnChunks(length: Int32, p: Packet)
    requires Aberrant(length) && Readable(p)
    ensures var header, bytes := WriteInt32(length), Encode(p);
            && Feed(Inbox([], []), [header + bytes]) == Inbox([], [])
            && Feed(Inbox([], []), [header, bytes]) == Inbox([], [p])
  {
    var header, bytes := WriteInt32(length), Encode(p);
    var none := Inbox([], []);
    ReadInvertsWrite(length, bytes);
    ReadInvertsWrite(length, []);
    ReadBackExactlyWhenReadable(p);
    hide WriteInt32, Encode, ReadInt32;
    assert [] + (header + bytes) == header + bytes && [] + header == header;
    assert header + [] == header && [] + bytes == bytes;
    assert OnData(none, header + bytes) == none;
    assert OnData(none, header) == none;
    assert OnData(none, bytes) == Inbox([], [p]);
    FeedOne(none, header + bytes);
    FeedTwo(none, header, bytes);
  }

  lemma FeedOne(s: Inbox, chunk: Bytes)
    ensures Feed(s, [chunk]) == OnData(s, chunk)
  {
    hide OnData;
    var one := [chunk];
    assert one[1..] == [];
  }

  lemma FeedTwo(s: Inbox, a: Bytes, b: Bytes)
    ensures Feed(s, [a, b]) == OnData(OnData(s, a), b)
  {
    var two := [a, b];
    assert two[1..] == [b];
    FeedOne(OnData(s, a), b);
    hide OnData;
  }

  // ----- The loops -----

  method DecodePackets(buffer: Bytes) returns (decoded: Decoded)
    ensures decoded == Decode(buffer)
  {
    hide ReadInt32;
    var packets: seq<Packet> := [];
    var acc := buffer;
    while |acc| >= 4
      invariant Decode(buffer) == Decoded(packets + Decode(acc).packets, Decode(acc).rest)
      decreases |acc|
    {
      var length := ReadInt32(acc);
      if length < 10 || length > MAX_LENGTH {
        assert packets + [] == packets;
        return Decoded(packets, []);
      }
      if |acc| < 4 + length { break; }
      var p := Packet(ReadInt32(acc[4..]), ReadInt32(acc[8..]), acc[12..4 + length - 2]);
      assert p == First(acc);
      assert (packets + [p]) + Decode(acc[4 + length..]).packets == packets + ([p] + Decode(acc[4 + length..]).packets);
      packets := packets + [p];
      acc := acc[4 + length..];
    }
    assert packets + [] == packets;
    return Decoded(packets, acc);
  }

  class RconClient {
    var buffer: Bytes
    var received: seq<Packet>

    ghost function Value(): Inbox
      reads this
    {
      Inbox(buffer, received)
    }

    constructor ()
      ensures Value() == Inbox([], [])
    {
      buffer, received := [], [];
    }

    method HandleData(chunk: Bytes) returns (wakes: bool)
      modifies this
      ensures Value() == OnData(old(Value()), chunk)
      ensures wakes <==> received != old(received)
    {
      var decoded := DecodePackets(buffer + chunk);
      buffer := decoded.rest;
      if decoded.packets == [] {
        assert received + [] == received;
        return false;
      }
      received := received + decoded.packets;
      wakes := true;
    }
  }
}
