/**
 The byte formats of SystemView packets, and a host-side reader for each of them.
 */
module SysViewCode {
  import opened RttRing

  const WORD := 0x1_0000_0000

  type Word = x: int | 0 <= x < WORD

  datatype Decoded<T> = Stuck | Got(value: T, rest: seq<Byte>)

  // ---- Numbers ----

  /** Seven bits a byte, low bits first, the top bit set on all bytes but the last. */
  function EncodeU32(v: nat): (r: seq<Byte>)
    ensures |r| >= 1
  {
    if v > 127 then [v % 128 + 128] + EncodeU32(v / 128) else [v]
  }

  function DecodeU32(s: seq<Byte>): (r: Decoded<nat>)
    ensures r.Got? ==> |r.rest| < |s|
  {
    if s == [] then Stuck
    else if s[0] < 128 then Got(s[0], s[1..])
    else
      var high := DecodeU32(s[1..]);
      if high.Got? then Got(s[0] - 128 + 128 * high.value, high.rest) else Stuck
  }

  lemma {:induction false} U32RoundTrip(v: nat, rest: seq<Byte>)
    ensures DecodeU32(EncodeU32(v) + rest) == Got(v, rest)
  {
    var s := EncodeU32(v) + rest;
    if v > 127 {
      U32RoundTrip(v / 128, rest);
      assert s[1..] == EncodeU32(v / 128) + rest;
    } else {
      assert s[1..] == rest;
    }
  }

  function Power128(k: nat): (r: nat)
    ensures r >= 1
  {
    if k == 0 then 1 else 128 * Power128(k - 1)
  }

  /** A number takes at most `k` bytes exactly when it has at most `7 * k` bits. */
  lemma {:induction false} U32Length(v: nat, k: nat)
    requires k > 0
    ensures |EncodeU32(v)| <= k <==> v < Power128(k)
  {
    if v > 127 && k > 1 {
      U32Length(v / 128, k - 1);
      assert Power128(k) == 128 * Power128(k - 1);
    } else if k > 1 {
      assert Power128(k) == 128 * (128 * Power128(k - 2));
    } else {
      assert Power128(1) == 128 * Power128(0);
    }
  }

  lemma WordLength(v: Word)
    ensures |EncodeU32(v)| <= 5
  {
    U32Length(v, 5);
    assert Power128(5) == 128 * 128 * 128 * Power128(2);
  }

  // ---- Strings ----

  function EncodeText(t: seq<Byte>): (r: seq<Byte>) {
    (if |t| < 255 then [|t|] else [255, |t| % 256, |t| / 256 % 256]) + t
  }

  function TakeText(n: nat, s: seq<Byte>): Decoded<seq<Byte>> {
    if n <= |s| then Got(s[..n], s[n..]) else Stuck
  }

  function DecodeText(s: seq<Byte>): (r: Decoded<seq<Byte>>)
    ensures r.Got? ==> |r.rest| < |s|
  {
    if s == [] then Stuck
    else if s[0] < 255 then TakeText(s[0], s[1..])
    else if |s| < 3 then Stuck
    else var high: nat := s[2]; TakeText(s[1] + 256 * high, s[3..])
  }

  /** Reading back works exactly for texts whose length fits sixteen bits. */
  lemma TextRoundTrip(t: seq<Byte>, rest: seq<Byte>)
    ensures DecodeText(EncodeText(t) + rest) == Got(t, rest) <==> |t| < 0x1_0000
  {
    var s := EncodeText(t) + rest;
    if |t| < 255 {
      assert s[1..] == t + rest;
    } else {
      assert s[3..] == t + rest;
      var n := |t| % 256 + 256 * (|t| / 256 % 256);
      assert |t| < 0x1_0000 ==> n == |t|;
      assert |t| >= 0x1_0000 ==> n < |t|;
    }
    assert (t + rest)[..|t|] == t && (t + rest)[|t|..] == rest;
  }

  /** A string cut off at `limit` takes no more than `1 + limit` bytes exactly when fewer than 255
      characters are left of it, or the limit leaves room for the longer length. */
  lemma TextFitsLimit(t: seq<Byte>, limit: nat)
    ensures var n := MinNat(|t|, limit);
      |EncodeText(t[..n])| <= 1 + limit <==> n < 255 || n + 2 <= limit
  {
  }

  /** A string of 255 characters and a limit of 255: 258 bytes. */
  lemma TextOverLimit()
    ensures var t: seq<Byte> := seq(255, _ => 65);
      |EncodeText(t[..MinNat(|t|, 255)])| == 258
  {
    var t: seq<Byte> := seq(255, _ => 65);
    assert t[..255] == t;
  }

  // ---- Headers ----

  /** The one or two bytes that `_SendPacket` puts down for an id or a length. */
  function Short(x: nat): (r: seq<Byte>) {
    if x > 127 then [x % 128 + 128, x / 128 % 256] else [x]
  }

  /** Two bytes carry fourteen bits: a header reads back exactly below that. */
  lemma ShortRoundTrip(x: nat, rest: seq<Byte>)
    ensures DecodeU32(Short(x) + rest) == Got(x, rest) <==> x < 16384
  {
    var s := Short(x) + rest;
    if x > 127 {
      var b := x / 128 % 256;
      assert s[1..] == [b] + rest;
      assert ([b] + rest)[1..] == rest;
      assert x < 16384 ==> b == x / 128;
    } else {
      assert s[1..] == rest;
    }
  }

  // ---- Payloads of the predefined events ----

  datatype Item = Num | Text

  datatype Value = NumOf(n: Word) | TextOf(t: seq<Byte>)

  /** What the events below 24 carry. */
  function Shape(id: nat): seq<Item>
    requires id < 24
  {
    match id
    case 1 | 2 | 4 | 6 | 8 | 12 | 15 | 16 | 19 => [Num]
    case 7 | 13 => [Num, Num]
    case 9 | 22 => [Num, Num, Text]
    case 14 => [Text]
    case 21 => [Num, Num, Num, Num]
    case _ => []
  }

  predicate Suits(v: Value, item: Item) {
    match v
    case NumOf(_) => item == Num
    case TextOf(t) => item == Text && |t| < 0x1_0000
  }

  predicate Conforms(values: seq<Value>, shape: seq<Item>) {
    |values| == |shape| && forall k :: 0 <= k < |values| ==> Suits(values[k], shape[k])
  }

  function EncodeValue(v: Value): seq<Byte> {
    match v
    case NumOf(n) => EncodeU32(n)
    case TextOf(t) => EncodeText(t)
  }

  function DecodeValue(item: Item, s: seq<Byte>): (r: Decoded<Value>)
    ensures r.Got? ==> |r.rest| < |s|
  {
    match item
    case Num =>
      var d := DecodeU32(s);
      if d.Got? && d.value < WORD then Got(NumOf(d.value), d.rest) else Stuck
    case Text =>
      var d := DecodeText(s);
      if d.Got? then Got(TextOf(d.value), d.rest) else Stuck
  }

  lemma ValueRoundTrip(v: Value, item: Item, rest: seq<Byte>)
    requires Suits(v, item)
    ensures DecodeValue(item, EncodeValue(v) + rest) == Got(v, rest)
  {
    match v
    case NumOf(n) => U32RoundTrip(n, rest);
    case TextOf(t) => TextRoundTrip(t, rest);
  }

  function EncodeValues(values: seq<Value>): seq<Byte> {
    if values == [] then [] else EncodeValue(values[0]) + EncodeValues(values[1..])
  }

  function DecodeValues(shape: seq<Item>, s: seq<Byte>): (r: Decoded<seq<Value>>)
    ensures r.Got? ==> |r.rest| <= |s|
  {
    if shape == [] then Got([], s)
    else
      var first := DecodeValue(shape[0], s);
      if first.Stuck? then Stuck
      else
        var others := DecodeValues(shape[1..], first.rest);
        if others.Got? then Got([first.value] + others.value, others.rest) else Stuck
  }

  lemma {:induction false} ValuesRoundTrip(values: seq<Value>, shape: seq<Item>, rest: seq<Byte>)
    requires Conforms(values, shape)
    ensures DecodeValues(shape, EncodeValues(values) + rest) == Got(values, rest)
  {
    if values == [] {
      assert EncodeValues(values) + rest == rest;
    } else {
      var tail := EncodeValues(values[1..]) + rest;
      assert EncodeValues(values) + rest == EncodeValue(values[0]) + tail;
      ValueRoundTrip(values[0], shape[0], tail);
      ValuesRoundTrip(values[1..], shape[1..], rest);
      assert [values[0]] + values[1..] == values;
    }
  }

  // ---- Packets ----

  datatype Body = Fields(values: seq<Value>) | Raw(bytes: seq<Byte>)

  datatype Packet = Packet(id: nat, body: Body, delta: Word)

  function Payload(body: Body): seq<Byte> {
    match body
    case Fields(values) => EncodeValues(values)
    case Raw(bytes) => bytes
  }

  /** An event below 24 has the payload its id announces; the others are framed by length. */
  predicate Sendable(id: nat, body: Body) {
    if id < 24 then body.Fields? && Conforms(body.values, Shape(id))
    else body.Raw? && id < 16384 && |body.bytes| < 16384
  }

  function Header(id: nat, length: nat): (r: seq<Byte>)
    ensures |r| <= 4
  {
    if id < 24 then [id] else Short(id) + Short(length)
  }

  function Encode(p: Packet): seq<Byte> {
    Header(p.id, |Payload(p.body)|) + Payload(p.body) + EncodeU32(p.delta)
  }

  function DecodeBody(id: nat, s: seq<Byte>): (r: Decoded<Body>)
    ensures r.Got? ==> |r.rest| <= |s|
  {
    if id < 24 then
      var d := DecodeValues(Shape(id), s);
      if d.Got? then Got(Fields(d.value), d.rest) else Stuck
    else
      var n := DecodeU32(s);
      if n.Stuck? then Stuck
      else
        var d := TakeText(n.value, n.rest);
        if d.Got? then Got(Raw(d.value), d.rest) else Stuck
  }

  function Decode(s: seq<Byte>): (r: Decoded<Packet>)
    ensures r.Got? ==> |r.rest| < |s|
  {
    var id := DecodeU32(s);
    if id.Stuck? then Stuck
    else
      var body := DecodeBody(id.value, id.rest);
      if body.Stuck? then Stuck
      else
        var delta := DecodeU32(body.rest);
        if delta.Got? && delta.value < WORD then Got(Packet(id.value, body.value, delta.value), delta.rest)
        else Stuck
  }

  lemma BodyRoundTrip(id: nat, body: Body, rest: seq<Byte>)
    requires Sendable(id, body)
    ensures var s := (if id < 24 then [] else Short(|Payload(body)|)) + (Payload(body) + rest);
      DecodeBody(id, s) == Got(body, rest)
  {
    if id < 24 {
      ValuesRoundTrip(body.values, Shape(id), rest);
      assert [] + (Payload(body) + rest) == Payload(body) + rest;
    } else {
      var after := body.bytes + rest;
      ShortRoundTrip(|body.bytes|, after);
      assert after[..|body.bytes|] == body.bytes && after[|body.bytes|..] == rest;
    }
  }

  lemma PacketRoundTrip(p: Packet, rest: seq<Byte>)
    requires Sendable(p.id, p.body)
    ensures Decode(Encode(p) + rest) == Got(p, rest)
  {
    hide DecodeBody, Payload;
    var tail := EncodeU32(p.delta) + rest;
    var frame := (if p.id < 24 then [] else Short(|Payload(p.body)|)) + (Payload(p.body) + tail);
    assert Encode(p) + rest == Short(p.id) + frame;
    ShortRoundTrip(p.id, frame);
    BodyRoundTrip(p.id, p.body, tail);
    U32RoundTrip(p.delta, rest);
  }

  // ---- A reader that has got a value does not change its mind when more bytes arrive ----

  lemma {:induction false} U32Extends(s: seq<Byte>, more: seq<Byte>)
    requires DecodeU32(s).Got?
    ensures DecodeU32(s + more) == Got(DecodeU32(s).value, DecodeU32(s).rest + more)
  {
    assert (s + more)[1..] == s[1..] + more;
    if s[0] >= 128 {
      U32Extends(s[1..], more);
    }
  }

  lemma TakeExtends(n: nat, s: seq<Byte>, more: seq<Byte>)
    requires n <= |s|
    ensures TakeText(n, s + more) == Got(s[..n], s[n..] + more)
  {
    assert (s + more)[..n] == s[..n];
    assert (s + more)[n..] == s[n..] + more;
  }

  lemma ValueExtends(item: Item, s: seq<Byte>, more: seq<Byte>)
    requires DecodeValue(item, s).Got?
    ensures DecodeValue(item, s + more) == Got(DecodeValue(item, s).value, DecodeValue(item, s).rest + more)
  {
    if item == Num {
      U32Extends(s, more);
    } else if s[0] < 255 {
      assert (s + more)[1..] == s[1..] + more;
      TakeExtends(s[0], s[1..], more);
    } else {
      assert (s + more)[3..] == s[3..] + more;
      var high: nat := s[2];
      TakeExtends(s[1] + 256 * high, s[3..], more);
    }
  }

  lemma {:induction false} ValuesExtend(shape: seq<Item>, s: seq<Byte>, more: seq<Byte>)
    requires DecodeValues(shape, s).Got?
    ensures DecodeValues(shape, s + more) == Got(DecodeValues(shape, s).value, DecodeValues(shape, s).rest + more)
  {
    hide DecodeValue;
    if shape != [] {
      ValueExtends(shape[0], s, more);
      ValuesExtend(shape[1..], DecodeValue(shape[0], s).rest, more);
    }
  }

  lemma BodyExtends(id: nat, s: seq<Byte>, more: seq<Byte>)
    requires DecodeBody(id, s).Got?
    ensures DecodeBody(id, s + more) == Got(DecodeBody(id, s).value, DecodeBody(id, s).rest + more)
  {
    hide DecodeValues, DecodeU32;
    if id < 24 {
      ValuesExtend(Shape(id), s, more);
    } else {
      U32Extends(s, more);
      TakeExtends(DecodeU32(s).value, DecodeU32(s).rest, more);
    }
  }

  lemma DecodeExtends(s: seq<Byte>, more: seq<Byte>)
    requires Decode(s).Got?
    ensures Decode(s + more) == Got(Decode(s).value, Decode(s).rest + more)
  {
    hide DecodeBody, DecodeU32;
    U32Extends(s, more);
    var id := DecodeU32(s);
    BodyExtends(id.value, id.rest, more);
    U32Extends(DecodeBody(id.value, id.rest).rest, more);
  }
}
