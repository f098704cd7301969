/**
 A subset of CBOR (section 3.1 of RFC 8949): unsigned integers, definite-length
 byte and text strings, and definite-length arrays of these, nested to any depth.
 It is prefix-free: no encoding is a proper prefix of another.
 */
module Cbor {
  import opened Common
  import opened Utf8

  datatype Value = UInt(n: nat) | Bytes(bytes: seq<Byte>) | Text(text: string) | List(items: seq<Value>)

  const LIMIT: nat := 0x1_0000_0000_0000_0000

  /** Values whose lengths fit a CBOR head. */
  predicate Encodable(v: Value) {
    match v
    case UInt(n) => n < LIMIT
    case Bytes(b) => |b| < LIMIT
    case Text(t) => |Utf8.Encode(t)| < LIMIT
    case List(items) => |items| < LIMIT && forall i :: 0 <= i < |items| ==> Encodable(items[i])
  }

  // Heads: a major type and a number

  function Bound(width: nat): nat {
    if width == 0 then 1 else 256 * Bound(width - 1)
  }

  function BigEndian(n: nat, width: nat): (b: seq<Byte>)
    ensures |b| == width
  {
    if width == 0 then [] else BigEndian(n / 256, width - 1) + [n % 256]
  }

  function ReadBigEndian(b: seq<Byte>): nat {
    if b == [] then 0 else 256 * ReadBigEndian(b[..|b| - 1]) + b[|b| - 1]
  }

  lemma {:induction false} BigEndianRoundTrip(n: nat, width: nat)
    requires n < Bound(width)
    ensures ReadBigEndian(BigEndian(n, width)) == n
  {
    if width > 0 {
      BigEndianRoundTrip(n / 256, width - 1);
      assert BigEndian(n, width)[..width - 1] == BigEndian(n / 256, width - 1);
    }
  }

  /** How many bytes carry the number, and the marker that says so. */
  function WidthOf(n: nat): nat {
    if n < 24 then 0 else if n < 0x100 then 1 else if n < 0x1_0000 then 2 else if n < 0x1_0000_0000 then 4 else 8
  }

  function Marker(width: nat): nat {
    if width == 1 then 24 else if width == 2 then 25 else if width == 4 then 26 else 27
  }

  function Head(major: nat, n: nat): (b: seq<Byte>)
    requires major < 8
    ensures |b| == 1 + WidthOf(n)
  {
    if n < 24 then [32 * major + n] else [32 * major + Marker(WidthOf(n))] + BigEndian(n, WidthOf(n))
  }

  datatype HeadRead = HeadOk(major: nat, n: nat, size: nat) | HeadCut | HeadBad

  function ReadHead(b: seq<Byte>): (r: HeadRead)
    ensures r.HeadOk? ==> 1 <= r.size <= |b|
  {
    if b == [] then HeadCut
    else
      var first: int := b[0];
      var major, info := first / 32, first % 32;
      if info < 24 then HeadOk(major, info, 1)
      else if info > 27 then HeadBad
      else
        var width := if info == 24 then 1 else if info == 25 then 2 else if info == 26 then 4 else 8;
        if |b| < 1 + width then HeadCut else HeadOk(major, ReadBigEndian(b[1..1 + width]), 1 + width)
  }

  lemma {:induction false} BoundAdd(a: nat, b: nat)
    ensures Bound(a + b) == Bound(a) * Bound(b)
  {
    if a > 0 {
      BoundAdd(a - 1, b);
    }
  }

  lemma WidthFits(n: nat)
    requires 24 <= n < LIMIT
    ensures n < Bound(WidthOf(n))
  {
    assert Bound(1) == 0x100 && Bound(2) == 0x1_0000;
    BoundAdd(2, 2);
    BoundAdd(4, 4);
  }

  lemma FirstByte(major: nat, info: nat)
    requires info < 32
    ensures (32 * major + info) / 32 == major && (32 * major + info) % 32 == info
  {
  }

  lemma ShortHeadRoundTrip(major: nat, n: nat, rest: seq<Byte>)
    requires major < 8 && n < 24
    ensures ReadHead(Head(major, n) + rest) == HeadOk(major, n, |Head(major, n)|)
  {
    FirstByte(major, n);
    assert (Head(major, n) + rest)[0] == 32 * major + n;
  }

  lemma LongHeadRoundTrip(major: nat, n: nat, rest: seq<Byte>)
    requires major < 8 && 24 <= n < LIMIT
    ensures ReadHead(Head(major, n) + rest) == HeadOk(major, n, |Head(major, n)|)
  {
    var b, width := Head(major, n) + rest, WidthOf(n);
    FirstByte(major, Marker(width));
    assert b[0] == 32 * major + Marker(width);
    assert b[1..1 + width] == BigEndian(n, width);
    WidthFits(n);
    BigEndianRoundTrip(n, width);
  }

  lemma HeadRoundTrip(major: nat, n: nat, rest: seq<Byte>)
    requires major < 8 && n < LIMIT
    ensures ReadHead(Head(major, n) + rest) == HeadOk(major, n, |Head(major, n)|)
  {
    if n < 24 {
      ShortHeadRoundTrip(major, n, rest);
    } else {
      LongHeadRoundTrip(major, n, rest);
    }
  }

  lemma HeadTruncated(major: nat, n: nat, i: nat)
    requires major < 8 && n < LIMIT && i < |Head(major, n)|
    ensures ReadHead(Head(major, n)[..i]) == HeadCut
  {
    if i > 0 {
      assert Head(major, n)[..i][0] == Head(major, n)[0];
    }
  }

  // Values

  function Encode(v: Value): (b: seq<Byte>)
    ensures b != []
  {
    match v
    case UInt(n) => Head(0, n)
    case Bytes(b) => Head(2, |b|) + b
    case Text(t) => Head(3, |Utf8.Encode(t)|) + Utf8.Encode(t)
    case List(items) => Head(4, |items|) + EncodeAll(items)
  }

  /** A CBOR sequence (section 2 of RFC 8742): the items' encodings end to end. */
  function EncodeAll(items: seq<Value>): seq<Byte> {
    if items == [] then [] else Encode(items[0]) + EncodeAll(items[1..])
  }

  datatype Decoded = Item(value: Value, size: nat) | Cut | Bad

  datatype DecodedAll = Items(values: seq<Value>, size: nat) | CutAll | BadAll

  /** The item at the front of `b`: `Cut` when `b` holds only a part of one. */
  function Decode(b: seq<Byte>): (r: Decoded)
    ensures r.Item? ==> 1 <= r.size <= |b|
    decreases |b|, 0
  {
    match ReadHead(b)
    case HeadCut => Cut
    case HeadBad => Bad
    case HeadOk(major, n, h) =>
      if major == 0 then Item(UInt(n), h)
      else if major == 2 then
        if |b| < h + n then Cut else Item(Bytes(b[h..h + n]), h + n)
      else if major == 3 then
        if |b| < h + n then Cut
        else (match Utf8.Decode(b[h..h + n]) case None => Bad case Some(t) => Item(Text(t), h + n))
      else if major == 4 then
        match DecodeAll(b[h..], n)
        case CutAll => Cut
        case BadAll => Bad
        case Items(values, size) => Item(List(values), h + size)
      else Bad
  }

  function DecodeAll(b: seq<Byte>, count: nat): (r: DecodedAll)
    ensures r.Items? ==> r.size <= |b|
    decreases |b|, 1 + count
  {
    if count == 0 then Items([], 0)
    else
      match Decode(b)
      case Cut => CutAll
      case Bad => BadAll
      case Item(value, size) =>
        match DecodeAll(b[size..], count - 1)
        case CutAll => CutAll
        case BadAll => BadAll
        case Items(values, more) => Items([value] + values, size + more)
  }

  lemma AfterHead(major: nat, n: nat, bytes: seq<Byte>, rest: seq<Byte>)
    requires major < 8 && n < LIMIT
    ensures var b, h := Head(major, n) + bytes + rest, |Head(major, n)|;
      && ReadHead(b) == HeadOk(major, n, h)
      && b[h..h + |bytes|] == bytes && b[h..] == bytes + rest
  {
    HeadRoundTrip(major, n, bytes + rest);
    assert Head(major, n) + bytes + rest == Head(major, n) + (bytes + rest);
  }

  lemma PlainRoundTrip(v: Value, rest: seq<Byte>)
    requires Encodable(v) && !v.List?
    ensures Decode(Encode(v) + rest) == Item(v, |Encode(v)|)
  {
    match v
    case UInt(n) => HeadRoundTrip(0, n, rest);
    case Bytes(bytes) => AfterHead(2, |bytes|, bytes, rest);
    case Text(t) =>
      AfterHead(3, |Utf8.Encode(t)|, Utf8.Encode(t), rest);
      Utf8.RoundTrip(t);
  }

  lemma DecodesList(b: seq<Byte>, h: nat, body: seq<Byte>, items: seq<Value>, size: nat)
    requires ReadHead(b) == HeadOk(4, |items|, h) && b[h..] == body && DecodeAll(body, |items|) == Items(items, size)
    ensures Decode(b) == Item(List(items), h + size)
  {
  }

  /** Decoding reads back exactly what was encoded, whatever follows it. */
  lemma {:induction false} RoundTrip(v: Value, rest: seq<Byte>)
    requires Encodable(v)
    ensures Decode(Encode(v) + rest) == Item(v, |Encode(v)|)
    decreases v, 0
  {
    if v.List? {
      var head, body := Head(4, |v.items|), EncodeAll(v.items);
      AfterHead(4, |v.items|, body, rest);
      RoundTripAll(v.items, rest);
      DecodesList(head + body + rest, |head|, body + rest, v.items, |body|);
    } else {
      PlainRoundTrip(v, rest);
    }
  }

  /** What decoding the rest adds to the item in front of it. */
  lemma DecodeAllStep(first: seq<Byte>, v: Value, after: seq<Byte>, count: nat)
    requires Decode(first + after) == Item(v, |first|)
    ensures DecodeAll(first + after, count + 1) ==
      match DecodeAll(after, count)
      case CutAll => CutAll
      case BadAll => BadAll
      case Items(values, more) => Items([v] + values, |first| + more)
  {
    assert (first + after)[|first|..] == after;
  }

  lemma ItemsStep(first: seq<Byte>, v: Value, after: seq<Byte>, count: nat, values: seq<Value>, more: nat)
    requires Decode(first + after) == Item(v, |first|) && DecodeAll(after, count) == Items(values, more)
    ensures DecodeAll(first + after, count + 1) == Items([v] + values, |first| + more)
  {
    DecodeAllStep(first, v, after, count);
  }

  lemma CutStep(first: seq<Byte>, v: Value, after: seq<Byte>, count: nat)
    requires Decode(first + after) == Item(v, |first|) && DecodeAll(after, count) == CutAll
    ensures DecodeAll(first + after, count + 1) == CutAll
  {
    DecodeAllStep(first, v, after, count);
  }

  lemma {:induction false} RoundTripAll(items: seq<Value>, rest: seq<Byte>)
    requires forall i :: 0 <= i < |items| ==> Encodable(items[i])
    ensures DecodeAll(EncodeAll(items) + rest, |items|) == Items(items, |EncodeAll(items)|)
    decreases items, 1
  {
    if items != [] {
      var first, tail := Encode(items[0]), EncodeAll(items[1..]);
      Associative(first, tail, rest);
      RoundTrip(items[0], tail + rest);
      RoundTripAll(items[1..], rest);
      ItemsStep(first, items[0], tail + rest, |items| - 1, items[1..], |tail|);
      assert items == [items[0]] + items[1..];
    }
  }

  lemma CutAfterHead(major: nat, n: nat, body: seq<Byte>, i: nat)
    requires major < 8 && n < LIMIT && i < |Head(major, n)| + |body|
    ensures var head := Head(major, n); var cut := (head + body)[..i];
      if i < |head| then ReadHead(cut) == HeadCut
      else ReadHead(cut) == HeadOk(major, n, |head|) && cut[|head|..] == body[..i - |head|]
  {
    var head := Head(major, n);
    var cut := (head + body)[..i];
    if i < |head| {
      HeadTruncated(major, n, i);
      assert cut == head[..i];
    } else {
      HeadRoundTrip(major, n, body[..i - |head|]);
      assert cut == head + body[..i - |head|];
    }
  }

  /** A proper prefix of an encoding is recognised as cut short: it never decodes
      as a complete item, and it is never taken for malformed. */
  lemma {:induction false} Truncated(v: Value, i: nat)
    requires Encodable(v) && i < |Encode(v)|
    ensures Decode(Encode(v)[..i]) == Cut
    decreases v, 0
  {
    match v
    case UInt(n) =>
      HeadTruncated(0, n, i);
    case Bytes(bytes) =>
      CutAfterHead(2, |bytes|, bytes, i);
    case Text(t) =>
      CutAfterHead(3, |Utf8.Encode(t)|, Utf8.Encode(t), i);
    case List(items) =>
      CutAfterHead(4, |items|, EncodeAll(items), i);
      if i >= |Head(4, |items|)| {
        TruncatedAll(items, EncodeAll(items)[..i - |Head(4, |items|)|], |items|);
      }
  }

  lemma CutInFirst(cut: seq<Byte>, count: nat)
    requires count > 0 && Decode(cut) == Cut
    ensures DecodeAll(cut, count) == CutAll
  {
  }

  lemma {:induction false} TruncatedAll(items: seq<Value>, cut: seq<Byte>, count: nat)
    requires forall i :: 0 <= i < |items| ==> Encodable(items[i])
    requires cut < EncodeAll(items) && count == |items|
    ensures DecodeAll(cut, count) == CutAll
    decreases items, 1
  {
    var first, rest := Encode(items[0]), EncodeAll(items[1..]);
    CutOfTwo(first, rest, |cut|);
    if |cut| < |first| {
      assert cut == first[..|cut|];
      Truncated(items[0], |cut|);
      CutInFirst(cut, count);
    } else {
      var part := rest[..|cut| - |first|];
      assert cut == first + part;
      RoundTrip(items[0], part);
      TruncatedAll(items[1..], part, count - 1);
      CutStep(first, items[0], part, count - 1);
    }
  }

  /** No head is longer than its number needs. */
  lemma HeadIsShortest(major: nat, n: nat)
    requires major < 8
    ensures |Head(major, n)| in {1, 2, 3, 5, 9}
    ensures |Head(major, n)| == 1 <==> n <= 23
    ensures |Head(major, n)| <= 2 <==> n <= 255
    ensures |Head(major, n)| <= 3 <==> n <= 65535
    ensures |Head(major, n)| <= 5 <==> n <= 4294967295
  {
  }

  /** A head with one of the reserved markers, and a text that is not UTF-8. */
  lemma Malformed(b: seq<Byte>, text: seq<Byte>, rest: seq<Byte>)
    ensures b != [] && 28 <= b[0] % 32 <= 30 ==> Decode(b) == Bad
    ensures |text| < LIMIT && Utf8.Decode(text) == None ==> Decode(Head(3, |text|) + text + rest) == Bad
  {
    if |text| < LIMIT && Utf8.Decode(text) == None {
      AfterHead(3, |text|, text, rest);
    }
  }

  lemma {:induction false} MalformedAll(items: seq<Value>, bad: seq<Byte>, count: nat)
    requires (forall i :: 0 <= i < |items| ==> Encodable(items[i])) && Decode(bad) == Bad && count > |items|
    ensures DecodeAll(EncodeAll(items) + bad, count) == BadAll
    decreases |items|
  {
    if items == [] {
      assert EncodeAll(items) + bad == bad;
    } else {
      var first, tail := Encode(items[0]), EncodeAll(items[1..]);
      Associative(first, tail, bad);
      RoundTrip(items[0], tail + bad);
      MalformedAll(items[1..], bad, count - 1);
      DecodeAllStep(first, items[0], tail + bad, count - 1);
    }
  }

  /** A list with a malformed item is malformed, whatever is whole before it. */
  lemma MalformedList(items: seq<Value>, bad: seq<Byte>, count: nat)
    requires (forall i :: 0 <= i < |items| ==> Encodable(items[i])) && Decode(bad) == Bad && |items| < count < LIMIT
    ensures Decode(Head(4, count) + (EncodeAll(items) + bad)) == Bad
  {
    var body := EncodeAll(items) + bad;
    HeadRoundTrip(4, count, body);
    MalformedAll(items, bad, count);
    assert (Head(4, count) + body)[|Head(4, count)|..] == body;
  }

  lemma {:induction false} EncodeAllAppend(a: seq<Value>, b: seq<Value>)
    ensures EncodeAll(a + b) == EncodeAll(a) + EncodeAll(b)
  {
    if a == [] {
      assert a + b == b;
    } else {
      assert (a + b)[0] == a[0] && (a + b)[1..] == a[1..] + b;
      EncodeAllAppend(a[1..], b);
    }
  }

  // Examples of appendix A of RFC 8949

  lemma SmallExamples(n: nat)
    ensures n < 24 ==> Encode(UInt(n)) == [n]
    ensures 24 <= n < 0x100 ==> Encode(UInt(n)) == [0x18, n]
  {
    if 24 <= n < 0x100 {
      assert BigEndian(n, 1) == BigEndian(n / 256, 0) + [n % 256] == [n];
    }
  }

  lemma TwoBytes(n: nat, a: Byte, b: Byte)
    requires n == 0x100 * a + b
    ensures BigEndian(n, 2) == [a, b]
  {
    assert BigEndian(n / 256, 1) == BigEndian(n / 256 / 256, 0) + [n / 256 % 256] == [a];
  }

  lemma FourBytes(n: nat, a: Byte, b: Byte, c: Byte, d: Byte)
    requires n == 0x1000000 * a + 0x10000 * b + 0x100 * c + d
    ensures BigEndian(n, 4) == [a, b, c, d]
  {
    assert n / 256 == 0x10000 * a + 0x100 * b + c;
    assert n / 256 / 256 == 0x100 * a + b;
    TwoBytes(n / 256 / 256, a, b);
    assert BigEndian(n / 256, 3) == [a, b] + [c];
  }

  lemma EightBytes(n: nat, high: nat, low: nat, a: seq<Byte>, b: seq<Byte>)
    requires n == 0x1_0000_0000 * high + low && low < 0x1_0000_0000 && BigEndian(high, 4) == a && BigEndian(low, 4) == b
    ensures BigEndian(n, 8) == a + b
  {
    Below(n, high, low, 4);
  }

  /** The low bytes follow the high ones. */
  lemma {:induction false} Below(n: nat, high: nat, low: nat, width: nat)
    requires n == Bound(width) * high + low && low < Bound(width)
    ensures BigEndian(n, 4 + width) == BigEndian(high, 4) + BigEndian(low, width)
    decreases width
  {
    if width == 0 {
      assert BigEndian(high, 4) + [] == BigEndian(high, 4);
    } else {
      assert n == 256 * (Bound(width - 1) * high + low / 256) + low % 256;
      Below(n / 256, high, low / 256, width - 1);
      Associative(BigEndian(high, 4), BigEndian(low / 256, width - 1), [low % 256]);
    }
  }

  lemma NumberExamples(n: nat)
    ensures n == 1000 ==> Encode(UInt(n)) == [0x19, 0x03, 0xe8]
    ensures n == 1000000 ==> Encode(UInt(n)) == [0x1a, 0x00, 0x0f, 0x42, 0x40]
  {
    if n == 1000 {
      TwoBytes(n, 0x03, 0xe8);
    } else if n == 1000000 {
      FourBytes(n, 0x00, 0x0f, 0x42, 0x40);
    }
  }

  lemma LongExample(n: nat)
    requires n == 1000000000000
    ensures Encode(UInt(n)) == [0x1b] + [0x00, 0x00, 0x00, 0xe8] + [0xd4, 0xa5, 0x10, 0x00]
  {
    FourBytes(0xe8, 0x00, 0x00, 0x00, 0xe8);
    FourBytes(0xd4a51000, 0xd4, 0xa5, 0x10, 0x00);
    EightBytes(n, 0xe8, 0xd4a51000, [0x00, 0x00, 0x00, 0xe8], [0xd4, 0xa5, 0x10, 0x00]);
  }

  lemma StringExamples(bytes: seq<Byte>, text: string)
    ensures |bytes| < 24 ==> Encode(Bytes(bytes)) == [0x40 + |bytes|] + bytes
    ensures |Utf8.Encode(text)| < 24 ==> Encode(Text(text)) == [0x60 + |Utf8.Encode(text)|] + Utf8.Encode(text)
  {
  }

  lemma ListExample(items: seq<Value>)
    requires |items| < 24
    ensures Encode(List(items)) == [0x80 + |items|] + EncodeAll(items)
    ensures |items| == 2 ==> EncodeAll(items) == Encode(items[0]) + Encode(items[1])
  {
    if |items| == 2 {
      assert items[1..][1..] == [] && items[1..][0] == items[1];
      assert EncodeAll(items[1..]) == Encode(items[1]) + [];
    }
  }
}
