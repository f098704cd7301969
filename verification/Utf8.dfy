/** UTF-8 (section 3 of RFC 3629), as the strict encoder and decoder. */
module Utf8 {
  import opened Common

  type Byte = n: int | 0 <= n < 256

  function EncodeChar(c: char): (b: seq<Byte>)
    ensures 1 <= |b| <= 4
  {
    var n := c as int;
    if n < 0x80 then [n]
    else if n < 0x800 then [0xC0 + n / 64, Tail(n)]
    else if n < 0x10000 then [0xE0 + n / 64 / 64, Tail(n / 64), Tail(n)]
    else [0xF0 + n / 64 / 64 / 64, Tail(n / 64 / 64), Tail(n / 64), Tail(n)]
  }

  /** A continuation byte: the low six bits. */
  function Tail(n: nat): Byte {
    0x80 + n % 64
  }

  function Encode(text: string): seq<Byte> {
    if text == [] then [] else EncodeChar(text[0]) + Encode(text[1..])
  }

  predicate Continues(b: seq<Byte>, from: nat, to: nat)
    requires from <= to <= |b|
  {
    forall i :: from <= i < to ==> 0x80 <= b[i] < 0xC0
  }

  /** The bits of continuation byte `t` after those of `front`. */
  function Join(front: nat, t: Byte): nat
    requires 0x80 <= t
  {
    front * 64 + (t - 0x80)
  }

  /** The character at the front, if a whole and shortest one is there. */
  function FirstChar(b: seq<Byte>): (r: Option<(char, nat)>)
    ensures r.Some? ==> 1 <= r.value.1 <= |b|
  {
    if b == [] then None
    else
      var b0: int := b[0];
      if b0 < 0x80 then Some((b0 as char, 1))
      else if 0xC2 <= b0 < 0xE0 && |b| >= 2 && Continues(b, 1, 2) then
        Some((Join(b0 - 0xC0, b[1]) as char, 2))
      else if 0xE0 <= b0 < 0xF0 && |b| >= 3 && Continues(b, 1, 3)
              && (b0 == 0xE0 ==> b[1] >= 0xA0) && (b0 == 0xED ==> b[1] < 0xA0) then
        Some((Join(Join(b0 - 0xE0, b[1]), b[2]) as char, 3))
      else if 0xF0 <= b0 < 0xF5 && |b| >= 4 && Continues(b, 1, 4)
              && (b0 == 0xF0 ==> b[1] >= 0x90) && (b0 == 0xF4 ==> b[1] < 0x90) then
        Some((Join(Join(Join(b0 - 0xF0, b[1]), b[2]), b[3]) as char, 4))
      else None
  }

  function Decode(b: seq<Byte>): Option<string>
    decreases |b|
  {
    if b == [] then Some([])
    else
      match FirstChar(b)
      case None => None
      case Some((c, width)) =>
        match Decode(b[width..])
        case None => None
        case Some(rest) => Some([c] + rest)
  }

  lemma CharRoundTrip(c: char, rest: seq<Byte>)
    ensures FirstChar(EncodeChar(c) + rest) == Some((c, |EncodeChar(c)|))
  {
    var n, b, e := c as int, EncodeChar(c) + rest, EncodeChar(c);
    assert forall i :: 0 <= i < |e| ==> b[i] == e[i];
    if n < 0x800 {
    } else if n < 0x10000 {
      assert n / 64 / 64 == 13 ==> n / 64 % 64 < 32;
      assert n / 64 / 64 == 0 ==> n / 64 % 64 >= 32;
    } else {
      assert n / 64 / 64 / 64 == 0 ==> n / 64 / 64 % 64 >= 16;
      assert n / 64 / 64 / 64 == 4 ==> n / 64 / 64 % 64 < 16;
    }
  }

  lemma {:induction false} RoundTrip(text: string)
    ensures Decode(Encode(text)) == Some(text)
  {
    if text != [] {
      CharRoundTrip(text[0], Encode(text[1..]));
      RoundTrip(text[1..]);
      assert Encode(text)[|EncodeChar(text[0])|..] == Encode(text[1..]);
      assert text == [text[0]] + text[1..];
    }
  }

  lemma JoinSplits(front: nat, t: Byte)
    requires 0x80 <= t < 0xC0
    ensures Join(front, t) / 64 == front && Tail(Join(front, t)) == t
  {
  }

  lemma EncodesTwo(c: char, front: Byte, t: Byte)
    requires front < 32 && 0x80 <= t < 0xC0 && c as int == Join(front, t) && c as int >= 0x80
    ensures EncodeChar(c) == [0xC0 + front, t]
  {
    JoinSplits(front, t);
  }

  lemma EncodesThree(c: char, front: Byte, m: nat, t: Byte, u: Byte)
    requires front < 16 && 0x80 <= t < 0xC0 && 0x80 <= u < 0xC0
    requires m == Join(front, t) && c as int == Join(m, u) && c as int >= 0x800
    ensures EncodeChar(c) == [0xE0 + front, t, u]
  {
    JoinSplits(front, t);
    JoinSplits(m, u);
  }

  lemma EncodesFour(c: char, front: Byte, m: nat, n: nat, t: Byte, u: Byte, v: Byte)
    requires front < 8 && 0x80 <= t < 0xC0 && 0x80 <= u < 0xC0 && 0x80 <= v < 0xC0
    requires m == Join(front, t) && n == Join(m, u) && c as int == Join(n, v) && c as int >= 0x10000
    ensures EncodeChar(c) == [0xF0 + front, t, u, v]
  {
    JoinSplits(front, t);
    JoinSplits(m, u);
    JoinSplits(n, v);
  }

  /** What is read as a character is how that character is written: no longer form of
      it, and no surrogate. */
  lemma OnlyEncodedChars(b: seq<Byte>, c: char, width: nat)
    requires FirstChar(b) == Some((c, width))
    ensures EncodeChar(c) == b[..width]
  {
    var b0: int := b[0];
    if b0 < 0xE0 {
      if b0 >= 0x80 {
        EncodesTwo(c, b0 - 0xC0, b[1]);
      }
    } else if b0 < 0xF0 {
      EncodesThree(c, b0 - 0xE0, Join(b0 - 0xE0, b[1]), b[1], b[2]);
    } else {
      var m := Join(b0 - 0xF0, b[1]);
      EncodesFour(c, b0 - 0xF0, m, Join(m, b[2]), b[1], b[2], b[3]);
    }
  }

  lemma OnlyEncodedFront(b: seq<Byte>, c: char, width: nat, rest: string)
    requires FirstChar(b) == Some((c, width)) && Encode(rest) == b[width..]
    ensures Encode([c] + rest) == b
  {
    OnlyEncodedChars(b, c, width);
    EncodeFront(c, rest);
    assert b == b[..width] + b[width..];
  }

  /** Decoding accepts nothing but what encoding makes. */
  lemma {:induction false} OnlyEncodings(b: seq<Byte>)
    requires Decode(b).Some?
    ensures Encode(Decode(b).value) == b
    decreases |b|
  {
    if b != [] {
      var first := FirstChar(b).value;
      var rest := b[first.1..];
      OnlyEncodings(rest);
      OnlyEncodedFront(b, first.0, first.1, Decode(rest).value);
    }
  }

  lemma EncodeFront(c: char, rest: string)
    ensures Encode([c] + rest) == EncodeChar(c) + Encode(rest)
  {
    assert ([c] + rest)[1..] == rest;
  }

  lemma PrefixHead(text: string, j: nat)
    requires 0 < j <= |text|
    ensures text[..j] == [text[0]] + text[1..][..j - 1]
    ensures Encode(text[..j]) == EncodeChar(text[0]) + Encode(text[1..][..j - 1])
  {
    assert text[..j][0] == text[0] && text[..j][1..] == text[1..][..j - 1];
  }

  lemma {:induction false} EncodeAppend(a: string, b: string)
    ensures Encode(a + b) == Encode(a) + Encode(b)
  {
    if a == [] {
      assert a + b == b;
    } else {
      assert (a + b)[0] == a[0] && (a + b)[1..] == a[1..] + b;
      EncodeAppend(a[1..], b);
    }
  }

  /** Cutting an encoded text after `i` bytes leaves whole characters exactly when
      some number of its characters takes `i` bytes. */
  lemma {:induction false} CutsAtBoundary(text: string, i: nat)
    requires i <= |Encode(text)|
    ensures Decode(Encode(text)[..i]).Some? <==> exists j :: 0 <= j <= |text| && |Encode(text[..j])| == i
    ensures forall j :: 0 <= j <= |text| && |Encode(text[..j])| == i ==> Decode(Encode(text)[..i]) == Some(text[..j])
  {
    forall j | 0 < j <= |text|
      ensures text[..j] == [text[0]] + text[1..][..j - 1]
      ensures Encode(text[..j]) == EncodeChar(text[0]) + Encode(text[1..][..j - 1])
    {
      PrefixHead(text, j);
    }
    if i == 0 {
      assert Encode(text[..0]) == [];
    } else {
      var first, rest, cut := EncodeChar(text[0]), text[1..], Encode(text)[..i];
      if i < |first| {
        assert cut == first[..i];
      } else {
        CharRoundTrip(text[0], Encode(rest)[..i - |first|]);
        assert cut == first + Encode(rest)[..i - |first|];
        assert cut[|first|..] == Encode(rest)[..i - |first|];
        CutsAtBoundary(rest, i - |first|);
        if j :| 0 <= j <= |rest| && |Encode(rest[..j])| == i - |first| {
          assert |Encode(text[..j + 1])| == i;
        }
      }
    }
  }

  /** Examples of section 7 of RFC 3629, and one of each width. */
  lemma Examples(c: char)
    ensures c == 'A' ==> EncodeChar(c) == [0x41]
    ensures c == '\U{3A9}' ==> EncodeChar(c) == [0xce, 0xa9]
    ensures c == '\U{2262}' ==> EncodeChar(c) == [0xe2, 0x89, 0xa2]
    ensures c == '\U{233B4}' ==> EncodeChar(c) == [0xf0, 0xa3, 0x8e, 0xb4]
  {
  }
}
