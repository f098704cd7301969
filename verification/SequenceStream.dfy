/**
 Sequence streams: a producer encodes each item once and cuts the bytes at
 `max_chunk`; relays may cut them again; the demux puts the fragments together
 and delivers whole items.
 */
module SequenceStream {
  import opened Common
  import opened Utf8
  import opened Cbor
  import opened Fnv

  // The producer

  /** The bytes cut into pieces of at most `maxChunk`. */
  function Pieces(bytes: seq<Byte>, maxChunk: nat): seq<seq<Byte>>
    requires maxChunk >= 1
    decreases |bytes|
  {
    if bytes == [] then []
    else
      var size := Min(maxChunk, |bytes|);
      [bytes[..size]] + Pieces(bytes[size..], maxChunk)
  }

  /** The pieces are the bytes, none is empty and none is over the limit. */
  lemma {:induction false} PiecesFit(bytes: seq<Byte>, maxChunk: nat)
    requires maxChunk >= 1
    ensures Flatten(Pieces(bytes, maxChunk)) == bytes
    ensures forall i :: 0 <= i < |Pieces(bytes, maxChunk)| ==> 1 <= |Pieces(bytes, maxChunk)[i]| <= maxChunk
    decreases |bytes|
  {
    if bytes != [] {
      var size := Min(maxChunk, |bytes|);
      PiecesFit(bytes[size..], maxChunk);
      assert bytes == bytes[..size] + bytes[size..];
    }
  }

  /** Every piece but the last is as long as a piece may be. */
  lemma {:induction false} PiecesFull(bytes: seq<Byte>, maxChunk: nat)
    requires maxChunk >= 1
    ensures forall i :: 0 <= i < |Pieces(bytes, maxChunk)| - 1 ==> |Pieces(bytes, maxChunk)[i]| == maxChunk
    decreases |bytes|
  {
    if |bytes| > maxChunk {
      PiecesFull(bytes[maxChunk..], maxChunk);
    } else if bytes != [] {
      assert Pieces(bytes[|bytes|..], maxChunk) == [];
    }
  }

  /** One step of a loop that cuts the bytes from the front. */
  lemma PiecesStep(bytes: seq<Byte>, offset: nat, size: nat, maxChunk: nat, done: seq<seq<Byte>>)
    requires maxChunk >= 1 && offset < |bytes| && size == Min(maxChunk, |bytes| - offset)
    requires Pieces(bytes, maxChunk) == done + Pieces(bytes[offset..], maxChunk)
    ensures Pieces(bytes, maxChunk) == (done + [bytes[offset..offset + size]]) + Pieces(bytes[offset + size..], maxChunk)
  {
    assert bytes[offset..][..size] == bytes[offset..offset + size];
    assert bytes[offset..][size..] == bytes[offset + size..];
  }

  /** A CHUNK frame's payload and the checksum it carries, if any. */
  datatype Fragment = Fragment(payload: seq<Byte>, checksum: Option<nat>)

  function Sealed(payload: seq<Byte>): Fragment {
    Fragment(payload, Some(Checksum(payload)))
  }

  function SealAll(payloads: seq<seq<Byte>>): seq<Fragment> {
    seq(|payloads|, i requires 0 <= i < |payloads| => Sealed(payloads[i]))
  }

  method EmitListItem(value: Value, maxChunk: nat) returns (frames: seq<Fragment>)
    requires maxChunk >= 1
    ensures frames == SealAll(Pieces(Cbor.Encode(value), maxChunk))
  {
    frames := CutAndSeal(Cbor.Encode(value), maxChunk);
  }

  method CutAndSeal(bytes: seq<Byte>, maxChunk: nat) returns (frames: seq<Fragment>)
    requires maxChunk >= 1
    ensures frames == SealAll(Pieces(bytes, maxChunk))
  {
    frames := [];
    var offset := 0;
    ghost var done: seq<seq<Byte>> := [];
    assert bytes[0..] == bytes;
    while offset < |bytes|
      invariant 0 <= offset <= |bytes|
      invariant Pieces(bytes, maxChunk) == done + Pieces(bytes[offset..], maxChunk)
      invariant frames == SealAll(done)
    {
      var size := Min(maxChunk, |bytes| - offset);
      var payload := bytes[offset..offset + size];
      PiecesStep(bytes, offset, size, maxChunk, done);
      done := done + [payload];
      var hash := ComputeChecksum(payload);
      frames := frames + [Fragment(payload, Some(hash))];
      offset := offset + size;
    }
    assert Pieces(bytes[offset..], maxChunk) == [] && done + [] == done;
  }

  // The demux

  datatype Delivered = Value(value: Cbor.Value) | MissingChecksum | ChecksumMismatch | DecodeError | EndedMidItem

  /** Every whole item at the front of the buffer, and what is left of it. */
  function Drain(buf: seq<Byte>): (seq<Byte>, seq<Delivered>)
    decreases |buf|
  {
    match Cbor.Decode(buf)
    case Cut => (buf, [])
    case Bad => ([], [DecodeError])
    case Item(value, size) =>
      if buf[size..] == [] then ([], [Value(value)])
      else
        var (rest, out) := Drain(buf[size..]);
        (rest, [Value(value)] + out)
  }

  method DrainAll(received: seq<Byte>) returns (buf: seq<Byte>, out: seq<Delivered>)
    ensures (buf, out) == Drain(received)
  {
    buf, out := received, [];
    var decoding := true;
    assert [] + Drain(received).1 == Drain(received).1;
    while decoding
      invariant decoding ==> Drain(received) == (Drain(buf).0, out + Drain(buf).1)
      invariant !decoding ==> Drain(received) == (buf, out)
      decreases decoding, |buf|
    {
      ghost var before, ahead := out, Drain(buf).1;
      match Cbor.Decode(buf)
      case Item(value, size) =>
        out := out + [Value(value)];
        buf := buf[size..];
        decoding := buf != [];
        assert decoding ==> before + ahead == out + Drain(buf).1;
      case Cut =>
        decoding := false;
        assert out + [] == out;
      case Bad =>
        out := out + [DecodeError];
        buf, decoding := [], false;
    }
  }

  function AcceptFragment(buf: seq<Byte>, f: Fragment): (seq<Byte>, seq<Delivered>) {
    if f.payload == [] then (buf, [])
    else if f.checksum.None? then (buf, [MissingChecksum])
    else if f.checksum.value != Checksum(f.payload) then (buf, [ChecksumMismatch])
    else Drain(buf + f.payload)
  }

  class SeqReassembly {
    var buf: seq<Byte>

    constructor ()
      ensures buf == []
    {
      buf := [];
    }

    /** One CHUNK. `continues` is whether it goes on an item the buffer holds a
        part of: those chunks are granted back at once. */
    method Accept(f: Fragment) returns (out: seq<Delivered>, continues: bool)
      modifies this
      ensures (buf, out) == AcceptFragment(old(buf), f)
      ensures continues <==> old(buf) != [] && f.payload != [] && f.checksum == Some(Checksum(f.payload))
    {
      out, continues := [], false;
      if f.payload == [] {
        return;
      }
      if f.checksum.None? {
        return [MissingChecksum], false;
      }
      var actual := ComputeChecksum(f.payload);
      if actual != f.checksum.value {
        return [ChecksumMismatch], false;
      }
      continues := buf != [];
      buf, out := DrainAll(buf + f.payload);
    }

    /** STREAM_END: a stream that stops inside an item says so. */
    method Finish() returns (out: seq<Delivered>)
      ensures out == if buf == [] then [] else [EndedMidItem]
    {
      out := if |buf| > 0 then [EndedMidItem] else [];
    }
  }

  /** A demux after some fragments: its buffer and what it delivered. */
  function Feed(frames: seq<Fragment>): (seq<Byte>, seq<Delivered>) {
    if frames == [] then ([], [])
    else
      var (buf, out) := Feed(frames[..|frames| - 1]);
      var (rest, more) := AcceptFragment(buf, frames[|frames| - 1]);
      (rest, out + more)
  }

  function AsDelivered(items: seq<Cbor.Value>): seq<Delivered> {
    seq(|items|, i requires 0 <= i < |items| => Value(items[i]))
  }

  predicate AllEncodable(items: seq<Cbor.Value>) {
    forall i :: 0 <= i < |items| ==> Encodable(items[i])
  }

  /** What a demux has made of the first `|received|` bytes of a CBOR sequence:
      the first `k` items are delivered, and the buffer holds a proper part of
      the next, or nothing. */
  ghost predicate Reassembled(items: seq<Cbor.Value>, received: seq<Byte>, k: nat, buf: seq<Byte>, out: seq<Delivered>) {
    && k <= |items|
    && out == AsDelivered(items[..k])
    && EncodeAll(items[..k]) + buf == received
    && (if k == |items| then buf == [] else buf <= Cbor.Encode(items[k]) && |buf| < |Cbor.Encode(items[k])|)
  }

  lemma ItemsSplit(items: seq<Cbor.Value>, k: nat)
    requires k <= |items|
    ensures EncodeAll(items) == EncodeAll(items[..k]) + EncodeAll(items[k..])
  {
    var front, back := items[..k], items[k..];
    assert items == front + back;
    EncodeAllAppend(front, back);
  }

  lemma OneMoreItem(items: seq<Cbor.Value>, rest: seq<Byte>, k: nat, buf: seq<Byte>, out: seq<Delivered>)
    requires items != [] && Reassembled(items[1..], rest, k, buf, out)
    ensures Reassembled(items, Cbor.Encode(items[0]) + rest, k + 1, buf, [Value(items[0])] + out)
  {
    assert items[..k + 1][0] == items[0] && items[..k + 1][1..] == items[1..][..k];
  }

  lemma PartOfFirst(items: seq<Cbor.Value>, part: seq<Byte>)
    requires items != [] && Encodable(items[0]) && part != [] && part <= EncodeAll(items) && |part| < |Cbor.Encode(items[0])|
    ensures Reassembled(items, part, 0, Drain(part).0, Drain(part).1)
  {
    Truncated(items[0], |part|);
    assert part == Cbor.Encode(items[0])[..|part|];
    assert items[..0] == [] && EncodeAll(items[..0]) + part == part;
  }

  /** Draining a non-empty part of a CBOR sequence takes out its whole items. */
  lemma {:induction false} DrainTakesWholeItems(items: seq<Cbor.Value>, part: seq<Byte>) returns (k: nat)
    requires AllEncodable(items) && part != [] && part <= EncodeAll(items)
    ensures Reassembled(items, part, k, Drain(part).0, Drain(part).1)
    decreases |items|
  {
    var first, tail := Cbor.Encode(items[0]), items[1..];
    if |part| < |first| {
      PartOfFirst(items, part);
      k := 0;
    } else {
      var rest := part[|first|..];
      assert part == first + rest && rest <= EncodeAll(tail);
      Cbor.RoundTrip(items[0], rest);
      if rest == [] {
        assert tail[..0] == [] && EncodeAll(tail[..0]) + rest == rest;
        OneMoreItem(items, rest, 0, [], []);
        k := 1;
      } else {
        k := DrainTakesWholeItems(tail, rest);
        OneMoreItem(items, rest, k, Drain(rest).0, Drain(rest).1);
        k := k + 1;
      }
    }
  }

  lemma PartFits(items: seq<Cbor.Value>, received: seq<Byte>, k: nat, buf: seq<Byte>, payload: seq<Byte>)
    requires k <= |items| && EncodeAll(items[..k]) + buf == received && received + payload <= EncodeAll(items)
    ensures buf + payload <= EncodeAll(items[k..]) && EncodeAll(items[..k]) + (buf + payload) == received + payload
  {
    ItemsSplit(items, k);
    PrefixCancels(EncodeAll(items[..k]), buf, payload, EncodeAll(items[k..]));
  }

  lemma AsDeliveredAppend(a: seq<Cbor.Value>, b: seq<Cbor.Value>)
    ensures AsDelivered(a + b) == AsDelivered(a) + AsDelivered(b)
  {
  }

  lemma ItemsAfter(items: seq<Cbor.Value>, k: nat, later: seq<Cbor.Value>, j: nat,
                   more: seq<Byte>, rest: seq<Byte>, out: seq<Delivered>, next: seq<Delivered>)
    requires k <= |items| && later == items[k..] && out == AsDelivered(items[..k]) && Reassembled(later, more, j, rest, next)
    ensures Reassembled(items, EncodeAll(items[..k]) + more, k + j, rest, out + next)
  {
    var done, taken := items[..k], later[..j];
    assert items[..k + j] == done + taken;
    AsDeliveredAppend(done, taken);
    EncodeAllAppend(done, taken);
    Associative(EncodeAll(done), EncodeAll(taken), rest);
  }

  /** Draining what is left after `k` delivered items delivers the whole items of it. */
  lemma BytesStep(items: seq<Cbor.Value>, k: nat, later: seq<Cbor.Value>,
                  part: seq<Byte>, rest: seq<Byte>, out: seq<Delivered>, next: seq<Delivered>) returns (k': nat)
    requires k <= |items| && later == items[k..] && out == AsDelivered(items[..k])
    requires AllEncodable(later) && part != [] && part <= EncodeAll(later) && (rest, next) == Drain(part)
    ensures Reassembled(items, EncodeAll(items[..k]) + part, k', rest, out + next)
  {
    var j := DrainTakesWholeItems(later, part);
    ItemsAfter(items, k, later, j, part, rest, out, next);
    k' := k + j;
  }

  /** One more fragment takes a demux from one position of the sequence to the next. */
  lemma FragmentStep(items: seq<Cbor.Value>, received: seq<Byte>, k: nat, buf: seq<Byte>, out: seq<Delivered>, payload: seq<Byte>) returns (k': nat)
    requires AllEncodable(items) && Reassembled(items, received, k, buf, out) && received + payload <= EncodeAll(items)
    ensures var (rest, more) := AcceptFragment(buf, Sealed(payload));
            Reassembled(items, received + payload, k', rest, out + more)
  {
    if payload == [] {
      assert received + payload == received && out + [] == out;
      k' := k;
    } else {
      PartFits(items, received, k, buf, payload);
      var (rest, next) := Drain(buf + payload);
      k' := BytesStep(items, k, items[k..], buf + payload, rest, out, next);
    }
  }

  lemma FeedSnoc(front: seq<seq<Byte>>, last: seq<Byte>)
    ensures var (buf, out) := Feed(SealAll(front)); var (rest, more) := AcceptFragment(buf, Sealed(last));
            Feed(SealAll(front + [last])) == (rest, out + more)
  {
    var all := SealAll(front + [last]);
    assert all[..|front|] == SealAll(front) && all[|front|] == Sealed(last);
  }

  lemma {:induction false} FeedReassembles(items: seq<Cbor.Value>, payloads: seq<seq<Byte>>) returns (k: nat)
    requires AllEncodable(items) && Flatten(payloads) <= EncodeAll(items)
    ensures Reassembled(items, Flatten(payloads), k, Feed(SealAll(payloads)).0, Feed(SealAll(payloads)).1)
  {
    if payloads == [] {
      k := 0;
    } else {
      var front, last := payloads[..|payloads| - 1], payloads[|payloads| - 1];
      assert payloads == front + [last];
      FlattenSnoc(front, last);
      FeedSnoc(front, last);
      k := FeedReassembles(items, front);
      k := FragmentStep(items, Flatten(front), k, Feed(SealAll(front)).0, Feed(SealAll(front)).1, last);
    }
  }

  /** The number of whole items is determined by how much was received. */
  lemma WholeItems(items: seq<Cbor.Value>, received: seq<Byte>, k: nat, buf: seq<Byte>, out: seq<Delivered>)
    requires Reassembled(items, received, k, buf, out)
    ensures |EncodeAll(items[..k])| <= |received|
    ensures k < |items| ==> |received| < |EncodeAll(items[..k + 1])|
    ensures k == |items| ==> items[..k] == items && received == EncodeAll(items)
  {
    if k < |items| {
      assert items[..k + 1] == items[..k] + [items[k]];
      EncodeAllAppend(items[..k], [items[k]]);
      assert [items[k]][1..] == [];
    } else {
      assert items[..k] == items;
    }
  }

  lemma MoreItemsMoreBytes(items: seq<Cbor.Value>, j: nat, k: nat)
    requires j <= k <= |items|
    ensures |EncodeAll(items[..j])| <= |EncodeAll(items[..k])|
  {
    ItemsSplit(items[..k], j);
    assert items[..k][..j] == items[..j];
  }

  /** However the encoded items are fragmented on the way, the demux delivers
      exactly the items, in order, and ends at an item boundary. */
  lemma SequenceRoundTrip(items: seq<Cbor.Value>, payloads: seq<seq<Byte>>)
    requires AllEncodable(items) && Flatten(payloads) == EncodeAll(items)
    ensures Feed(SealAll(payloads)) == ([], AsDelivered(items))
  {
    var k := FeedReassembles(items, payloads);
    var (buf, out) := Feed(SealAll(payloads));
    WholeItems(items, Flatten(payloads), k, buf, out);
    MoreItemsMoreBytes(items, Min(k + 1, |items|), |items|);
    assert items[..|items|] == items;
  }

  /** Wherever a stream stops, the demux has delivered exactly the items that
      are whole, and its buffer is empty exactly at an item boundary: a stream
      that stops anywhere else ends in an error, never in a lost item. */
  lemma StopsWithErrorIffMidItem(items: seq<Cbor.Value>, payloads: seq<seq<Byte>>)
    requires AllEncodable(items) && Flatten(payloads) <= EncodeAll(items)
    ensures var (buf, out) := Feed(SealAll(payloads));
      && (buf == [] <==> exists k :: 0 <= k <= |items| && Flatten(payloads) == EncodeAll(items[..k]))
      && (exists k: nat :: k <= |items| && out == AsDelivered(items[..k])
            && |EncodeAll(items[..k])| <= |Flatten(payloads)|
            && (k < |items| ==> |Flatten(payloads)| < |EncodeAll(items[..k + 1])|))
  {
    var k := FeedReassembles(items, payloads);
    var (buf, out) := Feed(SealAll(payloads));
    WholeItems(items, Flatten(payloads), k, buf, out);
    if j :| 0 <= j <= |items| && Flatten(payloads) == EncodeAll(items[..j]) {
      MoreItemsMoreBytes(items, Min(j, k), k);
      if k < |items| {
        MoreItemsMoreBytes(items, Min(j, k + 1), Max(j, k + 1));
      }
    }
    if buf == [] {
      assert Flatten(payloads) == EncodeAll(items[..k]);
    }
  }

  /** The items produced one after another and delivered: the identity. */
  lemma {:induction false} ProducedItems(items: seq<Cbor.Value>, maxChunk: nat)
    requires AllEncodable(items) && maxChunk >= 1
    ensures Feed(SealAll(ProduceAll(items, maxChunk))) == ([], AsDelivered(items))
  {
    ProduceAllFlattens(items, maxChunk);
    SequenceRoundTrip(items, ProduceAll(items, maxChunk));
  }

  function ProduceAll(items: seq<Cbor.Value>, maxChunk: nat): seq<seq<Byte>>
    requires maxChunk >= 1
  {
    if items == [] then [] else Pieces(Cbor.Encode(items[0]), maxChunk) + ProduceAll(items[1..], maxChunk)
  }

  lemma {:induction false} ProduceAllFlattens(items: seq<Cbor.Value>, maxChunk: nat)
    requires maxChunk >= 1
    ensures Flatten(ProduceAll(items, maxChunk)) == EncodeAll(items)
  {
    if items != [] {
      ProduceAllFlattens(items[1..], maxChunk);
      PiecesFit(Cbor.Encode(items[0]), maxChunk);
      FlattenAppend(Pieces(Cbor.Encode(items[0]), maxChunk), ProduceAll(items[1..], maxChunk));
    }
  }

  // Fragments that are refused

  /** A payload whose checksum is missing, or is another payload's. */
  predicate Rejected(f: Fragment) {
    f.payload != [] && f.checksum != Some(Checksum(f.payload))
  }

  function Fault(f: Fragment): Delivered {
    if f.checksum == None then MissingChecksum else ChecksumMismatch
  }

  /** The fragments that are not refused, and the errors of those that are. */
  function Accepted(frames: seq<Fragment>): seq<Fragment> {
    if frames == [] then []
    else Accepted(frames[..|frames| - 1]) + if Rejected(frames[|frames| - 1]) then [] else [frames[|frames| - 1]]
  }

  function Faults(frames: seq<Fragment>): seq<Delivered> {
    if frames == [] then []
    else Faults(frames[..|frames| - 1]) + if Rejected(frames[|frames| - 1]) then [Fault(frames[|frames| - 1])] else []
  }

  predicate IsFault(d: Delivered) {
    d == MissingChecksum || d == ChecksumMismatch
  }

  function FaultsIn(out: seq<Delivered>): seq<Delivered> {
    if out == [] then []
    else FaultsIn(out[..|out| - 1]) + if IsFault(out[|out| - 1]) then [out[|out| - 1]] else []
  }

  function Without(out: seq<Delivered>): seq<Delivered> {
    if out == [] then []
    else Without(out[..|out| - 1]) + if IsFault(out[|out| - 1]) then [] else [out[|out| - 1]]
  }

  lemma {:induction false} SplitFaults(a: seq<Delivered>, b: seq<Delivered>)
    ensures FaultsIn(a + b) == FaultsIn(a) + FaultsIn(b) && Without(a + b) == Without(a) + Without(b)
    decreases |b|
  {
    if b == [] {
      assert a + b == a;
    } else {
      var front, last := b[..|b| - 1], b[|b| - 1];
      assert (a + b)[..|a + b| - 1] == a + front && (a + b)[|a + b| - 1] == last;
      SplitFaults(a, front);
    }
  }

  lemma {:induction false} NoFaultsIn(out: seq<Delivered>)
    requires forall d :: d in out ==> !IsFault(d)
    ensures FaultsIn(out) == [] && Without(out) == out
  {
    if out != [] {
      NoFaultsIn(out[..|out| - 1]);
    }
  }

  lemma {:induction false} DrainFindsNoFault(buf: seq<Byte>)
    ensures forall d :: d in Drain(buf).1 ==> !IsFault(d)
    decreases |buf|
  {
    match Cbor.Decode(buf)
    case Item(_, size) => if buf[size..] != [] { DrainFindsNoFault(buf[size..]); }
    case _ =>
  }

  /** A refused fragment leaves the buffer as it was and is answered with its one
      error; any other gives no such error. */
  lemma RefusedOrNot(buf: seq<Byte>, f: Fragment)
    ensures Rejected(f) ==> AcceptFragment(buf, f) == (buf, [Fault(f)])
    ensures !Rejected(f) ==> FaultsIn(AcceptFragment(buf, f).1) == [] && Without(AcceptFragment(buf, f).1) == AcceptFragment(buf, f).1
  {
    if !Rejected(f) {
      DrainFindsNoFault(buf + f.payload);
      NoFaultsIn(AcceptFragment(buf, f).1);
    }
  }

  lemma AcceptedSnoc(front: seq<Fragment>, f: Fragment)
    ensures Accepted(front + [f]) == if Rejected(f) then Accepted(front) else Accepted(front) + [f]
    ensures Faults(front + [f]) == if Rejected(f) then Faults(front) + [Fault(f)] else Faults(front)
  {
    assert (front + [f])[..|front|] == front;
  }

  lemma FeedOne(front: seq<Fragment>, f: Fragment, buf: seq<Byte>, out: seq<Delivered>)
    requires Feed(front) == (buf, out)
    ensures Feed(front + [f]) == (AcceptFragment(buf, f).0, out + AcceptFragment(buf, f).1)
  {
    assert (front + [f])[..|front|] == front;
  }

  lemma OneFault(d: Delivered)
    requires IsFault(d)
    ensures FaultsIn([d]) == [d] && Without([d]) == []
  {
    assert [d][..0] == [];
  }

  /** Whether the demux is ahead of itself without the refused fragments only by their
      errors. */
  predicate Unharmed(frames: seq<Fragment>, buf: seq<Byte>, out: seq<Delivered>) {
    (buf, Without(out)) == Feed(Accepted(frames)) && FaultsIn(out) == Faults(frames)
  }

  lemma UnharmedStep(front: seq<Fragment>, f: Fragment, buf: seq<Byte>, out: seq<Delivered>)
    requires Unharmed(front, buf, out)
    ensures Unharmed(front + [f], AcceptFragment(buf, f).0, out + AcceptFragment(buf, f).1)
  {
    RefusedOrNot(buf, f);
    AcceptedSnoc(front, f);
    SplitFaults(out, AcceptFragment(buf, f).1);
    if Rejected(f) {
      OneFault(Fault(f));
      assert Without(out) + [] == Without(out);
    } else {
      FeedOne(Accepted(front), f, buf, Without(out));
      assert FaultsIn(out) + [] == FaultsIn(out);
    }
  }

  /** Whatever fragments arrive: what is delivered, and what the buffer holds, is what
      the ones that are not refused make of it alone; and each refused one brings
      exactly its own error, in its turn. */
  lemma {:induction false} RefusedChangeNothing(frames: seq<Fragment>)
    ensures var (buf, out) := Feed(frames);
            && (buf, Without(out)) == Feed(Accepted(frames))
            && FaultsIn(out) == Faults(frames)
  {
    if frames != [] {
      var front, f := frames[..|frames| - 1], frames[|frames| - 1];
      assert frames == front + [f];
      RefusedChangeNothing(front);
      UnharmedStep(front, f, Feed(front).0, Feed(front).1);
      FeedOne(front, f, Feed(front).0, Feed(front).1);
    }
  }

  /** So a stream whose good fragments carry the items delivers the items. */
  lemma DamagedStreamDelivers(items: seq<Cbor.Value>, payloads: seq<seq<Byte>>, frames: seq<Fragment>)
    requires AllEncodable(items) && Flatten(payloads) == EncodeAll(items) && Accepted(frames) == SealAll(payloads)
    ensures Feed(frames).0 == [] && Without(Feed(frames).1) == AsDelivered(items) && FaultsIn(Feed(frames).1) == Faults(frames)
  {
    RefusedChangeNothing(frames);
    SequenceRoundTrip(items, payloads);
  }

  /** A payload of which one byte was changed on the way is never delivered. */
  lemma ChangedByteIsRefused(buf: seq<Byte>, payload: seq<Byte>, changed: seq<Byte>, at: nat)
    requires |payload| == |changed| && at < |payload| && payload[at] != changed[at]
    requires forall i :: 0 <= i < |payload| && i != at ==> payload[i] == changed[i]
    ensures AcceptFragment(buf, Sealed(payload).(payload := changed)) == (buf, [ChecksumMismatch])
  {
    OneByteChangesChecksum(payload, changed, at);
    RefusedOrNot(buf, Sealed(payload).(payload := changed));
  }

  lemma DrainOne(first: seq<Byte>, v: Cbor.Value, after: seq<Byte>, drained: (seq<Byte>, seq<Delivered>))
    requires after != [] && Cbor.Decode(first + after) == Item(v, |first|) && drained == Drain(after)
    ensures Drain(first + after) == (drained.0, [Value(v)] + drained.1)
  {
    assert (first + after)[|first|..] == after;
  }

  lemma FirstItem(items: seq<Cbor.Value>, rest: seq<Byte>)
    requires items != []
    ensures EncodeAll(items) + rest == Cbor.Encode(items[0]) + (EncodeAll(items[1..]) + rest)
    ensures AsDelivered(items) == [Value(items[0])] + AsDelivered(items[1..])
  {
    Associative(Cbor.Encode(items[0]), EncodeAll(items[1..]), rest);
  }

  /** `bytes` drained: the items, one error, and nothing kept. */
  predicate EndsMalformed(bytes: seq<Byte>, items: seq<Delivered>) {
    bytes != [] && Drain(bytes) == ([], items + [DecodeError])
  }

  lemma MalformedLater(v: Cbor.Value, after: seq<Byte>, items: seq<Delivered>)
    requires Encodable(v) && EndsMalformed(after, items)
    ensures EndsMalformed(Cbor.Encode(v) + after, [Value(v)] + items)
  {
    Cbor.RoundTrip(v, after);
    DrainOne(Cbor.Encode(v), v, after, Drain(after));
    Associative([Value(v)], items, [DecodeError]);
  }

  /** An item that is malformed: the whole ones before it are delivered, then one
      error, and nothing of the rest is kept. */
  lemma {:induction false} MalformedItem(items: seq<Cbor.Value>, rest: seq<Byte>)
    requires AllEncodable(items) && rest != [] && Cbor.Decode(rest) == Bad
    ensures EndsMalformed(EncodeAll(items) + rest, AsDelivered(items))
  {
    if items == [] {
      assert EncodeAll(items) + rest == rest && AsDelivered(items) + [DecodeError] == [DecodeError];
    } else {
      MalformedItem(items[1..], rest);
      FirstItem(items, rest);
      MalformedLater(items[0], EncodeAll(items[1..]) + rest, AsDelivered(items[1..]));
    }
  }
}
