/**
 Scalar streams: small writes are coalesced, large ones are cut at `max_chunk`,
 text only between characters, and every CHUNK payload is one CBOR value. The
 receiver decodes each chunk on its own and joins what they carry.
 */
module ScalarStream {
  import opened Common
  import opened Utf8
  import opened Cbor
  import opened Fnv
  import opened SequenceStream

  const COALESCE_MAX_BYTES: nat := 4096
  const COALESCE_MAX_AGE: real := 0.020

  class CoalesceBuf {
    var buf: seq<Byte>
    var oldest: Option<real>

    constructor ()
      ensures buf == [] && oldest == None
    {
      buf, oldest := [], None;
    }

    /** `firstClock` and `clock` are the two readings of the clock: no order
        between them, nor with earlier ones, is assumed. */
    method Append(data: seq<Byte>, firstClock: real, clock: real) returns (due: Option<seq<Byte>>)
      modifies this
      ensures var all := old(buf) + data;
              var start := if old(buf) == [] then Some(firstClock) else old(oldest);
              if |all| >= 4096 || (start.Some? && clock - start.value >= 0.020)
              then due == Some(all) && buf == [] && oldest == None
              else due == None && buf == all && oldest == start
    {
      if buf == [] {
        oldest := Some(firstClock);
      }
      buf := buf + data;
      var aged := oldest.Some? && clock - oldest.value >= COALESCE_MAX_AGE;
      if |buf| >= COALESCE_MAX_BYTES || aged {
        due := Some(buf);
        buf, oldest := [], None;
      } else {
        due := None;
      }
    }

    method Take() returns (batch: Option<seq<Byte>>)
      modifies this
      ensures batch == if old(buf) == [] then None else Some(old(buf))
      ensures buf == []
    {
      if buf == [] {
        return None;
      }
      batch := Some(buf);
      buf, oldest := [], None;
    }
  }

  datatype StreamFrame =
    | Start(unbounded: bool)
    | Chunk(index: nat, chunk: Fragment)
    | StreamEnd(count: Option<nat>)

  // The receiver

  /** What `collect_bytes` takes from a value: strings as they are, anything else
      encoded. */
  function Inner(v: Value): seq<Byte> {
    match v
    case Bytes(b) => b
    case Text(t) => Utf8.Encode(t)
    case _ => Cbor.Encode(v)
  }

  /** One frame at the receiver: the bytes it adds, or `None` for an error. */
  function Collect(f: StreamFrame): Option<seq<Byte>> {
    match f
    case Start(_) => Some([])
    case StreamEnd(_) => Some([])
    case Chunk(_, chunk) =>
      if chunk.payload == [] then Some([])
      else if chunk.checksum != Some(Checksum(chunk.payload)) then None
      else match Cbor.Decode(chunk.payload) case Item(v, _) => Some(Inner(v)) case _ => None
  }

  /** The demux of a scalar stream followed by `collect_bytes`. */
  function CollectBytes(frames: seq<StreamFrame>): Option<seq<Byte>> {
    if frames == [] then Some([])
    else
      match CollectBytes(frames[..|frames| - 1])
      case None => None
      case Some(bytes) =>
        match Collect(frames[|frames| - 1]) case None => None case Some(more) => Some(bytes + more)
  }

  lemma CollectSnoc(frames: seq<StreamFrame>, f: StreamFrame)
    requires CollectBytes(frames).Some? && Collect(f).Some?
    ensures CollectBytes(frames + [f]) == Some(CollectBytes(frames).value + Collect(f).value)
  {
    assert (frames + [f])[..|frames|] == frames;
  }

  lemma CollectValue(v: Value, index: nat)
    requires Encodable(v)
    ensures Collect(Chunk(index, Sealed(Cbor.Encode(v)))) == Some(Inner(v))
  {
    Cbor.RoundTrip(v, []);
    assert Cbor.Encode(v) + [] == Cbor.Encode(v);
  }

  /** A string is collected as it is, anything else so that it can be read back; and
      an empty chunk is nothing. */
  lemma CollectedIs(v: Value, index: nat, checksum: Option<nat>)
    requires Encodable(v)
    ensures var inner := Collect(Chunk(index, Sealed(Cbor.Encode(v))));
            && (v.Bytes? ==> inner == Some(v.bytes)) && (v.Text? ==> inner == Some(Utf8.Encode(v.text)))
            && (!v.Bytes? && !v.Text? ==> inner.Some? && Cbor.Decode(inner.value) == Item(v, |inner.value|))
    ensures Collect(Chunk(index, Fragment([], checksum))) == Some([])
  {
    CollectValue(v, index);
    Cbor.RoundTrip(v, []);
    assert Cbor.Encode(v) + [] == Cbor.Encode(v);
  }

  /** One frame that brings an error spoils what is collected. */
  lemma {:induction false} CollectsIff(frames: seq<StreamFrame>)
    ensures CollectBytes(frames).Some? <==> forall i :: 0 <= i < |frames| ==> Collect(frames[i]).Some?
  {
    if frames != [] {
      CollectsIff(frames[..|frames| - 1]);
    }
  }

  /** Chunks whose checksum is missing or not their payload's are never collected. */
  lemma DamagedIsRefused(frames: seq<StreamFrame>, i: nat)
    requires i < |frames| && frames[i].Chunk? && frames[i].chunk.payload != []
    requires frames[i].chunk.checksum != Some(Checksum(frames[i].chunk.payload))
    ensures CollectBytes(frames) == None
  {
    CollectsIff(frames);
  }

  /** Nor is one with a byte changed on the way. */
  lemma ChangedByteSpoils(frames: seq<StreamFrame>, i: nat, payload: seq<Byte>, at: nat)
    requires i < |frames| && frames[i].Chunk? && frames[i].chunk == Sealed(payload).(payload := frames[i].chunk.payload)
    requires |payload| == |frames[i].chunk.payload| && at < |payload| && payload[at] != frames[i].chunk.payload[at]
    requires forall j :: 0 <= j < |payload| && j != at ==> payload[j] == frames[i].chunk.payload[j]
    ensures CollectBytes(frames) == None
  {
    OneByteChangesChecksum(payload, frames[i].chunk.payload, at);
    DamagedIsRefused(frames, i);
  }

  // The sender

  /** A chunk can carry any value that is no longer than `maxChunk` if it is a string. */
  predicate Fits(v: Value, maxChunk: nat) {
    Encodable(v) && (v.Bytes? || v.Text? ==> 1 <= |Inner(v)| <= maxChunk)
  }

  predicate AllFit(values: seq<Value>, maxChunk: nat) {
    values != [] ==> AllFit(values[..|values| - 1], maxChunk) && Fits(values[|values| - 1], maxChunk)
  }

  /** A chunk for each value, numbered from 0. */
  function Carrying(values: seq<Value>): (chunks: seq<StreamFrame>)
    ensures |chunks| == |values|
  {
    if values == [] then []
    else
      var last := |values| - 1;
      Carrying(values[..last]) + [Chunk(last, Sealed(Cbor.Encode(values[last])))]
  }

  /** STREAM_START, the chunks, and once closed a STREAM_END that carries their
      number unless the stream promised none. */
  predicate WellFormed(frames: seq<StreamFrame>, values: seq<Value>, unbounded: bool, closed: bool, maxChunk: nat) {
    && AllFit(values, maxChunk)
    && frames == [Start(unbounded)] + Carrying(values)
                 + if closed then [StreamEnd(if unbounded then None else Some(|values|))] else []
  }

  lemma CarryingSnoc(values: seq<Value>, v: Value, maxChunk: nat)
    requires AllFit(values, maxChunk) && Fits(v, maxChunk)
    ensures AllFit(values + [v], maxChunk)
    ensures Carrying(values + [v]) == Carrying(values) + [Chunk(|values|, Sealed(Cbor.Encode(v)))]
  {
    assert (values + [v])[..|values|] == values;
  }

  /** What one more chunk adds to the frames and to what the receiver has of them. */
  lemma OneMoreChunk(frames: seq<StreamFrame>, values: seq<Value>, unbounded: bool, collected: seq<Byte>, v: Value, maxChunk: nat)
    requires WellFormed(frames, values, unbounded, false, maxChunk) && Fits(v, maxChunk) && CollectBytes(frames) == Some(collected)
    ensures var chunk := Chunk(|values|, Sealed(Cbor.Encode(v)));
            && WellFormed(frames + [chunk], values + [v], unbounded, false, maxChunk)
            && CollectBytes(frames + [chunk]) == Some(collected + Inner(v))
  {
    CarryingSnoc(values, v, maxChunk);
    CollectValue(v, |values|);
    CollectSnoc(frames, Chunk(|values|, Sealed(Cbor.Encode(v))));
  }

  /** How many characters of a text go out: up to the first that is wider than a
      chunk. */
  function Sendable(text: string, maxChunk: nat): (n: nat)
    ensures n <= |text|
  {
    if text != [] && |EncodeChar(text[0])| <= maxChunk then 1 + Sendable(text[1..], maxChunk) else 0
  }

  function SentBytes(text: string, maxChunk: nat): seq<Byte> {
    Utf8.Encode(text[..Sendable(text, maxChunk)])
  }

  predicate SentWhole(text: string, maxChunk: nat) {
    forall i :: 0 <= i < |text| ==> |EncodeChar(text[i])| <= maxChunk
  }

  lemma {:induction false} SendableAllIff(text: string, maxChunk: nat)
    ensures Sendable(text, maxChunk) == |text| <==> SentWhole(text, maxChunk)
    decreases |text|
  {
    if text != [] && |EncodeChar(text[0])| <= maxChunk {
      SendableAllIff(text[1..], maxChunk);
      assert forall i :: 0 < i < |text| ==> text[i] == text[1..][i - 1];
      assert forall i :: 0 <= i < |text| - 1 ==> text[1..][i] == text[i + 1];
    }
  }

  lemma NothingSent(text: string, maxChunk: nat, before: seq<Byte>, target: seq<Byte>)
    requires text == [] || |EncodeChar(text[0])| > maxChunk
    requires before + SentBytes(text, maxChunk) == target
    ensures before == target
    ensures Sendable(text, maxChunk) == 0
  {
    assert text[..Sendable(text, maxChunk)] == [];
    assert before + [] == before;
  }

  lemma SentSplits(text: string, chars: nat, maxChunk: nat)
    requires chars <= |text| && |Utf8.Encode(text[..chars])| <= maxChunk
    ensures Sendable(text, maxChunk) == chars + Sendable(text[chars..], maxChunk)
    ensures SentBytes(text, maxChunk) == Utf8.Encode(text[..chars]) + SentBytes(text[chars..], maxChunk)
  {
    var more := Sendable(text[chars..], maxChunk);
    NarrowChars(text, chars, maxChunk);
    SendableAfter(text, chars, maxChunk);
    SplitEncoded(text, chars, more);
  }

  /** Characters that fit one chunk together go out, then those after them. */
  lemma SentAfter(text: string, chars: nat, maxChunk: nat, before: seq<Byte>)
    requires chars <= |text| && |Utf8.Encode(text[..chars])| <= maxChunk
    ensures before + SentBytes(text, maxChunk) == before + Utf8.Encode(text[..chars]) + SentBytes(text[chars..], maxChunk)
    ensures Sendable(text, maxChunk) == chars + Sendable(text[chars..], maxChunk)
  {
    SentSplits(text, chars, maxChunk);
    Associative(before, Utf8.Encode(text[..chars]), SentBytes(text[chars..], maxChunk));
  }

  lemma SplitEncoded(text: string, chars: nat, more: nat)
    requires chars + more <= |text|
    ensures Utf8.Encode(text[..chars + more]) == Utf8.Encode(text[..chars]) + Utf8.Encode(text[chars..][..more])
  {
    assert text[..chars + more] == text[..chars] + text[chars..][..more];
    EncodeAppend(text[..chars], text[chars..][..more]);
  }

  lemma {:induction false} SendableAfter(text: string, j: nat, maxChunk: nat)
    requires j <= |text| && forall i :: 0 <= i < j ==> |EncodeChar(text[i])| <= maxChunk
    ensures Sendable(text, maxChunk) == j + Sendable(text[j..], maxChunk)
  {
    if j > 0 {
      SendableAfter(text[1..], j - 1, maxChunk);
      assert text[1..][j - 1..] == text[j..];
    } else {
      assert text[0..] == text;
    }
  }

  /** How many characters of a text `room` bytes can hold. */
  function Most(text: string, room: nat): (n: nat)
    ensures n <= |text|
  {
    if text == "" || |EncodeChar(text[0])| > room then 0 else 1 + Most(text[1..], room - |EncodeChar(text[0])|)
  }

  /** How many chunks a text goes out in, up to a character no chunk can hold. */
  function TextPieces(text: string, maxChunk: nat): nat
    decreases |text|
  {
    var n := Most(text, maxChunk);
    if n == 0 then 0 else 1 + TextPieces(text[n..], maxChunk)
  }

  lemma {:induction false} MostIs(text: string, room: nat, n: nat)
    requires n <= |text| && |Utf8.Encode(text[..n])| <= room
    requires n < |text| ==> |Utf8.Encode(text[..n + 1])| > room
    ensures Most(text, room) == n
    decreases n
  {
    if text != "" {
      PrefixHead(text, if n == 0 then 1 else n);
      if n < |text| {
        PrefixHead(text, n + 1);
      }
      if n > 0 {
        MostIs(text[1..], room - |EncodeChar(text[0])|, n - 1);
      }
    }
  }

  /** How many pieces the bytes from `offset` on are cut into. */
  ghost function PiecesFrom(batch: seq<Byte>, offset: nat, maxChunk: nat): nat
    requires maxChunk >= 1 && offset <= |batch|
  {
    |Pieces(batch[offset..], maxChunk)|
  }

  lemma OnePieceLess(batch: seq<Byte>, offset: nat, size: nat, maxChunk: nat)
    requires maxChunk >= 1 && offset < |batch| && size == Min(maxChunk, |batch| - offset)
    ensures PiecesFrom(batch, offset, maxChunk) == 1 + PiecesFrom(batch, offset + size, maxChunk)
  {
    assert batch[offset..][size..] == batch[offset + size..];
  }

  lemma AllPieces(batch: seq<Byte>, maxChunk: nat)
    requires maxChunk >= 1
    ensures PiecesFrom(batch, 0, maxChunk) == |Pieces(batch, maxChunk)| && PiecesFrom(batch, |batch|, maxChunk) == 0
  {
    assert batch[0..] == batch;
  }

  datatype SendError = AlreadyClosed | CannotSplit

  /** The back-off loop: the longest cut of at most `maxChunk` bytes between two
      characters, or 0 when the first character is wider than that. */
  method CutText(rest: seq<Byte>, maxChunk: nat, ghost text: string) returns (size: nat, ghost chars: nat)
    requires maxChunk >= 1 && rest == Utf8.Encode(text) && rest != []
    ensures size <= maxChunk && size <= |rest|
    ensures size == 0 <==> |EncodeChar(text[0])| > maxChunk
    ensures 0 < size ==> 0 < chars <= |text| && Utf8.Encode(text[..chars]) == rest[..size] && Utf8.Encode(text[chars..]) == rest[size..]
    ensures 0 < size ==> Utf8.Decode(rest[..size]) == Some(text[..chars])
    ensures 0 < size && chars < |text| ==> |Utf8.Encode(text[..chars + 1])| > maxChunk
  {
    size := Min(maxChunk, |rest|);
    while size > 0 && Utf8.Decode(rest[..size]).None?
      invariant size <= Min(maxChunk, |rest|)
      invariant forall i :: size < i <= Min(maxChunk, |rest|) ==> Utf8.Decode(rest[..i]).None?
    {
      size := size - 1;
    }
    chars := 0;
    if size > 0 {
      chars := LongestCut(text, rest, size, maxChunk);
    } else {
      NoCut(text, rest, maxChunk);
    }
  }

  /** Where the loop stops, it has found so many characters, and they are the most. */
  lemma LongestCut(text: string, rest: seq<Byte>, size: nat, maxChunk: nat) returns (chars: nat)
    requires rest == Utf8.Encode(text) && 0 < size <= Min(maxChunk, |rest|) && Utf8.Decode(rest[..size]).Some?
    requires forall i :: size < i <= Min(maxChunk, |rest|) ==> Utf8.Decode(rest[..i]).None?
    ensures 0 < chars <= |text| && |EncodeChar(text[0])| <= maxChunk
    ensures Utf8.Encode(text[..chars]) == rest[..size] && Utf8.Encode(text[chars..]) == rest[size..]
    ensures Utf8.Decode(rest[..size]) == Some(text[..chars])
    ensures chars < |text| ==> |Utf8.Encode(text[..chars + 1])| > maxChunk
  {
    CutsAtBoundary(text, size);
    chars :| 0 <= chars <= |text| && |Utf8.Encode(text[..chars])| == size;
    EncodeAppend(text[..chars], text[chars..]);
    assert text == text[..chars] + text[chars..];
    NarrowFirst(text, size, chars);
    if chars < |text| && |Utf8.Encode(text[..chars + 1])| <= maxChunk {
      LongerCut(text, chars);
      CutsAtBoundary(text, |Utf8.Encode(text[..chars + 1])|);
    }
  }

  lemma NoCut(text: string, rest: seq<Byte>, maxChunk: nat)
    requires text != [] && rest == Utf8.Encode(text)
    requires forall i :: 0 < i <= Min(maxChunk, |rest|) ==> Utf8.Decode(rest[..i]).None?
    ensures |EncodeChar(text[0])| > maxChunk
  {
    FirstCharBoundary(text);
    CutsAtBoundary(text, Min(|EncodeChar(text[0])|, |rest|));
  }

  lemma FirstCharBoundary(text: string)
    requires text != []
    ensures |Utf8.Encode(text[..1])| == |EncodeChar(text[0])| <= |Utf8.Encode(text)|
  {
    assert text[..1] == [text[0]] && [text[0]][1..] == [];
  }

  lemma LongerCut(text: string, chars: nat)
    requires chars < |text|
    ensures |Utf8.Encode(text[..chars])| < |Utf8.Encode(text[..chars + 1])| <= |Utf8.Encode(text)|
  {
    assert text[..chars + 1] == text[..chars] + [text[chars]];
    EncodeAppend(text[..chars], [text[chars]]);
    assert [text[chars]][1..] == [];
    EncodeAppend(text[..chars + 1], text[chars + 1..]);
    assert text == text[..chars + 1] + text[chars + 1..];
  }

  lemma NarrowFirst(text: string, size: nat, chars: nat)
    requires 0 < size && chars <= |text| && |Utf8.Encode(text[..chars])| == size
    ensures 0 < chars && |EncodeChar(text[0])| <= size
  {
    PrefixHead(text, chars);
  }

  class OutputStream {
    const maxChunk: nat
    const coalesce: CoalesceBuf
    var frames: seq<StreamFrame>   // what the writer was given
    var chunkIndex: nat
    var started: bool
    var closed: bool
    var unbounded: bool
    ghost var values: seq<Value>   // what its chunks carry
    ghost var collected: seq<Byte>

    constructor (maxChunk: nat)
      requires 1 <= maxChunk < LIMIT
      ensures Valid() && fresh(coalesce) && this.maxChunk == maxChunk
      ensures !started && !closed && Written() == []
    {
      this.maxChunk := maxChunk;
      coalesce := new CoalesceBuf();
      frames, chunkIndex, started, closed, unbounded := [], 0, false, false, false;
      values, collected := [], [];
    }

    ghost predicate Valid()
      reads this, coalesce
    {
      && 1 <= maxChunk < LIMIT
      && CollectBytes(frames) == Some(collected)
      && chunkIndex == |values|
      && (!started ==> frames == [] && values == [] && coalesce.buf == [] && !closed)
      && (started ==> WellFormed(frames, values, unbounded, closed, maxChunk))
      && (closed ==> coalesce.buf == [])
    }

    /** Everything written to the stream: what the receiver has of it, and what is
        still in the buffer. */
    ghost function Written(): seq<Byte>
      reads this, coalesce
    {
      collected + coalesce.buf
    }

    method StartStream(makeUnbounded: bool)
      requires Valid()
      modifies this
      ensures Valid() && started && closed == old(closed)
      ensures frames == if old(started) then old(frames) else [Start(makeUnbounded)]
      ensures collected == old(collected) && coalesce.buf == old(coalesce.buf)
      ensures unbounded == if old(started) then old(unbounded) else makeUnbounded
    {
      if started {
        return;
      }
      CollectSnoc([], Start(makeUnbounded));
      frames := frames + [Start(makeUnbounded)];
      assert frames == [] + [Start(makeUnbounded)] == [Start(makeUnbounded)] + Carrying(values) + [];
      assert [] + [] == collected;
      started, unbounded := true, makeUnbounded;
    }

    /** One chunk carrying `v`. */
    method WriteChunk(v: Value)
      requires Valid() && started && !closed && Fits(v, maxChunk)
      modifies this
      ensures Valid() && started && !closed && unbounded == old(unbounded)
      ensures collected == old(collected) + Inner(v) && |values| == |old(values)| + 1
    {
      var payload := Cbor.Encode(v);
      var hash := ComputeChecksum(payload);
      var chunk := Chunk(chunkIndex, Fragment(payload, Some(hash)));
      assert chunk == Chunk(|values|, Sealed(payload));
      OneMoreChunk(frames, values, unbounded, collected, v, maxChunk);
      frames, values := frames + [chunk], values + [v];
      chunkIndex := chunkIndex + 1;
      collected := collected + Inner(v);
    }

    method WriteBytes(piece: seq<Byte>)
      requires Valid() && started && !closed && 1 <= |piece| <= maxChunk
      modifies this
      ensures Valid() && started && !closed && unbounded == old(unbounded)
      ensures collected == old(collected) + piece && |values| == |old(values)| + 1
    {
      WriteChunk(Bytes(piece));
    }

    /** One turn of the cutting loop. */
    method WritePiece(batch: seq<Byte>, offset: nat, ghost before: seq<Byte>) returns (next: nat)
      requires Valid() && started && !closed && offset < |batch| && collected == before + batch[..offset]
      modifies this
      ensures Valid() && started && !closed && unbounded == old(unbounded)
      ensures offset < next <= |batch| && collected == before + batch[..next]
      ensures |values| + PiecesFrom(batch, next, maxChunk) == |old(values)| + PiecesFrom(batch, offset, maxChunk)
    {
      var size := Min(maxChunk, |batch| - offset);
      next := offset + size;
      WriteBytes(batch[offset..next]);
      OnePieceLess(batch, offset, size, maxChunk);
      AppendSlice(before, batch, offset, next);
    }

    method WriteBatch(batch: seq<Byte>)
      requires Valid() && started && !closed
      modifies this
      ensures Valid() && started && !closed && unbounded == old(unbounded)
      ensures collected == old(collected) + batch && |values| == |old(values)| + |Pieces(batch, maxChunk)|
    {
      var offset := 0;
      ghost var before, due := collected, |values| + PiecesFrom(batch, 0, maxChunk);
      assert before + batch[..0] == before;
      while offset < |batch|
        invariant 0 <= offset <= |batch|
        invariant Valid() && started && !closed && unbounded == old(unbounded)
        invariant collected == before + batch[..offset] && |values| + PiecesFrom(batch, offset, maxChunk) == due
      {
        offset := WritePiece(batch, offset, before);
      }
      assert batch[..offset] == batch;
      AllPieces(batch, maxChunk);
    }

    method Flush()
      requires Valid()
      modifies this, coalesce
      ensures Valid() && started == old(started) && closed == old(closed) && unbounded == old(unbounded)
      ensures coalesce.buf == [] && collected == old(Written())
    {
      var batch := coalesce.Take();
      if batch.Some? {
        WriteBatch(batch.value);
      }
    }

    /** `write`, and `emit_cbor` of a byte string. */
    method Write(data: seq<Byte>, firstClock: real, clock: real) returns (r: Result<(), SendError>)
      requires Valid()
      modifies this, coalesce
      ensures Valid() && closed == old(closed)
      ensures old(started) ==> started && unbounded == old(unbounded)
      ensures r.Err? <==> old(closed)
      ensures Written() == if r.Ok? then old(Written()) + data else old(Written())
    {
      if closed {
        return Err(AlreadyClosed);
      }
      if !started {
        StartStream(false);
      }
      if data == [] {
        return Ok(());
      }
      ghost var sent, kept := collected, coalesce.buf;
      var due := coalesce.Append(data, firstClock, clock);
      if due.Some? {
        WriteBatch(due.value);
      }
      Associative(sent, kept, data);
      assert Written() == sent + (kept + data);
      r := Ok(());
    }

    /** `emit_cbor` of a text string: it goes out whole exactly when no character
        of it is wider than a chunk; otherwise everything before the first such
        character does. */
    method EmitText(text: string) returns (r: Result<(), SendError>)
      requires Valid()
      modifies this, coalesce
      ensures Valid() && closed == old(closed)
      ensures old(started) ==> started && unbounded == old(unbounded)
      ensures old(closed) ==> r == Err(AlreadyClosed) && Written() == old(Written())
      ensures !old(closed) ==>
        && (r == Ok(()) <==> SentWhole(text, maxChunk))
        && (r.Err? ==> r.error == CannotSplit)
        && Written() == old(Written()) + SentBytes(text, maxChunk)
    {
      if closed {
        return Err(AlreadyClosed);
      }
      if !started {
        StartStream(false);
      }
      Flush();
      r := WriteText(text);
      assert coalesce.buf == [] && Written() == collected;
    }

    method WriteText(text: string) returns (r: Result<(), SendError>)
      requires Valid() && started && !closed
      modifies this
      ensures Valid() && started && !closed && unbounded == old(unbounded)
      ensures r == if SentWhole(text, maxChunk) then Ok(()) else Err(CannotSplit)
      ensures collected == old(collected) + SentBytes(text, maxChunk) && |values| == |old(values)| + TextPieces(text, maxChunk)
    {
      SendableAllIff(text, maxChunk);
      var rest := Utf8.Encode(text);
      ghost var left, target := text, collected + SentBytes(text, maxChunk);
      while rest != []
        invariant Valid() && started && !closed && unbounded == old(unbounded)
        invariant rest == Utf8.Encode(left)
        invariant collected + SentBytes(left, maxChunk) == target
        invariant |values| + TextPieces(left, maxChunk) == |old(values)| + TextPieces(text, maxChunk)
        invariant Sendable(left, maxChunk) == |left| <==> Sendable(text, maxChunk) == |text|
        decreases |rest|
      {
        ghost var before := collected;
        var size; ghost var chars;
        size, chars := WriteTextPiece(rest, left);
        if size == 0 {
          NothingSent(left, maxChunk, before, target);
          return Err(CannotSplit);
        }
        SentAfter(left, chars, maxChunk, before);
        rest, left := rest[size..], left[chars..];
      }
      NothingSent(left, maxChunk, collected, target);
      r := Ok(());
    }

    /** One turn of the splitting loop: a chunk with as many characters as fit. */
    method WriteTextPiece(rest: seq<Byte>, ghost text: string) returns (size: nat, ghost chars: nat)
      requires Valid() && started && !closed && rest == Utf8.Encode(text) && rest != []
      modifies this
      ensures Valid() && started && !closed && unbounded == old(unbounded)
      ensures size == 0 <==> |EncodeChar(text[0])| > maxChunk
      ensures size == 0 ==> collected == old(collected)
      ensures 0 < size ==>
        && 0 < chars <= |text| && size <= |rest|
        && collected == old(collected) + Utf8.Encode(text[..chars])
        && rest[size..] == Utf8.Encode(text[chars..])
        && |Utf8.Encode(text[..chars])| <= maxChunk
        && TextPieces(text, maxChunk) == 1 + TextPieces(text[chars..], maxChunk)
      ensures |values| == |old(values)| + (if size == 0 then 0 else 1) && (size == 0 ==> TextPieces(text, maxChunk) == 0)
    {
      size, chars := CutText(rest, maxChunk, text);
      if size > 0 {
        var chunk := Text(Utf8.Decode(rest[..size]).value);
        assert Inner(chunk) == rest[..size] && |Inner(chunk)| == size;
        MostIs(text, maxChunk, chars);
        WriteChunk(chunk);
      }
    }

    /** `emit_cbor` of any other value: one chunk, whatever its size. */
    method EmitValue(v: Value) returns (r: Result<(), SendError>)
      requires Valid() && Admissible(v)
      modifies this, coalesce
      ensures Valid() && closed == old(closed)
      ensures old(started) ==> started && unbounded == old(unbounded)
      ensures r.Err? <==> old(closed)
      ensures Written() == if r.Ok? then old(Written()) + Cbor.Encode(v) else old(Written())
    {
      if closed {
        return Err(AlreadyClosed);
      }
      if !started {
        StartStream(false);
      }
      Flush();
      WriteChunk(v);
      r := Ok(());
    }

    /** STREAM_END, after everything written: nothing is left in the buffer. */
    method Close() returns (r: Result<(), SendError>)
      requires Valid()
      modifies this, coalesce
      ensures Valid() && closed && collected == old(Written())
      ensures old(started) ==> started && unbounded == old(unbounded)
      ensures r.Err? <==> old(closed)
      ensures coalesce.buf == []
    {
      if closed {
        return Err(AlreadyClosed);
      }
      if !started {
        StartStream(false);
      }
      Flush();
      var end := StreamEnd(if unbounded then None else Some(chunkIndex));
      CollectSnoc(frames, end);
      assert collected + [] == collected && [Start(unbounded)] + Carrying(values) + [] == [Start(unbounded)] + Carrying(values);
      frames := frames + [end];
      closed := true;
      r := Ok(());
    }
  }

  /** One operation of a program on an open stream. */
  method Apply(out: OutputStream, op: Op)
    requires out.Valid() && out.started && !out.closed && (op.ValueOp? ==> Admissible(op.value))
    modifies out, out.coalesce
    ensures out.Valid() && out.started && !out.closed && out.unbounded == old(out.unbounded)
    ensures out.Written() == old(out.Written()) + OpBytes(op, out.maxChunk)
  {
    match op
    case WriteOp(data, firstClock, clock) =>
      var _ := out.Write(data, firstClock, clock);
    case TextOp(text) =>
      var _ := out.EmitText(text);
    case ValueOp(v) =>
      var _ := out.EmitValue(v);
    case FlushOp =>
      out.Flush();
  }

  lemma {:induction false} NarrowChars(text: string, chars: nat, maxChunk: nat)
    requires chars <= |text| && |Utf8.Encode(text[..chars])| <= maxChunk
    ensures forall i :: 0 <= i < chars ==> |EncodeChar(text[i])| <= maxChunk
  {
    if chars > 0 {
      assert text[..chars] == text[..chars - 1] + [text[chars - 1]];
      EncodeAppend(text[..chars - 1], [text[chars - 1]]);
      assert [text[chars - 1]][1..] == [];
      NarrowChars(text, chars - 1, maxChunk);
    }
  }

  /** What a program does to a stream, with the clock readings it happens to get. */
  datatype Op =
    | WriteOp(data: seq<Byte>, firstClock: real, clock: real)
    | TextOp(text: string)
    | ValueOp(value: Value)
    | FlushOp

  predicate Admissible(v: Value) {
    Encodable(v) && !v.Bytes? && !v.Text?
  }

  function OpBytes(op: Op, maxChunk: nat): seq<Byte> {
    match op
    case WriteOp(data, _, _) => data
    case TextOp(text) => SentBytes(text, maxChunk)
    case ValueOp(v) => Cbor.Encode(v)
    case FlushOp => []
  }

  function AllBytes(ops: seq<Op>, maxChunk: nat): seq<Byte> {
    if ops == [] then [] else AllBytes(ops[..|ops| - 1], maxChunk) + OpBytes(ops[|ops| - 1], maxChunk)
  }

  method ApplyAll(out: OutputStream, ops: seq<Op>)
    requires out.Valid() && out.started && !out.closed
    requires forall i :: 0 <= i < |ops| && ops[i].ValueOp? ==> Admissible(ops[i].value)
    modifies out, out.coalesce
    ensures out.Valid() && out.started && !out.closed && out.unbounded == old(out.unbounded)
    ensures out.Written() == old(out.Written()) + AllBytes(ops, out.maxChunk)
  {
    ghost var before := out.Written();
    assert before + [] == before;
    for i := 0 to |ops|
      invariant out.Valid() && out.started && !out.closed && out.unbounded == old(out.unbounded)
      invariant out.Written() == before + AllBytes(ops[..i], out.maxChunk)
    {
      assert ops[..i + 1][..i] == ops[..i];
      Apply(out, ops[i]);
      Associative(before, AllBytes(ops[..i], out.maxChunk), OpBytes(ops[i], out.maxChunk));
    }
    assert ops[..|ops|] == ops;
  }

  /** The scalar round trip: whatever is written, flushed and emitted, in any
      order and at any times, the receiver of the closed stream collects exactly
      that, from chunks numbered from 0 and no larger than `maxChunk`. */
  method RunStream(ops: seq<Op>, maxChunk: nat) returns (frames: seq<StreamFrame>, ghost values: seq<Value>)
    requires 1 <= maxChunk < LIMIT
    requires forall i :: 0 <= i < |ops| && ops[i].ValueOp? ==> Admissible(ops[i].value)
    ensures CollectBytes(frames) == Some(AllBytes(ops, maxChunk))
    ensures WellFormed(frames, values, false, true, maxChunk)
  {
    var out := new OutputStream(maxChunk);
    out.StartStream(false);
    ApplyAll(out, ops);
    assert [] + AllBytes(ops, maxChunk) == AllBytes(ops, maxChunk);
    var _ := out.Close();
    frames, values := out.frames, out.values;
  }

  /** With room for four bytes in a chunk, every text goes out whole. */
  lemma FourBytesSuffice(text: string, maxChunk: nat)
    requires maxChunk >= 4
    ensures OpBytes(TextOp(text), maxChunk) == Utf8.Encode(text)
  {
    SendableAllIff(text, maxChunk);
    assert text[..|text|] == text;
  }

  /** With less, some text does not: one wide character stops it. */
  lemma ThreeBytesDoNot(maxChunk: nat)
    requires 1 <= maxChunk < 4
    ensures exists text :: OpBytes(TextOp(text), maxChunk) != Utf8.Encode(text)
  {
    var text := "\U{1F600}";
    assert |EncodeChar(text[0])| == 4;
    assert SentBytes(text, maxChunk) == [];
    assert Utf8.Encode(text) != [];
  }
}
