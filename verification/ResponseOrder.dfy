/**
 The recogniser of one request's answer: what a reader that keeps only a chunk
 count for each stream finds wrong first, and what it means that it finds
 nothing.
 */
module ResponseOrder {
  import opened Common

  datatype Emitted =
    | StreamStart(stream: nat)
    | Chunk(stream: nat, index: nat)
    | StreamEnd(stream: nat, count: Option<nat>)
    | Fin
    | Err
    | Other

  datatype Violation =
    | AfterEnd
    | StreamRestarted(stream: nat)
    | StreamNotOpen(stream: nat)
    | ChunkOutOfPlace(stream: nat, expected: nat, got: nat)
    | ChunkCountWrong(stream: nat, sent: nat, said: nat)
    | EndWithOpenStream

  datatype Progress = Open(next: nat) | Shut(sent: nat)

  datatype Reader =
    | Reading(streams: map<nat, Progress>, ended: bool)
    | Refused(violation: Violation)

  const FRESH := Reading(map[], false)

  predicate AnyOpen(streams: map<nat, Progress>) {
    exists s :: s in streams && streams[s].Open?
  }

  function Read(r: Reader, f: Emitted): Reader {
    if r.Refused? then r
    else if r.ended then Refused(AfterEnd)
    else
      match f
      case StreamStart(s) =>
        if s in r.streams then Refused(StreamRestarted(s)) else Reading(r.streams[s := Open(0)], false)
      case Chunk(s, index) =>
        if s !in r.streams || r.streams[s].Shut? then Refused(StreamNotOpen(s))
        else if index != r.streams[s].next then Refused(ChunkOutOfPlace(s, r.streams[s].next, index))
        else Reading(r.streams[s := Open(index + 1)], false)
      case StreamEnd(s, count) =>
        if s !in r.streams || r.streams[s].Shut? then Refused(StreamNotOpen(s))
        else if count.Some? && count.value != r.streams[s].next then
          Refused(ChunkCountWrong(s, r.streams[s].next, count.value))
        else Reading(r.streams[s := Shut(r.streams[s].next)], false)
      case Fin => if AnyOpen(r.streams) then Refused(EndWithOpenStream) else Reading(r.streams, true)
      case Err => Reading(r.streams, true)
      case Other => r
  }

  /** What a violation names: the stream, what was expected of it, and what came. */
  lemma RefusalNames(r: Reader, s: nat, next: nat, came: nat)
    requires r.Reading? && !r.ended && s in r.streams && r.streams[s] == Open(next) && came != next
    ensures var chunk := Read(r, Chunk(s, came));
            && chunk.Refused? && chunk.violation.ChunkOutOfPlace? && chunk.violation.stream == s
            && chunk.violation.expected == next && chunk.violation.got == came
    ensures var end := Read(r, StreamEnd(s, Some(came)));
            && end.Refused? && end.violation.ChunkCountWrong? && end.violation.stream == s
            && end.violation.sent == next && end.violation.said == came
  {
  }

  function ReadAll(r: Reader, frames: seq<Emitted>): Reader
    decreases |frames|
  {
    if frames == [] then r else ReadAll(Read(r, frames[0]), frames[1..])
  }

  function Check(frames: seq<Emitted>): Option<Violation> {
    match ReadAll(FRESH, frames) case Reading(_, _) => None case Refused(v) => Some(v)
  }

  lemma {:induction false} ReadAllAppend(r: Reader, a: seq<Emitted>, b: seq<Emitted>)
    ensures ReadAll(r, a + b) == ReadAll(ReadAll(r, a), b)
    decreases |a|
  {
    if a == [] {
      assert a + b == b;
    } else {
      assert (a + b)[0] == a[0] && (a + b)[1..] == a[1..] + b;
      ReadAllAppend(Read(r, a[0]), a[1..], b);
    }
  }

  lemma {:induction false} RefusedStays(r: Reader, frames: seq<Emitted>)
    requires r.Refused?
    ensures ReadAll(r, frames) == r
    decreases |frames|
  {
    if frames != [] {
      RefusedStays(r, frames[1..]);
    }
  }

  /** A violation found is found whatever follows. */
  lemma CheckPrefix(frames: seq<Emitted>, more: seq<Emitted>)
    requires Check(frames).Some?
    ensures Check(frames + more) == Check(frames)
  {
    ReadAllAppend(FRESH, frames, more);
    RefusedStays(ReadAll(FRESH, frames), more);
  }

  // What an accepted answer looks like, stream by stream

  predicate OfStream(f: Emitted, s: nat) {
    match f
    case StreamStart(t) => t == s
    case Chunk(t, _) => t == s
    case StreamEnd(t, _) => t == s
    case _ => false
  }

  /** The frames of one stream, in order. */
  function StreamOf(frames: seq<Emitted>, s: nat): seq<Emitted> {
    if frames == [] then []
    else
      var last := frames[|frames| - 1];
      StreamOf(frames[..|frames| - 1], s) + if OfStream(last, s) then [last] else []
  }

  function Opened(s: nat, n: nat): seq<Emitted> {
    if n == 0 then [StreamStart(s)] else Opened(s, n - 1) + [Chunk(s, n - 1)]
  }

  /** STREAM_START, chunks 0 to n - 1, STREAM_END with the count or none. */
  predicate Whole(frames: seq<Emitted>, s: nat, n: nat) {
    frames == Opened(s, n) + [StreamEnd(s, None)] || frames == Opened(s, n) + [StreamEnd(s, Some(n))]
  }

  predicate Agrees(frames: seq<Emitted>, s: nat, streams: map<nat, Progress>) {
    if s !in streams then StreamOf(frames, s) == []
    else match streams[s]
         case Open(n) => StreamOf(frames, s) == Opened(s, n)
         case Shut(n) => Whole(StreamOf(frames, s), s, n)
  }

  lemma ReaderKnowsOneMore(front: seq<Emitted>, last: Emitted, s: nat, r: Reader)
    requires r.Reading? && Agrees(front, s, r.streams) && Read(r, last).Reading?
    ensures Agrees(front + [last], s, Read(r, last).streams)
  {
    assert (front + [last])[..|front|] == front;
    assert StreamOf(front + [last], s) == StreamOf(front, s) + if OfStream(last, s) then [last] else [];
    assert StreamOf(front, s) + [] == StreamOf(front, s);
    if OfStream(last, s) && last.StreamStart? {
      assert [] + [last] == Opened(s, 0);
    }
  }

  /** A reader that has found nothing wrong knows every stream's frames exactly. */
  lemma {:induction false} ReaderKnows(frames: seq<Emitted>, s: nat)
    requires ReadAll(FRESH, frames).Reading?
    ensures Agrees(frames, s, ReadAll(FRESH, frames).streams)
  {
    if frames != [] {
      var front, last := frames[..|frames| - 1], frames[|frames| - 1];
      assert frames == front + [last];
      ReadAllAppend(FRESH, front, [last]);
      var before := ReadAll(FRESH, front);
      assert ReadAll(before, [last]) == Read(before, last);
      ReaderKnows(front, s);
      ReaderKnowsOneMore(front, last, s, before);
    }
  }

  ghost predicate Complete(frames: seq<Emitted>, s: nat) {
    StreamOf(frames, s) == [] || exists n: nat :: Whole(StreamOf(frames, s), s, n)
  }

  ghost predicate AllComplete(frames: seq<Emitted>) {
    forall s: nat :: Complete(frames, s)
  }

  /** An answer that ends with END violates nothing exactly when it carries, for
      each stream, no frame or STREAM_START, its chunks from 0 without a gap and
      one STREAM_END whose count, if it has one, is their number; and no END or
      ERR before its own. */
  lemma AcceptedIff(frames: seq<Emitted>)
    ensures Check(frames + [Fin]) == None
       <==> Fin !in frames && Emitted.Err !in frames && AllComplete(frames)
  {
    ReadAllAppend(FRESH, frames, [Fin]);
    var r := ReadAll(FRESH, frames);
    assert ReadAll(r, [Fin]) == Read(r, Fin);
    if Check(frames + [Fin]) == None {
      NotEnded(frames);
      forall s: nat ensures Complete(frames, s) {
        ReaderKnows(frames, s);
      }
    }
    if Fin !in frames && Emitted.Err !in frames && AllComplete(frames) {
      forall s: nat ensures Begun(frames, s) {
        assert Complete(frames, s);
        assert Whole(Opened(s, 0) + [StreamEnd(s, None)], s, 0);
      }
      BegunIsRead(frames);
      NotEnded(frames);
      forall s | s in r.streams ensures r.streams[s].Shut? {
        ReaderKnows(frames, s);
        assert Complete(frames, s);
        if r.streams[s].Open? {
          OpenIsNotWhole(s, r.streams[s].next);
        }
      }
    }
  }

  lemma {:induction false} NotEnded(frames: seq<Emitted>)
    requires ReadAll(FRESH, frames).Reading?
    ensures ReadAll(FRESH, frames).ended <==> Fin in frames || Emitted.Err in frames
  {
    if frames != [] {
      var front, last := frames[..|frames| - 1], frames[|frames| - 1];
      assert frames == front + [last];
      ReadAllAppend(FRESH, front, [last]);
      assert ReadAll(ReadAll(FRESH, front), [last]) == Read(ReadAll(FRESH, front), last);
      NotEnded(front);
    }
  }

  /** What was sent of stream `s` starts a whole stream. */
  ghost predicate Begun(frames: seq<Emitted>, s: nat) {
    exists n: nat, whole :: Whole(whole, s, n) && StreamOf(frames, s) <= whole
  }

  lemma {:induction false} OpenedAt(s: nat, n: nat)
    ensures |Opened(s, n)| == n + 1 && Opened(s, n)[0] == StreamStart(s)
    ensures forall k :: 0 <= k < n ==> Opened(s, n)[k + 1] == Chunk(s, k)
  {
    if n > 0 {
      OpenedAt(s, n - 1);
    }
  }

  lemma WholeAt(whole: seq<Emitted>, s: nat, n: nat)
    requires Whole(whole, s, n)
    ensures |whole| == n + 2 && whole[n + 1].StreamEnd?
    ensures forall i :: 1 <= i <= n ==> whole[i] == Chunk(s, i - 1)
  {
    OpenedAt(s, n);
    forall i | 1 <= i <= n ensures whole[i] == Chunk(s, i - 1) {
      assert whole[i] == Opened(s, n)[(i - 1) + 1];
    }
  }

  lemma OpenIsNotWhole(s: nat, n: nat)
    ensures Opened(s, n) != [] && forall m: nat :: !Whole(Opened(s, n), s, m)
  {
    OpenedAt(s, n);
  }

  lemma WholeIsDone(sent: seq<Emitted>, s: nat, m: nat, whole: seq<Emitted>, n: nat)
    requires Whole(sent, s, m) && Whole(whole, s, n) && sent <= whole
    ensures sent == whole
  {
    WholeAt(sent, s, m);
    WholeAt(whole, s, n);
    assert whole[m + 1] == sent[m + 1];
  }

  /** The next frame of a stream is the one its reader waits for. */
  lemma NextOfBegun(front: seq<Emitted>, f: Emitted, s: nat, r: Reader)
    requires r.Reading? && !r.ended && OfStream(f, s)
    requires Agrees(front, s, r.streams) && Begun(front + [f], s)
    ensures Read(r, f).Reading? && !Read(r, f).ended
  {
    assert (front + [f])[..|front|] == front;
    var sent := StreamOf(front, s);
    assert StreamOf(front + [f], s) == sent + [f];
    var n: nat, whole :| Whole(whole, s, n) && sent + [f] <= whole;
    OpenedAt(s, n);
    assert f == whole[|sent|] && forall k :: 0 <= k < |sent| ==> sent[k] == whole[k];
    if s in r.streams {
      match r.streams[s]
      case Open(m) =>
        OpenedAt(s, m);
        WholeAt(whole, s, n);
      case Shut(m) => WholeIsDone(sent, s, m, whole, n);
    }
  }

  lemma {:induction false} BegunIsRead(frames: seq<Emitted>)
    requires Fin !in frames && Emitted.Err !in frames && forall s: nat :: Begun(frames, s)
    ensures ReadAll(FRESH, frames).Reading?
  {
    if frames != [] {
      var front, last := frames[..|frames| - 1], frames[|frames| - 1];
      assert frames == front + [last];
      ReadAllAppend(FRESH, front, [last]);
      var before := ReadAll(FRESH, front);
      assert ReadAll(before, [last]) == Read(before, last);
      forall s: nat ensures Begun(front, s) {
        assert Begun(frames, s);
        var n: nat, whole :| Whole(whole, s, n) && StreamOf(frames, s) <= whole;
        assert StreamOf(front, s) <= StreamOf(frames, s);
      }
      BegunIsRead(front);
      NotEnded(front);
      assert last in frames;
      if last != Other {
        var s := last.stream;
        ReaderKnows(front, s);
        NextOfBegun(front, last, s, before);
      }
    }
  }
}
