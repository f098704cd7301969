/**
 The answer to one request: a stream per output its cap declares, written by a
 handler on one thread, ended by the runtime when the handler returns. Frames
 are kept as the recogniser of `ResponseOrder` sees them.
 */
module Response {
  import opened Common
  import opened ResponseOrder
  import ScalarStream
  import Utf8

  const COALESCE_MAX_BYTES: nat := 4096

  /** `index` is the next chunk's number; `allowance` is how many more chunks the
      credit gate lets through before the request's end closes it, and `None` when
      nothing closes it. */
  datatype Meter = Meter(index: nat, allowance: Option<nat>)

  /** What the cap declares of an output, and its stream's number. */
  datatype Output = Output(sid: nat, required: bool, cardinality: bool)

  /** One output's stream. `buffered` counts coalesced bytes not yet sent. */
  datatype Stream = Stream(output: Output, started: bool, sequence: Option<bool>, unbounded: bool, closed: bool,
                           buffered: nat, meter: Meter)

  predicate Unopened(s: Stream) {
    !s.started && s.sequence == None && !s.unbounded && !s.closed && s.meter.index == 0 && s.buffered == 0
  }

  /** What an operation leaves, writes, and whether it returns or raises. */
  datatype Emission = Emission(stream: Stream, frames: seq<Emitted>, ok: bool)

  function Quiet(s: Stream): Emission {
    Emission(s, [], true)
  }

  /** `b` after `a`, unless `a` raised. */
  function Also(a: Emission, b: Emission): Emission {
    if a.ok then Emission(b.stream, a.frames + b.frames, b.ok) else a
  }

  function Start(s: Stream, sequence: bool, unbounded: bool): Emission {
    if s.sequence == Some(!sequence) then Emission(s, [], false)
    else if s.started then Quiet(s)
    else Emission(s.(started := true, sequence := Some(sequence), unbounded := unbounded), [StreamStart(s.output.sid)], true)
  }

  predicate UsedUp(m: Meter) {
    m.allowance == Some(0)
  }

  /** A chunk takes its number before it waits for credit. */
  function Next(m: Meter): Meter {
    Meter(m.index + 1, if m.allowance.Some? && m.allowance.value > 0 then Some(m.allowance.value - 1) else m.allowance)
  }

  function SendChunk(s: Stream): Emission {
    var s' := s.(meter := Next(s.meter));
    if UsedUp(s.meter) then Emission(s', [], false) else Emission(s', [Chunk(s.output.sid, s.meter.index)], true)
  }

  function SendChunks(s: Stream, k: nat): Emission
    decreases k
  {
    if k == 0 then Quiet(s)
    else var front := SendChunks(s, k - 1); Also(front, SendChunk(front.stream))
  }

  /** How many chunks `bytes` bytes are cut into. */
  function Pieces(bytes: nat, maxChunk: nat): nat
    requires maxChunk >= 1
  {
    if bytes == 0 then 0 else 1 + Pieces(bytes - Min(maxChunk, bytes), maxChunk)
  }

  function FlushBuffer(s: Stream, maxChunk: nat): Emission
    requires maxChunk >= 1
  {
    SendChunks(s.(buffered := 0), Pieces(s.buffered, maxChunk))
  }

  function CloseStream(s: Stream, maxChunk: nat): Emission
    requires maxChunk >= 1
  {
    if s.closed then Emission(s, [], false)
    else
      var begun := Start(s, s.sequence == Some(true), false);
      var flushed := Also(begun, FlushBuffer(begun.stream, maxChunk));
      var t := flushed.stream;
      var count := if t.unbounded then None else Some(t.meter.index);
      Also(flushed, Emission(t.(closed := true), [StreamEnd(t.output.sid, count)], true))
  }

  /** What a handler can do to one output. `aged` is what the clock made of the
      coalescing buffer; a value goes out in `chunks` chunks, all of it or up to
      a character no chunk can hold. */
  datatype Op =
    | Open(sequence: bool, unbounded: bool)
    | EmitBytes(bytes: nat, aged: bool)
    | EmitValue(chunks: nat, all: bool)
    | EmitItem(bytes: nat)
    | WriteRaw(bytes: nat)
    | Flush
    | Close
    | Log

  function AppendBytes(s: Stream, bytes: nat, aged: bool, maxChunk: nat): Emission
    requires maxChunk >= 1
  {
    var s' := s.(buffered := s.buffered + bytes);
    if bytes > 0 && (s'.buffered >= COALESCE_MAX_BYTES || aged) then FlushBuffer(s', maxChunk) else Quiet(s')
  }

  function Perform(s: Stream, op: Op, maxChunk: nat): Emission
    requires maxChunk >= 1
  {
    match op
    case Open(sequence, unbounded) => Start(s, sequence, unbounded)
    case EmitBytes(n, aged) =>
      var begun := Start(s, false, false);
      Also(begun, AppendBytes(begun.stream, n, aged, maxChunk))
    case EmitValue(k, all) =>
      var begun := Start(s, false, false);
      var flushed := Also(begun, FlushBuffer(begun.stream, maxChunk));
      var sent := Also(flushed, SendChunks(flushed.stream, k));
      sent.(ok := sent.ok && all)
    case EmitItem(n) =>
      var begun := Start(s, true, false);
      Also(begun, SendChunks(begun.stream, Pieces(n, maxChunk)))
    case WriteRaw(n) =>
      var begun := Start(s, false, false);
      var flushed := Also(begun, FlushBuffer(begun.stream, maxChunk));
      Also(flushed, SendChunks(flushed.stream, Pieces(n, maxChunk)))
    case Flush => FlushBuffer(s, maxChunk)
    case Close => CloseStream(s, maxChunk)
    case Log => Emission(s, [Other], true)
  }

  datatype Action = Action(output: nat, op: Op)

  datatype Answer = Answer(outs: seq<Stream>, wire: seq<Emitted>)

  function Put(a: Answer, i: nat, e: Emission): Answer
    requires i < |a.outs|
  {
    Answer(a.outs[i := e.stream], a.wire + e.frames)
  }

  predicate Within(actions: seq<Action>, n: nat) {
    forall a :: a in actions ==> a.output < n
  }

  /** The handler's run. It may catch what an operation raises and go on. */
  function Run(outs: seq<Stream>, actions: seq<Action>, maxChunk: nat): (a: Answer)
    requires maxChunk >= 1 && Within(actions, |outs|)
    ensures |a.outs| == |outs|
  {
    if actions == [] then Answer(outs, [])
    else
      var last := actions[|actions| - 1];
      var a := Run(outs, actions[..|actions| - 1], maxChunk);
      Put(a, last.output, Perform(a.outs[last.output], last.op, maxChunk))
  }

  function FinishOne(s: Stream, maxChunk: nat): Emission
    requires maxChunk >= 1
  {
    if !s.started && !s.output.required then Quiet(s)
    else
      var begun := if s.started then Quiet(s) else Start(s, s.output.cardinality, false);
      Also(begun, CloseStream(begun.stream, maxChunk))
  }

  /** The outputs from `k` on are ended in order; one that raises stops it. */
  function EndFrom(a: Answer, k: nat, maxChunk: nat): (Answer, bool)
    requires maxChunk >= 1 && k <= |a.outs|
    decreases |a.outs| - k
  {
    if k == |a.outs| then (a, true)
    else
      var e := FinishOne(a.outs[k], maxChunk);
      if e.ok then EndFrom(Put(a, k, e), k + 1, maxChunk) else (Put(a, k, e), false)
  }

  /** All of them ended, or `None`. */
  function Finish(a: Answer, k: nat, maxChunk: nat): Option<Answer>
    requires maxChunk >= 1 && k <= |a.outs|
  {
    if EndFrom(a, k, maxChunk).1 then Some(EndFrom(a, k, maxChunk).0) else None
  }

  /** What is on the wire after that, as far as it went. */
  function FinishWire(a: Answer, k: nat, maxChunk: nat): seq<Emitted>
    requires maxChunk >= 1 && k <= |a.outs|
  {
    EndFrom(a, k, maxChunk).0.wire
  }

  /** Nothing closes a gate under a handler but the request's cancel. */
  predicate Uncancelled(outs: seq<Stream>) {
    forall i :: 0 <= i < |outs| ==> outs[i].meter.allowance == None
  }

  /** Everything written for a request whose handler returned and that nothing ended
      before, ended by END; or `None` when ending its outputs raised, and the
      handler's ERR is what is sent. */
  function Respond(outs: seq<Stream>, actions: seq<Action>, maxChunk: nat): Option<seq<Emitted>>
    requires maxChunk >= 1 && Within(actions, |outs|) && Uncancelled(outs)
  {
    match Finish(Run(outs, actions, maxChunk), 0, maxChunk)
    case None => None
    case Some(a) => Some(a.wire + [Fin])
  }

  /** Everything written for a request whose handler returned and that an ERR ends: a
      cancel's that claimed it first, whether ending the outputs raised or not, or
      the handler's own when it did. */
  function RespondErr(outs: seq<Stream>, actions: seq<Action>, maxChunk: nat): seq<Emitted>
    requires maxChunk >= 1 && Within(actions, |outs|)
  {
    FinishWire(Run(outs, actions, maxChunk), 0, maxChunk) + [Emitted.Err]
  }

  /** And where its handler raised: the outputs are not ended. */
  function RespondRaised(outs: seq<Stream>, actions: seq<Action>, maxChunk: nat): seq<Emitted>
    requires maxChunk >= 1 && Within(actions, |outs|)
  {
    Run(outs, actions, maxChunk).wire + [Emitted.Err]
  }

  /** Streams are numbered in the order they are opened, the main output's first. */
  predicate Numbered(outs: seq<Stream>) {
    forall i :: 0 <= i < |outs| ==> outs[i].output.sid == i
  }

  predicate Fresh(outs: seq<Stream>) {
    Numbered(outs) && forall i :: 0 <= i < |outs| ==> Unopened(outs[i])
  }

  // The reader keeps up with every stream that has not been closed

  predicate Sane(s: Stream) {
    if s.started then s.sequence.Some? else Unopened(s)
  }

  /** What the reader knows of a stream. Only a closed gate makes a chunk that has
      its number go missing, and no chunk follows it. */
  predicate Known(s: Stream, streams: map<nat, Progress>) {
    && !s.closed
    && Sane(s)
    && (if s.started then s.output.sid in streams && streams[s.output.sid].Open? && streams[s.output.sid].next <= s.meter.index
                          && (streams[s.output.sid].next < s.meter.index ==> s.meter.allowance == Some(0))
        else s.output.sid !in streams)
  }

  /** How many chunks took a number and were never sent. */
  function Gap(s: Stream, streams: map<nat, Progress>): nat
    requires Known(s, streams)
  {
    if s.started then s.meter.index - streams[s.output.sid].next else 0
  }

  /** How many chunks the gate lets through in all: those read and those to come. */
  function Budget(s: Stream, streams: map<nat, Progress>): Option<nat>
    requires Known(s, streams)
  {
    if s.meter.allowance == None then None
    else Some(s.meter.allowance.value + if s.started then streams[s.output.sid].next else 0)
  }

  /** What an operation may change of a stream and of the reader. */
  predicate Follows(s: Stream, e: Emission, before: Reader)
    requires before.Reading? && Known(s, before.streams)
  {
    var after := ReadAll(before, e.frames);
    && after.Reading? && after.ended == before.ended
    && Known(e.stream, after.streams)
    && after.streams - {s.output.sid} == before.streams - {s.output.sid}
    && e.stream.output == s.output
    && (s.started ==> e.stream.started && e.stream.unbounded == s.unbounded)
    && (e.ok ==> Gap(e.stream, after.streams) == Gap(s, before.streams))
    && Budget(e.stream, after.streams) == Budget(s, before.streams)
  }

  lemma FollowsAlso(s: Stream, a: Emission, b: Emission, before: Reader)
    requires before.Reading? && Known(s, before.streams) && Follows(s, a, before)
    requires a.ok ==> Follows(a.stream, b, ReadAll(before, a.frames))
    ensures Follows(s, Also(a, b), before)
  {
    ReadAllAppend(before, a.frames, b.frames);
  }

  lemma StartFollows(s: Stream, sequence: bool, unbounded: bool, before: Reader)
    requires before.Reading? && !before.ended && Known(s, before.streams)
    ensures Follows(s, Start(s, sequence, unbounded), before)
  {
  }

  lemma ChunkFollows(s: Stream, before: Reader)
    requires before.Reading? && !before.ended && Known(s, before.streams) && s.started
    ensures Follows(s, SendChunk(s), before)
    ensures SendChunk(s).stream.started
  {
  }

  lemma {:induction false} ChunksFollow(s: Stream, k: nat, before: Reader)
    requires before.Reading? && !before.ended && Known(s, before.streams) && (s.started || k == 0)
    ensures Follows(s, SendChunks(s, k), before)
    ensures SendChunks(s, k).stream.started == s.started
    decreases k
  {
    if k > 0 {
      ChunksFollow(s, k - 1, before);
      var front := SendChunks(s, k - 1);
      if front.ok {
        ChunkFollows(front.stream, ReadAll(before, front.frames));
      }
      FollowsAlso(s, front, SendChunk(front.stream), before);
    }
  }

  lemma FlushFollows(s: Stream, maxChunk: nat, before: Reader)
    requires before.Reading? && !before.ended && Known(s, before.streams) && maxChunk >= 1
    ensures Follows(s, FlushBuffer(s, maxChunk), before)
    ensures FlushBuffer(s, maxChunk).stream.started == s.started
  {
    ChunksFollow(s.(buffered := 0), Pieces(s.buffered, maxChunk), before);
  }

  /** Every operation but these two opens an output that is not open. */
  predicate Touches(op: Op) {
    op != Op.Flush && op != Op.Log
  }

  /** What holds of a stream whatever was done to it, and raised. */
  predicate Moved(s: Stream, e: Emission) {
    var t := e.stream;
    && Sane(t)
    && (s.closed ==> t.closed) && (s.started ==> t.started)
    && t.output == s.output
    && (t.started && !s.started ==> StreamStart(s.output.sid) in e.frames)
    && (forall f :: f in e.frames ==> f == Other || (OfStream(f, s.output.sid) && t.started))
  }

  lemma {:induction false} ChunksMove(s: Stream, k: nat)
    requires Sane(s) && (s.started || k == 0)
    ensures Moved(s, SendChunks(s, k))
    ensures var t := SendChunks(s, k).stream; t == s.(meter := t.meter)
    ensures s.meter.allowance == None ==> SendChunks(s, k).ok && SendChunks(s, k).stream.meter.allowance == None
    decreases k
  {
    if k > 0 {
      ChunksMove(s, k - 1);
    }
  }

  lemma FlushMoves(s: Stream, maxChunk: nat)
    requires Sane(s) && maxChunk >= 1
    ensures Moved(s, FlushBuffer(s, maxChunk))
    ensures var t := FlushBuffer(s, maxChunk).stream; t == s.(buffered := 0, meter := t.meter)
    ensures s.meter.allowance == None ==> FlushBuffer(s, maxChunk).ok && FlushBuffer(s, maxChunk).stream.meter.allowance == None
  {
    ChunksMove(s.(buffered := 0), Pieces(s.buffered, maxChunk));
  }

  lemma CloseMoves(s: Stream, maxChunk: nat)
    requires Sane(s) && maxChunk >= 1
    ensures Moved(s, CloseStream(s, maxChunk)) && CloseStream(s, maxChunk).stream.started
    ensures CloseStream(s, maxChunk).ok ==> !s.closed
    ensures CloseStream(s, maxChunk).stream.closed <==> s.closed || CloseStream(s, maxChunk).ok
    ensures s.meter.allowance == None && !s.closed ==> CloseStream(s, maxChunk).ok
    ensures s.meter.allowance == None ==> CloseStream(s, maxChunk).stream.meter.allowance == None
  {
    FlushMoves(Start(s, s.sequence == Some(true), false).stream, maxChunk);
  }

  /** What every operation but a successful close does to a stream. */
  predicate Carried(s: Stream, e: Emission) {
    Moved(s, e) && e.stream.closed == s.closed && (s.meter.allowance == None ==> e.stream.meter.allowance == None)
  }

  lemma FlushedMoves(s: Stream, maxChunk: nat)
    requires Sane(s) && maxChunk >= 1
    ensures Carried(s, Flushed(s, false, maxChunk)) && Flushed(s, false, maxChunk).stream.started
  {
    FlushMoves(Start(s, false, false).stream, maxChunk);
  }

  lemma FlushedThenChunksMoves(s: Stream, k: nat, maxChunk: nat)
    requires Sane(s) && maxChunk >= 1
    ensures var flushed := Flushed(s, false, maxChunk);
            var e := Also(flushed, SendChunks(flushed.stream, k));
            Carried(s, e) && e.stream.started
  {
    FlushedMoves(s, maxChunk);
    var flushed := Flushed(s, false, maxChunk);
    ChunksMove(flushed.stream, k);
  }

  lemma AppendMoves(s: Stream, n: nat, aged: bool, maxChunk: nat)
    requires Sane(s) && s.started && maxChunk >= 1
    ensures Carried(s, AppendBytes(s, n, aged, maxChunk))
  {
    FlushMoves(s.(buffered := s.buffered + n), maxChunk);
  }

  lemma BytesMove(s: Stream, n: nat, aged: bool, maxChunk: nat)
    requires Sane(s) && maxChunk >= 1
    ensures var e := Perform(s, EmitBytes(n, aged), maxChunk); Carried(s, e) && e.stream.started
  {
    AppendMoves(Start(s, false, false).stream, n, aged, maxChunk);
  }

  lemma ItemMoves(s: Stream, k: nat)
    requires Sane(s)
    ensures var begun := Start(s, true, false); var e := Also(begun, SendChunks(begun.stream, k)); Carried(s, e) && e.stream.started
  {
    ChunksMove(Start(s, true, false).stream, k);
  }

  /** An operation opens a stream exactly when it touches it, and closes it
      exactly when it is a close that returns. */
  lemma PerformMoves(s: Stream, op: Op, maxChunk: nat)
    requires Sane(s) && maxChunk >= 1
    ensures var e := Perform(s, op, maxChunk);
            && Moved(s, e)
            && (e.stream.started <==> s.started || Touches(op))
            && (e.stream.closed <==> s.closed || (op.Close? && e.ok))
            && (s.meter.allowance == None ==> e.stream.meter.allowance == None && (op.Close? && !s.closed ==> e.ok))
  {
    match op
    case Open(sequence, unbounded) =>
    case EmitBytes(n, aged) => BytesMove(s, n, aged, maxChunk);
    case EmitValue(k, _) => FlushedThenChunksMoves(s, k, maxChunk);
    case EmitItem(n) => ItemMoves(s, Pieces(n, maxChunk));
    case WriteRaw(n) => FlushedThenChunksMoves(s, Pieces(n, maxChunk), maxChunk);
    case Flush => FlushMoves(s, maxChunk);
    case Close => CloseMoves(s, maxChunk);
    case Log =>
  }

  lemma PerformFollows(s: Stream, op: Op, maxChunk: nat, before: Reader)
    requires before.Reading? && !before.ended && Known(s, before.streams) && maxChunk >= 1
    requires !Perform(s, op, maxChunk).stream.closed
    ensures Follows(s, Perform(s, op, maxChunk), before)
  {
    match op
    case Open(sequence, unbounded) => StartFollows(s, sequence, unbounded, before);
    case EmitBytes(n, aged) => StartedThenBytes(s, n, aged, maxChunk, before);
    case EmitValue(k, all) => FlushedThenChunks(s, k, maxChunk, before);
    case EmitItem(n) => StartedThenChunks(s, Pieces(n, maxChunk), before);
    case WriteRaw(n) => FlushedThenChunks(s, Pieces(n, maxChunk), maxChunk, before);
    case Flush => FlushFollows(s, maxChunk, before);
    case Close => CloseRaises(s, maxChunk, before);
    case Log =>
  }

  lemma CloseRaises(s: Stream, maxChunk: nat, before: Reader)
    requires before.Reading? && !before.ended && Known(s, before.streams) && maxChunk >= 1
    requires !CloseStream(s, maxChunk).stream.closed
    ensures Follows(s, CloseStream(s, maxChunk), before)
  {
    FlushedFollows(s, s.sequence == Some(true), maxChunk, before);
    assert CloseStream(s, maxChunk) == Flushed(s, s.sequence == Some(true), maxChunk);
  }

  lemma AppendFollows(s: Stream, n: nat, aged: bool, maxChunk: nat, before: Reader)
    requires before.Reading? && !before.ended && Known(s, before.streams) && maxChunk >= 1 && s.started
    ensures Follows(s, AppendBytes(s, n, aged, maxChunk), before)
  {
    FlushFollows(s.(buffered := s.buffered + n), maxChunk, before);
  }

  lemma StartedThenBytes(s: Stream, n: nat, aged: bool, maxChunk: nat, before: Reader)
    requires before.Reading? && !before.ended && Known(s, before.streams) && maxChunk >= 1
    ensures Follows(s, Perform(s, EmitBytes(n, aged), maxChunk), before)
  {
    var begun := Start(s, false, false);
    StartFollows(s, false, false, before);
    if begun.ok {
      AppendFollows(begun.stream, n, aged, maxChunk, ReadAll(before, begun.frames));
    }
    FollowsAlso(s, begun, AppendBytes(begun.stream, n, aged, maxChunk), before);
  }

  lemma StartedThenChunks(s: Stream, k: nat, before: Reader)
    requires before.Reading? && !before.ended && Known(s, before.streams)
    ensures var begun := Start(s, true, false); Follows(s, Also(begun, SendChunks(begun.stream, k)), before)
  {
    var begun := Start(s, true, false);
    StartFollows(s, true, false, before);
    if begun.ok {
      ChunksFollow(begun.stream, k, ReadAll(before, begun.frames));
    }
    FollowsAlso(s, begun, SendChunks(begun.stream, k), before);
  }

  function Flushed(s: Stream, sequence: bool, maxChunk: nat): Emission
    requires maxChunk >= 1
  {
    var begun := Start(s, sequence, false);
    Also(begun, FlushBuffer(begun.stream, maxChunk))
  }

  lemma FlushedFollows(s: Stream, sequence: bool, maxChunk: nat, before: Reader)
    requires before.Reading? && !before.ended && Known(s, before.streams) && maxChunk >= 1
    ensures Follows(s, Flushed(s, sequence, maxChunk), before)
    ensures Flushed(s, sequence, maxChunk).ok ==> Flushed(s, sequence, maxChunk).stream.started
  {
    var begun := Start(s, sequence, false);
    StartFollows(s, sequence, false, before);
    if begun.ok {
      FlushFollows(begun.stream, maxChunk, ReadAll(before, begun.frames));
    }
    FollowsAlso(s, begun, FlushBuffer(begun.stream, maxChunk), before);
  }

  lemma FlushedThenChunks(s: Stream, k: nat, maxChunk: nat, before: Reader)
    requires before.Reading? && !before.ended && Known(s, before.streams) && maxChunk >= 1
    ensures var flushed := Flushed(s, false, maxChunk);
            Follows(s, Also(flushed, SendChunks(flushed.stream, k)), before)
  {
    var flushed := Flushed(s, false, maxChunk);
    FlushedFollows(s, false, maxChunk, before);
    if flushed.ok {
      ChunksFollow(flushed.stream, k, ReadAll(before, flushed.frames));
    }
    FollowsAlso(s, flushed, SendChunks(flushed.stream, k), before);
  }

  // Whole runs

  lemma {:induction false} StreamOfAppend(a: seq<Emitted>, b: seq<Emitted>, s: nat)
    ensures StreamOf(a + b, s) == StreamOf(a, s) + StreamOf(b, s)
    decreases |b|
  {
    if b == [] {
      assert a + b == a;
    } else {
      var front := b[..|b| - 1];
      assert (a + b)[..|a + b| - 1] == a + front;
      StreamOfAppend(a, front, s);
    }
  }

  lemma {:induction false} StreamOfOnly(frames: seq<Emitted>, s: nat)
    ensures forall f :: f in StreamOf(frames, s) <==> f in frames && OfStream(f, s)
    ensures (forall f :: f in frames ==> !OfStream(f, s)) ==> StreamOf(frames, s) == []
  {
    if frames != [] {
      StreamOfOnly(frames[..|frames| - 1], s);
      assert frames == frames[..|frames| - 1] + [frames[|frames| - 1]];
    }
  }

  lemma MovedStream(wire: seq<Emitted>, s: Stream, e: Emission, i: nat)
    requires Moved(s, e)
    ensures i != s.output.sid ==> StreamOf(wire + e.frames, i) == StreamOf(wire, i)
    ensures i == s.output.sid && !e.stream.started ==> StreamOf(wire + e.frames, i) == StreamOf(wire, i)
    ensures i == s.output.sid && e.stream.started && !s.started ==> StreamOf(wire + e.frames, i) != []
  {
    StreamOfAppend(wire, e.frames, i);
    StreamOfOnly(e.frames, i);
    assert OfStream(StreamStart(s.output.sid), s.output.sid);
  }

  predicate TouchedBy(actions: seq<Action>, i: nat) {
    exists a :: a in actions && a.output == i && Touches(a.op)
  }

  predicate ClosedBy(actions: seq<Action>, i: nat) {
    exists a :: a in actions && a.output == i && a.op.Close?
  }

  /** One output after a run of actions. */
  predicate RunResult(was: Stream, s: Stream, wire: seq<Emitted>, actions: seq<Action>, i: nat) {
    && Sane(s) && s.output.sid == i && s.output.required == was.output.required
    && (s.started <==> TouchedBy(actions, i))
    && (s.started <==> StreamOf(wire, i) != [])
    && (s.closed ==> ClosedBy(actions, i))
    && (was.meter.allowance == None ==> s.meter.allowance == None && (s.closed <==> ClosedBy(actions, i)))
  }

  lemma {:induction false} RunKeepsOne(outs: seq<Stream>, actions: seq<Action>, maxChunk: nat, i: nat)
    requires maxChunk >= 1 && Within(actions, |outs|) && Fresh(outs) && i < |outs|
    ensures var a := Run(outs, actions, maxChunk); RunResult(outs[i], a.outs[i], a.wire, actions, i)
  {
    if actions != [] {
      var front, last := actions[..|actions| - 1], actions[|actions| - 1];
      assert actions == front + [last] && Within(front, |outs|);
      RunKeepsOne(outs, front, maxChunk, i);
      RunKeepsOne(outs, front, maxChunk, last.output);
      var a := Run(outs, front, maxChunk);
      PerformMoves(a.outs[last.output], last.op, maxChunk);
      MovedStream(a.wire, a.outs[last.output], Perform(a.outs[last.output], last.op, maxChunk), i);
      StreamOfAppend(a.wire, Perform(a.outs[last.output], last.op, maxChunk).frames, i);
      assert TouchedBy(actions, i) <==> TouchedBy(front, i) || (last.output == i && Touches(last.op));
      assert ClosedBy(actions, i) <==> ClosedBy(front, i) || (last.output == i && last.op.Close?);
    }
  }

  /** What the reader has of a stream behind a gate, ended or not. */
  predicate Tracked(s: Stream, streams: map<nat, Progress>, gate: Option<nat>) {
    if s.closed then s.started && s.output.sid in streams && streams[s.output.sid].Shut?
    else Known(s, streams) && Budget(s, streams) == gate
  }

  /** The reader has found nothing wrong, and keeps track of every output from `k`
      on; of those before it no stream is open. */
  predicate KnownFrom(a: Answer, k: nat, gates: seq<Option<nat>>) {
    var r := ReadAll(FRESH, a.wire);
    && Numbered(a.outs) && k <= |a.outs| == |gates|
    && r.Reading? && !r.ended
    && (forall j :: k <= j < |a.outs| ==> Tracked(a.outs[j], r.streams, gates[j]))
    && (forall s :: s in r.streams && r.streams[s].Open? ==> k <= s < |a.outs|)
  }

  lemma OthersUnmoved(x: map<nat, Progress>, y: map<nat, Progress>, i: nat, j: nat)
    requires x - {i} == y - {i} && i != j
    ensures j in x <==> j in y
    ensures j in x ==> x[j] == y[j]
  {
    assert j in x <==> j in x - {i};
    assert j in y <==> j in y - {i};
    if j in x {
      assert x[j] == (x - {i})[j] == (y - {i})[j];
    }
  }

  /** The reader keeps track of a stream through what is emitted on it. */
  predicate Kept(s: Stream, e: Emission, before: Reader, gate: Option<nat>)
    requires before.Reading?
  {
    var after := ReadAll(before, e.frames);
    && after.Reading? && !after.ended && after.streams - {s.output.sid} == before.streams - {s.output.sid}
    && e.stream.output == s.output && Tracked(e.stream, after.streams, gate)
  }

  lemma PutKept(a: Answer, i: nat, e: Emission, gates: seq<Option<nat>>)
    requires i < |a.outs| && KnownFrom(a, 0, gates) && Kept(a.outs[i], e, ReadAll(FRESH, a.wire), gates[i])
    ensures KnownFrom(Put(a, i, e), 0, gates)
  {
    ReadAllAppend(FRESH, a.wire, e.frames);
    var r, r' := ReadAll(FRESH, a.wire), ReadAll(FRESH, a.wire + e.frames);
    forall j | 0 <= j < |a.outs| ensures Tracked(Put(a, i, e).outs[j], r'.streams, gates[j]) {
      if j != i {
        OthersUnmoved(r.streams, r'.streams, i, j);
      }
    }
    forall s | s in r'.streams && r'.streams[s].Open? ensures 0 <= s < |a.outs| {
      if s != i {
        OthersUnmoved(r.streams, r'.streams, i, s);
      }
    }
  }

  /** The stream promised how many chunks it has, and one that took its number was
      never sent. */
  predicate Short(s: Stream, streams: map<nat, Progress>)
    requires Known(s, streams)
  {
    !s.unbounded && Gap(s, streams) > 0
  }

  /** Ending a stream the reader knows: it is read as ended, unless it says how
      many chunks it carried and one is missing. */
  lemma CloseReads(s: Stream, maxChunk: nat, before: Reader)
    requires before.Reading? && !before.ended && Known(s, before.streams) && maxChunk >= 1
    requires CloseStream(s, maxChunk).ok
    ensures var after := ReadAll(before, CloseStream(s, maxChunk).frames);
            if !Short(s, before.streams)
            then after.Reading? && !after.ended && after.streams - {s.output.sid} == before.streams - {s.output.sid}
                 && s.output.sid in after.streams && after.streams[s.output.sid].Shut?
            else after.Refused?
  {
    var flushed := Flushed(s, s.sequence == Some(true), maxChunk);
    FlushedFollows(s, s.sequence == Some(true), maxChunk, before);
    var middle := ReadAll(before, flushed.frames);
    var end := StreamEnd(s.output.sid, if flushed.stream.unbounded then None else Some(flushed.stream.meter.index));
    ReadAllAppend(before, flushed.frames, [end]);
    FlushMoves(Start(s, s.sequence == Some(true), false).stream, maxChunk);
    assert middle.streams[s.output.sid := Shut(middle.streams[s.output.sid].next)] - {s.output.sid} == middle.streams - {s.output.sid};
  }

  lemma FinishOneReads(s: Stream, maxChunk: nat, before: Reader)
    requires before.Reading? && !before.ended && Known(s, before.streams) && maxChunk >= 1
    requires FinishOne(s, maxChunk).ok
    ensures var after := ReadAll(before, FinishOne(s, maxChunk).frames);
            if !Short(s, before.streams)
            then after.Reading? && !after.ended && after.streams - {s.output.sid} == before.streams - {s.output.sid}
                 && (s.output.sid in after.streams ==> after.streams[s.output.sid].Shut?)
            else after.Refused?
  {
    if s.started {
      CloseReads(s, maxChunk, before);
      assert [] + CloseStream(s, maxChunk).frames == CloseStream(s, maxChunk).frames;
    } else if s.output.required {
      var begun := Start(s, s.output.cardinality, false);
      StartFollows(s, s.output.cardinality, false, before);
      CloseReads(begun.stream, maxChunk, ReadAll(before, begun.frames));
      ReadAllAppend(before, begun.frames, CloseStream(begun.stream, maxChunk).frames);
    }
  }

  lemma {:induction false} FinishAppends(a: Answer, k: nat, maxChunk: nat)
    requires maxChunk >= 1 && k <= |a.outs|
    ensures a.wire <= FinishWire(a, k, maxChunk)
    ensures Finish(a, k, maxChunk).Some? ==> Finish(a, k, maxChunk).value.wire == FinishWire(a, k, maxChunk)
    decreases |a.outs| - k
  {
    if k < |a.outs| {
      FinishAppends(Put(a, k, FinishOne(a.outs[k], maxChunk)), k + 1, maxChunk);
    }
  }

  lemma PutEnded(a: Answer, k: nat, e: Emission, gates: seq<Option<nat>>)
    requires k < |a.outs| && KnownFrom(a, k, gates) && e.stream.output == a.outs[k].output
    requires var r, r' := ReadAll(FRESH, a.wire), ReadAll(ReadAll(FRESH, a.wire), e.frames);
             r'.Reading? && !r'.ended && r'.streams - {k} == r.streams - {k} && (k in r'.streams ==> r'.streams[k].Shut?)
    ensures KnownFrom(Put(a, k, e), k + 1, gates)
  {
    ReadAllAppend(FRESH, a.wire, e.frames);
    var r, r' := ReadAll(FRESH, a.wire), ReadAll(FRESH, a.wire + e.frames);
    forall j | k + 1 <= j < |a.outs| ensures Tracked(Put(a, k, e).outs[j], r'.streams, gates[j]) {
      OthersUnmoved(r.streams, r'.streams, k, j);
    }
    forall s | s in r'.streams && r'.streams[s].Open? ensures k + 1 <= s < |a.outs| {
      OthersUnmoved(r.streams, r'.streams, k, s);
    }
  }

  lemma FinishStep(a: Answer, k: nat, gates: seq<Option<nat>>, maxChunk: nat)
    requires maxChunk >= 1 && k < |a.outs| && KnownFrom(a, k, gates) && !a.outs[k].closed && FinishOne(a.outs[k], maxChunk).ok
    ensures var a' := Put(a, k, FinishOne(a.outs[k], maxChunk)); var r, r' := ReadAll(FRESH, a.wire), ReadAll(FRESH, a'.wire);
            if Short(a.outs[k], r.streams) then r'.Refused? else KnownFrom(a', k + 1, gates)
  {
    var e, r := FinishOne(a.outs[k], maxChunk), ReadAll(FRESH, a.wire);
    ReadAllAppend(FRESH, a.wire, e.frames);
    FinishOneReads(a.outs[k], maxChunk, r);
    FinishOneMoves(a.outs[k], maxChunk);
    if !Short(a.outs[k], r.streams) {
      PutEnded(a, k, e, gates);
    }
  }

  /** What a stream's end leaves when it raises is read without fault. */
  lemma RaisedReads(a: Answer, k: nat, gates: seq<Option<nat>>, maxChunk: nat)
    requires maxChunk >= 1 && k < |a.outs| && KnownFrom(a, k, gates) && a.outs[k].started && !FinishOne(a.outs[k], maxChunk).ok
    ensures var r := ReadAll(FRESH, a.wire + FinishOne(a.outs[k], maxChunk).frames); r.Reading? && !r.ended
  {
    var s, r := a.outs[k], ReadAll(FRESH, a.wire);
    ReadAllAppend(FRESH, a.wire, FinishOne(s, maxChunk).frames);
    assert [] + CloseStream(s, maxChunk).frames == CloseStream(s, maxChunk).frames;
    if !s.closed {
      CloseMoves(s, maxChunk);
      CloseRaises(s, maxChunk, r);
    }
  }

  lemma FinishOneMoves(s: Stream, maxChunk: nat)
    requires Sane(s) && maxChunk >= 1
    ensures var e := FinishOne(s, maxChunk);
            && Moved(s, e)
            && (s.closed ==> !e.ok)
            && (s.meter.allowance == None && !s.closed ==> e.ok)
            && (e.stream.started <==> s.started || s.output.required)
  {
    if s.started {
      CloseMoves(s, maxChunk);
    } else if s.output.required {
      CloseMoves(Start(s, s.output.cardinality, false).stream, maxChunk);
    }
  }

  predicate AllSane(a: Answer, k: nat) {
    Numbered(a.outs) && k <= |a.outs| && forall j :: k <= j < |a.outs| ==> Sane(a.outs[j])
  }

  lemma {:induction false} FinishMeansNoneClosed(a: Answer, k: nat, maxChunk: nat)
    requires maxChunk >= 1 && k <= |a.outs| && AllSane(a, k)
    ensures Finish(a, k, maxChunk).Some? ==> forall j :: k <= j < |a.outs| ==> !a.outs[j].closed
    ensures (forall j :: k <= j < |a.outs| ==> a.outs[j].meter.allowance == None && !a.outs[j].closed)
        ==> Finish(a, k, maxChunk).Some?
    decreases |a.outs| - k
  {
    if k < |a.outs| {
      var a' := Put(a, k, FinishOne(a.outs[k], maxChunk));
      FinishOneMoves(a.outs[k], maxChunk);
      FinishMeansNoneClosed(a', k + 1, maxChunk);
      assert forall j :: k < j < |a.outs| ==> a.outs[j] == a'.outs[j];
    }
  }

  lemma RunResults(outs: seq<Stream>, actions: seq<Action>, maxChunk: nat)
    requires maxChunk >= 1 && Within(actions, |outs|) && Fresh(outs)
    ensures AllSane(Run(outs, actions, maxChunk), 0)
  {
    forall j | 0 <= j < |outs| ensures var a := Run(outs, actions, maxChunk); a.outs[j].output.sid == j && Sane(a.outs[j]) {
      RunKeepsOne(outs, actions, maxChunk, j);
    }
  }

  // What the handler tries to send, whatever its gates let through

  predicate Exceeds(chunks: nat, gate: Option<nat>) {
    gate.Some? && chunks > gate.value
  }

  /** What is left to send when the stream is ended does not get through, so it is
      not ended. */
  predicate Stuck(t: Stream, gate: Option<nat>, maxChunk: nat)
    requires maxChunk >= 1
  {
    t.started && t.buffered > 0 && Exceeds(t.meter.index + Pieces(t.buffered, maxChunk), gate)
  }

  /** What an operation leaves of a stream whose chunks all go through: only whether
      it is ended depends on its gate. */
  function Attempt(t: Stream, op: Op, maxChunk: nat, gate: Option<nat>): Stream
    requires maxChunk >= 1
  {
    if !op.Close? then Perform(t, op, maxChunk).stream
    else if t.closed then t
    else Flushed(t, t.sequence == Some(true), maxChunk).stream.(closed := !Stuck(t, gate, maxChunk))
  }

  /** Output `i` after the actions: `index` is how many chunks the handler tries to
      send, and `buffered` what its end will try to send yet. */
  function Attempted(s: Stream, actions: seq<Action>, maxChunk: nat, i: nat): Stream
    requires maxChunk >= 1
  {
    if actions == [] then s.(meter := s.meter.(allowance := None))
    else
      var last := actions[|actions| - 1];
      var t := Attempted(s, actions[..|actions| - 1], maxChunk, i);
      if last.output == i then Attempt(t, last.op, maxChunk, s.meter.allowance) else t
  }

  function FirstEnd(ended: Option<nat>, t: Stream): Option<nat> {
    if ended.None? && t.closed then Some(t.meter.index) else ended
  }

  /** How many chunks it had tried to send when the handler ended it, if it did. */
  function EndedAt(s: Stream, actions: seq<Action>, maxChunk: nat, i: nat): Option<nat>
    requires maxChunk >= 1
  {
    if actions == [] then None
    else FirstEnd(EndedAt(s, actions[..|actions| - 1], maxChunk, i), Attempted(s, actions, maxChunk, i))
  }

  /** A stream behind a gate and the same with its gate open: they differ in the
      chunks tried after the gate was used up. */
  predicate Twin(s: Stream, t: Stream, gate: Option<nat>) {
    t == s.(meter := t.meter) && Matched(s.meter, t.meter, gate)
  }

  predicate Matched(m: Meter, tried: Meter, gate: Option<nat>) {
    && tried.allowance == None
    && if gate == None then m == tried
       else if tried.index <= gate.value then m == Meter(tried.index, Some(gate.value - tried.index))
       else m.allowance == Some(0) && m.index > gate.value
  }

  /** The meter after `k` more chunks were tried, until one was refused. */
  function Advanced(m: Meter, k: nat): Meter {
    if m.allowance == None then Meter(m.index + k, None)
    else if k <= m.allowance.value then Meter(m.index + k, Some(m.allowance.value - k))
    else Meter(m.index + m.allowance.value + 1, Some(0))
  }

  lemma {:induction false} ChunksAdvance(s: Stream, k: nat)
    ensures SendChunks(s, k).stream == s.(meter := Advanced(s.meter, k))
    ensures SendChunks(s, k).ok <==> !Exceeds(k, s.meter.allowance)
    decreases k
  {
    if k > 0 {
      ChunksAdvance(s, k - 1);
    }
  }

  lemma AdvancedMatched(m: Meter, tried: Meter, gate: Option<nat>, k: nat)
    requires Matched(m, tried, gate)
    ensures Matched(Advanced(m, k), Advanced(tried, k), gate)
    ensures Exceeds(k, m.allowance) <==> k > 0 && Exceeds(tried.index + k, gate)
  {
  }

  lemma ChunksTwin(s: Stream, t: Stream, gate: Option<nat>, k: nat)
    requires Twin(s, t, gate)
    ensures Twin(SendChunks(s, k).stream, SendChunks(t, k).stream, gate)
    ensures SendChunks(t, k).ok && SendChunks(t, k).stream.meter.index == t.meter.index + k
    ensures SendChunks(s, k).ok <==> k == 0 || !Exceeds(t.meter.index + k, gate)
  {
    ChunksAdvance(s, k);
    ChunksAdvance(t, k);
    AdvancedMatched(s.meter, t.meter, gate, k);
  }

  /** Once the gate is used up, what else is tried makes no difference. */
  lemma UsedUpTwin(s: Stream, t: Stream, gate: Option<nat>, k: nat)
    requires Twin(s, t, gate) && Exceeds(t.meter.index, gate)
    ensures Twin(s, SendChunks(t, k).stream, gate)
  {
    ChunksAdvance(t, k);
  }

  lemma FlushTwin(s: Stream, t: Stream, gate: Option<nat>, maxChunk: nat)
    requires Twin(s, t, gate) && maxChunk >= 1
    ensures Twin(FlushBuffer(s, maxChunk).stream, FlushBuffer(t, maxChunk).stream, gate) && FlushBuffer(t, maxChunk).ok
    ensures !FlushBuffer(s, maxChunk).ok ==> Exceeds(FlushBuffer(t, maxChunk).stream.meter.index, gate)
  {
    ChunksTwin(s.(buffered := 0), t.(buffered := 0), gate, Pieces(s.buffered, maxChunk));
  }

  lemma StartTwin(s: Stream, t: Stream, gate: Option<nat>, sequence: bool, unbounded: bool)
    requires Twin(s, t, gate)
    ensures Twin(Start(s, sequence, unbounded).stream, Start(t, sequence, unbounded).stream, gate)
    ensures Start(s, sequence, unbounded).ok == Start(t, sequence, unbounded).ok
  {
  }

  lemma FlushedTwin(s: Stream, t: Stream, gate: Option<nat>, sequence: bool, maxChunk: nat)
    requires Twin(s, t, gate) && maxChunk >= 1
    ensures var e, f := Flushed(s, sequence, maxChunk), Flushed(t, sequence, maxChunk);
            && Twin(e.stream, f.stream, gate)
            && (e.ok ==> f.ok) && (f.ok && !e.ok ==> Exceeds(f.stream.meter.index, gate))
  {
    StartTwin(s, t, gate, sequence, false);
    FlushTwin(Start(s, sequence, false).stream, Start(t, sequence, false).stream, gate, maxChunk);
  }

  lemma FlushedThenChunksTwin(s: Stream, t: Stream, gate: Option<nat>, k: nat, maxChunk: nat)
    requires Twin(s, t, gate) && maxChunk >= 1
    ensures var e, f := Flushed(s, false, maxChunk), Flushed(t, false, maxChunk);
            Twin(Also(e, SendChunks(e.stream, k)).stream, Also(f, SendChunks(f.stream, k)).stream, gate)
  {
    var e, f := Flushed(s, false, maxChunk), Flushed(t, false, maxChunk);
    FlushedTwin(s, t, gate, false, maxChunk);
    if e.ok {
      ChunksTwin(e.stream, f.stream, gate, k);
    } else if f.ok {
      UsedUpTwin(e.stream, f.stream, gate, k);
    }
  }

  lemma AppendTwin(s: Stream, t: Stream, gate: Option<nat>, n: nat, aged: bool, maxChunk: nat)
    requires Twin(s, t, gate) && maxChunk >= 1
    ensures Twin(AppendBytes(s, n, aged, maxChunk).stream, AppendBytes(t, n, aged, maxChunk).stream, gate)
  {
    FlushTwin(s.(buffered := s.buffered + n), t.(buffered := t.buffered + n), gate, maxChunk);
  }

  lemma BytesTwin(s: Stream, t: Stream, gate: Option<nat>, n: nat, aged: bool, maxChunk: nat)
    requires Twin(s, t, gate) && maxChunk >= 1
    ensures Twin(Perform(s, EmitBytes(n, aged), maxChunk).stream, Perform(t, EmitBytes(n, aged), maxChunk).stream, gate)
  {
    StartTwin(s, t, gate, false, false);
    AppendTwin(Start(s, false, false).stream, Start(t, false, false).stream, gate, n, aged, maxChunk);
  }

  lemma PiecesSome(n: nat, maxChunk: nat)
    requires maxChunk >= 1
    ensures Pieces(n, maxChunk) == 0 <==> n == 0
  {
  }

  /** A stream is ended exactly when it was not before and what is left gets through. */
  lemma CloseTwin(s: Stream, t: Stream, gate: Option<nat>, maxChunk: nat)
    requires Twin(s, t, gate) && maxChunk >= 1 && Sane(s)
    ensures CloseStream(s, maxChunk).ok <==> !s.closed && !Stuck(t, gate, maxChunk)
    ensures Twin(CloseStream(s, maxChunk).stream, Attempt(t, Op.Close, maxChunk, gate), gate)
  {
    if !s.closed {
      PiecesSome(s.buffered, maxChunk);
      ChunksTwin(s.(buffered := 0), t.(buffered := 0), gate, Pieces(s.buffered, maxChunk));
      FlushedTwin(s, t, gate, s.sequence == Some(true), maxChunk);
      FlushMoves(Start(s, s.sequence == Some(true), false).stream, maxChunk);
    }
  }

  /** An operation keeps the two alike. */
  lemma AttemptTwin(s: Stream, t: Stream, gate: Option<nat>, op: Op, maxChunk: nat)
    requires Twin(s, t, gate) && maxChunk >= 1 && Sane(s)
    ensures Twin(Perform(s, op, maxChunk).stream, Attempt(t, op, maxChunk, gate), gate)
  {
    match op
    case Open(sequence, unbounded) => StartTwin(s, t, gate, sequence, unbounded);
    case EmitBytes(n, aged) => BytesTwin(s, t, gate, n, aged, maxChunk);
    case EmitValue(k, _) => FlushedThenChunksTwin(s, t, gate, k, maxChunk);
    case EmitItem(n) =>
      StartTwin(s, t, gate, true, false);
      ChunksTwin(Start(s, true, false).stream, Start(t, true, false).stream, gate, Pieces(n, maxChunk));
    case WriteRaw(n) => FlushedThenChunksTwin(s, t, gate, Pieces(n, maxChunk), maxChunk);
    case Flush => FlushTwin(s, t, gate, maxChunk);
    case Close => CloseTwin(s, t, gate, maxChunk);
    case Log =>
  }

  lemma {:induction false} RunTwin(outs: seq<Stream>, actions: seq<Action>, maxChunk: nat, i: nat)
    requires maxChunk >= 1 && Within(actions, |outs|) && Fresh(outs) && i < |outs|
    ensures Twin(Run(outs, actions, maxChunk).outs[i], Attempted(outs[i], actions, maxChunk, i), outs[i].meter.allowance)
  {
    if actions != [] {
      var front, last := actions[..|actions| - 1], actions[|actions| - 1];
      assert actions == front + [last] && Within(front, |outs|);
      RunKeepsOne(outs, front, maxChunk, i);
      RunTwin(outs, front, maxChunk, i);
      if last.output == i {
        AttemptTwin(Run(outs, front, maxChunk).outs[i], Attempted(outs[i], front, maxChunk, i), outs[i].meter.allowance, last.op, maxChunk);
      }
    }
  }

  // What is read of a handler's run

  /** What is sent on a stream that is already ended: the next chunk first, if one is
      tried that its gate lets through, and otherwise nothing. */
  predicate SendsMore(s: Stream, e: Emission) {
    && e.stream == s.(buffered := e.stream.buffered, meter := e.stream.meter)
    && e.stream.meter.index >= s.meter.index
    && (e.stream.meter.index == s.meter.index ==> e.stream.meter == s.meter)
    && (UsedUp(s.meter) ==> UsedUp(e.stream.meter))
    && if e.stream.meter.index > s.meter.index && !UsedUp(s.meter)
       then e.frames != [] && e.frames[0] == Chunk(s.output.sid, s.meter.index)
       else e.frames == []
  }

  lemma AlsoSendsMore(s: Stream, a: Emission, b: Emission)
    requires SendsMore(s, a) && (a.ok ==> SendsMore(a.stream, b))
    ensures SendsMore(s, Also(a, b))
  {
  }

  lemma {:induction false} ChunksSendMore(s: Stream, k: nat)
    ensures SendsMore(s, SendChunks(s, k))
    decreases k
  {
    if k > 0 {
      ChunksSendMore(s, k - 1);
      var front := SendChunks(s, k - 1);
      AlsoSendsMore(s, front, SendChunk(front.stream));
    }
  }

  lemma FlushSendsMore(s: Stream, maxChunk: nat)
    requires maxChunk >= 1
    ensures SendsMore(s, FlushBuffer(s, maxChunk))
  {
    ChunksSendMore(s.(buffered := 0), Pieces(s.buffered, maxChunk));
  }

  lemma FlushedThenChunksSendMore(s: Stream, k: nat, maxChunk: nat)
    requires s.started && s.sequence.Some? && maxChunk >= 1
    ensures var flushed := Flushed(s, false, maxChunk); SendsMore(s, Also(flushed, SendChunks(flushed.stream, k)))
  {
    var flushed := Flushed(s, false, maxChunk);
    FlushSendsMore(s, maxChunk);
    AlsoSendsMore(s, Start(s, false, false), FlushBuffer(s, maxChunk));
    ChunksSendMore(flushed.stream, k);
    AlsoSendsMore(s, flushed, SendChunks(flushed.stream, k));
  }

  lemma AppendSendsMore(s: Stream, n: nat, aged: bool, maxChunk: nat)
    requires maxChunk >= 1
    ensures SendsMore(s, AppendBytes(s, n, aged, maxChunk))
  {
    FlushSendsMore(s.(buffered := s.buffered + n), maxChunk);
  }

  /** The emitter does not look whether its stream is ended. */
  lemma PerformSendsMore(s: Stream, op: Op, maxChunk: nat)
    requires s.started && s.sequence.Some? && s.closed && maxChunk >= 1
    ensures var e := Perform(s, op, maxChunk); if op.Log? then e == Emission(s, [Other], true) else SendsMore(s, e)
  {
    match op
    case Open(_, _) =>
    case EmitBytes(n, aged) =>
      AppendSendsMore(s, n, aged, maxChunk);
      AlsoSendsMore(s, Start(s, false, false), AppendBytes(s, n, aged, maxChunk));
    case EmitValue(k, _) => FlushedThenChunksSendMore(s, k, maxChunk);
    case EmitItem(n) =>
      ChunksSendMore(s, Pieces(n, maxChunk));
      AlsoSendsMore(s, Start(s, true, false), SendChunks(s, Pieces(n, maxChunk)));
    case WriteRaw(n) => FlushedThenChunksSendMore(s, Pieces(n, maxChunk), maxChunk);
    case Flush => FlushSendsMore(s, maxChunk);
    case Close =>
    case Log =>
  }

  /** What a handler that ended the stream itself did right: all the chunks counted had
      got through, and none it tried later did. */
  predicate EndedRight(t: Stream, ended: Option<nat>, gate: Option<nat>) {
    ended.Some? ==>
      && (t.unbounded || !Exceeds(ended.value, gate))
      && (t.meter.index == ended.value || (gate.Some? && ended.value >= gate.value))
  }

  /** One output's stream, what was tried on it, and when it was ended. */
  predicate Abreast(s: Stream, t: Stream, ended: Option<nat>, gate: Option<nat>) {
    && Twin(s, t, gate) && Sane(s)
    && (ended.Some? <==> t.closed) && (ended.Some? ==> ended.value <= t.meter.index)
  }

  lemma StepOpen(s: Stream, t: Stream, gate: Option<nat>, op: Op, maxChunk: nat, before: Reader)
    requires maxChunk >= 1 && Abreast(s, t, None, gate) && before.Reading? && !before.ended && Tracked(s, before.streams, gate)
    requires !Perform(s, op, maxChunk).stream.closed
    ensures Kept(s, Perform(s, op, maxChunk), before, gate)
  {
    PerformFollows(s, op, maxChunk, before);
  }

  lemma StepEnds(s: Stream, t: Stream, gate: Option<nat>, maxChunk: nat, before: Reader)
    requires maxChunk >= 1 && Abreast(s, t, None, gate) && before.Reading? && !before.ended && Tracked(s, before.streams, gate)
    requires CloseStream(s, maxChunk).ok
    ensures var t' := Attempt(t, Op.Close, maxChunk, gate);
            if EndedRight(t', Some(t'.meter.index), gate) then Kept(s, CloseStream(s, maxChunk), before, gate)
            else ReadAll(before, CloseStream(s, maxChunk).frames).Refused?
  {
    CloseReads(s, maxChunk, before);
    CloseMoves(s, maxChunk);
    CloseTwin(s, t, gate, maxChunk);
    EndedRightIff(t, gate, maxChunk);
    ShortIff(s, t, gate, before.streams);
  }

  lemma EndedRightIff(t: Stream, gate: Option<nat>, maxChunk: nat)
    requires maxChunk >= 1 && t.meter.allowance == None && Sane(t) && !t.closed && !Stuck(t, gate, maxChunk)
    ensures var t' := Attempt(t, Op.Close, maxChunk, gate);
            EndedRight(t', Some(t'.meter.index), gate) <==> !Miscounted(t, gate)
  {
    var begun := Start(t, t.sequence == Some(true), false).stream;
    PiecesSome(t.buffered, maxChunk);
    ChunksAdvance(begun.(buffered := 0), Pieces(t.buffered, maxChunk));
  }

  lemma StepAfterEnd(s: Stream, t: Stream, ended: Option<nat>, gate: Option<nat>, op: Op, maxChunk: nat, before: Reader)
    requires maxChunk >= 1 && Abreast(s, t, ended, gate) && ended.Some? && EndedRight(t, ended, gate)
    requires before.Reading? && !before.ended && Tracked(s, before.streams, gate)
    ensures var e := Perform(s, op, maxChunk);
            if EndedRight(Attempt(t, op, maxChunk, gate), ended, gate) then Kept(s, e, before, gate)
            else ReadAll(before, e.frames).Refused?
  {
    PerformSendsMore(s, op, maxChunk);
    PerformSendsMore(t, op, maxChunk);
    AttemptTwin(s, t, gate, op, maxChunk);
    var e := Perform(s, op, maxChunk);
    if !op.Log? && e.frames != [] {
      RefusedStays(Read(before, e.frames[0]), e.frames[1..]);
    }
  }

  // What an ERR ends

  /** More chunks were tried than the gate let through, and the stream promised to
      say how many it has. */
  predicate Miscounted(t: Stream, gate: Option<nat>) {
    t.started && !t.unbounded && Exceeds(t.meter.index, gate)
  }

  lemma ShortIff(s: Stream, t: Stream, gate: Option<nat>, streams: map<nat, Progress>)
    requires Known(s, streams) && Twin(s, t, gate) && Budget(s, streams) == gate
    ensures Short(s, streams) <==> Miscounted(t, gate)
  {
  }

  /** The stream cannot be ended: it is already, or what is left does not get through. */
  predicate Blocked(t: Stream, gate: Option<nat>, maxChunk: nat)
    requires maxChunk >= 1
  {
    t.closed || Stuck(t, gate, maxChunk)
  }

  lemma FinishOneOkIff(s: Stream, t: Stream, gate: Option<nat>, maxChunk: nat)
    requires Twin(s, t, gate) && maxChunk >= 1 && Sane(s)
    ensures FinishOne(s, maxChunk).ok <==> !Blocked(t, gate, maxChunk)
  {
    if s.started {
      CloseTwin(s, t, gate, maxChunk);
    } else {
      FinishOneMoves(s, maxChunk);
    }
  }

  /** The outputs from `k` on, each with what was tried on it. */
  predicate TwinsFrom(a: Answer, k: nat, ts: seq<Stream>, gates: seq<Option<nat>>) {
    && KnownFrom(a, k, gates) && |ts| == |a.outs|
    && forall j :: k <= j < |a.outs| ==> Twin(a.outs[j], ts[j], gates[j]) && Sane(a.outs[j])
  }

  /** No stream from `k` on is ended with a wrong count: each that would be has one
      before it, or itself, that cannot be ended. */
  predicate CountsRight(k: nat, ts: seq<Stream>, gates: seq<Option<nat>>, maxChunk: nat)
    requires |ts| == |gates| && maxChunk >= 1
  {
    forall j :: k <= j < |ts| && Miscounted(ts[j], gates[j]) ==> exists i :: k <= i <= j && Blocked(ts[i], gates[i], maxChunk)
  }

  lemma CountsRightStep(k: nat, ts: seq<Stream>, gates: seq<Option<nat>>, maxChunk: nat)
    requires |ts| == |gates| && maxChunk >= 1 && k < |ts|
    ensures CountsRight(k, ts, gates, maxChunk)
       <==> Blocked(ts[k], gates[k], maxChunk) || (!Miscounted(ts[k], gates[k]) && CountsRight(k + 1, ts, gates, maxChunk))
  {
    if !Blocked(ts[k], gates[k], maxChunk) && CountsRight(k, ts, gates, maxChunk) {
      forall j | k + 1 <= j < |ts| && Miscounted(ts[j], gates[j])
        ensures exists i :: k + 1 <= i <= j && Blocked(ts[i], gates[i], maxChunk)
      {
        var i :| k <= i <= j && Blocked(ts[i], gates[i], maxChunk);
      }
    }
  }

  lemma TwinsStep(a: Answer, k: nat, ts: seq<Stream>, gates: seq<Option<nat>>, maxChunk: nat)
    requires maxChunk >= 1 && k < |a.outs| && TwinsFrom(a, k, ts, gates) && !Blocked(ts[k], gates[k], maxChunk)
    ensures var e := FinishOne(a.outs[k], maxChunk); var a' := Put(a, k, e);
            && e.ok
            && if Miscounted(ts[k], gates[k]) then ReadAll(FRESH, a'.wire).Refused? else TwinsFrom(a', k + 1, ts, gates)
  {
    FinishOneOkIff(a.outs[k], ts[k], gates[k], maxChunk);
    ShortIff(a.outs[k], ts[k], gates[k], ReadAll(FRESH, a.wire).streams);
    FinishStep(a, k, gates, maxChunk);
  }

  lemma RefusedWire(wire: seq<Emitted>, longer: seq<Emitted>)
    requires wire <= longer && ReadAll(FRESH, wire).Refused?
    ensures ReadAll(FRESH, longer).Refused?
  {
    assert longer == wire + longer[|wire|..];
    ReadAllAppend(FRESH, wire, longer[|wire|..]);
    RefusedStays(ReadAll(FRESH, wire), longer[|wire|..]);
  }

  /** Ending the outputs leaves an answer read without fault exactly when no stream is
      ended with a wrong count; and if all are ended, none is left open. */
  lemma {:induction false} FinishReads(a: Answer, k: nat, ts: seq<Stream>, gates: seq<Option<nat>>, maxChunk: nat)
    requires maxChunk >= 1 && TwinsFrom(a, k, ts, gates)
    ensures var r := ReadAll(FRESH, FinishWire(a, k, maxChunk));
            && (r.Reading? <==> CountsRight(k, ts, gates, maxChunk))
            && (r.Reading? ==> !r.ended && (Finish(a, k, maxChunk).Some? ==> !AnyOpen(r.streams)))
    decreases |a.outs| - k
  {
    if k < |a.outs| {
      var a' := Put(a, k, FinishOne(a.outs[k], maxChunk));
      CountsRightStep(k, ts, gates, maxChunk);
      if Blocked(ts[k], gates[k], maxChunk) {
        FinishOneOkIff(a.outs[k], ts[k], gates[k], maxChunk);
        RaisedReads(a, k, gates, maxChunk);
      } else {
        TwinsStep(a, k, ts, gates, maxChunk);
        if Miscounted(ts[k], gates[k]) {
          FinishAppends(a', k + 1, maxChunk);
          RefusedWire(a'.wire, FinishWire(a', k + 1, maxChunk));
        } else {
          FinishReads(a', k + 1, ts, gates, maxChunk);
        }
      }
    }
  }

  predicate Alike(a: Answer, k: nat, ts: seq<Stream>, gates: seq<Option<nat>>) {
    && |ts| == |gates| == |a.outs| && k <= |a.outs|
    && forall j :: k <= j < |a.outs| ==> Twin(a.outs[j], ts[j], gates[j]) && Sane(a.outs[j])
  }

  lemma {:induction false} FinishSomeIff(a: Answer, k: nat, ts: seq<Stream>, gates: seq<Option<nat>>, maxChunk: nat)
    requires maxChunk >= 1 && Alike(a, k, ts, gates)
    ensures Finish(a, k, maxChunk).Some? <==> forall i :: k <= i < |ts| ==> !Blocked(ts[i], gates[i], maxChunk)
    decreases |a.outs| - k
  {
    if k < |a.outs| {
      FinishOneOkIff(a.outs[k], ts[k], gates[k], maxChunk);
      FinishSomeIff(Put(a, k, FinishOne(a.outs[k], maxChunk)), k + 1, ts, gates, maxChunk);
    }
  }

  function AllAttempted(outs: seq<Stream>, actions: seq<Action>, maxChunk: nat): seq<Stream>
    requires maxChunk >= 1
  {
    seq(|outs|, i requires 0 <= i < |outs| => Attempted(outs[i], actions, maxChunk, i))
  }

  function Gates(outs: seq<Stream>): seq<Option<nat>> {
    seq(|outs|, i requires 0 <= i < |outs| => outs[i].meter.allowance)
  }

  /** Whether everything the handler ended itself it ended right. */
  predicate AllEndedRight(outs: seq<Stream>, actions: seq<Action>, maxChunk: nat)
    requires maxChunk >= 1
  {
    forall i :: 0 <= i < |outs| ==> RightOn(outs[i], actions, maxChunk, i)
  }

  predicate RightOn(s: Stream, actions: seq<Action>, maxChunk: nat, i: nat)
    requires maxChunk >= 1
  {
    EndedRight(Attempted(s, actions, maxChunk, i), EndedAt(s, actions, maxChunk, i), s.meter.allowance)
  }

  /** After one more operation on an output it is still abreast, and once it was ended
      wrong it stays so. */
  lemma StepAbreast(s: Stream, t: Stream, ended: Option<nat>, gate: Option<nat>, op: Op, maxChunk: nat)
    requires maxChunk >= 1 && Abreast(s, t, ended, gate)
    ensures var t' := Attempt(t, op, maxChunk, gate); var ended' := FirstEnd(ended, t');
            && Abreast(Perform(s, op, maxChunk).stream, t', ended', gate)
            && (!EndedRight(t, ended, gate) ==> !EndedRight(t', ended', gate))
  {
    PerformMoves(s, op, maxChunk);
    AttemptTwin(s, t, gate, op, maxChunk);
    if t.closed {
      PerformSendsMore(t, op, maxChunk);
    }
  }

  lemma {:induction false} RunAbreast(outs: seq<Stream>, actions: seq<Action>, maxChunk: nat, i: nat)
    requires maxChunk >= 1 && Within(actions, |outs|) && Fresh(outs) && i < |outs|
    ensures Abreast(Run(outs, actions, maxChunk).outs[i], Attempted(outs[i], actions, maxChunk, i),
                    EndedAt(outs[i], actions, maxChunk, i), outs[i].meter.allowance)
  {
    if actions != [] {
      var front, last := actions[..|actions| - 1], actions[|actions| - 1];
      assert actions == front + [last] && Within(front, |outs|);
      RunAbreast(outs, front, maxChunk, i);
      if last.output == i {
        StepAbreast(Run(outs, front, maxChunk).outs[i], Attempted(outs[i], front, maxChunk, i),
                    EndedAt(outs[i], front, maxChunk, i), outs[i].meter.allowance, last.op, maxChunk);
      }
    }
  }

  /** One more operation: the reader still keeps track, unless it shows that the
      output was ended wrong. */
  lemma StepReads(s: Stream, t: Stream, ended: Option<nat>, gate: Option<nat>, op: Op, maxChunk: nat, before: Reader)
    requires maxChunk >= 1 && Abreast(s, t, ended, gate) && EndedRight(t, ended, gate)
    requires before.Reading? && !before.ended && Tracked(s, before.streams, gate)
    ensures var e, t' := Perform(s, op, maxChunk), Attempt(t, op, maxChunk, gate);
            if EndedRight(t', FirstEnd(ended, t'), gate) then Kept(s, e, before, gate) else ReadAll(before, e.frames).Refused?
  {
    PerformMoves(s, op, maxChunk);
    AttemptTwin(s, t, gate, op, maxChunk);
    if ended.Some? {
      StepAfterEnd(s, t, ended, gate, op, maxChunk, before);
    } else if Perform(s, op, maxChunk).stream.closed {
      StepEnds(s, t, gate, maxChunk, before);
    } else {
      StepOpen(s, t, gate, op, maxChunk, before);
    }
  }

  /** What the last action does to whether an output was ended right. */
  lemma RightOnSnoc(outs: seq<Stream>, actions: seq<Action>, maxChunk: nat, i: nat)
    requires maxChunk >= 1 && Within(actions, |outs|) && Fresh(outs) && i < |outs| && actions != []
    ensures var front, last := actions[..|actions| - 1], actions[|actions| - 1];
            && (RightOn(outs[i], actions, maxChunk, i) ==> RightOn(outs[i], front, maxChunk, i))
            && (last.output != i ==> RightOn(outs[i], actions, maxChunk, i) == RightOn(outs[i], front, maxChunk, i))
  {
    var front, last := actions[..|actions| - 1], actions[|actions| - 1];
    assert actions == front + [last] && Within(front, |outs|);
    RunAbreast(outs, front, maxChunk, i);
    if last.output == i {
      StepAbreast(Run(outs, front, maxChunk).outs[i], Attempted(outs[i], front, maxChunk, i),
                  EndedAt(outs[i], front, maxChunk, i), outs[i].meter.allowance, last.op, maxChunk);
    }
  }

  lemma AllEndedRightSnoc(outs: seq<Stream>, actions: seq<Action>, maxChunk: nat)
    requires maxChunk >= 1 && Within(actions, |outs|) && Fresh(outs) && actions != []
    ensures var front, last := actions[..|actions| - 1], actions[|actions| - 1];
            && last in actions && Within(front, |outs|)
            && (AllEndedRight(outs, actions, maxChunk)
                <==> AllEndedRight(outs, front, maxChunk) && RightOn(outs[last.output], actions, maxChunk, last.output))
  {
    var front, last := actions[..|actions| - 1], actions[|actions| - 1];
    assert actions == front + [last];
    forall i | 0 <= i < |outs|
      ensures RightOn(outs[i], actions, maxChunk, i) ==> RightOn(outs[i], front, maxChunk, i)
      ensures last.output != i ==> RightOn(outs[i], actions, maxChunk, i) == RightOn(outs[i], front, maxChunk, i)
    {
      RightOnSnoc(outs, actions, maxChunk, i);
    }
  }

  /** What a handler sends is read without fault exactly when what it ended itself it
      ended right. */
  lemma {:induction false} RunReads(outs: seq<Stream>, actions: seq<Action>, maxChunk: nat)
    requires maxChunk >= 1 && Within(actions, |outs|) && Fresh(outs)
    ensures var a := Run(outs, actions, maxChunk);
            if AllEndedRight(outs, actions, maxChunk) then KnownFrom(a, 0, Gates(outs)) else ReadAll(FRESH, a.wire).Refused?
  {
    if actions != [] {
      var front, last := actions[..|actions| - 1], actions[|actions| - 1];
      AllEndedRightSnoc(outs, actions, maxChunk);
      RunReads(outs, front, maxChunk);
      RunAbreast(outs, front, maxChunk, last.output);
      var a, i := Run(outs, front, maxChunk), last.output;
      var e, r := Perform(a.outs[i], last.op, maxChunk), ReadAll(FRESH, a.wire);
      ReadAllAppend(FRESH, a.wire, e.frames);
      if r.Refused? {
        RefusedStays(r, e.frames);
      } else {
        StepReads(a.outs[i], Attempted(outs[i], front, maxChunk, i), EndedAt(outs[i], front, maxChunk, i), Gates(outs)[i],
                  last.op, maxChunk, r);
        if RightOn(outs[i], actions, maxChunk, i) {
          PutKept(a, i, e, Gates(outs));
        }
      }
    }
  }

  lemma RunTwins(outs: seq<Stream>, actions: seq<Action>, maxChunk: nat)
    requires maxChunk >= 1 && Within(actions, |outs|) && Fresh(outs)
    ensures Alike(Run(outs, actions, maxChunk), 0, AllAttempted(outs, actions, maxChunk), Gates(outs))
    ensures AllEndedRight(outs, actions, maxChunk)
        ==> TwinsFrom(Run(outs, actions, maxChunk), 0, AllAttempted(outs, actions, maxChunk), Gates(outs))
  {
    RunReads(outs, actions, maxChunk);
    forall i | 0 <= i < |outs|
      ensures Twin(Run(outs, actions, maxChunk).outs[i], Attempted(outs[i], actions, maxChunk, i), outs[i].meter.allowance)
      ensures Sane(Run(outs, actions, maxChunk).outs[i])
    {
      RunAbreast(outs, actions, maxChunk, i);
    }
  }

  lemma ErrAfter(wire: seq<Emitted>)
    requires var r := ReadAll(FRESH, wire); r.Reading? ==> !r.ended
    ensures Check(wire + [Emitted.Err]) == None <==> ReadAll(FRESH, wire).Reading?
  {
    ReadAllAppend(FRESH, wire, [Emitted.Err]);
    assert ReadAll(ReadAll(FRESH, wire), [Emitted.Err]) == Read(ReadAll(FRESH, wire), Emitted.Err);
  }

  /** The answer that an ERR ends where its handler raises is well-formed exactly when
      every stream the handler ended itself it ended right: over every run, whatever
      it catches and whatever its gates refuse. */
  lemma RaisedWellFormedIff(outs: seq<Stream>, actions: seq<Action>, maxChunk: nat)
    requires maxChunk >= 1 && Within(actions, |outs|) && Fresh(outs)
    ensures Check(RespondRaised(outs, actions, maxChunk)) == None
       <==> forall i :: 0 <= i < |outs| ==>
              EndedRight(Attempted(outs[i], actions, maxChunk, i), EndedAt(outs[i], actions, maxChunk, i), outs[i].meter.allowance)
  {
    RunReads(outs, actions, maxChunk);
    ErrAfter(Run(outs, actions, maxChunk).wire);
    assert AllEndedRight(outs, actions, maxChunk) <==> forall i :: 0 <= i < |outs| ==> RightOn(outs[i], actions, maxChunk, i);
  }

  lemma FinishRefused(outs: seq<Stream>, actions: seq<Action>, maxChunk: nat)
    requires maxChunk >= 1 && Within(actions, |outs|) && Fresh(outs) && !AllEndedRight(outs, actions, maxChunk)
    ensures ReadAll(FRESH, FinishWire(Run(outs, actions, maxChunk), 0, maxChunk)).Refused?
  {
    RunReads(outs, actions, maxChunk);
    FinishAppends(Run(outs, actions, maxChunk), 0, maxChunk);
    RefusedWire(Run(outs, actions, maxChunk).wire, FinishWire(Run(outs, actions, maxChunk), 0, maxChunk));
  }

  /** The answer that an ERR ends after its handler returned is well-formed exactly
      when every stream the handler ended itself it ended right, and no other is
      ended with a wrong count; and its outputs are all ended exactly when none was
      and every closing flush gets through. All of it is known from what the handler
      tries and how much each gate lets through. */
  lemma ErrWellFormedIff(outs: seq<Stream>, actions: seq<Action>, maxChunk: nat)
    requires maxChunk >= 1 && Within(actions, |outs|) && Fresh(outs)
    ensures var ts := AllAttempted(outs, actions, maxChunk);
            && (Check(RespondErr(outs, actions, maxChunk)) == None
                <==> AllEndedRight(outs, actions, maxChunk) && CountsRight(0, ts, Gates(outs), maxChunk))
            && (Finish(Run(outs, actions, maxChunk), 0, maxChunk).Some?
                <==> forall i :: 0 <= i < |outs| ==> !Blocked(ts[i], outs[i].meter.allowance, maxChunk))
  {
    var a, ts, gates := Run(outs, actions, maxChunk), AllAttempted(outs, actions, maxChunk), Gates(outs);
    RunTwins(outs, actions, maxChunk);
    FinishSomeIff(a, 0, ts, gates, maxChunk);
    if AllEndedRight(outs, actions, maxChunk) {
      FinishReads(a, 0, ts, gates, maxChunk);
    } else {
      FinishRefused(outs, actions, maxChunk);
    }
    ErrAfter(FinishWire(a, 0, maxChunk));
    assert forall i :: 0 <= i < |outs| ==> gates[i] == outs[i].meter.allowance;
  }

  /** With every gate open both come to one thing: on no stream that the handler ended
      itself did it try to send a chunk afterwards. */
  lemma OpenErrWellFormedIff(outs: seq<Stream>, actions: seq<Action>, maxChunk: nat)
    requires maxChunk >= 1 && Within(actions, |outs|) && Fresh(outs) && Uncancelled(outs)
    ensures var right := forall i :: 0 <= i < |outs| ==>
              EndedAt(outs[i], actions, maxChunk, i) in {None, Some(Attempted(outs[i], actions, maxChunk, i).meter.index)};
            && (Check(RespondRaised(outs, actions, maxChunk)) == None <==> right)
            && (Check(RespondErr(outs, actions, maxChunk)) == None <==> right)
  {
    RaisedWellFormedIff(outs, actions, maxChunk);
    ErrWellFormedIff(outs, actions, maxChunk);
    NothingMiscounted(AllAttempted(outs, actions, maxChunk), Gates(outs), maxChunk);
    assert AllEndedRight(outs, actions, maxChunk) <==> forall i :: 0 <= i < |outs| ==> RightOn(outs[i], actions, maxChunk, i);
  }

  lemma NothingMiscounted(ts: seq<Stream>, gates: seq<Option<nat>>, maxChunk: nat)
    requires |ts| == |gates| && maxChunk >= 1 && forall i :: 0 <= i < |gates| ==> gates[i] == None
    ensures CountsRight(0, ts, gates, maxChunk)
  {
  }

  lemma MiscountedIff(t: Stream, gate: Option<nat>, maxChunk: nat)
    requires maxChunk >= 1 && !Stuck(t, gate, maxChunk)
    ensures Miscounted(t, gate) <==> t.started && !t.unbounded && Exceeds(t.meter.index + Pieces(t.buffered, maxChunk), gate)
  {
    PiecesSome(t.buffered, maxChunk);
  }

  /** A bounded output tries no more chunks, its closing flush included, than its
      gate lets through. */
  predicate Affords(t: Stream, gate: Option<nat>, maxChunk: nat)
    requires maxChunk >= 1
  {
    t.started && !t.unbounded ==> !Exceeds(t.meter.index + Pieces(t.buffered, maxChunk), gate)
  }

  lemma AllAffordIff(ts: seq<Stream>, gates: seq<Option<nat>>, maxChunk: nat)
    requires |ts| == |gates| && maxChunk >= 1 && forall i :: 0 <= i < |ts| ==> !Blocked(ts[i], gates[i], maxChunk)
    ensures CountsRight(0, ts, gates, maxChunk) <==> forall i :: 0 <= i < |ts| ==> Affords(ts[i], gates[i], maxChunk)
  {
    forall i | 0 <= i < |ts| ensures Miscounted(ts[i], gates[i]) <==> !Affords(ts[i], gates[i], maxChunk) {
      MiscountedIff(ts[i], gates[i], maxChunk);
    }
  }

  /** In particular, when all its outputs are ended: exactly when each bounded output
      the handler touched affords what it tries. */
  lemma ReturnedCancelledIff(outs: seq<Stream>, actions: seq<Action>, maxChunk: nat)
    requires maxChunk >= 1 && Within(actions, |outs|) && Fresh(outs)
    requires Finish(Run(outs, actions, maxChunk), 0, maxChunk).Some?
    ensures var ts := AllAttempted(outs, actions, maxChunk);
            Check(RespondErr(outs, actions, maxChunk)) == None
            <==> forall i :: 0 <= i < |outs| ==> Affords(ts[i], outs[i].meter.allowance, maxChunk)
  {
    var ts, gates := AllAttempted(outs, actions, maxChunk), Gates(outs);
    ErrWellFormedIff(outs, actions, maxChunk);
    ReturnedEndedRight(outs, actions, maxChunk);
    assert forall i :: 0 <= i < |outs| ==> gates[i] == outs[i].meter.allowance;
    AllAffordIff(ts, gates, maxChunk);
  }

  /** When all its outputs are ended, the handler ended none itself. */
  lemma ReturnedEndedRight(outs: seq<Stream>, actions: seq<Action>, maxChunk: nat)
    requires maxChunk >= 1 && Within(actions, |outs|) && Fresh(outs)
    requires Finish(Run(outs, actions, maxChunk), 0, maxChunk).Some?
    ensures AllEndedRight(outs, actions, maxChunk)
  {
    ErrWellFormedIff(outs, actions, maxChunk);
    forall i | 0 <= i < |outs| ensures RightOn(outs[i], actions, maxChunk, i) {
      RunAbreast(outs, actions, maxChunk, i);
      assert !AllAttempted(outs, actions, maxChunk)[i].closed;
    }
  }

  lemma LostChunkRun(s: Stream, actions: seq<Action>, maxChunk: nat)
    requires Unopened(s) && s.output.sid == 0 && s.meter.allowance == Some(0) && maxChunk >= 1
    requires actions == [Action(0, EmitValue(1, true))]
    ensures Run([s], actions, maxChunk)
         == Answer([s.(started := true, sequence := Some(false), meter := Meter(1, Some(0)))], [StreamStart(0)])
  {
    assert actions[..0] == [] && Run([s], actions[..0], maxChunk) == Answer([s], []);
    var t := s.(started := true, sequence := Some(false));
    assert Flushed(s, false, maxChunk) == Emission(t, [StreamStart(0)], true);
    assert SendChunks(t, 1) == Emission(t.(meter := Meter(1, Some(0))), [], false);
  }

  /** The input on which it is not: the gate lets nothing through, the handler sends
      one value, catches what that raises, and returns. The STREAM_END counts a chunk
      that was never sent. */
  lemma LostChunkIsCounted(s: Stream, actions: seq<Action>, maxChunk: nat)
    requires Unopened(s) && s.output.sid == 0 && s.meter.allowance == Some(0) && maxChunk >= 1
    requires actions == [Action(0, EmitValue(1, true))]
    ensures var answer := RespondErr([s], actions, maxChunk);
            && answer == [StreamStart(0), StreamEnd(0, Some(1)), Emitted.Err]
            && Check(answer) == Some(ChunkCountWrong(0, 0, 1))
  {
    LostChunkRun(s, actions, maxChunk);
    var a := Run([s], actions, maxChunk);
    var f := FinishOne(a.outs[0], maxChunk);
    assert f.ok && f.frames == [StreamEnd(0, Some(1))];
    assert EndFrom(a, 0, maxChunk) == EndFrom(Put(a, 0, f), 1, maxChunk) == (Put(a, 0, f), true);
    var wire := [StreamStart(0), StreamEnd(0, Some(1)), Emitted.Err];
    assert RespondErr([s], actions, maxChunk) == wire;
    assert wire[1..] == [StreamEnd(0, Some(1)), Emitted.Err] && wire[1..][1..] == [Emitted.Err];
  }

  lemma ChunkAfterEndRun(s: Stream, actions: seq<Action>, maxChunk: nat)
    requires Unopened(s) && s.output.sid == 0 && s.meter.allowance == None && maxChunk >= 1
    requires actions == [Action(0, Close), Action(0, EmitValue(1, true))]
    ensures Run([s], actions, maxChunk).wire == [StreamStart(0), StreamEnd(0, Some(0)), Chunk(0, 0)]
  {
    assert actions[..1] == [Action(0, Close)] && actions[..1][..0] == [];
    assert Run([s], actions[..1][..0], maxChunk) == Answer([s], []);
    var t := s.(started := true, sequence := Some(false), closed := true);
    assert CloseStream(s, maxChunk) == Emission(t, [StreamStart(0)] + [StreamEnd(0, Some(0))], true);
    assert Run([s], actions[..1], maxChunk) == Answer([t], [StreamStart(0), StreamEnd(0, Some(0))]);
    assert Flushed(t, false, maxChunk) == Emission(t, [], true);
    assert SendChunks(t, 1).frames == [Chunk(0, 0)];
  }

  /** An input with every gate open: the handler ends its stream, sends a value on it
      all the same, which nothing refuses, and then raises. */
  lemma ChunkFollowsOwnEnd(s: Stream, actions: seq<Action>, maxChunk: nat)
    requires Unopened(s) && s.output.sid == 0 && s.meter.allowance == None && maxChunk >= 1
    requires actions == [Action(0, Close), Action(0, EmitValue(1, true))]
    ensures var answer := RespondRaised([s], actions, maxChunk);
            && answer == [StreamStart(0), StreamEnd(0, Some(0)), Chunk(0, 0), Emitted.Err]
            && Check(answer) == Some(StreamNotOpen(0))
  {
    ChunkAfterEndRun(s, actions, maxChunk);
    var answer := [StreamStart(0), StreamEnd(0, Some(0)), Chunk(0, 0), Emitted.Err];
    assert RespondRaised([s], actions, maxChunk) == answer;
    assert answer[1..] == [StreamEnd(0, Some(0)), Chunk(0, 0), Emitted.Err];
    assert answer[1..][1..] == [Chunk(0, 0), Emitted.Err] && answer[1..][1..][1..] == [Emitted.Err];
  }

  lemma OwnEndRun(s: Stream, actions: seq<Action>, maxChunk: nat)
    requires Unopened(s) && s.output.sid == 0 && s.meter.allowance == Some(0) && maxChunk >= 1
    requires actions == [Action(0, EmitValue(1, true)), Action(0, Close)]
    ensures Run([s], actions, maxChunk).wire == [StreamStart(0), StreamEnd(0, Some(1))]
  {
    assert actions[..1] == [Action(0, EmitValue(1, true))];
    LostChunkRun(s, actions[..1], maxChunk);
    var t := s.(started := true, sequence := Some(false), meter := Meter(1, Some(0)));
    assert CloseStream(t, maxChunk) == Emission(t.(closed := true), [] + [StreamEnd(0, Some(1))], true);
  }

  /** And one whose gate lets nothing through: the handler's own STREAM_END counts the
      chunk that was refused. */
  lemma OwnEndCountsLostChunk(s: Stream, actions: seq<Action>, maxChunk: nat)
    requires Unopened(s) && s.output.sid == 0 && s.meter.allowance == Some(0) && maxChunk >= 1
    requires actions == [Action(0, EmitValue(1, true)), Action(0, Close)]
    ensures var answer := RespondRaised([s], actions, maxChunk);
            && answer == [StreamStart(0), StreamEnd(0, Some(1)), Emitted.Err]
            && Check(answer) == Some(ChunkCountWrong(0, 0, 1))
  {
    OwnEndRun(s, actions, maxChunk);
    var answer := [StreamStart(0), StreamEnd(0, Some(1)), Emitted.Err];
    assert RespondRaised([s], actions, maxChunk) == answer;
    assert answer[1..] == [StreamEnd(0, Some(1)), Emitted.Err] && answer[1..][1..] == [Emitted.Err];
  }

  // What a handler's return sends

  /** Every handler run that returns, of a request nothing ended first: END comes
      last, and each output's frames are none at all or one whole stream. */
  lemma ResponseWellFormed(outs: seq<Stream>, actions: seq<Action>, maxChunk: nat)
    requires maxChunk >= 1 && Within(actions, |outs|) && Fresh(outs) && Uncancelled(outs)
    requires Respond(outs, actions, maxChunk).Some?
    ensures var wire := Respond(outs, actions, maxChunk).value;
            && Check(wire) == None
            && wire[|wire| - 1] == Fin && Fin !in wire[..|wire| - 1] && Emitted.Err !in wire
            && AllComplete(wire[..|wire| - 1])
  {
    var a, ts, gates := Run(outs, actions, maxChunk), AllAttempted(outs, actions, maxChunk), Gates(outs);
    ReturnedEndedRight(outs, actions, maxChunk);
    RunTwins(outs, actions, maxChunk);
    NothingMiscounted(ts, gates, maxChunk);
    FinishReads(a, 0, ts, gates, maxChunk);
    FinishAppends(a, 0, maxChunk);
    var sent := Finish(a, 0, maxChunk).value.wire;
    ReadAllAppend(FRESH, sent, [Fin]);
    assert ReadAll(ReadAll(FRESH, sent), [Fin]) == Read(ReadAll(FRESH, sent), Fin);
    AcceptedIff(sent);
    assert (sent + [Fin])[..|sent|] == sent;
  }

  /** Ending the outputs of a run raises exactly when the handler ended one itself. */
  lemma ReturnsIff(outs: seq<Stream>, actions: seq<Action>, maxChunk: nat)
    requires maxChunk >= 1 && Within(actions, |outs|) && Fresh(outs) && Uncancelled(outs)
    ensures Respond(outs, actions, maxChunk).Some? <==> forall a :: a in actions ==> !a.op.Close?
  {
    var r := Run(outs, actions, maxChunk);
    forall i | 0 <= i < |outs| ensures RunResult(outs[i], r.outs[i], r.wire, actions, i) {
      RunKeepsOne(outs, actions, maxChunk, i);
    }
    RunResults(outs, actions, maxChunk);
    FinishMeansNoneClosed(r, 0, maxChunk);
    if a :| a in actions && a.op.Close? {
      assert ClosedBy(actions, a.output);
      assert r.outs[a.output].closed;
    }
  }

  // Which outputs it answers on

  /** What ending the outputs from `k` on still writes for output `i`. */
  function Ending(a: Answer, k: nat, maxChunk: nat, i: nat): seq<Emitted>
    requires maxChunk >= 1 && i < |a.outs|
  {
    if i < k then [] else StreamOf(FinishOne(a.outs[i], maxChunk).frames, i)
  }

  lemma AllSaneStep(a: Answer, k: nat, maxChunk: nat)
    requires maxChunk >= 1 && k < |a.outs| && AllSane(a, k)
    ensures AllSane(Put(a, k, FinishOne(a.outs[k], maxChunk)), k + 1)
  {
    FinishOneMoves(a.outs[k], maxChunk);
  }

  lemma FinishOwnStream(a: Answer, k: nat, maxChunk: nat)
    requires maxChunk >= 1 && k < |a.outs| && AllSane(a, k)
    ensures var a' := Put(a, k, FinishOne(a.outs[k], maxChunk));
            StreamOf(a'.wire, k) == StreamOf(a.wire, k) + Ending(a, k, maxChunk, k)
  {
    StreamOfAppend(a.wire, FinishOne(a.outs[k], maxChunk).frames, k);
  }

  lemma FinishOtherStream(a: Answer, k: nat, maxChunk: nat, i: nat)
    requires maxChunk >= 1 && k < |a.outs| && AllSane(a, k) && i != k
    ensures var a' := Put(a, k, FinishOne(a.outs[k], maxChunk));
            StreamOf(a'.wire, i) == StreamOf(a.wire, i)
  {
    FinishOneMoves(a.outs[k], maxChunk);
    MovedStream(a.wire, a.outs[k], FinishOne(a.outs[k], maxChunk), i);
  }

  /** Ending the outputs adds to each output's frames only what ending it writes. */
  lemma {:induction false} FinishStream(a: Answer, k: nat, maxChunk: nat, i: nat)
    requires maxChunk >= 1 && k <= |a.outs| && i < |a.outs| && Finish(a, k, maxChunk).Some? && AllSane(a, k)
    ensures StreamOf(Finish(a, k, maxChunk).value.wire, i) == StreamOf(a.wire, i) + Ending(a, k, maxChunk, i)
    decreases |a.outs| - k
  {
    if k < |a.outs| {
      var a' := Put(a, k, FinishOne(a.outs[k], maxChunk));
      AllSaneStep(a, k, maxChunk);
      FinishStream(a', k + 1, maxChunk, i);
      if i == k {
        FinishOwnStream(a, k, maxChunk);
        assert StreamOf(a'.wire, i) + [] == StreamOf(a'.wire, i);
      } else {
        FinishOtherStream(a, k, maxChunk, i);
        assert Ending(a', k + 1, maxChunk, i) == Ending(a, k, maxChunk, i);
      }
    } else {
      assert StreamOf(a.wire, i) + [] == StreamOf(a.wire, i);
    }
  }

  lemma FinishUnopened(s: Stream, maxChunk: nat)
    requires Unopened(s) && maxChunk >= 1
    ensures StreamOf(FinishOne(s, maxChunk).frames, s.output.sid)
         == if s.output.required then [StreamStart(s.output.sid), StreamEnd(s.output.sid, Some(0))] else []
  {
    if s.output.required {
      assert FinishOne(s, maxChunk).frames == [StreamStart(s.output.sid)] + [StreamEnd(s.output.sid, Some(0))];
      StreamOfAppend([StreamStart(s.output.sid)], [StreamEnd(s.output.sid, Some(0))], s.output.sid);
    }
  }

  /** An output is answered on exactly when it is required or the handler touched
      it; a required one it never touched is opened and closed empty. END and ERR
      are no stream's frames, so this is the whole answer's share. */
  lemma OutputsAnswered(outs: seq<Stream>, actions: seq<Action>, maxChunk: nat, i: nat)
    requires maxChunk >= 1 && Within(actions, |outs|) && Fresh(outs) && i < |outs|
    requires Finish(Run(outs, actions, maxChunk), 0, maxChunk).Some?
    ensures var sent := Finish(Run(outs, actions, maxChunk), 0, maxChunk).value.wire;
            var frames := StreamOf(sent, i);
            && StreamOf(sent + [Fin], i) == StreamOf(sent + [Emitted.Err], i) == frames
            && (frames == [] <==> !outs[i].output.required && !TouchedBy(actions, i))
            && (outs[i].output.required && !TouchedBy(actions, i) ==> frames == [StreamStart(i), StreamEnd(i, Some(0))])
  {
    var a := Run(outs, actions, maxChunk);
    RunResults(outs, actions, maxChunk);
    RunKeepsOne(outs, actions, maxChunk, i);
    FinishStream(a, 0, maxChunk, i);
    StreamOfAppend(Finish(a, 0, maxChunk).value.wire, [Fin], i);
    StreamOfAppend(Finish(a, 0, maxChunk).value.wire, [Emitted.Err], i);
    assert StreamOf([Fin], i) == [] && StreamOf([Emitted.Err], i) == [];
    if !a.outs[i].started {
      FinishUnopened(a.outs[i], maxChunk);
    }
  }

  // The objects

  /** What the request's writer was given, by all its streams. */
  class Wire {
    var frames: seq<Emitted>

    constructor ()
      ensures frames == []
    {
      frames := [];
    }
  }

  /** Once a chunk is refused, the ones after it are not tried. */
  lemma {:induction false} RaisesOnce(s: Stream, j: nat, k: nat)
    requires j <= k && !SendChunks(s, j).ok
    ensures SendChunks(s, k) == SendChunks(s, j)
    decreases k
  {
    if j < k {
      RaisesOnce(s, j, k - 1);
    }
  }

  /** A text goes out in pieces cut between characters, up to one no chunk can hold. */
  function EmitText(text: string, maxChunk: nat): Op
    requires maxChunk >= 1
  {
    EmitValue(ScalarStream.TextPieces(text, maxChunk), ScalarStream.SentWhole(text, maxChunk))
  }

  /** What is emitted that is not bytes: a list or a map goes out part by part. */
  datatype Payload = Text(text: string) | Parts(n: nat) | Single

  lemma {:induction false} WholeAfter(text: string, n: nat, maxChunk: nat)
    requires n <= |text| && |Utf8.Encode(text[..n])| <= maxChunk
    ensures ScalarStream.SentWhole(text, maxChunk) <==> ScalarStream.SentWhole(text[n..], maxChunk)
  {
    ScalarStream.SendableAllIff(text, maxChunk);
    ScalarStream.SendableAllIff(text[n..], maxChunk);
    ScalarStream.SentAfter(text, n, maxChunk, []);
  }

  /** One turn of the splitting loop. */
  method CutPiece(rest: seq<Utf8.Byte>, maxChunk: nat, ghost text: string) returns (size: nat, ghost later: string)
    requires maxChunk >= 1 && rest == Utf8.Encode(text) && rest != []
    ensures size <= |rest| && (size == 0 ==> ScalarStream.TextPieces(text, maxChunk) == 0 && !ScalarStream.SentWhole(text, maxChunk))
    ensures size > 0 ==>
      && rest[size..] == Utf8.Encode(later) && ScalarStream.TextPieces(text, maxChunk) == 1 + ScalarStream.TextPieces(later, maxChunk)
      && (ScalarStream.SentWhole(text, maxChunk) <==> ScalarStream.SentWhole(later, maxChunk))
  {
    ghost var chars;
    size, chars := ScalarStream.CutText(rest, maxChunk, text);
    later := "";
    if size > 0 {
      ScalarStream.MostIs(text, maxChunk, chars);
      WholeAfter(text, chars, maxChunk);
      later := text[chars..];
    }
  }

  method CutPayload(p: Payload, maxChunk: nat) returns (chunks: nat, all: bool)
    requires maxChunk >= 1
    ensures p.Text? ==> chunks == ScalarStream.TextPieces(p.text, maxChunk) && all == ScalarStream.SentWhole(p.text, maxChunk)
    ensures p.Parts? ==> chunks == p.n && all
    ensures p.Single? ==> chunks == 1 && all
  {
    match p
    case Text(text) => chunks, all := CutWhole(text, maxChunk);
    case Parts(n) => return n, true;
    case Single => return 1, true;
  }

  /** A text, cut between characters, up to one no chunk can hold. */
  method CutWhole(text: string, maxChunk: nat) returns (chunks: nat, all: bool)
    requires maxChunk >= 1
    ensures chunks == ScalarStream.TextPieces(text, maxChunk) && all == ScalarStream.SentWhole(text, maxChunk)
  {
    var rest := Utf8.Encode(text);
    ghost var left := text;
    chunks := 0;
    while rest != []
      invariant rest == Utf8.Encode(left) && chunks + ScalarStream.TextPieces(left, maxChunk) == ScalarStream.TextPieces(text, maxChunk)
      invariant ScalarStream.SentWhole(left, maxChunk) <==> ScalarStream.SentWhole(text, maxChunk)
      decreases |rest|
    {
      var size; ghost var later;
      size, later := CutPiece(rest, maxChunk, left);
      if size == 0 {
        return chunks, false;
      }
      rest, left, chunks := rest[size..], later, chunks + 1;
    }
    all := true;
  }

  /** The stream of one output, with what its output declares of it. */
  class ThreadSafeEmitter {
    const wire: Wire
    const sid: nat
    const maxChunk: nat
    const required: bool
    const cardinality: bool
    var started: bool
    var sequence: Option<bool>
    var unbounded: bool
    var closed: bool
    var chunkIndex: nat
    var buffered: nat
    var allowance: Option<nat>

    constructor (wire: Wire, sid: nat, maxChunk: nat, required: bool, cardinality: bool, allowance: Option<nat>)
      requires maxChunk >= 1
      ensures this.wire == wire && this.maxChunk == maxChunk && State().output.sid == sid
      ensures Unopened(State()) && required == State().output.required && cardinality == State().output.cardinality
      ensures this.allowance == allowance
    {
      this.wire, this.sid, this.maxChunk := wire, sid, maxChunk;
      this.required, this.cardinality, this.allowance := required, cardinality, allowance;
      started, sequence, unbounded, closed, chunkIndex, buffered := false, None, false, false, 0, 0;
    }

    ghost function State(): Stream
      reads this
    {
      Stream(Output(sid, required, cardinality), started, sequence, unbounded, closed, buffered, Meter(chunkIndex, allowance))
    }

    /** The object did what `e` says, and wrote it. */
    twostate predicate Did(e: Emission, ok: bool)
      reads this, wire
    {
      State() == e.stream && ok == e.ok && wire.frames == old(wire.frames) + e.frames
    }

    method EnsureStarted(asSequence: bool, noPromise: bool) returns (ok: bool)
      modifies this, wire
      ensures Did(Start(old(State()), asSequence, noPromise), ok)
    {
      if sequence.Some? && sequence.value != asSequence {
        return false;
      }
      if !started {
        started, sequence, unbounded := true, Some(asSequence), noPromise;
        wire.frames := wire.frames + [StreamStart(sid)];
      }
      ok := true;
    }

    method WriteChunk() returns (ok: bool)
      modifies this, wire
      ensures Did(SendChunk(old(State())), ok)
    {
      var index := chunkIndex;
      chunkIndex := chunkIndex + 1;
      if allowance.Some? {
        if allowance.value == 0 {
          return false;
        }
        allowance := Some(allowance.value - 1);
      }
      wire.frames := wire.frames + [Chunk(sid, index)];
      ok := true;
    }

    method WriteChunks(k: nat) returns (ok: bool)
      modifies this, wire
      ensures Did(SendChunks(old(State()), k), ok)
    {
      ok := true;
      var j := 0;
      while j < k
        invariant j <= k && SendChunks(old(State()), j).ok && Did(SendChunks(old(State()), j), true)
      {
        ok := WriteChunk();
        j := j + 1;
        if !ok {
          RaisesOnce(old(State()), j, k);
          return;
        }
      }
      ok := true;
    }

    /** `bytes` bytes in pieces of at most `maxChunk`. */
    method WritePieces(bytes: nat) returns (ok: bool)
      requires maxChunk >= 1
      modifies this, wire
      ensures Did(SendChunks(old(State()), Pieces(bytes, maxChunk)), ok)
    {
      ghost var j := 0;
      ghost var k := Pieces(bytes, maxChunk);
      var offset := 0;
      while offset < bytes
        invariant offset <= bytes && j + Pieces(bytes - offset, maxChunk) == k
        invariant SendChunks(old(State()), j).ok && Did(SendChunks(old(State()), j), true)
      {
        ok := WriteChunk();
        j := j + 1;
        if !ok {
          RaisesOnce(old(State()), j, k);
          return;
        }
        offset := offset + Min(maxChunk, bytes - offset);
      }
      ok := true;
    }

    method FlushCoalesced() returns (ok: bool)
      requires maxChunk >= 1
      modifies this, wire
      ensures Did(FlushBuffer(old(State()), maxChunk), ok)
    {
      var batch := buffered;
      buffered := 0;
      ok := WritePieces(batch);
    }

    /** `emit_cbor` of a byte string. */
    method EmitCborBytes(bytes: nat, aged: bool) returns (ok: bool)
      requires maxChunk >= 1
      modifies this, wire
      ensures Did(Perform(old(State()), EmitBytes(bytes, aged), maxChunk), ok)
    {
      ok := EnsureStarted(false, false);
      if !ok || bytes == 0 {
        return;
      }
      buffered := buffered + bytes;
      if buffered >= COALESCE_MAX_BYTES || aged {
        ok := FlushCoalesced();
      }
    }

    /** Opens the stream if it is not open, and sends what is coalesced. */
    method StartAndFlush(asSequence: bool) returns (ok: bool)
      requires maxChunk >= 1
      modifies this, wire
      ensures Did(Flushed(old(State()), asSequence, maxChunk), ok)
    {
      ok := EnsureStarted(asSequence, false);
      if ok {
        ok := FlushCoalesced();
      }
    }

    method SendPieces(chunks: nat, all: bool) returns (ok: bool)
      requires maxChunk >= 1
      modifies this, wire
      ensures Did(Perform(old(State()), EmitValue(chunks, all), maxChunk), ok)
    {
      ok := StartAndFlush(false);
      if !ok {
        return;
      }
      ok := WriteChunks(chunks);
      ok := ok && all;
    }

    /** `emit_cbor` of anything but bytes, which the coalesced bytes go before. Cutting
        a text changes nothing, so where it is cut is found before it is sent. */
    method EmitCborValue(p: Payload) returns (ok: bool)
      requires maxChunk >= 1
      modifies this, wire
      ensures p.Text? ==> Did(Perform(old(State()), EmitText(p.text, maxChunk), maxChunk), ok)
      ensures p.Parts? ==> Did(Perform(old(State()), EmitValue(p.n, true), maxChunk), ok)
      ensures p.Single? ==> Did(Perform(old(State()), EmitValue(1, true), maxChunk), ok)
    {
      var chunks, all := CutPayload(p, maxChunk);
      ok := SendPieces(chunks, all);
    }

    method EmitListItem(bytes: nat) returns (ok: bool)
      requires maxChunk >= 1
      modifies this, wire
      ensures Did(Perform(old(State()), EmitItem(bytes), maxChunk), ok)
    {
      ok := EnsureStarted(true, false);
      if ok {
        ok := WritePieces(bytes);
      }
    }

    method WriteBytes(bytes: nat) returns (ok: bool)
      requires maxChunk >= 1
      modifies this, wire
      ensures Did(Perform(old(State()), WriteRaw(bytes), maxChunk), ok)
    {
      ok := StartAndFlush(false);
      if ok {
        ok := WritePieces(bytes);
      }
    }

    method End() returns (ok: bool)
      requires maxChunk >= 1
      modifies this, wire
      ensures Did(CloseStream(old(State()), maxChunk), ok)
    {
      if closed {
        return false;
      }
      ok := StartAndFlush(sequence == Some(true));
      if !ok {
        return;
      }
      wire.frames := wire.frames + [StreamEnd(sid, if unbounded then None else Some(chunkIndex))];
      closed := true;
    }
  }

  /** The outputs of one request, the main one first. */
  class ResponseOutputs {
    const outputs: seq<ThreadSafeEmitter>
    const wire: Wire
    const maxChunk: nat

    constructor (wire: Wire, maxChunk: nat, outputs: seq<ThreadSafeEmitter>)
      ensures this.wire == wire && this.maxChunk == maxChunk && this.outputs == outputs
    {
      this.wire, this.maxChunk, this.outputs := wire, maxChunk, outputs;
    }

    /** One object a stream, all on one wire. */
    ghost predicate Valid() {
      && maxChunk >= 1
      && (forall o :: o in outputs ==> o.wire == wire && o.maxChunk == maxChunk)
      && (forall i, j :: 0 <= i < j < |outputs| ==> outputs[i] != outputs[j])
    }

    ghost function Now(): (a: Answer)
      reads wire, outputs
      ensures |a.outs| == |outputs| && forall i :: 0 <= i < |outputs| ==> a.outs[i] == outputs[i].State()
    {
      Answer(seq(|outputs|, i requires 0 <= i < |outputs| reads outputs => outputs[i].State()), wire.frames)
    }

    /** Ends every output, or raises at the first that cannot be ended. */
    method EndAll() returns (ok: bool)
      requires Valid()
      modifies wire, outputs
      ensures (Now(), ok) == EndFrom(old(Now()), 0, maxChunk)
    {
      var k := 0;
      while k < |outputs|
        invariant k <= |outputs|
        invariant EndFrom(old(Now()), 0, maxChunk) == EndFrom(Now(), k, maxChunk)
      {
        ghost var before := Now();
        ok := EndOne(outputs[k]);
        assert Now() == Put(before, k, FinishOne(before.outs[k], maxChunk));
        if !ok {
          return;
        }
        k := k + 1;
      }
      ok := true;
    }

    method EndOne(o: ThreadSafeEmitter) returns (ok: bool)
      requires Valid() && o in outputs
      modifies wire, o
      ensures var e := FinishOne(old(o.State()), maxChunk);
              o.State() == e.stream && ok == e.ok && wire.frames == old(wire.frames) + e.frames
    {
      if !o.started {
        if !o.required {
          return true;
        }
        ok := o.EnsureStarted(o.cardinality, false);
        if !ok {
          return;
        }
      }
      ok := o.End();
    }
  }
}
