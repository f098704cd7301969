/**
 How many chunks a handler's output takes: what it emits, cut at `max_chunk`, with
 nothing sent twice and nothing kept back once the stream is ended.
 */
module ResponseChunks {
  import opened Common
  import opened ResponseOrder
  import opened Response
  import SequenceStream
  import Utf8

  // Cutting at the limit

  /** As many pieces as are needed, and no more: all of them hold the bytes, one fewer
      would not. */
  lemma {:induction false} PiecesAreLeast(bytes: nat, maxChunk: nat)
    requires maxChunk >= 1
    ensures Pieces(bytes, maxChunk) * maxChunk >= bytes
    ensures bytes > 0 ==> (Pieces(bytes, maxChunk) - 1) * maxChunk < bytes
    decreases bytes
  {
    if bytes > maxChunk {
      var rest := Pieces(bytes - maxChunk, maxChunk);
      PiecesAreLeast(bytes - maxChunk, maxChunk);
      assert (1 + rest) * maxChunk == maxChunk + rest * maxChunk;
      assert rest * maxChunk == maxChunk + (rest - 1) * maxChunk;
    } else if bytes > 0 {
      assert Pieces(bytes - bytes, maxChunk) == 0;
    }
  }

  /** They are the pieces that a producer of items cuts. */
  lemma {:induction false} SamePieces(bytes: seq<Utf8.Byte>, maxChunk: nat)
    requires maxChunk >= 1
    ensures |SequenceStream.Pieces(bytes, maxChunk)| == Pieces(|bytes|, maxChunk)
    decreases |bytes|
  {
    if bytes != [] {
      SamePieces(bytes[Min(maxChunk, |bytes|)..], maxChunk);
    }
  }

  function CeilDiv(n: nat, d: nat): nat
    requires d >= 1
  {
    (n + d - 1) / d
  }

  lemma PiecesAre(bytes: nat, maxChunk: nat)
    requires maxChunk >= 1
    ensures Pieces(bytes, maxChunk) == CeilDiv(bytes, maxChunk)
  {
    PiecesAreLeast(bytes, maxChunk);
    var k := Pieces(bytes, maxChunk);
    if bytes > 0 {
      DivisionIs(bytes + maxChunk - 1, maxChunk, k, bytes + maxChunk - 1 - k * maxChunk);
    } else {
      DivisionIs(maxChunk - 1, maxChunk, 0, maxChunk - 1);
    }
  }

  // What a stream is owed

  /** What was emitted on an output: how many chunks it takes, the bytes that wait to
      be coalesced, its mode, whether it was opened without a promise of how many
      chunks come, and whether the handler ended it. */
  datatype Owed = Owed(chunks: nat, waiting: nat, sequence: Option<bool>, unbounded: bool, ended: bool)

  /** What comes first sets the mode; what comes in the other mode adds nothing. */
  function InMode(o: Owed, sequence: bool, unbounded: bool): Option<Owed> {
    if o.sequence == None then Some(o.(sequence := Some(sequence), unbounded := unbounded))
    else if o.sequence == Some(sequence) then Some(o)
    else None
  }

  /** The bytes that wait go out before `more` chunks do. */
  function AfterWaiting(o: Owed, more: nat, maxChunk: nat): Owed
    requires maxChunk >= 1
  {
    o.(chunks := o.chunks + CeilDiv(o.waiting, maxChunk) + more, waiting := 0)
  }

  /** Bytes wait until there are enough or they are too old. */
  function OweBytes(o: Owed, n: nat, aged: bool, maxChunk: nat): Owed
    requires maxChunk >= 1
  {
    var more := o.(waiting := o.waiting + n);
    if n > 0 && (more.waiting >= 4096 || aged) then AfterWaiting(more, 0, maxChunk) else more
  }

  /** One more operation: in the other mode it adds nothing. */
  function Owe(o: Owed, op: Op, maxChunk: nat): Owed
    requires maxChunk >= 1
  {
    match op
    case Open(sequence, unbounded) => (match InMode(o, sequence, unbounded) case None => o case Some(o') => o')
    case EmitBytes(n, aged) => (
      match InMode(o, false, false)
      case None => o
      case Some(o') => OweBytes(o', n, aged, maxChunk))
    case EmitValue(k, _) => (match InMode(o, false, false) case None => o case Some(o') => AfterWaiting(o', k, maxChunk))
    case EmitItem(n) => (match InMode(o, true, false) case None => o case Some(o') => o'.(chunks := o.chunks + CeilDiv(n, maxChunk)))
    case WriteRaw(n) => (match InMode(o, false, false) case None => o case Some(o') => AfterWaiting(o', CeilDiv(n, maxChunk), maxChunk))
    case Flush => AfterWaiting(o, 0, maxChunk)
    case Close =>
      if o.ended then o
      else AfterWaiting(o.(sequence := Some(o.sequence == Some(true)), ended := true), 0, maxChunk)
    case Log => o
  }

  /** An operation raises in the other mode, when it ends a stream a second time, and
      when a character of a text is wider than a chunk. Nothing else does. */
  predicate Accepts(o: Owed, op: Op) {
    match op
    case Open(sequence, unbounded) => InMode(o, sequence, unbounded).Some?
    case EmitBytes(_, _) => InMode(o, false, false).Some?
    case EmitValue(_, all) => InMode(o, false, false).Some? && all
    case EmitItem(_) => InMode(o, true, false).Some?
    case WriteRaw(_) => InMode(o, false, false).Some?
    case Flush => true
    case Close => !o.ended
    case Log => true
  }

  function OweAll(actions: seq<Action>, maxChunk: nat, i: nat): Owed
    requires maxChunk >= 1
  {
    if actions == [] then Owed(0, 0, None, false, false)
    else
      var o, last := OweAll(actions[..|actions| - 1], maxChunk, i), actions[|actions| - 1];
      if last.output == i then Owe(o, last.op, maxChunk) else o
  }

  function ChunksOn(frames: seq<Emitted>, sid: nat): nat {
    if frames == [] then 0
    else
      var last := frames[|frames| - 1];
      ChunksOn(frames[..|frames| - 1], sid) + if last.Chunk? && last.stream == sid then 1 else 0
  }

  lemma {:induction false} ChunksOnAppend(a: seq<Emitted>, b: seq<Emitted>, sid: nat)
    ensures ChunksOn(a + b, sid) == ChunksOn(a, sid) + ChunksOn(b, sid)
    decreases |b|
  {
    if b == [] {
      assert a + b == a;
    } else {
      assert (a + b)[..|a + b| - 1] == a + b[..|b| - 1];
      ChunksOnAppend(a, b[..|b| - 1], sid);
    }
  }

  lemma {:induction false} NoChunks(frames: seq<Emitted>)
    requires forall f :: f in frames ==> !f.Chunk?
    ensures forall sid: nat :: ChunksOn(frames, sid) == 0
  {
    forall sid: nat ensures ChunksOn(frames, sid) == 0 {
      if frames != [] {
        NoChunks(frames[..|frames| - 1]);
      }
    }
  }

  /** A stream whose gate is open is owed what it is. */
  predicate Pays(s: Stream, o: Owed) {
    && s.meter.allowance == None && Sane(s)
    && s.buffered == o.waiting && s.sequence == o.sequence && s.unbounded == o.unbounded && s.closed == o.ended
  }

  /** A stream's end says a count exactly if it was not opened without that promise. */
  predicate Says(frames: seq<Emitted>, sid: nat, unbounded: bool) {
    forall f :: f in frames && f.StreamEnd? && f.stream == sid ==> f.count.None? == unbounded
  }

  /** And only a stream that was opened is ended. */
  predicate EndsAs(frames: seq<Emitted>, sid: nat, o: Owed) {
    && Says(frames, sid, o.unbounded)
    && (o.sequence == None ==> forall f :: f in frames ==> !(f.StreamEnd? && f.stream == sid))
  }

  /** An emission that sends what became owed. */
  predicate Sends(s: Stream, e: Emission, before: Owed, after: Owed) {
    && Pays(e.stream, after) && e.stream.output.sid == s.output.sid
    && ChunksOn(e.frames, s.output.sid) == after.chunks - before.chunks && EndsAs(e.frames, s.output.sid, after)
    && (before.sequence.Some? ==> after.sequence == before.sequence && after.unbounded == before.unbounded)
  }

  /** Frames of one stream are no other's chunks. */
  lemma {:induction false} OnlyOwn(frames: seq<Emitted>, sid: nat, j: nat)
    requires j != sid && forall f :: f in frames ==> f == Other || OfStream(f, sid)
    ensures ChunksOn(frames, j) == 0
  {
    if frames != [] {
      assert frames[|frames| - 1] in frames;
      OnlyOwn(frames[..|frames| - 1], sid, j);
    }
  }

  lemma SendsOneMore(s: Stream, o: Owed)
    requires Pays(s, o) && s.started
    ensures SendChunk(s).ok && Sends(s, SendChunk(s), o, o.(chunks := o.chunks + 1)) && SendChunk(s).stream.started
  {
    assert [Chunk(s.output.sid, s.meter.index)][..0] == [];
  }

  lemma {:induction false} SendsChunks(s: Stream, k: nat, o: Owed)
    requires Pays(s, o) && (s.started || k == 0)
    ensures SendChunks(s, k).ok && Sends(s, SendChunks(s, k), o, o.(chunks := o.chunks + k))
    ensures SendChunks(s, k).stream.started == s.started
    decreases k
  {
    if k > 0 {
      var front, o' := SendChunks(s, k - 1), o.(chunks := o.chunks + (k - 1));
      SendsChunks(s, k - 1, o);
      SendsOneMore(front.stream, o');
      SendsBoth(s, front, SendChunk(front.stream), o, o', o'.(chunks := o'.chunks + 1));
    }
  }

  lemma SendsWaiting(s: Stream, o: Owed, maxChunk: nat)
    requires Pays(s, o) && maxChunk >= 1
    ensures FlushBuffer(s, maxChunk).ok && Sends(s, FlushBuffer(s, maxChunk), o, AfterWaiting(o, 0, maxChunk))
    ensures FlushBuffer(s, maxChunk).stream.started == s.started
  {
    PiecesAre(s.buffered, maxChunk);
    PiecesAre(0, maxChunk);
    SendsChunks(s.(buffered := 0), Pieces(s.buffered, maxChunk), o.(waiting := 0));
  }

  lemma SendsBoth(s: Stream, a: Emission, b: Emission, before: Owed, middle: Owed, after: Owed)
    requires a.ok && Sends(s, a, before, middle) && Sends(a.stream, b, middle, after)
    ensures Sends(s, Also(a, b), before, after)
  {
    ChunksOnAppend(a.frames, b.frames, s.output.sid);
  }

  lemma SendsStart(s: Stream, o: Owed, sequence: bool, unbounded: bool)
    requires Pays(s, o)
    ensures var e := Start(s, sequence, unbounded);
            match InMode(o, sequence, unbounded)
            case None => e == Emission(s, [], false) && Sends(s, e, o, o)
            case Some(o') => e.ok && e.stream.started && Sends(s, e, o, o')
  {
    NoChunks([StreamStart(s.output.sid)]);
    NoChunks([]);
    if s.started && s.sequence != Some(!sequence) {
      assert s.sequence.value == sequence;
    }
  }

  lemma SendsFlushed(s: Stream, o: Owed, sequence: bool, maxChunk: nat)
    requires Pays(s, o) && maxChunk >= 1 && InMode(o, sequence, false).Some?
    ensures var e := Flushed(s, sequence, maxChunk);
            e.ok && e.stream.started && Sends(s, e, o, AfterWaiting(InMode(o, sequence, false).value, 0, maxChunk))
  {
    var o' := InMode(o, sequence, false).value;
    var begun := Start(s, sequence, false);
    SendsStart(s, o, sequence, false);
    SendsWaiting(begun.stream, o', maxChunk);
    SendsBoth(s, begun, FlushBuffer(begun.stream, maxChunk), o, o', AfterWaiting(o', 0, maxChunk));
  }

  lemma SendsFlushedThen(s: Stream, o: Owed, k: nat, maxChunk: nat)
    requires Pays(s, o) && maxChunk >= 1
    ensures var flushed := Flushed(s, false, maxChunk); var e := Also(flushed, SendChunks(flushed.stream, k));
            && e.ok == InMode(o, false, false).Some?
            && match InMode(o, false, false) case None => Sends(s, e, o, o) case Some(o') => Sends(s, e, o, AfterWaiting(o', k, maxChunk))
  {
    var flushed := Flushed(s, false, maxChunk);
    SendsStart(s, o, false, false);
    if InMode(o, false, false).Some? {
      var middle := AfterWaiting(InMode(o, false, false).value, 0, maxChunk);
      SendsFlushed(s, o, false, maxChunk);
      SendsChunks(flushed.stream, k, middle);
      SendsBoth(s, flushed, SendChunks(flushed.stream, k), o, middle, middle.(chunks := middle.chunks + k));
    }
  }

  lemma SendsAppended(s: Stream, o: Owed, n: nat, aged: bool, maxChunk: nat)
    requires Pays(s, o) && s.started && maxChunk >= 1
    ensures AppendBytes(s, n, aged, maxChunk).ok && Sends(s, AppendBytes(s, n, aged, maxChunk), o, OweBytes(o, n, aged, maxChunk))
  {
    SendsWaiting(s.(buffered := s.buffered + n), o.(waiting := o.waiting + n), maxChunk);
  }

  lemma SendsBytes(s: Stream, o: Owed, n: nat, aged: bool, maxChunk: nat)
    requires Pays(s, o) && maxChunk >= 1
    ensures Sends(s, Perform(s, EmitBytes(n, aged), maxChunk), o, Owe(o, EmitBytes(n, aged), maxChunk))
    ensures Perform(s, EmitBytes(n, aged), maxChunk).ok == Accepts(o, EmitBytes(n, aged))
  {
    var begun := Start(s, false, false);
    SendsStart(s, o, false, false);
    if InMode(o, false, false).Some? {
      var o' := InMode(o, false, false).value;
      SendsAppended(begun.stream, o', n, aged, maxChunk);
      SendsBoth(s, begun, AppendBytes(begun.stream, n, aged, maxChunk), o, o', OweBytes(o', n, aged, maxChunk));
    }
  }

  lemma SendsItem(s: Stream, o: Owed, n: nat, maxChunk: nat)
    requires Pays(s, o) && maxChunk >= 1
    ensures Sends(s, Perform(s, EmitItem(n), maxChunk), o, Owe(o, EmitItem(n), maxChunk))
    ensures Perform(s, EmitItem(n), maxChunk).ok == Accepts(o, EmitItem(n))
  {
    var begun := Start(s, true, false);
    SendsStart(s, o, true, false);
    PiecesAre(n, maxChunk);
    if InMode(o, true, false).Some? {
      var o' := InMode(o, true, false).value;
      SendsChunks(begun.stream, Pieces(n, maxChunk), o');
      SendsBoth(s, begun, SendChunks(begun.stream, Pieces(n, maxChunk)), o, o', Owe(o, EmitItem(n), maxChunk));
    }
  }

  lemma SendsClose(s: Stream, o: Owed, maxChunk: nat)
    requires Pays(s, o) && maxChunk >= 1
    ensures Sends(s, CloseStream(s, maxChunk), o, Owe(o, Op.Close, maxChunk)) && CloseStream(s, maxChunk).ok == !o.ended
  {
    if !s.closed {
      var sequence := s.sequence == Some(true);
      var flushed := Flushed(s, sequence, maxChunk);
      assert o.sequence.Some? ==> o.sequence.value == sequence;
      SendsFlushed(s, o, sequence, maxChunk);
      var t := flushed.stream;
      var end := Emission(t.(closed := true), [StreamEnd(t.output.sid, if t.unbounded then None else Some(t.meter.index))], true);
      NoChunks(end.frames);
      var middle := AfterWaiting(InMode(o, sequence, false).value, 0, maxChunk);
      SendsBoth(s, flushed, end, o, middle, middle.(ended := true));
    }
  }

  lemma SendsRaw(s: Stream, o: Owed, n: nat, maxChunk: nat)
    requires Pays(s, o) && maxChunk >= 1
    ensures Sends(s, Perform(s, WriteRaw(n), maxChunk), o, Owe(o, WriteRaw(n), maxChunk))
    ensures Perform(s, WriteRaw(n), maxChunk).ok == Accepts(o, WriteRaw(n))
  {
    PiecesAre(n, maxChunk);
    SendsFlushedThen(s, o, Pieces(n, maxChunk), maxChunk);
  }

  lemma SendsOp(s: Stream, o: Owed, op: Op, maxChunk: nat)
    requires Pays(s, o) && maxChunk >= 1
    ensures Sends(s, Perform(s, op, maxChunk), o, Owe(o, op, maxChunk)) && Perform(s, op, maxChunk).ok == Accepts(o, op)
  {
    match op
    case Open(sequence, unbounded) => SendsStart(s, o, sequence, unbounded);
    case EmitBytes(n, aged) => SendsBytes(s, o, n, aged, maxChunk);
    case EmitValue(k, _) => SendsFlushedThen(s, o, k, maxChunk);
    case EmitItem(n) => SendsItem(s, o, n, maxChunk);
    case WriteRaw(n) => SendsRaw(s, o, n, maxChunk);
    case Flush => SendsWaiting(s, o, maxChunk);
    case Close => SendsClose(s, o, maxChunk);
    case Log => NoChunks([Other]);
  }

  /** With its gate open, every output has on the wire exactly the chunks that what the
      handler emitted on it takes: bytes coalesced and cut at the limit, values,
      items and raw writes; and what still waits is what was emitted and not sent. */
  lemma {:induction false} EveryChunkIsOwed(outs: seq<Stream>, actions: seq<Action>, maxChunk: nat, i: nat)
    requires maxChunk >= 1 && Within(actions, |outs|) && Fresh(outs) && Uncancelled(outs) && i < |outs|
    ensures var a, o := Run(outs, actions, maxChunk), OweAll(actions, maxChunk, i);
            ChunksOn(a.wire, i) == o.chunks && EndsAs(a.wire, i, o) && Pays(a.outs[i], o) && a.outs[i].output.sid == i
  {
    if actions != [] {
      var front, last := actions[..|actions| - 1], actions[|actions| - 1];
      assert actions == front + [last] && Within(front, |outs|) && last in actions;
      EveryChunkIsOwed(outs, front, maxChunk, i);
      EveryChunkIsOwed(outs, front, maxChunk, last.output);
      var a := Run(outs, front, maxChunk);
      var s, o := a.outs[last.output], OweAll(front, maxChunk, last.output);
      SendsOp(s, o, last.op, maxChunk);
      PerformMoves(s, last.op, maxChunk);
      if i != last.output {
        OnlyOwn(Perform(s, last.op, maxChunk).frames, last.output, i);
      }
      ChunksOnAppend(a.wire, Perform(s, last.op, maxChunk).frames, i);
    }
  }

  /** So an operation raises exactly when what was emitted before says so. */
  lemma RaisesIff(outs: seq<Stream>, actions: seq<Action>, maxChunk: nat, i: nat, op: Op)
    requires maxChunk >= 1 && Within(actions, |outs|) && Fresh(outs) && Uncancelled(outs) && i < |outs|
    ensures Perform(Run(outs, actions, maxChunk).outs[i], op, maxChunk).ok <==> Accepts(OweAll(actions, maxChunk, i), op)
  {
    EveryChunkIsOwed(outs, actions, maxChunk, i);
    SendsOp(Run(outs, actions, maxChunk).outs[i], OweAll(actions, maxChunk, i), op, maxChunk);
  }

  lemma FinishStarted(s: Stream, o: Owed, maxChunk: nat)
    requires Pays(s, o) && maxChunk >= 1 && !s.closed && s.started
    ensures FinishOne(s, maxChunk).ok && ChunksOn(FinishOne(s, maxChunk).frames, s.output.sid) == CeilDiv(o.waiting, maxChunk)
    ensures Says(FinishOne(s, maxChunk).frames, s.output.sid, o.unbounded)
  {
    SendsClose(s, o, maxChunk);
    FinishOneMoves(s, maxChunk);
    assert [] + CloseStream(s, maxChunk).frames == CloseStream(s, maxChunk).frames;
  }

  lemma FinishUnstarted(s: Stream, o: Owed, maxChunk: nat)
    requires Pays(s, o) && maxChunk >= 1 && !s.started && s.output.required
    ensures FinishOne(s, maxChunk).ok && ChunksOn(FinishOne(s, maxChunk).frames, s.output.sid) == CeilDiv(o.waiting, maxChunk)
    ensures Says(FinishOne(s, maxChunk).frames, s.output.sid, o.unbounded)
  {
    assert FinishOne(s, maxChunk).frames == [StreamStart(s.output.sid)] + [StreamEnd(s.output.sid, Some(0))];
    NoChunks(FinishOne(s, maxChunk).frames);
    PiecesAre(0, maxChunk);
  }

  /** What ending a stream sends on it. */
  lemma FinishSends(s: Stream, o: Owed, maxChunk: nat)
    requires Pays(s, o) && maxChunk >= 1 && !s.closed
    ensures FinishOne(s, maxChunk).ok && ChunksOn(FinishOne(s, maxChunk).frames, s.output.sid) == CeilDiv(o.waiting, maxChunk)
    ensures Says(FinishOne(s, maxChunk).frames, s.output.sid, o.unbounded)
  {
    if s.started {
      FinishStarted(s, o, maxChunk);
    } else if s.output.required {
      FinishUnstarted(s, o, maxChunk);
    } else {
      PiecesAre(0, maxChunk);
    }
  }

  /** Every output from `k` on pays what it is owed, and can be ended. */
  predicate AllPay(a: Answer, k: nat, owed: seq<Owed>) {
    |owed| == |a.outs| && Numbered(a.outs) && forall j :: k <= j < |a.outs| ==> Pays(a.outs[j], owed[j]) && !a.outs[j].closed
  }

  lemma EndStep(a: Answer, k: nat, owed: seq<Owed>, maxChunk: nat, i: nat)
    requires maxChunk >= 1 && k < |a.outs| && AllPay(a, k, owed) && i < |a.outs|
    ensures var e := FinishOne(a.outs[k], maxChunk);
            && e.ok && AllPay(Put(a, k, e), k + 1, owed)
            && ChunksOn(Put(a, k, e).wire, i) == ChunksOn(a.wire, i) + (if i == k then CeilDiv(owed[i].waiting, maxChunk) else 0)
            && (Says(a.wire, i, owed[i].unbounded) ==> Says(Put(a, k, e).wire, i, owed[i].unbounded))
  {
    var e := FinishOne(a.outs[k], maxChunk);
    FinishSends(a.outs[k], owed[k], maxChunk);
    FinishOneMoves(a.outs[k], maxChunk);
    if i != k {
      OnlyOwn(e.frames, k, i);
    }
    ChunksOnAppend(a.wire, e.frames, i);
  }

  lemma {:induction false} EndSends(a: Answer, k: nat, owed: seq<Owed>, maxChunk: nat, i: nat)
    requires maxChunk >= 1 && k <= |a.outs| && AllPay(a, k, owed) && i < |a.outs|
    ensures Finish(a, k, maxChunk).Some?
    ensures ChunksOn(Finish(a, k, maxChunk).value.wire, i)
         == ChunksOn(a.wire, i) + if i < k then 0 else CeilDiv(owed[i].waiting, maxChunk)
    ensures Says(a.wire, i, owed[i].unbounded) ==> Says(Finish(a, k, maxChunk).value.wire, i, owed[i].unbounded)
    decreases |a.outs| - k
  {
    if k < |a.outs| {
      EndStep(a, k, owed, maxChunk, i);
      EndSends(Put(a, k, FinishOne(a.outs[k], maxChunk)), k + 1, owed, maxChunk, i);
    }
  }

  lemma RunPays(outs: seq<Stream>, actions: seq<Action>, maxChunk: nat, owed: seq<Owed>)
    requires maxChunk >= 1 && Within(actions, |outs|) && Fresh(outs) && Uncancelled(outs)
    requires Finish(Run(outs, actions, maxChunk), 0, maxChunk).Some?
    requires |owed| == |outs| && forall j :: 0 <= j < |outs| ==> owed[j] == OweAll(actions, maxChunk, j)
    ensures AllPay(Run(outs, actions, maxChunk), 0, owed)
  {
    RunResults(outs, actions, maxChunk);
    FinishMeansNoneClosed(Run(outs, actions, maxChunk), 0, maxChunk);
    forall j | 0 <= j < |outs| ensures Pays(Run(outs, actions, maxChunk).outs[j], owed[j]) {
      EveryChunkIsOwed(outs, actions, maxChunk, j);
    }
  }

  /** The whole answer of a handler that returned: every output carries exactly the
      chunks that all of what was emitted on it takes, and its end says how many
      unless it was opened without that promise. */
  lemma NothingIsKeptBack(outs: seq<Stream>, actions: seq<Action>, maxChunk: nat, i: nat)
    requires maxChunk >= 1 && Within(actions, |outs|) && Fresh(outs) && Uncancelled(outs) && i < |outs|
    requires Respond(outs, actions, maxChunk).Some?
    ensures var o := OweAll(actions, maxChunk, i);
            && ChunksOn(Respond(outs, actions, maxChunk).value, i) == o.chunks + CeilDiv(o.waiting, maxChunk)
            && Says(Respond(outs, actions, maxChunk).value, i, o.unbounded)
  {
    var a := Run(outs, actions, maxChunk);
    var owed := seq(|outs|, j requires 0 <= j < |outs| => OweAll(actions, maxChunk, j));
    RunPays(outs, actions, maxChunk, owed);
    EveryChunkIsOwed(outs, actions, maxChunk, i);
    EndSends(a, 0, owed, maxChunk, i);
    ChunksOnAppend(Finish(a, 0, maxChunk).value.wire, [Fin], i);
    NoChunks([Fin]);
  }
}
