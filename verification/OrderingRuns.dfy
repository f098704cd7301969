/**
 A numbering writer, a channel that delivers in any order, and a reorder buffer:
 what comes out of the buffer over whole runs with any number of flows
 interleaved.
 */
module OrderingRuns {
  import opened Common
  import opened Frames
  import opened Ordering

  /** A buffer after some arrivals: its flows, what it handed on, and what it
      refused, as repeated or for want of room. */
  datatype Run = Run(flows: Flows, delivered: seq<Frame>, repeated: seq<Frame>, overflowed: seq<Frame>)

  function AfterOne(run: Run, f: Frame, limit: nat): Run
    requires FlowsValid(run.flows)
  {
    var (flows, delivery) := AcceptFrame(run.flows, f, limit);
    Booked(run, f, flows, delivery)
  }

  /** A run after one answer. */
  function Booked(run: Run, f: Frame, flows: Flows, delivery: Delivery): Run {
    match delivery
    case Ok(frames) => run.(flows := flows, delivered := run.delivered + frames)
    case Err(BufferOverflow) => run.(flows := flows, overflowed := run.overflowed + [f])
    case Err(_) => run.(flows := flows, repeated := run.repeated + [f])
  }

  function After(arrivals: seq<Frame>, limit: nat): (run: Run)
    ensures FlowsValid(run.flows)
  {
    if arrivals == [] then Run(map[], [], [], [])
    else
      var before := After(arrivals[..|arrivals| - 1], limit);
      AcceptFrameValid(before.flows, arrivals[|arrivals| - 1], limit);
      AfterOne(before, arrivals[|arrivals| - 1], limit)
  }

  lemma AfterSnoc(arrivals: seq<Frame>, f: Frame, limit: nat)
    ensures After(arrivals + [f], limit) == AfterOne(After(arrivals, limit), f, limit)
  {
    assert (arrivals + [f])[..|arrivals|] == arrivals;
  }

  // Whatever arrives

  /** The frames a flow holds, in order. */
  function HeldFrames(s: FlowState): seq<Frame>
    requires FlowValid(s)
  {
    FramesAt(s.buffer, s.order.held)
  }

  /** What was handed on of a flow is numbered from 0 up to the expected number,
      and each frame held is held under its own. */
  ghost predicate Sound(s: FlowState, delivered: seq<Frame>, k: FlowKey) {
    && FlowValid(s)
    && |delivered| == s.order.expected
    && (forall i :: 0 <= i < |delivered| ==> delivered[i].seqNo == i)
    && OwnFrames(s, k)
  }

  /** The numbers of a delivery: the expected one and the front of those held. */
  lemma DeliveredNumbers(r: Reorder, limit: nat)
    requires Ordered(r)
    ensures var n := RunLength(r.expected + 1, r.held);
            Accept(r, r.expected, limit) == Deliver(Reorder(r.expected + 1 + n, r.held[n..]), [r.expected] + r.held[..n])
  {
    var n := RunLength(r.expected + 1, r.held);
    assert From(r.expected, n + 1) == [r.expected] + r.held[..n];
  }

  lemma FramesFront(buffer: map<nat, Frame>, held: seq<nat>, n: nat, seqNo: nat, f: Frame)
    requires n <= |held| && seqNo !in buffer && forall i :: 0 <= i < |held| ==> held[i] in buffer
    ensures forall i :: 0 <= i < n + 1 ==> ([seqNo] + held[..n])[i] in buffer[seqNo := f]
    ensures FramesAt(buffer[seqNo := f], [seqNo] + held[..n]) == [f] + FramesAt(buffer, held)[..n]
  {
    var seqs := [seqNo] + held[..n];
    forall i | 0 <= i < n + 1 ensures seqs[i] in buffer[seqNo := f] && buffer[seqNo := f][seqs[i]] == if i == 0 then f else buffer[held[i - 1]] {
    }
  }

  lemma FramesWithOneMore(buffer: map<nat, Frame>, held: seq<nat>, p: nat, seqNo: nat, f: Frame)
    requires p <= |held| && seqNo !in buffer && forall i :: 0 <= i < |held| ==> held[i] in buffer
    ensures forall i :: 0 <= i < |held| + 1 ==> (held[..p] + [seqNo] + held[p..])[i] in buffer[seqNo := f]
    ensures FramesAt(buffer[seqNo := f], held[..p] + [seqNo] + held[p..])
         == FramesAt(buffer, held)[..p] + [f] + FramesAt(buffer, held)[p..]
  {
    var seqs := held[..p] + [seqNo] + held[p..];
    forall i | 0 <= i < |held| + 1
      ensures seqs[i] in buffer[seqNo := f]
      ensures buffer[seqNo := f][seqs[i]] == if i < p then buffer[held[i]] else if i == p then f else buffer[held[i - 1]]
    {
    }
  }

  /** What an answer hands on. */
  function Out(r: Delivery): seq<Frame> {
    if r.Ok? then r.value else []
  }

  /** Each frame held is one of the flow's, held under its own number. */
  ghost predicate OwnFrames(s: FlowState, k: FlowKey) {
    forall n :: n in s.buffer ==> s.buffer[n].seqNo == n && InFlow(s.buffer[n], k)
  }

  /** The next of the flow's frames, from the expected one on. */
  ghost predicate Continues(out: seq<Frame>, expected: nat, k: FlowKey) {
    forall i :: 0 <= i < |out| ==> out[i].seqNo == expected + i && InFlow(out[i], k)
  }

  /** One flow before and after one frame: what is handed on, and whether the
      frame was refused. */
  ghost predicate Moves(s: FlowState, s': FlowState, k: FlowKey, f: Frame, out: seq<Frame>, refused: seq<Frame>) {
    && FlowValid(s) && FlowValid(s') && OwnFrames(s', k)
    && s'.order.expected == s.order.expected + |out| && Continues(out, s.order.expected, k)
    && multiset(HeldFrames(s)) + multiset{f} == multiset(out) + multiset(HeldFrames(s')) + multiset(refused)
  }

  lemma SplitMultiset(held: seq<Frame>, n: nat, f: Frame)
    requires n <= |held|
    ensures multiset(held) + multiset{f} == multiset([f] + held[..n]) + multiset(held[n..])
    ensures multiset(held) + multiset{f} == multiset(held[..n] + [f] + held[n..])
  {
    assert held == held[..n] + held[n..];
  }

  /** A delivery hands on the frame and the front of what is held. */
  lemma DeliversFrames(s: FlowState, f: Frame, limit: nat)
    requires FlowValid(s) && f.seqNo == s.order.expected
    ensures var (s', r) := AcceptInFlow(s, f, limit); var n := RunLength(f.seqNo + 1, s.order.held);
      && r == Ok([f] + HeldFrames(s)[..n])
      && s'.order == Reorder(f.seqNo + 1 + n, s.order.held[n..])
  {
    DeliveredNumbers(s.order, limit);
    FramesFront(s.buffer, s.order.held, RunLength(f.seqNo + 1, s.order.held), f.seqNo, f);
  }

  lemma DeliversFront(s: FlowState, f: Frame, limit: nat)
    requires FlowValid(s) && f.seqNo == s.order.expected
    ensures var (s', r) := AcceptInFlow(s, f, limit); var n := RunLength(f.seqNo + 1, s.order.held);
      && r == Ok([f] + HeldFrames(s)[..n]) && FlowValid(s')
      && s'.order == Reorder(f.seqNo + 1 + n, s.order.held[n..])
      && s'.buffer.Keys <= s.buffer.Keys && forall m :: m in s'.buffer ==> s'.buffer[m] == s.buffer[m]
  {
    AcceptInFlowValid(s, f, limit);
    DeliversFrames(s, f, limit);
    DeliveredNumbers(s.order, limit);
    assert f.seqNo in [f.seqNo] + s.order.held[..RunLength(f.seqNo + 1, s.order.held)];
  }

  lemma DeliverMoves(s: FlowState, s': FlowState, r: Delivery, k: FlowKey, f: Frame, limit: nat)
    requires FlowValid(s) && OwnFrames(s, k) && InFlow(f, k) && f.seqNo == s.order.expected
    requires (s', r) == AcceptInFlow(s, f, limit)
    ensures r.Ok? && Moves(s, s', k, f, r.value, [])
  {
    DeliversFront(s, f, limit);
    DeliveryMoves(s, s', k, f, RunLength(f.seqNo + 1, s.order.held));
  }

  /** The same without the decision: the front of what is held goes. */
  lemma DeliveryMoves(s: FlowState, s': FlowState, k: FlowKey, f: Frame, n: nat)
    requires FlowValid(s) && FlowValid(s') && OwnFrames(s, k) && InFlow(f, k) && f.seqNo == s.order.expected && n <= |s.order.held|
    requires s'.order == Reorder(f.seqNo + 1 + n, s.order.held[n..])
    requires forall i :: 0 <= i < n ==> s.order.held[i] == f.seqNo + 1 + i
    requires s'.buffer.Keys <= s.buffer.Keys && forall m :: m in s'.buffer ==> s'.buffer[m] == s.buffer[m]
    ensures Moves(s, s', k, f, [f] + HeldFrames(s)[..n], [])
  {
    var out := [f] + HeldFrames(s)[..n];
    forall i | 0 <= i < |out| ensures out[i].seqNo == s.order.expected + i && InFlow(out[i], k) {
      if i > 0 {
        assert s.order.held[i - 1] in s.buffer && s.buffer[s.order.held[i - 1]] == out[i];
      }
    }
    HeldAfter(s, s', n);
    SplitMultiset(HeldFrames(s), n, f);
  }

  lemma HeldAfter(s: FlowState, s': FlowState, n: nat)
    requires FlowValid(s) && FlowValid(s') && n <= |s.order.held| && s'.order.held == s.order.held[n..]
    requires s'.buffer.Keys <= s.buffer.Keys && forall m :: m in s'.buffer ==> s'.buffer[m] == s.buffer[m]
    ensures HeldFrames(s') == HeldFrames(s)[n..]
  {
    forall i | 0 <= i < |s'.order.held| ensures HeldFrames(s')[i] == HeldFrames(s)[n..][i] {
      assert s'.order.held[i] == s.order.held[n + i] && s'.order.held[i] in s'.buffer;
    }
  }

  lemma HoldsOneMore(s: FlowState, f: Frame, limit: nat)
    requires FlowValid(s) && Accept(s.order, f.seqNo, limit).Hold?
    ensures var (s', r) := AcceptInFlow(s, f, limit); var p := Position(s.order.held, f.seqNo);
      && r == Ok([]) && FlowValid(s') && s'.order.expected == s.order.expected && s'.buffer == s.buffer[f.seqNo := f]
      && HeldFrames(s') == HeldFrames(s)[..p] + [f] + HeldFrames(s)[p..]
  {
    AcceptInFlowValid(s, f, limit);
    FramesWithOneMore(s.buffer, s.order.held, Position(s.order.held, f.seqNo), f.seqNo, f);
  }

  lemma HoldMoves(s: FlowState, s': FlowState, r: Delivery, k: FlowKey, f: Frame, limit: nat)
    requires FlowValid(s) && OwnFrames(s, k) && InFlow(f, k) && Accept(s.order, f.seqNo, limit).Hold?
    requires (s', r) == AcceptInFlow(s, f, limit)
    ensures r == Ok([]) && Moves(s, s', k, f, [], [])
  {
    HoldsOneMore(s, f, limit);
    HoldingMoves(s, s', k, f, Position(s.order.held, f.seqNo));
  }

  /** The same without the decision: one more is held. */
  lemma HoldingMoves(s: FlowState, s': FlowState, k: FlowKey, f: Frame, p: nat)
    requires FlowValid(s) && FlowValid(s') && OwnFrames(s, k) && InFlow(f, k) && p <= |HeldFrames(s)|
    requires s'.order.expected == s.order.expected && s'.buffer == s.buffer[f.seqNo := f]
    requires HeldFrames(s') == HeldFrames(s)[..p] + [f] + HeldFrames(s)[p..]
    ensures Moves(s, s', k, f, [], [])
  {
    SplitMultiset(HeldFrames(s), p, f);
  }

  /** One flow and one frame of it, whatever the answer. */
  lemma FlowMoves(s: FlowState, k: FlowKey, f: Frame, limit: nat)
    requires FlowValid(s) && OwnFrames(s, k) && InFlow(f, k)
    ensures var (s', r) := AcceptInFlow(s, f, limit); Moves(s, s', k, f, Out(r), if r.Err? then [f] else [])
  {
    var a := Accept(s.order, f.seqNo, limit);
    if a.Deliver? {
      DeliverMoves(s, AcceptInFlow(s, f, limit).0, AcceptInFlow(s, f, limit).1, k, f, limit);
    } else if a.Hold? {
      HoldMoves(s, AcceptInFlow(s, f, limit).0, AcceptInFlow(s, f, limit).1, k, f, limit);
    } else {
      AcceptInFlowValid(s, f, limit);
    }
  }

  /** Everything that arrived of a flow was handed on, is held, or was refused. */
  ghost predicate Balanced(arrived: seq<Frame>, delivered: seq<Frame>, held: seq<Frame>, repeated: seq<Frame>, overflowed: seq<Frame>) {
    multiset(arrived) == multiset(delivered) + multiset(held) + multiset(repeated) + multiset(overflowed)
  }

  ghost predicate Kept(run: Run, arrivals: seq<Frame>, k: FlowKey) {
    var s := FlowAt(run.flows, k);
    && Sound(s, Flow(run.delivered, k), k)
    && Balanced(Flow(arrivals, k), Flow(run.delivered, k), HeldFrames(s), Flow(run.repeated, k), Flow(run.overflowed, k))
  }

  lemma FramesOfOneFlow(frames: seq<Frame>, k: FlowKey, other: FlowKey)
    requires forall i :: 0 <= i < |frames| ==> InFlow(frames[i], k)
    ensures Flow(frames, other) == if other == k then frames else []
  {
    if frames != [] {
      FramesOfOneFlow(frames[..|frames| - 1], k, other);
      assert frames == frames[..|frames| - 1] + [frames[|frames| - 1]];
    }
  }

  lemma FlowSnoc(frames: seq<Frame>, f: Frame, k: FlowKey)
    ensures Flow(frames + [f], k) == if InFlow(f, k) then Flow(frames, k) + [f] else Flow(frames, k)
  {
    assert (frames + [f])[..|frames|] == frames;
  }

  /** What one arrival leaves of a run. */
  ghost predicate Answers(run: Run, run': Run, f: Frame, out: seq<Frame>, repeated: seq<Frame>, overflowed: seq<Frame>) {
    && run'.delivered == run.delivered + out
    && run'.repeated == run.repeated + repeated && run'.overflowed == run.overflowed + overflowed
    && (forall k :: !InFlow(f, k) ==> FlowAt(run'.flows, k) == FlowAt(run.flows, k))
    && (forall i :: 0 <= i < |repeated| ==> repeated[i] == f) && (forall i :: 0 <= i < |overflowed| ==> overflowed[i] == f)
    && (IsFlow(f.kind) ==> Moves(FlowAt(run.flows, f.key), FlowAt(run'.flows, f.key), f.key, f, out, repeated + overflowed))
    && (!IsFlow(f.kind) ==> out == [f] && repeated == [] && overflowed == [])
  }

  lemma OneAnswer(run: Run, f: Frame, limit: nat) returns (out: seq<Frame>, repeated: seq<Frame>, overflowed: seq<Frame>)
    requires FlowsValid(run.flows) && (IsFlow(f.kind) ==> OwnFrames(FlowAt(run.flows, f.key), f.key))
    ensures Answers(run, AfterOne(run, f, limit), f, out, repeated, overflowed)
  {
    AcceptFrameValid(run.flows, f, limit);
    var (flows, r) := AcceptFrame(run.flows, f, limit);
    if IsFlow(f.kind) {
      FlowMoves(FlowAt(run.flows, f.key), f.key, f, limit);
    }
    out, repeated, overflowed := BookedAnswers(run, f, flows, r);
  }

  lemma BookedAnswers(run: Run, f: Frame, flows: Flows, r: Delivery)
      returns (out: seq<Frame>, repeated: seq<Frame>, overflowed: seq<Frame>)
    requires forall k :: !InFlow(f, k) ==> FlowAt(flows, k) == FlowAt(run.flows, k)
    requires if IsFlow(f.kind)
             then Moves(FlowAt(run.flows, f.key), FlowAt(flows, f.key), f.key, f, Out(r), if r.Err? then [f] else [])
             else r == Ok([f])
    ensures Answers(run, Booked(run, f, flows, r), f, out, repeated, overflowed)
  {
    out := Out(r);
    repeated := if r.Err? && r.error != BufferOverflow then [f] else [];
    overflowed := if r == Err(BufferOverflow) then [f] else [];
    assert run.repeated + [] == run.repeated && run.overflowed + [] == run.overflowed && run.delivered + [] == run.delivered;
    assert repeated + overflowed == if r.Err? then [f] else [];
  }

  /** A sequence of frames of one flow, or of none, seen from flow `k`. */
  lemma FlowGrows(frames: seq<Frame>, more: seq<Frame>, key: FlowKey, k: FlowKey)
    requires forall i :: 0 <= i < |more| ==> InFlow(more[i], key)
    ensures Flow(frames + more, k) == if k == key then Flow(frames, k) + more else Flow(frames, k)
  {
    FlowAppend(frames, more, k);
    FramesOfOneFlow(more, key, k);
  }

  lemma NoShare(frames: seq<Frame>, more: seq<Frame>, f: Frame, k: FlowKey)
    requires !InFlow(f, k) && forall i :: 0 <= i < |more| ==> more[i] == f
    ensures Flow(frames + more, k) == Flow(frames, k)
    decreases |more|
  {
    if more == [] {
      assert frames + more == frames;
    } else {
      var front := more[..|more| - 1];
      assert frames + more == (frames + front) + [f];
      FlowSnoc(frames + front, f, k);
      NoShare(frames, front, f, k);
    }
  }

  lemma OtherShares(run: Run, run': Run, f: Frame, k: FlowKey, out: seq<Frame>, repeated: seq<Frame>, overflowed: seq<Frame>)
    requires !InFlow(f, k) && Answers(run, run', f, out, repeated, overflowed)
    ensures Flow(run'.delivered, k) == Flow(run.delivered, k)
    ensures Flow(run'.repeated, k) == Flow(run.repeated, k) && Flow(run'.overflowed, k) == Flow(run.overflowed, k)
    ensures FlowAt(run'.flows, k) == FlowAt(run.flows, k)
  {
    NoShare(run.repeated, repeated, f, k);
    NoShare(run.overflowed, overflowed, f, k);
    if IsFlow(f.kind) {
      FlowGrows(run.delivered, out, f.key, k);
    } else {
      NoShare(run.delivered, out, f, k);
    }
  }

  /** A frame of another flow, or of none. */
  lemma OtherFlowKept(run: Run, run': Run, arrivals: seq<Frame>, f: Frame, k: FlowKey,
                      out: seq<Frame>, repeated: seq<Frame>, overflowed: seq<Frame>)
    requires Kept(run, arrivals, k) && !InFlow(f, k) && Answers(run, run', f, out, repeated, overflowed)
    ensures Kept(run', arrivals + [f], k)
  {
    FlowSnoc(arrivals, f, k);
    OtherShares(run, run', f, k, out, repeated, overflowed);
  }

  /** The accounts of a flow and one more frame of it. */
  lemma BalanceStep(arrived: multiset<Frame>, delivered: multiset<Frame>, held: multiset<Frame>, repeated: multiset<Frame>,
                    overflowed: multiset<Frame>, f: Frame,
                    out: multiset<Frame>, held': multiset<Frame>, again: multiset<Frame>, over: multiset<Frame>)
    requires arrived == delivered + held + repeated + overflowed
    requires held + multiset{f} == out + held' + (again + over)
    ensures arrived + multiset{f} == (delivered + out) + held' + (repeated + again) + (overflowed + over)
  {
    calc {
      arrived + multiset{f};
      delivered + repeated + overflowed + (held + multiset{f});
      delivered + repeated + overflowed + (out + held' + (again + over));
    }
  }

  lemma BalanceGrows(arrived: seq<Frame>, delivered: seq<Frame>, held: seq<Frame>, repeated: seq<Frame>, overflowed: seq<Frame>, f: Frame,
                     out: seq<Frame>, held': seq<Frame>, again: seq<Frame>, over: seq<Frame>)
    requires Balanced(arrived, delivered, held, repeated, overflowed)
    requires multiset(held) + multiset{f} == multiset(out) + multiset(held') + multiset(again + over)
    ensures Balanced(arrived + [f], delivered + out, held', repeated + again, overflowed + over)
  {
    BalanceStep(multiset(arrived), multiset(delivered), multiset(held), multiset(repeated), multiset(overflowed), f,
                multiset(out), multiset(held'), multiset(again), multiset(over));
    assert multiset(again + over) == multiset(again) + multiset(over);
  }

  lemma SoundStep(s: FlowState, s': FlowState, k: FlowKey, f: Frame, delivered: seq<Frame>, out: seq<Frame>, refused: seq<Frame>)
    requires Sound(s, delivered, k) && Moves(s, s', k, f, out, refused)
    ensures Sound(s', delivered + out, k) && Continues(out, s.order.expected, k)
  {
  }

  lemma OwnFlowKept(run: Run, run': Run, arrivals: seq<Frame>, f: Frame,
                    out: seq<Frame>, repeated: seq<Frame>, overflowed: seq<Frame>)
    requires IsFlow(f.kind) && Kept(run, arrivals, f.key) && Answers(run, run', f, out, repeated, overflowed)
    ensures Kept(run', arrivals + [f], f.key)
  {
    var k := f.key;
    FlowSnoc(arrivals, f, k);
    FlowGrows(run.delivered, out, k, k);
    FlowGrows(run.repeated, repeated, k, k);
    FlowGrows(run.overflowed, overflowed, k, k);
    OwnStateKept(FlowAt(run.flows, k), FlowAt(run'.flows, k), k, f, Flow(arrivals, k),
                 Flow(run.delivered, k), Flow(run.repeated, k), Flow(run.overflowed, k), out, repeated, overflowed);
  }

  lemma OwnStateKept(s: FlowState, s': FlowState, k: FlowKey, f: Frame, arrived: seq<Frame>,
                     delivered: seq<Frame>, repeated: seq<Frame>, overflowed: seq<Frame>,
                     out: seq<Frame>, again: seq<Frame>, over: seq<Frame>)
    requires Sound(s, delivered, k) && Balanced(arrived, delivered, HeldFrames(s), repeated, overflowed)
    requires Moves(s, s', k, f, out, again + over)
    ensures Sound(s', delivered + out, k)
    ensures Balanced(arrived + [f], delivered + out, HeldFrames(s'), repeated + again, overflowed + over)
  {
    SoundStep(s, s', k, f, delivered, out, again + over);
    BalanceGrows(arrived, delivered, HeldFrames(s), repeated, overflowed, f, out, HeldFrames(s'), again, over);
  }

  lemma {:induction false} EveryFlowKept(arrivals: seq<Frame>, limit: nat)
    ensures forall k :: Kept(After(arrivals, limit), arrivals, k)
  {
    if arrivals != [] {
      var earlier, f := arrivals[..|arrivals| - 1], arrivals[|arrivals| - 1];
      assert arrivals == earlier + [f];
      EveryFlowKept(earlier, limit);
      AfterSnoc(earlier, f, limit);
      var run, run' := After(earlier, limit), After(arrivals, limit);
      assert Kept(run, earlier, f.key);
      var out, repeated, overflowed := OneAnswer(run, f, limit);
      forall k ensures Kept(run', arrivals, k) {
        assert Kept(run, earlier, k);
        if InFlow(f, k) {
          OwnFlowKept(run, run', earlier, f, out, repeated, overflowed);
        } else {
          OtherFlowKept(run, run', earlier, f, k, out, repeated, overflowed);
        }
      }
    }
  }

  /** Whatever arrives, in whatever order and however often: what is handed on of
      each flow is numbered 0, 1, 2, ..., so nothing comes out twice, out of order
      or before its turn; and every frame that arrived was handed on, is held, or
      was refused, once for each time it arrived. */
  lemma EveryArrivalIsAccountedFor(arrivals: seq<Frame>, limit: nat, k: FlowKey)
    ensures var run := After(arrivals, limit);
      && WellNumbered(run.delivered)
      && Balanced(Flow(arrivals, k), Flow(run.delivered, k), HeldFrames(FlowAt(run.flows, k)), Flow(run.repeated, k), Flow(run.overflowed, k))
  {
    EveryFlowKept(arrivals, limit);
    var run := After(arrivals, limit);
    assert Kept(run, arrivals, k);
    forall j, i | 0 <= i < |Flow(run.delivered, j)| ensures Flow(run.delivered, j)[i].seqNo == i {
      assert Kept(run, arrivals, j);
    }
  }

  /** After any arrivals at all, the answer to one more frame of a flow: stale
      below what has been handed on of it, a duplicate if a frame of its number is
      held, too many if as many as allowed are held and neither is so. */
  lemma RefusalIs(arrivals: seq<Frame>, f: Frame, limit: nat)
    requires IsFlow(f.kind)
    ensures var run := After(arrivals, limit);
            var next, held := |Flow(run.delivered, f.key)|, HeldFrames(FlowAt(run.flows, f.key));
            var answer := AcceptFrame(run.flows, f, limit).1;
      && (answer == Err(StaleSeq) <==> f.seqNo < next)
      && (answer == Err(DuplicateSeq) <==> f.seqNo > next && exists i :: 0 <= i < |held| && held[i].seqNo == f.seqNo)
      && (answer == Err(BufferOverflow) <==>
            f.seqNo > next && |held| >= limit && forall i :: 0 <= i < |held| ==> held[i].seqNo != f.seqNo)
      && (answer.Ok? && f.seqNo > next ==> answer.value == [])
  {
    EveryFlowKept(arrivals, limit);
    var run := After(arrivals, limit);
    assert Kept(run, arrivals, f.key);
    RefusalInFlow(FlowAt(run.flows, f.key), Flow(run.delivered, f.key), f, limit);
  }

  lemma RefusalInFlow(s: FlowState, delivered: seq<Frame>, f: Frame, limit: nat)
    requires Sound(s, delivered, f.key)
    ensures var held, answer := HeldFrames(s), AcceptInFlow(s, f, limit).1;
      && (answer == Err(StaleSeq) <==> f.seqNo < |delivered|)
      && (answer == Err(DuplicateSeq) <==> f.seqNo > |delivered| && exists i :: 0 <= i < |held| && held[i].seqNo == f.seqNo)
      && (answer == Err(BufferOverflow) <==>
            f.seqNo > |delivered| && |held| >= limit && forall i :: 0 <= i < |held| ==> held[i].seqNo != f.seqNo)
      && (answer.Ok? && f.seqNo > |delivered| ==> answer.value == [])
  {
    var held, numbers := HeldFrames(s), s.order.held;
    assert forall i :: 0 <= i < |held| ==> numbers[i] in s.buffer && held[i].seqNo == numbers[i];
    assert f.seqNo in numbers <==> exists i :: 0 <= i < |held| && held[i].seqNo == f.seqNo;
  }

  /** A frame of no flow goes through at once and leaves every flow as it was. */
  lemma OthersPass(arrivals: seq<Frame>, f: Frame, limit: nat)
    requires f.kind in {Hello, Heartbeat, RelayNotify, RelayState, Cancel, Credit, CloseStream, Policy}
    ensures After(arrivals + [f], limit) == After(arrivals, limit).(delivered := After(arrivals, limit).delivered + [f])
  {
    AfterSnoc(arrivals, f, limit);
  }

  // What a numbering writer sent

  /** The numbers of one flow's frames among the arrivals. */
  ghost function Arrived(arrivals: seq<Frame>, k: FlowKey): set<nat> {
    set i | 0 <= i < |arrivals| && InFlow(arrivals[i], k) :: arrivals[i].seqNo
  }

  lemma ArrivedSnoc(arrivals: seq<Frame>, f: Frame, k: FlowKey)
    ensures Arrived(arrivals + [f], k) == if InFlow(f, k) then Arrived(arrivals, k) + {f.seqNo} else Arrived(arrivals, k)
  {
    var all := arrivals + [f];
    assert forall i :: 0 <= i < |arrivals| ==> all[i] == arrivals[i];
    assert all[|arrivals|] == f;
  }

  /** Arrived frames with an earlier frame of their flow still missing. */
  ghost function Waiting(arrivals: seq<Frame>, k: FlowKey): set<nat> {
    set n | n in Arrived(arrivals, k) && exists m: nat :: m < n && m !in Arrived(arrivals, k)
  }

  predicate SameFlow(f: Frame, g: Frame) {
    IsFlow(f.kind) && IsFlow(g.kind) && f.key == g.key
  }

  /** Each frame of a flow that arrives was sent in it. It may arrive more than once. */
  ghost predicate FromSent(arrivals: seq<Frame>, sent: seq<Frame>) {
    forall i :: 0 <= i < |arrivals| && IsFlow(arrivals[i].kind) ==> SentInFlow(arrivals[i], Flow(sent, arrivals[i].key))
  }

  predicate SentInFlow(f: Frame, flow: seq<Frame>) {
    f.seqNo < |flow| && flow[f.seqNo] == f
  }

  /** No frame of a flow arrives twice. */
  ghost predicate NoRepeats(arrivals: seq<Frame>) {
    forall i, j :: 0 <= i < j < |arrivals| && SameFlow(arrivals[i], arrivals[j]) ==> arrivals[i].seqNo != arrivals[j].seqNo
  }

  lemma {:induction false} AtMostOnce<T>(s: seq<T>, x: T)
    requires forall i, j :: 0 <= i < j < |s| ==> s[i] != s[j]
    ensures multiset(s)[x] <= 1
  {
    if s != [] {
      AtMostOnce(s[1..], x);
      assert s == [s[0]] + s[1..];
      if s[0] == x {
        assert x !in s[1..];
      }
    }
  }

  lemma {:induction false} AtLeastTwice<T>(s: seq<T>, i: nat, j: nat)
    requires i < j < |s| && s[i] == s[j]
    ensures multiset(s)[s[i]] >= 2
  {
    assert s == s[..i] + [s[i]] + s[i + 1..j] + [s[j]] + s[j + 1..];
  }

  lemma SentIsFromSent(arrivals: seq<Frame>, sent: seq<Frame>)
    requires WellNumbered(sent) && forall f :: f in arrivals && IsFlow(f.kind) ==> f in sent
    ensures FromSent(arrivals, sent)
  {
    forall i | 0 <= i < |arrivals| && IsFlow(arrivals[i].kind)
      ensures SentInFlow(arrivals[i], Flow(sent, arrivals[i].key))
    {
      FlowContents(sent, arrivals[i].key);
    }
  }

  /** A reordered part of what was sent has each of its frames once. */
  lemma SubsetHasNoRepeats(arrivals: seq<Frame>, sent: seq<Frame>)
    requires WellNumbered(sent) && multiset(arrivals) <= multiset(sent)
    ensures FromSent(arrivals, sent) && NoRepeats(arrivals)
  {
    forall f | f in arrivals ensures f in sent {
      assert f in multiset(arrivals);
    }
    SentIsFromSent(arrivals, sent);
    forall i, j | 0 <= i < j < |arrivals| && SameFlow(arrivals[i], arrivals[j])
      ensures arrivals[i].seqNo != arrivals[j].seqNo
    {
      if arrivals[i].seqNo == arrivals[j].seqNo {
        var f := arrivals[i];
        AtLeastTwice(arrivals, i, j);
        FlowMultiset(sent, f.key, f);
        AtMostOnce(Flow(sent, f.key), f);
      }
    }
  }

  /** One flow in the middle of a run: what was handed on is the sent flow up to
      the expected number, and what is held are later frames of it. */
  ghost predicate OnTrack(s: FlowState, delivered: seq<Frame>, flow: seq<Frame>, arrived: set<nat>) {
    && FlowValid(s)
    && s.order.expected <= |flow| && delivered == flow[..s.order.expected]
    && (forall n :: n in s.buffer ==> n < |flow| && s.buffer[n] == flow[n])
    && (forall n: nat :: n < s.order.expected || n in s.order.held ==> n in arrived)
  }

  /** Nothing that arrived was lost, and no more is held than allowed. */
  ghost predicate KeptAll(s: FlowState, arrived: set<nat>, limit: nat) {
    && (forall n :: n in arrived ==> n < s.order.expected || n in s.order.held)
    && |s.order.held| <= limit
  }

  /** What is handed on is the flow's next stretch. */
  lemma DeliversSlice(s: FlowState, delivered: seq<Frame>, flow: seq<Frame>, arrived: set<nat>, f: Frame, limit: nat, seqs: seq<nat>)
    requires OnTrack(s, delivered, flow, arrived)
    requires f.seqNo < |flow| && flow[f.seqNo] == f && f.seqNo == s.order.expected
    requires Accept(s.order, f.seqNo, limit).Deliver? && seqs == Accept(s.order, f.seqNo, limit).seqs
    requires seqs == From(s.order.expected, |seqs|) && seqs != [] && s.order.expected + |seqs| <= |flow|
    requires forall n :: s.order.expected < n < s.order.expected + |seqs| ==> n in s.buffer
    ensures AcceptInFlow(s, f, limit).1 == Ok(flow[s.order.expected..s.order.expected + |seqs|])
  {
    var e := s.order.expected;
    var frames := AcceptInFlow(s, f, limit).1.value;
    forall i | 0 <= i < |seqs| ensures frames[i] == flow[e + i] {
      assert seqs[i] == e + i;
      if i > 0 {
        assert e + i in s.buffer;
      }
    }
    assert frames == flow[e..e + |seqs|];
  }

  /** The numbers a delivery hands on were sent: it ends at a frame that was held. */
  lemma DeliverBounds(s: FlowState, delivered: seq<Frame>, flow: seq<Frame>, arrived: set<nat>, f: Frame, limit: nat)
    requires OnTrack(s, delivered, flow, arrived) && SentInFlow(f, flow) && f.seqNo == s.order.expected
    ensures var (s', r) := AcceptInFlow(s, f, limit);
      && r.Ok? && s.order.expected <= s'.order.expected <= |flow|
      && r.value == flow[s.order.expected..s'.order.expected]
  {
    DeliverKeepsOrder(s.order, f.seqNo, limit);
    var a := Accept(s.order, f.seqNo, limit);
    if a.flow.expected - 1 > s.order.expected {
      assert a.flow.expected - 1 in s.buffer;
    }
    DeliversSlice(s, delivered, flow, arrived, f, limit, a.seqs);
  }

  lemma DeliverStep(s: FlowState, delivered: seq<Frame>, flow: seq<Frame>, arrived: set<nat>, f: Frame, limit: nat)
    requires OnTrack(s, delivered, flow, arrived) && SentInFlow(f, flow) && f.seqNo == s.order.expected
    ensures var (s', r) := AcceptInFlow(s, f, limit);
      && r.Ok? && s.order.expected <= s'.order.expected <= |flow|
      && r.value == flow[s.order.expected..s'.order.expected]
      && OnTrack(s', delivered + r.value, flow, arrived + {f.seqNo})
      && (KeptAll(s, arrived, limit) ==> KeptAll(s', arrived + {f.seqNo}, limit))
  {
    AcceptInFlowValid(s, f, limit);
    DeliverKeepsOrder(s.order, f.seqNo, limit);
    DeliverBounds(s, delivered, flow, arrived, f, limit);
    var (s', r) := AcceptInFlow(s, f, limit);
    assert delivered + r.value == flow[..s'.order.expected];
  }

  lemma OutOfTurnStep(s: FlowState, delivered: seq<Frame>, flow: seq<Frame>, arrived: set<nat>, f: Frame, limit: nat)
    requires OnTrack(s, delivered, flow, arrived) && SentInFlow(f, flow) && f.seqNo != s.order.expected
    ensures var (s', r) := AcceptInFlow(s, f, limit);
      && (r.Ok? ==> r.value == [])
      && OnTrack(s', delivered, flow, arrived + {f.seqNo})
      && (KeptAll(s, arrived, limit) && r != Err(BufferOverflow) ==> KeptAll(s', arrived + {f.seqNo}, limit))
      && (r == Err(BufferOverflow) ==> f.seqNo > s.order.expected && f.seqNo !in s.order.held && |s.order.held| >= limit)
      && (r.Err? && r != Err(BufferOverflow) ==> f.seqNo in arrived)
  {
    AcceptInFlowValid(s, f, limit);
    if Accept(s.order, f.seqNo, limit).Hold? {
      HoldKeepsOrder(s.order, f.seqNo, limit);
    }
  }

  /** One more frame of a flow that is on track: it is handed on with everything it
      releases, or held; refused as repeated only if it had arrived before, and for
      want of room only if it had not. */
  lemma FlowStep(s: FlowState, delivered: seq<Frame>, flow: seq<Frame>, arrived: set<nat>, f: Frame, limit: nat)
    requires OnTrack(s, delivered, flow, arrived) && SentInFlow(f, flow)
    ensures var (s', r) := AcceptInFlow(s, f, limit);
      && OnTrack(s', delivered + (if r.Ok? then r.value else []), flow, arrived + {f.seqNo})
      && (r.Ok? ==> forall g :: g in r.value ==> g in flow)
      && (KeptAll(s, arrived, limit) && r != Err(BufferOverflow) ==> KeptAll(s', arrived + {f.seqNo}, limit))
      && (r == Err(BufferOverflow) ==> f.seqNo > s.order.expected && f.seqNo !in s.order.held && |s.order.held| >= limit)
      && (r.Err? && r != Err(BufferOverflow) ==> f.seqNo in arrived)
  {
    if f.seqNo == s.order.expected {
      DeliverStep(s, delivered, flow, arrived, f, limit);
    } else {
      OutOfTurnStep(s, delivered, flow, arrived, f, limit);
      assert delivered + [] == delivered;
    }
  }

  ghost predicate OnTrackIn(run: Run, arrivals: seq<Frame>, sent: seq<Frame>, k: FlowKey) {
    OnTrack(FlowAt(run.flows, k), Flow(run.delivered, k), Flow(sent, k), Arrived(arrivals, k))
  }

  ghost predicate KeptAllIn(run: Run, arrivals: seq<Frame>, limit: nat, k: FlowKey) {
    KeptAll(FlowAt(run.flows, k), Arrived(arrivals, k), limit)
  }

  /** One more arrival, seen from the flow it is of. */
  lemma OwnFlowAfterOne(run: Run, earlier: seq<Frame>, f: Frame, sent: seq<Frame>, limit: nat)
    requires FlowsValid(run.flows) && IsFlow(f.kind) && SentInFlow(f, Flow(sent, f.key)) && OnTrackIn(run, earlier, sent, f.key)
    ensures var run' := AfterOne(run, f, limit); var s := FlowAt(run.flows, f.key);
      && OnTrackIn(run', earlier + [f], sent, f.key)
      && (run'.overflowed == run.overflowed && KeptAllIn(run, earlier, limit, f.key) ==> KeptAllIn(run', earlier + [f], limit, f.key))
      && (run'.overflowed != run.overflowed ==>
            f.seqNo > s.order.expected && f.seqNo !in s.order.held && |s.order.held| >= limit)
      && (run'.repeated != run.repeated ==> f.seqNo in Arrived(earlier, f.key))
  {
    var k := f.key;
    ArrivedSnoc(earlier, f, k);
    FlowStep(FlowAt(run.flows, k), Flow(run.delivered, k), Flow(sent, k), Arrived(earlier, k), f, limit);
    var (_, r) := AcceptFrame(run.flows, f, limit);
    if r.Ok? {
      FlowContents(sent, k);
      FramesOfOneFlow(r.value, k, k);
      FlowAppend(run.delivered, r.value, k);
    } else {
      assert Flow(run.delivered, k) + [] == Flow(run.delivered, k);
    }
  }

  /** One more arrival, seen from any other flow. */
  lemma OtherFlowAfterOne(run: Run, earlier: seq<Frame>, f: Frame, sent: seq<Frame>, limit: nat, k: FlowKey)
    requires FlowsValid(run.flows) && !InFlow(f, k) && OnTrackIn(run, earlier, sent, k)
    requires IsFlow(f.kind) ==> SentInFlow(f, Flow(sent, f.key)) && OnTrackIn(run, earlier, sent, f.key)
    ensures var run' := AfterOne(run, f, limit);
      && OnTrackIn(run', earlier + [f], sent, k)
      && (KeptAllIn(run, earlier, limit, k) ==> KeptAllIn(run', earlier + [f], limit, k))
  {
    ArrivedSnoc(earlier, f, k);
    AcceptFrameValid(run.flows, f, limit);
    var (_, r) := AcceptFrame(run.flows, f, limit);
    if IsFlow(f.kind) {
      FlowStep(FlowAt(run.flows, f.key), Flow(run.delivered, f.key), Flow(sent, f.key), Arrived(earlier, f.key), f, limit);
      if r.Ok? {
        FlowContents(sent, f.key);
        FramesOfOneFlow(r.value, f.key, k);
        FlowAppend(run.delivered, r.value, k);
      }
    } else {
      FlowSnoc(run.delivered, f, k);
    }
  }

  lemma {:induction false} EveryFlowOnTrack(arrivals: seq<Frame>, sent: seq<Frame>, limit: nat)
    requires FromSent(arrivals, sent)
    ensures forall k :: OnTrackIn(After(arrivals, limit), arrivals, sent, k)
  {
    if arrivals == [] {
      forall k ensures OnTrackIn(After([], limit), [], sent, k) {
        assert Flow(sent, k)[..0] == [];
      }
    } else {
      var earlier, f := arrivals[..|arrivals| - 1], arrivals[|arrivals| - 1];
      assert arrivals == earlier + [f];
      EveryFlowOnTrack(earlier, sent, limit);
      AfterSnoc(earlier, f, limit);
      assert OnTrackIn(After(earlier, limit), earlier, sent, f.key);
      forall k ensures OnTrackIn(After(arrivals, limit), arrivals, sent, k) {
        assert OnTrackIn(After(earlier, limit), earlier, sent, k);
        if InFlow(f, k) {
          OwnFlowAfterOne(After(earlier, limit), earlier, f, sent, limit);
        } else {
          OtherFlowAfterOne(After(earlier, limit), earlier, f, sent, limit, k);
        }
      }
    }
  }

  /** Whatever order the frames arrive in, however often, and even if some are
      refused or never arrive: what a buffer hands on of each flow is a prefix of
      what was sent in it. */
  lemma DeliveredIsPrefixOfSent(frames: seq<Frame>, arrivals: seq<Frame>, limit: nat, k: FlowKey)
    requires forall f :: f in arrivals && IsFlow(f.kind) ==> f in AssignAll(frames).1
    ensures Flow(After(arrivals, limit).delivered, k) <= Flow(AssignAll(frames).1, k)
  {
    var sent := AssignAll(frames).1;
    AssignNumbersEveryFlow(frames);
    SentIsFromSent(arrivals, sent);
    EveryFlowOnTrack(arrivals, sent, limit);
    assert OnTrackIn(After(arrivals, limit), arrivals, sent, k);
  }

  lemma OverflowedGrows(run: Run, f: Frame, limit: nat)
    requires FlowsValid(run.flows)
    ensures run.overflowed <= AfterOne(run, f, limit).overflowed
  {
  }

  lemma {:induction false} NothingOverflowedKeepsAll(arrivals: seq<Frame>, sent: seq<Frame>, limit: nat)
    requires FromSent(arrivals, sent) && After(arrivals, limit).overflowed == []
    ensures forall k :: KeptAllIn(After(arrivals, limit), arrivals, limit, k)
  {
    if arrivals != [] {
      var earlier, f := arrivals[..|arrivals| - 1], arrivals[|arrivals| - 1];
      assert arrivals == earlier + [f];
      AfterSnoc(earlier, f, limit);
      OverflowedGrows(After(earlier, limit), f, limit);
      NothingOverflowedKeepsAll(earlier, sent, limit);
      EveryFlowOnTrack(earlier, sent, limit);
      assert OnTrackIn(After(earlier, limit), earlier, sent, f.key);
      forall k ensures KeptAllIn(After(arrivals, limit), arrivals, limit, k) {
        assert OnTrackIn(After(earlier, limit), earlier, sent, k) && KeptAllIn(After(earlier, limit), earlier, limit, k);
        if InFlow(f, k) {
          OwnFlowAfterOne(After(earlier, limit), earlier, f, sent, limit);
        } else {
          OtherFlowAfterOne(After(earlier, limit), earlier, f, sent, limit, k);
        }
      }
    }
  }

  /** Once everything has arrived, in any order and however often, and nothing was
      refused for want of room, the writer, the channel and the buffer together are
      the identity on every flow. */
  lemma ReorderingUndone(frames: seq<Frame>, arrivals: seq<Frame>, limit: nat, k: FlowKey)
    requires forall f: Frame :: IsFlow(f.kind) ==> (f in arrivals <==> f in AssignAll(frames).1)
    requires After(arrivals, limit).overflowed == []
    ensures Flow(After(arrivals, limit).delivered, k) == Flow(AssignAll(frames).1, k)
    ensures FlowAt(After(arrivals, limit).flows, k).buffer == map[]
  {
    var sent := AssignAll(frames).1;
    AssignNumbersEveryFlow(frames);
    SentIsFromSent(arrivals, sent);
    EveryFlowOnTrack(arrivals, sent, limit);
    NothingOverflowedKeepsAll(arrivals, sent, limit);
    AllArrived(arrivals, sent, k);
    var run := After(arrivals, limit);
    assert OnTrackIn(run, arrivals, sent, k) && KeptAllIn(run, arrivals, limit, k);
    FlowComplete(FlowAt(run.flows, k), Flow(run.delivered, k), Flow(sent, k), Arrived(arrivals, k), limit);
  }

  lemma FlowComplete(s: FlowState, delivered: seq<Frame>, flow: seq<Frame>, arrived: set<nat>, limit: nat)
    requires OnTrack(s, delivered, flow, arrived) && KeptAll(s, arrived, limit)
    requires forall n: nat :: n < |flow| ==> n in arrived
    ensures delivered == flow && s.buffer == map[]
  {
    assert s.order.expected < |flow| ==> s.order.expected in arrived;
    assert forall n :: n !in s.buffer;
  }

  lemma AllArrived(arrivals: seq<Frame>, sent: seq<Frame>, k: FlowKey)
    requires WellNumbered(sent) && forall f :: f in sent && IsFlow(f.kind) ==> f in arrivals
    ensures forall n: nat :: n < |Flow(sent, k)| ==> n in Arrived(arrivals, k)
  {
    forall n: nat | n < |Flow(sent, k)| ensures n in Arrived(arrivals, k) {
      var f := Flow(sent, k)[n];
      FlowContents(sent, k);
      assert f in Flow(sent, k);
      var i :| 0 <= i < |arrivals| && arrivals[i] == f;
    }
  }

  lemma WaitingIsHeld(s: FlowState, arrivals: seq<Frame>, k: FlowKey, delivered: seq<Frame>, flow: seq<Frame>, limit: nat)
    requires OnTrack(s, delivered, flow, Arrived(arrivals, k)) && KeptAll(s, Arrived(arrivals, k), limit)
    ensures Waiting(arrivals, k) == Members(s.order.held)
    ensures |Waiting(arrivals, k)| == |s.order.held|
  {
    assert s.order.expected !in Arrived(arrivals, k);
    assert Waiting(arrivals, k) == Members(s.order.held);
    DistinctSize(s.order.held);
  }

  ghost function Members(s: seq<nat>): (m: set<nat>)
    ensures forall n :: n in m <==> n in s
  {
    if s == [] then {} else Members(s[1..]) + {s[0]}
  }

  lemma AscendingTail(s: seq<nat>)
    requires Ascending(s) && s != []
    ensures Ascending(s[1..]) && s[0] !in Members(s[1..])
  {
    assert forall i :: 0 <= i < |s| - 1 ==> s[1..][i] == s[i + 1];
  }

  lemma {:induction false} DistinctSize(s: seq<nat>)
    requires Ascending(s)
    ensures |Members(s)| == |s|
  {
    if s != [] {
      AscendingTail(s);
      DistinctSize(s[1..]);
    }
  }

  // What is refused

  /** Without an overflow so far, a frame is refused as repeated exactly when it
      has arrived before. */
  lemma RepeatedIff(frames: seq<Frame>, arrivals: seq<Frame>, f: Frame, limit: nat)
    requires forall g :: g in arrivals + [f] && IsFlow(g.kind) ==> g in AssignAll(frames).1
    requires IsFlow(f.kind) && After(arrivals, limit).overflowed == []
    ensures After(arrivals + [f], limit).repeated == After(arrivals, limit).repeated + if f in arrivals then [f] else []
  {
    var sent := AssignAll(frames).1;
    AssignNumbersEveryFlow(frames);
    SentIsFromSent(arrivals, sent);
    SentIsFromSent([f], sent);
    EveryFlowOnTrack(arrivals, sent, limit);
    NothingOverflowedKeepsAll(arrivals, sent, limit);
    AfterSnoc(arrivals, f, limit);
    var run := After(arrivals, limit);
    assert OnTrackIn(run, arrivals, sent, f.key) && KeptAllIn(run, arrivals, limit, f.key);
    assert SentInFlow([f][0], Flow(sent, f.key));
    RepeatedInFlowIff(FlowAt(run.flows, f.key), Flow(run.delivered, f.key), Flow(sent, f.key), Arrived(arrivals, f.key), f, limit);
    ArrivedIff(arrivals, sent, f);
  }

  /** In one flow: a number that has arrived is expected no more, or is held. */
  lemma RepeatedInFlowIff(s: FlowState, delivered: seq<Frame>, flow: seq<Frame>, arrived: set<nat>, f: Frame, limit: nat)
    requires OnTrack(s, delivered, flow, arrived) && KeptAll(s, arrived, limit)
    ensures var r := AcceptInFlow(s, f, limit).1; r.Err? && r.error != BufferOverflow <==> f.seqNo in arrived
  {
    assert f.seqNo in arrived <==> f.seqNo < s.order.expected || f.seqNo in s.order.held;
  }

  lemma ArrivedIff(arrivals: seq<Frame>, sent: seq<Frame>, f: Frame)
    requires FromSent(arrivals, sent) && IsFlow(f.kind) && SentInFlow(f, Flow(sent, f.key))
    ensures f.seqNo in Arrived(arrivals, f.key) <==> f in arrivals
  {
    if f.seqNo in Arrived(arrivals, f.key) {
      var i :| 0 <= i < |arrivals| && InFlow(arrivals[i], f.key) && arrivals[i].seqNo == f.seqNo;
      assert SentInFlow(arrivals[i], Flow(sent, f.key));
      assert arrivals[i] == f;
    }
  }

  lemma {:induction false} NothingRepeated(arrivals: seq<Frame>, sent: seq<Frame>, limit: nat)
    requires FromSent(arrivals, sent) && NoRepeats(arrivals)
    ensures After(arrivals, limit).repeated == []
  {
    if arrivals != [] {
      var earlier, f := arrivals[..|arrivals| - 1], arrivals[|arrivals| - 1];
      assert arrivals == earlier + [f];
      AfterSnoc(earlier, f, limit);
      NothingRepeated(earlier, sent, limit);
      EveryFlowOnTrack(earlier, sent, limit);
      if IsFlow(f.kind) {
        assert SentInFlow(arrivals[|earlier|], Flow(sent, f.key));
        assert OnTrackIn(After(earlier, limit), earlier, sent, f.key);
        OwnFlowAfterOne(After(earlier, limit), earlier, f, sent, limit);
      }
    }
  }

  /** Exactly when a buffer refuses none of the frames of a numbering writer for
      want of room: when no arrival leaves more frames of a flow waiting for an
      earlier one than the buffer may hold. */
  lemma NothingOverflowsIff(frames: seq<Frame>, arrivals: seq<Frame>, limit: nat)
    requires forall f :: f in arrivals && IsFlow(f.kind) ==> f in AssignAll(frames).1
    ensures After(arrivals, limit).overflowed == [] <==> FewWait(arrivals, limit)
  {
    AssignNumbersEveryFlow(frames);
    SentIsFromSent(arrivals, AssignAll(frames).1);
    OverflowsIff(arrivals, AssignAll(frames).1, limit);
  }

  /** The same for a channel that repeats nothing, where it is all that is refused. */
  lemma NothingRefusedIff(frames: seq<Frame>, arrivals: seq<Frame>, limit: nat)
    requires multiset(arrivals) <= multiset(AssignAll(frames).1)
    ensures After(arrivals, limit).repeated == []
    ensures After(arrivals, limit).overflowed == [] <==> FewWait(arrivals, limit)
  {
    AssignNumbersEveryFlow(frames);
    SubsetHasNoRepeats(arrivals, AssignAll(frames).1);
    NothingRepeated(arrivals, AssignAll(frames).1, limit);
    OverflowsIff(arrivals, AssignAll(frames).1, limit);
  }

  /** At no time more of a flow's frames wait for an earlier one than `limit`. */
  ghost predicate FewWait(arrivals: seq<Frame>, limit: nat) {
    forall i, k :: 0 <= i <= |arrivals| ==> |Waiting(arrivals[..i], k)| <= limit
  }

  lemma FewWaitSnoc(earlier: seq<Frame>, f: Frame, limit: nat)
    ensures FewWait(earlier + [f], limit) <==> FewWait(earlier, limit) && forall k :: |Waiting(earlier + [f], k)| <= limit
  {
    var arrivals := earlier + [f];
    assert arrivals[..|arrivals|] == arrivals;
    assert forall i :: 0 <= i <= |earlier| ==> arrivals[..i] == earlier[..i];
    if FewWait(arrivals, limit) {
      forall i, k | 0 <= i <= |earlier| ensures |Waiting(earlier[..i], k)| <= limit {
        assert |Waiting(arrivals[..i], k)| <= limit;
      }
      forall k ensures |Waiting(arrivals, k)| <= limit {
        assert |Waiting(arrivals[..|arrivals|], k)| <= limit;
      }
    }
  }

  lemma {:induction false} OverflowsIff(arrivals: seq<Frame>, sent: seq<Frame>, limit: nat)
    requires FromSent(arrivals, sent)
    ensures After(arrivals, limit).overflowed == [] <==> FewWait(arrivals, limit)
  {
    if arrivals == [] {
      assert forall k :: Waiting([], k) == {};
    } else {
      var earlier, f := arrivals[..|arrivals| - 1], arrivals[|arrivals| - 1];
      assert arrivals == earlier + [f];
      OverflowsIff(earlier, sent, limit);
      FewWaitSnoc(earlier, f, limit);
      AfterSnoc(earlier, f, limit);
      OverflowedGrows(After(earlier, limit), f, limit);
      if After(arrivals, limit).overflowed == [] {
        FewWaiting(arrivals, sent, limit);
      } else if After(earlier, limit).overflowed == [] {
        OverflowHasMany(earlier, f, sent, limit);
      }
    }
  }

  lemma FewWaiting(arrivals: seq<Frame>, sent: seq<Frame>, limit: nat)
    requires FromSent(arrivals, sent) && After(arrivals, limit).overflowed == []
    ensures forall k :: |Waiting(arrivals, k)| <= limit
  {
    EveryFlowOnTrack(arrivals, sent, limit);
    NothingOverflowedKeepsAll(arrivals, sent, limit);
    forall k ensures |Waiting(arrivals, k)| <= limit {
      var run := After(arrivals, limit);
      assert OnTrackIn(run, arrivals, sent, k) && KeptAllIn(run, arrivals, limit, k);
      WaitingIsHeld(FlowAt(run.flows, k), arrivals, k, Flow(run.delivered, k), Flow(sent, k), limit);
    }
  }

  lemma OverflowHasMany(earlier: seq<Frame>, f: Frame, sent: seq<Frame>, limit: nat)
    requires FromSent(earlier + [f], sent)
    requires After(earlier, limit).overflowed == [] && AfterOne(After(earlier, limit), f, limit).overflowed != []
    ensures |Waiting(earlier + [f], f.key)| > limit
  {
    var k, run := f.key, After(earlier, limit);
    forall i | 0 <= i < |earlier| && IsFlow(earlier[i].kind) ensures SentInFlow(earlier[i], Flow(sent, earlier[i].key)) {
      assert (earlier + [f])[i] == earlier[i];
    }
    assert IsFlow(f.kind) && SentInFlow((earlier + [f])[|earlier|], Flow(sent, k));
    EveryFlowOnTrack(earlier, sent, limit);
    NothingOverflowedKeepsAll(earlier, sent, limit);
    assert OnTrackIn(run, earlier, sent, k) && KeptAllIn(run, earlier, limit, k);
    OwnFlowAfterOne(run, earlier, f, sent, limit);
    var s := FlowAt(run.flows, k);
    WaitingIsHeld(s, earlier, k, Flow(run.delivered, k), Flow(sent, k), limit);
    assert s.order.expected !in Arrived(earlier, k) && f.seqNo !in Arrived(earlier, k);
    OneMoreWaiting(earlier, f, s.order.expected);
  }

  /** A new frame of a flow in which an earlier number is missing is one more to wait. */
  lemma OneMoreWaiting(earlier: seq<Frame>, f: Frame, missing: nat)
    requires IsFlow(f.kind) && f.seqNo !in Arrived(earlier, f.key)
    requires missing < f.seqNo && missing !in Arrived(earlier, f.key)
    ensures |Waiting(earlier + [f], f.key)| > |Waiting(earlier, f.key)|
  {
    var k := f.key;
    ArrivedSnoc(earlier, f, k);
    assert missing !in Arrived(earlier + [f], k);
    var more := Waiting(earlier, k) + {f.seqNo};
    forall n | n in more ensures n in Waiting(earlier + [f], k) {
      if n != f.seqNo {
        var m: nat :| m < n && m !in Arrived(earlier, k);
        var gap := if m == f.seqNo then missing else m;
        assert gap < n && gap !in Arrived(earlier + [f], k);
      }
    }
    SubsetSize(more, Waiting(earlier + [f], k));
  }
}
