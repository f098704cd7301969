/**
 Frame ordering: the numbers a writer assigns to each flow's frames, and the
 buffer at a relay boundary that puts them back in that order.
 */
module Ordering {
  import opened Common
  import opened Frames

  // Numbering

  type Counters = map<FlowKey, nat>

  function NextSeq(counters: Counters, k: FlowKey): nat {
    if k in counters then counters[k] else 0
  }

  function Numbered(counters: Counters, f: Frame): Frame {
    if IsFlow(f.kind) then f.(seqNo := NextSeq(counters, f.key)) else f
  }

  function Counted(counters: Counters, f: Frame): Counters {
    if IsFlow(f.kind) then counters[f.key := NextSeq(counters, f.key) + 1] else counters
  }

  class SeqAssigner {
    var counters: Counters

    constructor ()
      ensures counters == map[]
    {
      counters := map[];
    }

    method Assign(f: Frame) returns (numbered: Frame)
      modifies this
      ensures numbered == Numbered(old(counters), f)
      ensures counters == Counted(old(counters), f)
    {
      if !IsFlow(f.kind) {
        return f;
      }
      var counter := if f.key in counters then counters[f.key] else 0;
      numbered := f.(seqNo := counter);
      counters := counters[f.key := counter + 1];
    }

    method Remove(k: FlowKey)
      modifies this
      ensures counters == old(counters) - {k}
    {
      counters := counters - {k};
    }
  }

  /** What a writer puts out for the frames handed to it. */
  function AssignAll(frames: seq<Frame>): (Counters, seq<Frame>) {
    if frames == [] then (map[], [])
    else
      var (counters, out) := AssignAll(frames[..|frames| - 1]);
      var f := frames[|frames| - 1];
      (Counted(counters, f), out + [Numbered(counters, f)])
  }

  /** Every flow of the frames carries 0, 1, 2, ... without a gap. */
  ghost predicate WellNumbered(frames: seq<Frame>) {
    forall k, i :: 0 <= i < |Flow(frames, k)| ==> Flow(frames, k)[i].seqNo == i
  }

  lemma {:induction false} AssignNumbersEveryFlow(frames: seq<Frame>)
    ensures WellNumbered(AssignAll(frames).1)
    ensures forall k :: NextSeq(AssignAll(frames).0, k) == |Flow(AssignAll(frames).1, k)|
    ensures |AssignAll(frames).1| == |frames|
    ensures forall i :: 0 <= i < |frames| ==>
      AssignAll(frames).1[i] == frames[i].(seqNo := AssignAll(frames).1[i].seqNo)
  {
    if frames != [] {
      var (counters, out) := AssignAll(frames[..|frames| - 1]);
      var f := frames[|frames| - 1];
      AssignNumbersEveryFlow(frames[..|frames| - 1]);
      assert (out + [Numbered(counters, f)])[..|out|] == out;
    }
  }

  // Reordering

  /** One flow's order: the number expected next, and the numbers held, each
      larger than the one before. */
  datatype Reorder = Reorder(expected: nat, held: seq<nat>)

  datatype Accepted =
    | Deliver(flow: Reorder, seqs: seq<nat>)
    | Hold(flow: Reorder)
    | Stale
    | Duplicate
    | Overflow

  predicate Ascending(s: seq<nat>) {
    forall i, j :: 0 <= i < j < |s| ==> s[i] < s[j]
  }

  predicate Ordered(r: Reorder) {
    Ascending(r.held) && forall i :: 0 <= i < |r.held| ==> r.expected < r.held[i]
  }

  function Start(): Reorder {
    Reorder(0, [])
  }

  /** How many of the held numbers follow on from `from` without a gap. */
  function RunLength(from: nat, held: seq<nat>): (n: nat)
    ensures n <= |held|
    ensures forall i :: 0 <= i < n ==> held[i] == from + i
    ensures n < |held| ==> held[n] != from + n
    decreases |held|
  {
    if held != [] && held[0] == from then 1 + RunLength(from + 1, held[1..]) else 0
  }

  /** Where a number belongs among ascending ones. */
  function Position(held: seq<nat>, n: nat): (p: nat)
    requires Ascending(held)
    ensures p <= |held|
    ensures forall i :: 0 <= i < p ==> held[i] < n
    ensures forall i :: p <= i < |held| ==> held[i] >= n
  {
    if held == [] || held[|held| - 1] < n then |held| else Position(held[..|held| - 1], n)
  }

  function From(start: nat, count: nat): seq<nat> {
    seq(count, i requires 0 <= i => start + i)
  }

  function Accept(r: Reorder, seqNo: nat, limit: nat): Accepted
    requires Ordered(r)
  {
    if seqNo < r.expected then Stale
    else if seqNo == r.expected then
      var n := RunLength(seqNo + 1, r.held);
      Deliver(Reorder(seqNo + 1 + n, r.held[n..]), From(seqNo, n + 1))
    else if seqNo in r.held then Duplicate
    else if |r.held| >= limit then Overflow
    else
      var p := Position(r.held, seqNo);
      Hold(Reorder(r.expected, r.held[..p] + [seqNo] + r.held[p..]))
  }

  lemma {:induction false} RunSplits(from: nat, held: seq<nat>)
    requires Ascending(held) && forall i :: 0 <= i < |held| ==> from <= held[i]
    ensures forall n :: from <= n < from + RunLength(from, held) ==> n in held
    ensures forall n :: n in held[RunLength(from, held)..] ==> n in held && from + RunLength(from, held) < n
    ensures forall n :: n in held && n >= from + RunLength(from, held) ==> n in held[RunLength(from, held)..]
    decreases |held|
  {
    if held != [] && held[0] == from {
      RunSplits(from + 1, held[1..]);
      assert held == [held[0]] + held[1..];
      assert held[1..][RunLength(from + 1, held[1..])..] == held[RunLength(from, held)..];
    }
  }

  lemma FromContains(start: nat, count: nat)
    ensures forall n :: n in From(start, count) <==> start <= n < start + count
  {
    forall n | start <= n < start + count ensures n in From(start, count) {
      assert From(start, count)[n - start] == n;
    }
  }

  lemma DropOrdered(r: Reorder, k: nat)
    requires Ordered(r) && k <= |r.held|
    requires forall n :: n in r.held[k..] ==> r.expected + 1 + k < n
    ensures Ordered(Reorder(r.expected + 1 + k, r.held[k..]))
  {
    var held := r.held[k..];
    forall i | 0 <= i < |held| ensures r.expected + 1 + k < held[i] {
      assert held[i] in held;
    }
    assert forall i, j :: 0 <= i < j < |held| ==> held[i] == r.held[i + k] && held[j] == r.held[j + k];
  }

  lemma DeliverKeepsOrder(r: Reorder, seqNo: nat, limit: nat)
    requires Ordered(r) && seqNo == r.expected
    ensures var a := Accept(r, seqNo, limit);
      && a.Deliver? && Ordered(a.flow) && a.seqs == From(seqNo, |a.seqs|) && a.seqs != []
      && |a.flow.held| <= |r.held|
      && a.flow.expected == seqNo + |a.seqs|
      && (forall n :: n in a.seqs <==> seqNo <= n < a.flow.expected)
      && (forall n :: n in a.flow.held <==> n in r.held && n >= a.flow.expected)
      && (forall n :: seqNo < n < a.flow.expected ==> n in r.held)
  {
    var k := RunLength(seqNo + 1, r.held);
    RunSplits(seqNo + 1, r.held);
    DropOrdered(r, k);
    FromContains(seqNo, k + 1);
  }

  lemma InsertAscending(held: seq<nat>, p: nat, n: nat)
    requires Ascending(held) && p <= |held|
    requires (forall i :: 0 <= i < p ==> held[i] < n) && (forall i :: p <= i < |held| ==> held[i] > n)
    ensures Ascending(held[..p] + [n] + held[p..])
    ensures forall m :: m in held[..p] + [n] + held[p..] <==> m in held || m == n
  {
    var all := held[..p] + [n] + held[p..];
    forall i, j | 0 <= i < j < |all| ensures all[i] < all[j] {
      assert all[i] == if i < p then held[i] else if i == p then n else held[i - 1];
      assert all[j] == if j < p then held[j] else if j == p then n else held[j - 1];
    }
    assert held == held[..p] + held[p..];
  }

  lemma HoldKeepsOrder(r: Reorder, seqNo: nat, limit: nat)
    requires Ordered(r) && Accept(r, seqNo, limit).Hold?
    ensures var a := Accept(r, seqNo, limit);
      && Ordered(a.flow) && a.flow.expected == r.expected < seqNo && seqNo !in r.held
      && |a.flow.held| == |r.held| + 1 <= limit
      && (forall n :: n in a.flow.held <==> n in r.held || n == seqNo)
  {
    var p := Position(r.held, seqNo);
    InsertAscending(r.held, p, seqNo);
    var held := Accept(r, seqNo, limit).flow.held;
    forall i | 0 <= i < |held| ensures r.expected < held[i] {
      assert held[i] in held;
    }
  }

  /** One flow of the buffer: the order, and the held frames by number. */
  datatype FlowState = FlowState(order: Reorder, buffer: map<nat, Frame>)

  ghost predicate FlowValid(s: FlowState) {
    && Ordered(s.order)
    && (forall n :: n in s.buffer <==> n in s.order.held)
  }

  type Flows = map<FlowKey, FlowState>

  ghost predicate FlowsValid(flows: Flows) {
    forall k :: k in flows ==> FlowValid(flows[k])
  }

  function FlowAt(flows: Flows, k: FlowKey): FlowState {
    if k in flows then flows[k] else FlowState(Start(), map[])
  }

  /** The answers that are protocol errors. */
  datatype Refusal = StaleSeq | DuplicateSeq | BufferOverflow

  type Delivery = Result<seq<Frame>, Refusal>

  function FramesAt(held: map<nat, Frame>, seqs: seq<nat>): (frames: seq<Frame>)
    requires forall i :: 0 <= i < |seqs| ==> seqs[i] in held
    ensures |frames| == |seqs|
    ensures forall i :: 0 <= i < |seqs| ==> frames[i] == held[seqs[i]]
  {
    seq(|seqs|, i requires 0 <= i < |seqs| => held[seqs[i]])
  }

  /** What one flow does with a frame: its new state and what it hands on. */
  function AcceptInFlow(s: FlowState, f: Frame, limit: nat): (FlowState, Delivery)
    requires FlowValid(s)
  {
    match Accept(s.order, f.seqNo, limit)
    case Deliver(order, seqs) =>
      DeliverKeepsOrder(s.order, f.seqNo, limit);
      var held := s.buffer[f.seqNo := f];
      (FlowState(order, held - (set n | n in seqs)), Ok(FramesAt(held, seqs)))
    case Hold(order) => (FlowState(order, s.buffer[f.seqNo := f]), Ok([]))
    case Stale => (s, Err(StaleSeq))
    case Duplicate => (s, Err(DuplicateSeq))
    case Overflow => (s, Err(BufferOverflow))
  }

  lemma AcceptInFlowValid(s: FlowState, f: Frame, limit: nat)
    requires FlowValid(s)
    ensures FlowValid(AcceptInFlow(s, f, limit).0)
    ensures AcceptInFlow(s, f, limit).1.Err? ==> AcceptInFlow(s, f, limit).0 == s
  {
    var a := Accept(s.order, f.seqNo, limit);
    if a.Deliver? {
      DeliverKeepsOrder(s.order, f.seqNo, limit);
    } else if a.Hold? {
      HoldKeepsOrder(s.order, f.seqNo, limit);
    }
  }

  function AcceptFrame(flows: Flows, f: Frame, limit: nat): (Flows, Delivery)
    requires FlowsValid(flows)
  {
    if !IsFlow(f.kind) then (flows, Ok([f]))
    else
      var (s, delivery) := AcceptInFlow(FlowAt(flows, f.key), f, limit);
      (flows[f.key := s], delivery)
  }

  /** Every answer leaves every flow valid; a refusal changes no flow, and any
      answer only the frame's own. */
  lemma AcceptFrameValid(flows: Flows, f: Frame, limit: nat)
    requires FlowsValid(flows)
    ensures var (flows', delivery) := AcceptFrame(flows, f, limit);
            && FlowsValid(flows')
            && (forall k :: delivery.Err? || !InFlow(f, k) ==> FlowAt(flows', k) == FlowAt(flows, k))
  {
    if IsFlow(f.kind) {
      AcceptInFlowValid(FlowAt(flows, f.key), f, limit);
    }
  }

  /** Takes the frames with these numbers out of a buffer, in order. */
  method PopAll(held: map<nat, Frame>, seqs: seq<nat>) returns (ready: seq<Frame>, buffer: map<nat, Frame>)
    requires Ascending(seqs) && forall i :: 0 <= i < |seqs| ==> seqs[i] in held
    ensures ready == FramesAt(held, seqs)
    ensures buffer == held - (set n | n in seqs)
  {
    buffer, ready := held, [];
    for i := 0 to |seqs|
      invariant buffer == held - (set n | n in seqs[..i])
      invariant ready == FramesAt(held, seqs[..i])
    {
      assert seqs[..i + 1] == seqs[..i] + [seqs[i]];
      ready := ready + [buffer[seqs[i]]];
      buffer := buffer - {seqs[i]};
    }
    assert seqs[..|seqs|] == seqs;
  }

  method AcceptHeld(state: FlowState, f: Frame, limit: nat) returns (after: FlowState, r: Delivery)
    requires FlowValid(state)
    ensures (after, r) == AcceptInFlow(state, f, limit)
  {
    after := state;
    match Accept(state.order, f.seqNo, limit)
    case Deliver(order, seqs) =>
      DeliverKeepsOrder(state.order, f.seqNo, limit);
      var ready, buffer := PopAll(state.buffer[f.seqNo := f], seqs);
      after := FlowState(order, buffer);
      r := Ok(ready);
    case Hold(order) =>
      after := FlowState(order, state.buffer[f.seqNo := f]);
      r := Ok([]);
    case Stale => r := Err(StaleSeq);
    case Duplicate => r := Err(DuplicateSeq);
    case Overflow => r := Err(BufferOverflow);
  }

  class ReorderBuffer {
    var flows: Flows
    const limit: nat

    constructor (maxBufferPerFlow: nat)
      ensures Valid() && flows == map[] && limit == maxBufferPerFlow
    {
      flows := map[];
      limit := maxBufferPerFlow;
    }

    /** In every flow, after every frame, accepted or refused: the held frames
        are those whose numbers are held, all of them still to come. */
    ghost predicate Valid()
      reads this
    {
      FlowsValid(flows)
    }

    method AcceptOne(f: Frame) returns (r: Delivery)
      requires Valid()
      modifies this
      ensures Valid()
      ensures (flows, r) == AcceptFrame(old(flows), f, limit)
    {
      AcceptFrameValid(flows, f, limit);
      if !IsFlow(f.kind) {
        return Ok([f]);
      }
      if f.key !in flows {
        flows := flows[f.key := FlowState(Start(), map[])];
      }
      var after;
      after, r := AcceptHeld(flows[f.key], f, limit);
      flows := flows[f.key := after];
      assert flows == old(flows)[f.key := after];
    }

    method CleanupFlow(k: FlowKey)
      requires Valid()
      modifies this
      ensures Valid()
      ensures flows == old(flows) - {k}
    {
      flows := flows - {k};
    }
  }
}
