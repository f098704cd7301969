/**
 The terminal gate of a frame writer: frames are numbered and written under one
 lock, and once a flow's END or ERR is out, later frames of the flow are
 suppressed for as long as the flow is remembered as ended.
 */
module Writer {
  import opened Common
  import opened Frames
  import opened Ordering

  const ENDED_CAPACITY := 1024

  datatype Decision = Send(ends: bool) | Suppress

  function Decide(over: bool, t: FrameType): Decision {
    if over && IsFlow(t) then Suppress else Send(IsTerminal(t))
  }

  /** The keys of ended flows, oldest first, and the same keys as a set. */
  class TerminatedFlows {
    var order: seq<FlowKey>
    var members: set<FlowKey>
    const cap: nat

    constructor (cap: nat)
      requires cap > 0
      ensures Valid() && order == [] && this.cap == cap
    {
      order, members, this.cap := [], {}, cap;
    }

    ghost predicate Valid()
      reads this
    {
      && 0 < cap && |order| <= cap
      && (forall i, j :: 0 <= i < j < |order| ==> order[i] != order[j])
      && (forall k :: k in members <==> k in order)
    }

    method Insert(k: FlowKey)
      requires Valid()
      modifies this
      ensures Valid()
      ensures order == Remembered(old(order), k, cap)
    {
      if k in members {
        return;
      }
      if |order| == cap {
        members := members - {order[0]};
        order := order[1..];
      }
      order := order + [k];
      members := members + {k};
    }
  }

  function Remembered(order: seq<FlowKey>, k: FlowKey, cap: nat): seq<FlowKey>
    requires |order| <= cap && cap > 0
  {
    if k in order then order
    else if |order| == cap then order[1..] + [k]
    else order + [k]
  }

  /** One write that was let through the gate, and whether it succeeded. */
  datatype Attempt = Attempt(frame: Frame, written: bool)

  datatype State = State(counters: Counters, ended: seq<FlowKey>, attempts: seq<Attempt>, stragglers: nat)

  ghost predicate Bounded(s: State) {
    |s.ended| <= ENDED_CAPACITY
  }

  /** One frame handed to the writer; `ioOk` is whether the output takes it. */
  function WriteGated(s: State, f: Frame, ioOk: bool): (s': State)
    requires Bounded(s)
    ensures Bounded(s')
  {
    match Decide(f.key in s.ended, f.kind)
    case Suppress => s.(stragglers := s.stragglers + 1)
    case Send(ends) =>
      var counters := Counted(s.counters, f);
      var attempts := s.attempts + [Attempt(Numbered(s.counters, f), ioOk)];
      if !ioOk then s.(counters := counters, attempts := attempts)
      else if ends then State(counters - {f.key}, Remembered(s.ended, f.key, ENDED_CAPACITY), attempts, s.stragglers)
      else s.(counters := counters, attempts := attempts)
  }

  /** The output end: it may fail, and what it took is the wire. */
  class SyncFrameWriter {
    const seqAssigner: SeqAssigner
    const terminated: TerminatedFlows
    var stragglers: nat
    var drops: nat
    ghost var attempts: seq<Attempt>

    constructor ()
      ensures Valid() && fresh(seqAssigner) && fresh(terminated)
      ensures View() == State(map[], [], [], 0) && drops == 0
    {
      seqAssigner := new SeqAssigner();
      terminated := new TerminatedFlows(ENDED_CAPACITY);
      stragglers, drops, attempts := 0, 0, [];
    }

    ghost predicate Valid()
      reads this, seqAssigner, terminated
    {
      terminated.Valid() && terminated.cap == ENDED_CAPACITY
    }

    ghost function View(): State
      reads this, seqAssigner, terminated
    {
      State(seqAssigner.counters, terminated.order, attempts, stragglers)
    }

    /** `ioOk` stands for the underlying write. A failed one is counted as a drop
        and raised. */
    method Write(f: Frame, ioOk: bool) returns (r: Result<Decision, ()>)
      requires Valid()
      modifies this, seqAssigner, terminated
      ensures Valid()
      ensures View() == WriteGated(old(View()), f, ioOk)
      ensures r == var d := Decide(f.key in old(terminated.order), f.kind);
                   if d.Send? && !ioOk then Err(()) else Ok(d)
      ensures drops == old(drops) + if r.Err? then 1 else 0
    {
      var decision := Decide(f.key in terminated.members, f.kind);
      if decision.Suppress? {
        stragglers := stragglers + 1;
        return Ok(decision);
      }
      var numbered := seqAssigner.Assign(f);
      attempts := attempts + [Attempt(numbered, ioOk)];
      if !ioOk {
        drops := drops + 1;
        return Err(());
      }
      if decision.ends {
        seqAssigner.Remove(f.key);
        terminated.Insert(f.key);
      }
      r := Ok(decision);
    }
  }

  /** A writer after handling the frames handed to it, each with its outcome. */
  function Run(inputs: seq<(Frame, bool)>): (s: State)
    ensures Bounded(s)
  {
    if inputs == [] then State(map[], [], [], 0)
    else
      var (f, ioOk) := inputs[|inputs| - 1];
      WriteGated(Run(inputs[..|inputs| - 1]), f, ioOk)
  }

  // The trace

  /** The frames on the wire. */
  function Wire(attempts: seq<Attempt>): seq<Frame> {
    if attempts == [] then []
    else
      var front := Wire(attempts[..|attempts| - 1]);
      var last := attempts[|attempts| - 1];
      if last.written then front + [last.frame] else front
  }

  function SinceAfter(before: nat, last: Frame, k: FlowKey): nat {
    if !InFlow(last, k) then before else if IsTerminal(last.kind) then 0 else before + 1
  }

  /** How many frames of flow `k` are on the wire since its last terminal. */
  function SinceTerminal(wire: seq<Frame>, k: FlowKey): nat {
    if wire == [] then 0
    else SinceAfter(SinceTerminal(wire[..|wire| - 1], k), wire[|wire| - 1], k)
  }

  function FailedAfter(before: nat, last: Attempt, k: FlowKey): nat {
    if !InFlow(last.frame, k) then before
    else if !last.written then before + 1
    else if IsTerminal(last.frame.kind) then 0
    else before
  }

  /** How many writes of flow `k` failed since its last terminal on the wire. */
  function FailedSince(attempts: seq<Attempt>, k: FlowKey): nat {
    if attempts == [] then 0
    else FailedAfter(FailedSince(attempts[..|attempts| - 1], k), attempts[|attempts| - 1], k)
  }

  /** The keys of the terminals on the wire, in order. */
  function Ended(wire: seq<Frame>): seq<FlowKey> {
    if wire == [] then []
    else
      var front := Ended(wire[..|wire| - 1]);
      var last := wire[|wire| - 1];
      if IsTerminal(last.kind) then front + [last.key] else front
  }

  function LastOf<T>(s: seq<T>, n: nat): seq<T> {
    if |s| <= n then s else s[|s| - n..]
  }

  lemma WireSnoc(attempts: seq<Attempt>, a: Attempt)
    ensures Wire(attempts + [a]) == if a.written then Wire(attempts) + [a.frame] else Wire(attempts)
  {
    assert (attempts + [a])[..|attempts|] == attempts;
  }

  lemma SinceSnoc(wire: seq<Frame>, f: Frame, k: FlowKey)
    ensures SinceTerminal(wire + [f], k) == SinceAfter(SinceTerminal(wire, k), f, k)
  {
    assert (wire + [f])[..|wire|] == wire;
  }

  lemma FailedSnoc(attempts: seq<Attempt>, a: Attempt, k: FlowKey)
    ensures FailedSince(attempts + [a], k) == FailedAfter(FailedSince(attempts, k), a, k)
  {
    assert (attempts + [a])[..|attempts|] == attempts;
  }

  /** What the writer's tables say about its own trace. */
  ghost predicate Faithful(s: State) {
    && Bounded(s)
    && s.ended == LastOf(Ended(Wire(s.attempts)), ENDED_CAPACITY)
    && (forall k :: CountsAgree(s.counters, s.attempts, k))
  }

  /** The next number of a flow is what it has on the wire since its last terminal
      and what failed to get there since. */
  ghost predicate CountsAgree(counters: Counters, attempts: seq<Attempt>, k: FlowKey) {
    NextSeq(counters, k) == SinceTerminal(Wire(attempts), k) + FailedSince(attempts, k)
  }

  /** A frame that is written counts, or its terminal clears the count; one that
      fails to be written uses up its number. */
  lemma WrittenKeepsCounts(counters: Counters, attempts: seq<Attempt>, f: Frame, k: FlowKey)
    requires CountsAgree(counters, attempts, k)
    ensures var after := if IsTerminal(f.kind) then Counted(counters, f) - {f.key} else Counted(counters, f);
            CountsAgree(after, attempts + [Attempt(Numbered(counters, f), true)], k)
  {
    var a := Attempt(Numbered(counters, f), true);
    WireSnoc(attempts, a);
    FailedSnoc(attempts, a, k);
    SinceSnoc(Wire(attempts), a.frame, k);
  }

  lemma FailedKeepsCounts(counters: Counters, attempts: seq<Attempt>, f: Frame, k: FlowKey)
    requires CountsAgree(counters, attempts, k)
    ensures CountsAgree(Counted(counters, f), attempts + [Attempt(Numbered(counters, f), false)], k)
  {
    var a := Attempt(Numbered(counters, f), false);
    WireSnoc(attempts, a);
    FailedSnoc(attempts, a, k);
  }

  lemma WriteKeepsCounts(s: State, f: Frame, ioOk: bool, k: FlowKey)
    requires Bounded(s) && Decide(f.key in s.ended, f.kind).Send? && CountsAgree(s.counters, s.attempts, k)
    ensures var s' := WriteGated(s, f, ioOk); CountsAgree(s'.counters, s'.attempts, k)
  {
    if ioOk {
      WrittenKeepsCounts(s.counters, s.attempts, f, k);
    } else {
      FailedKeepsCounts(s.counters, s.attempts, f, k);
    }
  }

  lemma RememberedIsLast(ended: seq<FlowKey>, k: FlowKey)
    requires k !in LastOf(ended, ENDED_CAPACITY)
    ensures Remembered(LastOf(ended, ENDED_CAPACITY), k, ENDED_CAPACITY) == LastOf(ended + [k], ENDED_CAPACITY)
  {
  }

  /** What a frame let through leaves on the wire and among the ended. */
  lemma WriteOutcome(s: State, f: Frame, ioOk: bool)
    requires Bounded(s) && Decide(f.key in s.ended, f.kind).Send?
    ensures var s' := WriteGated(s, f, ioOk); var g := Numbered(s.counters, f);
            && s'.attempts == s.attempts + [Attempt(g, ioOk)]
            && Wire(s'.attempts) == (if ioOk then Wire(s.attempts) + [g] else Wire(s.attempts))
            && s'.ended == (if ioOk && IsTerminal(f.kind) then Remembered(s.ended, f.key, ENDED_CAPACITY) else s.ended)
  {
    WireSnoc(s.attempts, Attempt(Numbered(s.counters, f), ioOk));
  }

  lemma EndedAgree(wire: seq<Frame>, f: Frame)
    requires IsTerminal(f.kind) ==> f.key !in LastOf(Ended(wire), ENDED_CAPACITY)
    ensures LastOf(Ended(wire + [f]), ENDED_CAPACITY)
         == if IsTerminal(f.kind) then Remembered(LastOf(Ended(wire), ENDED_CAPACITY), f.key, ENDED_CAPACITY) else LastOf(Ended(wire), ENDED_CAPACITY)
  {
    EndedSnoc(wire, f);
    if IsTerminal(f.kind) {
      RememberedIsLast(Ended(wire), f.key);
    }
  }

  lemma WriteKeepsEnded(s: State, f: Frame, ioOk: bool)
    requires Faithful(s) && Decide(f.key in s.ended, f.kind).Send?
    ensures var s' := WriteGated(s, f, ioOk); s'.ended == LastOf(Ended(Wire(s'.attempts)), ENDED_CAPACITY)
  {
    WriteOutcome(s, f, ioOk);
    EndedAgree(Wire(s.attempts), Numbered(s.counters, f));
  }

  lemma EndedSnoc(wire: seq<Frame>, f: Frame)
    ensures Ended(wire + [f]) == if IsTerminal(f.kind) then Ended(wire) + [f.key] else Ended(wire)
  {
    assert (wire + [f])[..|wire|] == wire;
  }

  lemma WriteKeepsFaithful(s: State, f: Frame, ioOk: bool)
    requires Faithful(s)
    ensures Faithful(WriteGated(s, f, ioOk))
  {
    if Decide(f.key in s.ended, f.kind).Send? {
      var s' := WriteGated(s, f, ioOk);
      WriteKeepsEnded(s, f, ioOk);
      forall k ensures CountsAgree(s'.counters, s'.attempts, k) {
        WriteKeepsCounts(s, f, ioOk, k);
      }
    }
  }

  lemma {:induction false} RunIsFaithful(inputs: seq<(Frame, bool)>)
    ensures Faithful(Run(inputs))
  {
    if inputs != [] {
      RunIsFaithful(inputs[..|inputs| - 1]);
      var (f, ioOk) := inputs[|inputs| - 1];
      WriteKeepsFaithful(Run(inputs[..|inputs| - 1]), f, ioOk);
    }
  }

  /** The numbering on the wire: a flow's frame carries how many of its frames
      were written since its last terminal, plus how many writes failed since. */
  ghost predicate NumberedTrace(attempts: seq<Attempt>) {
    forall i :: 0 <= i < |attempts| && IsFlow(attempts[i].frame.kind) ==>
      attempts[i].frame.seqNo ==
        SinceTerminal(Wire(attempts[..i]), attempts[i].frame.key) + FailedSince(attempts[..i], attempts[i].frame.key)
  }

  /** Nothing of a flow follows its terminal before 1024 later
      terminals have. */
  ghost predicate GatedTrace(wire: seq<Frame>) {
    forall i, j :: 0 <= i < j < |wire| && IsTerminal(wire[i].kind) && InFlow(wire[j], wire[i].key) ==>
      |Ended(wire[..j])| - |Ended(wire[..i + 1])| >= 1024
  }

  lemma {:induction false} EndedGrows(wire: seq<Frame>, i: nat)
    requires i < |wire| && IsTerminal(wire[i].kind)
    ensures |Ended(wire[..i + 1])| <= |Ended(wire)|
    ensures Ended(wire)[|Ended(wire[..i + 1])| - 1] == wire[i].key
    ensures |Ended(wire[..i + 1])| > 0
  {
    if i == |wire| - 1 {
      assert wire[..i + 1] == wire;
    } else {
      EndedGrows(wire[..|wire| - 1], i);
      assert wire[..|wire| - 1][..i + 1] == wire[..i + 1];
    }
  }

  /** A flow whose terminal is at `i` has many later ones after it, if it is not
      remembered. */
  lemma ForgottenIsOld(wire: seq<Frame>, i: nat)
    requires i < |wire| && IsTerminal(wire[i].kind) && wire[i].key !in LastOf(Ended(wire), ENDED_CAPACITY)
    ensures |Ended(wire)| - |Ended(wire[..i + 1])| >= ENDED_CAPACITY
  {
    EndedGrows(wire, i);
  }

  lemma AppendedGate(wire: seq<Frame>, all: seq<Frame>, i: nat, j: nat)
    requires GatedTrace(wire) && |all| == |wire| + 1 && all[..|wire|] == wire && i < j < |all|
    requires IsTerminal(all[i].kind) && InFlow(all[j], all[i].key)
    requires j == |wire| ==> all[i].key !in LastOf(Ended(wire), ENDED_CAPACITY)
    ensures |Ended(all[..j])| - |Ended(all[..i + 1])| >= ENDED_CAPACITY
  {
    assert all[..i + 1] == wire[..i + 1] && all[i] == wire[i];
    if j == |wire| {
      ForgottenIsOld(wire, i);
    } else {
      assert all[..j] == wire[..j] && all[j] == wire[j];
    }
  }

  lemma AppendKeepsGate(wire: seq<Frame>, f: Frame)
    requires GatedTrace(wire)
    requires IsFlow(f.kind) ==> f.key !in LastOf(Ended(wire), ENDED_CAPACITY)
    ensures GatedTrace(wire + [f])
  {
    var all := wire + [f];
    forall i, j | 0 <= i < j < |all| && IsTerminal(all[i].kind) && InFlow(all[j], all[i].key)
      ensures |Ended(all[..j])| - |Ended(all[..i + 1])| >= ENDED_CAPACITY
    {
      AppendedGate(wire, all, i, j);
    }
  }

  /** On every wire the frames of a flow end with its terminal: nothing of the
      flow follows while it is remembered as ended. */
  lemma {:induction false} EveryTraceIsGated(inputs: seq<(Frame, bool)>)
    ensures GatedTrace(Wire(Run(inputs).attempts))
  {
    if inputs != [] {
      var earlier := Run(inputs[..|inputs| - 1]);
      var (f, ioOk) := inputs[|inputs| - 1];
      EveryTraceIsGated(inputs[..|inputs| - 1]);
      RunIsFaithful(inputs[..|inputs| - 1]);
      if Decide(f.key in earlier.ended, f.kind).Send? {
        var g := Attempt(Numbered(earlier.counters, f), ioOk);
        WireSnoc(earlier.attempts, g);
        AppendKeepsGate(Wire(earlier.attempts), g.frame);
      }
    }
  }

  lemma {:induction false} EveryTraceIsNumbered(inputs: seq<(Frame, bool)>)
    ensures NumberedTrace(Run(inputs).attempts)
  {
    if inputs != [] {
      var earlier := Run(inputs[..|inputs| - 1]);
      var (f, ioOk) := inputs[|inputs| - 1];
      EveryTraceIsNumbered(inputs[..|inputs| - 1]);
      RunIsFaithful(inputs[..|inputs| - 1]);
      if Decide(f.key in earlier.ended, f.kind).Send? {
        var g := Attempt(Numbered(earlier.counters, f), ioOk);
        assert CountsAgree(earlier.counters, earlier.attempts, f.key);
        AppendKeepsNumbers(earlier.attempts, g);
      }
    }
  }

  lemma AppendKeepsNumbers(attempts: seq<Attempt>, a: Attempt)
    requires NumberedTrace(attempts)
    requires IsFlow(a.frame.kind) ==>
      a.frame.seqNo == SinceTerminal(Wire(attempts), a.frame.key) + FailedSince(attempts, a.frame.key)
    ensures NumberedTrace(attempts + [a])
  {
    var all := attempts + [a];
    forall i | 0 <= i < |all| && IsFlow(all[i].frame.kind)
      ensures all[i].frame.seqNo ==
        SinceTerminal(Wire(all[..i]), all[i].frame.key) + FailedSince(all[..i], all[i].frame.key)
    {
      assert all[..i] == attempts[..i];
      assert attempts[..|attempts|] == attempts;
    }
  }

  /** Exactly when the next frame of a flow leaves no gap on the wire: no write of
      the flow failed since its last terminal. */
  lemma GapFreeIff(inputs: seq<(Frame, bool)>, f: Frame)
    requires IsFlow(f.kind) && f.key !in Run(inputs).ended
    ensures var s := Run(inputs); var next := WriteGated(s, f, true);
      && Wire(next.attempts) == Wire(s.attempts) + [Numbered(s.counters, f)]
      && (Numbered(s.counters, f).seqNo == SinceTerminal(Wire(s.attempts), f.key) <==> FailedSince(s.attempts, f.key) == 0)
  {
    RunIsFaithful(inputs);
    assert CountsAgree(Run(inputs).counters, Run(inputs).attempts, f.key);
    WireSnoc(Run(inputs).attempts, Attempt(Numbered(Run(inputs).counters, f), true));
  }

  /** Each flow frame's number is how many of its flow are on the wire before it, since
      its last terminal: 0, 1, 2, ... up to the terminal. */
  ghost predicate GapFree(wire: seq<Frame>) {
    forall i :: 0 <= i < |wire| && IsFlow(wire[i].kind) ==> wire[i].seqNo == SinceTerminal(wire[..i], wire[i].key)
  }

  lemma GapFreeSnoc(wire: seq<Frame>, f: Frame)
    ensures GapFree(wire + [f]) <==> GapFree(wire) && (IsFlow(f.kind) ==> f.seqNo == SinceTerminal(wire, f.key))
  {
    var all := wire + [f];
    assert all[|wire|] == f && all[..|wire|] == wire;
    forall i | 0 <= i < |wire| ensures all[i] == wire[i] && all[..i] == wire[..i] {
    }
    if GapFree(all) {
      forall i | 0 <= i < |wire| && IsFlow(wire[i].kind) ensures wire[i].seqNo == SinceTerminal(wire[..i], wire[i].key) {
        assert all[i].seqNo == SinceTerminal(all[..i], all[i].key);
      }
    }
  }

  /** The frame is tried: it is not of a flow remembered as ended. */
  predicate Tried(inputs: seq<(Frame, bool)>, i: nat)
    requires i < |inputs|
  {
    Decide(inputs[i].0.key in Run(inputs[..i]).ended, inputs[i].0.kind).Send?
  }

  predicate Fails(inputs: seq<(Frame, bool)>, i: nat, k: FlowKey)
    requires i < |inputs|
  {
    Tried(inputs, i) && InFlow(inputs[i].0, k) && !inputs[i].1
  }

  predicate Finishes(inputs: seq<(Frame, bool)>, i: nat, k: FlowKey)
    requires i < |inputs|
  {
    Tried(inputs, i) && InFlow(inputs[i].0, k) && inputs[i].1 && IsTerminal(inputs[i].0.kind)
  }

  /** Of the first `n` frames one of the flow failed to be written, and no terminal of
      the flow was written after it. */
  predicate Missing(inputs: seq<(Frame, bool)>, n: nat, k: FlowKey)
    requires n <= |inputs|
  {
    exists i :: 0 <= i < n && Fails(inputs, i, k) && forall m :: i < m < n ==> !Finishes(inputs, m, k)
  }

  /** The frame is not written while one of its flow is missing. */
  predicate FollowsOn(inputs: seq<(Frame, bool)>, j: nat)
    requires j < |inputs|
  {
    Tried(inputs, j) && inputs[j].1 && IsFlow(inputs[j].0.kind) ==> !Missing(inputs, j, inputs[j].0.key)
  }

  predicate NoneAfterFailure(inputs: seq<(Frame, bool)>) {
    forall j :: 0 <= j < |inputs| ==> FollowsOn(inputs, j)
  }

  lemma EarlierTried(inputs: seq<(Frame, bool)>, p: nat, i: nat)
    requires i < p <= |inputs|
    ensures Tried(inputs[..p], i) == Tried(inputs, i)
  {
    assert inputs[..p][..i] == inputs[..i];
  }

  lemma EarlierMissing(inputs: seq<(Frame, bool)>, p: nat, n: nat, k: FlowKey)
    requires n <= p <= |inputs|
    ensures Missing(inputs[..p], n, k) == Missing(inputs, n, k)
  {
    forall i | 0 <= i < n
      ensures Fails(inputs[..p], i, k) == Fails(inputs, i, k) && Finishes(inputs[..p], i, k) == Finishes(inputs, i, k)
    {
      EarlierTried(inputs, p, i);
    }
  }

  /** What the last of some frames makes of it. */
  lemma MissingSnoc(inputs: seq<(Frame, bool)>, k: FlowKey)
    requires inputs != []
    ensures var n := |inputs| - 1;
            Missing(inputs, |inputs|, k) <==> Fails(inputs, n, k) || (Missing(inputs, n, k) && !Finishes(inputs, n, k))
  {
    var n := |inputs| - 1;
    if Missing(inputs, n, k) && !Finishes(inputs, n, k) {
      var i :| 0 <= i < n && Fails(inputs, i, k) && forall m :: i < m < n ==> !Finishes(inputs, m, k);
      assert forall m :: i < m < |inputs| ==> !Finishes(inputs, m, k);
    }
  }

  lemma {:induction false} MissingIff(inputs: seq<(Frame, bool)>, k: FlowKey)
    ensures Missing(inputs, |inputs|, k) <==> FailedSince(Run(inputs).attempts, k) > 0
  {
    if inputs != [] {
      var n := |inputs| - 1;
      var (f, ioOk) := inputs[n];
      var earlier := Run(inputs[..n]);
      MissingIff(inputs[..n], k);
      EarlierMissing(inputs, n, n, k);
      MissingSnoc(inputs, k);
      if Tried(inputs, n) {
        WriteOutcome(earlier, f, ioOk);
        FailedSnoc(earlier.attempts, Attempt(Numbered(earlier.counters, f), ioOk), k);
      }
    }
  }

  lemma NoneAfterFailureSnoc(inputs: seq<(Frame, bool)>)
    requires inputs != []
    ensures var n := |inputs| - 1; NoneAfterFailure(inputs) <==> NoneAfterFailure(inputs[..n]) && FollowsOn(inputs, n)
  {
    var n := |inputs| - 1;
    forall j | 0 <= j < n ensures FollowsOn(inputs[..n], j) == FollowsOn(inputs, j) {
      EarlierTried(inputs, n, j);
      EarlierMissing(inputs, n, j, inputs[j].0.key);
    }
  }

  lemma GapFreeStep(s: State, f: Frame, ioOk: bool)
    requires Bounded(s) && Decide(f.key in s.ended, f.kind).Send? && CountsAgree(s.counters, s.attempts, f.key)
    ensures GapFree(Wire(WriteGated(s, f, ioOk).attempts))
       <==> GapFree(Wire(s.attempts)) && (ioOk && IsFlow(f.kind) ==> FailedSince(s.attempts, f.key) == 0)
  {
    WriteOutcome(s, f, ioOk);
    GapFreeSnoc(Wire(s.attempts), Numbered(s.counters, f));
  }

  /** The whole wire: every flow is numbered 0, 1, 2, ... up to its terminal exactly
      when, of the frames handed in, none is written while one of its flow is missing. */
  lemma {:induction false} EveryTraceGapFreeIff(inputs: seq<(Frame, bool)>)
    ensures GapFree(Wire(Run(inputs).attempts)) <==> NoneAfterFailure(inputs)
  {
    if inputs != [] {
      var n := |inputs| - 1;
      var (f, ioOk) := inputs[n];
      EveryTraceGapFreeIff(inputs[..n]);
      RunIsFaithful(inputs[..n]);
      NoneAfterFailureSnoc(inputs);
      EarlierMissing(inputs, n, n, f.key);
      MissingIff(inputs[..n], f.key);
      if Tried(inputs, n) {
        assert CountsAgree(Run(inputs[..n]).counters, Run(inputs[..n]).attempts, f.key);
        GapFreeStep(Run(inputs[..n]), f, ioOk);
      }
    }
  }

  /** So on a trace without failed writes every flow is. */
  lemma NoFailureNoGap(inputs: seq<(Frame, bool)>)
    requires forall i :: 0 <= i < |inputs| ==> inputs[i].1
    ensures GapFree(Wire(Run(inputs).attempts))
  {
    EveryTraceGapFreeIff(inputs);
  }

  /** The input with a gap: the first of two chunks fails to be written, and the wire
      starts with number 1. */
  lemma FailedWriteLeavesGap(f: Frame, inputs: seq<(Frame, bool)>)
    requires f.kind == Chunk && inputs == [(f, false), (f, true)]
    ensures Wire(Run(inputs).attempts) == [f.(seqNo := 1)] && !GapFree(Wire(Run(inputs).attempts))
  {
    assert inputs[..1] == [(f, false)] && inputs[..1][..0] == [];
    var first := Run(inputs[..1]);
    assert first == WriteGated(Run([]), f, false);
    var a := Attempt(f.(seqNo := 0), false);
    assert first.attempts == [] + [a];
    WireSnoc([], a);
    WireSnoc([a], Attempt(f.(seqNo := 1), true));
    var wire := Wire(Run(inputs).attempts);
    assert wire == [f.(seqNo := 1)] && wire[..0] == [];
    assert wire[0].seqNo != SinceTerminal(wire[..0], wire[0].key);
  }

  /** A frame is suppressed exactly when it is a flow frame of one of the last
      1024 ended flows; control frames are always written. */
  lemma SuppressedIff(inputs: seq<(Frame, bool)>, f: Frame)
    ensures Decide(f.key in Run(inputs).ended, f.kind).Suppress?
       <==> IsFlow(f.kind) && f.key in LastOf(Ended(Wire(Run(inputs).attempts)), 1024)
    ensures !IsFlow(f.kind) ==>
      Wire(WriteGated(Run(inputs), f, true).attempts) == Wire(Run(inputs).attempts) + [f]
  {
    RunIsFaithful(inputs);
    WireSnoc(Run(inputs).attempts, Attempt(f, true));
  }

  /** Which frames are held back after a flow has ended: once its END or its ERR is
      written, its REQ, CHUNK, END, LOG, ERR, STREAM_START and STREAM_END are, and
      nothing else is. */
  lemma AfterTerminal(inputs: seq<(Frame, bool)>, e: Frame, f: Frame)
    requires e.kind in {End, ErrFrame} && e.key !in Run(inputs).ended && f.key == e.key
    ensures Decide(f.key in Run(inputs + [(e, true)]).ended, f.kind).Suppress?
       <==> f.kind in {Req, Chunk, End, Log, ErrFrame, StreamStart, StreamEnd}
  {
    assert (inputs + [(e, true)])[..|inputs|] == inputs;
  }

  /** And nothing but an END or an ERR ends a flow. */
  lemma OtherFramesEndNothing(inputs: seq<(Frame, bool)>, f: Frame, ok: bool)
    requires f.kind !in {End, ErrFrame} || !ok
    ensures Run(inputs + [(f, ok)]).ended == Run(inputs).ended
  {
    assert (inputs + [(f, ok)])[..|inputs|] == inputs;
  }

  /** Every frame handed in is tried or counted as a straggler, once. */
  lemma {:induction false} StragglersCounted(inputs: seq<(Frame, bool)>)
    ensures |Run(inputs).attempts| + Run(inputs).stragglers == |inputs|
  {
    if inputs != [] {
      StragglersCounted(inputs[..|inputs| - 1]);
    }
  }
}
