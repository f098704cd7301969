/**
 One credited stream as a transition system: the sending thread and its gate,
 the CHUNK and CREDIT channels, the receiver's demux thread, and the handler
 thread that consumes items. Every lock-protected block is one step; every
 schedule of the three threads and both channels is a sequence of steps.

 A chunk of the plan is `true` when it completes an item. On a scalar stream
 every chunk does; on a sequence stream an item may span several.
 */
module CreditProtocol {
  import opened Common
  import opened Credit

  /** Where the handler thread is in `recv`: about to look at the queue, holding
      an item it has not accounted for yet, having found the queue empty but not
      flushed yet, or blocked on the queue. */
  datatype HandlerPc = Running | Holding | FoundEmpty | Blocked

  datatype State = State(
    gate: Gate,            // the sender's window
    toSend: seq<bool>,     // chunks the sender has not acquired credit for
    inHand: seq<bool>,     // the chunk it acquired credit for and has not written
    chunks: seq<bool>,     // CHUNK frames in flight
    credits: seq<nat>,     // CREDIT grants in flight
    window: Window,        // the receiver's window
    midItem: bool,         // the reassembly buffer holds part of an item
    items: nat,            // items queued for the handler
    pc: HandlerPc,
    consumed: nat,         // items the handler accounted for
    refused: nat           // chunks refused as CREDIT_VIOLATION
  )

  datatype Action =
    | SenderAcquire
    | SenderWrite
    | DemuxChunk
    | DeliverCredit(i: nat)
    | HandlerTake       // the queue had an item, at once or after blocking
    | HandlerAccount
    | HandlerSeesEmpty
    | HandlerFlush

  function Init(senderWindow: nat, receiverWindow: nat, plan: seq<bool>): State {
    State(GateOpened(senderWindow), plan, [], [], [], WindowOpened(receiverWindow), false, 0, Running, 0, 0)
  }

  predicate Enabled(s: State, a: Action) {
    match a
    case SenderAcquire => s.toSend != [] && s.inHand == [] && Acquire(s.gate, 1).Acquired?
    case SenderWrite => s.inHand != []
    case DemuxChunk => s.chunks != []
    case DeliverCredit(i) => i < |s.credits|
    case HandlerTake => (s.pc == Running || s.pc == Blocked) && s.items > 0
    case HandlerAccount => s.pc == Holding
    case HandlerSeesEmpty => s.pc == Running && s.items == 0
    case HandlerFlush => s.pc == FoundEmpty
  }

  /** A grant of nothing sends no frame. */
  function SendGrant(credits: seq<nat>, n: nat): seq<nat> {
    if n == 0 then credits else credits + [n]
  }

  function Step(s: State, a: Action): State
    requires Enabled(s, a)
  {
    match a
    case SenderAcquire =>
      s.(gate := Acquire(s.gate, 1).gate, inHand := [s.toSend[0]], toSend := s.toSend[1..])
    case SenderWrite => s.(chunks := s.chunks + s.inHand, inHand := [])
    case DemuxChunk => DemuxStep(s.(chunks := s.chunks[1..]), s.chunks[0])
    case DeliverCredit(i) =>
      s.(gate := Granted(s.gate, s.credits[i]), credits := s.credits[..i] + s.credits[i + 1..])
    case HandlerTake => s.(items := s.items - 1, pc := Holding)
    case HandlerAccount =>
      var step := Consume(s.window);
      s.(window := step.window, credits := SendGrant(s.credits, step.grant), pc := Running, consumed := s.consumed + 1)
    case HandlerSeesEmpty => s.(pc := FoundEmpty)
    case HandlerFlush =>
      var step := Flush(s.window);
      s.(window := step.window, credits := SendGrant(s.credits, step.grant), pc := Blocked)
  }

  /** The demux on one arriving chunk: charge it, grant a continuation back at
      once, and queue the item it completes. */
  function DemuxStep(s: State, completes: bool): State {
    match Arrive(s.window)
    case Violation => s.(refused := s.refused + 1)
    case Accepted(charged) =>
      var step := if s.midItem then Continued(charged) else GrantStep(charged, 0);
      s.(window := step.window, credits := SendGrant(s.credits, step.grant),
         midItem := !completes, items := if completes then s.items + 1 else s.items)
  }

  /** The state a schedule leads to, if each of its steps can be taken. */
  function Exec(s: State, actions: seq<Action>): Option<State>
    decreases |actions|
  {
    if actions == [] then Some(s)
    else if Enabled(s, actions[0]) then Exec(Step(s, actions[0]), actions[1..])
    else None
  }

  ghost predicate Reachable(init: State, s: State) {
    exists actions :: Exec(init, actions) == Some(s)
  }

  lemma {:induction false} ExecSnoc(s: State, actions: seq<Action>, a: Action)
    requires Exec(s, actions).Some? && Enabled(Exec(s, actions).value, a)
    ensures Exec(s, actions + [a]) == Some(Step(Exec(s, actions).value, a))
    decreases |actions|
  {
    var all := actions + [a];
    if actions == [] {
      assert all[0] == a && all[1..] == [];
      assert Exec(Step(s, a), all[1..]) == Some(Step(s, a));
    } else {
      assert all[0] == actions[0] && all[1..] == actions[1..] + [a];
      ExecSnoc(Step(s, actions[0]), actions[1..], a);
    }
  }

  lemma ReachStep(init: State, s: State, a: Action)
    requires Reachable(init, s) && Enabled(s, a)
    ensures Reachable(init, Step(s, a))
  {
    var actions :| Exec(init, actions) == Some(s);
    ExecSnoc(init, actions, a);
  }

  lemma ReachInit(init: State)
    ensures Reachable(init, init)
  {
    assert Exec(init, []) == Some(init);
  }

  /** One chunk from the sender to the demux, with nothing else in flight. */
  function Sent(s: State): State
    requires s.toSend != [] && s.inHand == [] && s.chunks == [] && Acquire(s.gate, 1).Acquired?
  {
    DemuxStep(s.(gate := Acquire(s.gate, 1).gate, toSend := s.toSend[1..]), s.toSend[0])
  }

  lemma ReachSent(init: State, s: State)
    requires s.toSend != [] && s.inHand == [] && s.chunks == [] && Acquire(s.gate, 1).Acquired?
    requires Reachable(init, s)
    ensures Reachable(init, Sent(s))
  {
    ReachStep(init, s, SenderAcquire);
    var s1 := Step(s, SenderAcquire);
    ReachStep(init, s1, SenderWrite);
    var s2 := Step(s1, SenderWrite);
    assert s2.chunks == [s.toSend[0]];
    ReachStep(init, s2, DemuxChunk);
    assert Step(s2, DemuxChunk) == Sent(s);
  }

  // Conservation

  function Bit(b: bool): nat {
    if b then 1 else 0
  }

  /** How many of the chunks complete an item. */
  function Completing(chunks: seq<bool>): nat {
    if chunks == [] then 0 else Completing(chunks[..|chunks| - 1]) + Bit(chunks[|chunks| - 1])
  }

  /** Whether a chunk sequence stops inside an item. */
  predicate StopsMidItem(chunks: seq<bool>) {
    chunks != [] && !chunks[|chunks| - 1]
  }

  /** Chunks of the plan the demux has not processed. */
  function Ahead(s: State): seq<bool> {
    s.chunks + s.inHand + s.toSend
  }

  /** What the receiver was charged for and has not granted back. */
  function Charged(s: State): nat {
    s.items + Bit(s.pc == Holding) + s.window.pending + Bit(s.midItem)
  }

  /** Every credit of the sender's window is in exactly one place, and the
      receiver's window is short of exactly what it is charged for. */
  ghost predicate Conserved(s: State, senderWindow: nat, receiverWindow: nat) {
    && s.gate.closed.None?
    && s.gate.available + |s.inHand| + |s.chunks| + Sum(s.credits) + Charged(s) + s.refused == senderWindow
    && s.window.remaining + Charged(s) == receiverWindow
  }

  /** What the batching of grants keeps. */
  ghost predicate Batched(s: State, receiverWindow: nat) {
    && s.window.batch == Max(1, receiverWindow / 2)
    && s.window.pending < s.window.batch
    && s.window.pending <= s.consumed
    && (s.pc == Blocked ==> s.window.pending == 0)
  }

  /** Until a chunk is refused, the demux has processed the plan up to some
      chunk, in order, and everything it completed is with the handler. */
  ghost predicate InOrder(s: State, plan: seq<bool>) {
    && |s.inHand| <= 1
    && (s.refused == 0 ==>
        && |Ahead(s)| <= |plan|
        && Ahead(s) == plan[|plan| - |Ahead(s)|..]
        && s.midItem == StopsMidItem(plan[..|plan| - |Ahead(s)|])
        && s.consumed + Bit(s.pc == Holding) + s.items == Completing(plan[..|plan| - |Ahead(s)|]))
  }

  ghost predicate Inv(s: State, senderWindow: nat, receiverWindow: nat, plan: seq<bool>) {
    && Conserved(s, senderWindow, receiverWindow)
    && Batched(s, receiverWindow)
    && InOrder(s, plan)
  }

  lemma SendGrantSum(credits: seq<nat>, n: nat)
    ensures Sum(SendGrant(credits, n)) == Sum(credits) + n
  {
    SumSnoc(credits, n);
  }

  ghost predicate Accounts(s: State, senderWindow: nat, receiverWindow: nat) {
    Conserved(s, senderWindow, receiverWindow) && Batched(s, receiverWindow) && |s.inHand| <= 1
  }

  lemma SenderConserves(s: State, a: Action, senderWindow: nat, receiverWindow: nat)
    requires Accounts(s, senderWindow, receiverWindow) && Enabled(s, a) && (a.SenderAcquire? || a.SenderWrite? || a.DeliverCredit?)
    ensures Accounts(Step(s, a), senderWindow, receiverWindow)
  {
    if a.DeliverCredit? {
      SumRemove(s.credits, a.i);
    }
  }

  lemma DemuxConserves(s: State, senderWindow: nat, receiverWindow: nat)
    requires Accounts(s, senderWindow, receiverWindow) && Enabled(s, DemuxChunk)
    ensures Accounts(Step(s, DemuxChunk), senderWindow, receiverWindow)
  {
    if s.window.remaining == 0 {
      RefusalConserves(s, senderWindow, receiverWindow);
    } else if s.midItem {
      ContinuationConserves(s, Step(s, DemuxChunk), senderWindow, receiverWindow);
    } else {
      FirstFragmentConserves(s, senderWindow, receiverWindow);
    }
  }

  lemma RefusalConserves(s: State, senderWindow: nat, receiverWindow: nat)
    requires Accounts(s, senderWindow, receiverWindow) && Enabled(s, DemuxChunk) && s.window.remaining == 0
    ensures Accounts(Step(s, DemuxChunk), senderWindow, receiverWindow)
  {
  }

  /** A later fragment's charge goes back at once, as a grant of one. */
  lemma ContinuationStep(s: State, s': State)
    requires s.chunks != [] && s.window.remaining > 0 && s.midItem && s' == Step(s, DemuxChunk)
    ensures s'.gate == s.gate && s'.inHand == s.inHand && |s'.chunks| == |s.chunks| - 1
    ensures s'.credits == SendGrant(s.credits, 1) && s'.window == s.window
    ensures s'.items + Bit(s'.midItem) == s.items + 1
    ensures s'.pc == s.pc && s'.consumed == s.consumed && s'.refused == s.refused
  {
  }

  lemma ContinuationConserves(s: State, s': State, senderWindow: nat, receiverWindow: nat)
    requires Accounts(s, senderWindow, receiverWindow)
    requires s.chunks != [] && s.window.remaining > 0 && s.midItem && s' == Step(s, DemuxChunk)
    ensures Accounts(s', senderWindow, receiverWindow)
  {
    ContinuationStep(s, s');
    SendGrantSum(s.credits, 1);
  }

  lemma FirstFragmentConserves(s: State, senderWindow: nat, receiverWindow: nat)
    requires Accounts(s, senderWindow, receiverWindow) && Enabled(s, DemuxChunk) && s.window.remaining > 0 && !s.midItem
    ensures Accounts(Step(s, DemuxChunk), senderWindow, receiverWindow)
  {
  }

  lemma AccountConserves(s: State, senderWindow: nat, receiverWindow: nat)
    requires Accounts(s, senderWindow, receiverWindow) && Enabled(s, HandlerAccount)
    ensures Accounts(Step(s, HandlerAccount), senderWindow, receiverWindow)
  {
    SendGrantSum(s.credits, Consume(s.window).grant);
  }

  lemma HandlerConserves(s: State, a: Action, senderWindow: nat, receiverWindow: nat)
    requires Accounts(s, senderWindow, receiverWindow) && Enabled(s, a) && (a.HandlerTake? || a.HandlerSeesEmpty? || a.HandlerFlush?)
    ensures Accounts(Step(s, a), senderWindow, receiverWindow)
  {
    if a.HandlerFlush? {
      SendGrantSum(s.credits, s.window.pending);
    }
  }

  lemma StepConserves(s: State, a: Action, senderWindow: nat, receiverWindow: nat)
    requires Accounts(s, senderWindow, receiverWindow) && Enabled(s, a)
    ensures Accounts(Step(s, a), senderWindow, receiverWindow)
  {
    match a
    case DemuxChunk => DemuxConserves(s, senderWindow, receiverWindow);
    case HandlerAccount => AccountConserves(s, senderWindow, receiverWindow);
    case HandlerTake => HandlerConserves(s, a, senderWindow, receiverWindow);
    case HandlerSeesEmpty => HandlerConserves(s, a, senderWindow, receiverWindow);
    case HandlerFlush => HandlerConserves(s, a, senderWindow, receiverWindow);
    case _ => SenderConserves(s, a, senderWindow, receiverWindow);
  }

  lemma DemuxKeepsOrder(s: State, plan: seq<bool>)
    requires InOrder(s, plan) && s.chunks != []
    ensures InOrder(Step(s, DemuxChunk), plan)
  {
    var s' := Step(s, DemuxChunk);
    if s'.refused == 0 {
      var k := |plan| - |Ahead(s)|;
      assert Ahead(s) == [s.chunks[0]] + Ahead(s');
      assert plan[k..][0] == s.chunks[0] && plan[k..][1..] == plan[k + 1..];
      assert plan[..k + 1] == plan[..k] + [plan[k]];
    }
  }

  lemma OthersKeepOrder(s: State, a: Action, plan: seq<bool>)
    requires InOrder(s, plan) && Enabled(s, a) && a != DemuxChunk
    ensures InOrder(Step(s, a), plan)
  {
    assert Ahead(Step(s, a)) == Ahead(s);
  }

  lemma StepKeepsInv(s: State, a: Action, senderWindow: nat, receiverWindow: nat, plan: seq<bool>)
    requires Inv(s, senderWindow, receiverWindow, plan) && Enabled(s, a)
    ensures Inv(Step(s, a), senderWindow, receiverWindow, plan)
  {
    StepConserves(s, a, senderWindow, receiverWindow);
    if a == DemuxChunk {
      DemuxKeepsOrder(s, plan);
    } else {
      OthersKeepOrder(s, a, plan);
    }
  }

  lemma {:induction false} InvHolds(s: State, actions: seq<Action>, senderWindow: nat, receiverWindow: nat, plan: seq<bool>)
    requires Inv(s, senderWindow, receiverWindow, plan) && Exec(s, actions).Some?
    ensures Inv(Exec(s, actions).value, senderWindow, receiverWindow, plan)
    decreases |actions|
  {
    if actions != [] {
      StepKeepsInv(s, actions[0], senderWindow, receiverWindow, plan);
      InvHolds(Step(s, actions[0]), actions[1..], senderWindow, receiverWindow, plan);
    }
  }

  lemma InitHolds(senderWindow: nat, receiverWindow: nat, plan: seq<bool>)
    ensures Inv(Init(senderWindow, receiverWindow, plan), senderWindow, receiverWindow, plan)
  {
    var init := Init(senderWindow, receiverWindow, plan);
    assert Ahead(init) == plan && plan[..0] == [];
    assert plan[|plan| - |Ahead(init)|..] == plan;
  }

  /** Credit conservation, over every run: the sender's window is always what it
      has available, the chunk in hand, the chunks and grants in flight, what
      the receiver is charged for, and what was refused. */
  lemma CreditConservation(senderWindow: nat, receiverWindow: nat, plan: seq<bool>, s: State)
    requires Reachable(Init(senderWindow, receiverWindow, plan), s)
    ensures Inv(s, senderWindow, receiverWindow, plan)
  {
    var init := Init(senderWindow, receiverWindow, plan);
    var actions :| Exec(init, actions) == Some(s);
    InitHolds(senderWindow, receiverWindow, plan);
    InvHolds(init, actions, senderWindow, receiverWindow, plan);
  }

  // Violations

  /** The most the receiver can be charged for once the first `k` chunks of the
      plan arrived. */
  function Load(plan: seq<bool>, k: nat): nat
    requires k <= |plan|
  {
    Completing(plan[..k]) + Bit(StopsMidItem(plan[..k]))
  }

  lemma LoadStep(plan: seq<bool>, k: nat)
    requires k < |plan|
    ensures plan[..k + 1][..k] == plan[..k]
    ensures Load(plan, k + 1) == Load(plan, k) + Bit(!StopsMidItem(plan[..k]))
  {
    assert plan[..k + 1][..k] == plan[..k];
  }

  /** The state an idle handler leaves after `k` chunks. */
  function Unconsumed(senderWindow: nat, receiverWindow: nat, plan: seq<bool>, k: nat): State
    requires k <= |plan| && Load(plan, k) <= senderWindow && Load(plan, k) <= receiverWindow
  {
    Init(senderWindow, receiverWindow, plan).(
      gate := Gate(senderWindow - Load(plan, k), None),
      toSend := plan[k..],
      window := WindowOpened(receiverWindow).(remaining := receiverWindow - Load(plan, k)),
      midItem := StopsMidItem(plan[..k]),
      items := Completing(plan[..k]))
  }

  lemma SentUnconsumed(senderWindow: nat, receiverWindow: nat, plan: seq<bool>, k: nat)
    requires k < |plan| && Load(plan, k) < receiverWindow < senderWindow && Load(plan, k + 1) <= receiverWindow
    ensures var s := Unconsumed(senderWindow, receiverWindow, plan, k);
            Unconsumed(senderWindow, receiverWindow, plan, k + 1) ==
              if s.midItem then Step(Sent(s), DeliverCredit(0)) else Sent(s)
  {
    LoadStep(plan, k);
    var s := Unconsumed(senderWindow, receiverWindow, plan, k);
    assert s.toSend[0] == plan[k] && s.toSend[1..] == plan[k + 1..];
    assert plan[..k + 1][k] == plan[k];
    if s.midItem {
      assert Sent(s).credits == [1];
    }
  }

  lemma {:induction false} ReachUnconsumed(senderWindow: nat, receiverWindow: nat, plan: seq<bool>, k: nat)
    requires k <= |plan| && receiverWindow < senderWindow
    requires forall j :: 0 <= j < k ==> Load(plan, j) < receiverWindow
    ensures Load(plan, k) <= receiverWindow
    ensures Reachable(Init(senderWindow, receiverWindow, plan), Unconsumed(senderWindow, receiverWindow, plan, k))
  {
    var init := Init(senderWindow, receiverWindow, plan);
    if k == 0 {
      assert plan[..0] == [] && plan[0..] == plan;
      ReachInit(init);
    } else {
      ReachUnconsumed(senderWindow, receiverWindow, plan, k - 1);
      LoadStep(plan, k - 1);
      var s0 := Unconsumed(senderWindow, receiverWindow, plan, k - 1);
      assert s0.toSend[0] == plan[k - 1] && s0.toSend[1..] == plan[k..];
      ReachSent(init, s0);
      if s0.midItem {
        ReachStep(init, Sent(s0), DeliverCredit(0));
      }
      SentUnconsumed(senderWindow, receiverWindow, plan, k - 1);
    }
  }

  lemma {:induction false} LoadReaches(plan: seq<bool>, k: nat, level: nat) returns (j: nat)
    requires k <= |plan| && level <= Load(plan, k)
    ensures j <= k && Load(plan, j) == level
    ensures forall i :: 0 <= i < j ==> Load(plan, i) < level
  {
    j := 0;
    assert plan[..0] == [];
    while Load(plan, j) < level
      invariant j <= k && Load(plan, j) <= level
      invariant forall i :: 0 <= i < j ==> Load(plan, i) < level
      decreases k - j
    {
      LoadStep(plan, j);
      j := j + 1;
    }
  }

  /** The sender's window is larger than the receiver's, and what it has to send
      before its last chunk fills the receiver's. */
  predicate CanOverrun(senderWindow: nat, receiverWindow: nat, plan: seq<bool>) {
    senderWindow > receiverWindow && plan != [] && Load(plan, |plan| - 1) >= receiverWindow
  }

  /** Exactly when some schedule of the threads ends in a CREDIT_VIOLATION by a
      sender that acquires before every chunk. */
  lemma ViolationReachableIff(senderWindow: nat, receiverWindow: nat, plan: seq<bool>)
    ensures (exists s :: Reachable(Init(senderWindow, receiverWindow, plan), s) && s.refused > 0)
       <==> CanOverrun(senderWindow, receiverWindow, plan)
  {
    var init := Init(senderWindow, receiverWindow, plan);
    if s :| Reachable(init, s) && s.refused > 0 {
      var actions :| Exec(init, actions) == Some(s);
      FirstRefusal(init, actions, senderWindow, receiverWindow, plan);
    }
    if CanOverrun(senderWindow, receiverWindow, plan) {
      ReachViolation(senderWindow, receiverWindow, plan);
    }
  }

  lemma ReachViolation(senderWindow: nat, receiverWindow: nat, plan: seq<bool>)
    requires CanOverrun(senderWindow, receiverWindow, plan)
    ensures exists s :: Reachable(Init(senderWindow, receiverWindow, plan), s) && s.refused > 0
  {
    var init := Init(senderWindow, receiverWindow, plan);
    var k := LoadReaches(plan, |plan| - 1, receiverWindow);
    ReachUnconsumed(senderWindow, receiverWindow, plan, k);
    var s0 := Unconsumed(senderWindow, receiverWindow, plan, k);
    ReachSent(init, s0);
    assert Sent(s0).refused > 0;
  }

  /** Whatever windows the two ends propose, a sender that starts with the negotiated
      one never overruns a receiver that starts with it, or with its own proposal:
      for every stream and every schedule. It is the largest such window. */
  lemma NegotiatedIsSafe(ours: nat, theirs: nat, receiverWindow: nat, plan: seq<bool>, s: State)
    requires Negotiate(ours, theirs).Some?
    requires receiverWindow in {ours, theirs, Negotiate(ours, theirs).value}
    requires Reachable(Init(Negotiate(ours, theirs).value, receiverWindow, plan), s)
    ensures s.refused == 0
  {
    ViolationReachableIff(Negotiate(ours, theirs).value, receiverWindow, plan);
  }

  lemma {:induction false} AllSingles(n: nat, k: nat)
    requires k <= n
    ensures Load(Singles(n), k) == k
  {
    if k > 0 {
      LoadStep(Singles(n), k - 1);
      AllSingles(n, k - 1);
      assert k - 1 > 0 ==> Singles(n)[..k - 1][k - 2];
    } else {
      assert Singles(n)[..0] == [];
    }
  }

  /** Chunks that each complete an item. */
  function Singles(n: nat): seq<bool> {
    seq(n, i => true)
  }

  /** A larger one overruns the smaller proposal on some stream. */
  lemma LargerIsNot(ours: nat, theirs: nat, window: nat)
    requires Negotiate(ours, theirs).Some? && window > Negotiate(ours, theirs).value
    ensures var least := Negotiate(ours, theirs).value;
            exists plan, s :: Reachable(Init(window, least, plan), s) && s.refused > 0
  {
    var least := Negotiate(ours, theirs).value;
    var plan := Singles(least + 1);
    AllSingles(least + 1, least);
    ViolationReachableIff(window, least, plan);
  }

  lemma {:induction false} LoadMonotone(plan: seq<bool>, j: nat, k: nat)
    requires j <= k <= |plan|
    ensures Load(plan, j) <= Load(plan, k)
    decreases k
  {
    if j < k {
      LoadStep(plan, k - 1);
      LoadMonotone(plan, j, k - 1);
    }
  }

  /** The step that refuses first: the demux finds the receiver's window used up. */
  lemma RefusingStep(s: State, a: Action)
    requires Enabled(s, a) && s.refused == 0 && Step(s, a).refused > 0
    ensures a == DemuxChunk && s.window.remaining == 0 && s.chunks != []
  {
  }

  /** Its window is used up by what it has been charged for, and a chunk is on its
      way. */
  lemma RefusedFull(s: State, senderWindow: nat, receiverWindow: nat, plan: seq<bool>)
    requires Inv(s, senderWindow, receiverWindow, plan) && s.refused == 0
    requires s.window.remaining == 0 && s.chunks != []
    ensures CanOverrun(senderWindow, receiverWindow, plan)
  {
    var k := |plan| - |Ahead(s)|;
    assert |Ahead(s)| > 0 && k <= |plan| - 1;
    assert Charged(s) == receiverWindow;
    assert Charged(s) <= Load(plan, k);
    LoadMonotone(plan, k, |plan| - 1);
  }

  lemma {:induction false} FirstRefusal(init: State, actions: seq<Action>, senderWindow: nat, receiverWindow: nat, plan: seq<bool>)
    requires init == Init(senderWindow, receiverWindow, plan)
    requires Exec(init, actions).Some? && Exec(init, actions).value.refused > 0
    ensures CanOverrun(senderWindow, receiverWindow, plan)
    decreases |actions|
  {
    var n := |actions| - 1;
    ExecPrefix(init, actions, n);
    var s := Exec(init, actions[..n]).value;
    if s.refused > 0 {
      FirstRefusal(init, actions[..n], senderWindow, receiverWindow, plan);
    } else {
      RefusingStep(s, actions[n]);
      assert Reachable(init, s);
      CreditConservation(senderWindow, receiverWindow, plan, s);
      RefusedFull(s, senderWindow, receiverWindow, plan);
    }
  }

  lemma {:induction false} ExecPrefix(s: State, actions: seq<Action>, n: nat)
    requires Exec(s, actions).Some? && n == |actions| - 1
    ensures Exec(s, actions[..n]).Some? && Enabled(Exec(s, actions[..n]).value, actions[n])
    ensures Exec(s, actions) == Some(Step(Exec(s, actions[..n]).value, actions[n]))
    decreases |actions|
  {
    if n == 0 {
      assert actions == [actions[0]] && actions[..0] == [];
      assert Exec(Step(s, actions[0]), actions[1..]) == Some(Step(s, actions[0]));
    } else {
      ExecPrefix(Step(s, actions[0]), actions[1..], n - 1);
      assert actions[1..][..n - 1] == actions[..n][1..];
      assert actions[..n][0] == actions[0];
    }
  }

  // Progress

  /** No thread can move and nothing is in flight. */
  ghost predicate Quiescent(s: State) {
    forall a :: !Enabled(s, a)
  }

  /** The sender waits for credit that nobody will ever send. */
  ghost predicate Deadlocked(s: State) {
    Quiescent(s) && s.toSend != []
  }

  /** Some item of the plan goes on after one of its chunks. */
  predicate HasContinuation(plan: seq<bool>) {
    exists i :: 0 <= i < |plan| - 1 && !plan[i]
  }

  lemma QuiescentMeans(s: State)
    requires Quiescent(s)
    ensures s.inHand == [] && s.chunks == [] && s.credits == [] && s.items == 0 && s.pc == Blocked
    ensures s.toSend == [] || !Acquire(s.gate, 1).Acquired?
  {
    assert !Enabled(s, SenderAcquire) && !Enabled(s, SenderWrite) && !Enabled(s, DemuxChunk);
    assert !Enabled(s, DeliverCredit(0)) && !Enabled(s, HandlerTake) && !Enabled(s, HandlerAccount);
    assert !Enabled(s, HandlerSeesEmpty) && !Enabled(s, HandlerFlush);
  }

  function PcWeight(pc: HandlerPc): nat {
    match pc case Holding => 6 case Running => 2 case FoundEmpty => 1 case Blocked => 0
  }

  /** An upper bound on the steps left. */
  function Fuel(s: State): nat {
    11 * |s.toSend| + 10 * |s.inHand| + 9 * |s.chunks| + 7 * s.items + PcWeight(s.pc) + s.window.pending + |s.credits|
  }

  lemma StepBurnsFuel(s: State, a: Action)
    requires Enabled(s, a) && |s.inHand| <= 1
    ensures Fuel(Step(s, a)) < Fuel(s) && |Step(s, a).inHand| <= 1
  {
  }

  lemma {:induction false} RunsAreBounded(s: State, actions: seq<Action>)
    requires Exec(s, actions).Some? && |s.inHand| <= 1
    ensures |actions| <= Fuel(s)
    decreases |actions|
  {
    if actions != [] {
      StepBurnsFuel(s, actions[0]);
      RunsAreBounded(Step(s, actions[0]), actions[1..]);
    }
  }

  /** The windows and plans the protocol gets through. */
  predicate Flows(senderWindow: nat, plan: seq<bool>) {
    plan == [] || senderWindow >= 2 || (senderWindow == 1 && !HasContinuation(plan))
  }

  lemma StuckNeedsContinuation(s: State, senderWindow: nat, receiverWindow: nat, plan: seq<bool>)
    requires Inv(s, senderWindow, receiverWindow, plan) && s.refused == 0
    requires Quiescent(s) && s.toSend != []
    ensures senderWindow == 0 || (senderWindow == 1 && HasContinuation(plan))
  {
    QuiescentMeans(s);
    assert s.gate.available == 0 && Sum(s.credits) == 0;
    var k := |plan| - |Ahead(s)|;
    if s.midItem {
      assert plan[..k][k - 1] == plan[k - 1];
    }
  }

  /** Delivery without any fairness assumption: every schedule is finite, and
      one that cannot be continued has sent the whole plan, delivered every item
      of it, and holds back no credit but that of an item cut short. */
  lemma EveryScheduleDelivers(senderWindow: nat, receiverWindow: nat, plan: seq<bool>, actions: seq<Action>)
    requires !CanOverrun(senderWindow, receiverWindow, plan) && Flows(senderWindow, plan)
    requires Exec(Init(senderWindow, receiverWindow, plan), actions).Some?
    ensures |actions| <= 11 * |plan| + 2
    ensures var s := Exec(Init(senderWindow, receiverWindow, plan), actions).value;
            Quiescent(s) ==>
              && s.toSend == [] && s.refused == 0 && s.consumed == Completing(plan)
              && s.gate.available + Bit(StopsMidItem(plan)) == senderWindow
  {
    var init := Init(senderWindow, receiverWindow, plan);
    RunsAreBounded(init, actions);
    var s := Exec(init, actions).value;
    assert Reachable(init, s);
    CreditConservation(senderWindow, receiverWindow, plan, s);
    if Quiescent(s) {
      QuiescentMeans(s);
      ViolationReachableIff(senderWindow, receiverWindow, plan);
      assert Sum(s.credits) == 0;
      var k := |plan| - |Ahead(s)|;
      assert Ahead(s) == s.toSend;
      if s.toSend != [] {
        StuckNeedsContinuation(s, senderWindow, receiverWindow, plan);
      }
      assert plan[..k] == plan;
    }
  }

  /** Exactly when the protocol cannot deadlock: every window of two or more, a
      window of one when no item goes on after a chunk, and a stream with
      nothing to send; as long as the sender cannot overrun the receiver. With a
      window of one, the first fragment of an item holds the only credit until the
      item is whole. */
  lemma DeadlockFreeIff(senderWindow: nat, receiverWindow: nat, plan: seq<bool>)
    requires !CanOverrun(senderWindow, receiverWindow, plan)
    ensures (forall s :: Reachable(Init(senderWindow, receiverWindow, plan), s) ==> !Deadlocked(s))
       <==> Flows(senderWindow, plan)
  {
    var init := Init(senderWindow, receiverWindow, plan);
    if Flows(senderWindow, plan) {
      forall s | Reachable(init, s) ensures !Deadlocked(s) {
        var actions :| Exec(init, actions) == Some(s);
        EveryScheduleDelivers(senderWindow, receiverWindow, plan, actions);
      }
    } else if senderWindow == 0 {
      ReachInit(init);
      ReachBlocked(init, init);
      assert Deadlocked(Idle(senderWindow, receiverWindow, plan, 0, 0)) by { assert plan[0..] == plan; }
      assert plan[..0] == [];
    } else {
      WindowOfOneStalls(receiverWindow, plan);
    }
  }

  /** A blocked handler with everything before chunk `k` consumed and granted. */
  function Idle(senderWindow: nat, receiverWindow: nat, plan: seq<bool>, k: nat, consumed: nat): State
    requires k <= |plan|
  {
    Init(senderWindow, receiverWindow, plan).(toSend := plan[k..], pc := Blocked, consumed := consumed)
  }

  lemma ReachBlocked(init: State, s: State)
    requires Reachable(init, s) && s.pc == Running && s.items == 0
    ensures Reachable(init, Step(Step(s, HandlerSeesEmpty), HandlerFlush))
  {
    ReachStep(init, s, HandlerSeesEmpty);
    ReachStep(init, Step(s, HandlerSeesEmpty), HandlerFlush);
  }

  lemma {:induction false} ReachIdle(receiverWindow: nat, plan: seq<bool>, k: nat)
    requires receiverWindow >= 1 && k <= |plan|
    requires forall i :: 0 <= i < k ==> plan[i]
    ensures Reachable(Init(1, receiverWindow, plan), Idle(1, receiverWindow, plan, k, k))
  {
    var init := Init(1, receiverWindow, plan);
    if k == 0 {
      ReachInit(init);
      ReachBlocked(init, init);
      assert plan[0..] == plan;
    } else {
      ReachIdle(receiverWindow, plan, k - 1);
      SendOneItem(init, receiverWindow, plan, k - 1);
      ConsumeOneItem(init, receiverWindow, plan, k);
    }
  }

  /** The state in which the one credit's chunk has become an item. */
  function Queued(receiverWindow: nat, plan: seq<bool>, k: nat): State
    requires 0 < k <= |plan| && receiverWindow >= 1
  {
    Idle(1, receiverWindow, plan, k, k - 1).(
      gate := Gate(0, None), items := 1, window := WindowOpened(receiverWindow).(remaining := receiverWindow - 1))
  }

  lemma SendOneItem(init: State, receiverWindow: nat, plan: seq<bool>, k: nat)
    requires receiverWindow >= 1 && k < |plan| && plan[k]
    requires Reachable(init, Idle(1, receiverWindow, plan, k, k))
    ensures Reachable(init, Queued(receiverWindow, plan, k + 1))
  {
    var s0 := Idle(1, receiverWindow, plan, k, k);
    assert s0.toSend[0] && s0.toSend[1..] == plan[k + 1..];
    ReachSent(init, s0);
    assert Sent(s0) == Queued(receiverWindow, plan, k + 1);
  }

  lemma ConsumeOneItem(init: State, receiverWindow: nat, plan: seq<bool>, k: nat)
    requires receiverWindow >= 1 && 0 < k <= |plan|
    requires Reachable(init, Queued(receiverWindow, plan, k))
    ensures Reachable(init, Idle(1, receiverWindow, plan, k, k))
  {
    var s0 := Queued(receiverWindow, plan, k);
    ReachStep(init, s0, HandlerTake);
    var s1 := Step(s0, HandlerTake);
    ReachStep(init, s1, HandlerAccount);
    var s2 := Step(s1, HandlerAccount);
    ReachBlocked(init, s2);
    var s3 := Step(Step(s2, HandlerSeesEmpty), HandlerFlush);
    assert s3 == Idle(1, receiverWindow, plan, k, k).(gate := Gate(0, None), credits := [1]);
    ReachStep(init, s3, DeliverCredit(0));
    assert Step(s3, DeliverCredit(0)) == Idle(1, receiverWindow, plan, k, k);
  }

  /** The stall of a one-chunk window: the sender waits with part of an item
      sent, both channels are empty and the handler is blocked. */
  lemma WindowOfOneStalls(receiverWindow: nat, plan: seq<bool>)
    requires receiverWindow >= 1 && HasContinuation(plan)
    ensures exists s :: Reachable(Init(1, receiverWindow, plan), s) && Deadlocked(s) && s.midItem
  {
    var k := 0;
    while plan[k]
      invariant k < |plan| - 1
      invariant forall i :: 0 <= i < k ==> plan[i]
      decreases |plan| - k
    {
      k := k + 1;
    }
    var init := Init(1, receiverWindow, plan);
    ReachIdle(receiverWindow, plan, k);
    var s0 := Idle(1, receiverWindow, plan, k, k);
    assert s0.toSend[0] == false && s0.toSend[1..] == plan[k + 1..];
    ReachSent(init, s0);
    assert Deadlocked(Sent(s0));
  }
}
