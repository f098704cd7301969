/**
 Credit-based per-stream flow control: the sender's gate and the receiver's
 window. The first half are the decisions on values; the classes keep the state
 each end replaces under its lock.
 */
module Credit {
  import opened Common

  /** The sender's window. `closed` holds the first reason it was closed for. */
  datatype Gate = Gate(available: nat, closed: Option<string>)

  datatype AcquireAnswer =
    | Acquired(gate: Gate)
    | Wait
    | Closed(reason: string)

  function GateOpened(window: nat): Gate {
    Gate(window, None)
  }

  function Acquire(g: Gate, n: nat): AcquireAnswer {
    if g.closed.Some? then Closed(g.closed.value)
    else if n <= g.available then Acquired(g.(available := g.available - n))
    else Wait
  }

  function Granted(g: Gate, n: nat): Gate {
    if g.closed.Some? then g else g.(available := g.available + n)
  }

  function Close(g: Gate, reason: string): Gate {
    if g.closed.Some? then g else g.(closed := Some(reason))
  }

  /** The receiver's window: what the sender may still send, what was consumed
      and not granted back, and how much of it makes a grant due. */
  datatype Window = Window(remaining: nat, pending: nat, batch: nat)

  datatype Arrival = Accepted(window: Window) | Violation

  datatype GrantStep = GrantStep(window: Window, grant: nat)

  function WindowOpened(window: nat): Window {
    Window(window, 0, Max(1, window / 2))
  }

  function Arrive(w: Window): Arrival {
    if w.remaining == 0 then Violation else Accepted(w.(remaining := w.remaining - 1))
  }

  function Flush(w: Window): GrantStep {
    GrantStep(w.(remaining := w.remaining + w.pending, pending := 0), w.pending)
  }

  function Consume(w: Window): GrantStep {
    var w' := w.(pending := w.pending + 1);
    if w'.pending < w.batch then GrantStep(w', 0) else Flush(w')
  }

  function Continued(w: Window): GrantStep {
    GrantStep(w.(remaining := w.remaining + 1), 1)
  }

  /** The window two ends start every stream with: the smaller proposal, and
      none at all when nothing could ever be sent. */
  function Negotiate(ours: nat, theirs: nat): Option<nat> {
    var window := Min(ours, theirs);
    if window == 0 then None else Some(window)
  }

  /** Which of a request's registered streams a grant is for: the one it names,
      or, naming none, the only one there is. */
  function GrantTarget(streams: set<Option<string>>, named: Option<string>): Option<Option<string>> {
    if named in streams then Some(named)
    else if named == None && |streams| == 1 then
      Some(TheOnly(streams))
    else None
  }

  function TheOnly<T(==)>(s: set<T>): (x: T)
    requires |s| == 1
    ensures s == {x}
  {
    SingletonHasOne(s);
    var x :| x in s && s == {x};
    x
  }

  lemma SingletonHasOne<T>(s: set<T>)
    requires |s| == 1
    ensures exists x :: x in s && s == {x}
    ensures forall x, y :: x in s && y in s ==> x == y
  {
    var x :| x in s;
    var rest := s - {x};
    assert |rest| == 0;
    assert s == rest + {x} == {x};
  }

  // Laws

  /** What is done to a gate: credits acquired, granted, and the gate closed. */
  datatype GateOp = Take(n: nat) | Give(n: nat) | Shut(reason: string)

  /** What whoever does it is answered. */
  datatype Reply = Took | Waits | Raises(reason: string) | NoReply

  function Operate(g: Gate, op: GateOp): (Gate, Reply) {
    match op
    case Take(n) => (
      match Acquire(g, n)
      case Acquired(g') => (g', Took)
      case Wait => (g, Waits)
      case Closed(reason) => (g, Raises(reason)))
    case Give(n) => (Granted(g, n), NoReply)
    case Shut(reason) => (Close(g, reason), NoReply)
  }

  function Operated(g: Gate, ops: seq<GateOp>): (Gate, seq<Reply>) {
    if ops == [] then (g, [])
    else
      var (before, replies) := Operated(g, ops[..|ops| - 1]);
      var (after, reply) := Operate(before, ops[|ops| - 1]);
      (after, replies + [reply])
  }

  /** What the first close gave as its reason. */
  function FirstReason(ops: seq<GateOp>): Option<string> {
    if ops == [] then None
    else
      var before, last := FirstReason(ops[..|ops| - 1]), ops[|ops| - 1];
      if before == None && last.Shut? then Some(last.reason) else before
  }

  function Given(ops: seq<GateOp>): nat {
    if ops == [] then 0
    else Given(ops[..|ops| - 1]) + if ops[|ops| - 1].Give? then ops[|ops| - 1].n else 0
  }

  /** What was taken by the acquires that were let through. */
  function Taken(ops: seq<GateOp>, replies: seq<Reply>): nat
    requires |ops| == |replies|
  {
    if ops == [] then 0
    else
      var last := |ops| - 1;
      Taken(ops[..last], replies[..last]) + if ops[last].Take? && replies[last] == Took then ops[last].n else 0
  }

  lemma {:induction false} RepliesAll(g: Gate, ops: seq<GateOp>)
    ensures |Operated(g, ops).1| == |ops|
  {
    if ops != [] {
      RepliesAll(g, ops[..|ops| - 1]);
    }
  }

  /** Over any acquires, grants and closes of a gate opened with `window` credits: it
      is closed for the first reason it was closed for, and while it is not, what
      was taken and what is left is the window and what was granted. */
  lemma {:induction false} GateBalances(window: nat, ops: seq<GateOp>)
    ensures var (g, replies) := Operated(GateOpened(window), ops);
            && |replies| == |ops| && g.closed == FirstReason(ops)
            && (FirstReason(ops) == None ==> g.available + Taken(ops, replies) == window + Given(ops))
  {
    RepliesAll(GateOpened(window), ops);
    if ops != [] {
      var front := ops[..|ops| - 1];
      GateBalances(window, front);
      var (g, replies) := Operated(GateOpened(window), ops);
      assert replies[..|ops| - 1] == Operated(GateOpened(window), front).1;
    }
  }

  /** What an acquire is answered, after whatever was done before: the first close's
      reason once there was one; until then it is let through exactly when it wants
      no more than the window and what was granted, without what was taken. */
  lemma AcquireAnswers(window: nat, ops: seq<GateOp>, n: nat)
    ensures var (g, replies) := Operated(GateOpened(window), ops);
            && |replies| == |ops|
            && (FirstReason(ops).Some? ==> Operate(g, Take(n)) == (g, Raises(FirstReason(ops).value)))
            && (FirstReason(ops) == None ==>
                  && Taken(ops, replies) <= window + Given(ops)
                  && Operate(g, Take(n)).1 == if n <= window + Given(ops) - Taken(ops, replies) then Took else Waits)
  {
    GateBalances(window, ops);
  }

  /** Nothing that is done to a closed gate changes it. */
  lemma ClosedForGood(g: Gate, op: GateOp)
    requires g.closed.Some?
    ensures Operate(g, op) == (g, if op.Take? then Raises(g.closed.value) else NoReply)
  {
  }

  /** A window after `k` items were consumed from it, and what was granted for them. */
  function Consumes(w: Window, k: nat): (Window, seq<nat>)
    decreases k
  {
    if k == 0 then (w, [])
    else
      var (before, grants) := Consumes(w, k - 1);
      var step := Consume(before);
      (step.window, grants + [step.grant])
  }

  /** Grants are held back until half the window can be granted at once: of `k` items
      consumed every `batch`-th brings a grant, of the whole batch, and no other one
      any; and what was consumed since the last grant is pending. */
  lemma {:induction false} GrantsAreBatched(window: nat, k: nat)
    ensures var (w, grants) := Consumes(WindowOpened(window), k);
            var batch := Max(1, window / 2);
            && w.batch == batch && |grants| == k && w.pending == k % batch
            && (forall i :: 0 <= i < k ==> grants[i] == if (i + 1) % batch == 0 then batch else 0)
            && w.remaining + w.pending == window + k
    decreases k
  {
    if k > 0 {
      GrantsAreBatched(window, k - 1);
      NextRemainder(k - 1, Max(1, window / 2));
    }
  }

  lemma NextRemainder(k: nat, batch: nat)
    requires batch >= 1
    ensures (k + 1) % batch == if k % batch + 1 == batch then 0 else k % batch + 1
  {
    var q, r := k / batch, k % batch;
    assert k + 1 == q * batch + (r + 1);
    if r + 1 == batch {
      assert k + 1 == (q + 1) * batch;
      DivisionIs(k + 1, batch, q + 1, 0);
    } else {
      DivisionIs(k + 1, batch, q, r + 1);
    }
  }

  /** The negotiated window is one of the two proposals, no larger than either, and
      lets something be sent; there is none exactly when one end proposes none. */
  lemma NegotiateIff(ours: nat, theirs: nat)
    ensures Negotiate(ours, theirs) == None <==> ours == 0 || theirs == 0
    ensures Negotiate(ours, theirs).Some? ==>
              var w := Negotiate(ours, theirs).value; w in {ours, theirs} && 0 < w <= ours && w <= theirs
  {
  }

  /** Which stream a grant is for: the one it names, if that is registered; or the
      only one there is, if it names none. For no other. */
  lemma GrantTargetIff(streams: set<Option<string>>, named: Option<string>, stream: Option<string>)
    ensures GrantTarget(streams, named) == Some(stream)
       <==> (stream == named && named in streams) || (named == None && None !in streams && streams == {stream})
  {
    if named == None && None !in streams && streams == {stream} {
      assert TheOnly(streams) in streams;
    }
  }

  // The objects

  class CreditGate {
    var state: Gate

    constructor (initialCredit: nat)
      ensures state == GateOpened(initialCredit)
    {
      state := GateOpened(initialCredit);
    }

    /** One attempt under the lock: an acquire that blocks is this attempt made
        again after every grant or close. */
    method TryAcquire(n: nat) returns (r: Result<bool, string>)
      modifies this
      ensures r == if old(state).closed.Some? then Err(old(state).closed.value) else Ok(n <= old(state).available)
      ensures state == if r == Ok(true) then old(state).(available := old(state).available - n) else old(state)
    {
      var answer := Acquire(state, n);
      match answer
      case Acquired(gate) =>
        state := gate;
        r := Ok(true);
      case Wait =>
        r := Ok(false);
      case Closed(reason) =>
        r := Err(reason);
    }

    method Grant(n: nat)
      modifies this
      ensures state == Granted(old(state), n)
    {
      state := Granted(state, n);
    }

    method CloseFor(reason: string)
      modifies this
      ensures state == Close(old(state), reason)
    {
      state := Close(state, reason);
    }
  }

  class CreditWindow {
    var state: Window

    constructor (initialCredit: nat)
      ensures state == WindowOpened(initialCredit)
    {
      state := WindowOpened(initialCredit);
    }

    method ArriveOne() returns (ok: bool)
      modifies this
      ensures ok <==> old(state).remaining > 0
      ensures state == if ok then Arrive(old(state)).window else old(state)
    {
      match Arrive(state)
      case Accepted(w) =>
        state := w;
        ok := true;
      case Violation =>
        ok := false;
    }

    method Consumed() returns (grant: nat)
      modifies this
      ensures GrantStep(state, grant) == Consume(old(state))
    {
      var step := Consume(state);
      state := step.window;
      grant := step.grant;
    }

    method FlushPending() returns (grant: nat)
      modifies this
      ensures GrantStep(state, grant) == Flush(old(state))
    {
      var step := Flush(state);
      state := step.window;
      grant := step.grant;
    }

    method ContinuedOne() returns (grant: nat)
      modifies this
      ensures GrantStep(state, grant) == Continued(old(state))
    {
      var step := Continued(state);
      state := step.window;
      grant := step.grant;
    }
  }

  /** (request id, stream id) of a registered gate. */
  type GateKey = (string, Option<string>)

  class CreditRouter {
    var gates: map<GateKey, CreditGate>

    constructor ()
      ensures gates == map[]
    {
      gates := map[];
    }

    ghost predicate Valid()
      reads this
    {
      forall k, k' :: k in gates && k' in gates && gates[k] == gates[k'] ==> k == k'
    }

    function StreamsOf(rid: string): set<Option<string>>
      reads this
    {
      set k | k in gates && k.0 == rid :: k.1
    }

    method Register(rid: string, streamId: Option<string>, gate: CreditGate)
      requires Valid()
      requires forall k :: k in gates ==> gates[k] != gate
      modifies this
      ensures Valid()
      ensures gates == old(gates)[(rid, streamId) := gate]
    {
      gates := gates[(rid, streamId) := gate];
    }

    /** Every gate of the request is closed and forgotten, and no other gate is
        touched: a sender blocked on the request's credit is released. */
    method CloseRequest(rid: string, reason: string)
      requires Valid()
      modifies this, gates.Values
      ensures Valid()
      ensures gates == old(gates) - old(KeysOf(rid))
      ensures forall k :: k in old(gates) ==>
        old(gates)[k].state == if k.0 == rid then Close(old(gates[k].state), reason) else old(gates[k].state)
    {
      var keys := KeysOf(rid);
      ghost var todo := keys;
      while keys != {}
        invariant keys <= todo && gates == old(gates) - (todo - keys)
        invariant forall k :: k in old(gates) ==>
          old(gates)[k].state ==
            if k in todo && k !in keys then Close(old(gates[k].state), reason) else old(gates[k].state)
        decreases keys
      {
        var key :| key in keys;
        MinusTwice(old(gates), todo - keys, {key});
        assert (todo - keys) + {key} == todo - (keys - {key});
        var gate := gates[key];
        gates := gates - {key};
        gate.CloseFor(reason);
        keys := keys - {key};
      }
    }

    function KeysOf(rid: string): set<GateKey>
      reads this
    {
      set k | k in gates && k.0 == rid
    }

    /** A CREDIT frame reaches the gate it is for and no other; `false` leaves
        every gate as it was. */
    method GrantFrame(rid: string, named: Option<string>, credits: nat) returns (found: bool)
      requires Valid()
      modifies gates.Values
      ensures found <==> GrantTarget(StreamsOf(rid), named).Some?
      ensures forall k :: k in gates ==>
        gates[k].state ==
          if found && k == (rid, GrantTarget(StreamsOf(rid), named).value)
          then Granted(old(gates[k].state), credits) else old(gates[k].state)
    {
      var target := GrantTarget(StreamsOf(rid), named);
      if target.None? {
        return false;
      }
      GrantTargetIff(StreamsOf(rid), named, target.value);
      gates[(rid, target.value)].Grant(credits);
      found := true;
    }
  }
}
