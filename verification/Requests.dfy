/**
 How a request ends. The main loop, the handlers' threads and whoever admits
 from the line interleave; each lock-protected block is one step. A request's
 terminal frame is END or an ERR, from its handler or from a cancel.
 */
module Requests {
  import opened Common

  datatype Claim = Unclaimed | ByHandler | ByCancel

  /** Who ends a request: the first to claim it. */
  class TerminalClaim {
    var state: Claim

    constructor ()
      ensures state == Unclaimed
    {
      state := Unclaimed;
    }

    method ClaimAs(who: Claim) returns (won: bool)
      requires who != Unclaimed
      modifies this
      ensures won <==> old(state) == Unclaimed
      ensures state == if won then who else old(state)
    {
      if state != Unclaimed {
        return false;
      }
      state := who;
      won := true;
    }

    method ForHandler() returns (won: bool)
      modifies this
      ensures won <==> old(state) == Unclaimed
      ensures state == (if won then ByHandler else old(state)) == ClaimedFor(old(state), ByHandler)
    {
      won := ClaimAs(ByHandler);
    }

    method ForCancel() returns (won: bool)
      modifies this
      ensures won <==> old(state) == Unclaimed
      ensures state == (if won then ByCancel else old(state)) == ClaimedFor(old(state), ByCancel)
    {
      won := ClaimAs(ByCancel);
    }
  }

  function ClaimedFor(c: Claim, who: Claim): Claim {
    if c == Unclaimed then who else c
  }

  type Rid = nat

  /** Where a request's handler thread is. `Spawning`: out of line, its slots
      taken, and not yet in the table a cancel looks in. */
  datatype Pc =
    | Spawning
    | Deriving              // the outputs from the cap's definition
    | Working               // the op
    | Returned
    | Failed
    | WritingEnd
    | WritingErr
    | Leaving               // about to leave the table
    | WritingCancelErr
    | Gone

  datatype Main = Idle | AnsweringQueued(rid: Rid) | LookingFor(rid: Rid)

  datatype Terminal = End | HandlerErr | CancelErr | QueuedErr

  datatype Attempt = Attempt(rid: Rid, terminal: Terminal)

  /** Every request that ever arrived, and those in line. */
  datatype Arrivals = Arrivals(seen: set<Rid>, line: set<Rid>)

  datatype Handlers = Handlers(pcs: map<Rid, Pc>)

  /** `running` maps a request in the table to whether a cancel ended it; its
      claim outlives its entry. */
  datatype Table = Table(running: map<Rid, bool>, claims: map<Rid, Claim>)

  /** Every terminal handed to the writer, written or not. */
  datatype Log = Log(attempts: seq<Attempt>)

  datatype State = State(arrivals: Arrivals, handlers: Handlers, table: Table, main: Main, log: Log)

  const START := State(Arrivals({}, {}), Handlers(map[]), Table(map[], map[]), Idle, Log([]))

  /** `ok`: what the environment makes of it: a derivation, the op, a write. */
  datatype Step =
    | Arrives(rid: Rid, admitted: bool)
    | Admits(rid: Rid)
    | Runs(rid: Rid, ok: bool)
    | CancelArrives(rid: Rid)
    | MainGoes

  function Register(s: State, rid: Rid): State {
    At(s, rid, Deriving).(table := Table(s.table.running[rid := false], s.table.claims[rid := Unclaimed]))
  }

  function At(s: State, rid: Rid, pc: Pc): State {
    s.(handlers := Handlers(s.handlers.pcs[rid := pc]))
  }

  function Try(s: State, rid: Rid, terminal: Terminal): State {
    s.(log := Log(s.log.attempts + [Attempt(rid, terminal)]))
  }

  /** The handler claims the request: on to `won`, or on to leaving. */
  function HandlerClaims(s: State, rid: Rid, won: Pc): State {
    if rid in s.table.claims && s.table.claims[rid] == Unclaimed
    then At(s, rid, won).(table := Table(s.table.running, s.table.claims[rid := ByHandler]))
    else At(s, rid, Leaving)
  }

  function RunThread(s: State, rid: Rid, ok: bool): State {
    if rid !in s.handlers.pcs then s
    else
      match s.handlers.pcs[rid]
      case Spawning => Register(s, rid)
      case Deriving => At(s, rid, if ok then Working else Failed)
      case Working => At(s, rid, if ok then Returned else Failed)
      case Returned => HandlerClaims(s, rid, WritingEnd)
      case Failed => HandlerClaims(s, rid, WritingErr)
      case WritingEnd => At(Try(s, rid, End), rid, if ok then Leaving else Failed)
      case WritingErr => At(Try(s, rid, HandlerErr), rid, Leaving)
      case Leaving =>
        At(s.(table := Table(s.table.running - {rid}, s.table.claims)), rid,
           if rid in s.table.running && s.table.running[rid] then WritingCancelErr else Gone)
      case WritingCancelErr => At(Try(s, rid, CancelErr), rid, Gone)
      case Gone => s
  }

  /** The main loop takes one frame at a time. A request id is used once. */
  function Next(s: State, step: Step): State {
    match step
    case Arrives(rid, admitted) =>
      if s.main != Idle || rid in s.arrivals.seen then s
      else
        var seen := s.arrivals.seen + {rid};
        if admitted then Register(s.(arrivals := Arrivals(seen, s.arrivals.line)), rid)
        else s.(arrivals := Arrivals(seen, s.arrivals.line + {rid}))
    case Admits(rid) =>
      if rid in s.arrivals.line then At(OutOfLine(s, rid), rid, Spawning) else s
    case Runs(rid, ok) => RunThread(s, rid, ok)
    case CancelArrives(rid) =>
      if s.main != Idle then s
      else if rid in s.arrivals.line then OutOfLine(s, rid).(main := AnsweringQueued(rid))
      else s.(main := LookingFor(rid))
    case MainGoes =>
      match s.main
      case Idle => s
      case AnsweringQueued(rid) => Try(s, rid, QueuedErr).(main := Idle)
      case LookingFor(rid) => CancelClaims(s, rid).(main := Idle)
  }

  function OutOfLine(s: State, rid: Rid): State {
    s.(arrivals := Arrivals(s.arrivals.seen, s.arrivals.line - {rid}))
  }

  /** A cancel ends a request that is in the table and that nobody has claimed. */
  function CancelClaims(s: State, rid: Rid): State {
    if rid in s.table.running && rid in s.table.claims && s.table.claims[rid] == Unclaimed
    then s.(table := Table(s.table.running[rid := true], s.table.claims[rid := ByCancel]))
    else s
  }

  function Run(steps: seq<Step>): State {
    if steps == [] then START else Next(Run(steps[..|steps| - 1]), steps[|steps| - 1])
  }

  /** The terminals attempted for one request, in order. */
  function Of(attempts: seq<Attempt>, rid: Rid): seq<Terminal> {
    if attempts == [] then []
    else
      var last := attempts[|attempts| - 1];
      Of(attempts[..|attempts| - 1], rid) + if last.rid == rid then [last.terminal] else []
  }

  lemma OfSnoc(attempts: seq<Attempt>, a: Attempt, rid: Rid)
    ensures Of(attempts + [a], rid) == Of(attempts, rid) + if a.rid == rid then [a.terminal] else []
  {
    assert (attempts + [a])[..|attempts|] == attempts;
  }

  /** In the table, claimed by `claim`, having attempted `sent`. */
  predicate Registered(s: State, rid: Rid, claims: set<Claim>, sent: seq<Terminal>) {
    && rid in s.table.running && rid in s.table.claims && s.table.claims[rid] in claims
    && (s.table.running[rid] <==> s.table.claims[rid] == ByCancel)
    && Of(s.log.attempts, rid) == sent
  }

  predicate Decided(claim: Claim, sent: seq<Terminal>) {
    (claim == ByHandler && (sent == [End] || sent == [HandlerErr])) || (claim == ByCancel && sent == [CancelErr])
  }

  predicate ThreadHolds(s: State, rid: Rid, pc: Pc) {
    match pc
    case Spawning => rid !in s.table.running && Of(s.log.attempts, rid) == []
    case Deriving => Registered(s, rid, {Unclaimed, ByCancel}, [])
    case Working => Registered(s, rid, {Unclaimed, ByCancel}, [])
    case Returned => Registered(s, rid, {Unclaimed, ByCancel}, [])
    case Failed => Registered(s, rid, {Unclaimed, ByCancel}, []) || Registered(s, rid, {ByHandler}, [End])
    case WritingEnd => Registered(s, rid, {ByHandler}, [])
    case WritingErr => Registered(s, rid, {ByHandler}, [])
    case Leaving =>
      || Registered(s, rid, {ByCancel}, [])
      || Registered(s, rid, {ByHandler}, [End]) || Registered(s, rid, {ByHandler}, [HandlerErr])
    case WritingCancelErr => rid !in s.table.running && rid in s.table.claims && s.table.claims[rid] == ByCancel && Of(s.log.attempts, rid) == []
    case Gone => rid !in s.table.running && rid in s.table.claims && Decided(s.table.claims[rid], Of(s.log.attempts, rid))
  }

  /** Everything about one request in a reachable state. */
  predicate Holds(s: State, rid: Rid) {
    && (s.main == AnsweringQueued(rid) ==> rid in s.arrivals.seen && rid !in s.arrivals.line && rid !in s.handlers.pcs)
    && if rid in s.handlers.pcs then rid in s.arrivals.seen && rid !in s.arrivals.line && ThreadHolds(s, rid, s.handlers.pcs[rid])
       else
         && rid !in s.table.running
         && (rid in s.arrivals.line ==> rid in s.arrivals.seen)
         && Of(s.log.attempts, rid) == if rid in s.arrivals.seen && rid !in s.arrivals.line && s.main != AnsweringQueued(rid) then [QueuedErr] else []
  }

  /** Nothing of `rid` differs between `s` and `t`. */
  predicate Same(s: State, t: State, rid: Rid) {
    && (rid in s.arrivals.seen <==> rid in t.arrivals.seen) && (rid in s.arrivals.line <==> rid in t.arrivals.line)
    && (rid in s.handlers.pcs <==> rid in t.handlers.pcs) && (rid in s.handlers.pcs ==> s.handlers.pcs[rid] == t.handlers.pcs[rid])
    && (rid in s.table.running <==> rid in t.table.running) && (rid in s.table.running ==> s.table.running[rid] == t.table.running[rid])
    && (rid in s.table.claims <==> rid in t.table.claims) && (rid in s.table.claims ==> s.table.claims[rid] == t.table.claims[rid])
    && (s.main == AnsweringQueued(rid) <==> t.main == AnsweringQueued(rid))
    && Of(s.log.attempts, rid) == Of(t.log.attempts, rid)
  }

  /** The request a step is about. */
  function About(s: State, step: Step): Option<Rid> {
    match step
    case MainGoes => if s.main == Idle then None else Some(s.main.rid)
    case _ => Some(step.rid)
  }

  lemma OthersUntouched(s: State, step: Step, rid: Rid)
    requires About(s, step) != Some(rid)
    ensures Same(s, Next(s, step), rid)
  {
    if step.Runs? {
      OtherThread(s, step.rid, step.ok, rid);
    }
  }

  lemma OtherThread(s: State, r: Rid, ok: bool, rid: Rid)
    requires r != rid
    ensures Same(s, RunThread(s, r, ok), rid)
  {
    if r in s.handlers.pcs {
      match s.handlers.pcs[r]
      case WritingEnd => OfSnoc(s.log.attempts, Attempt(r, End), rid);
      case WritingErr => OfSnoc(s.log.attempts, Attempt(r, HandlerErr), rid);
      case WritingCancelErr => OfSnoc(s.log.attempts, Attempt(r, CancelErr), rid);
      case _ =>
    }
  }

  lemma ThreadKeeps(s: State, rid: Rid, ok: bool)
    requires Holds(s, rid)
    ensures Holds(RunThread(s, rid, ok), rid)
  {
    if rid in s.handlers.pcs {
      match s.handlers.pcs[rid]
      case WritingEnd => OfSnoc(s.log.attempts, Attempt(rid, End), rid);
      case WritingErr => OfSnoc(s.log.attempts, Attempt(rid, HandlerErr), rid);
      case WritingCancelErr => OfSnoc(s.log.attempts, Attempt(rid, CancelErr), rid);
      case _ =>
    }
  }

  lemma AdmissionKeeps(s: State, step: Step, rid: Rid)
    requires Holds(s, rid) && (step.Arrives? || step.Admits?) && step.rid == rid
    ensures Holds(Next(s, step), rid)
  {
  }

  lemma CancelKeeps(s: State, rid: Rid)
    requires Holds(s, rid)
    ensures Holds(Next(s, CancelArrives(rid)), rid)
  {
  }

  lemma MainKeeps(s: State, rid: Rid)
    requires Holds(s, rid) && s.main != Idle && s.main.rid == rid
    ensures Holds(Next(s, MainGoes), rid)
  {
    if s.main.AnsweringQueued? {
      OfSnoc(s.log.attempts, Attempt(rid, QueuedErr), rid);
    }
  }

  lemma NextHolds(s: State, step: Step, rid: Rid)
    requires Holds(s, rid)
    ensures Holds(Next(s, step), rid)
  {
    if About(s, step) != Some(rid) {
      OthersUntouched(s, step, rid);
    } else {
      match step
      case Runs(_, ok) => ThreadKeeps(s, rid, ok);
      case CancelArrives(_) => CancelKeeps(s, rid);
      case MainGoes => MainKeeps(s, rid);
      case _ => AdmissionKeeps(s, step, rid);
    }
  }

  lemma {:induction false} EveryRunHolds(steps: seq<Step>, rid: Rid)
    ensures Holds(Run(steps), rid)
  {
    if steps != [] {
      EveryRunHolds(steps[..|steps| - 1], rid);
      NextHolds(Run(steps[..|steps| - 1]), steps[|steps| - 1], rid);
    }
  }

  // What every run of it gives a request

  /** Cancelled while it was in line. */
  predicate TakenOutOfLine(s: State, rid: Rid) {
    rid in s.arrivals.seen && rid !in s.arrivals.line && rid !in s.handlers.pcs
  }

  /** Whatever interleaves: never a second terminal; a request whose handler is
      gone has exactly one, the cancel's ERR exactly when the cancel claimed it;
      one cancelled in line has exactly the cancel's ERR, as soon as the main loop
      has answered. */
  lemma OneTerminal(steps: seq<Step>, rid: Rid)
    ensures var s := Run(steps);
            var sent := Of(s.log.attempts, rid);
            && |sent| <= 1
            && (rid in s.handlers.pcs && s.handlers.pcs[rid] == Gone ==>
                  |sent| == 1 && rid in s.table.claims && (s.table.claims[rid] == ByCancel <==> sent[0] == CancelErr)
                  && (s.table.claims[rid] == ByHandler <==> sent[0] in {End, HandlerErr}))
            && (TakenOutOfLine(s, rid) ==> sent == if s.main == AnsweringQueued(rid) then [] else [QueuedErr])
  {
    EveryRunHolds(steps, rid);
  }

  /** A request that arrives is registered at once when it is admitted, and otherwise
      in line; one whose id was used before, or that comes while the loop is busy, is
      nothing new. */
  lemma ArrivalGoes(s: State, rid: Rid, admitted: bool)
    ensures var t := Next(s, Arrives(rid, admitted));
            if s.main != Idle || rid in s.arrivals.seen then t == s
            else
              && t.arrivals.seen == s.arrivals.seen + {rid} && t.main == s.main && t.log == s.log
              && t.arrivals.line == (if admitted then s.arrivals.line else s.arrivals.line + {rid})
              && (admitted ==> rid in t.handlers.pcs && t.handlers.pcs[rid] == Deriving && rid in t.table.running && !t.table.running[rid]
                               && rid in t.table.claims && t.table.claims[rid] == Unclaimed)
              && (!admitted ==> t.handlers == s.handlers && t.table == s.table)
  {
  }

  // What the terminal says

  /** How each step of a request's thread turned out, once it is registered: first
      its derivation, then its op. */
  function Outcomes(steps: seq<Step>, rid: Rid): seq<bool> {
    if steps == [] then []
    else
      var front, last := steps[..|steps| - 1], steps[|steps| - 1];
      Outcomes(front, rid) + if Own(last, rid) == 1 && rid in Run(front).table.claims then [last.ok] else []
  }

  predicate Succeeded(outcomes: seq<bool>) {
    |outcomes| >= 2 && outcomes[0] && outcomes[1]
  }

  /** Its derivation failed, or its op did. */
  predicate FailedAt(outcomes: seq<bool>) {
    (outcomes != [] && !outcomes[0]) || (|outcomes| >= 2 && !outcomes[1])
  }

  predicate Truthful(sent: seq<Terminal>, outcomes: seq<bool>) {
    (End in sent ==> Succeeded(outcomes)) && (HandlerErr in sent ==> FailedAt(outcomes))
  }

  /** Where the thread is tells how it went so far. */
  predicate Tells(s: State, rid: Rid, outcomes: seq<bool>) {
    && (rid !in s.table.claims ==> outcomes == [])
    && Truthful(Of(s.log.attempts, rid), outcomes)
    && (rid in s.handlers.pcs ==>
          match s.handlers.pcs[rid]
          case Deriving => outcomes == []
          case Working => outcomes == [true]
          case Returned => Succeeded(outcomes)
          case WritingEnd => Succeeded(outcomes)
          case Failed => FailedAt(outcomes) || End in Of(s.log.attempts, rid)
          case WritingErr => FailedAt(outcomes)
          case _ => true)
  }

  /** The thread is about to write a terminal. */
  predicate Writing(s: State, rid: Rid) {
    rid in s.handlers.pcs && s.handlers.pcs[rid] in {WritingEnd, WritingErr, WritingCancelErr}
  }

  lemma WritingTells(s: State, rid: Rid, ok: bool, outcomes: seq<bool>)
    requires Holds(s, rid) && Tells(s, rid, outcomes) && Writing(s, rid) && rid in s.table.claims
    ensures Tells(RunThread(s, rid, ok), rid, outcomes + [ok])
  {
    match s.handlers.pcs[rid]
    case WritingEnd => OfSnoc(s.log.attempts, Attempt(rid, End), rid);
    case WritingErr => OfSnoc(s.log.attempts, Attempt(rid, HandlerErr), rid);
    case _ => OfSnoc(s.log.attempts, Attempt(rid, CancelErr), rid);
  }

  lemma ThreadTells(s: State, rid: Rid, ok: bool, outcomes: seq<bool>)
    requires Holds(s, rid) && Tells(s, rid, outcomes) && (rid in s.table.claims ==> rid in s.handlers.pcs && s.handlers.pcs[rid] != Spawning)
    ensures Tells(RunThread(s, rid, ok), rid, if rid in s.table.claims then outcomes + [ok] else outcomes)
  {
    if Writing(s, rid) {
      WritingTells(s, rid, ok, outcomes);
    }
  }

  lemma OthersTell(s: State, step: Step, rid: Rid, outcomes: seq<bool>)
    requires Holds(s, rid) && Tells(s, rid, outcomes) && !(step.Runs? && step.rid == rid)
    requires rid in s.table.claims ==> rid in s.handlers.pcs && s.handlers.pcs[rid] != Spawning
    ensures Tells(Next(s, step), rid, outcomes)
  {
    if About(s, step) != Some(rid) {
      OthersUntouched(s, step, rid);
    } else if step.MainGoes? && s.main.AnsweringQueued? {
      OfSnoc(s.log.attempts, Attempt(rid, QueuedErr), rid);
    }
  }

  lemma {:induction false} EveryRunTells(steps: seq<Step>, rid: Rid)
    ensures Tells(Run(steps), rid, Outcomes(steps, rid))
  {
    if steps != [] {
      var front, last := steps[..|steps| - 1], steps[|steps| - 1];
      EveryRunTells(front, rid);
      EveryRunHolds(front, rid);
      StaleClaim(front, rid);
      if last.Runs? && last.rid == rid {
        ThreadTells(Run(front), rid, last.ok, Outcomes(front, rid));
      } else {
        OthersTell(Run(front), last, rid, Outcomes(front, rid));
      }
    }
  }

  /** END is never sent for a request whose derivation or op failed or has not been
      run, and the handler's ERR only for one of which one failed. A gone handler
      that claimed its request sent END exactly when both succeeded, and otherwise
      its ERR. */
  lemma TerminalTells(steps: seq<Step>, rid: Rid)
    ensures var s, outcomes := Run(steps), Outcomes(steps, rid);
            var sent := Of(s.log.attempts, rid);
            && (End in sent ==> Succeeded(outcomes)) && (HandlerErr in sent ==> FailedAt(outcomes))
            && (rid in s.handlers.pcs && s.handlers.pcs[rid] == Gone && rid in s.table.claims && s.table.claims[rid] == ByHandler ==>
                  sent == if Succeeded(outcomes) then [End] else [HandlerErr])
  {
    EveryRunTells(steps, rid);
    EveryRunHolds(steps, rid);
  }

  lemma {:induction false} StaysOut(steps: seq<Step>, more: seq<Step>, rid: Rid)
    requires TakenOutOfLine(Run(steps), rid)
    ensures TakenOutOfLine(Run(steps + more), rid)
    decreases |more|
  {
    if more == [] {
      assert steps + more == steps;
    } else {
      var front := more[..|more| - 1];
      StaysOut(steps, front, rid);
      SplitLast(steps, more);
      EveryRunHolds(steps + front, rid);
    }
  }

  /** A request taken out of line never gets a handler, and nothing but the
      cancel's answer is ever sent for it. */
  lemma NeverRuns(steps: seq<Step>, more: seq<Step>, rid: Rid)
    requires TakenOutOfLine(Run(steps), rid)
    ensures rid !in Run(steps + more).handlers.pcs
    ensures Of(Run(steps + more).log.attempts, rid) == [] || Of(Run(steps + more).log.attempts, rid) == [QueuedErr]
  {
    StaysOut(steps, more, rid);
    EveryRunHolds(steps + more, rid);
  }

  // Every handler that is started ends its request

  /** How many steps a handler's thread still has, at most. */
  function Rank(pc: Pc): nat {
    match pc
    case Spawning => 9
    case Deriving => 8
    case Working => 7
    case Returned => 6
    case WritingEnd => 5
    case Failed => 4
    case WritingErr => 3
    case Leaving => 2
    case WritingCancelErr => 1
    case Gone => 0
  }

  function Own(step: Step, rid: Rid): nat {
    if step.Runs? && step.rid == rid then 1 else 0
  }

  function ThreadSteps(steps: seq<Step>, rid: Rid): nat {
    if steps == [] then 0 else ThreadSteps(steps[..|steps| - 1], rid) + Own(steps[|steps| - 1], rid)
  }

  lemma RankFalls(s: State, step: Step, rid: Rid)
    requires Holds(s, rid) && rid in s.handlers.pcs
    ensures rid in Next(s, step).handlers.pcs
    ensures var rank := Rank(Next(s, step).handlers.pcs[rid]); rank == 0 || rank + Own(step, rid) <= Rank(s.handlers.pcs[rid])
  {
    if About(s, step) != Some(rid) {
      OthersUntouched(s, step, rid);
    }
  }

  lemma {:induction false} ThreadAdvances(steps: seq<Step>, more: seq<Step>, rid: Rid)
    requires rid in Run(steps).handlers.pcs
    ensures rid in Run(steps + more).handlers.pcs
    ensures var rank := Rank(Run(steps + more).handlers.pcs[rid]);
            rank == 0 || rank + ThreadSteps(more, rid) <= Rank(Run(steps).handlers.pcs[rid])
    decreases |more|
  {
    if more == [] {
      assert steps + more == steps;
    } else {
      var front, last := more[..|more| - 1], more[|more| - 1];
      ThreadAdvances(steps, front, rid);
      var s := Run(steps + front);
      EveryRunHolds(steps + front, rid);
      RankFalls(s, last, rid);
      SplitLast(steps, more);
    }
  }

  /** Once a request has left the line for its handler, nine steps of its thread,
      among any others and whatever fails, end it with exactly one terminal. */
  lemma EveryHandlerEndsItsRequest(steps: seq<Step>, more: seq<Step>, rid: Rid)
    requires rid in Run(steps).handlers.pcs && ThreadSteps(more, rid) >= 9
    ensures var s := Run(steps + more); rid in s.handlers.pcs && s.handlers.pcs[rid] == Gone && |Of(s.log.attempts, rid)| == 1
  {
    ThreadAdvances(steps, more, rid);
    OneTerminal(steps + more, rid);
  }

  // Which cancels take effect

  /** Not ended, and nobody has claimed to end it. */
  predicate Undecided(s: State, rid: Rid) {
    || rid in s.arrivals.line
    || (rid in s.handlers.pcs && (s.handlers.pcs[rid] == Spawning || (rid in s.table.claims && s.table.claims[rid] == Unclaimed)))
  }

  /** A cancel's two look-ups, with nothing in between. */
  function Cancel(s: State, rid: Rid): State {
    Next(Next(s, CancelArrives(rid)), MainGoes)
  }

  predicate EndedByCancel(s: State, rid: Rid) {
    QueuedErr in Of(s.log.attempts, rid) || (rid in s.table.claims && s.table.claims[rid] == ByCancel)
  }

  lemma CancelInLine(s: State, rid: Rid)
    requires s.main == Idle && rid in s.arrivals.line
    ensures EndedByCancel(Cancel(s, rid), rid)
  {
  }

  /** A cancel of a request nothing has ended takes effect exactly when the request
      is in one of the two tables: not between leaving the line and its handler's
      registration. */
  lemma CancelTakesEffectIff(steps: seq<Step>, rid: Rid)
    requires Run(steps).main == Idle && Undecided(Run(steps), rid)
    ensures var s := Run(steps);
            EndedByCancel(Cancel(s, rid), rid) <==> !(rid in s.handlers.pcs && s.handlers.pcs[rid] == Spawning)
  {
    var s := Run(steps);
    EveryRunHolds(steps, rid);
    StaleClaim(steps, rid);
    if rid in s.arrivals.line {
      CancelInLine(s, rid);
    }
  }

  /** A claim is made when the request is registered, not before. */
  lemma {:induction false} StaleClaim(steps: seq<Step>, rid: Rid)
    ensures rid in Run(steps).table.claims ==> rid in Run(steps).handlers.pcs && Run(steps).handlers.pcs[rid] != Spawning
  {
    if steps != [] {
      var s, step := Run(steps[..|steps| - 1]), steps[|steps| - 1];
      StaleClaim(steps[..|steps| - 1], rid);
      EveryRunHolds(steps[..|steps| - 1], rid);
      if About(s, step) != Some(rid) {
        OthersUntouched(s, step, rid);
      }
    }
  }

  /** The next step of a request's thread, which fails at nothing. */
  function Goes(s: State, rid: Rid): State {
    Next(s, Runs(rid, true))
  }

  lemma ClaimsAndEnds(s: State, rid: Rid)
    requires rid in s.handlers.pcs && s.handlers.pcs[rid] == Returned && rid in s.table.claims && s.table.claims[rid] == Unclaimed
    requires rid in s.table.running ==> !s.table.running[rid]
    ensures var after := Goes(Goes(Goes(s, rid), rid), rid);
            after.log.attempts == s.log.attempts + [Attempt(rid, End)] && rid in after.handlers.pcs && after.handlers.pcs[rid] == Gone
  {
    var t := Goes(s, rid);
    assert t.handlers.pcs[rid] == WritingEnd && t.log.attempts == s.log.attempts && t.table.running == s.table.running;
    assert Goes(t, rid) == At(Try(t, rid, End), rid, Leaving);
  }

  /** A request cancelled between the two tables runs to its END, as if it had not
      been cancelled. */
  lemma CancelLostBetweenTables(steps: seq<Step>, rid: Rid)
    requires var s := Run(steps); s.main == Idle && rid in s.handlers.pcs && s.handlers.pcs[rid] == Spawning
    ensures var s := Cancel(Run(steps), rid);
            var after := Goes(Goes(Goes(Goes(Goes(Goes(s, rid), rid), rid), rid), rid), rid);
            && Of(after.log.attempts, rid) == [End]
            && rid in after.handlers.pcs && after.handlers.pcs[rid] == Gone
  {
    var s := Run(steps);
    EveryRunHolds(steps, rid);
    var t := Goes(Goes(Goes(s, rid), rid), rid);
    ClaimsAndEnds(t, rid);
  }

  lemma ThreadKeepsArrivals(s: State, rid: Rid, ok: bool)
    ensures RunThread(s, rid, ok).arrivals == s.arrivals
  {
  }

  lemma NextKeepsSeen(s: State, step: Step)
    ensures s.arrivals.seen <= Next(s, step).arrivals.seen
  {
    if step.Runs? {
      ThreadKeepsArrivals(s, step.rid, step.ok);
    }
  }

  lemma {:induction false} SeenStays(steps: seq<Step>, m: nat, rid: Rid)
    requires m <= |steps| && rid in Run(steps[..m]).arrivals.seen
    ensures rid in Run(steps).arrivals.seen
  {
    if m == |steps| {
      assert steps[..m] == steps;
    } else {
      var front := steps[..|steps| - 1];
      assert front[..m] == steps[..m];
      SeenStays(front, m, rid);
      NextKeepsSeen(Run(front), steps[|front|]);
    }
  }

  /** After `n` steps the request has left the line and is not registered. */
  predicate BetweenTables(steps: seq<Step>, n: nat, rid: Rid)
    requires n <= |steps|
  {
    var s := Run(steps[..n]);
    rid in s.handlers.pcs && s.handlers.pcs[rid] == Spawning && rid !in s.arrivals.line && rid !in s.table.running
  }

  /** Every request that was in line and has a handler was in neither table at some
      time between. */
  lemma {:induction false} EveryAdmissionPassesBetween(steps: seq<Step>, m: nat, rid: Rid)
    requires m <= |steps| && rid in Run(steps[..m]).arrivals.line && rid in Run(steps).handlers.pcs
    ensures exists n :: m < n <= |steps| && BetweenTables(steps, n, rid)
    decreases |steps|
  {
    assert m == |steps| ==> steps[..m] == steps;
    EveryRunHolds(steps[..m], rid);
    if m < |steps| {
      var front, last := steps[..|steps| - 1], steps[|steps| - 1];
      assert front[..m] == steps[..m];
      if rid in Run(front).handlers.pcs {
        EveryAdmissionPassesBetween(front, m, rid);
        var n :| m < n <= |front| && BetweenTables(front, n, rid);
        assert front[..n] == steps[..n] && BetweenTables(steps, n, rid);
      } else {
        SeenStays(front, m, rid);
        EveryRunHolds(front, rid);
        FirstPcIsSpawning(Run(front), last, rid);
        assert steps[..|steps|] == steps && BetweenTables(steps, |steps|, rid);
      }
    }
  }

  /** The step that gives a handler to a request that arrived before. */
  lemma FirstPcIsSpawning(s: State, step: Step, rid: Rid)
    requires Holds(s, rid) && rid in s.arrivals.seen && rid !in s.handlers.pcs && rid in Next(s, step).handlers.pcs
    ensures var t := Next(s, step); t.handlers.pcs[rid] == Spawning && rid !in t.arrivals.line && rid !in t.table.running
  {
    if About(s, step) != Some(rid) {
      OthersUntouched(s, step, rid);
    }
  }
}
