/**
 A runtime's pools over whole runs: the state of the decisions beside the
 dictionaries kept next to it, and the accounts between them.
 */
module PoolRuntime {
  import opened Common
  import opened Pools

  /** The numbers a pool carries on the wire that its limit is made of. */
  datatype Meta = Meta(configured: nat, available: Option<nat>)

  function LimitOf(m: Meta): nat {
    Effective(m.configured, m.available)
  }

  /** A queued request: the pattern it is for and its request id. */
  datatype Held = Held(pattern: nat, request: nat)

  datatype Runtime = Runtime(meta: map<PoolName, Meta>, chains: map<nat, seq<PoolName>>,
                             state: State, waiting: map<nat, Held>)

  datatype Fault = UnregisteredPattern | NoSuchPool | BelowZero(pool: PoolName) | TicketNotHeld(ticket: nat)

  /** What a call leaves and answers, or the error it raises. */
  datatype Outcome<T> = Done(runtime: Runtime, answer: T) | Raised(fault: Fault)

  /** `None`: admitted. `Some(position)`: in line. */
  function ArriveFor(r: Runtime, pattern: nat, request: nat): Outcome<Option<nat>> {
    if pattern !in r.chains then Raised(UnregisteredPattern)
    else
      match Arrive(r.state, r.chains[pattern])
      case Admitted(s) => Done(r.(state := s), None)
      case Queued(s, ticket, position) =>
        Done(r.(state := s, waiting := r.waiting[ticket := Held(pattern, request)]), Some(position))
      case UnknownPool => Raised(NoSuchPool)
  }

  /** The first pool of the chain with nothing active, from `k` on. */
  function FirstIdle(s: State, chain: seq<PoolName>, k: nat): (i: nat)
    requires k <= |chain| && forall n :: n in chain ==> n in s.pools
    ensures k <= i <= |chain|
    ensures i < |chain| ==> s.pools[chain[i]].active == 0
    ensures forall j :: k <= j < i ==> s.pools[chain[j]].active > 0
    decreases |chain| - k
  {
    if k == |chain| || s.pools[chain[k]].active == 0 then k else FirstIdle(s, chain, k + 1)
  }

  predicate Served(r: Runtime) {
    ServedBy(r.chains, r.state.pools.Keys)
  }

  predicate ServedBy(chains: map<nat, seq<PoolName>>, pools: set<PoolName>) {
    forall p, n :: p in chains && n in chains[p] ==> n in pools
  }

  function ReleaseFor(r: Runtime, pattern: nat): Outcome<()>
    requires Served(r)
  {
    if pattern !in r.chains then Raised(UnregisteredPattern)
    else
      var chain := r.chains[pattern];
      var i := FirstIdle(r.state, chain, 0);
      if i < |chain| then Raised(BelowZero(chain[i])) else Done(r.(state := Release(r.state, chain)), ())
  }

  /** A release raises exactly for a chain with a pool nobody is in, naming the first,
      and otherwise leaves every pool of the chain. */
  lemma ReleaseRaisesIff(r: Runtime, pattern: nat)
    requires Served(r) && pattern in r.chains
    ensures var chain, pools := r.chains[pattern], r.state.pools;
            match ReleaseFor(r, pattern)
            case Done(_, _) => forall i :: 0 <= i < |chain| ==> pools[chain[i]].active > 0
            case Raised(f) => exists i :: 0 <= i < |chain| && f == BelowZero(chain[i]) && pools[chain[i]].active == 0
                                          && forall j :: 0 <= j < i ==> pools[chain[j]].active > 0
  {
  }

  function AdmitNextHeld(r: Runtime): Outcome<Option<Held>> {
    match AdmitNext(r.state)
    case None => Done(r, None)
    case Some(next) =>
      var t := next.0.ticket;
      if t in r.waiting then Done(r.(state := next.1, waiting := r.waiting - {t}), Some(r.waiting[t]))
      else Raised(TicketNotHeld(t))
  }

  /** The first in line whose request is `request`, from place `k` on. */
  function FindHeld(r: Runtime, request: nat, k: nat): (i: nat)
    requires k <= |r.state.queue|
    ensures k <= i <= |r.state.queue|
    ensures i < |r.state.queue| ==> Matches(r, i, request)
    ensures forall j :: k <= j < i ==> !Matches(r, j, request)
    decreases |r.state.queue| - k
  {
    if k == |r.state.queue| || Matches(r, k, request) then k else FindHeld(r, request, k + 1)
  }

  predicate Matches(r: Runtime, i: nat, request: nat)
    requires i < |r.state.queue|
  {
    r.state.queue[i].ticket in r.waiting && r.waiting[r.state.queue[i].ticket].request == request
  }

  /** A cancelled request leaves the line, and is answered with what was held for it.
      The requests held are looked through in the order they joined it. */
  function RemoveQueued(r: Runtime, request: nat): Outcome<Option<Held>> {
    var i := FindHeld(r, request, 0);
    if i == |r.state.queue| then Done(r, None)
    else
      var t := r.state.queue[i].ticket;
      Done(r.(state := Leave(r.state, t), waiting := r.waiting - {t}), Some(r.waiting[t]))
  }

  function Relimit(r: Runtime, name: PoolName, m: Meta): Runtime {
    r.(meta := r.meta[name := m], state := SetCapacity(r.state, name, LimitOf(m)))
  }

  /** The operator's numbers, all of them or, one pool being unknown, none. */
  function ApplyDesired(r: Runtime, desired: map<PoolName, nat>): Outcome<()> {
    if exists n :: n in desired && n !in r.meta then Raised(NoSuchPool)
    else
      var meta := map n | n in r.meta ::
        if n in desired then r.meta[n].(configured := desired[n]) else r.meta[n];
      var pools := map n | n in r.state.pools ::
        if n in desired then r.state.pools[n].(capacity := LimitOf(meta[n])) else r.state.pools[n];
      Done(r.(meta := meta, state := r.state.(pools := pools)), ())
  }

  function SetAvailable(r: Runtime, name: PoolName, available: nat): Outcome<()> {
    if name !in r.meta then Raised(NoSuchPool)
    else Done(Relimit(r, name, r.meta[name].(available := Some(available))), ())
  }

  // The invariant

  /** The line's tickets are in the order they were given. */
  predicate Ticketed(queue: seq<Waiter>, next: nat) {
    && (forall i, j :: 0 <= i < j < |queue| ==> queue[i].ticket < queue[j].ticket)
    && (forall i :: 0 <= i < |queue| ==> queue[i].ticket < next)
  }

  function Tickets(queue: seq<Waiter>): set<nat> {
    if queue == [] then {} else Tickets(queue[..|queue| - 1]) + {queue[|queue| - 1].ticket}
  }

  /** The requests held are those in line, each with its own cap's chain. */
  predicate LineHeld(queue: seq<Waiter>, waiting: map<nat, Held>, chains: map<nat, seq<PoolName>>) {
    && waiting.Keys == Tickets(queue) && |waiting| == |queue|
    && forall w :: w in queue ==> HeldFor(w, waiting, chains)
  }

  predicate HeldFor(w: Waiter, waiting: map<nat, Held>, chains: map<nat, seq<PoolName>>) {
    w.ticket in waiting && waiting[w.ticket].pattern in chains && w.chain == chains[waiting[w.ticket].pattern]
  }

  predicate Limits(meta: map<PoolName, Meta>, pools: map<PoolName, Pool>) {
    && meta.Keys == pools.Keys
    && forall n :: n in meta ==> pools[n].capacity == LimitOf(meta[n])
  }

  predicate Valid(r: Runtime) {
    Served(r) && Ticketed(r.state.queue, r.state.next) && LineHeld(r.state.queue, r.waiting, r.chains) && Limits(r.meta, r.state.pools)
  }

  // The accounts

  /** Every request that ever arrived, whose handler is done, or that was cancelled in
      line; and which one arrived when each ticket was given. */
  datatype Ledger = Ledger(arrived: seq<Held>, finished: seq<Held>, cancelled: seq<Held>, given: map<nat, Held>)

  /** The runtime, the requests that hold slots, and what became of all of them. */
  datatype Book = Book(r: Runtime, running: seq<Held>, log: Ledger)

  /** How many of `running` hold a slot in pool `n`. */
  function Holding(running: seq<Held>, chains: map<nat, seq<PoolName>>, n: PoolName): nat {
    if running == [] then 0
    else
      var last := running[|running| - 1].pattern;
      Holding(running[..|running| - 1], chains, n) + if last in chains && n in chains[last] then 1 else 0
  }

  /** Each pool's active count is the number of running requests that go through
      it. */
  predicate Occupied(pools: map<PoolName, Pool>, running: seq<Held>, chains: map<nat, seq<PoolName>>) {
    forall n :: n in pools ==> pools[n].active == Holding(running, chains, n)
  }

  /** The requests held for those in line. */
  function InLine(queue: seq<Waiter>, waiting: map<nat, Held>): multiset<Held> {
    if queue == [] then multiset{}
    else
      var t := queue[|queue| - 1].ticket;
      InLine(queue[..|queue| - 1], waiting) + if t in waiting then multiset{waiting[t]} else multiset{}
  }

  /** Every request that arrived is in exactly one place. */
  predicate Balanced(log: Ledger, running: seq<Held>, inLine: multiset<Held>) {
    multiset(log.arrived) == multiset(running) + inLine + multiset(log.finished) + multiset(log.cancelled)
  }

  /** What is held under a ticket is what arrived when it was given. */
  predicate AsGiven(waiting: map<nat, Held>, given: map<nat, Held>) {
    forall t :: t in waiting ==> t in given && waiting[t] == given[t]
  }

  predicate RunningServed(b: Book) {
    forall h :: h in b.running ==> h.pattern in b.r.chains
  }

  predicate Logged(b: Book) {
    Balanced(b.log, b.running, InLine(b.r.state.queue, b.r.waiting)) && AsGiven(b.r.waiting, b.log.given)
  }

  predicate Accounted(b: Book) {
    Valid(b.r) && RunningServed(b) && Occupied(b.r.state.pools, b.running, b.r.chains) && Logged(b)
  }

  datatype Action =
    | Arriving(pattern: nat, request: nat)
    | Admitting
    | Finishing(k: nat)                        // the k-th running request's handler is done
    | Cancelling(request: nat)
    | Desiring(desired: map<PoolName, nat>)
    | Reporting(pool: PoolName, available: nat)

  function Fail(b: Book, f: Fault): (Book, Option<Fault>) {
    (b, Some(f))
  }

  // One call under the pools lock: the book after it, and what it raised

  function ArriveCall(b: Book, pattern: nat, request: nat): (Book, Option<Fault>) {
    var h := Held(pattern, request);
    var log := b.log.(arrived := b.log.arrived + [h]);
    match ArriveFor(b.r, pattern, request)
    case Done(r, None) => (Book(r, b.running + [h], log), None)
    case Done(r, Some(_)) => (Book(r, b.running, log.(given := log.given[b.r.state.next := h])), None)
    case Raised(f) => Fail(b, f)
  }

  function AdmitCall(b: Book): (Book, Option<Fault>) {
    match AdmitNextHeld(b.r)
    case Done(r, Some(held)) => (b.(r := r, running := b.running + [held]), None)
    case Done(_, None) => (b, None)
    case Raised(f) => Fail(b, f)
  }

  function FinishCall(b: Book, k: nat): (Book, Option<Fault>)
    requires Served(b.r)
  {
    if k >= |b.running| then (b, None)
    else
      match ReleaseFor(b.r, b.running[k].pattern)
      case Done(r, _) => (Book(r, Drop(b.running, k), b.log.(finished := b.log.finished + [b.running[k]])), None)
      case Raised(f) => Fail(b, f)
  }

  function CancelCall(b: Book, request: nat): (Book, Option<Fault>) {
    match RemoveQueued(b.r, request)
    case Done(r, Some(held)) => (b.(r := r, log := b.log.(cancelled := b.log.cancelled + [held])), None)
    case Done(_, None) => (b, None)
    case Raised(f) => Fail(b, f)
  }

  function DesireCall(b: Book, desired: map<PoolName, nat>): (Book, Option<Fault>) {
    match ApplyDesired(b.r, desired) case Done(r, _) => (b.(r := r), None) case Raised(f) => Fail(b, f)
  }

  function ReportCall(b: Book, pool: PoolName, available: nat): (Book, Option<Fault>) {
    match SetAvailable(b.r, pool, available) case Done(r, _) => (b.(r := r), None) case Raised(f) => Fail(b, f)
  }

  function Step(b: Book, a: Action): (Book, Option<Fault>)
    requires Served(b.r)
  {
    match a
    case Arriving(pattern, request) => ArriveCall(b, pattern, request)
    case Admitting => AdmitCall(b)
    case Finishing(k) => FinishCall(b, k)
    case Cancelling(request) => CancelCall(b, request)
    case Desiring(desired) => DesireCall(b, desired)
    case Reporting(pool, available) => ReportCall(b, pool, available)
  }

  // Every call keeps the accounts

  lemma TakeOccupies(s: State, running: seq<Held>, chains: map<nat, seq<PoolName>>, h: Held)
    requires Occupied(s.pools, running, chains) && h.pattern in chains
    ensures Occupied(Take(s, chains[h.pattern]).pools, running + [h], chains)
  {
    assert (running + [h])[..|running|] == running;
  }

  lemma {:induction false} TicketsIn(queue: seq<Waiter>, i: nat)
    requires i < |queue|
    ensures queue[i].ticket in Tickets(queue)
  {
    if i < |queue| - 1 {
      TicketsIn(queue[..|queue| - 1], i);
    }
  }

  lemma {:induction false} TicketsBelow(queue: seq<Waiter>, next: nat)
    requires Ticketed(queue, next)
    ensures forall t :: t in Tickets(queue) ==> t < next
  {
    if queue != [] {
      TicketsBelow(queue[..|queue| - 1], next);
    }
  }

  /** A registered cap's chain names only the runtime's pools. */
  lemma ChainKnown(r: Runtime, pattern: nat)
    requires Served(r) && pattern in r.chains
    ensures !Arrive(r.state, r.chains[pattern]).UnknownPool?
  {
    assert forall n :: n in r.chains[pattern] ==> n in r.state.pools.Keys;
  }

  lemma AdmittedAccounted(b: Book, b': Book, h: Held)
    requires Accounted(b) && h.pattern in b.r.chains && b'.r == b.r.(state := b'.r.state)
    requires b'.r.state == Take(b.r.state, b.r.chains[h.pattern]).(next := b.r.state.next + 1)
    requires b'.running == b.running + [h] && b'.log == b.log.(arrived := b.log.arrived + [h])
    ensures Accounted(b')
  {
    TakeOccupies(b.r.state, b.running, b.r.chains, h);
    assert b'.r.state.pools.Keys == b.r.state.pools.Keys;
    assert Ticketed(b'.r.state.queue, b'.r.state.next);
  }

  lemma JoinTicketed(queue: seq<Waiter>, next: nat, chain: seq<PoolName>)
    requires Ticketed(queue, next)
    ensures Ticketed(queue + [Waiter(next, chain)], next + 1)
  {
  }

  /** Whoever joins the line has its request held for it. */
  lemma JoinHeld(queue: seq<Waiter>, next: nat, waiting: map<nat, Held>, chains: map<nat, seq<PoolName>>, h: Held)
    requires Ticketed(queue, next) && LineHeld(queue, waiting, chains) && h.pattern in chains
    ensures LineHeld(queue + [Waiter(next, chains[h.pattern])], waiting[next := h], chains)
    ensures |waiting[next := h]| == |waiting| + 1
  {
    var w, waiting' := Waiter(next, chains[h.pattern]), waiting[next := h];
    TicketsBelow(queue, next);
    TicketsSnoc(queue, w);
    assert next !in waiting;
    assert waiting'.Keys == waiting.Keys + {next};
    forall v | v in queue + [w] ensures HeldFor(v, waiting', chains) {
      if v in queue {
        assert HeldFor(v, waiting, chains);
      }
    }
  }

  lemma {:induction false} InLineSame(queue: seq<Waiter>, waiting: map<nat, Held>, other: map<nat, Held>)
    requires forall t :: t in Tickets(queue) ==> (t in waiting <==> t in other) && (t in waiting ==> waiting[t] == other[t])
    ensures InLine(queue, waiting) == InLine(queue, other)
  {
    if queue != [] {
      InLineSame(queue[..|queue| - 1], waiting, other);
    }
  }

  lemma InLineJoins(queue: seq<Waiter>, next: nat, chain: seq<PoolName>, waiting: map<nat, Held>, h: Held)
    requires Ticketed(queue, next)
    ensures InLine(queue + [Waiter(next, chain)], waiting[next := h]) == InLine(queue, waiting) + multiset{h}
  {
    TicketsBelow(queue, next);
    InLineSame(queue, waiting, waiting[next := h]);
    assert (queue + [Waiter(next, chain)])[..|queue|] == queue;
  }

  lemma QueuedValid(r: Runtime, r': Runtime, h: Held)
    requires Valid(r) && h.pattern in r.chains && r'.meta == r.meta && r'.chains == r.chains
    requires r'.state.queue == r.state.queue + [Waiter(r.state.next, r.chains[h.pattern])]
    requires r'.state.pools == r.state.pools && r'.state.next == r.state.next + 1 && r'.waiting == r.waiting[r.state.next := h]
    ensures Valid(r')
  {
    JoinTicketed(r.state.queue, r.state.next, r.chains[h.pattern]);
    JoinHeld(r.state.queue, r.state.next, r.waiting, r.chains, h);
  }

  lemma QueuedAccounted(b: Book, b': Book, h: Held)
    requires Accounted(b) && h.pattern in b.r.chains && b'.r.meta == b.r.meta && b'.r.chains == b.r.chains && b'.running == b.running
    requires b'.r.state.queue == b.r.state.queue + [Waiter(b.r.state.next, b.r.chains[h.pattern])]
    requires b'.r.state.pools == b.r.state.pools && b'.r.state.next == b.r.state.next + 1 && b'.r.waiting == b.r.waiting[b.r.state.next := h]
    requires b'.log == b.log.(arrived := b.log.arrived + [h], given := b.log.given[b.r.state.next := h])
    ensures Accounted(b')
  {
    QueuedValid(b.r, b'.r, h);
    InLineJoins(b.r.state.queue, b.r.state.next, b.r.chains[h.pattern], b.r.waiting, h);
  }

  function WentIn(b: Book, h: Held, s: State): Book {
    Book(b.r.(state := s), b.running + [h], b.log.(arrived := b.log.arrived + [h]))
  }

  function JoinedLine(b: Book, h: Held, s: State, ticket: nat): Book {
    Book(b.r.(state := s, waiting := b.r.waiting[ticket := h]), b.running,
         b.log.(arrived := b.log.arrived + [h], given := b.log.given[b.r.state.next := h]))
  }

  lemma ArriveStep(b: Book, h: Held)
    requires h.pattern in b.r.chains
    ensures match Arrive(b.r.state, b.r.chains[h.pattern])
            case Admitted(s) => ArriveCall(b, h.pattern, h.request) == (WentIn(b, h, s), None)
            case Queued(s, t, _) => ArriveCall(b, h.pattern, h.request) == (JoinedLine(b, h, s, t), None)
            case UnknownPool => true
  {
  }

  lemma ArriveAccounted(b: Book, pattern: nat, request: nat)
    requires Accounted(b) && pattern in b.r.chains
    ensures ArriveCall(b, pattern, request).1 == None
    ensures Accounted(ArriveCall(b, pattern, request).0)
  {
    ChainKnown(b.r, pattern);
    match Arrive(b.r.state, b.r.chains[pattern])
    case Admitted(_) => AdmittedAccounted(b, ArriveCall(b, pattern, request).0, Held(pattern, request));
    case Queued(_, _, _) => QueuedAccounted(b, ArriveCall(b, pattern, request).0, Held(pattern, request));
    case UnknownPool =>
  }

  lemma TicketedDrop(queue: seq<Waiter>, next: nat, k: nat)
    requires Ticketed(queue, next) && k < |queue|
    ensures Ticketed(Drop(queue, k), next)
  {
  }

  lemma TicketsSnoc(queue: seq<Waiter>, w: Waiter)
    ensures Tickets(queue + [w]) == Tickets(queue) + {w.ticket}
  {
    assert (queue + [w])[..|queue|] == queue;
  }

  lemma DropFront<T>(q: seq<T>, k: nat)
    requires k < |q|
    ensures k == |q| - 1 ==> Drop(q, k) == q[..|q| - 1]
    ensures k < |q| - 1 ==> Drop(q, k) == Drop(q[..|q| - 1], k) + [q[|q| - 1]]
  {
  }

  lemma {:induction false} TicketsDrop(queue: seq<Waiter>, next: nat, k: nat)
    requires Ticketed(queue, next) && k < |queue|
    ensures Tickets(Drop(queue, k)) == Tickets(queue) - {queue[k].ticket} && queue[k].ticket in Tickets(queue)
  {
    var front, last := queue[..|queue| - 1], queue[|queue| - 1];
    DropFront(queue, k);
    if k == |queue| - 1 {
      TicketsBelow(front, last.ticket);
    } else {
      TicketsDrop(front, next, k);
      TicketsSnoc(Drop(front, k), last);
      assert front[k] == queue[k] && queue[k].ticket < last.ticket;
    }
  }

  /** Whoever leaves the line takes what was held for them along. */
  lemma LeaveLine(queue: seq<Waiter>, next: nat, waiting: map<nat, Held>, chains: map<nat, seq<PoolName>>, k: nat)
    requires Ticketed(queue, next) && LineHeld(queue, waiting, chains) && k < |queue|
    ensures var t := queue[k].ticket;
            && t in waiting && Ticketed(Drop(queue, k), next) && LineHeld(Drop(queue, k), waiting - {t}, chains)
            && |waiting - {t}| == |waiting| - 1
  {
    var t := queue[k].ticket;
    TicketsDrop(queue, next, k);
    TicketedDrop(queue, next, k);
    assert (waiting - {t}).Keys == waiting.Keys - {t};
    MapWithout(waiting, t);
    forall w | w in Drop(queue, k) ensures HeldFor(w, waiting - {t}, chains) {
      var i :| 0 <= i < |Drop(queue, k)| && Drop(queue, k)[i] == w;
      TicketsIn(Drop(queue, k), i);
      assert w in queue;
    }
  }

  lemma {:induction false} InLineWithout(queue: seq<Waiter>, next: nat, waiting: map<nat, Held>, k: nat)
    requires Ticketed(queue, next) && k < |queue| && queue[k].ticket in waiting
    ensures InLine(queue, waiting) == InLine(Drop(queue, k), waiting) + multiset{waiting[queue[k].ticket]}
  {
    var front, last := queue[..|queue| - 1], queue[|queue| - 1];
    DropFront(queue, k);
    if k < |queue| - 1 {
      InLineWithout(front, next, waiting, k);
      assert (Drop(front, k) + [last])[..|front| - 1] == Drop(front, k);
    }
  }

  lemma InLineLeaves(queue: seq<Waiter>, next: nat, waiting: map<nat, Held>, k: nat)
    requires Ticketed(queue, next) && k < |queue| && queue[k].ticket in waiting
    ensures var t := queue[k].ticket; InLine(queue, waiting) == InLine(Drop(queue, k), waiting - {t}) + multiset{waiting[t]}
  {
    InLineWithout(queue, next, waiting, k);
    TicketsDrop(queue, next, k);
    InLineSame(Drop(queue, k), waiting, waiting - {queue[k].ticket});
  }

  /** The `k`-th in line is taken out of it, and of the requests held. */
  function Unheld(r: Runtime, k: nat): Runtime
    requires k < |r.state.queue|
  {
    r.(state := r.state.(queue := Drop(r.state.queue, k)), waiting := r.waiting - {r.state.queue[k].ticket})
  }

  lemma UnheldIsValid(r: Runtime, k: nat)
    requires Valid(r) && k < |r.state.queue|
    ensures Valid(Unheld(r, k)) && HeldFor(r.state.queue[k], r.waiting, r.chains)
    ensures InLine(r.state.queue, r.waiting)
         == InLine(Unheld(r, k).state.queue, Unheld(r, k).waiting) + multiset{r.waiting[r.state.queue[k].ticket]}
  {
    LeaveLine(r.state.queue, r.state.next, r.waiting, r.chains, k);
    InLineLeaves(r.state.queue, r.state.next, r.waiting, k);
  }

  /** It takes its slots and runs. */
  function Started(b: Book, k: nat): Book
    requires k < |b.r.state.queue| && HeldFor(b.r.state.queue[k], b.r.waiting, b.r.chains)
  {
    var r, h := Unheld(b.r, k), b.r.waiting[b.r.state.queue[k].ticket];
    b.(r := r.(state := Take(r.state, r.chains[h.pattern])), running := b.running + [h])
  }

  lemma StartedIsAccounted(b: Book, k: nat)
    requires Accounted(b) && k < |b.r.state.queue| && HeldFor(b.r.state.queue[k], b.r.waiting, b.r.chains)
    ensures Accounted(Started(b, k))
  {
    var r, h := Unheld(b.r, k), b.r.waiting[b.r.state.queue[k].ticket];
    UnheldIsValid(b.r, k);
    TakeOccupies(r.state, b.running, r.chains, h);
    assert Take(r.state, r.chains[h.pattern]).pools.Keys == r.state.pools.Keys;
  }

  lemma AdmitStep(b: Book, k: nat)
    requires Valid(b.r) && k == FirstAdmissible(b.r.state, 0) && k < |b.r.state.queue|
    requires HeldFor(b.r.state.queue[k], b.r.waiting, b.r.chains)
    ensures AdmitCall(b) == (Started(b, k), None)
  {
  }

  lemma AdmitAccounted(b: Book)
    requires Accounted(b)
    ensures AdmitCall(b).1 == None
    ensures Accounted(AdmitCall(b).0)
  {
    var k := FirstAdmissible(b.r.state, 0);
    if k < |b.r.state.queue| {
      UnheldIsValid(b.r, k);
      AdmitStep(b, k);
      StartedIsAccounted(b, k);
    }
  }

  lemma HoldingSnoc(running: seq<Held>, chains: map<nat, seq<PoolName>>, n: PoolName, h: Held)
    ensures Holding(running + [h], chains, n) == Holding(running, chains, n) + if h.pattern in chains && n in chains[h.pattern] then 1 else 0
  {
    assert (running + [h])[..|running|] == running;
  }

  lemma {:induction false} HoldingDrop(running: seq<Held>, chains: map<nat, seq<PoolName>>, n: PoolName, k: nat)
    requires k < |running| && running[k].pattern in chains
    ensures Holding(running, chains, n) == Holding(Drop(running, k), chains, n) + (if n in chains[running[k].pattern] then 1 else 0)
  {
    var front, last := running[..|running| - 1], running[|running| - 1];
    DropFront(running, k);
    if k < |running| - 1 {
      HoldingDrop(front, chains, n, k);
      HoldingSnoc(Drop(front, k), chains, n, last);
    }
  }

  /** A running request holds a slot in every pool of its chain, so it can be
      released, and only its own slots are. */
  lemma ReleasedIsOccupied(b: Book, k: nat)
    requires Accounted(b) && k < |b.running|
    ensures var s, chain := b.r.state, b.r.chains[b.running[k].pattern];
            && FirstIdle(s, chain, 0) == |chain|
            && Occupied(Release(s, chain).pools, Drop(b.running, k), b.r.chains)
            && Release(s, chain).pools.Keys == s.pools.Keys
  {
    var s, chain := b.r.state, b.r.chains[b.running[k].pattern];
    forall n | n in s.pools
      ensures n in chain ==> s.pools[n].active > 0
      ensures Release(s, chain).pools[n].active == Holding(Drop(b.running, k), b.r.chains, n)
    {
      HoldingDrop(b.running, b.r.chains, n, k);
    }
    assert forall n :: n in chain ==> n in s.pools.Keys;
  }

  /** Its slots are free, and it is noted as finished. */
  function Released(b: Book, k: nat): Book
    requires k < |b.running| && b.running[k].pattern in b.r.chains
  {
    Book(b.r.(state := Release(b.r.state, b.r.chains[b.running[k].pattern])), Drop(b.running, k),
         b.log.(finished := b.log.finished + [b.running[k]]))
  }

  lemma FinishStep(b: Book, k: nat)
    requires Accounted(b) && k < |b.running|
    ensures FinishCall(b, k) == (Released(b, k), None)
  {
    ReleasedIsOccupied(b, k);
  }

  lemma FinishAccounted(b: Book, k: nat)
    requires Accounted(b)
    ensures FinishCall(b, k).1 == None
    ensures Accounted(FinishCall(b, k).0)
  {
    if k < |b.running| {
      ReleasedIsOccupied(b, k);
      DropMultiset(b.running, k);
      assert forall h :: h in Drop(b.running, k) ==> h in b.running;
    }
  }

  lemma {:induction false} WithoutIsDrop(queue: seq<Waiter>, next: nat, k: nat)
    requires Ticketed(queue, next) && k < |queue|
    ensures Without(queue, queue[k].ticket) == Drop(queue, k)
  {
    var front, last := queue[..|queue| - 1], queue[|queue| - 1];
    DropFront(queue, k);
    if k == |queue| - 1 {
      WithoutNone(front, last.ticket);
    } else {
      assert front[k] == queue[k] && queue[k].ticket < last.ticket;
      WithoutIsDrop(front, next, k);
    }
  }

  lemma {:induction false} WithoutNone(queue: seq<Waiter>, ticket: nat)
    requires forall i :: 0 <= i < |queue| ==> queue[i].ticket != ticket
    ensures Without(queue, ticket) == queue
  {
    if queue != [] {
      WithoutNone(queue[..|queue| - 1], ticket);
    }
  }

  /** It is noted as cancelled. */
  function Removed(b: Book, k: nat): Book
    requires k < |b.r.state.queue| && b.r.state.queue[k].ticket in b.r.waiting
  {
    b.(r := Unheld(b.r, k), log := b.log.(cancelled := b.log.cancelled + [b.r.waiting[b.r.state.queue[k].ticket]]))
  }

  lemma CancelStep(b: Book, request: nat, k: nat)
    requires Valid(b.r) && k == FindHeld(b.r, request, 0) && k < |b.r.state.queue|
    ensures CancelCall(b, request) == (Removed(b, k), None)
  {
    WithoutIsDrop(b.r.state.queue, b.r.state.next, k);
  }

  lemma CancelAccounted(b: Book, request: nat)
    requires Accounted(b)
    ensures CancelCall(b, request).1 == None
    ensures Accounted(CancelCall(b, request).0)
  {
    var k := FindHeld(b.r, request, 0);
    if k < |b.r.state.queue| {
      UnheldIsValid(b.r, k);
      CancelStep(b, request, k);
    }
  }

  lemma DesireStep(b: Book, desired: map<PoolName, nat>, r: Runtime)
    requires ApplyDesired(b.r, desired) == Done(r, ())
    ensures DesireCall(b, desired) == (b.(r := r), None)
  {
  }

  lemma DesireAccounted(b: Book, desired: map<PoolName, nat>)
    requires Accounted(b)
    ensures DesireCall(b, desired).1 in {None, Some(NoSuchPool)}
    ensures Accounted(DesireCall(b, desired).0)
  {
    var (b', _) := DesireCall(b, desired);
    assert b'.r.state.pools.Keys == b.r.state.pools.Keys;
  }

  lemma ReportAccounted(b: Book, pool: PoolName, available: nat)
    requires Accounted(b)
    ensures ReportCall(b, pool, available).1 in {None, Some(NoSuchPool)}
    ensures Accounted(ReportCall(b, pool, available).0)
  {
    var (b', _) := ReportCall(b, pool, available);
    assert b'.r.state.pools.Keys == b.r.state.pools.Keys;
  }

  /** The two errors a caller can make: a pattern or a pool that does not exist. */
  predicate CallersError(b: Book, a: Action) {
    match a
    case Arriving(p, _) => p !in b.r.chains
    case Desiring(d) => exists n :: n in d && n !in b.r.meta
    case Reporting(n, _) => n !in b.r.meta
    case _ => false
  }

  /** One step keeps every account, and raises only for a caller's error: never
      that a pool was released below zero or a ticket's request is not held. */
  lemma StepAccounted(b: Book, a: Action)
    requires Accounted(b)
    ensures Accounted(Step(b, a).0)
    ensures Step(b, a).1 == None <==> !CallersError(b, a)
    ensures Step(b, a).1.Some? ==> Step(b, a).0 == b && Step(b, a).1.value in {UnregisteredPattern, NoSuchPool}
  {
    match a
    case Arriving(p, request) => if p in b.r.chains { ArriveAccounted(b, p, request); }
    case Admitting => AdmitAccounted(b);
    case Finishing(k) => FinishAccounted(b, k);
    case Cancelling(request) => CancelAccounted(b, request);
    case Desiring(desired) => DesireAccounted(b, desired);
    case Reporting(pool, available) => ReportAccounted(b, pool, available);
  }

  /** A runtime at rest. */
  predicate AtRest(r: Runtime) {
    && Valid(r) && r.state.queue == [] && r.waiting == map[]
    && forall n :: n in r.state.pools ==> r.state.pools[n].active == 0
  }

  function Run(r: Runtime, actions: seq<Action>): (b: Book)
    requires AtRest(r)
    ensures Accounted(b)
  {
    if actions == [] then Book(r, [], Ledger([], [], [], map[]))
    else
      var b := Run(r, actions[..|actions| - 1]);
      StepAccounted(b, actions[|actions| - 1]);
      Step(b, actions[|actions| - 1]).0
  }

  /** After any calls in any order: a pool's active count is the number of running
      requests that go through it; every request that arrived is running, held in
      line, finished or cancelled, and none is twice; what is held under a ticket is
      the request that arrived when the ticket was given; and no next call finds a
      pool below zero or a ticket whose request is gone. */
  lemma EveryRunBalances(r: Runtime, actions: seq<Action>, next: Action)
    requires AtRest(r)
    ensures var b := Run(r, actions);
            && (forall n :: n in b.r.state.pools ==> b.r.state.pools[n].active == Holding(b.running, b.r.chains, n))
            && b.r.waiting.Keys == Tickets(b.r.state.queue)
            && multiset(b.log.arrived) == multiset(b.running) + InLine(b.r.state.queue, b.r.waiting)
                                          + multiset(b.log.finished) + multiset(b.log.cancelled)
            && (forall t :: t in b.r.waiting ==> t in b.log.given && b.r.waiting[t] == b.log.given[t])
            && (Step(b, next).1 == None <==> !CallersError(b, next))
  {
    StepAccounted(Run(r, actions), next);
  }

  lemma {:induction false} InLineIff(queue: seq<Waiter>, waiting: map<nat, Held>, h: Held)
    ensures h in InLine(queue, waiting) <==> exists i :: 0 <= i < |queue| && queue[i].ticket in waiting && waiting[queue[i].ticket] == h
  {
    if queue != [] {
      var front := queue[..|queue| - 1];
      InLineIff(front, waiting, h);
      if i :| 0 <= i < |front| && front[i].ticket in waiting && waiting[front[i].ticket] == h {
        assert queue[i] == front[i];
      }
      if i :| 0 <= i < |queue| && queue[i].ticket in waiting && waiting[queue[i].ticket] == h {
        assert i < |front| ==> front[i] == queue[i];
      }
    }
  }

  /** A cancel finds a request exactly when one of that id is in line, and then takes
      out one of that id and no other. */
  lemma CancelsOwn(b: Book, request: nat)
    requires Accounted(b)
    ensures var b' := CancelCall(b, request).0;
            if exists h :: h in InLine(b.r.state.queue, b.r.waiting) && h.request == request
            then exists h: Held :: h.request == request && b'.log == b.log.(cancelled := b.log.cancelled + [h])
                   && InLine(b.r.state.queue, b.r.waiting) == InLine(b'.r.state.queue, b'.r.waiting) + multiset{h}
            else b' == b
  {
    var k := FindHeld(b.r, request, 0);
    if k < |b.r.state.queue| {
      UnheldIsValid(b.r, k);
      CancelStep(b, request, k);
      var h := b.r.waiting[b.r.state.queue[k].ticket];
      InLineIff(b.r.state.queue, b.r.waiting, h);
      assert h.request == request && h in InLine(b.r.state.queue, b.r.waiting);
      assert Removed(b, k).log == b.log.(cancelled := b.log.cancelled + [h]);
    } else if h :| h in InLine(b.r.state.queue, b.r.waiting) && h.request == request {
      InLineIff(b.r.state.queue, b.r.waiting, h);
      var i :| 0 <= i < |b.r.state.queue| && b.r.state.queue[i].ticket in b.r.waiting && b.r.waiting[b.r.state.queue[i].ticket] == h;
      assert Matches(b.r, i, request);
    }
  }

  lemma AdmitsAsGiven(b: Book)
    requires Accounted(b)
    ensures var next := AdmitNext(b.r.state);
            next.Some? ==> next.value.0.ticket in b.log.given
                           && AdmitCall(b).0.running == b.running + [b.log.given[next.value.0.ticket]]
  {
    var k := FirstAdmissible(b.r.state, 0);
    if k < |b.r.state.queue| {
      UnheldIsValid(b.r, k);
      AdmitStep(b, k);
    }
  }

  /** What an admission leaves, by the decision's pick. */
  lemma AdmitIs(b: Book, picked: Option<(Waiter, State)>)
    requires Accounted(b) && picked == AdmitNext(b.r.state)
    ensures Accounted(AdmitCall(b).0)
    ensures picked == None ==> AdmitCall(b).0 == b
    ensures picked.Some? ==>
              var t, s := picked.value.0.ticket, picked.value.1;
              && t in b.r.waiting && t in b.log.given && b.r.waiting[t] == b.log.given[t] && |s.queue| < |b.r.state.queue|
              && AdmitCall(b).0 == Book(b.r.(state := s, waiting := b.r.waiting - {t}), b.running + [b.r.waiting[t]], b.log)
  {
    AdmitAccounted(b);
    AdmitsAsGiven(b);
    var k := FirstAdmissible(b.r.state, 0);
    if k < |b.r.state.queue| {
      AdmitStep(b, k);
    }
  }

  // Limits

  predicate WithinLimit(p: Pool) {
    p.capacity > 0 ==> p.active <= p.capacity
  }

  predicate Within(s: State) {
    forall n :: n in s.pools ==> WithinLimit(s.pools[n])
  }

  lemma TakeWithin(s: State, chain: seq<PoolName>)
    requires Within(s) && HasRoom(s, chain)
    ensures Within(Take(s, chain))
  {
  }

  lemma ReleaseWithin(s: State, chain: seq<PoolName>)
    requires Within(s)
    ensures Within(Release(s, chain))
  {
    var t := Release(s, chain);
    forall n | n in t.pools ensures WithinLimit(t.pools[n]) {
      assert WithinLimit(s.pools[n]);
    }
  }

  lemma RelimitWithin(s: State, name: PoolName, limit: nat)
    requires Within(s) && name in s.pools
    ensures Within(SetCapacity(s, name, limit)) <==> limit == 0 || s.pools[name].active <= limit
  {
    var t := SetCapacity(s, name, limit);
    assert WithinLimit(t.pools[name]) <==> limit == 0 || s.pools[name].active <= limit;
    forall n | n in t.pools && n != name ensures WithinLimit(t.pools[n]) {
      assert t.pools[n] == s.pools[n];
    }
  }

  lemma StartKeepsWithin(b: Book, a: Action)
    requires Accounted(b) && Within(b.r.state) && (a.Arriving? || a.Admitting?)
    ensures Within(Step(b, a).0.r.state)
  {
    var s := b.r.state;
    match a
    case Arriving(p, _) => if p in b.r.chains && HasRoom(s, b.r.chains[p]) { TakeWithin(s, b.r.chains[p]); }
    case Admitting =>
      var k := FirstAdmissible(s, 0);
      if k < |s.queue| { TakeWithin(s, s.queue[k].chain); }
  }

  lemma EndKeepsWithin(b: Book, a: Action)
    requires Accounted(b) && Within(b.r.state) && (a.Finishing? || a.Cancelling?)
    ensures Within(Step(b, a).0.r.state)
  {
    if a.Finishing? && a.k < |b.running| {
      ReleaseWithin(b.r.state, b.r.chains[b.running[a.k].pattern]);
    }
  }

  lemma ReportKeepsWithinIff(b: Book, pool: PoolName, available: nat)
    requires Accounted(b) && Within(b.r.state) && pool in b.r.meta
    ensures var limit := Effective(b.r.meta[pool].configured, Some(available));
            Within(ReportCall(b, pool, available).0.r.state) <==> limit == 0 || b.r.state.pools[pool].active <= limit
  {
    RelimitWithin(b.r.state, pool, Effective(b.r.meta[pool].configured, Some(available)));
  }

  lemma DesireWithinIff(b: Book, desired: map<PoolName, nat>)
    requires Accounted(b) && Within(b.r.state) && desired.Keys <= b.r.meta.Keys
    ensures Within(DesireCall(b, desired).0.r.state) <==>
            forall n :: n in desired ==> Fits(b.r.state.pools[n].active, Effective(desired[n], b.r.meta[n].available))
  {
    var s, t := b.r.state, DesireCall(b, desired).0.r.state;
    assert t.pools.Keys == s.pools.Keys;
    forall n | n in s.pools
      ensures WithinLimit(t.pools[n]) <==>
              (n in desired ==> Fits(s.pools[n].active, Effective(desired[n], b.r.meta[n].available)))
    {
      assert WithinLimit(s.pools[n]);
    }
  }

  /** No pool is ever above its limit unless the limit is lowered below what is
      already running. */
  lemma StepKeepsWithin(b: Book, a: Action)
    requires Accounted(b) && Within(b.r.state)
    ensures !a.Desiring? && !a.Reporting? ==> Within(Step(b, a).0.r.state)
    ensures a.Reporting? && a.pool in b.r.meta ==>
              var limit := Effective(b.r.meta[a.pool].configured, Some(a.available));
              Within(Step(b, a).0.r.state) <==> limit == 0 || b.r.state.pools[a.pool].active <= limit
    ensures a.Desiring? && a.desired.Keys <= b.r.meta.Keys ==>
              (Within(Step(b, a).0.r.state) <==>
                forall n :: n in a.desired ==> Fits(b.r.state.pools[n].active, Effective(a.desired[n], b.r.meta[n].available)))
  {
    match a
    case Reporting(pool, available) => if pool in b.r.meta { ReportKeepsWithinIff(b, pool, available); }
    case Desiring(desired) => if desired.Keys <= b.r.meta.Keys { DesireWithinIff(b, desired); }
    case Finishing(_) => EndKeepsWithin(b, a);
    case Cancelling(_) => EndKeepsWithin(b, a);
    case _ => StartKeepsWithin(b, a);
  }

  // The object

  function AnswerOf<T>(o: Outcome<T>): Result<T, Fault> {
    match o case Done(_, answer) => Ok(answer) case Raised(f) => Err(f)
  }

  // What a runtime is declared with

  /** Why a runtime cannot be made. */
  datatype Undeclared = RegisteredTwice(pattern: nat) | MemberNotServed(cap: nat) | NoSuchCapacity(name: PoolName)

  function Elements(registered: seq<nat>): set<nat> {
    set p | p in registered
  }

  function Names(patterns: set<nat>, shared: seq<(nat, seq<nat>)>): set<PoolName> {
    (set p | p in patterns :: OfCap(p)) + (set s | s in shared :: PoolName.Shared(s.0)) + {All}
  }

  predicate NoneTwice(registered: seq<nat>) {
    forall i :: 0 <= i < |registered| ==> registered[i] !in registered[..i]
  }

  predicate AllServed(members: seq<nat>, registered: seq<nat>) {
    forall c :: c in members ==> c in registered
  }

  predicate EveryPoolServed(shared: seq<(nat, seq<nat>)>, registered: seq<nat>) {
    forall s :: s in shared ==> AllServed(s.1, registered)
  }

  /** The fault found first. */
  ghost predicate FirstFault(fault: Undeclared, registered: seq<nat>, shared: seq<(nat, seq<nat>)>, declared: map<PoolName, nat>) {
    match fault
    case RegisteredTwice(p) =>
      exists i :: 0 <= i < |registered| && registered[i] == p && p in registered[..i] && NoneTwice(registered[..i])
    case MemberNotServed(c) =>
      && NoneTwice(registered) && c !in registered
      && exists k :: 0 <= k < |shared| && c in shared[k].1 && EveryPoolServed(shared[..k], registered)
    case NoSuchCapacity(name) =>
      && NoneTwice(registered) && EveryPoolServed(shared, registered)
      && name in declared && name !in Names(Elements(registered), shared)
  }

  method FindTwice(registered: seq<nat>) returns (i: nat)
    ensures i <= |registered| && NoneTwice(registered[..i])
    ensures i < |registered| ==> registered[i] in registered[..i]
    ensures i == |registered| ==> registered[..i] == registered
  {
    i := 0;
    while i < |registered| && registered[i] !in registered[..i]
      invariant i <= |registered| && NoneTwice(registered[..i])
    {
      forall j | 0 <= j <= i ensures registered[..i + 1][..j] == registered[..i][..j] {
      }
      i := i + 1;
    }
  }

  method FindForeign(members: seq<nat>, registered: seq<nat>) returns (j: nat)
    ensures j <= |members| && (j < |members| ==> members[j] !in registered)
    ensures j == |members| <==> AllServed(members, registered)
  {
    j := 0;
    while j < |members| && members[j] in registered
      invariant j <= |members| && AllServed(members[..j], registered)
    {
      j := j + 1;
    }
    assert members[..|members|] == members;
  }

  /** The declarations of a runtime are good exactly when no pattern is registered
      twice, every shared pool's members are served, and every capacity is some
      pool's; otherwise this is the first that is not. */
  method Examine(registered: seq<nat>, shared: seq<(nat, seq<nat>)>, declared: map<PoolName, nat>)
      returns (fault: Option<Undeclared>)
    ensures fault == None
       <==> NoneTwice(registered) && EveryPoolServed(shared, registered) && declared.Keys <= Names(Elements(registered), shared)
    ensures fault.Some? ==> FirstFault(fault.value, registered, shared, declared)
  {
    var i := FindTwice(registered);
    if i < |registered| {
      return Some(RegisteredTwice(registered[i]));
    }
    var k := 0;
    while k < |shared|
      invariant k <= |shared| && EveryPoolServed(shared[..k], registered)
    {
      var j := FindForeign(shared[k].1, registered);
      if j < |shared[k].1| {
        assert shared[k] in shared && shared[k].1[j] in shared[k].1;
        return Some(MemberNotServed(shared[k].1[j]));
      }
      assert shared[..k + 1] == shared[..k] + [shared[k]];
      k := k + 1;
    }
    assert shared[..|shared|] == shared;
    var foreign := declared.Keys - Names(Elements(registered), shared);
    if foreign != {} {
      var name :| name in foreign;
      return Some(NoSuchCapacity(name));
    }
    fault := None;
  }

  class RuntimePools {
    var meta: map<PoolName, Meta>
    var chains: map<nat, seq<PoolName>>
    var state: State
    var waiting: map<nat, Held>
    ghost var running: seq<Held>
    ghost var log: Ledger

    /** A runtime that serves `patterns`, its shared pools and their declared limits. */
    constructor (patterns: set<nat>, shared: seq<(nat, seq<nat>)>, declared: map<PoolName, nat>)
      ensures AtRest(View()) && Now() == Run(View(), [])
      ensures chains.Keys == patterns && forall p :: p in patterns ==> chains[p] == Chain(p, shared)
      ensures meta.Keys == Names(patterns, shared)
      ensures forall n :: n in meta ==> meta[n] == Meta(if n in declared then declared[n] else 0, None)
    {
      var names := Names(patterns, shared);
      var metas := map n | n in names :: Meta(if n in declared then declared[n] else 0, None);
      meta := metas;
      chains := map p | p in patterns :: Chain(p, shared);
      state := State(map n | n in names :: Pool(LimitOf(metas[n]), 0), [], 0);
      waiting := map[];
      running, log := [], Ledger([], [], [], map[]);
      new;
      forall p, n | p in chains && n in chains[p] ensures n in state.pools.Keys {
        ChainIff(p, shared, n);
      }
    }

    /** A runtime, if its declarations are good. */
    static method Declare(registered: seq<nat>, shared: seq<(nat, seq<nat>)>, declared: map<PoolName, nat>)
        returns (r: Result<RuntimePools, Undeclared>)
      ensures r.Ok?
         <==> NoneTwice(registered) && EveryPoolServed(shared, registered) && declared.Keys <= Names(Elements(registered), shared)
      ensures r.Ok? ==> var pools := r.value;
        && fresh(pools) && AtRest(pools.View()) && pools.Now() == Run(pools.View(), [])
        && (forall p :: p in pools.chains <==> p in registered) && (forall p :: p in registered ==> pools.chains[p] == Chain(p, shared))
        && pools.meta.Keys == Names(Elements(registered), shared)
        && forall n :: n in pools.meta ==> pools.meta[n] == Meta(if n in declared then declared[n] else 0, None)
      ensures r.Err? ==> FirstFault(r.error, registered, shared, declared)
    {
      var fault := Examine(registered, shared, declared);
      if fault.Some? {
        return Err(fault.value);
      }
      var pools := new RuntimePools(Elements(registered), shared, declared);
      r := Ok(pools);
    }

    ghost function View(): Runtime
      reads this
    {
      Runtime(meta, chains, state, waiting)
    }

    ghost function Now(): Book
      reads this
    {
      Book(View(), running, log)
    }

    /** `Ok(None)`: admitted. `Ok(Some(position))`: in line. */
    method Arriving(pattern: nat, request: nat) returns (r: Result<Option<nat>, Fault>)
      requires Accounted(Now())
      modifies this
      ensures Accounted(Now()) && Now() == ArriveCall(old(Now()), pattern, request).0
      ensures r == AnswerOf(ArriveFor(old(View()), pattern, request))
    {
      if pattern !in chains {
        return Err(UnregisteredPattern);
      }
      ArriveAccounted(Now(), pattern, request);
      ArriveStep(Now(), Held(pattern, request));
      match Arrive(state, chains[pattern])
      case Admitted(s) =>
        state := s;
        running, log := running + [Held(pattern, request)], log.(arrived := log.arrived + [Held(pattern, request)]);
        r := Ok(None);
      case Queued(s, ticket, position) =>
        log := log.(arrived := log.arrived + [Held(pattern, request)], given := log.given[state.next := Held(pattern, request)]);
        state := s;
        waiting := waiting[ticket := Held(pattern, request)];
        r := Ok(Some(position));
      case UnknownPool =>
        r := Err(NoSuchPool);
    }

    /** Every pool of the chain is looked at before any is released. `k` is the
        place of the finished request among the running ones. */
    method ReleaseOne(pattern: nat, ghost k: nat) returns (r: Result<(), Fault>)
      requires Served(View())
      modifies this
      ensures match ReleaseFor(old(View()), pattern)
              case Done(after, _) => r == Ok(()) && View() == after
              case Raised(f) => r == Err(f) && View() == old(View())
      ensures old(Accounted(Now())) && k < old(|running|) && old(running)[k].pattern == pattern ==>
                r == Ok(()) && Accounted(Now()) && Now() == FinishCall(old(Now()), k).0
    {
      if Accounted(Now()) && k < |running| {
        FinishAccounted(Now(), k);
        FinishStep(Now(), k);
      }
      if pattern !in chains {
        return Err(UnregisteredPattern);
      }
      var chain := chains[pattern];
      assert forall n :: n in chain ==> n in state.pools.Keys;
      var i := 0;
      while i < |chain|
        invariant i <= |chain| && FirstIdle(state, chain, 0) == FirstIdle(state, chain, i)
      {
        if state.pools[chain[i]].active == 0 {
          return Err(BelowZero(chain[i]));
        }
        i := i + 1;
      }
      state := Release(state, chain);
      if k < |running| {
        running, log := Drop(running, k), log.(finished := log.finished + [running[k]]);
      }
      r := Ok(());
    }

    method AdmitOne() returns (r: Result<Option<Held>, Fault>)
      requires Accounted(Now())
      modifies this
      ensures Accounted(Now()) && Now() == AdmitCall(old(Now())).0
      ensures r.Ok? && (r.value == None <==> AdmitNext(old(state)) == None)
      ensures r.value.Some? ==> var ticket := AdmitNext(old(state)).value.0.ticket;
                                ticket in old(log).given && r.value.value == old(log).given[ticket]
      ensures r.value.Some? ==> running == old(running) + [r.value.value] && |state.queue| < |old(state).queue|
    {
      ghost var before := Now();
      var picked := AdmitNext(state);
      AdmitIs(before, picked);
      if picked == None {
        return Ok(None);
      }
      var ticket := picked.value.0.ticket;
      if ticket !in waiting {
        return Err(TicketNotHeld(ticket));
      }
      var held := waiting[ticket];
      state, waiting, running := picked.value.1, waiting - {ticket}, running + [held];
      assert Now() == AdmitCall(before).0;
      r := Ok(Some(held));
    }

    /** Starts whoever can go, one after the other, until nobody can. */
    method AdmitWaiting() returns (admitted: seq<Held>)
      requires Accounted(Now())
      modifies this
      ensures Accounted(Now()) && Now() == Drained(old(Now()))
      ensures state == AdmitAll(old(state)).1 && Settled(state)
      ensures running == old(running) + admitted
    {
      DrainedSettles(Now());
      admitted := [];
      var done := false;
      assert running + [] == running;
      while !done
        invariant Accounted(Now()) && Drained(old(Now())) == Drained(Now())
        invariant done ==> AdmitNext(state) == None
        invariant running == old(running) + admitted
        decreases |state.queue|, !done
      {
        DrainedStep(Now());
        var next := AdmitOne();
        if next.value.Some? {
          Associative(old(running), admitted, [next.value.value]);
          admitted := admitted + [next.value.value];
        } else {
          done := true;
        }
      }
    }

    /** The `i`-th in line and what is held for it. */
    method TakeOut(i: nat) returns (held: Held)
      requires Accounted(Now()) && i < |state.queue| && state.queue[i].ticket in waiting
      modifies this
      ensures Now() == Removed(old(Now()), i) && held == old(waiting)[old(state).queue[i].ticket]
    {
      var t := state.queue[i].ticket;
      WithoutIsDrop(state.queue, state.next, i);
      held := waiting[t];
      log := log.(cancelled := log.cancelled + [held]);
      state := Leave(state, t);
      waiting := waiting - {t};
    }

    /** Looks through the requests held, in the order they joined the line. */
    method RemoveOne(request: nat) returns (found: Option<Held>)
      requires Accounted(Now())
      modifies this
      ensures Accounted(Now()) && Now() == CancelCall(old(Now()), request).0
      ensures found.Some? <==> exists t :: t in old(waiting) && old(waiting)[t].request == request
      ensures found.Some? ==> found.value.request == request && log.cancelled == old(log).cancelled + [found.value]
    {
      CancelAccounted(Now(), request);
      FoundIff(View(), request);
      var i := PlaceOf(request);
      found := None;
      if i < |state.queue| {
        CancelStep(Now(), request, i);
        var held := TakeOut(i);
        found := Some(held);
      }
    }

    method PlaceOf(request: nat) returns (i: nat)
      ensures i == FindHeld(View(), request, 0)
    {
      i := 0;
      while i < |state.queue| && !(state.queue[i].ticket in waiting && waiting[state.queue[i].ticket].request == request)
        invariant i <= |state.queue| && FindHeld(View(), request, 0) == FindHeld(View(), request, i)
      {
        i := i + 1;
      }
    }

    method LimitChanged(pool: PoolName)
      requires pool in meta
      modifies `state
      ensures state == SetCapacity(old(state), pool, LimitOf(meta[pool]))
    {
      state := SetCapacity(state, pool, LimitOf(meta[pool]));
    }

    method Report(pool: PoolName, available: nat) returns (r: Result<(), Fault>)
      requires Accounted(Now())
      modifies this
      ensures Accounted(Now()) && Now() == ReportCall(old(Now()), pool, available).0
      ensures r == if pool in old(meta) then Ok(()) else Err(NoSuchPool)
      ensures meta == if r.Ok? then old(meta)[pool := old(meta)[pool].(available := Some(available))] else old(meta)
      ensures chains == old(chains) && waiting == old(waiting) && state.queue == old(state).queue
    {
      ReportAccounted(Now(), pool, available);
      if pool !in meta {
        return Err(NoSuchPool);
      }
      meta := meta[pool := meta[pool].(available := Some(available))];
      LimitChanged(pool);
      r := Ok(());
    }

    /** The whole batch is looked at first: an unknown pool refuses all of it. */
    method Desire(desired: map<PoolName, nat>) returns (r: Result<(), Fault>)
      requires Accounted(Now())
      modifies this
      ensures Accounted(Now()) && Now() == DesireCall(old(Now()), desired).0
      ensures r == if desired.Keys <= old(meta).Keys then Ok(()) else Err(NoSuchPool)
      ensures meta.Keys == old(meta).Keys && forall n :: n in meta ==>
                meta[n] == if r.Ok? && n in desired then old(meta)[n].(configured := desired[n]) else old(meta)[n]
      ensures chains == old(chains) && waiting == old(waiting) && state.queue == old(state).queue
    {
      DesireAccounted(Now(), desired);
      var known := AllKnown(desired);
      if !known {
        return Err(NoSuchPool);
      }
      ApplyKnown(desired);
      DesireStep(old(Now()), desired, View());
      r := Ok(());
    }

    method ApplyKnown(desired: map<PoolName, nat>)
      requires Limits(meta, state.pools) && desired.Keys <= meta.Keys
      modifies `meta, `state
      ensures ApplyDesired(old(View()), desired) == Done(View(), ())
    {
      ApplyAll(desired);
      AppliedIs(old(View()), desired, View());
    }

    method AllKnown(desired: map<PoolName, nat>) returns (known: bool)
      ensures known <==> desired.Keys <= meta.Keys
    {
      var names := desired.Keys;
      while names != {}
        invariant names <= desired.Keys && forall n :: n in desired && n !in names ==> n in meta
        decreases |names|
      {
        var n :| n in names;
        if n !in meta {
          return false;
        }
        names := names - {n};
      }
      known := true;
    }

    method ApplyAll(desired: map<PoolName, nat>)
      requires Limits(meta, state.pools) && desired.Keys <= meta.Keys
      modifies `meta, `state
      ensures Applied(old(meta), old(state), desired, desired.Keys, meta, state)
    {
      var names := desired.Keys;
      while names != {}
        invariant names <= desired.Keys
        invariant Applied(old(meta), old(state), desired, desired.Keys - names, meta, state)
        decreases |names|
      {
        var n :| n in names;
        assert desired.Keys - (names - {n}) == desired.Keys - names + {n};
        OneMoreApplied(old(meta), old(state), desired, desired.Keys - names, n, meta, state);
        meta := meta[n := meta[n].(configured := desired[n])];
        LimitChanged(n);
        names := names - {n};
      }
    }
  }

  lemma OneMoreApplied(meta: map<PoolName, Meta>, s: State, desired: map<PoolName, nat>, upTo: set<PoolName>, n: PoolName,
                       meta': map<PoolName, Meta>, s': State)
    requires Applied(meta, s, desired, upTo, meta', s') && n in desired && n in meta && n !in upTo
    ensures var next := meta'[n := meta'[n].(configured := desired[n])];
            Applied(meta, s, desired, upTo + {n}, next, SetCapacity(s', n, LimitOf(next[n])))
  {
  }

  lemma AppliedIs(r: Runtime, desired: map<PoolName, nat>, r': Runtime)
    requires desired.Keys <= r.meta.Keys && Limits(r.meta, r.state.pools)
    requires r'.chains == r.chains && r'.waiting == r.waiting
    requires Applied(r.meta, r.state, desired, desired.Keys, r'.meta, r'.state)
    ensures ApplyDesired(r, desired) == Done(r', ())
  {
    var after := ApplyDesired(r, desired);
    assert after.Done?;
    assert after.runtime.meta == r'.meta;
    assert after.runtime.state.pools == r'.state.pools;
  }

  lemma DrainedStep(b: Book)
    requires Accounted(b)
    ensures Accounted(AdmitCall(b).0) && Drained(b) == Drained(AdmitCall(b).0)
  {
    AdmitAccounted(b);
  }

  /** The book once everyone who can go was admitted. */
  function Drained(b: Book): Book
    requires Accounted(b)
    decreases |b.r.state.queue|
  {
    AdmitAccounted(b);
    if AdmitNext(b.r.state) == None then b else Drained(AdmitCall(b).0)
  }

  lemma {:induction false} DrainedSettles(b: Book)
    requires Accounted(b)
    ensures Accounted(Drained(b)) && Drained(b).r.state == AdmitAll(b.r.state).1 && Settled(Drained(b).r.state)
    decreases |b.r.state.queue|
  {
    AdmitAccounted(b);
    AdmitNextLaws(b.r.state);
    if AdmitNext(b.r.state) != None {
      DrainedSettles(AdmitCall(b).0);
    }
  }

  lemma FoundIff(r: Runtime, request: nat)
    requires Valid(r)
    ensures FindHeld(r, request, 0) < |r.state.queue| <==> exists t :: t in r.waiting && r.waiting[t].request == request
  {
    TicketsHave(r.state.queue);
    var i := FindHeld(r, request, 0);
    if i < |r.state.queue| {
      assert r.state.queue[i].ticket in r.waiting;
    }
    if t :| t in r.waiting && r.waiting[t].request == request {
      var j :| 0 <= j < |r.state.queue| && r.state.queue[j].ticket == t;
      assert Matches(r, j, request);
    }
  }

  /** The batch applied to the pools in `upTo`, and to no other. */
  predicate Applied(meta: map<PoolName, Meta>, s: State, desired: map<PoolName, nat>, upTo: set<PoolName>,
                    meta': map<PoolName, Meta>, s': State) {
    && meta'.Keys == meta.Keys == s.pools.Keys == s'.pools.Keys
    && s'.queue == s.queue && s'.next == s.next
    && forall n :: n in meta ==>
         if n in upTo && n in desired
         then meta'[n] == meta[n].(configured := desired[n]) && s'.pools[n] == s.pools[n].(capacity := LimitOf(meta'[n]))
         else meta'[n] == meta[n] && s'.pools[n] == s.pools[n]
  }

  lemma {:induction false} TicketsHave(queue: seq<Waiter>)
    ensures forall t :: t in Tickets(queue) <==> exists i :: 0 <= i < |queue| && queue[i].ticket == t
  {
    if queue != [] {
      var front := queue[..|queue| - 1];
      TicketsHave(front);
      forall t | t in Tickets(front) ensures exists i :: 0 <= i < |queue| && queue[i].ticket == t {
        var i :| 0 <= i < |front| && front[i].ticket == t;
        assert queue[i].ticket == t;
      }
      forall i | 0 <= i < |queue| ensures queue[i].ticket in Tickets(queue) {
        assert i < |front| ==> front[i].ticket in Tickets(front);
      }
    }
  }
}
