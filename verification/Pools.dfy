/**
 Concurrency pools: a request is admitted through every pool of its cap's chain
 at once, or it waits in one line for all caps. First the decisions on values,
 then the accounts that hold over every run of a runtime.
 */
module Pools {
  import opened Common

  /** A registered cap is a pool of one, named by the cap; the manifest declares
      shared pools of several; and one pool has every cap. */
  datatype PoolName = OfCap(cap: nat) | Shared(id: nat) | All

  /** `capacity` 0 is no limit. */
  datatype Pool = Pool(capacity: nat, active: nat)

  datatype Waiter = Waiter(ticket: nat, chain: seq<PoolName>)

  datatype State = State(pools: map<PoolName, Pool>, queue: seq<Waiter>, next: nat)

  predicate RoomIn(p: Pool) {
    p.capacity == 0 || p.active < p.capacity
  }

  predicate HasRoom(s: State, chain: seq<PoolName>) {
    forall n :: n in s.pools && n in chain ==> RoomIn(s.pools[n])
  }

  /** Nobody in line could go. */
  predicate Settled(s: State) {
    forall w :: w in s.queue ==> !HasRoom(s, w.chain)
  }

  function Take(s: State, chain: seq<PoolName>): State {
    s.(pools := map n | n in s.pools ::
      if n in chain then s.pools[n].(active := s.pools[n].active + 1) else s.pools[n])
  }

  function Release(s: State, chain: seq<PoolName>): State {
    s.(pools := map n | n in s.pools ::
      if n in chain && s.pools[n].active > 0 then s.pools[n].(active := s.pools[n].active - 1) else s.pools[n])
  }

  /** The place in line of the first who can go; the line's length if none can. */
  function FirstAdmissible(s: State, from: nat): (k: nat)
    requires from <= |s.queue|
    ensures from <= k <= |s.queue|
    ensures k < |s.queue| ==> HasRoom(s, s.queue[k].chain)
    ensures forall i :: from <= i < k ==> !HasRoom(s, s.queue[i].chain)
    decreases |s.queue| - from
  {
    if from == |s.queue| || HasRoom(s, s.queue[from].chain) then from else FirstAdmissible(s, from + 1)
  }

  function Drop<T>(q: seq<T>, k: nat): seq<T>
    requires k < |q|
  {
    q[..k] + q[k + 1..]
  }

  function AdmitNext(s: State): Option<(Waiter, State)> {
    var k := FirstAdmissible(s, 0);
    if k == |s.queue| then None
    else Some((s.queue[k], Take(s, s.queue[k].chain).(queue := Drop(s.queue, k))))
  }

  datatype Arrival =
    | Admitted(state: State)
    | Queued(state: State, ticket: nat, position: nat)
    | UnknownPool

  predicate IsFor(w: Waiter, cap: PoolName) {
    w.chain != [] && w.chain[0] == cap
  }

  /** How many wait for the cap `cap`, among the first `n` in line. */
  function WaitingOn(queue: seq<Waiter>, cap: PoolName): nat {
    if queue == [] then 0
    else WaitingOn(queue[..|queue| - 1], cap) + if IsFor(queue[|queue| - 1], cap) then 1 else 0
  }

  function Arrive(s: State, chain: seq<PoolName>): Arrival {
    if exists n :: n in chain && n !in s.pools then UnknownPool
    else if Settled(s) && HasRoom(s, chain) then Admitted(Take(s, chain).(next := s.next + 1))
    else
      var queue := s.queue + [Waiter(s.next, chain)];
      Queued(s.(queue := queue, next := s.next + 1), s.next, if chain == [] then 0 else WaitingOn(queue, chain[0]))
  }

  function Leave(s: State, ticket: nat): State {
    s.(queue := Without(s.queue, ticket))
  }

  function Without(queue: seq<Waiter>, ticket: nat): seq<Waiter> {
    if queue == [] then []
    else
      var last := queue[|queue| - 1];
      Without(queue[..|queue| - 1], ticket) + if last.ticket == ticket then [] else [last]
  }

  function SetCapacity(s: State, name: PoolName, capacity: nat): State {
    s.(pools := s.pools[name := if name in s.pools then s.pools[name].(capacity := capacity) else Pool(capacity, 0)])
  }

  /** Only the named pool has it then: idle if it is new, as busy as it was if not. */
  lemma SetCapacityIs(s: State, name: PoolName, capacity: nat)
    ensures var t := SetCapacity(s, name, capacity);
            && t.queue == s.queue && t.next == s.next && t.pools.Keys == s.pools.Keys + {name}
            && t.pools[name].capacity == capacity && t.pools[name].active == (if name in s.pools then s.pools[name].active else 0)
            && forall n :: n in s.pools && n != name ==> t.pools[n] == s.pools[n]
  {
  }

  /** The operator's number and the cartridge's own, the smaller of the two, 0
      and absence being no limit. */
  function Effective(configured: nat, available: Option<nat>): nat {
    if available.None? || available.value == 0 then configured
    else if configured == 0 then available.value
    else Min(configured, available.value)
  }

  /** A cap's chain: its own pool, every shared pool it is a member of, and `all`. */
  function Chain(cap: nat, shared: seq<(nat, seq<nat>)>): seq<PoolName> {
    [OfCap(cap)] + Sharing(cap, shared) + [All]
  }

  function Sharing(cap: nat, shared: seq<(nat, seq<nat>)>): seq<PoolName> {
    if shared == [] then []
    else
      var last := shared[|shared| - 1];
      Sharing(cap, shared[..|shared| - 1]) + if cap in last.1 then [Shared(last.0)] else []
  }

  // Laws of the decisions

  /** Of those who can go, the one who has waited longest goes, and takes a slot
      in exactly the pools of its chain, none of them above its limit. */
  lemma AdmitNextLaws(s: State)
    ensures AdmitNext(s) == None <==> Settled(s)
    ensures AdmitNext(s).Some? ==>
              var w, t := AdmitNext(s).value.0, AdmitNext(s).value.1;
              && (exists k :: 0 <= k < |s.queue| && s.queue[k] == w && t.queue == Drop(s.queue, k)
                           && forall i :: 0 <= i < k ==> !HasRoom(s, s.queue[i].chain))
              && HasRoom(s, w.chain) && t.next == s.next && t.pools.Keys == s.pools.Keys
              && Charged(s, t, w.chain)
  {
  }

  /** `t` has one more active request in each pool of the chain, still within the
      limit, and the same in every other. */
  predicate Charged(s: State, t: State, chain: seq<PoolName>) {
    forall n :: n in s.pools && n in t.pools ==>
      && t.pools[n].capacity == s.pools[n].capacity
      && t.pools[n].active == s.pools[n].active + (if n in chain then 1 else 0)
      && (n in chain && t.pools[n].capacity > 0 ==> t.pools[n].active <= t.pools[n].capacity)
  }

  /** A newcomer is admitted at once exactly when its chain has room and nobody in
      line could go instead. */
  lemma ArriveAdmitsIff(s: State, chain: seq<PoolName>)
    requires forall n :: n in chain ==> n in s.pools
    ensures Arrive(s, chain).Admitted? <==> AdmitNext(s) == None && HasRoom(s, chain)
    ensures Arrive(s, chain).Admitted? ==> Settled(Arrive(s, chain).state)
    ensures Arrive(s, chain).Queued? && Settled(s) ==> Settled(Arrive(s, chain).state)
  {
    AdmitNextLaws(s);
    if Arrive(s, chain).Admitted? {
      forall w | w in s.queue ensures !HasRoom(Arrive(s, chain).state, w.chain) {
        assert !HasRoom(s, w.chain);
        var n :| n in s.pools && n in w.chain && !RoomIn(s.pools[n]);
        assert !RoomIn(Arrive(s, chain).state.pools[n]);
      }
    }
  }

  lemma ReleaseUndoesTake(s: State, chain: seq<PoolName>)
    ensures Release(Take(s, chain), chain) == s
  {
    assert Release(Take(s, chain), chain).pools == s.pools;
  }

  /** A limit of 0 is none. */
  predicate Fits(active: nat, limit: nat) {
    limit == 0 || active <= limit
  }

  /** The pool's limit lets in exactly what both numbers let in; and it is the only
      such number. */
  lemma EffectiveIff(configured: nat, available: Option<nat>, limit: nat)
    ensures (forall active: nat :: Fits(active, limit) <==> Fits(active, configured) && (available.Some? ==> Fits(active, available.value)))
       <==> limit == Effective(configured, available)
  {
    var e := Effective(configured, available);
    if forall active: nat :: Fits(active, limit) <==> Fits(active, configured) && (available.Some? ==> Fits(active, available.value)) {
      assert Fits(limit, limit) && Fits(e, e) && (Fits(limit + 1, limit) <==> limit == 0) && (Fits(e + 1, e) <==> e == 0);
      assert Fits(limit, e) && Fits(e, limit) && (Fits(limit + 1, e) <==> Fits(limit + 1, limit)) && (Fits(e + 1, e) <==> Fits(e + 1, limit));
    }
  }

  lemma {:induction false} ChainHas(cap: nat, shared: seq<(nat, seq<nat>)>, name: PoolName)
    ensures name in Sharing(cap, shared) <==> exists p :: p in shared && name == Shared(p.0) && cap in p.1
  {
    if shared != [] {
      ChainHas(cap, shared[..|shared| - 1], name);
      assert shared == shared[..|shared| - 1] + [shared[|shared| - 1]];
    }
  }

  /** A dispatch goes through its own cap's pool first, every shared pool that has
      it, and the pool of all. */
  lemma ChainIff(cap: nat, shared: seq<(nat, seq<nat>)>, name: PoolName)
    ensures Chain(cap, shared)[0] == OfCap(cap)
    ensures name in Chain(cap, shared)
       <==> name == OfCap(cap) || name == All || exists p :: p in shared && name == Shared(p.0) && cap in p.1
  {
    ChainHas(cap, shared, name);
  }

  /** The shared pools come in the order they were declared, between the two. */
  lemma ChainInOrder(cap: nat, shared: seq<(nat, seq<nat>)>, last: (nat, seq<nat>))
    ensures Chain(cap, []) == [OfCap(cap), All]
    ensures var before := Chain(cap, shared);
            && before != [] && before[|before| - 1] == All
            && Chain(cap, shared + [last]) == before[..|before| - 1] + (if cap in last.1 then [Shared(last.0)] else []) + [All]
  {
    assert (shared + [last])[..|shared|] == shared;
    var before := Chain(cap, shared);
    assert before[..|before| - 1] == [OfCap(cap)] + Sharing(cap, shared);
  }

  /** The places in line of those whose own pool is the cap's. */
  ghost function PlacesOf(queue: seq<Waiter>, cap: PoolName): set<int> {
    set i | 0 <= i < |queue| && queue[i].chain != [] && queue[i].chain[0] == cap
  }

  lemma PlacesSnoc(queue: seq<Waiter>, w: Waiter, cap: PoolName)
    ensures PlacesOf(queue + [w], cap) == PlacesOf(queue, cap) + if w.chain != [] && w.chain[0] == cap then {|queue|} else {}
  {
    assert forall i :: 0 <= i < |queue| ==> (queue + [w])[i] == queue[i];
    assert (queue + [w])[|queue|] == w;
  }

  lemma {:induction false} WaitingOnCounts(queue: seq<Waiter>, cap: PoolName)
    ensures WaitingOn(queue, cap) == |PlacesOf(queue, cap)|
  {
    if queue != [] {
      var front, w := queue[..|queue| - 1], queue[|queue| - 1];
      assert queue == front + [w];
      WaitingOnCounts(front, cap);
      PlacesSnoc(front, w, cap);
      assert |front| !in PlacesOf(front, cap);
    }
  }

  /** Whoever is put in line is last, with the next ticket, and is told how many of its
      own cap are in line with it. */
  lemma QueuedLast(s: State, chain: seq<PoolName>)
    requires Arrive(s, chain).Queued?
    ensures var a := Arrive(s, chain);
            && a.state.queue == s.queue + [Waiter(s.next, chain)] && a.ticket == s.next && a.state.next == s.next + 1
            && a.state.pools == s.pools
            && a.position == if chain == [] then 0 else |PlacesOf(a.state.queue, chain[0])|
  {
    if chain != [] {
      WaitingOnCounts(s.queue + [Waiter(s.next, chain)], chain[0]);
    }
  }

  // Admitting everyone who can go

  /** Everyone admitted, in order, and what is left. */
  function AdmitAll(s: State): (r: (seq<Waiter>, State))
    decreases |s.queue|
  {
    match AdmitNext(s)
    case None => ([], s)
    case Some(next) => var rest := AdmitAll(next.1); ([next.0] + rest.0, rest.1)
  }

  /** How many of `admitted` go through pool `n`. */
  function Through(admitted: seq<Waiter>, n: PoolName): nat {
    if admitted == [] then 0 else (if n in admitted[0].chain then 1 else 0) + Through(admitted[1..], n)
  }

  predicate ChargedBy(p: Pool, q: Pool, n: PoolName, admitted: seq<Waiter>) {
    && q.capacity == p.capacity && q.active == p.active + Through(admitted, n)
    && (q.capacity > 0 && q.active > p.active ==> q.active <= q.capacity)
  }

  lemma {:induction false} AdmitAllCharges(s: State, n: PoolName)
    requires n in s.pools
    ensures var r := AdmitAll(s); n in r.1.pools && ChargedBy(s.pools[n], r.1.pools[n], n, r.0)
    decreases |s.queue|
  {
    AdmitNextLaws(s);
    if AdmitNext(s).Some? {
      var w, t := AdmitNext(s).value.0, AdmitNext(s).value.1;
      AdmitAllCharges(t, n);
      assert ([w] + AdmitAll(t).0)[1..] == AdmitAll(t).0;
    }
  }

  lemma DropMultiset<T>(q: seq<T>, k: nat)
    requires k < |q|
    ensures multiset(q) == multiset{q[k]} + multiset(Drop(q, k))
  {
    assert q == q[..k] + [q[k]] + q[k + 1..];
  }

  /** It stops with nobody left who could go, having moved everyone it admitted
      out of line and onto the pools, no limited pool beyond its limit. */
  lemma {:induction false} AdmitAllSettles(s: State)
    ensures var r := AdmitAll(s);
            && Settled(r.1) && r.1.next == s.next
            && multiset(s.queue) == multiset(r.0) + multiset(r.1.queue)
            && forall n :: n in s.pools ==> n in r.1.pools && ChargedBy(s.pools[n], r.1.pools[n], n, r.0)
    decreases |s.queue|
  {
    forall n | n in s.pools ensures n in AdmitAll(s).1.pools && ChargedBy(s.pools[n], AdmitAll(s).1.pools[n], n, AdmitAll(s).0) {
      AdmitAllCharges(s, n);
    }
    AdmitNextLaws(s);
    if AdmitNext(s).Some? {
      var w, t := AdmitNext(s).value.0, AdmitNext(s).value.1;
      DropMultiset(s.queue, FirstAdmissible(s, 0));
      AdmitAllSettles(t);
      assert multiset([w] + AdmitAll(t).0) == multiset{w} + multiset(AdmitAll(t).0);
    }
  }

  // The admission loops between the locks

  /** New limits for several pools, under one lock. */
  function Relimit(s: State, limits: map<PoolName, nat>): State {
    s.(pools := map n | n in s.pools ::
      if n in limits then s.pools[n].(capacity := limits[n]) else s.pools[n])
  }

  /** Each named pool has its new limit; nothing else changes, and nobody is stopped. */
  lemma RelimitIs(s: State, limits: map<PoolName, nat>)
    ensures var t := Relimit(s, limits);
            && t.queue == s.queue && t.next == s.next && t.pools.Keys == s.pools.Keys
            && (forall n :: n in s.pools ==> t.pools[n].active == s.pools[n].active)
            && (forall n :: n in s.pools && n in limits ==> t.pools[n].capacity == limits[n])
            && (forall n :: n in s.pools && n !in limits ==> t.pools[n].capacity == s.pools[n].capacity)
  {
  }

  /** The pools, and how many admission loops have been called and not ended. */
  datatype Desk = Desk(state: State, owed: nat)

  /** What happens under the pools lock. Between any two of these another thread
      may take the lock. */
  datatype Event =
    | Comes(chain: seq<PoolName>)
    | Ends(chain: seq<PoolName>)
    | Goes(ticket: nat)
    | Relimits(limits: map<PoolName, nat>)
    | Turns                                    // one round of some admission loop

  /** A request's end, a new limit and a newcomer put in line each call an admission
      loop; a loop goes round until a round admits nobody. */
  function Serve(d: Desk, e: Event): Desk {
    match e
    case Comes(chain) => (
      match Arrive(d.state, chain)
      case Admitted(t) => d.(state := t)
      case Queued(t, _, _) => Desk(t, d.owed + 1)
      case UnknownPool => d)
    case Ends(chain) => Desk(Release(d.state, chain), d.owed + 1)
    case Goes(ticket) => d.(state := Leave(d.state, ticket))
    case Relimits(limits) => Desk(Relimit(d.state, limits), d.owed + 1)
    case Turns =>
      if d.owed == 0 then d
      else match AdmitNext(d.state) case None => d.(owed := d.owed - 1) case Some(next) => d.(state := next.1)
  }

  function ServeAll(d: Desk, events: seq<Event>): Desk {
    if events == [] then d else Serve(ServeAll(d, events[..|events| - 1]), events[|events| - 1])
  }

  lemma {:induction false} WithoutSubset(queue: seq<Waiter>, ticket: nat)
    ensures forall w :: w in Without(queue, ticket) <==> w in queue && w.ticket != ticket
  {
    if queue != [] {
      WithoutSubset(queue[..|queue| - 1], ticket);
      assert queue == queue[..|queue| - 1] + [queue[|queue| - 1]];
    }
  }

  /** With no loop pending nobody in line could go. */
  predicate AtEase(d: Desk) {
    d.owed == 0 ==> Settled(d.state)
  }

  lemma ServeKeepsEase(d: Desk, e: Event)
    requires AtEase(d)
    ensures AtEase(Serve(d, e))
  {
    match e
    case Comes(chain) => if forall n :: n in chain ==> n in d.state.pools { ArriveAdmitsIff(d.state, chain); }
    case Goes(ticket) => if d.owed == 0 { LeaveSettles(d.state, ticket); }
    case Turns => AdmitNextLaws(d.state);
    case _ =>
  }

  lemma LeaveSettles(s: State, ticket: nat)
    requires Settled(s)
    ensures Settled(Leave(s, ticket))
  {
    WithoutSubset(s.queue, ticket);
    assert Leave(s, ticket).pools == s.pools;
    forall w | w in Leave(s, ticket).queue ensures !HasRoom(Leave(s, ticket), w.chain) {
      assert !HasRoom(s, w.chain);
    }
  }

  /** Whatever has happened, and however the threads took turns at the lock: once
      no admission loop is pending, nobody is in line whose whole chain has room,
      and a newcomer goes at once exactly when its own chain does. */
  lemma {:induction false} NobodyWaitsInVain(s: State, events: seq<Event>, chain: seq<PoolName>)
    requires s.queue == [] && forall n :: n in chain ==> n in ServeAll(Desk(s, 0), events).state.pools
    ensures var d := ServeAll(Desk(s, 0), events);
            d.owed == 0 ==> Settled(d.state) && (Arrive(d.state, chain).Admitted? <==> HasRoom(d.state, chain))
  {
    EveryDeskAtEase(Desk(s, 0), events);
  }

  lemma {:induction false} EveryDeskAtEase(d: Desk, events: seq<Event>)
    requires AtEase(d)
    ensures AtEase(ServeAll(d, events))
  {
    if events != [] {
      EveryDeskAtEase(d, events[..|events| - 1]);
      ServeKeepsEase(ServeAll(d, events[..|events| - 1]), events[|events| - 1]);
    }
  }

  function Coming(n: nat, chain: seq<PoolName>): seq<Event> {
    if n == 0 then [] else Coming(n - 1, chain) + [Comes(chain)]
  }

  lemma ComingSnoc(n: nat, chain: seq<PoolName>)
    requires n > 0
    ensures Coming(n, chain) == Coming(n - 1, chain) + [Comes(chain)]
  {
  }

  function TwoPools(p: PoolName, q: PoolName, limit: nat, active: nat): map<PoolName, Pool> {
    map[p := Pool(limit, active), q := Pool(0, 0)]
  }

  lemma ServeSnoc(d: Desk, events: seq<Event>, e: Event)
    ensures ServeAll(d, events + [e]) == Serve(ServeAll(d, events), e)
  {
    assert (events + [e])[..|events|] == events;
  }

  lemma ComesAdmitted(p: PoolName, q: PoolName, limit: nat, n: nat)
    requires p != q && n < limit
    ensures Serve(Desk(State(TwoPools(p, q, limit, n), [], n), 0), Comes([p])) == Desk(State(TwoPools(p, q, limit, n + 1), [], n + 1), 0)
  {
    var s := State(TwoPools(p, q, limit, n), [], n);
    assert Take(s, [p]).pools == TwoPools(p, q, limit, n + 1);
    assert Settled(s) && HasRoom(s, [p]);
  }

  lemma {:induction false} FillsUp(d: Desk, p: PoolName, q: PoolName, limit: nat, n: nat, chain: seq<PoolName>)
    requires p != q && n <= limit && d == Desk(State(TwoPools(p, q, limit, 0), [], 0), 0) && chain == [p]
    ensures ServeAll(d, Coming(n, chain)) == Desk(State(TwoPools(p, q, limit, n), [], n), 0)
  {
    if n > 0 {
      FillsUp(d, p, q, limit, n - 1, chain);
      ComingSnoc(n, chain);
      FillsOne(d, Coming(n - 1, chain), p, q, limit, n - 1, chain);
    }
  }

  lemma FillsOne(d: Desk, events: seq<Event>, p: PoolName, q: PoolName, limit: nat, n: nat, chain: seq<PoolName>)
    requires p != q && n < limit && chain == [p] && ServeAll(d, events) == Desk(State(TwoPools(p, q, limit, n), [], n), 0)
    ensures ServeAll(d, events + [Comes(chain)]) == Desk(State(TwoPools(p, q, limit, n + 1), [], n + 1), 0)
  {
    ServeSnoc(d, events, Comes(chain));
    ComesAdmitted(p, q, limit, n);
  }

  /** One more request waits, its loop ends, and a request in the pool does. */
  lemma OneWaits(p: PoolName, q: PoolName, limit: nat)
    requires p != q && limit > 0
    ensures Serve(Serve(Serve(Desk(State(TwoPools(p, q, limit, limit), [], limit), 0), Comes([p])), Turns), Ends([p]))
         == Desk(State(TwoPools(p, q, limit, limit - 1), [Waiter(limit, [p])], limit + 1), 1)
  {
    var s := State(TwoPools(p, q, limit, limit), [], limit);
    assert p in s.pools && p in [p] && !RoomIn(s.pools[p]);
    var waits := s.(queue := [Waiter(limit, [p])], next := limit + 1);
    assert Serve(Desk(s, 0), Comes([p])) == Desk(waits, 1);
    assert AdmitNext(waits) == None;
    assert Release(waits, [p]).pools == TwoPools(p, q, limit, limit - 1);
  }

  function AllCome(p: PoolName, limit: nat): seq<Event> {
    Coming(limit, [p]) + [Comes([p])] + [Turns] + [Ends([p])]
  }

  lemma AllServed(p: PoolName, q: PoolName, limit: nat)
    requires p != q && limit > 0
    ensures ServeAll(Desk(State(TwoPools(p, q, limit, 0), [], 0), 0), AllCome(p, limit))
         == Desk(State(TwoPools(p, q, limit, limit - 1), [Waiter(limit, [p])], limit + 1), 1)
  {
    var empty, coming := Desk(State(TwoPools(p, q, limit, 0), [], 0), 0), Coming(limit, [p]);
    FillsUp(empty, p, q, limit, limit, [p]);
    ServeSnoc(empty, coming, Comes([p]));
    ServeSnoc(empty, coming + [Comes([p])], Turns);
    ServeSnoc(empty, coming + [Comes([p])] + [Turns], Ends([p]));
    OneWaits(p, q, limit);
  }

  /** While a loop is pending this can fail. From empty pools: `limit` requests for
      pool `p` fill it, one more waits, its loop ends, and one of the requests does.
      Before the next loop has started the one in line, a newcomer with room in its
      own chain is put in line. */
  lemma NewcomerBetweenLocks(p: PoolName, q: PoolName, limit: nat)
    requires p != q && limit > 0
    ensures var d := ServeAll(Desk(State(TwoPools(p, q, limit, 0), [], 0), 0), AllCome(p, limit));
            && d.owed == 1 && !Settled(d.state)
            && HasRoom(d.state, [q]) && Arrive(d.state, [q]).Queued?
  {
    AllServed(p, q, limit);
    var s := State(TwoPools(p, q, limit, limit - 1), [Waiter(limit, [p])], limit + 1);
    assert Waiter(limit, [p]) in s.queue && HasRoom(s, [p]) && HasRoom(s, [q]) && q in s.pools;
  }

  function Turned(d: Desk, n: nat): Desk
    decreases n
  {
    if n == 0 then d else Turned(Serve(d, Turns), n - 1)
  }

  /** Loops that are left alone end: after as many rounds as there are requests in
      line and loops pending, everyone who can go has been started. */
  lemma {:induction false} LoopsEnd(d: Desk, n: nat)
    requires n >= |d.state.queue| + d.owed
    ensures Turned(d, n).owed == 0
    ensures d.owed > 0 ==> Turned(d, n).state == AdmitAll(d.state).1
    decreases n
  {
    if d.owed == 0 {
      NoneTurns(d, n);
    } else {
      AdmitNextLaws(d.state);
      LoopsEnd(Serve(d, Turns), n - 1);
      if d.owed == 1 && AdmitNext(d.state) == None {
        NoneTurns(Serve(d, Turns), n - 1);
      }
    }
  }

  lemma {:induction false} NoneTurns(d: Desk, n: nat)
    requires d.owed == 0
    ensures Turned(d, n) == d
  {
    if n > 0 {
      NoneTurns(d, n - 1);
    }
  }

  /** The admission loops called: at every end and new limit, and by whoever is put in
      line. */
  function Called(d: Desk, events: seq<Event>): nat {
    if events == [] then 0
    else
      var front, last := events[..|events| - 1], events[|events| - 1];
      var before, after := ServeAll(d, front).state, ServeAll(d, events).state;
      var calls := last.Ends? || last.Relimits? || (last.Comes? && |after.queue| > |before.queue|);
      Called(d, front) + if calls then 1 else 0
  }

  /** The rounds that found nobody to admit. */
  function InVain(d: Desk, events: seq<Event>): nat {
    if events == [] then 0
    else
      var before := ServeAll(d, events[..|events| - 1]);
      InVain(d, events[..|events| - 1]) + if events[|events| - 1].Turns? && before.owed > 0 && Settled(before.state) then 1 else 0
  }

  /** A loop that was called is pending until a round of it finds nobody. */
  lemma {:induction false} EveryCallEndsOnce(d: Desk, events: seq<Event>)
    ensures ServeAll(d, events).owed + InVain(d, events) == d.owed + Called(d, events)
  {
    if events != [] {
      var front := events[..|events| - 1];
      EveryCallEndsOnce(d, front);
      AdmitNextLaws(ServeAll(d, front).state);
    }
  }
}
