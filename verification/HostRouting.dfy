/**
 A host's routing of continuation frames, and when a request's entry is
 released: after its body's terminal and its response's, in either order.
 */
module HostRouting {
  import opened Common
  import opened Frames
  import opened RoutingGc

  type Rid = nat

  datatype Key = Key(xid: nat, rid: Rid)

  datatype Direction = Response | Request

  const RECENT_RELEASED_CAP: nat := 64

  /** Frames counted, by type. */
  type Counts = map<FrameType, nat>

  function Bump(c: Counts, t: FrameType): Counts {
    c[t := if t in c then c[t] + 1 else 1]
  }

  datatype Counters = Counters(noRoute: Counts, stragglers: Counts)

  /** A routing table and the stamps of when each entry was last used. */
  datatype Table<K, V> = Table(entries: map<K, V>, touched: map<K, nat>)

  /** Requests whose body is over, and requests whose response is. */
  datatype Marks = Marks(body: set<Key>, response: set<Key>)

  datatype Ring = Ring(ids: seq<Rid>)

  datatype Host = Host(incoming: Table<Key, nat>, outgoing: Table<Rid, nat>, marks: Marks, released: Ring,
                       clock: nat, counters: Counters)

  // The ring of released ids

  function NoteReleased(recent: seq<Rid>, rid: Rid): seq<Rid> {
    if rid in recent then recent
    else if |recent| == RECENT_RELEASED_CAP then recent[1..] + [rid]
    else recent + [rid]
  }

  function NoteAll(recent: seq<Rid>, rids: seq<Rid>): seq<Rid> {
    if rids == [] then recent else NoteReleased(NoteAll(recent, rids[..|rids| - 1]), rids[|rids| - 1])
  }

  predicate Distinct<T(==)>(s: seq<T>) {
    s == [] || (s[|s| - 1] !in s[..|s| - 1] && Distinct(s[..|s| - 1]))
  }

  predicate Bounded(recent: seq<Rid>) {
    Distinct(recent) && |recent| <= RECENT_RELEASED_CAP
  }

  lemma {:induction false} DistinctTail<T>(s: seq<T>)
    requires Distinct(s) && s != []
    ensures Distinct(s[1..])
  {
    if |s| > 1 {
      DistinctTail(s[..|s| - 1]);
      assert s[1..][..|s| - 2] == s[..|s| - 1][1..];
    }
  }

  lemma {:induction false} DistinctAt<T>(s: seq<T>, i: nat, j: nat)
    requires Distinct(s) && i < j < |s|
    ensures s[i] != s[j]
  {
    if j < |s| - 1 {
      DistinctAt(s[..|s| - 1], i, j);
    }
  }

  lemma NoteKeepsRing(recent: seq<Rid>, rid: Rid)
    requires Bounded(recent)
    ensures Bounded(NoteReleased(recent, rid)) && rid in NoteReleased(recent, rid)
  {
    if rid !in recent && |recent| == RECENT_RELEASED_CAP {
      DistinctTail(recent);
    }
  }

  /** Those of `rids` that are not in the ring when they are released. */
  function Entered(recent: seq<Rid>, rids: seq<Rid>): (entered: seq<Rid>)
    ensures |entered| <= |rids|
  {
    if rids == [] then []
    else
      var front, last := rids[..|rids| - 1], rids[|rids| - 1];
      Entered(recent, front) + if last in NoteAll(recent, front) then [] else [last]
  }

  function Latest(all: seq<Rid>): seq<Rid> {
    all[Max(0, |all| - RECENT_RELEASED_CAP)..]
  }

  lemma NoteLatest(all: seq<Rid>, rid: Rid)
    requires rid !in Latest(all)
    ensures NoteReleased(Latest(all), rid) == Latest(all + [rid])
  {
  }

  lemma {:induction false} EnteredAreReleased(recent: seq<Rid>, rids: seq<Rid>)
    ensures forall r :: r in Entered(recent, rids) ==> r in rids
  {
    if rids != [] {
      EnteredAreReleased(recent, rids[..|rids| - 1]);
      assert rids == rids[..|rids| - 1] + [rids[|rids| - 1]];
    }
  }

  /** The ring holds the latest of those that entered it. */
  lemma {:induction false} RingIsSuffix(recent: seq<Rid>, rids: seq<Rid>)
    requires Bounded(recent)
    ensures Bounded(NoteAll(recent, rids)) && NoteAll(recent, rids) == Latest(recent + Entered(recent, rids))
  {
    if rids == [] {
      assert recent + [] == recent;
    } else {
      var front, last := rids[..|rids| - 1], rids[|rids| - 1];
      RingIsSuffix(recent, front);
      NoteKeepsRing(NoteAll(recent, front), last);
      var all := recent + Entered(recent, front);
      if last in NoteAll(recent, front) {
        assert Entered(recent, rids) == Entered(recent, front);
      } else {
        NoteLatest(all, last);
        assert recent + Entered(recent, rids) == all + [last];
      }
    }
  }

  /** Of ids not in the ring and all different, every one enters it. */
  lemma {:induction false} NewOnesEnter(recent: seq<Rid>, rids: seq<Rid>)
    requires Bounded(recent) && Distinct(rids) && forall r :: r in rids ==> r !in recent
    ensures Entered(recent, rids) == rids
  {
    if rids != [] {
      var front, last := rids[..|rids| - 1], rids[|rids| - 1];
      assert rids == front + [last];
      NewOnesEnter(recent, front);
      RingIsSuffix(recent, front);
      assert Entered(recent, front) == front;
      assert last in rids && forall r :: r in NoteAll(recent, front) ==> r in recent + front;
    }
  }

  lemma InLatestIff(all: seq<Rid>, rid: Rid)
    ensures rid in Latest(all) <==> exists at :: 0 <= at < |all| && all[at] == rid && |all| - at <= RECENT_RELEASED_CAP
  {
    var cut := Max(0, |all| - RECENT_RELEASED_CAP);
    if at :| 0 <= at < |all| && all[at] == rid && |all| - at <= RECENT_RELEASED_CAP {
      assert all[cut..][at - cut] == rid;
    }
    if rid in all[cut..] {
      var i :| 0 <= i < |all| - cut && all[cut..][i] == rid;
      assert all[cut + i] == rid;
    }
  }

  /** An id is known, after whatever releases, its own included, exactly when it is
      among the latest that entered the ring; a release of an id that is still in the
      ring changes nothing, and leaves it its old place. */
  lemma StillKnownIff(recent: seq<Rid>, rids: seq<Rid>, rid: Rid)
    requires Bounded(recent)
    ensures var all := recent + Entered(recent, rids);
            rid in NoteAll(recent, rids) <==> exists at :: 0 <= at < |all| && all[at] == rid && |all| - at <= 64
  {
    RingIsSuffix(recent, rids);
    InLatestIff(recent + Entered(recent, rids), rid);
  }

  /** The input that shows it: the oldest id of a full ring is released again, and
      is forgotten after one other release. */
  lemma ReleasedAgainIsForgotten(recent: seq<Rid>, other: Rid)
    requires Bounded(recent) && |recent| == RECENT_RELEASED_CAP && other !in recent
    ensures recent[0] !in NoteAll(recent, [recent[0], other])
  {
    var rids := [recent[0], other];
    assert rids[..1] == [recent[0]] && rids[..1][..0] == [];
    assert NoteAll(recent, rids[..1]) == recent;
    assert NoteAll(recent, rids) == recent[1..] + [other];
    forall i | 1 <= i < |recent| ensures recent[i] != recent[0] {
      DistinctAt(recent, 0, i);
    }
  }

  /** An id that is not released again is known exactly when those that entered the
      ring have not pushed it out. New and different ids all enter. */
  lemma PushedOutIff(recent: seq<Rid>, at: nat, rids: seq<Rid>)
    requires Bounded(recent) && at < |recent| && recent[at] !in rids
    ensures recent[at] in NoteAll(recent, rids) <==> |recent| - at + |Entered(recent, rids)| <= 64
    ensures Distinct(rids) && (forall r :: r in rids ==> r !in recent) ==> |Entered(recent, rids)| == |rids|
  {
    var entered := Entered(recent, rids);
    var all := recent + entered;
    RingIsSuffix(recent, rids);
    EnteredAreReleased(recent, rids);
    forall i | 0 <= i < |all| && i != at ensures all[i] != all[at] {
      if i < |recent| {
        DistinctAt(recent, Min(i, at), Max(i, at));
      } else {
        assert all[i] == entered[i - |recent|] && all[i] in entered;
      }
    }
    InSuffixIff(all, at, Max(0, |all| - RECENT_RELEASED_CAP));
    if Distinct(rids) && forall r :: r in rids ==> r !in recent {
      NewOnesEnter(recent, rids);
    }
  }

  lemma InSuffixIff<T>(s: seq<T>, at: nat, cut: nat)
    requires at < |s| && cut <= |s| && forall i :: 0 <= i < |s| && i != at ==> s[i] != s[at]
    ensures s[at] in s[cut..] <==> cut <= at
  {
    if cut <= at {
      assert s[cut..][at - cut] == s[at];
    }
  }

  // The two live terminal markers

  /** A request's body can be over, or its response, but an entry with both over
      is released; and only live entries are marked. */
  predicate Marked(h: Host) {
    h.marks.body !! h.marks.response && h.marks.body + h.marks.response <= h.incoming.entries.Keys
  }

  predicate Stamped<K, V>(t: Table<K, V>, clock: nat) {
    forall k :: k in t.touched ==> k in t.entries && t.touched[k] <= clock
  }

  predicate Valid(h: Host) {
    Marked(h) && Bounded(h.released.ids) && Stamped(h.incoming, h.clock) && Stamped(h.outgoing, h.clock)
  }

  function Touch<K, V>(t: Table<K, V>, k: K, stamp: nat): Table<K, V> {
    t.(touched := t.touched[k := stamp])
  }

  function Pop<K, V>(t: Table<K, V>, k: K): Table<K, V> {
    Table(t.entries - {k}, t.touched - {k})
  }

  function Note(r: Ring, rid: Rid): Ring {
    Ring(NoteReleased(r.ids, rid))
  }

  function TouchIncoming(h: Host, key: Key): Host {
    h.(clock := h.clock + 1, incoming := Touch(h.incoming, key, h.clock + 1))
  }

  function TouchOutgoing(h: Host, rid: Rid): Host {
    h.(clock := h.clock + 1, outgoing := Touch(h.outgoing, rid, h.clock + 1))
  }

  /** The entry goes with whatever marks `marks` no longer has. */
  function PopIncoming(h: Host, key: Key, marks: Marks): Host {
    h.(incoming := Pop(h.incoming, key), released := Note(h.released, key.rid), marks := marks)
  }

  function ReleaseOutgoing(h: Host, rid: Rid): Host {
    h.(outgoing := Pop(h.outgoing, rid), released := Note(h.released, rid))
  }

  function DropNoRoute(c: Counters, t: FrameType): Counters {
    c.(noRoute := Bump(c.noRoute, t))
  }

  function Unrouted(c: Counters, t: FrameType, known: bool): Counters {
    if known then c.(stragglers := Bump(c.stragglers, t)) else DropNoRoute(c, t)
  }

  datatype Side = Handler(cartridge: nat) | Peer(cartridge: nat) | Nowhere

  /** Where a frame goes: to the handler of an incoming request, or back to the
      cartridge that made a peer call. */
  function SideOf(h: Host, key: Key, preferIncoming: bool): Side {
    if preferIncoming && key in h.incoming.entries then Handler(h.incoming.entries[key])
    else if key.rid in h.outgoing.entries then Peer(h.outgoing.entries[key.rid])
    else if key in h.incoming.entries then Handler(h.incoming.entries[key])
    else Nowhere
  }

  function Prefers(h: Host, key: Key, t: FrameType, direction: Option<Direction>): bool {
    if t == Credit then direction == Some(Response) else key !in h.marks.body
  }

  function UnmarkBody(m: Marks, key: Key): Marks {
    m.(body := m.body - {key})
  }

  function UnmarkResponse(m: Marks, key: Key): Marks {
    m.(response := m.response - {key})
  }

  /** The terminal of a request's body, at the handler: the entry stays for the
      response, unless the response was over first. */
  function BodyEnds(h: Host, key: Key): Host {
    if key in h.marks.response then PopIncoming(h, key, UnmarkResponse(h.marks, key))
    else h.(marks := h.marks.(body := h.marks.body + {key}))
  }

  /** What the frame's delivery to `side` changes, beyond the entry's stamp. */
  function Delivered(h: Host, key: Key, t: FrameType, side: Side): Host {
    match side
    case Handler(_) => if IsTerminal(t) then BodyEnds(h, key) else h
    case Peer(_) => if IsTerminal(t) then ReleaseOutgoing(h, key.rid) else h
    case Nowhere => h.(counters := Unrouted(h.counters, t, key.rid in h.released.ids))
  }

  function Stamp(h: Host, key: Key, side: Side): Host {
    match side
    case Handler(_) => TouchIncoming(h, key)
    case Peer(_) => TouchOutgoing(h, key.rid)
    case Nowhere => h
  }

  predicate Undirected(t: FrameType, direction: Option<Direction>) {
    t == Credit && direction == None
  }

  function Route(h: Host, key: Key, t: FrameType, direction: Option<Direction>): (Host, Side) {
    if Undirected(t, direction) then (h.(counters := DropNoRoute(h.counters, t)), Nowhere)
    else
      var side := SideOf(h, key, Prefers(h, key, t, direction));
      (Delivered(Stamp(h, key, side), key, t, side), side)
  }

  /** The terminal of a request's response, on its way out. */
  function ResponseEnds(h: Host, key: Key): Host {
    if key in h.marks.body then PopIncoming(h, key, UnmarkBody(h.marks, key))
    else if key in h.incoming.entries then h.(marks := h.marks.(response := h.marks.response + {key}))
    else h
  }

  function SweepKey(h: Host, key: Key): Host {
    PopIncoming(h, key, UnmarkBody(UnmarkResponse(h.marks, key), key))
  }

  function Insert<K, V>(t: Table<K, V>, k: K, v: V): Table<K, V> {
    t.(entries := t.entries[k := v])
  }

  /** What reaches a host. `Sweep`: a cartridge died or the request was cancelled.
      `Collects`: these entries were evicted. */
  datatype Event =
    | Opens(key: Key, cartridge: nat)
    | Calls(rid: Rid, cartridge: nat)
    | Continues(key: Key, kind: FrameType, direction: Option<Direction>)
    | Responds(key: Key)
    | Sweep(key: Key)
    | Collects(incoming: set<Key>, outgoing: set<Rid>)

  function Without<K, V>(t: Table<K, V>, evicted: set<K>): Table<K, V> {
    Table(t.entries - evicted, t.touched - evicted)
  }

  /** Entries and stamps go, no marker does, and no id is noted as released. */
  function Collect(h: Host, incoming: set<Key>, outgoing: set<Rid>): Host {
    h.(incoming := Without(h.incoming, incoming), outgoing := Without(h.outgoing, outgoing))
  }

  function Step(h: Host, e: Event): Host {
    match e
    case Opens(key, c) => TouchIncoming(h.(incoming := Insert(h.incoming, key, c)), key)
    case Calls(rid, c) => TouchOutgoing(h.(outgoing := Insert(h.outgoing, rid, c)), rid)
    case Continues(key, t, d) => Route(h, key, t, d).0
    case Responds(key) => ResponseEnds(h, key)
    case Sweep(key) => SweepKey(h, key)
    case Collects(incoming, outgoing) => Collect(h, incoming, outgoing)
  }

  function Run(h: Host, events: seq<Event>): Host {
    if events == [] then h else Step(Run(h, events[..|events| - 1]), events[|events| - 1])
  }

  lemma PopValid(h: Host, key: Key, marks: Marks)
    requires Valid(h) && marks.body !! marks.response
    requires marks.body + marks.response <= h.incoming.entries.Keys - {key}
    ensures Valid(PopIncoming(h, key, marks))
  {
    NoteKeepsRing(h.released.ids, key.rid);
  }

  lemma BodyEndsValid(h: Host, key: Key)
    requires Valid(h) && key in h.incoming.entries
    ensures Valid(BodyEnds(h, key))
  {
    if key in h.marks.response {
      PopValid(h, key, UnmarkResponse(h.marks, key));
    }
  }

  lemma ResponseEndsValid(h: Host, key: Key)
    requires Valid(h)
    ensures Valid(ResponseEnds(h, key))
  {
    if key in h.marks.body {
      PopValid(h, key, UnmarkBody(h.marks, key));
    }
  }

  lemma ReleaseOutgoingValid(h: Host, rid: Rid)
    requires Valid(h)
    ensures Valid(ReleaseOutgoing(h, rid))
  {
    NoteKeepsRing(h.released.ids, rid);
  }

  lemma DeliveredValid(h: Host, key: Key, t: FrameType, side: Side)
    requires Valid(h) && (side.Handler? ==> key in h.incoming.entries)
    ensures Valid(Delivered(h, key, t, side))
  {
    if side != Nowhere && IsTerminal(t) {
      if side.Handler? {
        BodyEndsValid(h, key);
      } else {
        ReleaseOutgoingValid(h, key.rid);
      }
    }
  }

  lemma RouteValid(h: Host, key: Key, t: FrameType, direction: Option<Direction>)
    requires Valid(h)
    ensures Valid(Route(h, key, t, direction).0)
  {
    var side := SideOf(h, key, Prefers(h, key, t, direction));
    DeliveredValid(Stamp(h, key, side), key, t, side);
  }

  /** Every event but a collection keeps the two markers apart and on live entries,
      the ring bounded and without repeats, and every stamp on a live entry. */
  lemma StepValid(h: Host, e: Event)
    requires Valid(h) && !e.Collects?
    ensures Valid(Step(h, e))
  {
    match e
    case Opens(_, _) =>
    case Calls(_, _) =>
    case Continues(key, t, d) => RouteValid(h, key, t, d);
    case Responds(key) => ResponseEndsValid(h, key);
    case Sweep(key) => PopValid(h, key, UnmarkBody(UnmarkResponse(h.marks, key), key));
  }

  /** So over every run without a collection. */
  lemma {:induction false} RunValid(h: Host, events: seq<Event>)
    requires Valid(h) && forall e :: e in events ==> !e.Collects?
    ensures Valid(Run(h, events))
  {
    if events != [] {
      assert events[|events| - 1] in events;
      RunValid(h, events[..|events| - 1]);
      StepValid(Run(h, events[..|events| - 1]), events[|events| - 1]);
    }
  }

  // One request's entry over a whole run

  predicate EndsBody(e: Event, key: Key) {
    e.Continues? && e.key == key && IsTerminal(e.kind)
  }

  predicate BodyEnded(events: seq<Event>, key: Key) {
    exists e :: e in events && EndsBody(e, key)
  }

  predicate Responded(events: seq<Event>, key: Key) {
    Responds(key) in events
  }

  /** The key is not opened again, and nothing sweeps or evicts it. Collections may
      evict any other. */
  predicate LeftAlone(events: seq<Event>, key: Key) {
    forall e :: e in events ==> !Takes(e, key)
  }

  predicate Takes(e: Event, key: Key) {
    match e
    case Opens(k, _) => k == key
    case Sweep(k) => k == key
    case Collects(evicted, _) => key in evicted
    case _ => false
  }

  /** Where one key stands, given what has happened to it. */
  predicate Stands(h: Host, key: Key, cartridge: nat, body: bool, response: bool) {
    && (key in h.incoming.entries <==> !(body && response))
    && (key in h.incoming.entries ==> h.incoming.entries[key] == cartridge)
    && (key in h.incoming.entries ==> (key in h.marks.body <==> body) && (key in h.marks.response <==> response))
  }

  lemma StandsStep(h: Host, e: Event, key: Key, cartridge: nat, body: bool, response: bool)
    requires Stands(h, key, cartridge, body, response) && !Takes(e, key)
    ensures Stands(Step(h, e), key, cartridge, body || EndsBody(e, key), response || e == Responds(key))
  {
  }

  /** An entry is released exactly when its body's terminal and its response's
      have both passed, whichever was first; until then it routes to the cartridge
      it was opened for, and the markers say which of the two has. It needs only
      that no stale marker of the key is left when it is opened. For a request
      that a cartridge makes to itself this takes the first terminal under the
      request's key to be its body's. */
  lemma {:induction false} ReleasedIff(h: Host, key: Key, cartridge: nat, events: seq<Event>)
    requires key !in h.marks.body && key !in h.marks.response && LeftAlone(events, key)
    ensures Stands(Run(Step(h, Opens(key, cartridge)), events), key, cartridge, BodyEnded(events, key), Responded(events, key))
  {
    if events != [] {
      var front, last := events[..|events| - 1], events[|events| - 1];
      assert events == front + [last] && last in events;
      ReleasedIff(h, key, cartridge, front);
      StandsStep(Run(Step(h, Opens(key, cartridge)), front), last, key, cartridge, BodyEnded(front, key), Responded(front, key));
    }
  }

  /** While either terminal is still to come, a grant for the handler's output
      reaches the handler, whatever peer call has the same id; and its other
      frames reach it until the body is over, then a peer call of that id first. */
  lemma LiveRequestIsRouted(h: Host, key: Key, cartridge: nat, events: seq<Event>, t: FrameType)
    requires key !in h.marks.body && key !in h.marks.response && LeftAlone(events, key)
    requires !(BodyEnded(events, key) && Responded(events, key)) && t != Credit
    ensures var now := Run(Step(h, Opens(key, cartridge)), events);
            && Route(now, key, Credit, Some(Response)).1 == Handler(cartridge)
            && (!BodyEnded(events, key) || key.rid !in now.outgoing.entries ==> Route(now, key, t, None).1 == Handler(cartridge))
            && (BodyEnded(events, key) && key.rid in now.outgoing.entries ==> Route(now, key, t, None).1 == Peer(now.outgoing.entries[key.rid]))
  {
    ReleasedIff(h, key, cartridge, events);
  }

  /** A grant goes the way it says, if it can: in the response direction to the handler
      of the request, in the request direction to the cartridge that made a peer call
      of that id, also when a cartridge calls itself and both are there. One that does
      not say goes nowhere. */
  lemma GrantsGoTheirWay(h: Host, key: Key)
    ensures var handler, peer := key in h.incoming.entries, key.rid in h.outgoing.entries;
            && (handler ==> Route(h, key, Credit, Some(Response)).1 == Handler(h.incoming.entries[key]))
            && (peer ==> Route(h, key, Credit, Some(Request)).1 == Peer(h.outgoing.entries[key.rid]))
            && (handler && !peer ==> Route(h, key, Credit, Some(Request)).1 == Handler(h.incoming.entries[key]))
            && (peer && !handler ==> Route(h, key, Credit, Some(Response)).1 == Peer(h.outgoing.entries[key.rid]))
            && Route(h, key, Credit, None).1 == Nowhere
  {
  }

  /** What is left after a collection event: every entry that was not evicted, as it
      was, with its stamp; and nothing else changes. */
  lemma CollectsAre(h: Host, incoming: set<Key>, outgoing: set<Rid>)
    ensures var after := Step(h, Collects(incoming, outgoing));
            && after.incoming.entries == h.incoming.entries - incoming && after.incoming.touched == h.incoming.touched - incoming
            && after.outgoing.entries == h.outgoing.entries - outgoing && after.outgoing.touched == h.outgoing.touched - outgoing
            && after.marks == h.marks && after.released == h.released && after.clock == h.clock && after.counters == h.counters
  {
  }

  /** A sweep takes the entry and both of its markers, and its id is known as released. */
  lemma SweptIsReleased(h: Host, key: Key)
    requires Bounded(h.released.ids)
    ensures var after := Step(h, Sweep(key));
            && after.incoming.entries == h.incoming.entries - {key} && after.incoming.touched == h.incoming.touched - {key}
            && after.marks.body == h.marks.body - {key} && after.marks.response == h.marks.response - {key}
            && key.rid in after.released.ids
            && after.outgoing == h.outgoing && after.clock == h.clock && after.counters == h.counters
  {
    NoteKeepsRing(h.released.ids, key.rid);
  }

  /** The peer calls of an id: there until the terminal of its response comes back or a
      collection evicts it, and routing to whoever made it. */
  lemma PeerStandsStep(h: Host, e: Event, rid: Rid)
    ensures var after := Step(h, e).outgoing.entries;
            match e
            case Calls(r, c) => after == h.outgoing.entries[r := c]
            case Collects(_, evicted) => after == h.outgoing.entries - evicted
            case Continues(key, t, d) =>
              after == if t in {End, ErrFrame} && Route(h, key, t, d).1.Peer? then h.outgoing.entries - {key.rid} else h.outgoing.entries
            case _ => after == h.outgoing.entries
  {
    assert forall key: Key :: key.rid !in h.outgoing.entries ==> h.outgoing.entries - {key.rid} == h.outgoing.entries;
  }

  /** A frame of a peer call whose response just ended is a straggler. */
  lemma LatePeerFrame(h: Host, key: Key, end: FrameType, d: Option<Direction>, t: FrameType)
    requires Bounded(h.released.ids) && end in {End, ErrFrame} && t != Credit
    requires Route(h, key, end, d).1.Peer? && key !in h.incoming.entries
    ensures var after := Step(h, Continues(key, end, d));
            Counted(after, Route(after, key, t, None).0, t, true, false)
  {
    NoteKeepsRing(h.released.ids, key.rid);
    UnroutedIsCounted(Step(h, Continues(key, end, d)), key, t, None);
  }

  /** Nothing but the stamp of `k` differs, and it is later than every one before. */
  predicate LastTouched<K(==), V(==)>(was: Table<K, V>, now: Table<K, V>, k: K, clock: nat) {
    && k in now.touched && now.touched[k] == clock && now.entries == was.entries
    && now.touched - {k} == was.touched - {k} && forall j :: j in was.touched ==> was.touched[j] < clock
  }

  /** A frame stamps the entry it was routed by, and no other, with a later number
      than any before; unless it ends that entry. A frame that goes nowhere stamps
      none. */
  lemma RoutedIsTouchedLast(h: Host, key: Key, t: FrameType, direction: Option<Direction>)
    requires Valid(h)
    ensures var (after, side) := Route(h, key, t, direction);
            && after.clock == h.clock + (if side == Nowhere then 0 else 1)
            && match side
            case Handler(_) =>
              && after.outgoing == h.outgoing
              && (key in after.incoming.entries ==> LastTouched(h.incoming, after.incoming, key, h.clock + 1))
            case Peer(_) =>
              && after.incoming == h.incoming
              && (key.rid in after.outgoing.entries ==> LastTouched(h.outgoing, after.outgoing, key.rid, h.clock + 1))
            case Nowhere => after.incoming == h.incoming && after.outgoing == h.outgoing
  {
  }

  function CountOf(c: Counts, t: FrameType): nat {
    if t in c then c[t] else 0
  }

  /** `after` counts one more `t` than `before`, if `one`, and nothing else differs. */
  ghost predicate OneMore(before: Counts, after: Counts, t: FrameType, one: bool) {
    forall u: FrameType :: CountOf(after, u) == CountOf(before, u) + if one && u == t then 1 else 0
  }

  lemma CountsAgree(c: Counts, t: FrameType)
    ensures OneMore(c, Bump(c, t), t, true) && OneMore(c, c, t, false)
  {
  }

  /** The counters of frames that went nowhere: what one more `t` makes of them. */
  ghost predicate Counted(h: Host, after: Host, t: FrameType, straggler: bool, dropped: bool) {
    && OneMore(h.counters.stragglers, after.counters.stragglers, t, straggler)
    && OneMore(h.counters.noRoute, after.counters.noRoute, t, dropped)
  }

  /** A frame that goes nowhere is counted once: a straggler exactly when its id
      was released lately, otherwise no route. A grant that does not say which way
      it goes is a drop whatever is known of its id. */
  lemma UnroutedIsCounted(h: Host, key: Key, t: FrameType, direction: Option<Direction>)
    ensures var (after, side) := Route(h, key, t, direction);
            && (side == Nowhere <==> Undirected(t, direction) || (key !in h.incoming.entries && key.rid !in h.outgoing.entries))
            && Counted(h, after, t, side == Nowhere && !Undirected(t, direction) && key.rid in h.released.ids,
                                    side == Nowhere && (Undirected(t, direction) || key.rid !in h.released.ids))
  {
    CountsAgree(h.counters.stragglers, t);
    CountsAgree(h.counters.noRoute, t);
  }

  /** A frame of a request that just left the table is a straggler, not a drop,
      unless a collection evicted it. */
  lemma LateFrameIsStraggler(h: Host, e: Event, key: Key, t: FrameType)
    requires Bounded(h.released.ids) && t != Credit
    requires key in h.incoming.entries && key !in Step(h, e).incoming.entries && key.rid !in Step(h, e).outgoing.entries
    ensures var straggler := !e.Collects? || key.rid in h.released.ids;
            Counted(Step(h, e), Route(Step(h, e), key, t, None).0, t, straggler, !straggler)
  {
    NoteKeepsRing(h.released.ids, key.rid);
    UnroutedIsCounted(Step(h, e), key, t, None);
  }

  // Collection

  /** A table after a collection is the table without what was evicted: the event
      is what the collector does. */
  lemma CollectionIsEvent<K, V>(t: Table<K, V>, left: map<K, V>, touched: map<K, nat>)
    requires AfterGc(t.entries, t.touched, left, touched)
    ensures Table(left, touched) == Without(t, t.entries.Keys - left.Keys)
  {
    if |t.entries| < SOFT_WATERMARK {
      assert t.entries.Keys - left.Keys == {};
    }
  }

  /** A collection clears no marker. Every collection of the incoming table keeps
      the markers on live entries exactly when the table is below the watermark,
      or each marked entry has at least as many touched before it as will be
      evicted. */
  lemma CollectionKeepsMarkersIff(h: Host)
    requires Marked(h)
    ensures (forall left, touched :: AfterGc(h.incoming.entries, h.incoming.touched, left, touched) ==>
               Marked(h.(incoming := Table(left, touched))))
       <==> |h.incoming.entries| < SOFT_WATERMARK
            || forall k :: k in h.marks.body + h.marks.response ==>
                 |Earlier(h.incoming.entries.Keys, h.incoming.touched, k)| >= Evicted(|h.incoming.entries|)
  {
    var entries, stamps := h.incoming.entries, h.incoming.touched;
    var marked := h.marks.body + h.marks.response;
    if |entries| >= SOFT_WATERMARK {
      if k :| k in marked && |Earlier(entries.Keys, stamps, k)| < Evicted(|entries|) {
        var left, touched := YoungCanGo(entries, stamps, Left(|entries|), k);
        assert AfterGc(entries, stamps, left, touched) && !Marked(h.(incoming := Table(left, touched)));
      } else {
        forall left, touched | AfterGc(entries, stamps, left, touched) ensures Marked(h.(incoming := Table(left, touched))) {
          forall k | k in marked ensures k in left {
            OldEnoughGoFirst(entries, stamps, Left(|entries|), left, touched, k);
          }
        }
      }
    }
  }

  const IDLE := Host(Table(map[], map[]), Table(map[], map[]), Marks({}, {}), Ring([]), 0, Counters(map[], map[]))

  /** The first request's body is over, and `n` more have come since. */
  function Busy(n: nat): Host {
    if n == 0 then Run(IDLE, [Opens(Key(0, 0), 0), Continues(Key(0, 0), End, None)])
    else Step(Busy(n - 1), Opens(Key(0, n), 0))
  }

  ghost predicate FirstDone(incoming: Table<Key, nat>, n: nat, clock: nat) {
    && (forall k :: k in incoming.entries <==> k.xid == 0 && k.rid <= n) && |incoming.entries| == n + 1
    && Key(0, 0) in incoming.touched && incoming.touched[Key(0, 0)] == 2 <= clock
    && (forall k :: k in incoming.entries && k != Key(0, 0) ==> k in incoming.touched && incoming.touched[k] > 2)
  }

  lemma NextOpens(t: Table<Key, nat>, n: nat, clock: nat)
    requires FirstDone(t, n, clock)
    ensures FirstDone(Touch(Insert(t, Key(0, n + 1), 0), Key(0, n + 1), clock + 1), n + 1, clock + 1)
  {
  }

  lemma FirstTwo()
    ensures Busy(0) == Host(Table(map[Key(0, 0) := 0], map[Key(0, 0) := 2]), Table(map[], map[]), Marks({Key(0, 0)}, {}),
                            Ring([]), 2, Counters(map[], map[]))
  {
    var events := [Opens(Key(0, 0), 0), Continues(Key(0, 0), End, None)];
    assert events[..1] == [events[0]] && events[..1][..0] == [];
    assert Run(IDLE, events[..1]) == Step(IDLE, events[0]);
    assert Step(IDLE, events[0]).incoming == Table(map[Key(0, 0) := 0], map[Key(0, 0) := 1]);
  }

  ghost predicate IsBusy(h: Host, n: nat) {
    FirstDone(h.incoming, n, h.clock) && h.marks == Marks({Key(0, 0)}, {}) && h.outgoing.entries == map[] && h.released.ids == []
  }

  lemma OpensKeepsBusy(h: Host, n: nat)
    requires IsBusy(h, n)
    ensures IsBusy(Step(h, Opens(Key(0, n + 1), 0)), n + 1)
  {
    NextOpens(h.incoming, n, h.clock);
  }

  lemma StartsBusy()
    ensures IsBusy(Busy(0), 0)
  {
    FirstTwo();
  }

  lemma {:induction false} BusyIs(n: nat)
    ensures IsBusy(Busy(n), n)
  {
    if n == 0 {
      StartsBusy();
    } else {
      BusyIs(n - 1);
      OpensKeepsBusy(Busy(n - 1), n - 1);
      assert Busy(n) == Step(Busy(n - 1), Opens(Key(0, n), 0));
    }
  }

  /** One such: once the table is at its watermark every collection evicts the
      first request and leaves its marker behind; and after its response has ended,
      its late frames are stragglers. */
  lemma MarkerIsStranded(n: nat, left: map<Key, nat>, touched: map<Key, nat>, t: FrameType)
    requires n + 1 >= SOFT_WATERMARK && AfterGc(Busy(n).incoming.entries, Busy(n).incoming.touched, left, touched)
    requires t != Credit
    ensures var h := Busy(n).(incoming := Table(left, touched)); var key := Key(0, 0);
            && key !in left && key in h.marks.body && !Marked(h)
            && Counted(ResponseEnds(h, key), Route(ResponseEnds(h, key), key, t, None).0, t, true, false)
  {
    BusyIs(n);
    FirstIsOldest(Busy(n), left, touched);
    EvictedIsStragglerIff(Busy(n).(incoming := Table(left, touched)), Key(0, 0), t);
  }

  lemma FirstIsOldest(h: Host, left: map<Key, nat>, touched: map<Key, nat>)
    requires |h.incoming.entries| >= SOFT_WATERMARK && AfterGc(h.incoming.entries, h.incoming.touched, left, touched)
    requires Key(0, 0) in h.incoming.touched && h.incoming.touched[Key(0, 0)] == 2
    requires forall k :: k in h.incoming.entries && k != Key(0, 0) ==> k in h.incoming.touched && h.incoming.touched[k] > 2
    ensures Key(0, 0) !in left
  {
    var entries, stamps := h.incoming.entries, h.incoming.touched;
    if Key(0, 0) in left {
      forall e | e in entries ensures e in left {
        var at, first := TouchedAt(stamps, e), TouchedAt(stamps, Key(0, 0));
      }
      assert |left.Keys| < |entries.Keys|;
      SubsetSize(entries.Keys, left.Keys);
    }
  }

  /** An evicted request's frames count as routing losses, as they should, exactly
      when no marker of its body was left behind: the end of its response takes a
      stale marker for a live entry and notes its id as released. */
  lemma EvictedIsStragglerIff(h: Host, key: Key, t: FrameType)
    requires key !in h.incoming.entries && key.rid !in h.outgoing.entries && key.rid !in h.released.ids && t != Credit
    requires Bounded(h.released.ids)
    ensures var stale := key in h.marks.body; var after := ResponseEnds(h, key);
            Counted(after, Route(after, key, t, None).0, t, stale, !stale)
  {
    NoteKeepsRing(h.released.ids, key.rid);
    UnroutedIsCounted(ResponseEnds(h, key), key, t, None);
  }

  // The object

  class CartridgeHostRuntime {
    var outgoingRids: map<Rid, nat>
    var outgoingRidsTouched: map<Rid, nat>
    var recentReleasedRids: seq<Rid>
    var incomingRxids: map<Key, nat>
    var incomingRxidsTouched: map<Key, nat>
    var incomingToPeerRids: map<Key, seq<Rid>>
    var incomingToPeerRidsTouched: map<Key, nat>
    var outgoingMaxSeq: map<FlowKey, nat>
    var outgoingMaxSeqTouched: map<FlowKey, nat>
    var routingTouchSeq: nat
    var gcRuns: nat
    var gcEvicted: nat
    var incomingBodyDone: set<Key>
    var incomingResponseDone: set<Key>
    var drops: Counts
    var stragglers: Counts

    constructor ()
      ensures Valid(View()) && incomingRxids == map[] && outgoingRids == map[]
      ensures gcRuns == 0 && gcEvicted == 0
    {
      outgoingRids, outgoingRidsTouched, recentReleasedRids := map[], map[], [];
      incomingRxids, incomingRxidsTouched := map[], map[];
      incomingToPeerRids, incomingToPeerRidsTouched := map[], map[];
      outgoingMaxSeq, outgoingMaxSeqTouched := map[], map[];
      routingTouchSeq, gcRuns, gcEvicted := 0, 0, 0;
      incomingBodyDone, incomingResponseDone, drops, stragglers := {}, {}, map[], map[];
    }

    ghost function View(): Host
      reads this
    {
      Host(Table(incomingRxids, incomingRxidsTouched), Table(outgoingRids, outgoingRidsTouched),
           Marks(incomingBodyDone, incomingResponseDone), Ring(recentReleasedRids), routingTouchSeq,
           Counters(drops, stragglers))
    }

    method TouchIncomingRxid(key: Key)
      modifies `routingTouchSeq, `incomingRxidsTouched
      ensures View() == TouchIncoming(old(View()), key)
    {
      routingTouchSeq := routingTouchSeq + 1;
      incomingRxidsTouched := incomingRxidsTouched[key := routingTouchSeq];
    }

    method TouchOutgoingRid(rid: Rid)
      modifies `routingTouchSeq, `outgoingRidsTouched
      ensures View() == TouchOutgoing(old(View()), rid)
    {
      routingTouchSeq := routingTouchSeq + 1;
      outgoingRidsTouched := outgoingRidsTouched[rid := routingTouchSeq];
    }

    method NoteReleasedRid(rid: Rid)
      modifies `recentReleasedRids
      ensures recentReleasedRids == NoteReleased(old(recentReleasedRids), rid)
    {
      if rid in recentReleasedRids {
        return;
      }
      if |recentReleasedRids| == RECENT_RELEASED_CAP {
        recentReleasedRids := recentReleasedRids[1..];
      }
      recentReleasedRids := recentReleasedRids + [rid];
    }

    method AccountUnrouted(rid: Rid, t: FrameType)
      modifies `drops, `stragglers
      ensures View().counters == Unrouted(old(View().counters), t, rid in recentReleasedRids)
    {
      if rid in recentReleasedRids {
        stragglers := Bump(stragglers, t);
      } else {
        drops := Bump(drops, t);
      }
    }

    method RouteContinuationFrame(key: Key, t: FrameType, direction: Option<Direction>) returns (side: Side)
      modifies this
      ensures (View(), side) == Route(old(View()), key, t, direction)
    {
      var preferIncoming := key !in incomingBodyDone;
      if t == Credit {
        if direction == None {
          drops := Bump(drops, t);
          return Nowhere;
        }
        preferIncoming := direction == Some(Response);
      }
      side := Select(key, preferIncoming);
      Deliver(key, t, side);
    }

    /** The terminal bookkeeping of a frame that goes to `side`. */
    method Deliver(key: Key, t: FrameType, side: Side)
      modifies this
      ensures View() == Delivered(old(View()), key, t, side)
    {
      if side == Nowhere {
        AccountUnrouted(key.rid, t);
      } else if IsTerminal(t) {
        if side.Handler? {
          BodyTerminal(key);
        } else {
          PeerTerminal(key.rid);
        }
      }
    }

    method BodyTerminal(key: Key)
      modifies this
      ensures View() == BodyEnds(old(View()), key)
    {
      if key in incomingResponseDone {
        incomingResponseDone := incomingResponseDone - {key};
        PopIncomingRxid(key);
      } else {
        incomingBodyDone := incomingBodyDone + {key};
      }
    }

    method PeerTerminal(rid: Rid)
      modifies this
      ensures View() == ReleaseOutgoing(old(View()), rid)
    {
      outgoingRids := outgoingRids - {rid};
      outgoingRidsTouched := outgoingRidsTouched - {rid};
      NoteReleasedRid(rid);
    }

    /** Finds the entry and touches it. */
    method Select(key: Key, preferIncoming: bool) returns (side: Side)
      modifies `routingTouchSeq, `incomingRxidsTouched, `outgoingRidsTouched
      ensures side == SideOf(old(View()), key, preferIncoming)
      ensures View() == Stamp(old(View()), key, side)
    {
      if preferIncoming && key in incomingRxids {
        TouchIncomingRxid(key);
        side := Handler(incomingRxids[key]);
      } else if key.rid in outgoingRids {
        TouchOutgoingRid(key.rid);
        side := Peer(outgoingRids[key.rid]);
      } else if key in incomingRxids {
        TouchIncomingRxid(key);
        side := Handler(incomingRxids[key]);
      } else {
        side := Nowhere;
      }
    }

    method PopIncomingRxid(key: Key)
      modifies `incomingRxids, `incomingRxidsTouched, `recentReleasedRids
      ensures View() == PopIncoming(old(View()), key, old(View()).marks)
    {
      incomingRxids := incomingRxids - {key};
      incomingRxidsTouched := incomingRxidsTouched - {key};
      NoteReleasedRid(key.rid);
    }

    method RecordResponseTerminal(key: Key)
      modifies this
      ensures View() == ResponseEnds(old(View()), key)
    {
      if key in incomingBodyDone {
        incomingBodyDone := incomingBodyDone - {key};
        PopIncomingRxid(key);
      } else if key in incomingRxids {
        incomingResponseDone := incomingResponseDone + {key};
      }
    }

    method RemoveIncomingRxid(key: Key)
      modifies this
      ensures View() == SweepKey(old(View()), key)
    {
      incomingBodyDone := incomingBodyDone - {key};
      incomingResponseDone := incomingResponseDone - {key};
      PopIncomingRxid(key);
    }

    /** Each table at its soft watermark is collected, and no other is touched;
        nothing else of the routing changes, the marks included. */
    method GcRoutingTablesIfNeeded()
      modifies `incomingRxids, `incomingRxidsTouched, `outgoingRids, `outgoingRidsTouched
      modifies `incomingToPeerRids, `incomingToPeerRidsTouched, `outgoingMaxSeq, `outgoingMaxSeqTouched
      modifies `gcRuns, `gcEvicted
      ensures AfterGc(old(incomingRxids), old(incomingRxidsTouched), incomingRxids, incomingRxidsTouched)
      ensures AfterGc(old(outgoingRids), old(outgoingRidsTouched), outgoingRids, outgoingRidsTouched)
      ensures AfterGc(old(incomingToPeerRids), old(incomingToPeerRidsTouched), incomingToPeerRids, incomingToPeerRidsTouched)
      ensures AfterGc(old(outgoingMaxSeq), old(outgoingMaxSeqTouched), outgoingMaxSeq, outgoingMaxSeqTouched)
      ensures gcRuns == old(gcRuns) + Due(|old(incomingRxids)|) + Due(|old(outgoingRids)|)
                      + Due(|old(incomingToPeerRids)|) + Due(|old(outgoingMaxSeq)|)
      ensures gcEvicted + |incomingRxids| + |outgoingRids| + |incomingToPeerRids| + |outgoingMaxSeq|
           == old(gcEvicted + |incomingRxids| + |outgoingRids| + |incomingToPeerRids| + |outgoingMaxSeq|)
    {
      CollectIncoming();
      CollectOutgoing();
      CollectPeerCalls();
      CollectMaxSeq();
    }

    method CollectIncoming()
      modifies `incomingRxids, `incomingRxidsTouched, `gcRuns, `gcEvicted
      ensures AfterGc(old(incomingRxids), old(incomingRxidsTouched), incomingRxids, incomingRxidsTouched)
      ensures gcRuns == old(gcRuns) + Due(|old(incomingRxids)|) && gcEvicted + |incomingRxids| == old(gcEvicted + |incomingRxids|)
    {
      var runs, evicted;
      incomingRxids, incomingRxidsTouched, runs, evicted := CollectIfNeeded(incomingRxids, incomingRxidsTouched);
      gcRuns, gcEvicted := gcRuns + runs, gcEvicted + evicted;
    }

    method CollectOutgoing()
      modifies `outgoingRids, `outgoingRidsTouched, `gcRuns, `gcEvicted
      ensures AfterGc(old(outgoingRids), old(outgoingRidsTouched), outgoingRids, outgoingRidsTouched)
      ensures gcRuns == old(gcRuns) + Due(|old(outgoingRids)|) && gcEvicted + |outgoingRids| == old(gcEvicted + |outgoingRids|)
    {
      var runs, evicted;
      outgoingRids, outgoingRidsTouched, runs, evicted := CollectIfNeeded(outgoingRids, outgoingRidsTouched);
      gcRuns, gcEvicted := gcRuns + runs, gcEvicted + evicted;
    }

    method CollectPeerCalls()
      modifies `incomingToPeerRids, `incomingToPeerRidsTouched, `gcRuns, `gcEvicted
      ensures AfterGc(old(incomingToPeerRids), old(incomingToPeerRidsTouched), incomingToPeerRids, incomingToPeerRidsTouched)
      ensures gcRuns == old(gcRuns) + Due(|old(incomingToPeerRids)|) && gcEvicted + |incomingToPeerRids| == old(gcEvicted + |incomingToPeerRids|)
    {
      var runs, evicted;
      incomingToPeerRids, incomingToPeerRidsTouched, runs, evicted := CollectIfNeeded(incomingToPeerRids, incomingToPeerRidsTouched);
      gcRuns, gcEvicted := gcRuns + runs, gcEvicted + evicted;
    }

    method CollectMaxSeq()
      modifies `outgoingMaxSeq, `outgoingMaxSeqTouched, `gcRuns, `gcEvicted
      ensures AfterGc(old(outgoingMaxSeq), old(outgoingMaxSeqTouched), outgoingMaxSeq, outgoingMaxSeqTouched)
      ensures gcRuns == old(gcRuns) + Due(|old(outgoingMaxSeq)|) && gcEvicted + |outgoingMaxSeq| == old(gcEvicted + |outgoingMaxSeq|)
    {
      var runs, evicted;
      outgoingMaxSeq, outgoingMaxSeqTouched, runs, evicted := CollectIfNeeded(outgoingMaxSeq, outgoingMaxSeqTouched);
      gcRuns, gcEvicted := gcRuns + runs, gcEvicted + evicted;
    }
  }
}
