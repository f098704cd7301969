/**
 A live feed: a capture thread pushes into a bounded ring, a feeder thread takes
 from it and delivers, and a stop may close it at any time. Each section under
 the ring's lock is one step; delivery is outside it.
 */
module LiveFeed {
  import opened Common

  datatype Item = Item(payload: nat, pts: int)

  datatype Slot = Slot(item: Item, number: nat)

  datatype Policy = DropOldest | FailOnOverrun

  datatype Config = Config(cap: nat, policy: Policy, maxItems: Option<nat>)

  datatype Shared = Shared(ring: seq<Slot>, closed: bool, producerDone: bool, failed: bool,
                           captured: nat, dropped: nat, overruns: nat)

  /** What the consumer gets. A gap counts the items lost just before this one. */
  datatype Out =
    | Delivered(slot: Slot, gap: nat, duration: int)
    | Failure
    | EndMark

  const OPENED := Shared([], false, false, false, 0, 0, 0)

  /** The sink's answer: whether to go on capturing. */
  function Push(c: Config, s: Shared, item: Item): (Shared, bool) {
    if s.closed then (s, false)
    else
      var slot := Slot(item, s.captured);
      var s1 := s.(captured := s.captured + 1);
      if |s.ring| >= c.cap && c.policy == FailOnOverrun then (s1.(failed := true, closed := true), false)
      else
        var s2 := if |s.ring| >= c.cap && s.ring != []
                  then s1.(ring := s.ring[1..], overruns := s.overruns + 1, dropped := s.dropped + 1) else s1;
        var s3 := s2.(ring := s2.ring + [slot]);
        if c.maxItems.Some? && slot.number + 1 >= c.maxItems.value then (s3.(producerDone := true), false)
        else (s3, true)
  }

  function Finish(s: Shared): Shared {
    s.(producerDone := true)
  }

  function Close(s: Shared): Shared {
    s.(closed := true)
  }

  datatype Look =
    | Failing(shared: Shared)
    | Took(shared: Shared, slot: Slot, dropped: nat)
    | Ending(shared: Shared)
    | Waiting(shared: Shared)

  /** One pass of the feeder under the lock. `late`: the deadline has passed. */
  function LookInto(was: Shared, late: bool): Look {
    var s := if late then Close(was) else was;
    if s.failed then Failing(s.(failed := false))
    else if s.ring != [] then Took(s.(ring := s.ring[1..], dropped := 0), s.ring[0], s.dropped)
    else if s.producerDone || s.closed then Ending(s)
    else Waiting(s)
  }

  /** `hand`: taken from the ring and not yet delivered. */
  datatype Feeder = Feeder(hand: Option<Out>, lastPts: Option<int>, ended: bool, out: seq<Out>)

  /** `stopped`: the producer pushes no more, having finished or been told to stop. */
  datatype Feed = Feed(shared: Shared, feeder: Feeder, stopped: bool)

  const START := Feed(OPENED, Feeder(None, None, false, []), false)

  datatype Step =
    | Pushes(item: Item)
    | Finishes
    | Closes
    | Looks(late: bool)
    | Delivers

  function Duration(lastPts: Option<int>, item: Item, gap: nat): int {
    if gap > 0 && lastPts.Some? && item.pts >= lastPts.value then item.pts - lastPts.value else 0
  }

  function FeederLooks(f: Feed, late: bool): Feed {
    if f.feeder.ended || f.feeder.hand.Some? then f
    else
      match LookInto(f.shared, late)
      case Failing(s) => f.(shared := s, feeder := f.feeder.(ended := true, out := f.feeder.out + [Failure, EndMark]))
      case Took(s, slot, dropped) =>
        var delivery := Delivered(slot, dropped, Duration(f.feeder.lastPts, slot.item, dropped));
        f.(shared := s, feeder := f.feeder.(hand := Some(delivery), lastPts := Some(slot.item.pts)))
      case Ending(s) => f.(shared := s, feeder := f.feeder.(ended := true, out := f.feeder.out + [EndMark]))
      case Waiting(s) => f.(shared := s)
  }

  function FeederDelivers(r: Feeder): Feeder {
    if r.hand.None? then r else r.(hand := None, out := r.out + [r.hand.value])
  }

  function Next(c: Config, f: Feed, step: Step): Feed {
    match step
    case Pushes(item) =>
      if f.stopped then f else var (s, more) := Push(c, f.shared, item); f.(shared := s, stopped := !more)
    case Finishes => f.(shared := Finish(f.shared), stopped := true)
    case Closes => f.(shared := Close(f.shared))
    case Looks(late) => FeederLooks(f, late)
    case Delivers => f.(feeder := FeederDelivers(f.feeder))
  }

  function Run(c: Config, steps: seq<Step>): Feed {
    if steps == [] then START else Next(c, Run(c, steps[..|steps| - 1]), steps[|steps| - 1])
  }

  // What holds of every run

  /** The ring holds the numbers from `base` on, each once. */
  predicate Contiguous(ring: seq<Slot>, base: nat) {
    forall i :: 0 <= i < |ring| ==> ring[i].number == base + i
  }

  /** The number after the last one delivered. */
  function NextNumber(ds: seq<Out>): nat {
    if ds == [] || !ds[|ds| - 1].Delivered? then 0 else ds[|ds| - 1].slot.number + 1
  }

  /** Deliveries only, each one's gap the numbers it skips. */
  predicate GapsTold(ds: seq<Out>) {
    ds == [] ||
    (var front, last := ds[..|ds| - 1], ds[|ds| - 1];
     GapsTold(front) && last.Delivered? && last.slot.number == NextNumber(front) + last.gap)
  }

  function GapSum(ds: seq<Out>): nat {
    if ds == [] then 0
    else GapSum(ds[..|ds| - 1]) + if ds[|ds| - 1].Delivered? then ds[|ds| - 1].gap else 0
  }

  /** What was delivered, without the end marker or the error before it. */
  function Deliveries(r: Feeder): seq<Out> {
    if !r.ended || r.out == [] then r.out
    else if |r.out| >= 2 && r.out[|r.out| - 2] == Failure then r.out[..|r.out| - 2]
    else r.out[..|r.out| - 1]
  }

  /** Deliveries and what is in hand. */
  function Taken(r: Feeder): seq<Out> {
    Deliveries(r) + if r.hand.Some? then [r.hand.value] else []
  }

  /** `failure`: a push failed the feed. */
  predicate Accounted(c: Config, s: Shared, taken: seq<Out>, failure: nat) {
    && |s.ring| <= c.cap
    && s.captured == |taken| + s.overruns + |s.ring| + failure
    && s.overruns == GapSum(taken) + s.dropped
    && Contiguous(s.ring, NextNumber(taken) + s.dropped)
    && NextNumber(taken) + s.dropped + |s.ring| + failure == s.captured
    && (s.dropped > 0 ==> s.ring != [])
    && (c.policy == FailOnOverrun ==> s.overruns == 0 && s.dropped == 0)
    && (failure > 0 ==> c.policy == FailOnOverrun && s.closed && |s.ring| >= 1)
    && (s.failed ==> failure == 1)
    && (c.maxItems.Some? ==> s.captured <= Max(1, c.maxItems.value))
  }

  predicate Good(c: Config, f: Feed, failure: nat) {
    && failure <= 1
    && Accounted(c, f.shared, Taken(f.feeder), failure) && GapsTold(Taken(f.feeder))
    && (f.feeder.ended ==> f.feeder.hand == None && (f.shared.closed || f.shared.producerDone))
    && (f.feeder.ended ==> f.feeder.out == Deliveries(f.feeder) + (if failure == 1 then [Failure, EndMark] else [EndMark]))
    && (f.feeder.ended && failure == 0 ==> f.shared.ring == [])
    && (f.feeder.ended ==> !f.shared.failed)
    && (!f.feeder.ended && failure == 1 ==> f.shared.failed)
    && (f.shared.producerDone ==> f.stopped)
    && (!f.stopped && c.maxItems.Some? ==> f.shared.captured < Max(1, c.maxItems.value))
  }

  lemma SnocGaps(ds: seq<Out>, slot: Slot, gap: nat, duration: int)
    requires GapsTold(ds) && slot.number == NextNumber(ds) + gap
    ensures var all := ds + [Delivered(slot, gap, duration)];
            GapsTold(all) && GapSum(all) == GapSum(ds) + gap && NextNumber(all) == slot.number + 1
  {
    assert (ds + [Delivered(slot, gap, duration)])[..|ds|] == ds;
  }

  lemma TakeAccounted(c: Config, s: Shared, taken: seq<Out>, duration: int)
    requires Accounted(c, s, taken, 0) && GapsTold(taken) && s.ring != [] && c.cap >= 1
    ensures var t := s.(ring := s.ring[1..], dropped := 0);
            var all := taken + [Delivered(s.ring[0], s.dropped, duration)];
            Accounted(c, t, all, 0) && GapsTold(all)
  {
    SnocGaps(taken, s.ring[0], s.dropped, duration);
  }

  predicate Kept(c: Config, f: Feed) {
    Good(c, f, 0) || Good(c, f, 1)
  }

  lemma PushKeeps(c: Config, f: Feed, item: Item)
    requires c.cap >= 1 && Kept(c, f)
    ensures Kept(c, Next(c, f, Pushes(item)))
  {
    if !f.stopped && !f.shared.closed {
      var t := Push(c, f.shared, item).0;
      assert Good(c, Next(c, f, Pushes(item)), if t.failed then 1 else 0);
    }
  }

  lemma TakeKeeps(c: Config, f: Feed)
    requires c.cap >= 1 && Kept(c, f) && !f.feeder.ended && f.feeder.hand.None? && !f.shared.failed && f.shared.ring != []
    ensures Kept(c, FeederLooks(f, false))
  {
    var s, out := f.shared, f.feeder.out;
    assert out + [] == out;
    TakeAccounted(c, s, out, Duration(f.feeder.lastPts, s.ring[0].item, s.dropped));
    assert Good(c, FeederLooks(f, false), 0);
  }

  lemma EndKeeps(c: Config, f: Feed)
    requires c.cap >= 1 && Kept(c, f) && !f.feeder.ended && f.feeder.hand.None? && !f.shared.failed && f.shared.ring == []
    ensures Kept(c, FeederLooks(f, false))
  {
    var out := f.feeder.out;
    var g := FeederLooks(f, false);
    assert out + [] == out;
    assert g.feeder.out[..|out|] == out;
    assert Good(c, g, 0);
  }

  lemma FailKeeps(c: Config, f: Feed)
    requires c.cap >= 1 && Kept(c, f) && !f.feeder.ended && f.feeder.hand.None? && f.shared.failed
    ensures Kept(c, FeederLooks(f, false))
  {
    var out := f.feeder.out;
    var g := FeederLooks(f, false);
    assert out + [] == out && g.feeder.out[..|out|] == out;
    assert Good(c, g, 1);
  }

  lemma CloseKeeps(c: Config, f: Feed)
    requires Kept(c, f)
    ensures Kept(c, f.(shared := Close(f.shared)))
  {
  }

  lemma LookNowKeeps(c: Config, f: Feed)
    requires c.cap >= 1 && Kept(c, f)
    ensures Kept(c, FeederLooks(f, false))
  {
    if !f.feeder.ended && f.feeder.hand.None? {
      if f.shared.failed {
        FailKeeps(c, f);
      } else if f.shared.ring != [] {
        TakeKeeps(c, f);
      } else {
        EndKeeps(c, f);
      }
    }
  }

  lemma LookKeeps(c: Config, f: Feed, late: bool)
    requires c.cap >= 1 && Kept(c, f)
    ensures Kept(c, FeederLooks(f, late))
  {
    if late && !f.feeder.ended && f.feeder.hand.None? {
      CloseKeeps(c, f);
      LookNowKeeps(c, f.(shared := Close(f.shared)));
      LateIsClosed(f);
    } else {
      LookNowKeeps(c, f);
    }
  }

  lemma LateIsClosed(f: Feed)
    requires !f.feeder.ended && f.feeder.hand.None?
    ensures FeederLooks(f, true) == FeederLooks(f.(shared := Close(f.shared)), false)
  {
  }

  lemma DeliverKeeps(c: Config, f: Feed)
    requires Kept(c, f)
    ensures Kept(c, f.(feeder := FeederDelivers(f.feeder)))
  {
    var r := f.feeder;
    if r.hand.Some? {
      assert r.out + [r.hand.value] + [] == r.out + [r.hand.value];
    }
  }

  lemma NextKeeps(c: Config, f: Feed, step: Step)
    requires c.cap >= 1 && Kept(c, f)
    ensures Kept(c, Next(c, f, step))
  {
    if step.Pushes? {
      PushKeeps(c, f, step.item);
    } else if step.Looks? {
      LookKeeps(c, f, step.late);
    } else if step.Delivers? {
      DeliverKeeps(c, f);
    }
  }

  lemma {:induction false} EveryRunKeeps(c: Config, steps: seq<Step>)
    requires c.cap >= 1
    ensures Kept(c, Run(c, steps))
  {
    if steps != [] {
      EveryRunKeeps(c, steps[..|steps| - 1]);
      NextKeeps(c, Run(c, steps[..|steps| - 1]), steps[|steps| - 1]);
    } else {
      assert Good(c, START, 0);
    }
  }

  lemma {:induction false} OnlyDeliveries(ds: seq<Out>)
    requires GapsTold(ds)
    ensures forall o :: o in ds ==> o.Delivered?
  {
    if ds != [] {
      OnlyDeliveries(ds[..|ds| - 1]);
      assert ds == ds[..|ds| - 1] + [ds[|ds| - 1]];
    }
  }

  lemma {:induction false} WithoutGaps(ds: seq<Out>)
    requires GapsTold(ds) && GapSum(ds) == 0
    ensures forall i :: 0 <= i < |ds| ==> ds[i].Delivered? && ds[i].slot.number == i && ds[i].gap == 0
    ensures NextNumber(ds) == |ds|
  {
    if ds != [] {
      WithoutGaps(ds[..|ds| - 1]);
    }
  }

  predicate Failed(f: Feed) {
    f.shared.failed || Failure in f.feeder.out
  }

  lemma FailureIs(c: Config, f: Feed, failure: nat)
    requires Good(c, f, failure)
    ensures failure == 1 <==> Failed(f)
  {
    OnlyDeliveries(Taken(f.feeder));
    assert forall o :: o in Deliveries(f.feeder) ==> o in Taken(f.feeder);
  }

  // The feed's promises

  /** At any moment of any run: the ring is within its cap and holds the latest
      numbers in order; each item taken says exactly how many numbers were lost
      since the one before; and every item captured was taken, is in the ring, was
      counted lost, or was the one that failed the feed. */
  lemma EveryItemIsAccountedFor(c: Config, steps: seq<Step>)
    requires c.cap >= 1
    ensures var f := Run(c, steps);
            var s, taken, failure := f.shared, Taken(f.feeder), if Failed(f) then 1 else 0;
            && |s.ring| <= c.cap
            && s.captured == |taken| + s.overruns + |s.ring| + failure
            && (forall i :: 0 <= i < |s.ring| ==> s.ring[i].number == s.captured - failure - |s.ring| + i)
            && GapsTold(taken) && s.overruns == GapSum(taken) + s.dropped
            && (c.maxItems.Some? ==> s.captured <= Max(1, c.maxItems.value))
  {
    EveryRunKeeps(c, steps);
    var f := Run(c, steps);
    var failure := if Good(c, f, 0) then 0 else 1;
    FailureIs(c, f, failure);
  }

  /** A feed that has ended gave its consumer one end marker, last. Unless it failed,
      the ring was drained first, and everything captured was delivered or is told
      in a delivered gap. If it failed, what was delivered has no gap from the first
      item on, and one error came before the end. */
  lemma EndsOnceAndTellsAll(c: Config, steps: seq<Step>)
    requires c.cap >= 1 && Run(c, steps).feeder.ended
    ensures var f := Run(c, steps);
            var ds := Deliveries(f.feeder);
            && f.feeder.out == ds + (if Failed(f) then [Failure, EndMark] else [EndMark])
            && (forall o :: o in ds ==> o.Delivered?)
            && !f.shared.failed && (!Failed(f) ==> f.shared.ring == [] && f.shared.captured == |ds| + GapSum(ds))
            && (Failed(f) ==> c.policy == FailOnOverrun && forall i :: 0 <= i < |ds| ==> ds[i].slot.number == i && ds[i].gap == 0)
  {
    EveryRunKeeps(c, steps);
    var f := Run(c, steps);
    FailureIs(c, f, if Good(c, f, 0) then 0 else 1);
    assert Taken(f.feeder) == Deliveries(f.feeder);
    OnlyDeliveries(Deliveries(f.feeder));
    if GapSum(Deliveries(f.feeder)) == 0 {
      WithoutGaps(Deliveries(f.feeder));
    }
  }

  // The items themselves

  function OneMore(f: Feed, step: Step, items: seq<Item>): seq<Item> {
    items + if step.Pushes? && !f.stopped && !f.shared.closed then [step.item] else []
  }

  /** The items captured, in order: those pushed while the feed took them. */
  function Captures(c: Config, steps: seq<Step>): seq<Item> {
    if steps == [] then []
    else
      var front, last := steps[..|steps| - 1], steps[|steps| - 1];
      OneMore(Run(c, front), last, Captures(c, front))
  }

  predicate Holds(slot: Slot, items: seq<Item>) {
    slot.number < |items| && slot.item == items[slot.number]
  }

  /** The point in time of the last item taken. */
  function LastPts(ds: seq<Out>): Option<int> {
    if ds == [] || !ds[|ds| - 1].Delivered? then None else Some(ds[|ds| - 1].slot.item.pts)
  }

  /** Every delivery carries the item captured under its number, and tells how long the
      gap before it was: the time since the delivery before it if anything was lost
      between them and time did not go backwards, and otherwise nothing. */
  predicate Faithful(ds: seq<Out>, items: seq<Item>) {
    ds == [] ||
    (var front, last := ds[..|ds| - 1], ds[|ds| - 1];
     && Faithful(front, items) && last.Delivered? && Holds(last.slot, items)
     && last.duration == match LastPts(front)
                         case None => 0
                         case Some(pts) => if last.gap == 0 then 0 else Max0(last.slot.item.pts - pts))
  }

  function Max0(n: int): int {
    if n < 0 then 0 else n
  }

  lemma {:induction false} FaithfulLater(ds: seq<Out>, items: seq<Item>, item: Item)
    requires Faithful(ds, items)
    ensures Faithful(ds, items + [item])
  {
    if ds != [] {
      FaithfulLater(ds[..|ds| - 1], items, item);
    }
  }

  predicate RingHolds(ring: seq<Slot>, items: seq<Item>) {
    forall i :: 0 <= i < |ring| ==> Holds(ring[i], items)
  }

  /** What the ring, the hand and the deliveries hold was captured. */
  predicate AllHeld(f: Feed, items: seq<Item>) {
    && f.shared.captured == |items| && RingHolds(f.shared.ring, items)
    && Faithful(Taken(f.feeder), items) && (!f.feeder.ended ==> f.feeder.lastPts == LastPts(Taken(f.feeder)))
  }

  lemma PushRing(c: Config, s: Shared, item: Item, items: seq<Item>)
    requires s.captured == |items| && RingHolds(s.ring, items) && !s.closed
    ensures var t := Push(c, s, item).0;
            t.captured == |items + [item]| && RingHolds(t.ring, items + [item])
  {
    assert forall slot :: Holds(slot, items) ==> Holds(slot, items + [item]);
    assert Holds(Slot(item, s.captured), items + [item]);
  }

  lemma PushHeld(c: Config, f: Feed, item: Item, items: seq<Item>)
    requires AllHeld(f, items)
    ensures AllHeld(Next(c, f, Pushes(item)), if f.stopped || f.shared.closed then items else items + [item])
  {
    if !f.stopped && !f.shared.closed {
      FaithfulLater(Taken(f.feeder), items, item);
      var t := Push(c, f.shared, item).0;
      PushRing(c, f.shared, item, items);
      assert Next(c, f, Pushes(item)).feeder == f.feeder && Next(c, f, Pushes(item)).shared == t;
    }
  }

  lemma TakeHeld(f: Feed, items: seq<Item>)
    requires AllHeld(f, items) && !f.feeder.ended && f.feeder.hand.None? && !f.shared.failed && f.shared.ring != []
    ensures AllHeld(FeederLooks(f, false), items)
  {
    var out, slot, dropped := f.feeder.out, f.shared.ring[0], f.shared.dropped;
    assert out + [] == out;
    var d := Delivered(slot, dropped, Duration(f.feeder.lastPts, slot.item, dropped));
    assert Taken(FeederLooks(f, false).feeder) == out + [d];
    assert (out + [d])[..|out|] == out;
  }

  lemma EndHeld(f: Feed, items: seq<Item>)
    requires AllHeld(f, items) && !f.feeder.ended && f.feeder.hand.None? && (f.shared.failed || f.shared.ring == [])
    ensures AllHeld(FeederLooks(f, false), items)
  {
    var out, g := f.feeder.out, FeederLooks(f, false);
    assert out + [] == out;
    if g.feeder.ended {
      if f.shared.failed {
        assert g.feeder.out[..|out|] == out;
      } else {
        EndOfFaithful(out, items);
        assert g.feeder.out[..|out|] == out;
      }
      assert Deliveries(g.feeder) + [] == Deliveries(g.feeder);
    }
  }

  /** A delivery is not the error before an end. */
  lemma EndOfFaithful(ds: seq<Out>, items: seq<Item>)
    requires Faithful(ds, items)
    ensures ds != [] ==> ds[|ds| - 1] != Failure
  {
  }

  lemma LookHeld(f: Feed, late: bool, items: seq<Item>)
    requires AllHeld(f, items)
    ensures AllHeld(FeederLooks(f, late), items)
  {
    if !f.feeder.ended && f.feeder.hand.None? {
      var g := if late then f.(shared := Close(f.shared)) else f;
      if late {
        LateIsClosed(f);
      }
      if g.shared.failed || g.shared.ring == [] {
        EndHeld(g, items);
      } else {
        TakeHeld(g, items);
      }
    }
  }

  lemma DeliverHeld(f: Feed, items: seq<Item>)
    requires AllHeld(f, items) && (f.feeder.ended ==> f.feeder.hand == None)
    ensures AllHeld(f.(feeder := FeederDelivers(f.feeder)), items)
  {
    if f.feeder.hand.Some? {
      var all := f.feeder.out + [f.feeder.hand.value];
      assert all + [] == all;
    }
  }

  lemma CloseHeld(f: Feed, s: Shared, stopped: bool, items: seq<Item>)
    requires AllHeld(f, items) && s.ring == f.shared.ring && s.captured == f.shared.captured
    ensures AllHeld(f.(shared := s, stopped := stopped), items)
  {
  }

  lemma NextHeld(c: Config, f: Feed, step: Step, items: seq<Item>)
    requires AllHeld(f, items) && (f.feeder.ended ==> f.feeder.hand == None)
    ensures AllHeld(Next(c, f, step), OneMore(f, step, items))
  {
    assert items + [] == items;
    match step
    case Pushes(item) => PushHeld(c, f, item, items);
    case Finishes => CloseHeld(f, Finish(f.shared), true, items);
    case Closes => CloseHeld(f, Close(f.shared), f.stopped, items);
    case Looks(late) => LookHeld(f, late, items);
    case Delivers => DeliverHeld(f, items);
  }

  lemma {:induction false} EveryRunHolds(c: Config, steps: seq<Step>)
    requires c.cap >= 1
    ensures AllHeld(Run(c, steps), Captures(c, steps))
  {
    if steps != [] {
      var front := steps[..|steps| - 1];
      EveryRunHolds(c, front);
      EveryRunKeeps(c, front);
      NextHeld(c, Run(c, front), steps[|steps| - 1], Captures(c, front));
    }
  }

  /** What is delivered under a number is the item that was captured under it, and its
      gap's duration is the time since the delivery before it. */
  lemma DeliveredAsCaptured(c: Config, steps: seq<Step>)
    requires c.cap >= 1
    ensures var f, items := Run(c, steps), Captures(c, steps);
            && f.shared.captured == |items|
            && Faithful(Taken(f.feeder), items)
            && forall i :: 0 <= i < |f.shared.ring| ==> Holds(f.shared.ring[i], items)
  {
    EveryRunHolds(c, steps);
  }

  // Nothing is lost or ended without a reason

  /** Whether an item comes when the ring is full. */
  function Full(c: Config, f: Feed, step: Step): nat {
    if step.Pushes? && !f.stopped && !f.shared.closed && |f.shared.ring| == c.cap then 1 else 0
  }

  /** How many items came when it was. */
  function WhenFull(c: Config, steps: seq<Step>): nat {
    if steps == [] then 0
    else
      var front := steps[..|steps| - 1];
      WhenFull(c, front) + Full(c, Run(c, front), steps[|steps| - 1])
  }

  /** `full` items were lost, or one fewer and the feed failed. */
  predicate LostFor(c: Config, f: Feed, full: nat) {
    (Good(c, f, 0) && f.shared.overruns == full) || (Good(c, f, 1) && f.shared.overruns + 1 == full)
  }

  lemma PushLoses(c: Config, f: Feed, item: Item, full: nat)
    requires c.cap >= 1 && LostFor(c, f, full) && !f.stopped && !f.shared.closed
    ensures LostFor(c, Next(c, f, Pushes(item)), full + Full(c, f, Pushes(item)))
  {
    PushKeeps(c, f, item);
    var t := Push(c, f.shared, item).0;
    assert Good(c, Next(c, f, Pushes(item)), if t.failed then 1 else 0);
  }

  lemma OthersLoseNothing(c: Config, f: Feed, step: Step)
    requires step.Pushes? ==> f.stopped || f.shared.closed
    ensures Next(c, f, step).shared.overruns == f.shared.overruns
    ensures Failed(Next(c, f, step)) <==> Failed(f) || (step.Delivers? && f.feeder.hand == Some(Failure))
  {
  }

  lemma NextLoses(c: Config, f: Feed, step: Step, full: nat)
    requires c.cap >= 1 && LostFor(c, f, full)
    ensures LostFor(c, Next(c, f, step), full + Full(c, f, step))
  {
    if step.Pushes? && !f.stopped && !f.shared.closed {
      PushLoses(c, f, step.item, full);
    } else {
      NextKeeps(c, f, step);
      OthersLoseNothing(c, f, step);
      OnlyDeliveries(Taken(f.feeder));
      assert f.feeder.hand.Some? ==> f.feeder.hand.value in Taken(f.feeder);
      FailureIs(c, f, if Good(c, f, 0) then 0 else 1);
      var g := Next(c, f, step);
      FailureIs(c, g, if Good(c, g, 0) then 0 else 1);
    }
  }

  lemma {:induction false} EveryRunLoses(c: Config, steps: seq<Step>)
    requires c.cap >= 1
    ensures LostFor(c, Run(c, steps), WhenFull(c, steps))
  {
    if steps == [] {
      assert Good(c, START, 0);
    } else {
      var front := steps[..|steps| - 1];
      EveryRunLoses(c, front);
      NextLoses(c, Run(c, front), steps[|steps| - 1], WhenFull(c, front));
    }
  }

  /** An item is lost, or fails the feed, exactly for each that came when the ring was
      full. */
  lemma LostWhenFull(c: Config, steps: seq<Step>)
    requires c.cap >= 1
    ensures Run(c, steps).shared.overruns + (if Failed(Run(c, steps)) then 1 else 0) == WhenFull(c, steps)
  {
    EveryRunLoses(c, steps);
    var f := Run(c, steps);
    FailureIs(c, f, if Good(c, f, 0) && f.shared.overruns == WhenFull(c, steps) then 0 else 1);
  }

  /** A producer is done when it finished or captured as much as it may; a tap is closed
      by a stop, by the deadline or because the feed failed; and the producer stops
      for one of these alone. */
  lemma {:induction false} StopsOnlyFor(c: Config, steps: seq<Step>)
    ensures var f := Run(c, steps);
            && (f.shared.producerDone ==> Finishes in steps || (c.maxItems.Some? && f.shared.captured >= c.maxItems.value))
            && (f.shared.closed ==> Closes in steps || Looks(true) in steps || Failed(f))
            && (f.stopped ==> f.shared.producerDone || f.shared.closed)
  {
    if steps != [] {
      var front, last := steps[..|steps| - 1], steps[|steps| - 1];
      assert steps == front + [last];
      StopsOnlyFor(c, front);
      StopsNext(c, Run(c, front), last);
    }
  }

  lemma StopsNext(c: Config, f: Feed, step: Step)
    ensures var g := Next(c, f, step);
            && g.shared.captured >= f.shared.captured && (Failed(f) ==> Failed(g))
            && (g.shared.producerDone ==>
                  f.shared.producerDone || step.Finishes? || (c.maxItems.Some? && g.shared.captured >= c.maxItems.value))
            && (g.shared.closed ==> f.shared.closed || step.Closes? || step == Looks(true) || Failed(g))
            && (g.stopped ==> f.stopped || g.shared.producerDone || g.shared.closed)
            && (f.shared.producerDone ==> g.shared.producerDone) && (f.shared.closed ==> g.shared.closed)
  {
  }

  /** And one that captured as much as it may has stopped, and drains. */
  lemma FullFeedDrains(c: Config, steps: seq<Step>)
    requires c.cap >= 1 && c.maxItems.Some? && Run(c, steps).shared.captured >= Max(1, c.maxItems.value)
    ensures Run(c, steps).stopped && Draining(Run(c, steps))
  {
    EveryRunKeeps(c, steps);
    StopsOnlyFor(c, steps);
  }

  // It ends

  /** The feeder's own next step. */
  predicate Feeds(f: Feed, step: Step) {
    !f.feeder.ended && if f.feeder.hand.Some? then step == Delivers else step.Looks?
  }

  function RunFrom(c: Config, f: Feed, steps: seq<Step>): Feed {
    if steps == [] then f else Next(c, RunFrom(c, f, steps[..|steps| - 1]), steps[|steps| - 1])
  }

  function FeederSteps(c: Config, f: Feed, steps: seq<Step>): nat {
    if steps == [] then 0
    else
      var front := steps[..|steps| - 1];
      FeederSteps(c, f, front) + if Feeds(RunFrom(c, f, front), steps[|steps| - 1]) then 1 else 0
  }

  function Rank(f: Feed): nat {
    if f.feeder.ended then 0 else 2 * |f.shared.ring| + (if f.feeder.hand.Some? then 2 else 1)
  }

  /** Nothing more will come in: the tap is closed or the producer is done. */
  predicate Draining(f: Feed) {
    f.shared.closed || (f.shared.producerDone && f.stopped)
  }

  /** A feed drains once its tap was closed, its producer finished, or its deadline
      passed while the feeder looked. */
  lemma EndsIt(c: Config, f: Feed, step: Step)
    requires step.Finishes? || step.Closes? || (step == Looks(true) && Feeds(f, step))
    ensures Draining(Next(c, f, step))
  {
  }

  /** Nothing else opens it again, and a run in which one of these came drains. */
  lemma {:induction false} RunDrains(c: Config, steps: seq<Step>, i: nat)
    requires i < |steps| && (steps[i].Finishes? || steps[i].Closes? || (steps[i] == Looks(true) && Feeds(Run(c, steps[..i]), steps[i])))
    ensures Draining(Run(c, steps))
  {
    var front := steps[..|steps| - 1];
    if i == |steps| - 1 {
      EndsIt(c, Run(c, front), steps[i]);
    } else {
      assert front[..i] == steps[..i];
      RunDrains(c, front, i);
      RankFalls(c, Run(c, front), steps[|steps| - 1]);
    }
  }

  lemma RankFalls(c: Config, f: Feed, step: Step)
    requires Draining(f)
    ensures Draining(Next(c, f, step))
    ensures Rank(Next(c, f, step)) + (if Feeds(f, step) then 1 else 0) <= Rank(f)
  {
  }

  /** Once closed or finished, whatever else happens, the feeder takes at most two
      steps for each item in the ring, and two more, to end the stream. */
  lemma {:induction false} DrainsAndEnds(c: Config, f: Feed, steps: seq<Step>)
    requires Draining(f)
    ensures var g := RunFrom(c, f, steps);
            Draining(g) && Rank(g) + FeederSteps(c, f, steps) <= Rank(f) && (Rank(g) == 0 <==> g.feeder.ended)
  {
    if steps != [] {
      var front, last := steps[..|steps| - 1], steps[|steps| - 1];
      DrainsAndEnds(c, f, front);
      RankFalls(c, RunFrom(c, f, front), last);
    }
  }

  // The object

  class FeedShared {
    const config: Config
    var ring: seq<Slot>
    var closed: bool
    var producerDone: bool
    var failed: bool
    var captured: nat
    var droppedSinceDelivery: nat
    var overruns: nat

    constructor (config: Config)
      ensures this.config == config && View() == OPENED
    {
      this.config := config;
      ring, closed, producerDone, failed := [], false, false, false;
      captured, droppedSinceDelivery, overruns := 0, 0, 0;
    }

    ghost function View(): Shared
      reads this
    {
      Shared(ring, closed, producerDone, failed, captured, droppedSinceDelivery, overruns)
    }

    method CloseTap()
      modifies this
      ensures View() == old(View()).(closed := true)
    {
      closed := true;
    }

    method FinishCapture()
      modifies this
      ensures View() == old(View()).(producerDone := true)
    {
      producerDone := true;
    }

    method PushItem(item: Item) returns (more: bool)
      requires config.cap >= 1
      modifies this
      ensures (View(), more) == Push(config, old(View()), item)
    {
      if closed {
        return false;
      }
      var number := captured;
      captured := captured + 1;
      if |ring| >= config.cap {
        if config.policy == DropOldest {
          ring := ring[1..];
          overruns := overruns + 1;
          droppedSinceDelivery := droppedSinceDelivery + 1;
        } else {
          failed, closed := true, true;
          return false;
        }
      }
      ring := ring + [Slot(item, number)];
      if config.maxItems.Some? && number + 1 >= config.maxItems.value {
        producerDone := true;
        return false;
      }
      more := true;
    }

    /** The feeder's section under the lock, up to a wait. */
    method LookOnce(late: bool) returns (look: Look)
      modifies this
      ensures look == LookInto(old(View()), late) && View() == look.shared
    {
      if late {
        closed := true;
      }
      if failed {
        failed := false;
        return Failing(Shared(ring, closed, producerDone, failed, captured, droppedSinceDelivery, overruns));
      }
      if ring != [] {
        var slot, dropped := ring[0], droppedSinceDelivery;
        ring, droppedSinceDelivery := ring[1..], 0;
        return Took(Shared(ring, closed, producerDone, failed, captured, droppedSinceDelivery, overruns), slot, dropped);
      }
      var now := Shared(ring, closed, producerDone, failed, captured, droppedSinceDelivery, overruns);
      look := if producerDone || closed then Ending(now) else Waiting(now);
    }
  }
}
