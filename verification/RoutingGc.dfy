/**
 Age-based collection of one bounded routing table: the least recently touched
 entries go, in one pass or two.
 */
module RoutingGc {
  import opened Common

  const HARD_CAP: nat := 8192
  const SOFT_WATERMARK: nat := 6553

  /** When a key was last touched; a key with no stamp counts as oldest. */
  function TouchedAt<K>(touched: map<K, nat>, k: K): nat {
    if k in touched then touched[k] else 0
  }

  /** What a collection may do: `n` of the entries of `primary` are left, as they
      were; none of those evicted was touched later than one that was left; and
      exactly the evicted keys lost their stamps. */
  ghost predicate Collected<K, V>(primary: map<K, V>, touched: map<K, nat>, n: nat,
                                  primary': map<K, V>, touched': map<K, nat>) {
    && primary'.Keys <= primary.Keys && |primary'| == n
    && primary' == primary - (primary.Keys - primary'.Keys)
    && touched' == touched - (primary.Keys - primary'.Keys)
    && NoneLater(primary.Keys - primary'.Keys, primary'.Keys, touched)
  }

  predicate NoneLater<K>(evicted: set<K>, left: set<K>, touched: map<K, nat>) {
    forall e, s {:trigger TouchedAt(touched, e), TouchedAt(touched, s)} :: e in evicted && s in left ==> TouchedAt(touched, e) <= TouchedAt(touched, s)
  }

  /** The first pass takes a quarter, at least one. */
  function Quarter(n: nat): nat {
    Max(1, n / 4)
  }

  /** How many entries of a table of `n` are left. */
  function Left(n: nat): nat
    requires n > 0
  {
    var left := n - Quarter(n);
    if left >= HARD_CAP then SOFT_WATERMARK else left
  }

  /** Two passes are one collection: the second evicts nothing the first should
      have taken before what it took. */
  lemma CollectedTwice<K, V>(p: map<K, V>, t: map<K, nat>, n1: nat, p1: map<K, V>, t1: map<K, nat>,
                             n2: nat, p2: map<K, V>, t2: map<K, nat>)
    requires Collected(p, t, n1, p1, t1) && Collected(p1, t1, n2, p2, t2)
    ensures Collected(p, t, n2, p2, t2)
  {
    var e1, e2 := p.Keys - p1.Keys, p1.Keys - p2.Keys;
    Chain(p.Keys, p1.Keys, p2.Keys);
    MinusTwice(p, e1, e2);
    MinusTwice(t, e1, e2);
    BothNoneLater(e1, e2, p2.Keys, t);
  }

  lemma Chain<K>(a: set<K>, b: set<K>, c: set<K>)
    requires c <= b <= a
    ensures a - c == (a - b) + (b - c) && b == (b - c) + c && (a - b) !! (b - c) && (a - b) !! c
  {
  }

  lemma BothNoneLater<K>(e1: set<K>, e2: set<K>, left: set<K>, t: map<K, nat>)
    requires NoneLater(e1, e2 + left, t) && NoneLater(e2, left, t - e1) && e1 !! e2 && e1 !! left
    ensures NoneLater(e1 + e2, left, t)
  {
    forall e, s | e in e1 + e2 && s in left ensures TouchedAt(t, e) <= TouchedAt(t, s) {
      assert TouchedAt(t - e1, s) == TouchedAt(t, s);
      if e in e2 {
        assert TouchedAt(t - e1, e) == TouchedAt(t, e);
      }
    }
  }

  predicate InOrder<K(==)>(keys: seq<K>, touched: map<K, nat>) {
    forall i, j :: 0 <= i < j < |keys| ==> keys[i] != keys[j] && TouchedAt(touched, keys[i]) <= TouchedAt(touched, keys[j])
  }

  lemma {:induction false} OldestExists<K>(keys: set<K>, touched: map<K, nat>)
    requires keys != {}
    ensures exists k :: k in keys && forall j :: j in keys ==> TouchedAt(touched, k) <= TouchedAt(touched, j)
    decreases |keys|
  {
    var k :| k in keys;
    if keys != {k} {
      assert keys - {k} != {};
      OldestExists(keys - {k}, touched);
      var m :| m in keys - {k} && forall j :: j in keys - {k} ==> TouchedAt(touched, m) <= TouchedAt(touched, j);
      var oldest := if TouchedAt(touched, k) <= TouchedAt(touched, m) then k else m;
      assert forall j :: j in keys ==> j == k || j in keys - {k};
      assert oldest in keys && forall j :: j in keys ==> TouchedAt(touched, oldest) <= TouchedAt(touched, j);
    }
  }

  /** The keys by touch, oldest first; among equals any order. */
  method ByTouch<K(==)>(keys: set<K>, touched: map<K, nat>) returns (sorted: seq<K>)
    ensures InOrder(sorted, touched) && |sorted| == |keys|
    ensures forall k :: k in sorted <==> k in keys
  {
    sorted := [];
    var rest := keys;
    while rest != {}
      invariant rest <= keys && InOrder(sorted, touched) && |sorted| + |rest| == |keys|
      invariant forall k :: k in sorted <==> k in keys - rest
      invariant forall i, j :: 0 <= i < |sorted| && j in rest ==> TouchedAt(touched, sorted[i]) <= TouchedAt(touched, j)
      decreases |rest|
    {
      OldestExists(rest, touched);
      var k :| k in rest && forall j :: j in rest ==> TouchedAt(touched, k) <= TouchedAt(touched, j);
      assert k !in sorted;
      sorted := sorted + [k];
      rest := rest - {k};
    }
  }

  function Elements<K(==)>(s: seq<K>): set<K> {
    set k | k in s
  }

  lemma PopStamp<K, V>(m: map<K, V>, keys: seq<K>, i: nat)
    requires i < |keys|
    ensures (m - Elements(keys[..i])) - {keys[i]} == m - Elements(keys[..i + 1])
  {
    MinusTwice(m, Elements(keys[..i]), {keys[i]});
  }

  lemma PopOne<K, V>(m: map<K, V>, keys: seq<K>, i: nat)
    requires i < |keys| && keys[i] in m && forall j :: 0 <= j < i ==> keys[j] != keys[i]
    ensures (m - Elements(keys[..i])) - {keys[i]} == m - Elements(keys[..i + 1])
    ensures |m - Elements(keys[..i + 1])| == |m - Elements(keys[..i])| - 1
  {
    PopStamp(m, keys, i);
    assert keys[i] !in Elements(keys[..i]);
    MapWithout(m - Elements(keys[..i]), keys[i]);
  }

  /** Takes the keys out of both dictionaries, one after the other. */
  method PopAll<K(==), V>(primary: map<K, V>, touched: map<K, nat>, keys: seq<K>)
      returns (primary': map<K, V>, touched': map<K, nat>)
    requires forall k :: k in keys ==> k in primary
    requires forall i, j :: 0 <= i < j < |keys| ==> keys[i] != keys[j]
    ensures primary' == primary - Elements(keys) && touched' == touched - Elements(keys)
    ensures |primary'| == |primary| - |keys|
  {
    primary', touched' := primary, touched;
    var i := 0;
    while i < |keys|
      invariant i <= |keys| && |primary'| == |primary| - i
      invariant primary' == primary - Elements(keys[..i]) && touched' == touched - Elements(keys[..i])
    {
      PopOne(primary, keys, i);
      PopStamp(touched, keys, i);
      primary' := primary' - {keys[i]};
      touched' := touched' - {keys[i]};
      i := i + 1;
    }
    assert keys[..i] == keys;
  }

  /** Evicts the `count` least recently touched entries. */
  method EvictOldest<K(==), V>(primary: map<K, V>, touched: map<K, nat>, count: nat)
      returns (primary': map<K, V>, touched': map<K, nat>)
    requires count <= |primary|
    ensures Collected(primary, touched, |primary| - count, primary', touched')
  {
    var candidates := ByTouch(primary.Keys, touched);
    primary', touched' := PopAll(primary, touched, candidates[..count]);
    assert primary.Keys - primary'.Keys == Elements(candidates[..count]);
  }

  /** One table's collection: a quarter of it and, still at the hard cap, down to
      the soft watermark. `evicted` is what the eviction counter grows by. */
  method CollectTable<K(==), V>(primary: map<K, V>, touched: map<K, nat>)
      returns (primary': map<K, V>, touched': map<K, nat>, evicted: nat)
    requires primary != map[]
    ensures Collected(primary, touched, Left(|primary|), primary', touched')
    ensures evicted == |primary| - |primary'| && |primary'| < HARD_CAP
    ensures var kept := |primary| - Max(1, |primary| / 4); |primary'| == if kept >= 8192 then 6553 else kept
  {
    evicted := Quarter(|primary|);
    primary', touched' := EvictOldest(primary, touched, evicted);
    ghost var passes := 0;
    while |primary'| >= HARD_CAP
      invariant Collected(primary, touched, |primary'|, primary', touched')
      invariant evicted == |primary| - |primary'|
      invariant passes == 0 ==> |primary'| == |primary| - Quarter(|primary|)
      invariant passes == 0 || (passes == 1 && |primary| - Quarter(|primary|) >= HARD_CAP && |primary'| == SOFT_WATERMARK)
      decreases |primary'|
    {
      var extra := Max(1, |primary'| - SOFT_WATERMARK);
      ghost var p1, t1 := primary', touched';
      primary', touched' := EvictOldest(primary', touched', extra);
      CollectedTwice(primary, touched, |p1|, p1, t1, |primary'|, primary', touched');
      evicted := evicted + extra;
      passes := passes + 1;
    }
  }

  /** One table after a collection: below the hard cap; collected if it had reached
      the watermark, otherwise as it was. */
  ghost predicate AfterGc<K, V>(primary: map<K, V>, touched: map<K, nat>, primary': map<K, V>, touched': map<K, nat>) {
    && |primary'| < HARD_CAP
    && if |primary| >= SOFT_WATERMARK then Collected(primary, touched, Left(|primary|), primary', touched')
       else primary' == primary && touched' == touched
  }

  // What every collection keeps

  /** The keys touched before `k` was. */
  ghost function Earlier<K>(keys: set<K>, touched: map<K, nat>, k: K): set<K> {
    set j | j in keys && TouchedAt(touched, j) < TouchedAt(touched, k)
  }

  /** How many entries of a table of `n` a collection evicts. */
  function Evicted(n: nat): nat {
    if n < SOFT_WATERMARK then 0 else n - Left(n)
  }

  /** An entry with as many touched before it as go is not among those that go. */
  lemma OldGoFirst<K>(keys: set<K>, gone: set<K>, touched: map<K, nat>, k: K)
    requires gone <= keys && NoneLater(gone, keys - gone, touched)
    requires |Earlier(keys, touched, k)| >= |gone|
    ensures k !in gone
  {
    if k in gone {
      var before := Earlier(keys, touched, k);
      forall s | s in before ensures s in gone - {k} {
        var at, now := TouchedAt(touched, k), TouchedAt(touched, s);
      }
      SubsetSize(before, gone - {k});
    }
  }

  /** A key that was never stamped goes before any that was. */
  lemma UnstampedGoFirst<K, V>(primary: map<K, V>, touched: map<K, nat>, n: nat, left: map<K, V>, touched': map<K, nat>, k: K, j: K)
    requires Collected(primary, touched, n, left, touched') && k in left && k !in touched
    requires j in primary && j !in left
    ensures j in touched ==> touched[j] == 0
  {
    var at, now := TouchedAt(touched, k), TouchedAt(touched, j);
    assert j in primary.Keys - left.Keys && k in left.Keys;
  }

  /** So of a collected table it is left. */
  lemma OldEnoughGoFirst<K, V>(primary: map<K, V>, touched: map<K, nat>, n: nat, left: map<K, V>, touched': map<K, nat>, k: K)
    requires Collected(primary, touched, n, left, touched') && k in primary
    requires |Earlier(primary.Keys, touched, k)| >= |primary| - n
    ensures k in left
  {
    var gone := primary.Keys - left.Keys;
    MinusSize(primary.Keys, left.Keys);
    assert primary.Keys - gone == left.Keys;
    OldGoFirst(primary.Keys, gone, touched, k);
  }

  lemma {:induction false} OldestOf<K>(keys: set<K>, touched: map<K, nat>, n: nat) returns (oldest: set<K>)
    requires n <= |keys|
    ensures oldest <= keys && |oldest| == n && NoneLater(oldest, keys - oldest, touched)
  {
    if n == 0 {
      oldest := {};
    } else {
      OldestExists(keys, touched);
      var k :| k in keys && forall j :: j in keys ==> TouchedAt(touched, k) <= TouchedAt(touched, j);
      var rest := OldestOf(keys - {k}, touched, n - 1);
      oldest := rest + {k};
      assert keys - oldest == keys - {k} - rest;
    }
  }

  /** The `n` oldest, `k` among them and before any touched as late as it. */
  lemma OldestWith<K>(keys: set<K>, touched: map<K, nat>, n: nat, k: K) returns (oldest: set<K>)
    requires k in keys && |Earlier(keys, touched, k)| < n <= |keys|
    ensures oldest <= keys && |oldest| == n && k in oldest && NoneLater(oldest, keys - oldest, touched)
  {
    var before := Earlier(keys, touched, k);
    var first := before + {k};
    var rest := keys - first;
    MinusSize(keys, first);
    var more := OldestOf(rest, touched, n - |before| - 1);
    oldest := first + more;
    assert keys - oldest == rest - more;
    assert |first| == |before| + 1;
    PlusSize(first, more);
  }

  lemma GoneIsCollected<K, V>(primary: map<K, V>, touched: map<K, nat>, gone: set<K>, n: nat)
    requires gone <= primary.Keys && NoneLater(gone, primary.Keys - gone, touched) && n + |gone| == |primary|
    ensures Collected(primary, touched, n, primary - gone, touched - gone)
  {
    var left := primary - gone;
    assert left.Keys == primary.Keys - gone;
    MinusSize(primary.Keys, gone);
    assert primary.Keys - left.Keys == gone;
  }

  /** Some collection evicts an entry that has fewer touched before it. */
  lemma YoungCanGo<K, V>(primary: map<K, V>, touched: map<K, nat>, n: nat, k: K)
      returns (left: map<K, V>, touched': map<K, nat>)
    requires k in primary && n < |primary| && |Earlier(primary.Keys, touched, k)| < |primary| - n
    ensures Collected(primary, touched, n, left, touched') && k !in left
  {
    var gone := OldestWith(primary.Keys, touched, |primary| - n, k);
    GoneIsCollected(primary, touched, gone, n);
    left, touched' := primary - gone, touched - gone;
  }

  function Due(n: nat): nat {
    if n >= SOFT_WATERMARK then 1 else 0
  }

  /** Collects a table that has reached its soft watermark. */
  method CollectIfNeeded<K(==), V>(primary: map<K, V>, touched: map<K, nat>)
      returns (primary': map<K, V>, touched': map<K, nat>, runs: nat, evicted: nat)
    ensures AfterGc(primary, touched, primary', touched') && evicted == |primary| - |primary'|
    ensures runs == Due(|primary|) == if |primary| < 6553 then 0 else 1
    ensures var kept := |primary| - Max(1, |primary| / 4);
            |primary'| == if |primary| < 6553 then |primary| else if kept >= 8192 then 6553 else kept
  {
    primary', touched', runs, evicted := primary, touched, 0, 0;
    if |primary| >= SOFT_WATERMARK {
      primary', touched', evicted := CollectTable(primary, touched);
      runs := 1;
    }
  }
}
