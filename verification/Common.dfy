/** Shared datatypes and the few sequence facts several modules need. */
module Common {

  datatype Option<+T> = None | Some(value: T)

  datatype Result<+T, +E> = Ok(value: T) | Err(error: E)

  function Max(a: int, b: int): int {
    if a < b then b else a
  }

  function Min(a: int, b: int): int {
    if a < b then a else b
  }

  /** The concatenation of all the sequences in `parts`. */
  function Flatten<T>(parts: seq<seq<T>>): seq<T> {
    if parts == [] then [] else parts[0] + Flatten(parts[1..])
  }

  lemma {:induction false} FlattenAppend<T>(a: seq<seq<T>>, b: seq<seq<T>>)
    ensures Flatten(a + b) == Flatten(a) + Flatten(b)
  {
    if a == [] {
      assert a + b == b;
    } else {
      assert (a + b)[0] == a[0] && (a + b)[1..] == a[1..] + b;
      FlattenAppend(a[1..], b);
    }
  }

  lemma FlattenSnoc<T>(a: seq<seq<T>>, x: seq<T>)
    ensures Flatten(a + [x]) == Flatten(a) + x
  {
    FlattenAppend(a, [x]);
    assert Flatten([x]) == x + Flatten<T>([]) == x;
  }

  function Sum(s: seq<nat>): nat {
    if s == [] then 0 else Sum(s[..|s| - 1]) + s[|s| - 1]
  }

  lemma SumSnoc(s: seq<nat>, x: nat)
    ensures Sum(s + [x]) == Sum(s) + x
  {
    assert (s + [x])[..|s|] == s;
  }

  /** Taking the element at `i` out of a sequence takes it out of its sum. */
  lemma {:induction false} SumRemove(s: seq<nat>, i: nat)
    requires i < |s|
    ensures Sum(s) == Sum(s[..i] + s[i + 1..]) + s[i]
  {
    var rest := s[..i] + s[i + 1..];
    if i == |s| - 1 {
      assert rest == s[..i];
    } else {
      var front := s[..|s| - 1];
      SumRemove(front, i);
      assert rest[..|rest| - 1] == front[..i] + front[i + 1..];
    }
  }

  /** What follows `done` in a sequence that starts with it. */
  lemma PrefixCancels<T>(done: seq<T>, x: seq<T>, y: seq<T>, ahead: seq<T>)
    requires done + x + y <= done + ahead
    ensures done + x + y == done + (x + y) && x + y <= ahead
  {
    assert done + x + y == done + (x + y);
    assert ahead == (done + ahead)[|done|..];
    assert (done + ahead)[..|done + x + y|] == done + (x + y);
    assert ahead[..|x + y|] == x + y;
  }

  /** Appending the next slice of `s` to what was appended of it before. */
  lemma AppendSlice<T>(before: seq<T>, s: seq<T>, from: nat, to: nat)
    requires from <= to <= |s|
    ensures (before + s[..from]) + s[from..to] == before + s[..to]
  {
    assert s[..to] == s[..from] + s[from..to];
  }

  /** A cut of two sequences put together falls into the first or the second. */
  lemma CutOfTwo<T>(a: seq<T>, b: seq<T>, i: nat)
    requires i <= |a| + |b|
    ensures i <= |a| ==> (a + b)[..i] == a[..i]
    ensures i >= |a| ==> (a + b)[..i] == a + b[..i - |a|]
  {
  }

  lemma Associative<T>(a: seq<T>, b: seq<T>, c: seq<T>)
    ensures a + (b + c) == (a + b) + c
  {
  }

  lemma SplitLast<T>(a: seq<T>, b: seq<T>)
    requires b != []
    ensures a + b == (a + b[..|b| - 1]) + [b[|b| - 1]]
  {
  }

  lemma {:induction false} SubsetSize<T>(a: set<T>, b: set<T>)
    requires a <= b
    ensures |a| <= |b|
  {
    if a != {} {
      var x :| x in a;
      SubsetSize(a - {x}, b - {x});
    }
  }

  lemma PlusSize<T>(a: set<T>, b: set<T>)
    requires a !! b
    ensures |a + b| == |a| + |b|
  {
  }

  lemma MinusSize<T>(a: set<T>, b: set<T>)
    requires b <= a
    ensures |a - b| == |a| - |b|
  {
    PlusSize(a - b, b);
    assert (a - b) + b == a;
  }

  lemma MinusTwice<K, V>(m: map<K, V>, a: set<K>, b: set<K>)
    ensures (m - a) - b == m - (a + b)
  {
  }

  lemma MapWithout<K, V>(m: map<K, V>, k: K)
    requires k in m
    ensures |m - {k}| == |m| - 1
  {
    assert (m - {k})[k := m[k]] == m;
  }

  // Division

  lemma {:induction false} Apart(low: nat, high: nat, d: nat)
    requires low < high
    ensures high * d >= low * d + d
    decreases high
  {
    if high > low + 1 {
      Apart(low, high - 1, d);
    }
    assert high * d == (high - 1) * d + d;
  }

  lemma OneQuotient(q: nat, r: nat, q': nat, r': nat, d: nat)
    requires q * d + r == q' * d + r' && r < d && r' < d
    ensures q == q' && r == r'
  {
    if q > q' {
      Apart(q', q, d);
    } else if q < q' {
      Apart(q, q', d);
    }
  }

  lemma DivisionIs(n: nat, d: nat, q: nat, r: nat)
    requires n == q * d + r && r < d
    ensures n / d == q && n % d == r
  {
    OneQuotient(q, r, n / d, n % d, d);
  }
}
