/**
 Which version of a cartridge a host installs: versions compared part by part,
 the shorter one padded with zeros, listed newest first, and scanned for the
 first that the host has an installer of.
 */
module Versions {
  import opened Common
  import opened Text

  predicate AllDigits(s: string) {
    s != "" && forall c :: c in s ==> IsDigit(c)
  }

  function Value(s: string): nat
    requires AllDigits(s)
  {
    var last := s[|s| - 1];
    assert last in s;
    if |s| == 1 then DigitValue(last) else 10 * Value(s[..|s| - 1]) + DigitValue(last)
  }

  /** The numbers among the dot-separated parts; any other part is passed over. */
  function Numbers(parts: seq<string>): seq<nat> {
    if parts == [] then []
    else
      var last := parts[|parts| - 1];
      Numbers(parts[..|parts| - 1]) + if AllDigits(last) then [Value(last)] else []
  }

  function Parts(version: string): seq<nat> {
    Numbers(Split(version, '.'))
  }

  function At(x: seq<nat>, i: nat): nat {
    if i < |x| then x[i] else 0
  }

  /** -1, 0 or 1, from part `i` on. */
  function CompareFrom(x: seq<nat>, y: seq<nat>, i: nat): int
    decreases Max(|x|, |y|) - i
  {
    if i >= Max(|x|, |y|) then 0
    else if At(x, i) < At(y, i) then -1
    else if At(x, i) > At(y, i) then 1
    else CompareFrom(x, y, i + 1)
  }

  function CompareVersions(a: string, b: string): int {
    CompareFrom(Parts(a), Parts(b), 0)
  }

  // What the comparison means

  /** At some part `x` is smaller, and equal before it; both go on with zeros. */
  ghost predicate Before(x: seq<nat>, y: seq<nat>) {
    exists i: nat :: SmallerAt(x, y, i)
  }

  ghost predicate SmallerAt(x: seq<nat>, y: seq<nat>, i: nat) {
    At(x, i) < At(y, i) && SameUpTo(x, y, i)
  }

  ghost predicate SameUpTo(x: seq<nat>, y: seq<nat>, n: nat) {
    forall j: nat :: j < n ==> At(x, j) == At(y, j)
  }

  ghost predicate Same(x: seq<nat>, y: seq<nat>) {
    forall j: nat :: At(x, j) == At(y, j)
  }

  lemma {:induction false} CompareMeansFrom(x: seq<nat>, y: seq<nat>, i: nat)
    requires SameUpTo(x, y, i)
    ensures CompareFrom(x, y, i) in {-1, 0, 1}
    ensures CompareFrom(x, y, i) == -1 ==> Before(x, y)
    ensures CompareFrom(x, y, i) == 1 ==> Before(y, x)
    ensures CompareFrom(x, y, i) == 0 ==> Same(x, y)
    decreases Max(|x|, |y|) - i
  {
    if i < Max(|x|, |y|) {
      if At(x, i) < At(y, i) {
        assert SmallerAt(x, y, i);
      } else if At(x, i) > At(y, i) {
        assert SmallerAt(y, x, i);
      } else {
        CompareMeansFrom(x, y, i + 1);
      }
    }
  }

  /** The comparison is the order of the zero-padded versions: exactly one of
      older, same and newer. */
  lemma CompareIff(a: string, b: string)
    ensures CompareVersions(a, b) == -1 <==> Before(Parts(a), Parts(b))
    ensures CompareVersions(a, b) == 1 <==> Before(Parts(b), Parts(a))
    ensures CompareVersions(a, b) == 0 <==> Same(Parts(a), Parts(b))
  {
    CompareMeansFrom(Parts(a), Parts(b), 0);
  }

  /** The first `n` parts, with zeros where there are none. */
  function Padded(x: seq<nat>, n: nat): seq<nat>
    requires n >= |x|
  {
    x + seq(n - |x|, _ => 0)
  }

  /** Written out: padded to one length, the first part in which two versions differ
      decides. */
  lemma FirstDifferenceDecides(a: string, b: string, n: nat)
    requires n >= |Parts(a)| && n >= |Parts(b)|
    ensures var x, y := Padded(Parts(a), n), Padded(Parts(b), n);
            && (CompareVersions(a, b) == 0 <==> x == y)
            && (CompareVersions(a, b) == -1 <==> exists i :: 0 <= i < n && x[i] < y[i] && x[..i] == y[..i])
            && (CompareVersions(a, b) == 1 <==> exists i :: 0 <= i < n && x[i] > y[i] && x[..i] == y[..i])
  {
    CompareIff(a, b);
    PaddedBefore(Parts(a), Parts(b), n);
    PaddedBefore(Parts(b), Parts(a), n);
    PaddedSame(Parts(a), Parts(b), n);
  }

  lemma PaddedSame(p: seq<nat>, q: seq<nat>, n: nat)
    requires n >= |p| && n >= |q|
    ensures Same(p, q) <==> Padded(p, n) == Padded(q, n)
  {
    assert forall i :: 0 <= i < n ==> Padded(p, n)[i] == At(p, i) && Padded(q, n)[i] == At(q, i);
    if Padded(p, n) == Padded(q, n) {
      forall j: nat ensures At(p, j) == At(q, j) {
        if j < n {
          assert Padded(p, n)[j] == Padded(q, n)[j];
        }
      }
    }
  }

  lemma PaddedBefore(p: seq<nat>, q: seq<nat>, n: nat)
    requires n >= |p| && n >= |q|
    ensures var x, y := Padded(p, n), Padded(q, n);
            Before(p, q) <==> exists i :: 0 <= i < n && x[i] < y[i] && x[..i] == y[..i]
  {
    var x, y := Padded(p, n), Padded(q, n);
    assert forall i :: 0 <= i < n ==> x[i] == At(p, i) && y[i] == At(q, i);
    if Before(p, q) {
      var i: nat :| SmallerAt(p, q, i);
      assert x[..i] == y[..i];
    }
    if i :| 0 <= i < n && x[i] < y[i] && x[..i] == y[..i] {
      assert forall j :: 0 <= j < i ==> x[j] == x[..i][j] && y[j] == y[..i][j];
      assert SmallerAt(p, q, i);
    }
  }

  predicate NotNewer(a: string, b: string) {
    CompareVersions(a, b) <= 0
  }

  lemma BeforeTransitive(x: seq<nat>, y: seq<nat>, z: seq<nat>)
    requires (Before(x, y) && (Before(y, z) || Same(y, z))) || (Same(x, y) && Before(y, z))
    ensures Before(x, z)
  {
    var i: nat :| if Before(x, y) then SmallerAt(x, y, i) else SmallerAt(y, z, i);
    if Before(x, y) && Before(y, z) {
      var j: nat :| SmallerAt(y, z, j);
      assert SmallerAt(x, z, if i < j then i else j);
    } else {
      assert SmallerAt(x, z, i);
    }
  }

  /** Any two versions compare, either way round alike, and not being newer is
      transitive: a total preorder, in which `1.0` and `1.0.0` are the same. */
  lemma TotalPreorder(a: string, b: string, c: string)
    ensures CompareVersions(a, b) == -CompareVersions(b, a)
    ensures NotNewer(a, a) && (NotNewer(a, b) || NotNewer(b, a))
    ensures NotNewer(a, b) && NotNewer(b, c) ==> NotNewer(a, c)
  {
    CompareIff(a, b);
    CompareIff(b, a);
    CompareIff(b, c);
    CompareIff(a, c);
    CompareIff(a, a);
    CompareMeansFrom(Parts(a), Parts(b), 0);
    CompareMeansFrom(Parts(b), Parts(a), 0);
    CompareMeansFrom(Parts(b), Parts(c), 0);
    CompareMeansFrom(Parts(a), Parts(c), 0);
    if NotNewer(a, b) && NotNewer(b, c) && !(Same(Parts(a), Parts(b)) && Same(Parts(b), Parts(c))) {
      BeforeTransitive(Parts(a), Parts(b), Parts(c));
    }
  }

  // The listing

  predicate NoneNewer(vs: seq<string>, than: string) {
    forall v :: v in vs ==> NotNewer(v, than)
  }

  /** No version is newer than one listed before it. */
  predicate NewestFirst(order: seq<string>) {
    order == [] || (NoneNewer(order[1..], order[0]) && NewestFirst(order[1..]))
  }

  /** Puts `v` before the first version it is newer than. */
  function Insert(v: string, order: seq<string>): seq<string> {
    if order == [] then [v]
    else if CompareVersions(v, order[0]) == 1 then [v] + order
    else [order[0]] + Insert(v, order[1..])
  }

  /** The stable sort by the comparison turned round. */
  function Sorted(versions: seq<string>): seq<string> {
    if versions == [] then [] else Insert(versions[|versions| - 1], Sorted(versions[..|versions| - 1]))
  }

  lemma {:induction false} Inserted(v: string, order: seq<string>)
    ensures multiset(Insert(v, order)) == multiset{v} + multiset(order)
    decreases |order|
  {
    if order != [] {
      assert order == [order[0]] + order[1..];
      Inserted(v, order[1..]);
    }
  }

  lemma {:induction false} InsertSorts(v: string, order: seq<string>)
    requires NewestFirst(order)
    ensures NewestFirst(Insert(v, order))
    decreases |order|
  {
    if order != [] {
      TotalPreorder(v, order[0], v);
      if CompareVersions(v, order[0]) == 1 {
        forall w | w in order ensures NotNewer(w, v) {
          assert w == order[0] || w in order[1..];
          TotalPreorder(w, order[0], v);
        }
        assert ([v] + order)[1..] == order;
      } else {
        var rest := Insert(v, order[1..]);
        InsertSorts(v, order[1..]);
        Inserted(v, order[1..]);
        CompareMeansFrom(Parts(v), Parts(order[0]), 0);
        forall w | w in rest ensures NotNewer(w, order[0]) {
          assert w in multiset(rest) && (w == v || w in multiset(order[1..]));
        }
        assert ([order[0]] + rest)[1..] == rest;
      }
    }
  }

  lemma {:induction false} SortedHolds(versions: seq<string>)
    ensures multiset(Sorted(versions)) == multiset(versions)
  {
    if versions != [] {
      var front, last := versions[..|versions| - 1], versions[|versions| - 1];
      SortedHolds(front);
      Inserted(last, Sorted(front));
      assert versions == front + [last];
    }
  }

  lemma {:induction false} SortedLists(versions: seq<string>)
    ensures NewestFirst(Sorted(versions))
  {
    if versions != [] {
      SortedLists(versions[..|versions| - 1]);
      InsertSorts(versions[|versions| - 1], Sorted(versions[..|versions| - 1]));
    }
  }

  // What a host installs

  datatype Package = Package(format: string, name: string)

  /** `legacy`: the single package of a manifest that has no list of them. */
  datatype Build = Build(platform: string, packages: seq<Package>, legacy: Option<Package>)

  function Preference(platform: string): seq<string> {
    var os := Split(platform, '-')[0];
    if os == "darwin" then ["pkg"]
    else if os == "linux" then ["deb", "rpm"]
    else if os == "windows" then ["msi", "exe"]
    else []
  }

  function FirstOfFormat(packages: seq<Package>, format: string): Option<Package> {
    if packages == [] then None
    else if packages[0].format == format then Some(packages[0])
    else FirstOfFormat(packages[1..], format)
  }

  function FirstPreferred(packages: seq<Package>, preference: seq<string>): Option<Package> {
    if preference == [] then None
    else if FirstOfFormat(packages, preference[0]).Some? then FirstOfFormat(packages, preference[0])
    else FirstPreferred(packages, preference[1..])
  }

  function PrimaryPackage(b: Build): Option<Package> {
    var preferred := FirstPreferred(b.packages, Preference(b.platform));
    if preferred.Some? then preferred
    else if b.packages != [] then Some(b.packages[0])
    else b.legacy
  }

  predicate Offers(packages: seq<Package>, format: string) {
    exists p :: p in packages && p.format == format
  }

  /** Package `i` is of the format, and none before it is. */
  predicate FirstOf(packages: seq<Package>, format: string, i: int) {
    0 <= i < |packages| && packages[i].format == format && forall j :: 0 <= j < i ==> packages[j].format != format
  }

  lemma {:induction false} FirstOfFormatIff(packages: seq<Package>, format: string)
    ensures FirstOfFormat(packages, format).Some? <==> Offers(packages, format)
    ensures FirstOfFormat(packages, format).Some? ==>
              FirstOfFormat(packages, format).value in packages && FirstOfFormat(packages, format).value.format == format
              && exists i :: FirstOf(packages, format, i) && packages[i] == FirstOfFormat(packages, format).value
    decreases |packages|
  {
    if packages != [] {
      var rest := packages[1..];
      FirstOfFormatIff(rest, format);
      assert packages == [packages[0]] + rest;
      if packages[0].format == format {
        assert FirstOf(packages, format, 0);
      } else if FirstOfFormat(rest, format).Some? {
        var i :| FirstOf(rest, format, i) && rest[i] == FirstOfFormat(rest, format).value;
        assert packages[i + 1] == rest[i];
        forall j | 0 <= j < i + 1 ensures packages[j].format != format {
          assert j > 0 ==> packages[j] == rest[j - 1];
        }
        assert FirstOf(packages, format, i + 1);
      }
    }
  }

  /** `format` is the `i`-th preference, and nothing is offered of those before it. */
  predicate MostPreferred(packages: seq<Package>, preference: seq<string>, format: string, i: int) {
    0 <= i < |preference| && preference[i] == format && forall j :: 0 <= j < i ==> !Offers(packages, preference[j])
  }

  lemma {:induction false} FirstPreferredLaws(packages: seq<Package>, preference: seq<string>)
    ensures var r := FirstPreferred(packages, preference);
            && (r.None? <==> forall i :: 0 <= i < |preference| ==> !Offers(packages, preference[i]))
            && (r.Some? ==> r.value in packages && exists i :: MostPreferred(packages, preference, r.value.format, i))
            && (r.Some? ==> exists i :: FirstOf(packages, r.value.format, i) && packages[i] == r.value)
    decreases |preference|
  {
    if preference != [] {
      FirstOfFormatIff(packages, preference[0]);
      FirstPreferredLaws(packages, preference[1..]);
      var r := FirstPreferred(packages, preference);
      assert forall i :: 0 <= i < |preference| - 1 ==> preference[1..][i] == preference[i + 1];
      if r.Some? {
        if FirstOfFormat(packages, preference[0]).Some? {
          assert MostPreferred(packages, preference, r.value.format, 0);
        } else {
          var i :| MostPreferred(packages, preference[1..], r.value.format, i);
          forall j | 0 <= j < i + 1 ensures !Offers(packages, preference[j]) {
            assert j > 0 ==> preference[j] == preference[1..][j - 1];
          }
          assert MostPreferred(packages, preference, r.value.format, i + 1);
        }
      }
    }
  }

  /** The host's package is of the most preferred format that the build offers; of
      any format only if it offers none of those; and there is none only if the
      build has no package at all. */
  lemma PrimaryPackageIff(b: Build)
    ensures PrimaryPackage(b) == None <==> b.packages == [] && b.legacy == None
    ensures b.packages != [] ==> PrimaryPackage(b).Some? && PrimaryPackage(b).value in b.packages
    ensures var wanted := Preference(b.platform);
            (exists i :: 0 <= i < |wanted| && Offers(b.packages, wanted[i])) ==>
              PrimaryPackage(b).Some?
              && (exists i :: MostPreferred(b.packages, wanted, PrimaryPackage(b).value.format, i))
              && exists i :: FirstOf(b.packages, PrimaryPackage(b).value.format, i) && b.packages[i] == PrimaryPackage(b).value
    ensures var wanted := Preference(b.platform);
            (forall i :: 0 <= i < |wanted| ==> !Offers(b.packages, wanted[i])) ==>
              PrimaryPackage(b) == if b.packages != [] then Some(b.packages[0]) else b.legacy
  {
    FirstPreferredLaws(b.packages, Preference(b.platform));
  }

  datatype Info = Info(latest: string, versions: map<string, seq<Build>>, available: seq<string>)

  datatype Resolution =
    | Compatible(version: string, package: Package)
    | CompatibleOutdated(version: string, package: Package)
    | Incompatible

  function FirstBuild(builds: seq<Build>, platform: string): Option<Build> {
    if builds == [] then None
    else if builds[0].platform == platform then Some(builds[0])
    else FirstBuild(builds[1..], platform)
  }

  function BuildForHost(c: Info, version: string, platform: string): Option<Build> {
    if version in c.versions then FirstBuild(c.versions[version], platform) else None
  }

  /** What the host would install of a version, if it can. */
  function Installer(c: Info, version: string, platform: string): Option<Package> {
    match BuildForHost(c, version, platform) case Some(b) => PrimaryPackage(b) case None => None
  }

  function ResolveFrom(c: Info, order: seq<string>, platform: string): Resolution {
    if order == [] then Incompatible
    else
      match Installer(c, order[0], platform)
      case None => ResolveFrom(c, order[1..], platform)
      case Some(p) => if order[0] == c.latest then Compatible(order[0], p) else CompatibleOutdated(order[0], p)
  }

  function ResolveForHost(c: Info, platform: string): Resolution {
    ResolveFrom(c, c.available, platform)
  }

  /** Build `i` is for the platform, and none before it is. */
  predicate FirstFor(builds: seq<Build>, platform: string, i: int) {
    0 <= i < |builds| && builds[i].platform == platform && forall j :: 0 <= j < i ==> builds[j].platform != platform
  }

  lemma {:induction false} FirstBuildIff(builds: seq<Build>, platform: string)
    ensures match FirstBuild(builds, platform)
            case None => forall i :: !FirstFor(builds, platform, i)
            case Some(b) => exists i :: FirstFor(builds, platform, i) && builds[i] == b
    decreases |builds|
  {
    if builds != [] {
      var rest := builds[1..];
      FirstBuildIff(rest, platform);
      assert forall i :: 0 <= i < |rest| ==> rest[i] == builds[i + 1];
      if builds[0].platform == platform {
        assert FirstFor(builds, platform, 0);
      } else {
        forall i ensures FirstFor(builds, platform, i + 1) == FirstFor(rest, platform, i) {
        }
        forall i | FirstFor(builds, platform, i) ensures FirstFor(rest, platform, i - 1) {
          assert FirstFor(builds, platform, (i - 1) + 1);
        }
        if i :| FirstFor(rest, platform, i) && rest[i] == FirstBuild(rest, platform).value {
          assert FirstFor(builds, platform, i + 1) && builds[i + 1] == rest[i];
        }
      }
    }
  }

  /** What is installed of a version is the package of its first build for exactly the
      host's platform; and nothing can be only when it has no such build, or that one
      no package. */
  lemma InstalledIsForPlatform(c: Info, version: string, platform: string)
    ensures var builds := if version in c.versions then c.versions[version] else [];
            match Installer(c, version, platform)
            case None => forall i :: FirstFor(builds, platform, i) ==> builds[i].packages == [] && builds[i].legacy == None
            case Some(p) => exists i :: FirstFor(builds, platform, i) && PrimaryPackage(builds[i]) == Some(p)
  {
    var builds := if version in c.versions then c.versions[version] else [];
    FirstBuildIff(builds, platform);
    if FirstBuild(builds, platform).Some? {
      var i :| FirstFor(builds, platform, i) && builds[i] == FirstBuild(builds, platform).value;
      PrimaryPackageIff(builds[i]);
      forall j | FirstFor(builds, platform, j) ensures j == i {
      }
    }
  }

  /** The formats a host prefers, most preferred first, by its system. */
  lemma PreferenceIs(os: string, arch: string)
    requires '-' !in os
    ensures var wanted := Preference(os + ['-'] + arch);
            && wanted == Preference(os)
            && (os == "darwin" ==> wanted == ["pkg"]) && (os == "linux" ==> wanted == ["deb", "rpm"])
            && (os == "windows" ==> wanted == ["msi", "exe"])
            && (os != "darwin" && os != "linux" && os != "windows" ==> wanted == [])
  {
    SplitFirst(os, '-', arch);
  }

  lemma {:induction false} NumbersAppend(a: seq<string>, b: seq<string>)
    ensures Numbers(a + b) == Numbers(a) + Numbers(b)
    decreases |b|
  {
    if b == [] {
      assert a + b == a;
    } else {
      assert (a + b)[..|a + b| - 1] == a + b[..|b| - 1];
      NumbersAppend(a, b[..|b| - 1]);
    }
  }

  function Printed(ns: seq<nat>): seq<string> {
    seq(|ns|, i requires 0 <= i < |ns| => Print(ns[i]))
  }

  lemma {:induction false} NumbersPrinted(ns: seq<nat>)
    ensures Numbers(Printed(ns)) == ns
  {
    if ns != [] {
      var front := ns[..|ns| - 1];
      NumbersPrinted(front);
      ValuePrinted(ns[|ns| - 1]);
      assert Printed(ns)[..|ns| - 1] == Printed(front);
    }
  }

  lemma {:induction false} NoDots(n: nat)
    ensures '.' !in Print(n)
  {
    if n >= 10 {
      NoDots(n / 10);
    }
  }

  /** A version of numbers reads as those numbers, in that order; and a part that is
      not a number is passed over, wherever it is. */
  lemma PartsPrinted(ns: seq<nat>, a: seq<string>, word: string, b: seq<string>)
    requires !AllDigits(word)
    ensures ns != [] ==> Parts(Join(Printed(ns), '.')) == ns
    ensures Numbers(a + [word] + b) == Numbers(a + b)
  {
    if ns != [] {
      forall p | p in Printed(ns) ensures '.' !in p {
        var i :| 0 <= i < |ns| && p == Print(ns[i]);
        NoDots(ns[i]);
      }
      SplitJoin(Printed(ns), '.');
      NumbersPrinted(ns);
    }
    NumbersAppend(a, [word]);
    NumbersAppend(a + [word], b);
    NumbersAppend(a, b);
    NumbersSnoc([], word);
    assert [] + [word] == [word];
  }

  /** A part in decimal is its number. */
  lemma {:induction false} ValuePrinted(n: nat)
    ensures AllDigits(Print(n)) && Value(Print(n)) == n
  {
    if n >= 10 {
      var front, last := Print(n / 10), Digit(n % 10);
      ValuePrinted(n / 10);
      assert Print(n) == front + [last] && Print(n)[..|front|] == front;
    }
  }

  predicate Installable(c: Info, v: string, platform: string) {
    Installer(c, v, platform).Some?
  }

  /** `r` is the best of `order` for the host: none can be installed, or its version
      can, with its package, and no other that can is newer. */
  predicate Best(c: Info, order: seq<string>, platform: string, r: Resolution) {
    match r
    case Incompatible => forall v :: v in order ==> !Installable(c, v, platform)
    case Compatible(w, p) => BestVersion(c, order, platform, w, p) && w == c.latest
    case CompatibleOutdated(w, p) => BestVersion(c, order, platform, w, p) && w != c.latest
  }

  predicate BestVersion(c: Info, order: seq<string>, platform: string, w: string, p: Package) {
    && w in order && Installer(c, w, platform) == Some(p)
    && forall v :: v in order && Installable(c, v, platform) ==> NotNewer(v, w)
  }

  lemma {:induction false} ScanFindsBest(c: Info, order: seq<string>, platform: string)
    requires NewestFirst(order)
    ensures Best(c, order, platform, ResolveFrom(c, order, platform))
    decreases |order|
  {
    if order != [] {
      var first := order[0];
      forall v ensures v in order <==> v == first || v in order[1..] {
        assert order == [first] + order[1..];
      }
      if Installable(c, first, platform) {
        TotalPreorder(first, first, first);
        assert BestVersion(c, order, platform, first, Installer(c, first, platform).value);
      } else {
        ScanFindsBest(c, order[1..], platform);
      }
    }
  }

  /** The version a host resolves to is one it can install, and no version it can
      install is newer; it is incompatible only when it can install none. It counts
      as outdated exactly when it is not the version called latest. */
  lemma ResolvesToNewestInstallable(c: Info, keys: seq<string>, platform: string)
    requires c.available == Sorted(keys)
    ensures Best(c, keys, platform, ResolveForHost(c, platform))
  {
    SortedLists(keys);
    SortedHolds(keys);
    ScanFindsBest(c, c.available, platform);
    forall v ensures v in c.available <==> v in keys {
      assert v in c.available <==> v in multiset(c.available);
      assert v in keys <==> v in multiset(keys);
    }
  }

  /** If the latest can be installed and every other version that can be is older,
      it is what a host gets. */
  lemma LatestWins(c: Info, keys: seq<string>, platform: string)
    requires c.available == Sorted(keys) && c.latest in keys && Installable(c, c.latest, platform)
    requires forall v :: v in keys && v != c.latest && Installable(c, v, platform) ==> CompareVersions(v, c.latest) == -1
    ensures ResolveForHost(c, platform) == Compatible(c.latest, Installer(c, c.latest, platform).value)
  {
    ResolvesToNewestInstallable(c, keys, platform);
    var r := ResolveForHost(c, platform);
    assert !r.Incompatible?;
    TotalPreorder(c.latest, r.version, r.version);
  }

  // When the latest is what a host gets

  /** The first of `order` that can be installed is the one called latest. */
  predicate LatestFirst(c: Info, order: seq<string>, platform: string) {
    order != [] && (order[0] == c.latest || (!Installable(c, order[0], platform) && LatestFirst(c, order[1..], platform)))
  }

  /** The scan comes to an installable latest exactly when no other version that
      can be installed is listed before it. */
  lemma {:induction false} ScanComesToLatestIff(c: Info, order: seq<string>, platform: string)
    requires Installable(c, c.latest, platform)
    ensures ResolveFrom(c, order, platform) == Compatible(c.latest, Installer(c, c.latest, platform).value)
       <==> LatestFirst(c, order, platform)
    decreases |order|
  {
    if order != [] && order[0] != c.latest && !Installable(c, order[0], platform) {
      ScanComesToLatestIff(c, order[1..], platform);
    }
  }

  /** `v` does not come before the latest in a stable sort: it is older, or another
      spelling of it that was given later. */
  predicate Yields(c: Info, v: string, platform: string, latestGiven: bool) {
    v == c.latest || !Installable(c, v, platform)
    || CompareVersions(v, c.latest) == -1 || (CompareVersions(v, c.latest) == 0 && latestGiven)
  }

  predicate AllYield(c: Info, keys: seq<string>, platform: string) {
    forall j :: 0 <= j < |keys| ==> Yields(c, keys[j], platform, c.latest in keys[..j])
  }

  lemma {:induction false} LatestIsListed(c: Info, order: seq<string>, platform: string)
    requires LatestFirst(c, order, platform)
    ensures c.latest in order
    decreases |order|
  {
    if order[0] != c.latest {
      LatestIsListed(c, order[1..], platform);
    }
  }

  /** A version that is not the latest goes in behind it exactly when it yields. */
  lemma {:induction false} InsertOther(c: Info, v: string, order: seq<string>, platform: string)
    requires NewestFirst(order) && c.latest in order && v != c.latest
    ensures LatestFirst(c, Insert(v, order), platform)
       <==> LatestFirst(c, order, platform) && Yields(c, v, platform, true)
    decreases |order|
  {
    assert c.latest == order[0] || c.latest in order[1..];
    TotalPreorder(v, c.latest, order[0]);
    TotalPreorder(c.latest, order[0], v);
    CompareMeansFrom(Parts(v), Parts(c.latest), 0);
    CompareMeansFrom(Parts(v), Parts(order[0]), 0);
    if CompareVersions(v, order[0]) == 1 {
      assert ([v] + order)[1..] == order;
      assert NotNewer(c.latest, order[0]);
    } else {
      var rest := Insert(v, order[1..]);
      assert ([order[0]] + rest)[1..] == rest;
      if order[0] != c.latest {
        InsertOther(c, v, order[1..], platform);
      }
    }
  }

  /** The latest given once more goes in behind itself. */
  lemma {:induction false} InsertAgain(c: Info, order: seq<string>, platform: string)
    requires NewestFirst(order) && c.latest in order
    ensures LatestFirst(c, Insert(c.latest, order), platform) <==> LatestFirst(c, order, platform)
    decreases |order|
  {
    assert c.latest == order[0] || c.latest in order[1..];
    TotalPreorder(c.latest, order[0], c.latest);
    assert NotNewer(c.latest, order[0]);
    var rest := Insert(c.latest, order[1..]);
    assert ([order[0]] + rest)[1..] == rest;
    if order[0] != c.latest {
      InsertAgain(c, order[1..], platform);
    }
  }

  predicate AllOlder(c: Info, vs: seq<string>, platform: string) {
    forall v :: v in vs ==> Yields(c, v, platform, false)
  }

  lemma AllOlderTail(c: Info, order: seq<string>, platform: string)
    requires order != []
    ensures AllOlder(c, order, platform) <==> Yields(c, order[0], platform, false) && AllOlder(c, order[1..], platform)
  {
    assert order == [order[0]] + order[1..];
  }

  /** The latest given for the first time is first exactly when everything that
      can be installed so far is older. */
  lemma {:induction false} InsertFirst(c: Info, order: seq<string>, platform: string)
    requires NewestFirst(order) && c.latest !in order
    ensures LatestFirst(c, Insert(c.latest, order), platform) <==> AllOlder(c, order, platform)
    decreases |order|
  {
    if order != [] {
      TotalPreorder(c.latest, order[0], order[0]);
      if CompareVersions(c.latest, order[0]) == 1 {
        forall v | v in order ensures Yields(c, v, platform, false) {
          assert v == order[0] || v in order[1..];
          TotalPreorder(order[0], order[0], order[0]);
          OlderThanAll(v, order[0], c.latest);
        }
      } else {
        var rest := Insert(c.latest, order[1..]);
        assert ([order[0]] + rest)[1..] == rest;
        AllOlderTail(c, order, platform);
        InsertFirst(c, order[1..], platform);
      }
    }
  }

  lemma OlderThanAll(v: string, first: string, latest: string)
    requires NotNewer(v, first) && CompareVersions(latest, first) == 1
    ensures CompareVersions(v, latest) == -1
  {
    TotalPreorder(v, first, latest);
    TotalPreorder(latest, v, first);
    TotalPreorder(latest, first, v);
    CompareMeansFrom(Parts(v), Parts(latest), 0);
  }

  lemma SameElements(keys: seq<string>, v: string)
    ensures v in Sorted(keys) <==> v in keys
  {
    SortedHolds(keys);
    assert v in Sorted(keys) <==> v in multiset(Sorted(keys));
    assert v in keys <==> v in multiset(keys);
  }

  lemma AllYieldSnoc(c: Info, front: seq<string>, last: string, platform: string)
    ensures AllYield(c, front + [last], platform)
       <==> AllYield(c, front, platform) && Yields(c, last, platform, c.latest in front)
  {
    var keys := front + [last];
    assert keys[|front|] == last && keys[..|front|] == front;
    forall j | 0 <= j < |front| ensures keys[j] == front[j] && keys[..j] == front[..j] {
    }
  }

  lemma NotYetGiven(c: Info, keys: seq<string>, platform: string)
    requires c.latest !in keys
    ensures AllYield(c, keys, platform) <==> AllOlder(c, keys, platform)
    ensures AllOlder(c, keys, platform) <==> AllOlder(c, Sorted(keys), platform)
  {
    forall v ensures v in Sorted(keys) <==> v in keys {
      SameElements(keys, v);
    }
    forall j | 0 <= j < |keys| ensures c.latest !in keys[..j] {
    }
    if AllYield(c, keys, platform) {
      forall v | v in keys ensures Yields(c, v, platform, false) {
        var j :| 0 <= j < |keys| && keys[j] == v;
        assert Yields(c, keys[j], platform, c.latest in keys[..j]);
      }
    }
  }

  lemma {:induction false} SortedLatestFirstIff(c: Info, keys: seq<string>, platform: string)
    ensures LatestFirst(c, Sorted(keys), platform) <==> c.latest in keys && AllYield(c, keys, platform)
  {
    if keys != [] {
      var front, last := keys[..|keys| - 1], keys[|keys| - 1];
      assert keys == front + [last];
      SortedLatestFirstIff(c, front, platform);
      SortedLists(front);
      SameElements(front, c.latest);
      AllYieldSnoc(c, front, last, platform);
      if c.latest !in keys {
        NotListed(c, keys, platform);
      } else if c.latest !in front {
        InsertFirst(c, Sorted(front), platform);
        NotYetGiven(c, front, platform);
      } else if last == c.latest {
        InsertAgain(c, Sorted(front), platform);
      } else {
        InsertOther(c, last, Sorted(front), platform);
      }
    }
  }

  lemma NotListed(c: Info, keys: seq<string>, platform: string)
    requires c.latest !in keys
    ensures !LatestFirst(c, Sorted(keys), platform)
  {
    SameElements(keys, c.latest);
    if LatestFirst(c, Sorted(keys), platform) {
      LatestIsListed(c, Sorted(keys), platform);
    }
  }

  /** Exactly when a latest that can be installed is what a host gets: it is among
      the versions, and every other one the host can install is older, or is
      another spelling of it that was given later. */
  lemma LatestIsResolvedIff(c: Info, keys: seq<string>, platform: string)
    requires c.available == Sorted(keys) && Installable(c, c.latest, platform)
    ensures ResolveForHost(c, platform) == Compatible(c.latest, Installer(c, c.latest, platform).value)
       <==> c.latest in keys
            && forall j :: 0 <= j < |keys| && keys[j] != c.latest && Installable(c, keys[j], platform) ==>
                 || CompareVersions(keys[j], c.latest) == -1
                 || (CompareVersions(keys[j], c.latest) == 0 && c.latest in keys[..j])
  {
    ScanComesToLatestIff(c, c.available, platform);
    SortedLatestFirstIff(c, keys, platform);
    assert AllYield(c, keys, platform) ==>
      forall j :: 0 <= j < |keys| ==> Yields(c, keys[j], platform, c.latest in keys[..j]);
  }

  lemma NumbersSnoc(parts: seq<string>, last: string)
    ensures Numbers(parts + [last]) == Numbers(parts) + if AllDigits(last) then [Value(last)] else []
  {
    assert (parts + [last])[..|parts|] == parts;
  }

  lemma NotBefore(s: string, c: char)
    ensures c !in s[..Find(s, c)]
  {
    FindFirst(s, c);
  }

  /** The text around the first `c`, with one more part behind. */
  lemma PartsBehind(head: string, c: char, rest: string, last: string)
    ensures head + [c] + rest + [c] + last == head + [c] + (rest + [c] + last)
  {
    Associative(head + [c], rest, [c]);
    Associative(head + [c], rest + [c], last);
  }

  lemma {:induction false} SplitAppend(s: string, c: char, last: string)
    requires c !in last
    ensures Split(s + [c] + last, c) == Split(s, c) + [last]
    decreases |s|
  {
    var i := Find(s, c);
    NotBefore(s, c);
    if i == |s| {
      assert s[..i] == s;
      SplitFirst(s, c, last);
      SplitFirst(last, c, "");
    } else {
      var head, rest := s[..i], s[i + 1..];
      assert s == head + [c] + rest;
      PartsBehind(head, c, rest, last);
      SplitAppend(rest, c, last);
      SplitFirst(head, c, rest + [c] + last);
      SplitFirst(head, c, rest);
      Associative([head], Split(rest, c), [last]);
    }
  }

  /** A version is spelled another way with one more `.0`. */
  lemma OneMoreZero(version: string, zero: string)
    requires zero == "0"
    ensures CompareVersions(version + ['.'] + zero, version) == 0
  {
    var x, y := Parts(version + ['.'] + zero), Parts(version);
    SplitAppend(version, '.', zero);
    NumbersSnoc(Split(version, '.'), zero);
    assert x == y + [0];
    CompareMeansFrom(x, y, 0);
    assert forall j: nat :: At(x, j) == At(y, j);
  }

  /** The input on which it is not: a version, and the same with one more `.0`,
      which is called latest and given later, as `1.0` and `1.0.0`. Both can be
      installed, and the host is told that the one it gets is outdated. */
  lemma OtherSpellingIsOutdated(c: Info, version: string, zero: string, platform: string)
    requires zero == "0" && c.latest == version + ['.'] + zero && c.available == Sorted([version, c.latest])
    requires Installable(c, version, platform) && Installable(c, c.latest, platform)
    ensures CompareVersions(version, c.latest) == 0
    ensures ResolveForHost(c, platform) == CompatibleOutdated(version, Installer(c, version, platform).value)
  {
    OneMoreZero(version, zero);
    TotalPreorder(version, c.latest, version);
    var keys := [version, c.latest];
    assert keys[..1] == [version] && keys[..0] == [];
    assert Sorted(keys[..1]) == Insert(version, Sorted([])) == [version];
    assert Sorted(keys) == Insert(c.latest, [version]);
    assert Insert(c.latest, [version])[0] == version;
    assert |version| != |c.latest|;
  }
}
