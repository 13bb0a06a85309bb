/**
 * The market report (frontend/src/app/dashboard/reports/page.tsx): a summary
 * with the region and the developer that have the most projects, the ten
 * fastest-selling projects, and a per-region breakdown of prices and sales.
 * The fetch is a parameter (`None` stands for a failed query) and so is the
 * generation time.
 */
module Reports {
  import opened Wrappers
  import opened Numeric
  import opened Collections
  import Analytics

  /** The columns of a project the report reads. */
  datatype Project = Project(
    name: string,
    developer: Option<string>,
    commune: Option<string>,
    region: Option<string>,
    totalUnits: Option<real>,
    soldUnits: Option<real>,
    avgPriceUf: Option<real>,
    salesSpeedMonthly: Option<real>)

  function Total(p: Project): real { OrZero(p.totalUnits) }
  function Sold(p: Project): real { OrZero(p.soldUnits) }
  function Price(p: Project): real { OrZero(p.avgPriceUf) }
  function Speed(p: Project): real { OrZero(p.salesSpeedMonthly) }
  predicate HasPrice(p: Project) { Truthy(p.avgPriceUf) }
  predicate HasSpeed(p: Project) { Truthy(p.salesSpeedMonthly) }
  function RegionOf(p: Project): string { Analytics.OrNA(p.region) }
  function DeveloperOf(p: Project): string { Analytics.OrNA(p.developer) }

  // ---------------------------------------------------------------------------
  // Summary
  // ---------------------------------------------------------------------------

  /** A key of `Object.entries(counts)` with its number of projects. */
  datatype KeyCount = KeyCount(key: string, count: nat)

  function CountKey(e: KeyCount): real {
    e.count as real
  }

  /**
   * Whether `Object.entries` lists `k` as an array index: the decimal form,
   * without leading zeros, of an integer below 2^32 - 1.
   */
  predicate ArrayIndex(k: string) {
    k != [] && AllDigits(k) && (k[0] == '0' ==> |k| == 1) && DigitsValue(k) < 0xFFFF_FFFF
  }

  predicate NotIndex(k: string) {
    !ArrayIndex(k)
  }

  /** The integer an array index stands for (0 for the other keys, which are never compared by it). */
  function IndexValue(k: string): real {
    if ArrayIndex(k) then DigitsValue(k) as real else 0.0
  }

  function NegatedIndex(k: string): real {
    -IndexValue(k)
  }

  /**
   * The order in which `Object.entries` lists the keys of a plain object
   * whose keys were added in the order `ks`: the array indices first, from
   * the smallest (the largest negated value), then the other keys in the
   * order they were added.
   */
  function EntryOrder(ks: seq<string>): seq<string> {
    Sort(Filter(ks, ArrayIndex), ByKeyDesc(NegatedIndex)) + Filter(ks, NotIndex)
  }

  /** The entries are the keys, each once. */
  lemma EntryOrderPermutation(ks: seq<string>)
    ensures multiset(EntryOrder(ks)) == multiset(ks)
    ensures |EntryOrder(ks)| == |ks|
  {
    FilterPartition(ks, ArrayIndex, NotIndex);
    assert |multiset(EntryOrder(ks))| == |multiset(ks)|;
  }

  /** Array indices come before the other keys and by increasing value; the other keys keep their order. */
  lemma EntryOrderIndicesFirst(ks: seq<string>)
    ensures var e := EntryOrder(ks);
      forall i, j :: 0 <= i < j < |e| && ArrayIndex(e[j]) ==> ArrayIndex(e[i]) && IndexValue(e[i]) <= IndexValue(e[j])
    ensures Filter(EntryOrder(ks), NotIndex) == Filter(ks, NotIndex)
  {
    var indices := Filter(ks, ArrayIndex);
    var sorted := Sort(indices, ByKeyDesc(NegatedIndex));
    var others := Filter(ks, NotIndex);
    SortByKeyDesc(indices, NegatedIndex);
    forall i | 0 <= i < |sorted|
      ensures ArrayIndex(sorted[i])
    {
      assert sorted[i] in multiset(indices);
    }
    var e := EntryOrder(ks);
    assert e == sorted + others;
    forall i, j | 0 <= i < j < |e| && ArrayIndex(e[j])
      ensures ArrayIndex(e[i]) && IndexValue(e[i]) <= IndexValue(e[j])
    {
      IndexInSorted(sorted, others, j);
      assert e[i] == sorted[i] && e[j] == sorted[j];
    }
    FilterAppend(sorted, others, NotIndex);
    FilterNone(sorted, NotIndex);
    FilterAll(others, NotIndex);
  }

  /** A position of `sorted + others` holding an array index lies in `sorted` when `others` holds none. */
  lemma IndexInSorted(sorted: seq<string>, others: seq<string>, j: nat)
    requires forall m :: 0 <= m < |others| ==> NotIndex(others[m])
    requires j < |sorted + others| && ArrayIndex((sorted + others)[j])
    ensures j < |sorted|
  {
    if j >= |sorted| {
      assert false;
    }
  }

  /** The `reduce` into `acc[key] = (acc[key] || 0) + 1`, as its entries in the order `Object.entries` lists them. */
  function KeyCounts(ps: seq<Project>, key: Project -> string): seq<KeyCount> {
    var ks := EntryOrder(Keys(ps, key));
    seq(|ks|, j requires 0 <= j < |ks| => KeyCount(ks[j], |Members(ps, key, ks[j])|))
  }

  /** `Object.entries(counts).sort((a, b) => b[1] - a[1])[0]?.[0] || 'N/A'`. */
  function TopKey(ps: seq<Project>, key: Project -> string): string {
    TopCount(KeyCounts(ps, key))
  }

  /** The key of the first entry once the entries are sorted by decreasing count, `'N/A'` when there is none or it is empty. */
  function TopCount(counts: seq<KeyCount>): string {
    var sorted := Sort(counts, ByKeyDesc(CountKey));
    if sorted == [] || sorted[0].key == "" then "N/A" else sorted[0].key
  }

  datatype Summary = Summary(
    totalProjects: nat,
    totalUnits: real,
    soldUnits: real,
    avgPrice: real,
    topRegion: string,
    topDeveloper: string)

  function SummaryOf(ps: seq<Project>): Summary {
    Summary(|ps|, SumOf(ps, Total), SumOf(ps, Sold), Analytics.MeanOrZero(Filter(ps, HasPrice), Price),
            TopKey(ps, RegionOf), TopKey(ps, DeveloperOf))
  }

  /**
   * The average price is the sum of the prices, a missing one read as 0,
   * over the number of projects that have one, 0 when none has, and lies
   * between the lowest and the highest of those prices.
   */
  lemma SummaryAvgPrice(ps: seq<Project>)
    ensures CountOf(ps, HasPrice) == 0 ==> SummaryOf(ps).avgPrice == 0.0
    ensures CountOf(ps, HasPrice) > 0 ==> SummaryOf(ps).avgPrice == SumOf(ps, Price) / CountOf(ps, HasPrice) as real
    ensures CountOf(ps, HasPrice) > 0 ==>
      MinOf(Filter(ps, HasPrice), Price) <= SummaryOf(ps).avgPrice <= MaxOf(Filter(ps, HasPrice), Price)
  {
    SumOfFilter(ps, HasPrice, Price);
    if Filter(ps, HasPrice) != [] {
      MeanBetween(Filter(ps, HasPrice), Price);
    }
  }

  /** One entry per distinct key, in the order of `Object.entries`, with that key's number of projects. */
  lemma KeyCountsEntries(ps: seq<Project>, key: Project -> string)
    ensures multiset(EntryOrder(Keys(ps, key))) == multiset(Keys(ps, key))
    ensures |KeyCounts(ps, key)| == |Keys(ps, key)|
    ensures forall j :: 0 <= j < |KeyCounts(ps, key)| ==>
      KeyCounts(ps, key)[j] == KeyCount(EntryOrder(Keys(ps, key))[j], |Members(ps, key, EntryOrder(Keys(ps, key))[j])|)
  {
    var es := EntryOrder(Keys(ps, key));
    EntryOrderPermutation(Keys(ps, key));
    assert |KeyCounts(ps, key)| == |es|;
  }

  /** The first entry after the sort has the highest count and is the first entry with that count. */
  lemma TopOfCounts(counts: seq<KeyCount>) returns (f: nat)
    requires counts != []
    ensures f < |counts| && counts[f] == Sort(counts, ByKeyDesc(CountKey))[0]
    ensures TopCount(counts) == if counts[f].key == "" then "N/A" else counts[f].key
    ensures forall l :: 0 <= l < |counts| ==> counts[l].count <= counts[f].count
    ensures forall l :: 0 <= l < f ==> counts[l].count < counts[f].count
  {
    SortByKeyDescMax(counts, CountKey);
    SortByKeyDescFirst(counts, CountKey);
    var top := Sort(counts, ByKeyDesc(CountKey))[0];
    f :| 0 <= f < |counts| && counts[f] == top && forall j :: 0 <= j < f ==> CountKey(counts[j]) != CountKey(top);
    assert forall l :: 0 <= l < |counts| ==> CountKey(counts[l]) <= CountKey(top);
  }

  /** With no projects the top key is `'N/A'`. */
  lemma TopKeyEmpty(key: Project -> string)
    ensures TopKey([], key) == "N/A"
  {
    assert KeyCounts([], key) == [];
  }

  /**
   * With projects, the top key is the key at some index `f` of the keys in
   * the order of `Object.entries`: no key has more projects, and every key
   * before it has fewer (the sort is stable).
   */
  lemma TopKeyIndex(ps: seq<Project>, key: Project -> string) returns (f: nat)
    requires ps != []
    requires forall i :: 0 <= i < |ps| ==> key(ps[i]) != ""
    ensures f < |EntryOrder(Keys(ps, key))| && EntryOrder(Keys(ps, key))[f] == TopKey(ps, key)
    ensures forall l :: 0 <= l < |EntryOrder(Keys(ps, key))| ==>
      |Members(ps, key, EntryOrder(Keys(ps, key))[l])| <= |Members(ps, key, EntryOrder(Keys(ps, key))[f])|
    ensures forall l :: 0 <= l < f ==>
      |Members(ps, key, EntryOrder(Keys(ps, key))[l])| < |Members(ps, key, EntryOrder(Keys(ps, key))[f])|
  {
    f := TopEntry(ps, key);
    EntryCountsBound(ps, key, f);
  }

  /** The top key is the key of the entry at some index `f`, whose count no entry exceeds and every earlier entry falls short of. */
  lemma TopEntry(ps: seq<Project>, key: Project -> string) returns (f: nat)
    requires ps != []
    requires forall i :: 0 <= i < |ps| ==> key(ps[i]) != ""
    ensures f < |EntryOrder(Keys(ps, key))| && EntryOrder(Keys(ps, key))[f] == TopKey(ps, key)
    ensures f < |KeyCounts(ps, key)|
    ensures forall l :: 0 <= l < |KeyCounts(ps, key)| ==> KeyCounts(ps, key)[l].count <= KeyCounts(ps, key)[f].count
    ensures forall l :: 0 <= l < f ==> KeyCounts(ps, key)[l].count < KeyCounts(ps, key)[f].count
  {
    var ks := Keys(ps, key);
    var es := EntryOrder(ks);
    var counts := KeyCounts(ps, key);
    KeyCountsEntries(ps, key);
    EntriesNonEmpty(ps, key, ks, es);
    f := TopCountEntry(counts, es);
    assert TopKey(ps, key) == TopCount(counts);
  }

  /** Bounds on the counts of the entries are bounds on the numbers of projects of their keys. */
  lemma EntryCountsBound(ps: seq<Project>, key: Project -> string, f: nat)
    requires f < |KeyCounts(ps, key)|
    requires forall l :: 0 <= l < |KeyCounts(ps, key)| ==> KeyCounts(ps, key)[l].count <= KeyCounts(ps, key)[f].count
    requires forall l :: 0 <= l < f ==> KeyCounts(ps, key)[l].count < KeyCounts(ps, key)[f].count
    ensures f < |EntryOrder(Keys(ps, key))|
    ensures forall l :: 0 <= l < |EntryOrder(Keys(ps, key))| ==>
      |Members(ps, key, EntryOrder(Keys(ps, key))[l])| <= |Members(ps, key, EntryOrder(Keys(ps, key))[f])|
    ensures forall l :: 0 <= l < f ==>
      |Members(ps, key, EntryOrder(Keys(ps, key))[l])| < |Members(ps, key, EntryOrder(Keys(ps, key))[f])|
  {
    KeyCountsEntries(ps, key);
    CountsBound(ps, key, EntryOrder(Keys(ps, key)), KeyCounts(ps, key), f);
  }

  /** The entries of a non-empty list of projects whose keys are never empty are themselves never empty, and there is one. */
  lemma EntriesNonEmpty(ps: seq<Project>, key: Project -> string, ks: seq<string>, es: seq<string>)
    requires ps != [] && ks == Keys(ps, key)
    requires forall i :: 0 <= i < |ps| ==> key(ps[i]) != ""
    requires multiset(es) == multiset(ks)
    ensures es != [] && forall j :: 0 <= j < |es| ==> es[j] != ""
  {
    assert key(ps[0]) in ks;
    assert key(ps[0]) in multiset(es);
    forall j | 0 <= j < |es|
      ensures es[j] != ""
    {
      assert es[j] in multiset(ks);
      var i := KeyOccurs(ps, key, es[j]);
    }
  }

  /** The top count of entries whose keys are given and never empty is the key at some index `f`, as in `TopOfCounts`. */
  lemma TopCountEntry(counts: seq<KeyCount>, es: seq<string>) returns (f: nat)
    requires es != [] && |counts| == |es|
    requires forall j :: 0 <= j < |es| ==> es[j] != ""
    requires forall j :: 0 <= j < |counts| ==> counts[j].key == es[j]
    ensures f < |es| && TopCount(counts) == es[f]
    ensures forall l :: 0 <= l < |counts| ==> counts[l].count <= counts[f].count
    ensures forall l :: 0 <= l < f ==> counts[l].count < counts[f].count
  {
    f := TopOfCounts(counts);
    assert counts[f].key == es[f];
  }

  /** The bounds on the counts of the entries are bounds on the numbers of projects of their keys. */
  lemma CountsBound(ps: seq<Project>, key: Project -> string, es: seq<string>, counts: seq<KeyCount>, f: nat)
    requires |counts| == |es| && f < |es|
    requires forall j :: 0 <= j < |counts| ==> counts[j] == KeyCount(es[j], |Members(ps, key, es[j])|)
    requires forall l :: 0 <= l < |counts| ==> counts[l].count <= counts[f].count
    requires forall l :: 0 <= l < f ==> counts[l].count < counts[f].count
    ensures forall l :: 0 <= l < |es| ==> |Members(ps, key, es[l])| <= |Members(ps, key, es[f])|
    ensures forall l :: 0 <= l < f ==> |Members(ps, key, es[l])| < |Members(ps, key, es[f])|
  {
    forall l | 0 <= l < |es|
      ensures |Members(ps, key, es[l])| <= |Members(ps, key, es[f])|
      ensures l < f ==> |Members(ps, key, es[l])| < |Members(ps, key, es[f])|
    {
      assert counts[l].count == |Members(ps, key, es[l])|;
    }
  }

  /** The top key occurs and no project's key has more projects. */
  lemma TopKeyTop(ps: seq<Project>, key: Project -> string)
    requires forall i :: 0 <= i < |ps| ==> key(ps[i]) != ""
    ensures ps == [] ==> TopKey(ps, key) == "N/A"
    ensures forall i :: 0 <= i < |ps| ==>
      TopKey(ps, key) in Keys(ps, key) && |Members(ps, key, key(ps[i]))| <= |Members(ps, key, TopKey(ps, key))|
  {
    if ps == [] {
      TopKeyEmpty(key);
    } else {
      var f := TopKeyIndex(ps, key);
      var ks := Keys(ps, key);
      var es := EntryOrder(ks);
      EntryOrderPermutation(ks);
      var top := TopKey(ps, key);
      assert top == es[f];
      EntryBound(ps, key, ks, es, f);
      assert top in ks;
      assert forall i :: 0 <= i < |ps| ==> |Members(ps, key, key(ps[i]))| <= |Members(ps, key, top)|;
    }
  }

  /** Every project's key is an entry, so the bound on the entries bounds them all; the top entry is a key. */
  lemma EntryBound(ps: seq<Project>, key: Project -> string, ks: seq<string>, es: seq<string>, f: nat)
    requires forall i :: 0 <= i < |ps| ==> key(ps[i]) in ks
    requires multiset(es) == multiset(ks) && f < |es|
    requires forall l :: 0 <= l < |es| ==> |Members(ps, key, es[l])| <= |Members(ps, key, es[f])|
    ensures es[f] in ks
    ensures forall i :: 0 <= i < |ps| ==> |Members(ps, key, key(ps[i]))| <= |Members(ps, key, es[f])|
  {
    assert es[f] in multiset(es);
    forall i | 0 <= i < |ps|
      ensures |Members(ps, key, key(ps[i]))| <= |Members(ps, key, es[f])|
    {
      assert key(ps[i]) in multiset(es);
      var l :| 0 <= l < |es| && es[l] == key(ps[i]);
    }
  }

  /** A key of the object is at some index of its entries. */
  lemma EntryIndexOf(ks: seq<string>, k: string) returns (l: nat)
    requires k in ks
    ensures l < |EntryOrder(ks)| && EntryOrder(ks)[l] == k
  {
    EntryOrderPermutation(ks);
    assert k in multiset(EntryOrder(ks));
    l :| 0 <= l < |EntryOrder(ks)| && EntryOrder(ks)[l] == k;
  }

  /**
   * A tie for the most projects goes to an array index when one ties: the
   * smallest of them, whatever the order in which the keys appeared.
   */
  lemma TopKeyPrefersIndex(ps: seq<Project>, key: Project -> string, k: string)
    requires forall i :: 0 <= i < |ps| ==> key(ps[i]) != ""
    requires k in Keys(ps, key) && ArrayIndex(k)
    requires forall i :: 0 <= i < |ps| ==> |Members(ps, key, key(ps[i]))| <= |Members(ps, key, k)|
    ensures ArrayIndex(TopKey(ps, key)) && IndexValue(TopKey(ps, key)) <= IndexValue(k)
  {
    var ks := Keys(ps, key);
    var es := EntryOrder(ks);
    assert ps != [];
    var f := TopKeyIndex(ps, key);
    var top := TopKey(ps, key);
    assert top == es[f];
    var l := EntryIndexOf(ks, k);
    assert top in ks by {
      EntryOrderPermutation(ks);
      assert es[f] in multiset(es);
    }
    var i := KeyOccurs(ps, key, top);
    assert |Members(ps, key, top)| <= |Members(ps, key, k)|;
    TieGoesToIndex(ps, key, ks, f, l);
  }

  /** The first entry with the most projects comes no later than `l`, which has as many, so it is an index no larger. */
  lemma TieGoesToIndex(ps: seq<Project>, key: Project -> string, ks: seq<string>, f: nat, l: nat)
    requires f < |EntryOrder(ks)| && l < |EntryOrder(ks)| && ArrayIndex(EntryOrder(ks)[l])
    requires |Members(ps, key, EntryOrder(ks)[f])| <= |Members(ps, key, EntryOrder(ks)[l])|
    requires forall m :: 0 <= m < f ==> |Members(ps, key, EntryOrder(ks)[m])| < |Members(ps, key, EntryOrder(ks)[f])|
    ensures ArrayIndex(EntryOrder(ks)[f]) && IndexValue(EntryOrder(ks)[f]) <= IndexValue(EntryOrder(ks)[l])
  {
    var e := EntryOrder(ks);
    var counts := seq(|e|, m requires 0 <= m < |e| => |Members(ps, key, e[m])|);
    FirstMaxNotAfter(counts, f, l);
    if f < l {
      IndexBefore(ks, f, l);
    }
  }

  /** The first position holding more than everything before it comes no later than a position holding as much. */
  lemma FirstMaxNotAfter(counts: seq<nat>, f: nat, l: nat)
    requires f < |counts| && l < |counts| && counts[f] <= counts[l]
    requires forall m :: 0 <= m < f ==> counts[m] < counts[f]
    ensures f <= l
  {
  }

  /** An entry before an array index is an array index no larger. */
  lemma IndexBefore(ks: seq<string>, i: nat, j: nat)
    requires i < j < |EntryOrder(ks)| && ArrayIndex(EntryOrder(ks)[j])
    ensures ArrayIndex(EntryOrder(ks)[i]) && IndexValue(EntryOrder(ks)[i]) <= IndexValue(EntryOrder(ks)[j])
  {
    EntryOrderIndicesFirst(ks);
  }

  /** Regions `RM`, `13`, `RM`, `13`: the two tie, and the report names `13`, the key `Object.entries` lists first. */
  lemma TopRegionOfTie(a: Project, b: Project)
    requires a.region == Some("RM") && b.region == Some("13")
    ensures TopKey([a, b, a, b], RegionOf) == "13"
  {
    var ps := [a, b, a, b];
    MembersPair(a, b);
    IndexThirteen();
    TiedRegions(ps, a, b);
    assert RegionOf(ps[1]) in Keys(ps, RegionOf);
    TopOfTwoKeys(ps, RegionOf, "13", "RM");
  }

  /** With two keys that tie, the top key is the one that is an array index. */
  lemma TopOfTwoKeys(ps: seq<Project>, key: Project -> string, k: string, other: string)
    requires forall i :: 0 <= i < |ps| ==> key(ps[i]) == k || key(ps[i]) == other
    requires k in Keys(ps, key) && ArrayIndex(k) && !ArrayIndex(other) && other != ""
    requires forall i :: 0 <= i < |ps| ==> |Members(ps, key, key(ps[i]))| <= |Members(ps, key, k)|
    ensures TopKey(ps, key) == k
  {
    assert k != "";
    assert forall i :: 0 <= i < |ps| ==> key(ps[i]) != "";
    var top := TopKey(ps, key);
    TopKeyPrefersIndex(ps, key, k);
    TopKeyTop(ps, key);
    assert top in Keys(ps, key);
    var i := KeyOccurs(ps, key, top);
    assert top != other;
  }

  /** `13` is an array index and `RM` is not. */
  lemma IndexThirteen()
    ensures ArrayIndex("13") && !ArrayIndex("RM")
  {
    assert "13"[..1] == "1" && "1"[..0] == [];
    assert DigitsValue("13") == 13;
  }

  /** The four projects lie in the two regions, and neither region has more projects than `13`. */
  lemma TiedRegions(ps: seq<Project>, a: Project, b: Project)
    requires ps == [a, b, a, b] && RegionOf(a) == "RM" && RegionOf(b) == "13"
    requires |Members(ps, RegionOf, "RM")| == 2 && |Members(ps, RegionOf, "13")| == 2
    ensures forall i :: 0 <= i < |ps| ==> RegionOf(ps[i]) == "13" || RegionOf(ps[i]) == "RM"
    ensures forall i :: 0 <= i < |ps| ==> |Members(ps, RegionOf, RegionOf(ps[i]))| <= |Members(ps, RegionOf, "13")|
  {
  }

  /** Each of the two regions has two of the four projects. */
  lemma MembersPair(a: Project, b: Project)
    requires RegionOf(a) == "RM" && RegionOf(b) == "13"
    ensures |Members([a, b, a, b], RegionOf, "RM")| == 2 && |Members([a, b, a, b], RegionOf, "13")| == 2
  {
    MembersAlternating(a, b, RegionOf, "RM");
    MembersAlternating(a, b, RegionOf, "13");
  }

  /** In `[a, b, a, b]` a key has twice as many members as it has in `[a, b]`. */
  lemma MembersAlternating(a: Project, b: Project, key: Project -> string, k: string)
    ensures |Members([a, b, a, b], key, k)| == 2 * ((if key(a) == k then 1 else 0) + (if key(b) == k then 1 else 0))
  {
    var s1 := [a];
    var s2 := s1 + [b];
    var s3 := s2 + [a];
    var s4 := s3 + [b];
    assert s1 == [] + [a];
    MembersSnoc([], a, key, k);
    MembersSnoc(s1, b, key, k);
    MembersSnoc(s2, a, key, k);
    MembersSnoc(s3, b, key, k);
    assert s4 == [a, b, a, b];
  }

  /** The summary names the region and the developer with the most projects, `'N/A'` when there are none. */
  lemma SummaryTops(ps: seq<Project>)
    ensures ps == [] ==> SummaryOf(ps).topRegion == "N/A" && SummaryOf(ps).topDeveloper == "N/A"
    ensures forall i :: 0 <= i < |ps| ==>
      SummaryOf(ps).topRegion in Keys(ps, RegionOf) &&
      |Members(ps, RegionOf, RegionOf(ps[i]))| <= |Members(ps, RegionOf, SummaryOf(ps).topRegion)|
    ensures forall i :: 0 <= i < |ps| ==>
      SummaryOf(ps).topDeveloper in Keys(ps, DeveloperOf) &&
      |Members(ps, DeveloperOf, DeveloperOf(ps[i]))| <= |Members(ps, DeveloperOf, SummaryOf(ps).topDeveloper)|
  {
    var s := SummaryOf(ps);
    assert s.topRegion == TopKey(ps, RegionOf) && s.topDeveloper == TopKey(ps, DeveloperOf);
    TopKeyTop(ps, RegionOf);
    TopKeyTop(ps, DeveloperOf);
  }

  // ---------------------------------------------------------------------------
  // Top projects
  // ---------------------------------------------------------------------------

  datatype TopProject = TopProject(
    name: string,
    developer: string,
    commune: string,
    totalUnits: real,
    soldUnits: real,
    avgPrice: real,
    salesSpeed: real)

  /** The row of a project, missing texts shown as `'N/A'` and missing figures as 0. */
  function TopRow(p: Project): TopProject {
    TopProject(p.name, Analytics.OrNA(p.developer), Analytics.OrNA(p.commune), Total(p), Sold(p), Price(p), Speed(p))
  }

  /** The projects with a sales speed, fastest first, at most ten. */
  function FastestProjects(ps: seq<Project>): seq<Project> {
    Take(Sort(Filter(ps, HasSpeed), ByKeyDesc(Speed)), 10)
  }

  function TopProjects(ps: seq<Project>): seq<TopProject> {
    MapSeq(FastestProjects(ps), TopRow)
  }

  /**
   * At most ten projects are listed, each one with a sales speed, fastest
   * first, and no project with a speed that is left out sells faster than
   * one that is listed.
   */
  lemma TopProjectsChosen(ps: seq<Project>)
    ensures |TopProjects(ps)| == if CountOf(ps, HasSpeed) < 10 then CountOf(ps, HasSpeed) else 10
    ensures forall j :: 0 <= j < |TopProjects(ps)| ==>
      FastestProjects(ps)[j] in ps && HasSpeed(FastestProjects(ps)[j]) &&
      TopProjects(ps)[j] == TopRow(FastestProjects(ps)[j])
    ensures forall j, l :: 0 <= j < l < |TopProjects(ps)| ==> TopProjects(ps)[j].salesSpeed >= TopProjects(ps)[l].salesSpeed
    ensures forall p :: p in multiset(Filter(ps, HasSpeed)) - multiset(FastestProjects(ps)) ==>
      forall j :: 0 <= j < |TopProjects(ps)| ==> Speed(p) <= TopProjects(ps)[j].salesSpeed
  {
    var fast := Filter(ps, HasSpeed);
    var chosen := FastestProjects(ps);
    TopByKey(fast, Speed, 10);
    FilterIn(ps, HasSpeed);
    forall j | 0 <= j < |chosen|
      ensures chosen[j] in ps && HasSpeed(chosen[j])
    {
      assert chosen[j] in multiset(chosen);
      assert chosen[j] in fast;
    }
  }

  // ---------------------------------------------------------------------------
  // Regional breakdown
  // ---------------------------------------------------------------------------

  /** A record of `regionMap`. */
  datatype RegionAcc = RegionAcc(projects: nat, totalPrice: real, priceCount: nat, totalUnits: real, soldUnits: real)

  /** The record of a region before its first project. */
  function NoProjects(region: string): RegionAcc {
    RegionAcc(0, 0.0, 0, 0.0, 0.0)
  }

  /** `data.projects++`, the price added only when it is truthy, and the unit figures with a missing one as 0. */
  function AddProject(data: RegionAcc, p: Project): RegionAcc {
    var withPrice := if p.avgPriceUf.Some? && p.avgPriceUf.value != 0.0
      then data.(totalPrice := data.totalPrice + p.avgPriceUf.value, priceCount := data.priceCount + 1)
      else data;
    withPrice.(projects := data.projects + 1, totalUnits := data.totalUnits + Total(p), soldUnits := data.soldUnits + Sold(p))
  }

  /** What the record of a region holds once its projects `g` are in. */
  function AccOf(g: seq<Project>): RegionAcc {
    RegionAcc(|g|, SumOf(g, Price), CountOf(g, HasPrice), SumOf(g, Total), SumOf(g, Sold))
  }

  lemma {:induction false} AddProjectsAcc(region: string, g: seq<Project>)
    ensures FoldLeft(NoProjects(region), g, AddProject) == AccOf(g)
  {
    if g != [] {
      AddProjectsAcc(region, g[..|g| - 1]);
    }
  }

  datatype Breakdown = Breakdown(region: string, projects: nat, avgPrice: real, sellThrough: real)

  /** The `.map(([region, data]) => ...)` of one entry. */
  function BreakdownOf(region: string, data: RegionAcc): Breakdown {
    Breakdown(region, data.projects,
              if data.priceCount > 0 then data.totalPrice / data.priceCount as real else 0.0,
              Analytics.SellThrough(data.soldUnits, data.totalUnits))
  }

  /** One entry per region, in order of first appearance. */
  function BreakdownTable(ps: seq<Project>): seq<Breakdown> {
    var ks := Keys(ps, RegionOf);
    seq(|ks|, j requires 0 <= j < |ks| => BreakdownOf(ks[j], AccOf(Members(ps, RegionOf, ks[j]))))
  }

  function BreakdownProjects(b: Breakdown): real {
    b.projects as real
  }

  /** The `regionMap` loop, its entries mapped, then `.sort((a, b) => b.projects - a.projects)`. */
  method RegionalBreakdown(ps: seq<Project>) returns (rows: seq<Breakdown>)
    ensures rows == Sort(BreakdownTable(ps), ByKeyDesc(BreakdownProjects))
  {
    var keys, regionMap := AccumulateByKey(ps, RegionOf, NoProjects, AddProject);
    var entries := seq(|keys|, j requires 0 <= j < |keys| => BreakdownOf(keys[j], regionMap[keys[j]]));
    forall j | 0 <= j < |keys|
      ensures entries[j] == BreakdownTable(ps)[j]
    {
      AddProjectsAcc(keys[j], Members(ps, RegionOf, keys[j]));
    }
    assert entries == BreakdownTable(ps);
    rows := Sort(entries, ByKeyDesc(BreakdownProjects));
  }

  /**
   * Each region's average price is the mean of its truthy prices only, 0
   * when it has none; its sell-through is 0 when it has no units; and it
   * counts at least one project.
   */
  lemma BreakdownEntry(ps: seq<Project>, j: nat)
    requires j < |BreakdownTable(ps)|
    ensures var g := Members(ps, RegionOf, Keys(ps, RegionOf)[j]);
      BreakdownTable(ps)[j].region == Keys(ps, RegionOf)[j] &&
      BreakdownTable(ps)[j].projects == |g| >= 1 &&
      BreakdownTable(ps)[j].avgPrice == Analytics.MeanOrZero(Filter(g, HasPrice), Price) &&
      BreakdownTable(ps)[j].sellThrough == Analytics.SellThrough(SumOf(g, Sold), SumOf(g, Total))
  {
    var k := Keys(ps, RegionOf)[j];
    var g := Members(ps, RegionOf, k);
    assert BreakdownTable(ps)[j] == BreakdownOf(k, AccOf(g));
    MembersNonEmpty(ps, RegionOf, k);
    SumOfFilter(g, HasPrice, Price);
  }

  /** The breakdown lists every region once, by decreasing number of projects. */
  lemma BreakdownSorted(ps: seq<Project>)
    ensures var rows := Sort(BreakdownTable(ps), ByKeyDesc(BreakdownProjects));
      multiset(rows) == multiset(BreakdownTable(ps)) &&
      forall j, l :: 0 <= j < l < |rows| ==> rows[j].projects >= rows[l].projects
  {
    var table := BreakdownTable(ps);
    var rows := Sort(table, ByKeyDesc(BreakdownProjects));
    SortByKeyDesc(table, BreakdownProjects);
    forall j, l | 0 <= j < l < |rows|
      ensures rows[j].projects >= rows[l].projects
    {
      assert BreakdownProjects(rows[j]) >= BreakdownProjects(rows[l]);
    }
  }

  // ---------------------------------------------------------------------------
  // The report
  // ---------------------------------------------------------------------------

  datatype ReportData = ReportData(
    generatedAt: string,
    period: string,
    summary: Summary,
    topProjects: seq<TopProject>,
    regionalBreakdown: seq<Breakdown>)

  /** `generateReport`: no report when the query fails. */
  method GenerateReport(fetched: Option<seq<Project>>, now: string) returns (report: Option<ReportData>)
    ensures fetched.None? ==> report == None
    ensures fetched.Some? ==> report == Some(ReportData(now, "Actual", SummaryOf(fetched.value),
      TopProjects(fetched.value), Sort(BreakdownTable(fetched.value), ByKeyDesc(BreakdownProjects))))
  {
    if fetched.None? {
      return None;
    }
    var ps := fetched.value;
    var breakdown := RegionalBreakdown(ps);
    report := Some(ReportData(now, "Actual", SummaryOf(ps), TopProjects(ps), breakdown));
  }
}
