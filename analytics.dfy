/**
 * The analytics dashboard (frontend/src/app/dashboard/analytics/page.tsx):
 * from the projects it fetches it computes the headline figures, a table of
 * regions ordered by number of projects, and how the projects spread over
 * six price bands.  The fetch is a parameter: `None` stands for a failed
 * query.
 */
module Analytics {
  import opened Wrappers
  import opened Numeric
  import opened Collections

  /** The columns the page selects for each project. */
  datatype RawProject = RawProject(
    region: Option<string>,
    totalUnits: Option<real>,
    soldUnits: Option<real>,
    availableUnits: Option<real>,
    avgPriceUf: Option<real>,
    avgPriceM2Uf: Option<real>)

  datatype DashboardStats = DashboardStats(
    totalProjects: nat,
    totalUnits: real,
    soldUnits: real,
    availableUnits: real,
    avgPrice: real,
    avgPriceM2: real,
    sellThroughRate: real)

  function Total(p: RawProject): real { OrZero(p.totalUnits) }
  function Sold(p: RawProject): real { OrZero(p.soldUnits) }
  function Available(p: RawProject): real { OrZero(p.availableUnits) }
  function Price(p: RawProject): real { OrZero(p.avgPriceUf) }
  function PriceM2(p: RawProject): real { OrZero(p.avgPriceM2Uf) }
  predicate HasPrice(p: RawProject) { Truthy(p.avgPriceUf) }
  predicate HasPriceM2(p: RawProject) { Truthy(p.avgPriceM2Uf) }

  /** `xs.length > 0 ? sum / xs.length : 0`. */
  function MeanOrZero<T>(xs: seq<T>, f: T -> real): real {
    if xs == [] then 0.0 else SumOf(xs, f) / |xs| as real
  }

  /** `total > 0 ? (sold / total) * 100 : 0`, for the whole market and for each region. */
  function SellThrough(sold: real, total: real): real {
    if total > 0.0 then sold / total * 100.0 else 0.0
  }

  /** The headline figures: sums with a missing figure read as 0, means over the truthy prices only. */
  function Stats(ps: seq<RawProject>): DashboardStats {
    var totalUnits := SumOf(ps, Total);
    var soldUnits := SumOf(ps, Sold);
    DashboardStats(
      |ps|, totalUnits, soldUnits, SumOf(ps, Available),
      MeanOrZero(Filter(ps, HasPrice), Price),
      MeanOrZero(Filter(ps, HasPriceM2), PriceM2),
      SellThrough(soldUnits, totalUnits))
  }

  /**
   * The average price is the sum of all prices, a missing one read as 0,
   * over the number of projects that have a price; 0 when none has one; and
   * it lies between the lowest and the highest of those prices.
   */
  lemma AvgPriceMeaning(ps: seq<RawProject>)
    ensures CountOf(ps, HasPrice) == 0 ==> Stats(ps).avgPrice == 0.0
    ensures CountOf(ps, HasPrice) > 0 ==> Stats(ps).avgPrice == SumOf(ps, Price) / CountOf(ps, HasPrice) as real
    ensures CountOf(ps, HasPrice) > 0 ==>
      MinOf(Filter(ps, HasPrice), Price) <= Stats(ps).avgPrice <= MaxOf(Filter(ps, HasPrice), Price)
  {
    var withPrice := Filter(ps, HasPrice);
    SumOfFilter(ps, HasPrice, Price);
    if withPrice != [] {
      MeanBetween(withPrice, Price);
    }
  }

  /** The same two readings of the average price per square metre. */
  lemma AvgPriceM2Meaning(ps: seq<RawProject>)
    ensures CountOf(ps, HasPriceM2) == 0 ==> Stats(ps).avgPriceM2 == 0.0
    ensures CountOf(ps, HasPriceM2) > 0 ==> Stats(ps).avgPriceM2 == SumOf(ps, PriceM2) / CountOf(ps, HasPriceM2) as real
    ensures CountOf(ps, HasPriceM2) > 0 ==>
      MinOf(Filter(ps, HasPriceM2), PriceM2) <= Stats(ps).avgPriceM2 <= MaxOf(Filter(ps, HasPriceM2), PriceM2)
  {
    var withPrice := Filter(ps, HasPriceM2);
    SumOfFilter(ps, HasPriceM2, PriceM2);
    if withPrice != [] {
      MeanBetween(withPrice, PriceM2);
    }
  }

  /** A sell-through rate is a percentage whenever no more is sold than there is. */
  lemma SellThroughPercent(sold: real, total: real)
    requires 0.0 <= sold <= total
    ensures 0.0 <= SellThrough(sold, total) <= 100.0
    ensures total == 0.0 ==> SellThrough(sold, total) == 0.0
  {
    if total > 0.0 {
      assert sold / total <= 1.0 by {
        assert (sold / total) * total == sold;
      }
    }
  }

  /** When no project has sold more units than it has, the market rate is a percentage. */
  lemma StatsRatePercent(ps: seq<RawProject>)
    requires forall i :: 0 <= i < |ps| ==> 0.0 <= Sold(ps[i]) <= Total(ps[i])
    ensures 0.0 <= Stats(ps).sellThroughRate <= 100.0
  {
    SumOfNonNegative(ps, Sold);
    SumOfMonotone(ps, Sold, Total);
    SellThroughPercent(SumOf(ps, Sold), SumOf(ps, Total));
  }

  // ---------------------------------------------------------------------------
  // Regions
  // ---------------------------------------------------------------------------

  datatype RegionData = RegionData(region: string, projects: nat, totalUnits: real, soldUnits: real, availableUnits: real)

  /** `v || 'N/A'` for a nullable text. */
  function OrNA(v: Option<string>): (r: string)
    ensures r != ""
  {
    if v.Some? && v.value != "" then v.value else "N/A"
  }

  /** `p.region || 'N/A'`. */
  function RegionOf(p: RawProject): string {
    OrNA(p.region)
  }

  /** The row of region `k` when `g` are its projects. */
  function RegionRow(k: string, g: seq<RawProject>): RegionData {
    RegionData(k, |g|, SumOf(g, Total), SumOf(g, Sold), SumOf(g, Available))
  }

  /** One row per region, in order of first appearance (the order of a `Map`). */
  function RegionTable(ps: seq<RawProject>): seq<RegionData> {
    var ks := Keys(ps, RegionOf);
    seq(|ks|, j requires 0 <= j < |ks| => RegionRow(ks[j], Members(ps, RegionOf, ks[j])))
  }

  /** A region's record before its first project. */
  function NoProjects(region: string): RegionData {
    RegionData(region, 0, 0.0, 0.0, 0.0)
  }

  /** `data.projects++` and the three `+= p.… || 0`. */
  function AddProject(data: RegionData, p: RawProject): RegionData {
    data.(projects := data.projects + 1,
          totalUnits := data.totalUnits + Total(p),
          soldUnits := data.soldUnits + Sold(p),
          availableUnits := data.availableUnits + Available(p))
  }

  /** Adding a region's projects one by one into its zero record gives the row of that region. */
  lemma {:induction false} AddProjectsRow(k: string, g: seq<RawProject>)
    ensures FoldLeft(NoProjects(k), g, AddProject) == RegionRow(k, g)
  {
    if g != [] {
      AddProjectsRow(k, g[..|g| - 1]);
    }
  }

  /** The `regionMap` loop, then `Array.from(regionMap.values())`. */
  method GroupByRegion(ps: seq<RawProject>) returns (rows: seq<RegionData>)
    ensures rows == RegionTable(ps)
  {
    var keys, regionMap := AccumulateByKey(ps, RegionOf, NoProjects, AddProject);
    rows := seq(|keys|, j requires 0 <= j < |keys| => regionMap[keys[j]]);
    forall j | 0 <= j < |keys|
      ensures rows[j] == RegionTable(ps)[j]
    {
      AddProjectsRow(keys[j], Members(ps, RegionOf, keys[j]));
    }
  }

  /** The rows of the table are the regions in order of first appearance. */
  lemma RegionTableKeys(ps: seq<RawProject>)
    ensures |RegionTable(ps)| == |Keys(ps, RegionOf)|
    ensures forall j :: 0 <= j < |RegionTable(ps)| ==>
      RegionTable(ps)[j] == RegionRow(Keys(ps, RegionOf)[j], Members(ps, RegionOf, Keys(ps, RegionOf)[j]))
  {
  }

  /** No region has two rows. */
  lemma RegionTableDistinct(ps: seq<RawProject>)
    ensures forall j, l :: 0 <= j < l < |RegionTable(ps)| ==> RegionTable(ps)[j].region != RegionTable(ps)[l].region
  {
    RegionTableKeys(ps);
  }

  /** Every project's region has a row. */
  lemma RegionTableCovers(ps: seq<RawProject>, i: nat)
    requires i < |ps|
    ensures exists j :: 0 <= j < |RegionTable(ps)| && RegionTable(ps)[j].region == RegionOf(ps[i])
  {
    var ks := Keys(ps, RegionOf);
    RegionTableKeys(ps);
    assert RegionOf(ps[i]) in ks;
    var j :| 0 <= j < |ks| && ks[j] == RegionOf(ps[i]);
    assert RegionTable(ps)[j].region == RegionOf(ps[i]);
  }

  /** Every row counts at least one project. */
  lemma RegionTableNonEmpty(ps: seq<RawProject>, j: nat)
    requires j < |RegionTable(ps)|
    ensures RegionTable(ps)[j].projects >= 1
  {
    RegionTableKeys(ps);
    MembersNonEmpty(ps, RegionOf, Keys(ps, RegionOf)[j]);
  }

  /**
   * The regions partition the projects: their project counts add up to the
   * number of projects, and their unit figures to the market totals.
   */
  lemma RegionTablePartition(ps: seq<RawProject>)
    ensures SumOf(RegionTable(ps), (r: RegionData) => r.projects as real) == |ps| as real
    ensures SumOf(RegionTable(ps), (r: RegionData) => r.totalUnits) == Stats(ps).totalUnits
    ensures SumOf(RegionTable(ps), (r: RegionData) => r.soldUnits) == Stats(ps).soldUnits
    ensures SumOf(RegionTable(ps), (r: RegionData) => r.availableUnits) == Stats(ps).availableUnits
  {
    var ks := Keys(ps, RegionOf);
    var table := RegionTable(ps);
    var one := (p: RawProject) => 1.0;
    var g := (k: string) => SumOf(Members(ps, RegionOf, k), one);
    forall j | 0 <= j < |ks|
      ensures g(ks[j]) == table[j].projects as real
    {
      SumOfOnes(Members(ps, RegionOf, ks[j]), one);
    }
    SumOfCorrespond(table, (r: RegionData) => r.projects as real, ks, g);
    SumOfGroups(ps, RegionOf, one, ks, g);
    SumOfOnes(ps, one);
    PartitionOf(ps, Total, (r: RegionData) => r.totalUnits);
    PartitionOf(ps, Sold, (r: RegionData) => r.soldUnits);
    PartitionOf(ps, Available, (r: RegionData) => r.availableUnits);
  }

  /** One unit figure of the table adds up to its market total. */
  lemma PartitionOf(ps: seq<RawProject>, f: RawProject -> real, column: RegionData -> real)
    requires forall k: string, g: seq<RawProject> :: column(RegionRow(k, g)) == SumOf(g, f)
    ensures SumOf(RegionTable(ps), column) == SumOf(ps, f)
  {
    var ks := Keys(ps, RegionOf);
    var g := (k: string) => SumOf(Members(ps, RegionOf, k), f);
    SumOfCorrespond(RegionTable(ps), column, ks, g);
    SumOfGroups(ps, RegionOf, f, ks, g);
  }

  /** The sort key of `b.projects - a.projects`. */
  function Projects(r: RegionData): real {
    r.projects as real
  }

  /** `.sort((a, b) => b.projects - a.projects).slice(0, 8)`. */
  function TopRegions(rows: seq<RegionData>): seq<RegionData> {
    Take(Sort(rows, ByKeyDesc(Projects)), 8)
  }

  /**
   * The chart shows at most eight rows of the table, by decreasing number of
   * projects, and every row it leaves out has no more projects than any row
   * it shows.
   */
  lemma TopRegionsChosen(rows: seq<RegionData>)
    ensures IsTop(TopRegions(rows), rows, Projects, 8)
    ensures forall j :: 0 <= j < |TopRegions(rows)| ==> TopRegions(rows)[j] in rows
  {
    TopByKey(rows, Projects, 8);
    var top := TopRegions(rows);
    forall j | 0 <= j < |top|
      ensures top[j] in rows
    {
      assert top[j] in multiset(top);
    }
  }

  // ---------------------------------------------------------------------------
  // Price distribution
  // ---------------------------------------------------------------------------

  /** A band `[min, max)` of prices in UF; no `max` is `Infinity`. */
  datatype PriceBand = PriceBand(range: string, min: real, max: Option<real>)

  const PriceBands: seq<PriceBand> := [
    PriceBand("< 1,000 UF", 0.0, Some(1000.0)),
    PriceBand("1,000 - 2,000 UF", 1000.0, Some(2000.0)),
    PriceBand("2,000 - 3,000 UF", 2000.0, Some(3000.0)),
    PriceBand("3,000 - 5,000 UF", 3000.0, Some(5000.0)),
    PriceBand("5,000 - 10,000 UF", 5000.0, Some(10000.0)),
    PriceBand("> 10,000 UF", 10000.0, None)
  ]

  predicate InBand(b: PriceBand, price: real) {
    price >= b.min && (b.max.None? || price < b.max.value)
  }

  datatype PriceRange = PriceRange(range: string, count: nat, percentage: int)

  /** The projects whose price, a missing one read as 0, falls in band `b`. */
  function BandMembers(ps: seq<RawProject>, b: PriceBand): seq<RawProject> {
    Filter(ps, (p: RawProject) => InBand(b, Price(p)))
  }

  /** `totalProjects > 0 ? Math.round((count / totalProjects) * 100) : 0`. */
  function Percentage(count: nat, totalProjects: nat): int {
    if totalProjects > 0 then JsRound(count as real / totalProjects as real * 100.0) else 0
  }

  function RangeOf(ps: seq<RawProject>, b: PriceBand): PriceRange {
    var count := |BandMembers(ps, b)|;
    PriceRange(b.range, count, Percentage(count, |ps|))
  }

  /** Every band that holds a project, in band order. */
  function Distribution(ps: seq<RawProject>): seq<PriceRange> {
    Filter(MapSeq(PriceBands, b => RangeOf(ps, b)), (d: PriceRange) => d.count > 0)
  }

  /** The band a price belongs to, read off the band limits. */
  function BandIndex(price: real): Option<nat> {
    if price < 0.0 then None
    else if price < 1000.0 then Some(0)
    else if price < 2000.0 then Some(1)
    else if price < 3000.0 then Some(2)
    else if price < 5000.0 then Some(3)
    else if price < 10000.0 then Some(4)
    else Some(5)
  }

  /**
   * The bands are disjoint and cover every price from 0 up: a price lies in
   * band `i` exactly when `i` is its band, so no project is counted twice and
   * a project without a price is counted in the first band.
   */
  lemma BandsPartition(price: real)
    ensures forall i :: 0 <= i < |PriceBands| ==> (InBand(PriceBands[i], price) <==> BandIndex(price) == Some(i))
    ensures price >= 0.0 <==> BandIndex(price).Some?
    ensures forall i, j :: 0 <= i < j < |PriceBands| ==> !(InBand(PriceBands[i], price) && InBand(PriceBands[j], price))
  {
  }

  lemma MissingPriceFirstBand(p: RawProject)
    requires p.avgPriceUf.None?
    ensures InBand(PriceBands[0], Price(p))
  {
  }

  /** A share of the projects is a whole percentage. */
  lemma PercentageBounds(count: nat, totalProjects: nat)
    requires count <= totalProjects
    ensures 0 <= Percentage(count, totalProjects) <= 100
  {
    if totalProjects > 0 {
      var q := count as real / totalProjects as real;
      assert q <= 1.0 by {
        assert q * totalProjects as real == count as real;
      }
    }
  }

  /**
   * The distribution lists the non-empty bands in band order, each with the
   * number of projects in it and their share of all projects.
   */
  lemma DistributionListsBands(ps: seq<RawProject>)
    ensures forall d :: d in Distribution(ps) ==>
      d.count > 0 && 0 <= d.percentage <= 100 &&
      exists i :: 0 <= i < |PriceBands| && d == RangeOf(ps, PriceBands[i])
    ensures forall i :: 0 <= i < |PriceBands| && |BandMembers(ps, PriceBands[i])| > 0 ==>
      RangeOf(ps, PriceBands[i]) in Distribution(ps)
  {
    var all := MapSeq(PriceBands, b => RangeOf(ps, b));
    FilterIn(all, (d: PriceRange) => d.count > 0);
    forall i | 0 <= i < |PriceBands|
      ensures 0 <= all[i].percentage <= 100
    {
      PercentageBounds(all[i].count, |ps|);
    }
    forall d | d in Distribution(ps)
      ensures exists i :: 0 <= i < |PriceBands| && d == RangeOf(ps, PriceBands[i])
    {
      var i :| 0 <= i < |all| && all[i] == d;
    }
  }

  // ---------------------------------------------------------------------------
  // The page
  // ---------------------------------------------------------------------------

  /** What the page shows: no figures until a fetch succeeds. */
  datatype DashboardView = DashboardView(stats: Option<DashboardStats>, regionData: seq<RegionData>, priceDistribution: seq<PriceRange>)

  /** `fetchDashboardData`: an error leaves the initial empty view. */
  method FetchDashboardData(fetched: Option<seq<RawProject>>) returns (view: DashboardView)
    ensures fetched.None? ==> view == DashboardView(None, [], [])
    ensures fetched.Some? ==>
      view.stats == Some(Stats(fetched.value)) &&
      view.regionData == TopRegions(RegionTable(fetched.value)) &&
      view.priceDistribution == Distribution(fetched.value)
  {
    if fetched.None? {
      return DashboardView(None, [], []);
    }
    var ps := fetched.value;
    var rows := GroupByRegion(ps);
    view := DashboardView(Some(Stats(ps)), TopRegions(rows), Distribution(ps));
  }
}
