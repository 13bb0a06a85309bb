/**
 * The market alerts of the dashboard (frontend/src/lib/alerts.ts): three fixed
 * rules over the fetched projects, each adding at most one alert, in a fixed
 * order.
 */
module Alerts {
  import opened Wrappers
  import opened Text
  import opened Numeric
  import opened Collections

  /** The columns of a `projects` row the rules read; `None` is SQL `null`. */
  datatype ProjectFigures = ProjectFigures(
    monthsToSellOut: Option<real>,
    salesSpeedMonthly: Option<real>,
    availableUnits: Option<real>,
    totalUnits: Option<real>)

  datatype AlertKind = Warning | Critical | Info

  datatype Link = Link(caption: string, href: string)

  /** The three alerts, with the figure each one reports. */
  datatype Alert = HighMao(count: nat) | LowAbsorption(avgAbsorption: real) | StagnantProjects(count: nat)
  {
    function Id(): string {
      match this
      case HighMao(_) => "high-mao"
      case LowAbsorption(_) => "low-absorption"
      case StagnantProjects(_) => "stagnant-projects"
    }

    function Kind(): AlertKind {
      if LowAbsorption? then Critical else Warning
    }

    function Title(): string {
      match this
      case HighMao(n) => NatToString(n) + " proyectos con MAO >24 meses"
      case LowAbsorption(_) => "Absorción bajo 5% - Mercado en contracción"
      case StagnantProjects(n) => NatToString(n) + " proyectos estancados"
    }

    function Actionable(): Option<Link> {
      if HighMao? then Some(Link("Ver proyectos", "/dashboard/projects?mao=high")) else None
    }

    /** Position of the rule in the fixed order of the result. */
    function Rank(): nat {
      match this
      case HighMao(_) => 0
      case LowAbsorption(_) => 1
      case StagnantProjects(_) => 2
    }
  }

  /** Rule 1: more than 24 months of offer. */
  predicate IsHighMao(p: ProjectFigures) {
    OrZero(p.monthsToSellOut) > 24.0
  }

  /** Rule 3: units on sale, more than 70% still available and under half a sale a month. */
  predicate IsStagnant(p: ProjectFigures) {
    OrZero(p.totalUnits) > 0.0 &&
    OrZero(p.availableUnits) / OrZero(p.totalUnits) > 0.7 &&
    OrZero(p.salesSpeedMonthly) < 0.5
  }

  function SalesSpeed(p: ProjectFigures): real {
    OrZero(p.salesSpeedMonthly)
  }

  function Available(p: ProjectFigures): real {
    OrZero(p.availableUnits)
  }

  /** Rule 2's figure: monthly sales over available stock, in percent; 0 without stock. */
  function AvgAbsorption(ps: seq<ProjectFigures>): real {
    var stock := SumOf(ps, Available);
    if stock > 0.0 then SumOf(ps, SalesSpeed) / stock * 100.0 else 0.0
  }

  /**
   * `generateMarketAlerts`: `None` is a failed query, which gives no alerts.
   * Otherwise each rule adds its alert exactly when it applies, in the order
   * high-mao, low-absorption, stagnant.
   */
  method GenerateMarketAlerts(fetched: Option<seq<ProjectFigures>>) returns (alerts: seq<Alert>)
    ensures fetched.None? ==> alerts == []
    ensures fetched.Some? ==> alerts == MarketAlerts(fetched.value)
  {
    if fetched.None? {
      return [];
    }
    var ps := fetched.value;
    var highMao := Filter(ps, IsHighMao);
    var avg := AvgAbsorption(ps);
    var stagnant := Filter(ps, IsStagnant);
    alerts := [];
    if |highMao| > 0 {
      alerts := alerts + [HighMao(|highMao|)];
    }
    assert alerts == Pushed(HighMaoRule(ps));
    if avg > 0.0 && avg < 5.0 {
      alerts := alerts + [LowAbsorption(avg)];
    }
    assert alerts == Pushed(HighMaoRule(ps)) + Pushed(LowAbsorptionRule(ps));
    if |stagnant| > 0 {
      alerts := alerts + [StagnantProjects(|stagnant|)];
    }
    assert alerts == Pushed(HighMaoRule(ps)) + Pushed(LowAbsorptionRule(ps)) + Pushed(StagnantRule(ps));
  }

  /** The alerts of the three rules, in rule order. */
  function MarketAlerts(ps: seq<ProjectFigures>): seq<Alert> {
    Pushed(HighMaoRule(ps)) + Pushed(LowAbsorptionRule(ps)) + Pushed(StagnantRule(ps))
  }

  /** Rule 1's alert, carrying the number of projects it counts. */
  function HighMaoRule(ps: seq<ProjectFigures>): (a: Option<Alert>)
    ensures a.Some? ==> a.value.HighMao?
  {
    var n := |Filter(ps, IsHighMao)|;
    if n > 0 then Some(HighMao(n)) else None
  }

  /** Rule 2's alert, carrying the average absorption. */
  function LowAbsorptionRule(ps: seq<ProjectFigures>): (a: Option<Alert>)
    ensures a.Some? ==> a.value.LowAbsorption?
  {
    var avg := AvgAbsorption(ps);
    if avg > 0.0 && avg < 5.0 then Some(LowAbsorption(avg)) else None
  }

  /** Rule 3's alert, carrying the number of projects it counts. */
  function StagnantRule(ps: seq<ProjectFigures>): (a: Option<Alert>)
    ensures a.Some? ==> a.value.StagnantProjects?
  {
    var n := |Filter(ps, IsStagnant)|;
    if n > 0 then Some(StagnantProjects(n)) else None
  }

  /** Each rule fires exactly when its condition holds, and its alert reports the rule's figure. */
  lemma RulesFire(ps: seq<ProjectFigures>)
    ensures HighMaoRule(ps).Some? <==> exists k :: 0 <= k < |ps| && IsHighMao(ps[k])
    ensures LowAbsorptionRule(ps).Some? <==> 0.0 < AvgAbsorption(ps) < 5.0
    ensures StagnantRule(ps).Some? <==> exists k :: 0 <= k < |ps| && IsStagnant(ps[k])
    ensures forall a :: Some(a) in [HighMaoRule(ps), LowAbsorptionRule(ps), StagnantRule(ps)] ==> Reports(a, ps)
  {
    CountOfPositive(ps, IsHighMao);
    CountOfPositive(ps, IsStagnant);
  }

  /**
   * At most three alerts, in rule order, each present exactly when its rule
   * applies, each reporting its rule's figure.
   */
  lemma MarketAlertsMeaning(ps: seq<ProjectFigures>)
    ensures var alerts := MarketAlerts(ps);
      |alerts| <= 3 &&
      (forall i, j :: 0 <= i < j < |alerts| ==> alerts[i].Rank() < alerts[j].Rank()) &&
      ((exists i :: 0 <= i < |alerts| && alerts[i].HighMao?) <==> (exists k :: 0 <= k < |ps| && IsHighMao(ps[k]))) &&
      ((exists i :: 0 <= i < |alerts| && alerts[i].LowAbsorption?) <==> 0.0 < AvgAbsorption(ps) < 5.0) &&
      ((exists i :: 0 <= i < |alerts| && alerts[i].StagnantProjects?) <==> (exists k :: 0 <= k < |ps| && IsStagnant(ps[k]))) &&
      (forall i :: 0 <= i < |alerts| ==> Reports(alerts[i], ps))
  {
    var first, second, third := HighMaoRule(ps), LowAbsorptionRule(ps), StagnantRule(ps);
    RulesFire(ps);
    PushedInOrder(first, second, third);
  }

  /** The figure an alert carries is the one its rule computes over the projects. */
  predicate Reports(a: Alert, ps: seq<ProjectFigures>) {
    match a
    case HighMao(n) => n == |Filter(ps, IsHighMao)|
    case LowAbsorption(avg) => avg == AvgAbsorption(ps)
    case StagnantProjects(n) => n == |Filter(ps, IsStagnant)|
  }

  /** `if (c) alerts.push(a)`. */
  function Pushed(a: Option<Alert>): seq<Alert> {
    if a.Some? then [a.value] else []
  }

  /** The alert of each rule, when there is one, appears once and in its place. */
  lemma PushedInOrder(first: Option<Alert>, second: Option<Alert>, third: Option<Alert>)
    requires first.Some? ==> first.value.HighMao?
    requires second.Some? ==> second.value.LowAbsorption?
    requires third.Some? ==> third.value.StagnantProjects?
    ensures var alerts := Pushed(first) + Pushed(second) + Pushed(third);
      |alerts| <= 3 &&
      (forall i, j :: 0 <= i < j < |alerts| ==> alerts[i].Rank() < alerts[j].Rank()) &&
      (forall i :: 0 <= i < |alerts| ==> Some(alerts[i]) in [first, second, third]) &&
      ((exists i :: 0 <= i < |alerts| && alerts[i].HighMao?) <==> first.Some?) &&
      ((exists i :: 0 <= i < |alerts| && alerts[i].LowAbsorption?) <==> second.Some?) &&
      ((exists i :: 0 <= i < |alerts| && alerts[i].StagnantProjects?) <==> third.Some?)
  {
    var a, b, c := Pushed(first), Pushed(second), Pushed(third);
    var alerts := a + b + c;
    assert forall i :: 0 <= i < |alerts| ==>
      (i < |a| ==> alerts[i] == first.value) &&
      (|a| <= i < |a| + |b| ==> alerts[i] == second.value) &&
      (|a| + |b| <= i ==> alerts[i] == third.value);
    if first.Some? {
      assert alerts[0].HighMao?;
    }
    if second.Some? {
      assert alerts[|a|].LowAbsorption?;
    }
    if third.Some? {
      assert alerts[|a| + |b|].StagnantProjects?;
    }
  }

  /** Without available stock the absorption alert never fires. */
  lemma NoStockNoAbsorptionAlert(ps: seq<ProjectFigures>)
    requires SumOf(ps, Available) <= 0.0
    ensures !(0.0 < AvgAbsorption(ps) < 5.0)
  {
  }

  /**
   * A project that barely sells (under half a unit a month) with more than
   * 70% of its units still available: the stagnation rule without the
   * division.
   */
  predicate SlowAndUnsold(p: ProjectFigures) {
    OrZero(p.totalUnits) > 0.0 &&
    OrZero(p.availableUnits) > 0.7 * OrZero(p.totalUnits) &&
    OrZero(p.salesSpeedMonthly) < 0.5
  }

  lemma StagnantIsSlowAndUnsold(p: ProjectFigures)
    ensures IsStagnant(p) <==> SlowAndUnsold(p)
  {
    var a, t := OrZero(p.availableUnits), OrZero(p.totalUnits);
    if t > 0.0 {
      RatioAbove(a, t, 0.7);
    }
  }

  lemma {:induction false} StagnantCount(ps: seq<ProjectFigures>)
    ensures CountOf(ps, IsStagnant) == CountOf(ps, SlowAndUnsold)
  {
    if ps != [] {
      StagnantCount(ps[..|ps| - 1]);
      StagnantIsSlowAndUnsold(ps[|ps| - 1]);
    }
  }

  /**
   * The stagnant-projects alert is raised exactly when some project barely
   * sells with more than 70% of its units available, and it reports how many
   * such projects there are.
   */
  lemma StagnantAlert(ps: seq<ProjectFigures>)
    ensures (exists i :: 0 <= i < |MarketAlerts(ps)| && MarketAlerts(ps)[i].StagnantProjects?) <==> CountOf(ps, SlowAndUnsold) > 0
    ensures forall i :: 0 <= i < |MarketAlerts(ps)| && MarketAlerts(ps)[i].StagnantProjects? ==>
      MarketAlerts(ps)[i].count == CountOf(ps, SlowAndUnsold)
  {
    MarketAlertsMeaning(ps);
    StagnantCount(ps);
    CountOfPositive(ps, IsStagnant);
  }

  /** For a positive total, a share above `c` is an amount above `c` times the total. */
  lemma RatioAbove(a: real, t: real, c: real)
    requires t > 0.0
    ensures a / t > c <==> a > c * t
  {
    var q := a / t;
    assert a == q * t;
    assert q * t - c * t == (q - c) * t;
  }
}
