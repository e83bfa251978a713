/** Routed rows, the hybrid arm, and the choice of its confidence threshold on dev rows. */
module Routing {
  import opened Options
  import Orders

  datatype Decision = Decision(route: string, confidence: real, servedModel: string)

  datatype Rule = Rule(route: string, latency: real)

  datatype Source = FromJev | FromRule

  datatype Hybrid = Hybrid(route: string, source: Source, degraded: bool)

  datatype Split = Dev | Test

  datatype Row = Row(
    id: string, split: Split, expected: string, rule: Rule,
    jev: Option<Decision>, hybrid: Option<Hybrid>, observed: bool, attempts: nat)

  const FAST: set<string> := {"simple_data_query", "simple_knowledge_query"}
  const SLOW: set<string> := {"complex_workflow", "unsupported"}

  /** Jev decides at or above the threshold, the rule router below it or when Jev is missing. */
  function HybridOf(row: Row, threshold: real): Hybrid {
    if row.jev.Some? && row.jev.value.confidence >= threshold
    then Hybrid(row.jev.value.route, FromJev, false)
    else Hybrid(row.rule.route, FromRule, row.jev.None?)
  }

  function HybridRoute(row: Row, threshold: real): string {
    HybridOf(row, threshold).route
  }

  function Dangerous(row: Row, route: string): bool {
    row.expected in SLOW && route in FAST
  }

  function RuleCorrect(rows: seq<Row>): nat {
    Orders.Count((r: Row) => r.rule.route == r.expected, rows)
  }

  function RuleDanger(rows: seq<Row>): nat {
    Orders.Count((r: Row) => Dangerous(r, r.rule.route), rows)
  }

  function Correct(rows: seq<Row>, t: real): nat {
    Orders.Count((r: Row) => HybridRoute(r, t) == r.expected, rows)
  }

  function Danger(rows: seq<Row>, t: real): nat {
    Orders.Count((r: Row) => Dangerous(r, HybridRoute(r, t)), rows)
  }

  /** A historical row the rule router has right and the hybrid would get wrong. */
  predicate Lost(row: Row, t: real) {
    row.rule.route == row.expected && HybridRoute(row, t) != row.expected
  }

  function Regressions(guard: seq<Row>, t: real): nat {
    Orders.Count((r: Row) => Lost(r, t), guard)
  }

  /** Rows Jev decides. */
  function Coverage(rows: seq<Row>, t: real): nat {
    Orders.Count((r: Row) => HybridOf(r, t).source == FromJev, rows)
  }

  datatype Point = Point(threshold: real, correct: nat, danger: nat, regressions: nat, eligible: bool)

  function PointAt(dev: seq<Row>, guard: seq<Row>, t: real): Point {
    var lost, danger := Regressions(guard, t), Danger(dev, t);
    Point(t, Correct(dev, t), danger, lost, lost == 0 && danger <= RuleDanger(dev))
  }

  function Points(dev: seq<Row>, guard: seq<Row>, grid: seq<real>): seq<Point> {
    if grid == [] then []
    else Points(dev, guard, grid[..|grid| - 1]) + [PointAt(dev, guard, grid[|grid| - 1])]
  }

  /** More correct, then less dangerous, then the larger threshold. */
  predicate Better(a: Point, b: Point) {
    a.correct > b.correct
    || (a.correct == b.correct && (a.danger < b.danger || (a.danger == b.danger && a.threshold > b.threshold)))
  }

  /** The first best among the eligible points. */
  function Best(points: seq<Point>): Option<Point> {
    if points == [] then None
    else
      var front, last := Best(points[..|points| - 1]), points[|points| - 1];
      if last.eligible && (front.None? || Better(last, front.value)) then Some(last) else front
  }

  /** `None` where the source raises its ValueError. */
  function Select(dev: seq<Row>, guard: seq<Row>, grid: seq<real>): Option<Point> {
    if dev == [] || exists r :: r in dev && r.split != Dev then None
    else Best(Points(dev, guard, grid))
  }

  method SelectThreshold(dev: seq<Row>, guard: seq<Row>, grid: seq<real>) returns (r: Option<Point>)
    ensures r == Select(dev, guard, grid)
  {
    if dev == [] || exists row :: row in dev && row.split != Dev {
      return None;
    }
    var candidates := [];
    var i := 0;
    while i < |grid|
      invariant 0 <= i <= |grid| && candidates == Points(dev, guard, grid[..i])
    {
      assert grid[..i + 1][..i] == grid[..i];
      candidates := candidates + [PointAt(dev, guard, grid[i])];
      i := i + 1;
    }
    assert grid[..i] == grid;
    var chosen: Option<Point> := None;
    var j := 0;
    while j < |candidates|
      invariant 0 <= j <= |candidates| && chosen == Best(candidates[..j])
    {
      assert candidates[..j + 1][..j] == candidates[..j];
      if candidates[j].eligible && (chosen.None? || Better(candidates[j], chosen.value)) {
        chosen := Some(candidates[j]);
      }
      j := j + 1;
    }
    assert candidates[..j] == candidates;
    return chosen;
  }

  ghost predicate Eligible(dev: seq<Row>, guard: seq<Row>, t: real) {
    Danger(dev, t) <= RuleDanger(dev) && forall r :: r in guard ==> !Lost(r, t)
  }

  lemma {:induction false} CountZero<T>(p: T -> bool, s: seq<T>)
    ensures Orders.Count(p, s) == 0 <==> forall x :: x in s ==> !p(x)
  {
    if s != [] {
      var n := |s| - 1;
      CountZero(p, s[..n]);
      assert s == s[..n] + [s[n]];
    }
  }

  lemma {:induction false} CountMonotone<T>(p: T -> bool, q: T -> bool, s: seq<T>)
    requires forall x :: x in s && p(x) ==> q(x)
    ensures Orders.Count(p, s) <= Orders.Count(q, s)
  {
    if s != [] { CountMonotone(p, q, s[..|s| - 1]); }
  }

  lemma {:induction false} PointsOfGrid(dev: seq<Row>, guard: seq<Row>, grid: seq<real>)
    ensures |Points(dev, guard, grid)| == |grid|
    ensures forall i :: 0 <= i < |grid| ==> Points(dev, guard, grid)[i] == PointAt(dev, guard, grid[i])
  {
    if grid != [] { PointsOfGrid(dev, guard, grid[..|grid| - 1]); }
  }

  lemma {:induction false} BestIsBest(points: seq<Point>)
    ensures Best(points).None? <==> forall x :: x in points ==> !x.eligible
    ensures Best(points).Some? ==> Best(points).value in points && Best(points).value.eligible
    ensures Best(points).Some? ==> forall x :: x in points && x.eligible ==> !Better(x, Best(points).value)
  {
    if points != [] {
      BestIsBest(points[..|points| - 1]);
      assert points == points[..|points| - 1] + [points[|points| - 1]];
    }
  }

  lemma EligiblePoint(dev: seq<Row>, guard: seq<Row>, t: real)
    ensures PointAt(dev, guard, t).eligible <==> Eligible(dev, guard, t)
  {
    CountZero((r: Row) => Lost(r, t), guard);
  }

  /**
   A choice is eligible and, among the eligible grid values, most often correct, then least
   dangerous, then largest; a refusal means that none is eligible.
   */
  lemma SelectIsBestEligible(dev: seq<Row>, guard: seq<Row>, grid: seq<real>)
    ensures Select(dev, guard, grid).None? <==>
      dev == [] || (exists r :: r in dev && r.split != Dev) || forall t :: t in grid ==> !Eligible(dev, guard, t)
    ensures Select(dev, guard, grid).Some? ==>
      var chosen := Select(dev, guard, grid).value;
      && chosen.threshold in grid && Eligible(dev, guard, chosen.threshold)
      && chosen.correct == Correct(dev, chosen.threshold) && chosen.danger == Danger(dev, chosen.threshold)
      && forall t :: t in grid && Eligible(dev, guard, t) ==>
           && Correct(dev, t) <= chosen.correct
           && (Correct(dev, t) == chosen.correct ==> chosen.danger <= Danger(dev, t))
           && (Correct(dev, t) == chosen.correct && Danger(dev, t) == chosen.danger ==> t <= chosen.threshold)
  {
    var points := Points(dev, guard, grid);
    PointsOfGrid(dev, guard, grid);
    BestIsBest(points);
    forall t | t in grid ensures PointAt(dev, guard, t) in points {
      var i :| 0 <= i < |grid| && grid[i] == t;
      assert points[i] == PointAt(dev, guard, t);
    }
    forall x | x in points ensures x.threshold in grid && x == PointAt(dev, guard, x.threshold) {
      var i :| 0 <= i < |points| && points[i] == x;
    }
    forall t ensures PointAt(dev, guard, t).eligible <==> Eligible(dev, guard, t) {
      EligiblePoint(dev, guard, t);
    }
  }

  /** The route of the hybrid arm, by the source's own condition on the confidence. */
  lemma HybridInPlain(row: Row, t: real)
    ensures var decided := row.jev.Some? && row.jev.value.confidence >= t;
            HybridOf(row, t) ==
              Hybrid(if decided then row.jev.value.route else row.rule.route,
                     if decided then FromJev else FromRule, row.jev == None)
  {
  }

  /** Correct are the rows at which the arm that decides gives the expected route. */
  lemma CorrectInPlain(rows: seq<Row>, t: real)
    ensures Correct(rows, t) ==
      |set i | 0 <= i < |rows| && rows[i].expected ==
          if rows[i].jev.Some? && rows[i].jev.value.confidence >= t
          then rows[i].jev.value.route else rows[i].rule.route|
  {
    var p := (r: Row) => HybridRoute(r, t) == r.expected;
    Orders.CountsPlaces(p, rows);
    assert Orders.Places(p, rows) ==
      set i | 0 <= i < |rows| && rows[i].expected ==
          if rows[i].jev.Some? && rows[i].jev.value.confidence >= t
          then rows[i].jev.value.route else rows[i].rule.route;
  }

  /** Dangerous are the rows that need a slow route and get a fast one. */
  lemma DangerInPlain(rows: seq<Row>, t: real)
    ensures Danger(rows, t) ==
      |set i | 0 <= i < |rows|
          && (rows[i].expected == "complex_workflow" || rows[i].expected == "unsupported")
          && (HybridOf(rows[i], t).route == "simple_data_query"
              || HybridOf(rows[i], t).route == "simple_knowledge_query")|
    ensures RuleDanger(rows) ==
      |set i | 0 <= i < |rows|
          && (rows[i].expected == "complex_workflow" || rows[i].expected == "unsupported")
          && (rows[i].rule.route == "simple_data_query" || rows[i].rule.route == "simple_knowledge_query")|
  {
    var p, q := (r: Row) => Dangerous(r, HybridRoute(r, t)), (r: Row) => Dangerous(r, r.rule.route);
    Orders.CountsPlaces(p, rows);
    Orders.CountsPlaces(q, rows);
    assert Orders.Places(p, rows) ==
      set i | 0 <= i < |rows|
          && (rows[i].expected == "complex_workflow" || rows[i].expected == "unsupported")
          && (HybridOf(rows[i], t).route == "simple_data_query"
              || HybridOf(rows[i], t).route == "simple_knowledge_query");
    assert Orders.Places(q, rows) ==
      set i | 0 <= i < |rows|
          && (rows[i].expected == "complex_workflow" || rows[i].expected == "unsupported")
          && (rows[i].rule.route == "simple_data_query" || rows[i].rule.route == "simple_knowledge_query");
  }

  /**
   A grid value may be chosen exactly when the hybrid is no more dangerous on dev than the rules,
   and gets right every guard row the rules get right.
   */
  lemma EligibleInPlain(dev: seq<Row>, guard: seq<Row>, t: real)
    ensures PointAt(dev, guard, t).eligible <==>
      Danger(dev, t) <= RuleDanger(dev)
      && forall r :: r in guard && r.rule.route == r.expected ==> HybridOf(r, t).route == r.expected
  {
    EligiblePoint(dev, guard, t);
    forall r | r in guard ensures Lost(r, t) <==> r.rule.route == r.expected && HybridOf(r, t).route != r.expected {}
  }

  /** Above every confidence seen, the hybrid is the rule router. */
  ghost predicate AboveAll(rows: seq<Row>, t: real) {
    forall r :: r in rows && r.jev.Some? ==> r.jev.value.confidence < t
  }

  lemma AboveAllIsRule(rows: seq<Row>, t: real)
    requires AboveAll(rows, t)
    ensures forall r :: r in rows ==> HybridRoute(r, t) == r.rule.route
    ensures Correct(rows, t) == RuleCorrect(rows) && Danger(rows, t) == RuleDanger(rows)
  {
    var c, rc := (r: Row) => HybridRoute(r, t) == r.expected, (r: Row) => r.rule.route == r.expected;
    var d, rd := (r: Row) => Dangerous(r, HybridRoute(r, t)), (r: Row) => Dangerous(r, r.rule.route);
    CountMonotone(c, rc, rows);
    CountMonotone(rc, c, rows);
    CountMonotone(d, rd, rows);
    CountMonotone(rd, d, rows);
  }

  /**
   With a grid value above every confidence the choice never fails; what it picks is
   at least as often correct as the rule router on dev, no more dangerous there, and
   loses no guard row.
   */
  lemma FallbackMakesSelectionSafe(dev: seq<Row>, guard: seq<Row>, grid: seq<real>, fallback: real)
    requires dev != [] && forall r :: r in dev ==> r.split == Dev
    requires fallback in grid && AboveAll(dev, fallback) && AboveAll(guard, fallback)
    ensures Select(dev, guard, grid).Some?
    ensures var t := Select(dev, guard, grid).value.threshold;
            t in grid && Correct(dev, t) >= RuleCorrect(dev) && Danger(dev, t) <= RuleDanger(dev)
            && forall r :: r in guard ==> !Lost(r, t)
  {
    AboveAllIsRule(dev, fallback);
    AboveAllIsRule(guard, fallback);
    assert Eligible(dev, guard, fallback);
    SelectIsBestEligible(dev, guard, grid);
  }

  /** Jev decides no row exactly when the threshold is above every confidence. */
  lemma ZeroCoverageIff(rows: seq<Row>, t: real)
    ensures Coverage(rows, t) == 0 <==> forall r :: r in rows && r.jev.Some? ==> r.jev.value.confidence < t
  {
    CountZero((r: Row) => HybridOf(r, t).source == FromJev, rows);
  }

  /** Raising the threshold never gives Jev more rows. */
  lemma CoverageFalls(rows: seq<Row>, low: real, high: real)
    requires low <= high
    ensures Coverage(rows, high) <= Coverage(rows, low)
  {
    CountMonotone(
      (r: Row) => HybridOf(r, high).source == FromJev, (r: Row) => HybridOf(r, low).source == FromJev, rows);
  }
}
