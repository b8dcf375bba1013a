/** `check_dashboard`: grades the dashboard definition (dashboard.json) out of 25 points:
    valid JSON (5), at least four panels (5), real queries instead of placeholders (10, or 5
    while placeholders remain) and a custom title (5, or 2 for the default one). */
module DashboardCheck {
  import opened Wrappers
  import opened Text
  import opened Scoring

  const MaxPoints: nat := 25

  /** One query of a panel; `expr` is absent when the target has no `expr` key. */
  datatype Target = Target(expr: Option<string>)

  /** A panel; a panel without a `targets` key has no targets. */
  datatype Panel = Panel(targets: seq<Target>)

  /** The parts of the parsed document the checker reads; a document without a `panels`
      key has no panels. */
  datatype Dashboard = Dashboard(title: Option<string>, panels: seq<Panel>)

  /** The outcome of parsing the file as JSON. */
  datatype JsonResult = ParseFailure | ParseOk(dashboard: Dashboard)

  /** `target.get('expr', '')` */
  function ExprText(t: Target): (e: string) {
    match t.expr
    case None => ""
    case Some(e) => e
  }

  /** The query texts of a list of targets, in order. */
  function TargetExprs(targets: seq<Target>): (es: seq<string>)
    ensures |es| == |targets|
  {
    if targets == [] then [] else TargetExprs(targets[..|targets| - 1]) + [ExprText(targets[|targets| - 1])]
  }

  /** The k-th query text is the k-th target's `expr`, or `''` when it has none. */
  lemma {:induction false} TargetExprsAt(targets: seq<Target>)
    ensures forall k :: 0 <= k < |targets| ==> TargetExprs(targets)[k] == ExprText(targets[k])
    decreases |targets|
  {
    if targets != [] {
      var init := targets[..|targets| - 1];
      TargetExprsAt(init);
      assert forall k :: 0 <= k < |init| ==> init[k] == targets[k];
    }
  }

  /** The query texts of all panels, panel by panel and target by target. */
  function Exprs(panels: seq<Panel>): (es: seq<string>) {
    if panels == [] then [] else Exprs(panels[..|panels| - 1]) + TargetExprs(panels[|panels| - 1].targets)
  }

  predicate IsPlaceholder(expr: string) {
    Contains(expr, "REPLACE_WITH")
  }

  /** A real query is a non-empty expression without the placeholder marker. */
  predicate IsRealQuery(expr: string) {
    !IsPlaceholder(expr) && expr != ""
  }

  /** How many expressions still hold the placeholder marker. */
  function PlaceholderCount(es: seq<string>): (n: nat) {
    if es == [] then 0 else PlaceholderCount(es[..|es| - 1]) + (if IsPlaceholder(es[|es| - 1]) then 1 else 0)
  }

  /** Whether some expression is a real query, accumulated in scan order. */
  predicate HasRealQuery(es: seq<string>) {
    es != [] && (HasRealQuery(es[..|es| - 1]) || IsRealQuery(es[|es| - 1]))
  }

  /** "Valid JSON": awarded as soon as the file parses. */
  function ValidRule(): (r: Scored)
    ensures Sound(r) && r.weight == 5 && r.outcome.passed
  {
    Scored(Outcome("Valid JSON", true, ""), 5, 5)
  }

  /** 5 points for at least four panels; the detail gives the count either way. */
  function PanelsRule(d: Dashboard): (r: Scored)
    ensures Sound(r) && r.weight == 5
    ensures r.outcome.passed <==> |d.panels| >= 4
  {
    var n := |d.panels|;
    Binary("4+ panels", n >= 4, 5, NatToString(n) + " panels", "Only " + NatToString(n) + " panels")
  }

  /** 10 points when some query is real and none is a placeholder, 5 when some query is
      real but placeholders remain, 0 when no query is real. */
  function QueryRule(es: seq<string>): (r: Scored)
    ensures Sound(r) && r.weight == 10
  {
    var placeholders := PlaceholderCount(es);
    if HasRealQuery(es) && placeholders == 0 then
      Scored(Outcome("Real PromQL queries", true, "All panels have queries"), 10, 10)
    else if HasRealQuery(es) then
      Scored(Outcome("Real PromQL queries", false, NatToString(placeholders) + " placeholders remaining"), 5, 10)
    else
      Scored(Outcome("Real PromQL queries", false, "No real queries"), 0, 10)
  }

  /** A title counts as custom when it is present, non-empty and not the template's. */
  predicate CustomTitle(title: Option<string>) {
    title.Some? && title.value != "" && title.value != "App Dashboard"
  }

  /** 5 points for a custom title, shown as the detail; 2 points of partial credit otherwise. */
  function TitleRule(d: Dashboard): (r: Scored)
    ensures Sound(r) && r.weight == 5
    ensures r.outcome.passed <==> CustomTitle(d.title)
    ensures r.points == if CustomTitle(d.title) then 5 else 2
  {
    if CustomTitle(d.title) then
      Scored(Outcome("Custom title", true, d.title.value), 5, 5)
    else
      Scored(Outcome("Custom title", false, "Using default title"), 2, 5)
  }

  /** The four rules in the order the checker evaluates them. */
  function Rubric(d: Dashboard): (rs: seq<Scored>)
    ensures |rs| == 4 && AllSound(rs) && Budget(rs) == MaxPoints
  {
    var rs := [ValidRule(), PanelsRule(d), QueryRule(Exprs(d.panels)), TitleRule(d)];
    PrefixStep(rs, 0);
    PrefixStep(rs, 1);
    PrefixStep(rs, 2);
    PrefixStep(rs, 3);
    assert rs[..4] == rs;
    rs
  }

  /** The triple returned for a file that is not valid JSON. */
  function InvalidJson(): (r: CheckerResult)
    ensures WellFormed(r) && r.maxPoints == MaxPoints && r.points == 0
  {
    assert !CheckerResult([Outcome("Valid JSON", false, "Invalid JSON")], 0, MaxPoints).checks[0].passed;
    CheckerResult([Outcome("Valid JSON", false, "Invalid JSON")], 0, MaxPoints)
  }

  /** The triple the checker returns for a missing file, an unparsable one, or a dashboard. */
  function Grade(content: Option<JsonResult>): (r: CheckerResult)
    ensures r.maxPoints == MaxPoints && WellFormed(r)
    ensures content.None? ==> r == MissingFile("dashboard.json", MaxPoints)
    ensures content == Some(ParseFailure) ==> r == InvalidJson()
    ensures content.Some? && content.value.ParseOk? ==> |r.checks| == 4
  {
    match content
    case None =>
      MissingFileWellFormed("dashboard.json", MaxPoints);
      MissingFile("dashboard.json", MaxPoints)
    case Some(ParseFailure) =>
      InvalidJson()
    case Some(ParseOk(d)) =>
      GradedWellFormed(Rubric(d), MaxPoints);
      Graded(Rubric(d), MaxPoints)
  }

  /** The targets of one panel scanned after those of earlier panels. */
  lemma ExprsStep(panels: seq<Panel>, i: nat)
    requires i < |panels|
    ensures Exprs(panels[..i + 1]) == Exprs(panels[..i]) + TargetExprs(panels[i].targets)
  {
    assert panels[..i + 1][..i] == panels[..i];
  }

  lemma TargetExprsStep(targets: seq<Target>, j: nat)
    requires j < |targets|
    ensures TargetExprs(targets[..j + 1]) == TargetExprs(targets[..j]) + [ExprText(targets[j])]
  {
    assert targets[..j + 1][..j] == targets[..j];
  }

  /** Scanning one more expression updates the placeholder count and the real-query flag. */
  lemma ScanStep(es: seq<string>, e: string)
    ensures PlaceholderCount(es + [e]) == PlaceholderCount(es) + (if IsPlaceholder(e) then 1 else 0)
    ensures HasRealQuery(es + [e]) <==> HasRealQuery(es) || IsRealQuery(e)
  {
    assert (es + [e])[..|es|] == es;
  }

  /** The nested scan over panels and their targets: counts the placeholder expressions and
      notes whether any expression is a real query. */
  method ScanQueries(panels: seq<Panel>) returns (hasRealQueries: bool, placeholderCount: nat)
    ensures hasRealQueries == HasRealQuery(Exprs(panels))
    ensures placeholderCount == PlaceholderCount(Exprs(panels))
  {
    hasRealQueries := false;
    placeholderCount := 0;
    for i := 0 to |panels|
      invariant hasRealQueries == HasRealQuery(Exprs(panels[..i]))
      invariant placeholderCount == PlaceholderCount(Exprs(panels[..i]))
    {
      var targets := panels[i].targets;
      ghost var before := Exprs(panels[..i]);
      assert before + TargetExprs(targets[..0]) == before;
      for j := 0 to |targets|
        invariant hasRealQueries == HasRealQuery(before + TargetExprs(targets[..j]))
        invariant placeholderCount == PlaceholderCount(before + TargetExprs(targets[..j]))
      {
        var expr := ExprText(targets[j]);
        TargetExprsStep(targets, j);
        assert before + TargetExprs(targets[..j + 1]) == (before + TargetExprs(targets[..j])) + [expr];
        ScanStep(before + TargetExprs(targets[..j]), expr);
        if IsPlaceholder(expr) {
          placeholderCount := placeholderCount + 1;
        } else if expr != "" {
          hasRealQueries := true;
        }
      }
      assert targets[..|targets|] == targets;
      ExprsStep(panels, i);
    }
    assert panels[..|panels|] == panels;
  }

  /** The checker as the script runs it. */
  method CheckDashboard(content: Option<JsonResult>) returns (checks: seq<Outcome>, points: int, maxPoints: int)
    ensures CheckerResult(checks, points, maxPoints) == Grade(content)
  {
    checks := [];
    points := 0;
    maxPoints := 25;

    if content.None? {
      assert "dashboard.json" + " exists" == "dashboard.json exists";
      return [Outcome("dashboard.json exists", false, "File not found")], 0, maxPoints;
    }
    if content.value.ParseFailure? {
      return [Outcome("Valid JSON", false, "Invalid JSON")], 0, maxPoints;
    }
    var dashboard := content.value.dashboard;

    checks := checks + [Outcome("Valid JSON", true, "")];
    points := points + 5;

    var panels := dashboard.panels;
    var n := |panels|;
    checks, points := Record(checks, points, "4+ panels", n >= 4, 5, NatToString(n) + " panels", "Only " + NatToString(n) + " panels");

    var hasRealQueries, placeholderCount := ScanQueries(panels);
    if hasRealQueries && placeholderCount == 0 {
      checks := checks + [Outcome("Real PromQL queries", true, "All panels have queries")];
      points := points + 10;
    } else if hasRealQueries {
      checks := checks + [Outcome("Real PromQL queries", false, NatToString(placeholderCount) + " placeholders remaining")];
      points := points + 5;
    } else {
      checks := checks + [Outcome("Real PromQL queries", false, "No real queries")];
    }

    if dashboard.title.Some? && dashboard.title.value != "" && dashboard.title.value != "App Dashboard" {
      checks := checks + [Outcome("Custom title", true, dashboard.title.value)];
      points := points + 5;
    } else {
      checks := checks + [Outcome("Custom title", false, "Using default title")];
      points := points + 2;
    }
    GradeDashboard(dashboard);
  }

  /** The checker's triple for a parsed dashboard, rule by rule. */
  lemma GradeDashboard(d: Dashboard)
    ensures Grade(Some(ParseOk(d))) == CheckerResult(
      [] + [ValidRule().outcome] + [PanelsRule(d).outcome] + [QueryRule(Exprs(d.panels)).outcome] + [TitleRule(d).outcome],
      0 + ValidRule().points + PanelsRule(d).points + QueryRule(Exprs(d.panels)).points + TitleRule(d).points,
      MaxPoints)
  {
    GradedFour(Rubric(d), MaxPoints);
  }

  /** The scan's flag is set exactly when some expression is a real query. */
  lemma {:induction false} HasRealQueryIff(es: seq<string>)
    ensures HasRealQuery(es) <==> exists k :: 0 <= k < |es| && IsRealQuery(es[k])
    decreases |es|
  {
    if es != [] {
      var init := es[..|es| - 1];
      HasRealQueryIff(init);
      if HasRealQuery(init) {
        var k :| 0 <= k < |init| && IsRealQuery(init[k]);
        assert es[k] == init[k];
      }
      if exists k :: 0 <= k < |es| && IsRealQuery(es[k]) {
        var k :| 0 <= k < |es| && IsRealQuery(es[k]);
        if k < |init| {
          assert init[k] == es[k];
        }
      }
    }
  }

  /** The count is at most the number of expressions, and zero exactly when no expression
      holds the placeholder marker. */
  lemma {:induction false} PlaceholderCountBounds(es: seq<string>)
    ensures PlaceholderCount(es) <= |es|
    ensures PlaceholderCount(es) == 0 <==> forall k :: 0 <= k < |es| ==> !IsPlaceholder(es[k])
    decreases |es|
  {
    if es != [] {
      var init := es[..|es| - 1];
      PlaceholderCountBounds(init);
      if PlaceholderCount(es) == 0 {
        forall k | 0 <= k < |es| ensures !IsPlaceholder(es[k]) {
          if k < |init| {
            assert init[k] == es[k];
          }
        }
      }
      if forall k :: 0 <= k < |es| ==> !IsPlaceholder(es[k]) {
        assert forall k :: 0 <= k < |init| ==> init[k] == es[k];
      }
    }
  }

  /** The query rule in terms of the expressions themselves: full marks exactly when some
      expression is real and none is a placeholder, nothing exactly when none is real, and
      half marks otherwise. */
  lemma QueryRuleCases(es: seq<string>)
    ensures QueryRule(es).outcome.passed <==>
      ((exists k :: 0 <= k < |es| && IsRealQuery(es[k]))
       && forall k :: 0 <= k < |es| ==> !IsPlaceholder(es[k]))
    ensures QueryRule(es).points == 0 <==> forall k :: 0 <= k < |es| ==> !IsRealQuery(es[k])
    ensures QueryRule(es).points == 5 <==>
      ((exists k :: 0 <= k < |es| && IsRealQuery(es[k]))
       && exists k :: 0 <= k < |es| && IsPlaceholder(es[k]))
  {
    HasRealQueryIff(es);
    PlaceholderCountBounds(es);
  }

  /** Once the file parses, the checker awards at least 7 points: 5 for valid JSON and at
      least 2 for the title. */
  lemma ValidAtLeastSeven(d: Dashboard)
    ensures Grade(Some(ParseOk(d))).points >= 7
  {
    GradeDashboard(d);
  }

  /** Panels without targets contribute no expressions. */
  lemma {:induction false} NoTargetsNoExprs(panels: seq<Panel>)
    requires forall k :: 0 <= k < |panels| ==> panels[k].targets == []
    ensures Exprs(panels) == []
    decreases |panels|
  {
    if panels != [] {
      var init := panels[..|panels| - 1];
      assert forall k :: 0 <= k < |init| ==> init[k] == panels[k];
      NoTargetsNoExprs(init);
    }
  }

  /** A dashboard with fewer than four panels, no queries and the default title scores
      exactly 7 (valid JSON plus the partial title credit); two empty panels under the
      title "App Dashboard" are such a dashboard. */
  lemma SkeletonScoresSeven(d: Dashboard)
    requires |d.panels| < 4 && !CustomTitle(d.title)
    requires forall k :: 0 <= k < |d.panels| ==> d.panels[k].targets == []
    ensures Grade(Some(ParseOk(d))).points == 7
  {
    NoTargetsNoExprs(d.panels);
    GradeDashboard(d);
  }

  /** The checker awards the full 25 points exactly when there are at least four panels,
      some query is real, no placeholder remains and the title is custom. */
  lemma FullCreditIff(d: Dashboard)
    ensures Grade(Some(ParseOk(d))).points == MaxPoints <==>
      (|d.panels| >= 4 && CustomTitle(d.title)
       && (exists k :: 0 <= k < |Exprs(d.panels)| && IsRealQuery(Exprs(d.panels)[k]))
       && forall k :: 0 <= k < |Exprs(d.panels)| ==> !IsPlaceholder(Exprs(d.panels)[k]))
  {
    QueryRuleCases(Exprs(d.panels));
    GradeDashboard(d);
  }

  /** Two panels without queries under the default title score 7 out of 25. */
  lemma TwoEmptyPanelsScoreSeven(d: Dashboard)
    requires d == Dashboard(Some("App Dashboard"), [Panel([]), Panel([])])
    ensures Grade(Some(ParseOk(d))).points == 7
  {
    SkeletonScoresSeven(d);
  }
}
