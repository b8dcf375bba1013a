/** `check_all_configs`: runs the five configuration checkers in a fixed order, adds up
    their points and maxima, turns the sum into a whole-number percentage and reports the
    stack as complete when that percentage is 100. */
module Runner {
  import opened Wrappers
  import opened Scoring
  import PrometheusCheck
  import AlertmanagerCheck
  import DatasourceCheck
  import DashboardCheck
  import AlertsCheck

  /** The contents of the five configuration files, `None` for a file that could not be
      read; the dashboard file is given as the outcome of parsing it. */
  datatype Workspace = Workspace(
    prometheus: Option<string>,
    alertmanager: Option<string>,
    datasource: Option<string>,
    dashboard: Option<DashboardCheck.JsonResult>,
    alerts: Option<string>)

  /** One row of the checker table: the file, the name shown for it and its nominal maximum. */
  datatype ConfigCheck = ConfigCheck(path: string, displayName: string, maxPts: nat)

  /** The checker table, in the order the checkers run. */
  const ConfigChecks: seq<ConfigCheck> := [
    ConfigCheck("prometheus/prometheus.yml", "Prometheus Config", 20),
    ConfigCheck("alertmanager/alertmanager.yml", "Alertmanager", 20),
    ConfigCheck("grafana/provisioning/datasources/prometheus.yml", "Grafana Datasource", 15),
    ConfigCheck("grafana/dashboards/app-dashboard.json", "Grafana Dashboard", 25),
    ConfigCheck("prometheus/rules/alerts.yml", "Alert Rules", 20)
  ]

  /** The triple of the `i`-th checker of the table on the workspace. Its maximum is the
      one the table lists, and it is well-formed. */
  function Report(i: nat, ws: Workspace): (r: CheckerResult)
    requires i < |ConfigChecks|
    ensures r.maxPoints == ConfigChecks[i].maxPts && WellFormed(r)
  {
    if i == 0 then PrometheusCheck.Grade(ws.prometheus)
    else if i == 1 then AlertmanagerCheck.Grade(ws.alertmanager)
    else if i == 2 then DatasourceCheck.Grade(ws.datasource)
    else if i == 3 then DashboardCheck.Grade(ws.dashboard)
    else AlertsCheck.Grade(ws.alerts)
  }

  /** The triples of all five checkers, in table order: each is well-formed and has the
      maximum its table row lists, so the maxima always add up to 100. */
  function Reports(ws: Workspace): (rs: seq<CheckerResult>)
    ensures |rs| == |ConfigChecks|
    ensures forall i :: 0 <= i < |rs| ==> rs[i] == Report(i, ws)
    ensures forall i :: 0 <= i < |rs| ==> WellFormed(rs[i]) && rs[i].maxPoints == ConfigChecks[i].maxPts
    ensures MaxTotal(rs) == 100
  {
    var rs := seq(|ConfigChecks|, i requires 0 <= i < |ConfigChecks| => Report(i, ws));
    MaxTotalMatchesTable(rs, ConfigChecks);
    TableIsHundred(ConfigChecks);
    rs
  }

  /** The points of a list of triples, added in order. */
  function TotalPoints(rs: seq<CheckerResult>): (total: int) {
    if rs == [] then 0 else TotalPoints(rs[..|rs| - 1]) + rs[|rs| - 1].points
  }

  /** The maxima of a list of triples, added in order. */
  function MaxTotal(rs: seq<CheckerResult>): (total: int) {
    if rs == [] then 0 else MaxTotal(rs[..|rs| - 1]) + rs[|rs| - 1].maxPoints
  }

  /** The progress percentage: the share of the maximum earned, cut down to a whole
      number, and 0 when there is no maximum. */
  function Percent(total: int, max: int): (pct: int) {
    if max > 0 then (total * 100) / max else 0
  }

  /** Multiplying by a positive factor keeps a strict order. */
  lemma MulStrict(a: int, b: int, c: int)
    requires a < b && c > 0
    ensures a * c < b * c
  {
    assert b * c - a * c == (b - a) * c;
  }

  /** For a total between 0 and a positive maximum the percentage lies between 0 and 100
      and reaches 100 exactly at the maximum. */
  lemma PercentBounds(total: int, max: int)
    requires 0 <= total <= max && max > 0
    ensures 0 <= Percent(total, max) <= 100
    ensures Percent(total, max) == 100 <==> total == max
  {
    var n := total * 100;
    var q := n / max;
    var r := n % max;
    assert n == q * max + r && 0 <= r < max;
    if q < 0 {
      MulStrict(q, 0, max);
      assert false;
    }
    if q > 100 {
      MulStrict(100, q, max);
      MulStrict(total, max + 1, 100);
      assert false;
    }
    if total == max {
      if q < 100 {
        MulStrict(q, 100, max);
        assert (q + 1) * max == q * max + max;
        if q + 1 < 100 {
          MulStrict(q + 1, 100, max);
        }
        assert false;
      }
    } else if q == 100 {
      MulStrict(total, max, 100);
      assert false;
    }
  }

  /** Runs the `i`-th checker of the table. */
  method RunConfigCheck(i: nat, ws: Workspace) returns (checks: seq<Outcome>, points: int, maxPoints: int)
    requires i < |ConfigChecks|
    ensures CheckerResult(checks, points, maxPoints) == Report(i, ws)
  {
    if i == 0 {
      checks, points, maxPoints := PrometheusCheck.CheckPrometheusConfig(ws.prometheus);
    } else if i == 1 {
      checks, points, maxPoints := AlertmanagerCheck.CheckAlertmanagerConfig(ws.alertmanager);
    } else if i == 2 {
      checks, points, maxPoints := DatasourceCheck.CheckGrafanaDatasource(ws.datasource);
    } else if i == 3 {
      checks, points, maxPoints := DashboardCheck.CheckDashboard(ws.dashboard);
    } else {
      checks, points, maxPoints := AlertsCheck.CheckAlerts(ws.alerts);
    }
  }

  /** Sums over the first `i + 1` triples extend those over the first `i` by triple `i`. */
  lemma TotalsStep(rs: seq<CheckerResult>, i: nat)
    requires i < |rs|
    ensures TotalPoints(rs[..i + 1]) == TotalPoints(rs[..i]) + rs[i].points
    ensures MaxTotal(rs[..i + 1]) == MaxTotal(rs[..i]) + rs[i].maxPoints
  {
    assert rs[..i + 1][..i] == rs[..i];
  }

  /** The loop of `check_all_configs`: runs every checker of the table, adds up points and
      maxima (the table's own maximum column is not used), and reports completion when the
      percentage is 100. `reports` are the triples the script prints. */
  method CheckAllConfigs(ws: Workspace)
    returns (reports: seq<CheckerResult>, totalPoints: int, maxTotal: int, progressPct: int, complete: bool)
    ensures reports == Reports(ws)
    ensures totalPoints == TotalPoints(reports) && maxTotal == MaxTotal(reports)
    ensures progressPct == Percent(totalPoints, maxTotal)
    ensures complete <==> progressPct == 100
  {
    ghost var all := Reports(ws);
    reports := [];
    totalPoints := 0;
    maxTotal := 0;
    for i := 0 to |ConfigChecks|
      invariant reports == all[..i]
      invariant totalPoints == TotalPoints(reports) && maxTotal == MaxTotal(reports)
    {
      var checks, points, maxPoints := RunConfigCheck(i, ws);
      assert CheckerResult(checks, points, maxPoints) == all[i];
      totalPoints := totalPoints + points;
      maxTotal := maxTotal + maxPoints;
      TotalsStep(all, i);
      reports := reports + [CheckerResult(checks, points, maxPoints)];
    }
    assert reports == all;
    progressPct := if maxTotal > 0 then (totalPoints * 100) / maxTotal else 0;
    complete := progressPct == 100;
  }

  /** Triples that each stay within their maximum add up to at most the sum of the maxima,
      and reach it exactly when every one of them reaches its own maximum. */
  lemma {:induction false} TotalsFullIff(rs: seq<CheckerResult>)
    requires forall i :: 0 <= i < |rs| ==> 0 <= rs[i].points <= rs[i].maxPoints
    ensures 0 <= TotalPoints(rs) <= MaxTotal(rs)
    ensures TotalPoints(rs) == MaxTotal(rs) <==> forall i :: 0 <= i < |rs| ==> rs[i].points == rs[i].maxPoints
    decreases |rs|
  {
    if rs != [] {
      var init := rs[..|rs| - 1];
      assert forall i :: 0 <= i < |init| ==> init[i] == rs[i];
      TotalsFullIff(init);
    }
  }

  /** The maxima a list of table rows lists, added in order. */
  function TableTotal(cs: seq<ConfigCheck>): (total: int) {
    if cs == [] then 0 else TableTotal(cs[..|cs| - 1]) + cs[|cs| - 1].maxPts
  }

  lemma TablePrefix(cs: seq<ConfigCheck>, k: nat)
    requires k < |cs|
    ensures TableTotal(cs[..k + 1]) == TableTotal(cs[..k]) + cs[k].maxPts
  {
    assert cs[..k + 1][..k] == cs[..k];
  }

  /** The maxima the table lists add up to 100. */
  lemma TableIsHundred(cs: seq<ConfigCheck>)
    requires cs == ConfigChecks
    ensures TableTotal(cs) == 100
  {
    TablePrefix(cs, 0);
    TablePrefix(cs, 1);
    TablePrefix(cs, 2);
    TablePrefix(cs, 3);
    TablePrefix(cs, 4);
    assert cs[..5] == cs;
  }

  /** Triples whose maxima are those of the table rows add up to the table's total. */
  lemma {:induction false} MaxTotalMatchesTable(rs: seq<CheckerResult>, cs: seq<ConfigCheck>)
    requires |rs| == |cs|
    requires forall i :: 0 <= i < |rs| ==> rs[i].maxPoints == cs[i].maxPts
    ensures MaxTotal(rs) == TableTotal(cs)
    decreases |rs|
  {
    if rs != [] {
      var n := |rs| - 1;
      assert forall i :: 0 <= i < n ==> rs[..n][i] == rs[i] && cs[..n][i] == cs[i];
      MaxTotalMatchesTable(rs[..n], cs[..n]);
    }
  }

  /** The stack is reported complete exactly when the total is 100, which happens exactly
      when every checker earned its maximum, that is when every check of every report
      passed; the percentage otherwise lies between 0 and 99. */
  lemma CompleteIff(ws: Workspace)
    ensures var rs := Reports(ws);
      0 <= Percent(TotalPoints(rs), MaxTotal(rs)) <= 100
      && (Percent(TotalPoints(rs), MaxTotal(rs)) == 100 <==> TotalPoints(rs) == 100)
      && (TotalPoints(rs) == 100 <==> forall i :: 0 <= i < |rs| ==> rs[i].points == rs[i].maxPoints)
      && (TotalPoints(rs) == 100 <==> forall i :: 0 <= i < |rs| ==> AllPassed(rs[i].checks))
  {
    var rs := Reports(ws);
    TotalsFullIff(rs);
    PercentBounds(TotalPoints(rs), MaxTotal(rs));
  }
}
