/** `check_grafana_datasource`: grades the dashboard server's data-source provisioning file
    out of 15 points: the `datasources:` list (3), the Prometheus type (4), its URL (4) and
    the default flag (4). */
module DatasourceCheck {
  import opened Wrappers
  import opened Text
  import opened Scoring

  const MaxPoints: nat := 15

  /** The list counts as commented out only when `# datasources` occurs among the last 5
      characters before the first `datasources:`. */
  predicate DatasourcesListed(text: string) {
    Contains(text, "datasources:")
    && !Contains(TakeLast(Split(text, "datasources:")[0], 5), "# datasources")
  }

  /** The type counts when it occurs and its commented form occurs nowhere. */
  predicate PrometheusTyped(text: string) {
    Contains(text, "type: prometheus") && !Contains(text, "# type: prometheus")
  }

  /** The URL counts in either quoting. */
  predicate PrometheusUrl(text: string) {
    Contains(text, "url: http://prometheus:9090") || Contains(text, "url: \"http://prometheus:9090\"")
  }

  /** The four rules, with the names, weights and details the checker uses. */
  function DatasourcesRule(text: string): (r: Scored)
    ensures Sound(r) && r.weight == 3
  {
    Binary("Datasources defined", DatasourcesListed(text), 3, "", "Missing or commented")
  }

  function TypeRule(text: string): (r: Scored)
    ensures Sound(r) && r.weight == 4
    ensures r.outcome.passed <==> Contains(text, "type: prometheus") && !Contains(text, "# type: prometheus")
  {
    Binary("Prometheus type", PrometheusTyped(text), 4, "", "Missing or commented")
  }

  function UrlRule(text: string): (r: Scored)
    ensures Sound(r) && r.weight == 4
    ensures r.outcome.passed <==>
      (Contains(text, "url: http://prometheus:9090") || Contains(text, "url: \"http://prometheus:9090\""))
  {
    Binary("Prometheus URL", PrometheusUrl(text), 4, "", "Missing or wrong")
  }

  function DefaultRule(text: string): (r: Scored)
    ensures Sound(r) && r.weight == 4
    ensures r.outcome.passed <==> Contains(text, "isDefault: true")
  {
    Binary("Is default", Contains(text, "isDefault: true"), 4, "", "Missing")
  }

  /** The four rules in the order the checker evaluates them. */
  function Rubric(text: string): (rs: seq<Scored>)
    ensures |rs| == 4 && AllSound(rs) && Budget(rs) == MaxPoints
  {
    var rs := [DatasourcesRule(text), TypeRule(text), UrlRule(text), DefaultRule(text)];
    PrefixStep(rs, 0);
    PrefixStep(rs, 1);
    PrefixStep(rs, 2);
    PrefixStep(rs, 3);
    assert rs[..4] == rs;
    rs
  }

  /** The triple the checker returns for a file's content, or for a missing file. */
  function Grade(content: Option<string>): (r: CheckerResult)
    ensures r.maxPoints == MaxPoints && WellFormed(r)
    ensures content.None? ==> r == MissingFile("datasource config", MaxPoints)
    ensures content.Some? ==> |r.checks| == 4
  {
    match content
    case None =>
      MissingFileWellFormed("datasource config", MaxPoints);
      MissingFile("datasource config", MaxPoints)
    case Some(text) =>
      GradedWellFormed(Rubric(text), MaxPoints);
      Graded(Rubric(text), MaxPoints)
  }

  /** The checker as the script runs it: four pass/fail blocks in a row, each appending one
      check and adding its weight when it passes. */
  method CheckGrafanaDatasource(content: Option<string>) returns (checks: seq<Outcome>, points: int, maxPoints: int)
    ensures CheckerResult(checks, points, maxPoints) == Grade(content)
  {
    checks := [];
    points := 0;
    maxPoints := 15;

    if content.None? {
      assert "datasource config" + " exists" == "datasource config exists";
      return [Outcome("datasource config exists", false, "File not found")], 0, maxPoints;
    }
    var text := content.value;

    checks, points := Record(checks, points, "Datasources defined", DatasourcesListed(text), 3, "", "Missing or commented");
    checks, points := Record(checks, points, "Prometheus type", PrometheusTyped(text), 4, "", "Missing or commented");
    checks, points := Record(checks, points, "Prometheus URL", PrometheusUrl(text), 4, "", "Missing or wrong");
    checks, points := Record(checks, points, "Is default", Contains(text, "isDefault: true"), 4, "", "Missing");
    GradeText(text);
  }

  /** The checker's triple for a file's content, rule by rule. */
  lemma GradeText(text: string)
    ensures Grade(Some(text)) == CheckerResult(
      [] + [DatasourcesRule(text).outcome] + [TypeRule(text).outcome] + [UrlRule(text).outcome] + [DefaultRule(text).outcome],
      0 + DatasourcesRule(text).points + TypeRule(text).points + UrlRule(text).points + DefaultRule(text).points,
      MaxPoints)
  {
    GradedFour(Rubric(text), MaxPoints);
  }

  /** The comment test of the first rule can never fire: the last 5 characters before the
      key cannot hold the 13-character `# datasources`, so the rule passes exactly when
      `datasources:` occurs, even when it is written `# datasources:`. */
  lemma DatasourcesRuleIffPresent(text: string)
    ensures DatasourcesRule(text).outcome.passed <==> Contains(text, "datasources:")
    ensures DatasourcesRule(text).points == if Contains(text, "datasources:") then 3 else 0
  {
    var tail := TakeLast(Split(text, "datasources:")[0], 5);
    assert |tail| <= 5;
    assert !Contains(tail, "# datasources");
  }

  /** A commented `type: prometheus` anywhere costs the type rule, even when the type is
      also set uncommented elsewhere. */
  lemma CommentedTypeFails(text: string)
    requires Contains(text, "# type: prometheus")
    ensures !TypeRule(text).outcome.passed && TypeRule(text).points == 0
  {
  }

  /** The checker awards the full 15 points exactly when the key occurs, the type is set
      and never commented, the URL is given in either quoting and the default flag is on. */
  lemma FullCreditIff(text: string)
    ensures Grade(Some(text)).points == MaxPoints <==>
      (Contains(text, "datasources:") && PrometheusTyped(text) && PrometheusUrl(text)
       && Contains(text, "isDefault: true"))
  {
    DatasourcesRuleIffPresent(text);
    GradeText(text);
    var checks := Grade(Some(text)).checks;
    assert AllPassed(checks) <==> checks[0].passed && checks[1].passed && checks[2].passed && checks[3].passed;
  }
}
