/** `check_alertmanager_config`: grades the alert router's configuration (alertmanager.yml)
    out of 20 points, 5 for each of four top-level keys. */
module AlertmanagerCheck {
  import opened Wrappers
  import opened Text
  import opened Scoring

  const MaxPoints: nat := 20

  /** The rule for one key: 5 points when the key occurs anywhere in the text. */
  function KeyRule(text: string, name: string, key: string): (r: Scored)
    ensures Sound(r) && r.weight == 5 && r.outcome.name == name
    ensures r.outcome.passed <==> Contains(text, key)
  {
    Binary(name, Contains(text, key), 5, "", "Missing")
  }

  /** The four rules, with the names and keys the checker uses. */
  function RouteRule(text: string): (r: Scored) {
    KeyRule(text, "Route configured", "route:")
  }

  function ReceiversRule(text: string): (r: Scored) {
    KeyRule(text, "Receivers defined", "receivers:")
  }

  function GroupByRule(text: string): (r: Scored) {
    KeyRule(text, "Group by configured", "group_by:")
  }

  function InhibitRule(text: string): (r: Scored) {
    KeyRule(text, "Inhibit rules", "inhibit_rules:")
  }

  /** The four rules in the order the checker evaluates them. */
  function Rubric(text: string): (rs: seq<Scored>)
    ensures |rs| == 4 && AllSound(rs) && Budget(rs) == MaxPoints
  {
    var rs := [RouteRule(text), ReceiversRule(text), GroupByRule(text), InhibitRule(text)];
    UniformBudget(rs, 5);
    rs
  }

  /** The triple the checker returns for a file's content, or for a missing file. */
  function Grade(content: Option<string>): (r: CheckerResult)
    ensures r.maxPoints == MaxPoints && WellFormed(r)
    ensures content.None? ==> r == MissingFile("alertmanager.yml", MaxPoints)
    ensures content.Some? ==> |r.checks| == 4
  {
    match content
    case None =>
      MissingFileWellFormed("alertmanager.yml", MaxPoints);
      MissingFile("alertmanager.yml", MaxPoints)
    case Some(text) =>
      GradedWellFormed(Rubric(text), MaxPoints);
      Graded(Rubric(text), MaxPoints)
  }

  /** The checker as the script runs it: four pass/fail blocks in a row, each appending one
      check and adding its weight when it passes. */
  method CheckAlertmanagerConfig(content: Option<string>) returns (checks: seq<Outcome>, points: int, maxPoints: int)
    ensures CheckerResult(checks, points, maxPoints) == Grade(content)
  {
    checks := [];
    points := 0;
    maxPoints := 20;

    if content.None? {
      assert "alertmanager.yml" + " exists" == "alertmanager.yml exists";
      return [Outcome("alertmanager.yml exists", false, "File not found")], 0, maxPoints;
    }
    var text := content.value;

    checks, points := Record(checks, points, "Route configured", Contains(text, "route:"), 5, "", "Missing");
    checks, points := Record(checks, points, "Receivers defined", Contains(text, "receivers:"), 5, "", "Missing");
    checks, points := Record(checks, points, "Group by configured", Contains(text, "group_by:"), 5, "", "Missing");
    checks, points := Record(checks, points, "Inhibit rules", Contains(text, "inhibit_rules:"), 5, "", "Missing");
    GradeText(text);
  }

  /** The checker's triple for a file's content, rule by rule. */
  lemma GradeText(text: string)
    ensures Grade(Some(text)) == CheckerResult(
      [] + [RouteRule(text).outcome] + [ReceiversRule(text).outcome] + [GroupByRule(text).outcome] + [InhibitRule(text).outcome],
      0 + RouteRule(text).points + ReceiversRule(text).points + GroupByRule(text).points + InhibitRule(text).points,
      MaxPoints)
  {
    GradedFour(Rubric(text), MaxPoints);
  }

  /** The checker awards the full 20 points exactly when all four keys occur. */
  lemma FullCreditIff(text: string)
    ensures Grade(Some(text)).points == MaxPoints <==>
      (Contains(text, "route:") && Contains(text, "receivers:")
       && Contains(text, "group_by:") && Contains(text, "inhibit_rules:"))
  {
    GradeText(text);
    var checks := Grade(Some(text)).checks;
    assert AllPassed(checks) <==> checks[0].passed && checks[1].passed && checks[2].passed && checks[3].passed;
  }
}
