/** `check_alerts`: grades the alerting rules file (alerts.yml) out of 20 points, 5 for each
    of four alerts that must be defined on a line that is not a comment. */
module AlertsCheck {
  import opened Wrappers
  import opened Text
  import opened Scoring

  const MaxPoints: nat := 20

  /** The alerts the rules file must define, in the order they are checked. */
  const AlertNames: seq<string> := ["HighErrorRate", "HighLatency", "ServiceDown", "HighCPUUsage"]

  /** The text that defines an alert. */
  function Needle(alert: string): (needle: string) {
    "alert: " + alert
  }

  /** A line is a comment when, once stripped of surrounding whitespace, it starts with `#`. */
  predicate IsCommentLine(line: string) {
    StartsWith(Strip(line), "#")
  }

  /** A line that defines the alert and is not a comment. */
  predicate LiveOn(line: string, needle: string) {
    !IsCommentLine(line) && Contains(line, needle)
  }

  predicate HasLiveLine(lines: seq<string>, needle: string) {
    exists k :: 0 <= k < |lines| && LiveOn(lines[k], needle)
  }

  /** 5 points when the alert is defined on a live line; otherwise the detail tells apart an
      alert that occurs only in comments from one that does not occur at all. */
  function AlertRule(text: string, alert: string): (r: Scored)
    ensures Sound(r) && r.weight == 5
    ensures r.points == if r.outcome.passed then 5 else 0
  {
    if Contains(text, Needle(alert)) then
      if HasLiveLine(Lines(text), Needle(alert)) then
        Scored(Outcome("Alert: " + alert, true, "Configured"), 5, 5)
      else
        Scored(Outcome("Alert: " + alert, false, "Commented out"), 0, 5)
    else
      Scored(Outcome("Alert: " + alert, false, "Missing"), 0, 5)
  }

  /** The rules for `alerts`, in order. */
  function AlertRules(text: string, alerts: seq<string>): (rs: seq<Scored>)
    ensures |rs| == |alerts| && AllSound(rs) && Budget(rs) == 5 * |alerts|
    ensures forall k :: 0 <= k < |alerts| ==> rs[k] == AlertRule(text, alerts[k])
  {
    var rs := seq(|alerts|, k requires 0 <= k < |alerts| => AlertRule(text, alerts[k]));
    UniformBudget(rs, 5);
    rs
  }

  function Rubric(text: string): (rs: seq<Scored>)
    ensures |rs| == 4 && AllSound(rs) && Budget(rs) == MaxPoints
  {
    AlertRules(text, AlertNames)
  }

  /** The triple the checker returns for a file's content, or for a missing file. */
  function Grade(content: Option<string>): (r: CheckerResult)
    ensures r.maxPoints == MaxPoints && WellFormed(r)
    ensures content.None? ==> r == MissingFile("alerts.yml", MaxPoints)
    ensures content.Some? ==> |r.checks| == 4
  {
    match content
    case None =>
      MissingFileWellFormed("alerts.yml", MaxPoints);
      MissingFile("alerts.yml", MaxPoints)
    case Some(text) =>
      GradedWellFormed(Rubric(text), MaxPoints);
      Graded(Rubric(text), MaxPoints)
  }

  /** The inner scan: skip comment lines and stop at the first other line that contains the
      needle. */
  method FindLiveLine(lines: seq<string>, needle: string) returns (isUncommented: bool)
    ensures isUncommented <==> HasLiveLine(lines, needle)
  {
    isUncommented := false;
    var i := 0;
    while i < |lines|
      invariant 0 <= i <= |lines| && !isUncommented
      invariant forall k :: 0 <= k < i ==> !LiveOn(lines[k], needle)
    {
      var line := lines[i];
      var stripped := Strip(line);
      if StartsWith(stripped, "#") {
        i := i + 1;
        continue;
      }
      if Contains(line, needle) {
        isUncommented := true;
        break;
      }
      i := i + 1;
    }
  }

  /** Evaluating one more alert appends its rule. */
  lemma AlertRulesStep(text: string, alerts: seq<string>, i: nat)
    requires i < |alerts|
    ensures AlertRules(text, alerts[..i + 1]) == AlertRules(text, alerts[..i]) + [AlertRule(text, alerts[i])]
  {
  }

  /** The checker as the script runs it: for each alert, a test on the whole text and, when
      that passes, a scan of its lines. */
  method CheckAlerts(content: Option<string>) returns (checks: seq<Outcome>, points: int, maxPoints: int)
    ensures CheckerResult(checks, points, maxPoints) == Grade(content)
  {
    checks := [];
    points := 0;
    maxPoints := 20;

    if content.None? {
      assert "alerts.yml" + " exists" == "alerts.yml exists";
      return [Outcome("alerts.yml exists", false, "File not found")], 0, maxPoints;
    }
    var text := content.value;

    var alertNames := ["HighErrorRate", "HighLatency", "ServiceDown", "HighCPUUsage"];
    for i := 0 to |alertNames|
      invariant checks == Outcomes(AlertRules(text, alertNames[..i]))
      invariant points == Earned(AlertRules(text, alertNames[..i]))
    {
      var alert := alertNames[i];
      if Contains(text, "alert: " + alert) {
        var lines := Split(text, "\n");
        var isUncommented := FindLiveLine(lines, "alert: " + alert);
        if isUncommented {
          checks := checks + [Outcome("Alert: " + alert, true, "Configured")];
          points := points + 5;
        } else {
          checks := checks + [Outcome("Alert: " + alert, false, "Commented out")];
        }
      } else {
        checks := checks + [Outcome("Alert: " + alert, false, "Missing")];
      }
      AlertRulesStep(text, alertNames, i);
      AppendRule(AlertRules(text, alertNames[..i]), AlertRule(text, alert));
    }
    assert alertNames[..|alertNames|] == AlertNames;
  }

  /** The three outcomes of an alert's rule, in terms of the lines of the file: it passes
      exactly when some line that is not a comment defines the alert, it reports "Commented
      out" exactly when the alert is defined only on comment lines, and "Missing" exactly
      when no line defines it. */
  lemma AlertRuleCases(text: string, alert: string)
    requires '\n' !in alert
    ensures AlertRule(text, alert).outcome.passed <==> HasLiveLine(Lines(text), Needle(alert))
    ensures AlertRule(text, alert).outcome.detail == "Commented out" <==>
      (exists k :: 0 <= k < |Lines(text)| && Contains(Lines(text)[k], Needle(alert)))
      && (forall k :: 0 <= k < |Lines(text)| && Contains(Lines(text)[k], Needle(alert)) ==> IsCommentLine(Lines(text)[k]))
    ensures AlertRule(text, alert).outcome.detail == "Missing" <==>
      forall k :: 0 <= k < |Lines(text)| ==> !Contains(Lines(text)[k], Needle(alert))
  {
    var needle := Needle(alert);
    assert '\n' !in needle by {
      assert forall j :: 0 <= j < |needle| ==> needle[j] == if j < 7 then "alert: "[j] else alert[j - 7];
    }
    ContainsOnSomeLine(text, needle);
  }

  /** An alert whose only definition is a commented line, `# alert: HighErrorRate`, is
      reported as commented out and earns nothing. */
  lemma CommentedAlertReported(text: string)
    requires text == "# alert: HighErrorRate"
    ensures AlertRule(text, "HighErrorRate") == Scored(Outcome("Alert: HighErrorRate", false, "Commented out"), 0, 5)
  {
    ExampleDefines(text);
    ExampleIsComment(text);
    ExampleOneLine(text);
    assert !HasLiveLine(Lines(text), Needle("HighErrorRate"));
  }

  lemma ExampleDefines(text: string)
    requires text == "# alert: HighErrorRate"
    ensures Contains(text, Needle("HighErrorRate"))
  {
    assert text[2..] == Needle("HighErrorRate");
    assert OccursAt(text, Needle("HighErrorRate"), 2);
  }

  lemma ExampleIsComment(text: string)
    requires text == "# alert: HighErrorRate"
    ensures IsCommentLine(text)
  {
    assert text[0] == '#' && !IsSpace(text[0]);
    assert LStrip(text) == text;
    RStripKeepsFirst(text);
  }

  lemma ExampleOneLine(text: string)
    requires text == "# alert: HighErrorRate"
    ensures Lines(text) == [text]
  {
    assert '\n' !in text;
    OneLine(text);
  }

  /** A text without a line break is a single line. */
  lemma OneLine(text: string)
    requires '\n' !in text
    ensures Lines(text) == [text]
  {
    ContainsChar(text, "\n", 0);
    FirstIndexSpec(text, "\n");
  }

  /** The checker awards the full 20 points exactly when each of the four alerts is
      defined on some line that is not a comment. */
  lemma FullCreditIff(text: string)
    ensures Grade(Some(text)).points == MaxPoints <==>
      forall k :: 0 <= k < |AlertNames| ==> HasLiveLine(Lines(text), Needle(AlertNames[k]))
  {
    var rs := Rubric(text);
    forall k | 0 <= k < |AlertNames|
      ensures rs[k].outcome.passed <==> HasLiveLine(Lines(text), Needle(AlertNames[k]))
    {
      AlertRuleCases(text, AlertNames[k]);
    }
    RubricTotals(rs);
  }
}
