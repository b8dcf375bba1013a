/** `check_app_instrumentation`: grades the instrumented web application (app.py) out of 20
    points, 4 for each of five pieces of instrumentation. The script defines this checker
    but does not run it among the configuration checks. */
module AppCheck {
  import opened Wrappers
  import opened Text
  import opened Scoring

  const MaxPoints: nat := 20

  /** A piece of instrumentation counts when its marker occurs and its commented form
      occurs nowhere in the file. */
  predicate Uncommented(text: string, marker: string, commented: string) {
    Contains(text, marker) && !Contains(text, commented)
  }

  function MarkerRule(text: string, name: string, marker: string, commented: string): (r: Scored)
    ensures Sound(r) && r.weight == 4 && r.outcome.name == name
    ensures r.outcome.passed <==> Uncommented(text, marker, commented)
  {
    Binary(name, Uncommented(text, marker, commented), 4, "", "Missing or commented")
  }

  /** The five rules, with the names, markers and commented forms the checker uses. */
  function ImportRule(text: string): (r: Scored) {
    MarkerRule(text, "Prometheus client import", "from prometheus_client import", "# from prometheus_client")
  }

  function CounterRule(text: string): (r: Scored) {
    MarkerRule(text, "Request counter", "Counter(", "# Counter(")
  }

  function HistogramRule(text: string): (r: Scored) {
    MarkerRule(text, "Request histogram", "Histogram(", "# Histogram(")
  }

  function EndpointRule(text: string): (r: Scored) {
    MarkerRule(text, "Metrics endpoint", "@app.route(\"/metrics\")", "# @app.route(\"/metrics\")")
  }

  function LatestRule(text: string): (r: Scored) {
    MarkerRule(text, "Generate latest", "generate_latest()", "# generate_latest()")
  }

  /** The five rules in the order the checker evaluates them. */
  function Rubric(text: string): (rs: seq<Scored>)
    ensures |rs| == 5 && AllSound(rs) && Budget(rs) == MaxPoints
  {
    var rs := [ImportRule(text), CounterRule(text), HistogramRule(text), EndpointRule(text), LatestRule(text)];
    UniformBudget(rs, 4);
    rs
  }

  /** The triple the checker returns for a file's content, or for a missing file. */
  function Grade(content: Option<string>): (r: CheckerResult)
    ensures r.maxPoints == MaxPoints && WellFormed(r)
    ensures content.None? ==> r == MissingFile("app.py", MaxPoints)
    ensures content.Some? ==> |r.checks| == 5
  {
    match content
    case None =>
      MissingFileWellFormed("app.py", MaxPoints);
      MissingFile("app.py", MaxPoints)
    case Some(text) =>
      GradedWellFormed(Rubric(text), MaxPoints);
      Graded(Rubric(text), MaxPoints)
  }

  /** The checker as the script runs it: five pass/fail blocks in a row, each appending one
      check and adding its weight when it passes. */
  method CheckAppInstrumentation(content: Option<string>) returns (checks: seq<Outcome>, points: int, maxPoints: int)
    ensures CheckerResult(checks, points, maxPoints) == Grade(content)
  {
    checks := [];
    points := 0;
    maxPoints := 20;

    if content.None? {
      assert "app.py" + " exists" == "app.py exists";
      return [Outcome("app.py exists", false, "File not found")], 0, maxPoints;
    }
    var text := content.value;

    checks, points := Record(checks, points, "Prometheus client import",
      Uncommented(text, "from prometheus_client import", "# from prometheus_client"), 4, "", "Missing or commented");
    checks, points := Record(checks, points, "Request counter",
      Uncommented(text, "Counter(", "# Counter("), 4, "", "Missing or commented");
    checks, points := Record(checks, points, "Request histogram",
      Uncommented(text, "Histogram(", "# Histogram("), 4, "", "Missing or commented");
    checks, points := Record(checks, points, "Metrics endpoint",
      Uncommented(text, "@app.route(\"/metrics\")", "# @app.route(\"/metrics\")"), 4, "", "Missing or commented");
    checks, points := Record(checks, points, "Generate latest",
      Uncommented(text, "generate_latest()", "# generate_latest()"), 4, "", "Missing or commented");
    GradeText(text);
  }

  /** The checker's triple for a file's content, rule by rule. */
  lemma GradeText(text: string)
    ensures Grade(Some(text)) == CheckerResult(
      [] + [ImportRule(text).outcome] + [CounterRule(text).outcome] + [HistogramRule(text).outcome]
         + [EndpointRule(text).outcome] + [LatestRule(text).outcome],
      0 + ImportRule(text).points + CounterRule(text).points + HistogramRule(text).points
        + EndpointRule(text).points + LatestRule(text).points,
      MaxPoints)
  {
    var rs := Rubric(text);
    PrefixStep(rs, 0);
    PrefixStep(rs, 1);
    PrefixStep(rs, 2);
    PrefixStep(rs, 3);
    PrefixStep(rs, 4);
    assert rs[..5] == rs;
  }

  /** A commented copy `# M` anywhere fails marker M, although the file then contains M
      itself and may also contain it uncommented elsewhere. */
  lemma CommentedCopyFails(text: string, marker: string)
    requires Contains(text, "# " + marker)
    ensures Contains(text, marker) && !Uncommented(text, marker, "# " + marker)
  {
    ContainsParts(text, "# ", marker);
  }

  /** Each rule fails, and adds nothing, as soon as its commented form occurs anywhere in
      the file. For the import the commented form is the shorter `# from prometheus_client`,
      so a commented `from prometheus_client import ...` line fails it too. */
  lemma CommentedFormsFail(text: string)
    ensures Contains(text, "# from prometheus_client") ==> !ImportRule(text).outcome.passed && ImportRule(text).points == 0
    ensures Contains(text, "# Counter(") ==> !CounterRule(text).outcome.passed && CounterRule(text).points == 0
    ensures Contains(text, "# Histogram(") ==> !HistogramRule(text).outcome.passed && HistogramRule(text).points == 0
    ensures Contains(text, "# @app.route(\"/metrics\")") ==>
      !EndpointRule(text).outcome.passed && EndpointRule(text).points == 0
    ensures Contains(text, "# generate_latest()") ==> !LatestRule(text).outcome.passed && LatestRule(text).points == 0
  {
  }

  /** The checker awards the full 20 points exactly when all five pieces are present and
      none of them is commented. */
  lemma FullCreditIff(text: string)
    ensures Grade(Some(text)).points == MaxPoints <==>
      (Uncommented(text, "from prometheus_client import", "# from prometheus_client")
       && Uncommented(text, "Counter(", "# Counter(")
       && Uncommented(text, "Histogram(", "# Histogram(")
       && Uncommented(text, "@app.route(\"/metrics\")", "# @app.route(\"/metrics\")")
       && Uncommented(text, "generate_latest()", "# generate_latest()"))
  {
    GradeText(text);
    var checks := Grade(Some(text)).checks;
    assert AllPassed(checks) <==>
      checks[0].passed && checks[1].passed && checks[2].passed && checks[3].passed && checks[4].passed;
  }
}
