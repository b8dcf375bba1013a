/** `check_prometheus_config`: grades the metrics collector's scrape configuration
    (prometheus.yml) out of 20 points: the scrape interval (4), the alert-routing block (4)
    and three scrape jobs (4 each). */
module PrometheusCheck {
  import opened Wrappers
  import opened Text
  import opened Scoring

  const MaxPoints: nat := 20

  /** The scrape jobs the configuration must define, in the order they are checked. */
  const Jobs: seq<string> := ["prometheus", "app", "node"]

  /** 4 points for the exact interval `15s`, 2 for the key with any other value, else 0. */
  function ScrapeIntervalRule(text: string): (r: Scored)
    ensures Sound(r) && r.weight == 4
  {
    if Contains(text, "scrape_interval: 15s") then
      Scored(Outcome("Scrape interval 15s", true, "Configured"), 4, 4)
    else if Contains(text, "scrape_interval:") then
      Scored(Outcome("Scrape interval 15s", false, "Wrong value"), 2, 4)
    else
      Scored(Outcome("Scrape interval 15s", false, "Missing"), 0, 4)
  }

  /** The alert-routing block counts as commented out only when `# alertmanagers` occurs
      among the last 20 characters before the first `alertmanagers:`. */
  predicate AlertmanagersConfigured(text: string) {
    Contains(text, "alertmanagers:")
    && !Contains(TakeLast(Split(text, "alertmanagers:")[0], 20), "# alertmanagers")
  }

  function AlertmanagerRule(text: string): (r: Scored)
    ensures Sound(r) && r.weight == 4
    ensures r.outcome.passed <==>
      (Contains(text, "alertmanagers:")
       && !Contains(TakeLast(Split(text, "alertmanagers:")[0], 20), "# alertmanagers"))
  {
    Binary("Alertmanager config", AlertmanagersConfigured(text), 4, "Configured", "Missing or commented")
  }

  /** The job's name in single quotes, `job_name: 'X'`, and in double quotes. */
  function JobPattern(job: string): (pattern: string) {
    "job_name: '" + job + "'"
  }

  function JobAltPattern(job: string): (pattern: string) {
    "job_name: \"" + job + "\""
  }

  /** A job counts when either quoting of its name occurs and the single-quoted form
      never occurs behind `# ` anywhere in the text. */
  predicate JobConfigured(text: string, job: string) {
    (Contains(text, JobPattern(job)) || Contains(text, JobAltPattern(job)))
    && !Contains(text, "# " + JobPattern(job))
  }

  function JobRule(text: string, job: string): (r: Scored)
    ensures Sound(r) && r.weight == 4 && r.outcome.name == "Job: " + job
    ensures r.outcome.passed <==>
      ((Contains(text, JobPattern(job)) || Contains(text, JobAltPattern(job)))
       && !Contains(text, "# " + JobPattern(job)))
  {
    Binary("Job: " + job, JobConfigured(text, job), 4, "Configured", "Missing or commented")
  }

  /** The job rules for `jobs`, in order. */
  function JobRules(text: string, jobs: seq<string>): (rs: seq<Scored>)
    ensures |rs| == |jobs|
    decreases |jobs|
  {
    if jobs == [] then [] else JobRules(text, jobs[..|jobs| - 1]) + [JobRule(text, jobs[|jobs| - 1])]
  }

  /** The k-th job rule is the rule for the k-th job; every job rule is sound and weighs 4. */
  lemma {:induction false} JobRulesBudget(text: string, jobs: seq<string>)
    ensures forall k :: 0 <= k < |jobs| ==> JobRules(text, jobs)[k] == JobRule(text, jobs[k])
    ensures AllSound(JobRules(text, jobs)) && Budget(JobRules(text, jobs)) == 4 * |jobs|
    decreases |jobs|
  {
    if jobs != [] {
      var init := jobs[..|jobs| - 1];
      var last := JobRule(text, jobs[|jobs| - 1]);
      JobRulesBudget(text, init);
      SumsAppend(JobRules(text, init), [last]);
      assert Budget([last]) == 4 by { assert [last][..0] == []; }
      forall k | 0 <= k < |init| ensures JobRules(text, jobs)[k] == JobRule(text, jobs[k]) {
        assert init[k] == jobs[k];
      }
    }
  }

  /** Evaluating one more job appends its rule and adds its points. */
  lemma JobRulesStep(text: string, jobs: seq<string>, i: nat)
    requires i < |jobs|
    ensures JobRules(text, jobs[..i + 1]) == JobRules(text, jobs[..i]) + [JobRule(text, jobs[i])]
  {
    assert jobs[..i + 1][..i] == jobs[..i];
  }

  /** The loop over the scrape jobs: one check per job, 4 points for each configured one. */
  method CheckJobs(text: string, jobs: seq<string>) returns (checks: seq<Outcome>, points: int)
    ensures checks == Outcomes(JobRules(text, jobs)) && points == Earned(JobRules(text, jobs))
  {
    checks := [];
    points := 0;
    for i := 0 to |jobs|
      invariant checks == Outcomes(JobRules(text, jobs[..i]))
      invariant points == Earned(JobRules(text, jobs[..i]))
    {
      var job := jobs[i];
      checks, points := Record(checks, points, "Job: " + job, JobConfigured(text, job), 4, "Configured", "Missing or commented");
      JobRulesStep(text, jobs, i);
      AppendRule(JobRules(text, jobs[..i]), JobRule(text, job));
    }
    assert jobs[..|jobs|] == jobs;
  }

  /** The rules of the checker in the order it evaluates them. */
  function Rubric(text: string): (rs: seq<Scored>)
    ensures |rs| == 2 + |Jobs| == 5
    ensures AllSound(rs) && Budget(rs) == MaxPoints
  {
    var first := [ScrapeIntervalRule(text), AlertmanagerRule(text)];
    PrefixStep(first, 0);
    PrefixStep(first, 1);
    assert first[..2] == first;
    JobRulesBudget(text, Jobs);
    SumsAppend(first, JobRules(text, Jobs));
    first + JobRules(text, Jobs)
  }

  /** The triple the checker returns for a file's content, or for a missing file. */
  function Grade(content: Option<string>): (r: CheckerResult)
    ensures r.maxPoints == MaxPoints && WellFormed(r)
    ensures content.None? ==> r == MissingFile("prometheus.yml", MaxPoints)
    ensures content.Some? ==> |r.checks| == 5
  {
    match content
    case None =>
      MissingFileWellFormed("prometheus.yml", MaxPoints);
      MissingFile("prometheus.yml", MaxPoints)
    case Some(text) =>
      GradedWellFormed(Rubric(text), MaxPoints);
      Graded(Rubric(text), MaxPoints)
  }

  /** The checker as the script runs it: rule by rule, appending to `checks` and adding to
      `points`, with one loop over the scrape jobs. */
  method CheckPrometheusConfig(content: Option<string>) returns (checks: seq<Outcome>, points: int, maxPoints: int)
    ensures CheckerResult(checks, points, maxPoints) == Grade(content)
  {
    checks := [];
    points := 0;
    maxPoints := 20;

    if content.None? {
      assert "prometheus.yml" + " exists" == "prometheus.yml exists";
      return [Outcome("prometheus.yml exists", false, "File not found")], 0, maxPoints;
    }
    var text := content.value;

    if Contains(text, "scrape_interval: 15s") {
      checks := checks + [Outcome("Scrape interval 15s", true, "Configured")];
      points := points + 4;
    } else if Contains(text, "scrape_interval:") {
      checks := checks + [Outcome("Scrape interval 15s", false, "Wrong value")];
      points := points + 2;
    } else {
      checks := checks + [Outcome("Scrape interval 15s", false, "Missing")];
    }
    assert checks == [ScrapeIntervalRule(text).outcome] && points == ScrapeIntervalRule(text).points;

    checks, points := Record(checks, points, "Alertmanager config", AlertmanagersConfigured(text), 4, "Configured", "Missing or commented");
    assert checks == [ScrapeIntervalRule(text).outcome, AlertmanagerRule(text).outcome];
    assert points == ScrapeIntervalRule(text).points + AlertmanagerRule(text).points;

    var jobs := ["prometheus", "app", "node"];
    var jobChecks, jobPoints := CheckJobs(text, jobs);
    checks := checks + jobChecks;
    points := points + jobPoints;
    assert jobs == Jobs;
    GradeText(text);
  }

  /** The checker's triple for a file's content, rule by rule. */
  lemma GradeText(text: string)
    ensures Grade(Some(text)) == CheckerResult(
      [ScrapeIntervalRule(text).outcome, AlertmanagerRule(text).outcome] + Outcomes(JobRules(text, Jobs)),
      ScrapeIntervalRule(text).points + AlertmanagerRule(text).points + Earned(JobRules(text, Jobs)),
      MaxPoints)
  {
    var first := [ScrapeIntervalRule(text), AlertmanagerRule(text)];
    PrefixStep(first, 0);
    PrefixStep(first, 1);
    assert first[..2] == first;
    OutcomesAppend(first, JobRules(text, Jobs));
    SumsAppend(first, JobRules(text, Jobs));
  }

  /** The scrape-interval rule awards 4 exactly for `scrape_interval: 15s`, 2 exactly when
      the key is there with another value, and 0 exactly when the key is absent. */
  lemma ScrapeIntervalCredit(text: string)
    ensures ScrapeIntervalRule(text).points == 4 <==> Contains(text, "scrape_interval: 15s")
    ensures ScrapeIntervalRule(text).points == 2
      <==> Contains(text, "scrape_interval:") && !Contains(text, "scrape_interval: 15s")
    ensures ScrapeIntervalRule(text).points == 0 <==> !Contains(text, "scrape_interval:")
  {
    if Contains(text, "scrape_interval: 15s") {
      assert "scrape_interval:" + " 15s" == "scrape_interval: 15s";
      ContainsParts(text, "scrape_interval:", " 15s");
    }
  }

  /** A single commented copy `# job_name: 'X'` fails job X, although the text then also
      contains the pattern `job_name: 'X'` and may contain it uncommented elsewhere. */
  lemma CommentedJobFails(text: string, job: string)
    requires Contains(text, "# " + JobPattern(job))
    ensures Contains(text, JobPattern(job))
    ensures !JobRule(text, job).outcome.passed && JobRule(text, job).points == 0
  {
    ContainsParts(text, "# ", JobPattern(job));
  }

  /** The slice heuristic looks only before the first `alertmanagers:`, so a block whose
      first key is itself written `# alertmanagers:` is not seen as commented out. */
  lemma CommentedFirstAlertmanagersPasses()
    ensures AlertmanagerRule("# alertmanagers:").outcome.passed
  {
    var head := Split("# alertmanagers:", "alertmanagers:")[0];
    HeadBeforeFirstKey("# alertmanagers:");
    assert TakeLast(head, 20) == "# ";
    assert !Contains("# ", "# alertmanagers");
  }

  lemma HeadBeforeFirstKey(text: string)
    requires text == "# alertmanagers:"
    ensures Contains(text, "alertmanagers:") && Split(text, "alertmanagers:")[0] == "# "
  {
    var key := "alertmanagers:";
    assert OccursAt(text, key, 2) by { assert text[2..16] == key; }
    FirstIndexSpec(text, key);
    SplitHead(text, key);
    var i := FirstIndex(text, key).value;
    assert i == 2 by {
      assert !OccursAt(text, key, 0) by { assert text[0] != key[0]; }
      assert !OccursAt(text, key, 1) by { assert text[1] != key[0]; }
    }
  }

  /** A text without any `#` in which the exact interval, the alert-routing key and every
      job's single-quoted name occur earns the full 20 points. */
  lemma FullCreditWithoutComments(text: string)
    requires Contains(text, "scrape_interval: 15s") && Contains(text, "alertmanagers:")
    requires forall k :: 0 <= k < |Jobs| ==> Contains(text, JobPattern(Jobs[k]))
    requires '#' !in text
    ensures Grade(Some(text)).points == MaxPoints
    ensures AllPassed(Grade(Some(text)).checks)
  {
    SplitHead(text, "alertmanagers:");
    var head := Split(text, "alertmanagers:")[0];
    var tail := TakeLast(head, 20);
    assert '#' !in tail by {
      forall j | 0 <= j < |tail| ensures tail[j] != '#' {
        assert tail[j] == head[|head| - |tail| + j] == text[|head| - |tail| + j];
      }
    }
    ContainsChar(tail, "# alertmanagers", 0);
    forall k | 0 <= k < |Jobs| ensures JobConfigured(text, Jobs[k]) {
      ContainsChar(text, "# " + JobPattern(Jobs[k]), 0);
    }
    JobRulesBudget(text, Jobs);
    var rs := Rubric(text);
    forall k | 0 <= k < |rs| ensures Outcomes(rs)[k].passed {
      if k >= 2 {
        assert rs[k] == JobRule(text, Jobs[k - 2]);
      }
    }
    RubricTotals(rs);
  }

  /** The checker awards the full 20 points exactly when the interval is exactly `15s`, the
      alert-routing block is not seen as commented out and every scrape job is configured. */
  lemma FullCreditIff(text: string)
    ensures Grade(Some(text)).points == MaxPoints <==>
      (Contains(text, "scrape_interval: 15s") && AlertmanagersConfigured(text)
       && forall k :: 0 <= k < |Jobs| ==> JobConfigured(text, Jobs[k]))
  {
    GradeText(text);
    JobRulesBudget(text, Jobs);
    var jobRules := JobRules(text, Jobs);
    RubricTotals(jobRules);
    assert AllPassed(Outcomes(jobRules)) <==> forall k :: 0 <= k < |Jobs| ==> JobConfigured(text, Jobs[k]) by {
      assert forall k :: 0 <= k < |Jobs| ==> Outcomes(jobRules)[k] == JobRule(text, Jobs[k]).outcome;
    }
    ScrapeIntervalCredit(text);
  }

  /** A text whose only directive is `scrape_interval: 30s` earns the 2 points of partial
      credit and fails every check. */
  lemma WrongIntervalOnly()
    ensures Grade(Some("scrape_interval: 30s")).points == 2
    ensures forall k :: 0 <= k < 5 ==> !Grade(Some("scrape_interval: 30s")).checks[k].passed
  {
    var text := "scrape_interval: 30s";
    WrongIntervalRule(text);
    assert !AlertmanagerRule(text).outcome.passed by { NoAlertmanagers(text); }
    forall k | 0 <= k < |Jobs| ensures !JobConfigured(text, Jobs[k]) {
      NoJobs(text, Jobs[k]);
    }
    JobRulesBudget(text, Jobs);
    var jobRules := JobRules(text, Jobs);
    EarnedNothing(jobRules);
    GradeText(text);
    forall k | 0 <= k < 5 ensures !Grade(Some(text)).checks[k].passed {
      if k >= 2 {
        assert Grade(Some(text)).checks[k] == jobRules[k - 2].outcome;
      }
    }
  }

  lemma WrongIntervalRule(text: string)
    requires text == "scrape_interval: 30s"
    ensures ScrapeIntervalRule(text).points == 2
  {
    ContainsChar(text, "scrape_interval: 15s", 18);
    assert OccursAt(text, "scrape_interval:", 0);
  }

  lemma NoAlertmanagers(text: string)
    requires text == "scrape_interval: 30s"
    ensures !Contains(text, "alertmanagers:")
  {
    ContainsChar(text, "alertmanagers:", 5);
  }

  lemma NoJobs(text: string, job: string)
    requires text == "scrape_interval: 30s"
    ensures !Contains(text, JobPattern(job)) && !Contains(text, JobAltPattern(job))
  {
    ContainsChar(text, JobPattern(job), 0);
    ContainsChar(text, JobAltPattern(job), 0);
  }
}
