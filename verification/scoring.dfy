/** What a checker produces. In the grading script a checker returns the triple
    `(checks, points, max_points)`, where `checks` lists `(name, passed, detail)` tuples in
    the order the rules are evaluated. The rubric functions of the checker modules also
    record, for each rule, the points it added and the most it could add (its weight), so
    that the point budget of a rubric can be stated and proved. */
module Scoring {

  /** One `(name, passed, detail)` tuple of a checker's `checks` list. */
  datatype Outcome = Outcome(name: string, passed: bool, detail: string)

  /** One rule of a rubric as evaluated: its outcome, the points it added, its weight. */
  datatype Scored = Scored(outcome: Outcome, points: nat, weight: nat)

  /** The `(checks, points, max_points)` triple a checker returns. */
  datatype CheckerResult = CheckerResult(checks: seq<Outcome>, points: int, maxPoints: int)

  /** A rule adds at most its weight, and adds all of it exactly when it passes. */
  predicate Sound(r: Scored) {
    r.points <= r.weight && (r.outcome.passed <==> r.points == r.weight)
  }

  predicate AllSound(rs: seq<Scored>) {
    forall k :: 0 <= k < |rs| ==> Sound(rs[k])
  }

  predicate AllPassed(checks: seq<Outcome>) {
    forall k :: 0 <= k < |checks| ==> checks[k].passed
  }

  /** The points a sequence of rules adds up to, accumulated in evaluation order. */
  function Earned(rs: seq<Scored>): (total: nat) {
    if rs == [] then 0 else Earned(rs[..|rs| - 1]) + rs[|rs| - 1].points
  }

  /** The most a sequence of rules can add up to. */
  function Budget(rs: seq<Scored>): (total: nat) {
    if rs == [] then 0 else Budget(rs[..|rs| - 1]) + rs[|rs| - 1].weight
  }

  /** The `checks` list of a sequence of evaluated rules. */
  function Outcomes(rs: seq<Scored>): (checks: seq<Outcome>)
    ensures |checks| == |rs|
    ensures forall k :: 0 <= k < |rs| ==> checks[k] == rs[k].outcome
  {
    seq(|rs|, k requires 0 <= k < |rs| => rs[k].outcome)
  }

  /** A pass/fail rule: it adds its whole (positive) weight when `cond` holds and nothing
      otherwise. */
  function Binary(name: string, cond: bool, weight: nat, passDetail: string, failDetail: string): (r: Scored)
    requires weight > 0
    ensures Sound(r) && r.weight == weight
    ensures r.outcome.name == name && r.outcome.passed == cond
    ensures r.points == if cond then weight else 0
  {
    if cond then Scored(Outcome(name, true, passDetail), weight, weight)
    else Scored(Outcome(name, false, failDetail), 0, weight)
  }

  /** One pass/fail block of a checker: append the check with its detail, and add the
      weight to the running points when the condition holds. */
  method Record(checks: seq<Outcome>, points: int, name: string, cond: bool, weight: nat, passDetail: string, failDetail: string)
    returns (checks': seq<Outcome>, points': int)
    requires weight > 0
    ensures checks' == checks + [Binary(name, cond, weight, passDetail, failDetail).outcome]
    ensures points' == points + Binary(name, cond, weight, passDetail, failDetail).points
  {
    if cond {
      checks' := checks + [Outcome(name, true, passDetail)];
      points' := points + weight;
    } else {
      checks' := checks + [Outcome(name, false, failDetail)];
      points' := points;
    }
  }

  /** The triple returned for a file that could not be read. */
  function MissingFile(fileName: string, maxPoints: nat): (r: CheckerResult) {
    CheckerResult([Outcome(fileName + " exists", false, "File not found")], 0, maxPoints)
  }

  /** The triple returned once every rule of a rubric has been evaluated. */
  function Graded(rs: seq<Scored>, maxPoints: nat): (r: CheckerResult) {
    CheckerResult(Outcomes(rs), Earned(rs), maxPoints)
  }

  /** What every checker promises of its triple: the points lie between 0 and the maximum,
      and they reach the maximum exactly when every listed check passed. */
  predicate WellFormed(r: CheckerResult) {
    0 <= r.points <= r.maxPoints && (r.points == r.maxPoints <==> AllPassed(r.checks))
  }

  /** Sound rules add up to at most their budget, and to all of it exactly when every
      rule passed. */
  lemma {:induction false} RubricTotals(rs: seq<Scored>)
    requires AllSound(rs)
    ensures Earned(rs) <= Budget(rs)
    ensures Earned(rs) == Budget(rs) <==> AllPassed(Outcomes(rs))
    decreases |rs|
  {
    if rs != [] {
      var init := rs[..|rs| - 1];
      assert AllSound(init) by {
        forall k | 0 <= k < |init| ensures Sound(init[k]) {
          assert init[k] == rs[k];
        }
      }
      RubricTotals(init);
      assert AllPassed(Outcomes(rs)) <==> AllPassed(Outcomes(init)) && rs[|rs| - 1].outcome.passed by {
        if AllPassed(Outcomes(init)) && rs[|rs| - 1].outcome.passed {
          forall k | 0 <= k < |rs| ensures Outcomes(rs)[k].passed {
            if k < |init| {
              assert Outcomes(init)[k] == rs[k].outcome;
            }
          }
        }
        if AllPassed(Outcomes(rs)) {
          forall k | 0 <= k < |init| ensures Outcomes(init)[k].passed {
            assert Outcomes(rs)[k] == rs[k].outcome;
          }
          assert Outcomes(rs)[|rs| - 1].passed;
        }
      }
    }
  }

  /** A checker that evaluated a sound rubric whose budget is its maximum returns a
      well-formed triple. */
  lemma GradedWellFormed(rs: seq<Scored>, maxPoints: nat)
    requires AllSound(rs) && Budget(rs) == maxPoints
    ensures WellFormed(Graded(rs, maxPoints))
  {
    RubricTotals(rs);
  }

  /** So does a checker whose file is missing, as long as its maximum is positive. */
  lemma MissingFileWellFormed(fileName: string, maxPoints: nat)
    requires maxPoints > 0
    ensures WellFormed(MissingFile(fileName, maxPoints))
  {
    assert !MissingFile(fileName, maxPoints).checks[0].passed;
  }

  /** The sums over the first `k + 1` rules extend those over the first `k` by rule `k`. */
  lemma PrefixStep(rs: seq<Scored>, k: nat)
    requires k < |rs|
    ensures Earned(rs[..k + 1]) == Earned(rs[..k]) + rs[k].points
    ensures Budget(rs[..k + 1]) == Budget(rs[..k]) + rs[k].weight
  {
    assert rs[..k + 1][..k] == rs[..k];
  }

  /** Points and budgets of two rule sequences evaluated one after the other add up. */
  lemma {:induction false} SumsAppend(a: seq<Scored>, b: seq<Scored>)
    ensures Earned(a + b) == Earned(a) + Earned(b)
    ensures Budget(a + b) == Budget(a) + Budget(b)
    ensures AllSound(a) && AllSound(b) ==> AllSound(a + b)
    decreases |b|
  {
    if b == [] {
      assert a + b == a;
    } else {
      var init := b[..|b| - 1];
      SumsAppend(a, init);
      assert (a + b)[..|a + b| - 1] == a + init;
      if AllSound(a) && AllSound(b) {
        forall k | 0 <= k < |a + b| ensures Sound((a + b)[k]) {
          if k >= |a| {
            assert (a + b)[k] == b[k - |a|];
          }
        }
      }
    }
  }

  /** Appending one evaluated rule extends the `checks` list and the points by that rule. */
  lemma AppendRule(rs: seq<Scored>, r: Scored)
    ensures Outcomes(rs + [r]) == Outcomes(rs) + [r.outcome]
    ensures Earned(rs + [r]) == Earned(rs) + r.points
  {
    assert (rs + [r])[..|rs|] == rs;
  }

  /** The triple of a four-rule rubric, rule by rule. */
  lemma GradedFour(rs: seq<Scored>, maxPoints: nat)
    requires |rs| == 4
    ensures Graded(rs, maxPoints) == CheckerResult(
      [] + [rs[0].outcome] + [rs[1].outcome] + [rs[2].outcome] + [rs[3].outcome],
      0 + rs[0].points + rs[1].points + rs[2].points + rs[3].points,
      maxPoints)
  {
    PrefixStep(rs, 0);
    PrefixStep(rs, 1);
    PrefixStep(rs, 2);
    PrefixStep(rs, 3);
    assert rs[..4] == rs;
  }

  lemma OutcomesAppend(a: seq<Scored>, b: seq<Scored>)
    ensures Outcomes(a + b) == Outcomes(a) + Outcomes(b)
  {
  }

  /** Rules that all failed outright add up to nothing. */
  lemma {:induction false} EarnedNothing(rs: seq<Scored>)
    requires forall k :: 0 <= k < |rs| ==> !rs[k].outcome.passed && rs[k].points == 0
    ensures Earned(rs) == 0
    decreases |rs|
  {
    if rs != [] {
      var init := rs[..|rs| - 1];
      assert forall k :: 0 <= k < |init| ==> init[k] == rs[k];
      EarnedNothing(init);
    }
  }

  /** Sound rules of one common weight `w` are sound together and weigh `w` each. */
  lemma {:induction false} UniformBudget(rs: seq<Scored>, w: nat)
    requires forall k :: 0 <= k < |rs| ==> Sound(rs[k]) && rs[k].weight == w
    ensures AllSound(rs) && Budget(rs) == w * |rs|
    decreases |rs|
  {
    if rs != [] {
      var init := rs[..|rs| - 1];
      assert forall k :: 0 <= k < |init| ==> init[k] == rs[k];
      UniformBudget(init, w);
    }
  }
}
