# Monitoring-stack challenge grader, modelled in Dafny

The monitoring-stack challenge ships a grading script, `run.py`. The script reads the
learner's configuration files and grades each one out of a fixed number of points:

- the metrics collector's `prometheus.yml` (20);
- the alert router's `alertmanager.yml` (20);
- the dashboard server's data-source file (15);
- the dashboard definition `app-dashboard.json` (25);
- the alerting rules `alerts.yml` (20).

Every checker returns the triple `(checks, points, max_points)`, where `checks` lists
`(name, passed, detail)` in evaluation order. `check_all_configs` adds the five triples
up and computes a whole-number percentage. It reports the stack complete when that
percentage is 100. A sixth checker, for the instrumented web application, is defined in
the script but never run by it.

This project models those checkers and the aggregation. The checker modules follow the
script's own form:

- The checker methods append to `checks` and add to `points` block by block, with the
  script's loops: the scrape jobs, the panels and their targets, the alerts, and the
  line scan with its `continue` and `break`.
- Each method is proved equal to a declarative rubric: a list of evaluated rules, each
  carrying its outcome, the points it added and its weight.
- Bounds, budgets and the "full marks iff" facts are proved about the rubrics.

The string tests use Python's semantics, written out in module `Text`:

- `in` and `str.find`;
- `str.split` and its round trip with `join`;
- the negative slice `s[-n:]`;
- `str.strip`, `str.startswith`, and `str(n)` for counts.

The three comment heuristics are modelled exactly as written:

- the last 20 (or 5) characters before the first key;
- a global `"# X" not in content` test;
- the per-line scan of the alert checker.

Lemmas show where these heuristics miss a commented directive. Some consequences of the
code that the lemmas state:

- Two panels without queries under the default title `App Dashboard` score 7: 5 for valid
  JSON (run.py:184-185) plus 2 of partial title credit (run.py:221-222).
- The progress percentage is `int((total_points / max_total) * 100)`, which cuts the
  fraction off (run.py:348).
- Each checker keeps its own comment test: the 20-character window before the first
  `alertmanagers:` (run.py:70), the 5-character window before the first `datasources:`
  (run.py:140), a `"# X" not in content` test for the jobs, the data-source type and the
  instrumentation markers (run.py:81, 147, 273-301), and a line scan for the alerts
  (run.py:242-250).
- An alert that occurs only on comment lines fails with the detail `Commented out`, and
  one that does not occur at all with `Missing` (run.py:252-258).

Modules:

- `Wrappers` holds `Option`.
- `Text` holds the string operations.
- `Scoring` holds outcomes, rules, triples, sums and the shared pass/fail block.
- There is one module per checker: `PrometheusCheck`, `AlertmanagerCheck`,
  `DatasourceCheck`, `DashboardCheck`, `AlertsCheck` and `AppCheck`.
- `Runner` holds `check_all_configs`.

## Model

| member | source | states |
|---|---|---|
| Text.FirstIndexSpec | run.py:70 | `str.find` gives the first occurrence of the needle and reports none exactly when the needle does not occur |
| Text.SplitHead | run.py:70 | the first part of `split(key)` is the text before the first `key`; it never contains `key`; there is more than one part exactly when `key` occurs |
| Text.JoinSplit | run.py:242 | joining the parts of `split(sep)` with `sep` gives back the text |
| Text.TakeLast | run.py:70 | `s[-n:]` is a suffix of `s`, of length `min(n, len(s))` for n > 0, and all of `s` for n = 0 |
| Text.ContainsOnSomeLine | run.py:240-250 | a needle without a line break occurs in the text exactly when it occurs on one of `split('\n')`'s lines |
| Text.StrippedStartsWith | run.py:245-246 | `line.strip().startswith('#')` holds exactly when the line's first non-whitespace character is `#` |
| Text.NatToString | run.py:190 | `str(n)` is a non-empty string of decimal digits |
| Text.NatToStringValue | run.py:190 | reading back the digits of `str(n)` gives `n`, and there is no leading zero |
| Text.LStrip | run.py:245 | `lstrip()` drops a prefix made only of whitespace and keeps a suffix that does not start with whitespace |
| Text.RStrip | run.py:245 | `rstrip()` drops a suffix made only of whitespace and keeps a prefix that does not end with whitespace |
| Scoring.Binary | run.py:99-104 | a pass/fail rule is named as given, passes exactly when its condition holds, and adds its whole weight when it passes and 0 when it fails |
| Scoring.Record | run.py:99-104 | one pass/fail block appends the named check with its pass or fail detail, and adds the weight exactly when the condition holds |
| Scoring.RubricTotals | run.py:337 | rules that add at most their weight, and all of it exactly when they pass, sum to at most their budget; they reach it exactly when every check passed |
| PrometheusCheck.ScrapeIntervalCredit | run.py:59-67 | the interval rule gives 4 exactly for `scrape_interval: 15s`, 2 exactly when the key has another value, and 0 exactly when the key is absent |
| PrometheusCheck.AlertmanagerRule | run.py:69-74 | the alert-routing rule weighs 4 and passes exactly when `alertmanagers:` occurs and `# alertmanagers` is not among the last 20 characters before its first occurrence |
| PrometheusCheck.CommentedFirstAlertmanagersPasses | run.py:70 | `# alertmanagers:` as the first key passes, because the 20-character window before the key holds only `# ` |
| PrometheusCheck.JobRule | run.py:79-85 | a job's rule is named `Job: X`, weighs 4, and passes exactly when either quoting of `job_name: X` occurs and `# job_name: 'X'` occurs nowhere |
| PrometheusCheck.CommentedJobFails | run.py:81 | one commented single-quoted copy of a job fails that job, although the text then also contains the job's pattern |
| PrometheusCheck.JobRulesBudget | run.py:77-85 | the k-th job rule is the rule of the k-th job; each weighs 4, so three jobs weigh 12 |
| PrometheusCheck.CheckJobs | run.py:77-85 | the jobs loop appends one check per job in order and adds 4 per configured job |
| PrometheusCheck.Rubric | run.py:59-85 | five rules whose weights add up to 20 |
| PrometheusCheck.Grade | run.py:50-87 | the maximum is 20; points lie in 0..20 and reach 20 exactly when every check passed; a missing file gives the single failed check `prometheus.yml exists` and 0 points; otherwise there are five checks |
| PrometheusCheck.CheckPrometheusConfig | run.py:50-87 | the imperative checker returns the triple of `Grade` |
| PrometheusCheck.GradeText | run.py:59-87 | the checks are interval, alert routing, then the three jobs in order; the points are the sum of theirs |
| PrometheusCheck.FullCreditWithoutComments | run.py:59-87 | a text without `#` that holds `scrape_interval: 15s`, `alertmanagers:` and every job's pattern earns 20 and passes every check |
| PrometheusCheck.FullCreditIff | run.py:59-87 | 20 points exactly when `scrape_interval: 15s` occurs, the alert-routing block is not seen as commented out, and each of the three jobs is configured |
| PrometheusCheck.WrongIntervalOnly | run.py:63-65 | the text `scrape_interval: 30s` earns exactly 2 and fails all five checks |
| AlertmanagerCheck.KeyRule | run.py:99-125 | each rule weighs 5 and passes exactly when its key occurs anywhere |
| AlertmanagerCheck.Rubric | run.py:99-125 | four rules whose weights add up to 20 |
| AlertmanagerCheck.Grade | run.py:90-127 | the maximum is 20; the triple is well-formed; a missing file gives `alertmanager.yml exists` failed with 0 points; otherwise there are four checks |
| AlertmanagerCheck.CheckAlertmanagerConfig | run.py:90-127 | the imperative checker returns the triple of `Grade` |
| AlertmanagerCheck.GradeText | run.py:99-127 | the checks are route, receivers, grouping and inhibition, in order |
| AlertmanagerCheck.FullCreditIff | run.py:99-127 | 20 points exactly when `route:`, `receivers:`, `group_by:` and `inhibit_rules:` all occur |
| DatasourceCheck.DatasourcesRuleIffPresent | run.py:140-144 | the 5-character window cannot hold `# datasources`, so the rule passes (3 points) exactly when `datasources:` occurs, even commented |
| DatasourceCheck.CommentedTypeFails | run.py:147-151 | a `# type: prometheus` anywhere fails the type rule |
| DatasourceCheck.TypeRule | run.py:147-151 | the type rule weighs 4 and passes exactly when `type: prometheus` occurs and `# type: prometheus` does not |
| DatasourceCheck.UrlRule | run.py:154-158 | the URL rule weighs 4 and passes exactly when the URL occurs unquoted or double-quoted |
| DatasourceCheck.DefaultRule | run.py:161-165 | the default-flag rule weighs 4 and passes exactly when `isDefault: true` occurs |
| DatasourceCheck.Rubric | run.py:139-165 | four rules whose weights add up to 15 |
| DatasourceCheck.Grade | run.py:130-167 | the maximum is 15; the triple is well-formed; a missing file gives `datasource config exists` failed with 0 points; otherwise there are four checks |
| DatasourceCheck.CheckGrafanaDatasource | run.py:130-167 | the imperative checker returns the triple of `Grade` |
| DatasourceCheck.GradeText | run.py:139-167 | the checks are list, type, URL and default flag, in order |
| DatasourceCheck.FullCreditIff | run.py:139-165 | 15 points exactly when `datasources:` occurs, the type is set and never commented, the URL is given in either quoting, and `isDefault: true` occurs |
| DashboardCheck.TargetExprs | run.py:200-201 | one expression per target |
| DashboardCheck.TargetExprsAt | run.py:200-201 | the k-th expression is the k-th target's `expr`, or `''` when it has none |
| DashboardCheck.ValidRule | run.py:184-185 | a parsed file always passes `Valid JSON` for 5 points |
| DashboardCheck.PanelsRule | run.py:188-193 | the panel rule weighs 5 and passes exactly when there are at least four panels |
| DashboardCheck.QueryRule | run.py:206-215 | the query rule weighs 10 and adds 10, 5 or 0, passing only with 10 |
| DashboardCheck.TitleRule | run.py:218-223 | the title rule weighs 5 and passes exactly for a present, non-empty title other than `App Dashboard`; it adds 5 for such a title and 2 of partial credit otherwise |
| DashboardCheck.Rubric | run.py:184-223 | four rules whose weights add up to 25 |
| DashboardCheck.InvalidJson | run.py:179-182 | an unparsable file gives the single failed check `Valid JSON` and 0 of 25 points |
| DashboardCheck.Grade | run.py:170-224 | the maximum is 25; the triple is well-formed; a missing file gives `dashboard.json exists` failed; a parse failure gives the `InvalidJson` triple; a parsed file gives four checks |
| DashboardCheck.ScanQueries | run.py:196-204 | the nested panel and target loop counts the placeholder expressions and flags whether any expression is a real query |
| DashboardCheck.CheckDashboard | run.py:170-224 | the imperative checker returns the triple of `Grade` |
| DashboardCheck.GradeDashboard | run.py:184-224 | the checks are valid JSON, panel count, queries and title, in order |
| DashboardCheck.HasRealQueryIff | run.py:196-204 | the real-query flag is set exactly when some expression is non-empty and free of `REPLACE_WITH` |
| DashboardCheck.PlaceholderCountBounds | run.py:196-204 | the placeholder count is at most the number of expressions, and 0 exactly when no expression holds `REPLACE_WITH` |
| DashboardCheck.QueryRuleCases | run.py:206-215 | 10 points exactly when a real query exists and no placeholder; 0 exactly when no query is real; 5 exactly when both a real query and a placeholder exist |
| DashboardCheck.ValidAtLeastSeven | run.py:184-223 | a parsed dashboard earns at least 7 points |
| DashboardCheck.SkeletonScoresSeven | run.py:184-223 | fewer than four panels, no targets and no custom title score exactly 7 |
| DashboardCheck.TwoEmptyPanelsScoreSeven | run.py:184-223 | two panels without targets under the title `App Dashboard` score 7 |
| DashboardCheck.FullCreditIff | run.py:184-223 | 25 points exactly when there are at least four panels, a custom title, some real query, and no placeholder |
| AlertsCheck.AlertRule | run.py:238-258 | each alert's rule weighs 5; it adds 5 when it passes and nothing when it fails |
| AlertsCheck.AlertRules | run.py:237-258 | the k-th rule is the rule of the k-th alert; every rule keeps the pass-iff-full-weight property, and the rules weigh 5 per alert |
| AlertsCheck.Rubric | run.py:237-258 | four rules whose weights add up to 20 |
| AlertsCheck.Grade | run.py:227-260 | the maximum is 20; the triple is well-formed; a missing file gives `alerts.yml exists` failed; otherwise there are four checks |
| AlertsCheck.FindLiveLine | run.py:242-250 | the line scan, skipping comment lines and stopping at the first match, finds a line exactly when some non-comment line holds the alert |
| AlertsCheck.CheckAlerts | run.py:227-260 | the imperative checker returns the triple of `Grade` |
| AlertsCheck.AlertRuleCases | run.py:240-258 | an alert passes exactly when a non-comment line defines it; `Commented out` exactly when it occurs only on comment lines; `Missing` exactly when it occurs on no line |
| AlertsCheck.CommentedAlertReported | run.py:240-256 | a file whose only line is `# alert: HighErrorRate` fails that alert with `Commented out` and 0 of 5 |
| AlertsCheck.FullCreditIff | run.py:237-258 | 20 points exactly when each of the four alerts is defined on a non-comment line |
| AppCheck.MarkerRule | run.py:273-305 | each rule weighs 4 and passes exactly when its marker occurs and its commented form occurs nowhere |
| AppCheck.CommentedCopyFails | run.py:280-301 | for the four markers whose commented form is `# M` (all but the import), a `# M` anywhere fails marker M, although the file then also contains M |
| AppCheck.CommentedFormsFail | run.py:273-305 | each of the five rules fails with 0 points as soon as its commented form occurs anywhere, for the import the shorter `# from prometheus_client` |
| AppCheck.Rubric | run.py:272-305 | five rules whose weights add up to 20 |
| AppCheck.Grade | run.py:263-307 | the maximum is 20; the triple is well-formed; a missing file gives `app.py exists` failed; otherwise there are five checks |
| AppCheck.CheckAppInstrumentation | run.py:263-307 | the imperative checker returns the triple of `Grade` |
| AppCheck.GradeText | run.py:272-307 | the checks are import, counter, histogram, endpoint and `generate_latest`, in order |
| AppCheck.FullCreditIff | run.py:272-305 | 20 points exactly when all five markers occur and none of their commented forms does |
| Runner.Report | run.py:320-330 | the i-th checker's triple carries the maximum the table lists for it and is well-formed |
| Runner.Reports | run.py:320-334 | the five triples in table order; each is well-formed with the maximum its table row lists, so the maxima the checkers return add up to 100 |
| Runner.RunConfigCheck | run.py:328-330 | running the i-th table entry returns that checker's triple |
| Runner.CheckAllConfigs | run.py:317-365 | the loop collects the five triples in order and sums points and maxima; the percentage is `Percent` of the sums; the result is `percentage == 100` |
| Runner.PercentBounds | run.py:348 | for 0 <= total <= max and max > 0, the truncated percentage lies in 0..100 and is 100 exactly when total == max |
| Runner.TotalsFullIff | run.py:333-334 | triples within their maxima sum to at most the sum of the maxima, and reach it exactly when each reaches its own |
| Runner.TableIsHundred | run.py:320-326 | the maxima listed in the checker table add up to 100 |
| Runner.CompleteIff | run.py:348-365 | the run reports completion exactly when the total is 100, that is when every checker earned its maximum and every check passed; the percentage always lies in 0..100 |

## Left out

- Reading the files (`load_file_content`): each checker takes the file's content or
  `None` for a missing file. Other read errors propagate in the script and are not
  modelled.
- Parsing JSON (`json.loads`): the dashboard checker takes the parse outcome. A
  document that parses but is not an object is not modelled. Titles are taken to be
  strings.
- DashboardCheck.Grade: the data model admits only lists of panel objects, lists of
  target objects and string (or absent) expressions. The script also accepts other JSON
  shapes, which the model does not capture: `"panels": null` or `"targets": null` raise
  a `TypeError` (run.py:189, 200); panels given as an object or a string are counted by
  their keys or characters and then fail at `.get`; a panel or target that is not an
  object raises an `AttributeError` (run.py:199, 201); an `expr` of `null` raises a
  `TypeError` (run.py:202), and a list `expr` is tested by list membership.
- Runner.CheckAllConfigs: the script computes the percentage in floating point,
  `int((total / max) * 100)`. The model uses the integer `(total * 100) / max`. These
  differ for some totals: 29 of 100 gives 28 in floating point. Both give 100 exactly
  when total equals max, so completion is unaffected.
- Colours, the per-check printout, the progress bar and the closing messages of
  `check_all_configs`. The triples it prints are returned as `reports`.
- `start_stack`, `stop_stack` and `main`: process calls and argument parsing.
- The instrumented web application (`app/app.py`, `solutions/app.py`) is not part of
  this model. Only the checker that grades it is modelled.
- The checker table's own maximum column is not read by the script, and the model
  does not read it either. `Runner.TableIsHundred` states its sum.
