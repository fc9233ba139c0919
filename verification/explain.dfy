/**
 * The cost estimator of lib/shiba/explain.rb: the policy cascade of
 * estimate_row_count over the first plan step, and the forced-key retries
 * that build a fresh Explain for each candidate key.
 *
 * Everything outside the process is a parameter held in `Env`: the EXPLAIN
 * round trip (already parsed into a query block), the statistics resolver and
 * the fuzzed-statistics test.
 */
module Explain {
  import opened Wrappers
  import opened SqlText
  import opened Plan
  import opened TableStats

  /** What one `EXPLAIN FORMAT=JSON <sql>` round trip yields: the parsed
      `query_block`, or the message of the Mysql2::Error it raised. */
  datatype ExplainResult = Explained(queryBlock: QueryBlock) | Failed(message: string)

  /** The collaborators of an estimate, fixed for an analysis session. */
  datatype Env = Env(
    stats: Resolver,
    isFuzzed: TableRef -> bool,
    explain: string -> ExplainResult)

  /** The exceptions an estimate can raise. `NoFirstStep` is the NoMethodError
      of reading a field of the first step when the plan is empty. */
  datatype Failure = NoFirstStep | ExplainError(message: string)

  /** The outcome of estimate_row_count: the cost (nil when the statistics had
      no answer), the diagnostics, and the plan as it stands afterwards, its
      first element being the step the cost was taken from. */
  datatype Estimate = Estimate(cost: Option<nat>, messages: seq<string>, rows: seq<Step>)

  /** A constructed Explain: the statement as rewritten, and its estimate. */
  datatype Analysis = Analysis(sql: string, estimate: Estimate)

  const FuzzedData := "fuzzed_data"
  const PossibleKeyCheck := "possible_key_check"

  /** IGNORE_PATTERNS: planner messages that mean no rows are read. */
  const IgnorePatterns: seq<string> := [
    "no matching row in const table",
    "No tables used",
    "Impossible WHERE",
    "Select tables optimized away",
    "No matching min/max row"
  ]

  /** ignore_explain? */
  predicate IgnoreExplain(first: Step) {
    first.Extra().Some? && exists p :: p in IgnorePatterns && Contains(first.Extra().value, p)
  }

  /** `/<derived.*?>/` matches at `i`, its lazy part ending at the `>` at `j`. */
  predicate DerivedAt(t: string, i: nat, j: nat) {
    && MatchAt(t, i, "<derived")
    && i + 8 <= j < |t|
    && t[j] == '>'
    && forall m :: i + 8 <= m < j ==> t[m] != '\n'
  }

  /** derived?: the first step reads a materialised subquery. */
  predicate Derived(first: Step) {
    first.Table().Some? &&
    var t := first.Table().value;
    exists i: nat, j: nat | i <= j < |t| :: DerivedAt(t, i, j)
  }

  /** simple_table_scan? */
  predicate SimpleTableScan(rows: seq<Step>, sql: string) {
    |rows| == 1 && (!HasWhere(sql) || HasTrivialWhere(sql)) && !HasOrderBy(sql)
  }

  /** The smallest of the answers that are not nil (`compact.min`). */
  function MinPresent(xs: seq<Option<nat>>): (r: Option<nat>)
    ensures r.None? <==> forall i :: 0 <= i < |xs| ==> xs[i].None?
    ensures r.Some? ==> exists i :: 0 <= i < |xs| && xs[i] == r
    ensures r.Some? ==> forall i :: 0 <= i < |xs| && xs[i].Some? ==> r.value <= xs[i].value
  {
    if |xs| == 0 then None
    else
      var rest := MinPresent(xs[1..]);
      assert forall i :: 1 <= i < |xs| ==> xs[i] == xs[1..][i - 1];
      if xs[0].None? then rest
      else if rest.None? || xs[0].value <= rest.value then xs[0]
      else rest
  }

  /** The diagnostics an estimate can carry, in the order they are added. */
  predicate KnownMessages(m: seq<string>) {
    m in [[], [FuzzedData], [PossibleKeyCheck], [FuzzedData, PossibleKeyCheck]]
  }

  /** `fuzzed_data` when the first step's table has fuzzed statistics. */
  function FuzzNote(env: Env, first: Step): seq<string> {
    if env.isFuzzed(first.Table()) then [FuzzedData] else []
  }

  /** Retries are allowed only from an estimate that is not itself forced. */
  function Depth(forceKey: Option<string>): nat {
    if forceKey.None? then 1 else 0
  }

  /** Explain.new(sql, stats, force_key: ...): rewrite the statement when a key
      is forced, run EXPLAIN on it, normalise the plan and estimate. */
  function NewExplain(sql: string, forceKey: Option<string>, env: Env): (r: Result<Analysis, Failure>)
    ensures r.Ok? ==> r.value.sql == if forceKey.Some? then ForceIndex(sql, forceKey.value) else sql
    ensures r.Ok? && forceKey.Some? ==> PossibleKeyCheck !in r.value.estimate.messages
    decreases Depth(forceKey), 2, 0, 0
  {
    var sql' := if forceKey.Some? then ForceIndex(sql, forceKey.value) else sql;
    match env.explain(sql')
    case Failed(msg) => Err(ExplainError(msg))
    case Explained(qb) =>
      match EstimateRowCount(TransformJson(qb), sql', forceKey, env)
      case Err(e) => Err(e)
      case Ok(est) => Ok(Analysis(sql', est))
  }

  /** estimate_row_count on the plan `rows` of the statement `sql`. */
  function EstimateRowCount(rows: seq<Step>, sql: string, forceKey: Option<string>, env: Env): (r: Result<Estimate, Failure>)
    ensures r.Ok? ==> 1 <= |r.value.rows| <= |rows| && r.value.rows == rows[|rows| - |r.value.rows|..]
    ensures r.Ok? ==> KnownMessages(r.value.messages)
    ensures r.Ok? && forceKey.Some? ==> PossibleKeyCheck !in r.value.messages
    ensures r == Err(NoFirstStep) <== |rows| == 0
    ensures r.Err? && forceKey.Some? ==> r == Err(NoFirstStep)
    decreases Depth(forceKey), 1, |rows|, 0
  {
    if |rows| == 0 then Err(NoFirstStep)
    else
      var first := rows[0];
      if IgnoreExplain(first) then Ok(Estimate(Some(0), [], rows))
      else if SimpleTableScan(rows, sql) then
        match LimitLiteral(sql)
        case Some(n) => Ok(Estimate(Some(n), [], rows))
        case None => Ok(Estimate(TableCount(env.stats, first.Table()), [], rows))
      else if Derived(first) then
        EstimateRowCount(rows[1..], sql, forceKey, env)
      else
        var notes := FuzzNote(env, first);
        if first.Key().Some? then
          Ok(Estimate(EstimateKey(env.stats, first.Table(), first.Key().value, first.UsedKeyParts()), notes, rows))
        else if first.PossibleKeys().None? || forceKey.Some? then
          Ok(Estimate(TableCount(env.stats, first.Table()), notes, rows))
        else
          match RetryEach(first.PossibleKeys().value, Retrier(sql, env))
          case Err(e) => Err(e)
          case Ok(answers) =>
            var count := TableCount(env.stats, first.Table());
            assert notes == [] ==> notes + [PossibleKeyCheck] == [PossibleKeyCheck];
            assert notes != [] ==> notes + [PossibleKeyCheck] == [FuzzedData, PossibleKeyCheck];
            Ok(Estimate(MinPresent([count] + answers), notes + [PossibleKeyCheck], rows))
  }

  /** The retries of the candidate keys, one after another, stopping at the
      first one that raises. */
  function RetryEach(keys: seq<string>, retry: string -> Result<Option<nat>, Failure>): (r: Result<seq<Option<nat>>, Failure>)
    ensures r.Ok? ==> |r.value| == |keys|
    ensures r.Ok? ==> forall i :: 0 <= i < |keys| ==> retry(keys[i]) == Ok(r.value[i])
    ensures r.Err? ==> exists i ::
      && 0 <= i < |keys|
      && retry(keys[i]) == Err(r.error)
      && forall j :: 0 <= j < i ==> retry(keys[j]).Ok?
  {
    if |keys| == 0 then Ok([])
    else
      match retry(keys[0])
      case Err(e) => Err(e)
      case Ok(a) =>
        match RetryEach(keys[1..], retry)
        case Err(e) =>
          assert forall i :: 1 <= i < |keys| ==> keys[i] == keys[1..][i - 1];
          Err(e)
        case Ok(rest) =>
          assert forall i :: 1 <= i < |keys| ==> keys[i] == keys[1..][i - 1];
          Ok([a] + rest)
  }

  /** The retry of one candidate key, as estimate_row_count calls it. */
  function Retrier(sql: string, env: Env): string -> Result<Option<nat>, Failure>
    decreases 1, 0, 0, 1
  {
    key => EstimateRowCountWithKey(key, sql, env)
  }

  /** The rescue of estimate_row_count_with_key: a database error saying the
      key does not exist is no answer; every other failure propagates. */
  function Rescue(r: Result<Option<nat>, Failure>): Result<Option<nat>, Failure>
  {
    match r
    case Err(ExplainError(msg)) => if KeyMissingMessage(msg) then Ok(None) else r
    case _ => r
  }

  /** estimate_row_count_with_key: a fresh Explain with `key` forced (whose
      constructor already estimates once), then estimate_row_count on it again.
      The answer is the cost of the one forced estimate, since the second run
      changes nothing; a database error saying the key does not exist is no
      answer, and every other error propagates. */
  function EstimateRowCountWithKey(key: string, sql: string, env: Env): (r: Result<Option<nat>, Failure>)
    ensures env.explain(ForceIndex(sql, key)).Failed? ==>
      var msg := env.explain(ForceIndex(sql, key)).message;
      && (r == Ok(None) <==> KeyMissingMessage(msg))
      && (!KeyMissingMessage(msg) ==> r == Err(ExplainError(msg)))
    ensures env.explain(ForceIndex(sql, key)).Explained? ==>
      var forced := ForceIndex(sql, key);
      var once := EstimateRowCount(TransformJson(env.explain(forced).queryBlock), forced, Some(key), env);
      && (once.Ok? ==> r == Ok(once.value.cost))
      && (once.Err? ==> r == Err(NoFirstStep))
    decreases 1, 0, 0, 0
  {
    ForcedReestimate(key, sql, env);
    Rescue(
      match NewExplain(sql, Some(key), env)
      case Err(e) => Err(e)
      case Ok(a) =>
        match EstimateRowCount(a.estimate.rows, a.sql, Some(key), env)
        case Err(e) => Err(e)
        case Ok(again) => Ok(again.cost))
  }

  // ---------------------------------------------------------------------
  // The policies of the cascade, one lemma each

  /** The cascade gets past its shortcuts on `rows`: the first step carries no
      bypass message, the statement is no simple scan, and the first step is
      not a derived table. */
  predicate ReachesLookup(rows: seq<Step>, sql: string) {
    |rows| > 0 && !IgnoreExplain(rows[0]) && !SimpleTableScan(rows, sql) && !Derived(rows[0])
  }

  /** A bypass message costs 0 and consults neither the statistics nor the database. */
  lemma BypassCostsNothing(rows: seq<Step>, sql: string, forceKey: Option<string>, env: Env, other: Env)
    requires |rows| > 0 && IgnoreExplain(rows[0])
    ensures EstimateRowCount(rows, sql, forceKey, env) == Ok(Estimate(Some(0), [], rows))
    ensures EstimateRowCount(rows, sql, forceKey, other) == EstimateRowCount(rows, sql, forceKey, env)
  {
  }

  /** A simple single-table scan with a LIMIT literal costs that literal,
      whatever the statistics say. */
  lemma SimpleScanTakesLimit(rows: seq<Step>, sql: string, forceKey: Option<string>, env: Env, other: Env, n: nat)
    requires |rows| == 1 && !IgnoreExplain(rows[0]) && SimpleTableScan(rows, sql)
    requires LimitLiteral(sql) == Some(n)
    ensures EstimateRowCount(rows, sql, forceKey, env) == Ok(Estimate(Some(n), [], rows))
    ensures EstimateRowCount(rows, sql, forceKey, other) == EstimateRowCount(rows, sql, forceKey, env)
  {
  }

  /** A simple single-table scan without LIMIT costs the table's row count. */
  lemma SimpleScanTakesTableCount(rows: seq<Step>, sql: string, forceKey: Option<string>, env: Env)
    requires |rows| == 1 && !IgnoreExplain(rows[0]) && SimpleTableScan(rows, sql)
    requires LimitLiteral(sql).None?
    ensures EstimateRowCount(rows, sql, forceKey, env) == Ok(Estimate(TableCount(env.stats, rows[0].Table()), [], rows))
  {
  }

  /** A leading derived step is dropped and the whole cascade, simple-scan test
      included, runs again on the rest. */
  lemma DerivedStepDropped(rows: seq<Step>, sql: string, forceKey: Option<string>, env: Env)
    requires |rows| > 0 && !IgnoreExplain(rows[0]) && !SimpleTableScan(rows, sql) && Derived(rows[0])
    ensures EstimateRowCount(rows, sql, forceKey, env) == EstimateRowCount(rows[1..], sql, forceKey, env)
  {
  }

  /** A chosen key is looked up in the statistics with the step's table and
      used key parts. */
  lemma KeyedLookup(rows: seq<Step>, sql: string, forceKey: Option<string>, env: Env)
    requires ReachesLookup(rows, sql) && rows[0].Key().Some?
    ensures EstimateRowCount(rows, sql, forceKey, env) ==
      Ok(Estimate(EstimateKey(env.stats, rows[0].Table(), rows[0].Key().value, rows[0].UsedKeyParts()),
                  FuzzNote(env, rows[0]), rows))
  {
  }

  /** No key and no candidates: a full scan, costing the table's row count. */
  lemma UnkeyedFullScan(rows: seq<Step>, sql: string, forceKey: Option<string>, env: Env)
    requires ReachesLookup(rows, sql) && rows[0].Key().None? && rows[0].PossibleKeys().None?
    ensures EstimateRowCount(rows, sql, forceKey, env) ==
      Ok(Estimate(TableCount(env.stats, rows[0].Table()), FuzzNote(env, rows[0]), rows))
  {
  }

  /** Inside a forced-key retry, candidates without a chosen key fall back to the
      table's row count and start no further retry. */
  lemma ForcedRetryFallsBack(rows: seq<Step>, sql: string, key: string, env: Env)
    requires ReachesLookup(rows, sql) && rows[0].Key().None? && rows[0].PossibleKeys().Some?
    ensures EstimateRowCount(rows, sql, Some(key), env) ==
      Ok(Estimate(TableCount(env.stats, rows[0].Table()), FuzzNote(env, rows[0]), rows))
  {
  }

  /** The least value among the table count and the retry answers is no larger
      than any of them, and is one of them. */
  lemma MinOfCountAndAnswers(count: Option<nat>, answers: seq<Option<nat>>)
    ensures var m := MinPresent([count] + answers);
      && (count.Some? ==> m.Some? && m.value <= count.value)
      && (forall i :: 0 <= i < |answers| && answers[i].Some? ==> m.Some? && m.value <= answers[i].value)
      && (m == count || exists i :: 0 <= i < |answers| && m == answers[i])
  {
    var all := [count] + answers;
    assert all[0] == count;
    assert forall i :: 0 <= i < |answers| ==> all[i + 1] == answers[i];
    var m := MinPresent(all);
    if m.Some? && m != count {
      var i :| 0 <= i < |all| && all[i] == m;
      assert answers[i - 1] == m;
    }
  }

  /** Candidates without a chosen key outside a retry: a retry that raises makes
      the estimate raise the same error. */
  lemma PossibleKeyCheckRaises(rows: seq<Step>, sql: string, env: Env)
    requires ReachesLookup(rows, sql) && rows[0].Key().None? && rows[0].PossibleKeys().Some?
    ensures var retries := RetryEach(rows[0].PossibleKeys().value, Retrier(sql, env));
      retries.Err? ==> EstimateRowCount(rows, sql, None, env) == Err(retries.error)
  {
  }

  /** Candidates without a chosen key outside a retry, all retries answering:
      `possible_key_check` is reported, and the cost is the least answer among
      the table count and the retries. */
  lemma PossibleKeyCheckTakesMinimum(rows: seq<Step>, sql: string, env: Env)
    requires ReachesLookup(rows, sql) && rows[0].Key().None? && rows[0].PossibleKeys().Some?
    ensures var retries := RetryEach(rows[0].PossibleKeys().value, Retrier(sql, env));
      var count := TableCount(env.stats, rows[0].Table());
      var r := EstimateRowCount(rows, sql, None, env);
      retries.Ok? ==>
        && r == Ok(Estimate(MinPresent([count] + retries.value), FuzzNote(env, rows[0]) + [PossibleKeyCheck], rows))
        && (count.Some? ==> r.value.cost.Some? && r.value.cost.value <= count.value)
        && (forall i :: 0 <= i < |retries.value| && retries.value[i].Some? ==>
              r.value.cost.Some? && r.value.cost.value <= retries.value[i].value)
        && (r.value.cost == count || exists i :: 0 <= i < |retries.value| && r.value.cost == retries.value[i])
  {
    var retries := RetryEach(rows[0].PossibleKeys().value, Retrier(sql, env));
    if retries.Ok? {
      MinOfCountAndAnswers(TableCount(env.stats, rows[0].Table()), retries.value);
    }
  }

  /** The retries go through the candidates in order: one that answers is
      followed by the retries of the rest. */
  lemma RetryEachCons(k: string, rest: seq<string>, retry: string -> Result<Option<nat>, Failure>,
                      x: Option<nat>, xs: seq<Option<nat>>)
    requires retry(k) == Ok(x)
    requires RetryEach(rest, retry) == Ok(xs)
    ensures RetryEach([k] + rest, retry) == Ok([x] + xs)
  {
    assert ([k] + rest)[0] == k && ([k] + rest)[1..] == rest;
  }

  // ---------------------------------------------------------------------
  // Termination of the retries, and the repeated estimate

  /** A forced-key estimate never runs EXPLAIN: whatever the database would
      answer, its result is the same, so retries stop at depth one. */
  lemma {:induction false} ForcedEstimateRunsNoExplain(rows: seq<Step>, sql: string, key: string, env: Env,
                                                      explain: string -> ExplainResult)
    ensures EstimateRowCount(rows, sql, Some(key), env.(explain := explain)) ==
            EstimateRowCount(rows, sql, Some(key), env)
    decreases |rows|
  {
    var env' := env.(explain := explain);
    assert env'.stats == env.stats && env'.isFuzzed == env.isFuzzed;
    if |rows| == 0 || IgnoreExplain(rows[0]) || SimpleTableScan(rows, sql) {
    } else if Derived(rows[0]) {
      ForcedEstimateRunsNoExplain(rows[1..], sql, key, env, explain);
    } else {
      assert FuzzNote(env', rows[0]) == FuzzNote(env, rows[0]);
    }
  }

  /** Estimating again on the plan an estimate leaves behind gives the same
      estimate: the dropped derived steps are gone and the cascade stops at the
      same step. */
  lemma {:induction false} EstimateIsStable(rows: seq<Step>, sql: string, forceKey: Option<string>, env: Env)
    requires EstimateRowCount(rows, sql, forceKey, env).Ok?
    ensures var e := EstimateRowCount(rows, sql, forceKey, env).value;
      EstimateRowCount(e.rows, sql, forceKey, env) == Ok(e)
    decreases Depth(forceKey), 1, |rows|, 1
  {
    if !IgnoreExplain(rows[0]) && !SimpleTableScan(rows, sql) && Derived(rows[0]) {
      EstimateIsStable(rows[1..], sql, forceKey, env);
    }
  }

  /** The second estimate that estimate_row_count_with_key runs on the forced
      plan finds the plan the first one left behind, and gives the same result. */
  lemma ForcedReestimate(key: string, sql: string, env: Env)
    ensures var forced := ForceIndex(sql, key);
      env.explain(forced).Explained? ==>
      var once := EstimateRowCount(TransformJson(env.explain(forced).queryBlock), forced, Some(key), env);
      once.Ok? ==> EstimateRowCount(once.value.rows, forced, Some(key), env) == once
    decreases 0, 2, 0, 0
  {
    var forced := ForceIndex(sql, key);
    if env.explain(forced).Explained? {
      var rows := TransformJson(env.explain(forced).queryBlock);
      if EstimateRowCount(rows, forced, Some(key), env).Ok? {
        EstimateIsStable(rows, forced, Some(key), env);
      }
    }
  }
}
