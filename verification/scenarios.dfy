/**
 * Worked examples of the estimator on concrete statements and plans.
 */
module Scenarios {
  import opened Wrappers
  import opened SqlText
  import opened Plan
  import opened TableStats
  import opened Explain

  /** No `w` in the statement: no WHERE clause. */
  lemma NoWhereWithoutW(sql: string)
    requires forall i :: 0 <= i < |sql| ==> sql[i] != 'w' && sql[i] != 'W'
    ensures !HasWhere(sql)
  {
    forall i: nat | i <= |sql| ensures !MatchCiAt(sql, i, "where") {
      if i + 5 <= |sql| {
        assert Fold(sql[i + 0]) != "where"[0];
      }
    }
  }

  /** No `b` in the statement: no ORDER BY clause. */
  lemma NoOrderByWithoutB(sql: string)
    requires forall i :: 0 <= i < |sql| ==> sql[i] != 'b' && sql[i] != 'B'
    ensures !HasOrderBy(sql)
  {
    forall i: nat | i <= |sql| ensures !MatchCiAt(sql, i, "order by") {
      if i + 8 <= |sql| {
        assert Fold(sql[i + 6]) != "order by"[6];
      }
    }
  }

  /** No `1` in the statement: no `WHERE 1=1`. */
  lemma NoTrivialWhereWithoutOne(sql: string)
    requires forall i :: 0 <= i < |sql| ==> sql[i] != '1'
    ensures !HasTrivialWhere(sql)
  {
    forall i: nat | i <= |sql| ensures !TrivialWhereAt(sql, i) {
      if MatchCiAt(sql, i, "where") {
        var j := Span(sql, i + 5, IsSpace);
        if j + 3 <= |sql| {
          assert sql[j..j + 3][0] == sql[j];
        }
      }
    }
  }

  /** No digit in the statement: no LIMIT literal. */
  lemma NoLimitWithoutDigits(sql: string)
    requires forall i :: 0 <= i < |sql| ==> !IsDigit(sql[i])
    ensures LimitLiteral(sql).None?
  {
  }

  /** The statement of the primary-key example. */
  const UsersById := "SELECT * FROM users WHERE id=5"

  /** Its WHERE clause is a real one, so it is no simple scan. */
  lemma UsersByIdHasWhere()
    ensures HasWhere(UsersById) && !HasTrivialWhere(UsersById)
  {
    assert MatchCiAt(UsersById, 20, "where");
    NoTrivialWhereWithoutOne(UsersById);
  }

  /** A table named `users` is no derived table. */
  lemma UsersIsNotDerived(step: Step)
    requires step.Table() == Some("users")
    ensures !Derived(step)
  {
    var t := "users";
    forall i: nat, j: nat | i <= j < |t| ensures !DerivedAt(t, i, j) {
      assert t[j] in t;
    }
  }

  /** A primary-key lookup is costed by the statistics for that key. */
  lemma PrimaryKeyLookup(env: Env)
    ensures var rows := [TableStep(Some("users"), Some("const"), Some("PRIMARY"), None, Some(1), None, None)];
      EstimateRowCount(rows, UsersById, None, env) ==
        Ok(Estimate(EstimateKey(env.stats, Some("users"), "PRIMARY", None), FuzzNote(env, rows[0]), rows))
  {
    var rows := [TableStep(Some("users"), Some("const"), Some("PRIMARY"), None, Some(1), None, None)];
    UsersByIdHasWhere();
    UsersIsNotDerived(rows[0]);
    assert ReachesLookup(rows, UsersById);
    KeyedLookup(rows, UsersById, None, env);
  }

  /** An impossible WHERE costs nothing and leaves no diagnostics. */
  lemma ImpossibleWhere(sql: string, forceKey: Option<string>, env: Env)
    ensures EstimateRowCount([MessageStep(Some("Impossible WHERE"))], sql, forceKey, env) ==
      Ok(Estimate(Some(0), [], [MessageStep(Some("Impossible WHERE"))]))
  {
    var m := "Impossible WHERE";
    assert m[0..|m|] == m;
    assert IgnorePatterns[2] == m && IgnorePatterns[2] in IgnorePatterns;
    assert MatchAt(m, 0, IgnorePatterns[2]);
    assert Contains(m, IgnorePatterns[2]);
    assert IgnoreExplain(MessageStep(Some(m)));
    BypassCostsNothing([MessageStep(Some(m))], sql, forceKey, env, env);
  }

  /** The statement of the whole-table example. */
  const AllOrders := "SELECT * FROM orders"

  /** It has neither WHERE nor ORDER BY nor a LIMIT literal. */
  lemma AllOrdersIsSimple()
    ensures !HasWhere(AllOrders) && !HasOrderBy(AllOrders) && LimitLiteral(AllOrders).None?
  {
    NoWhereWithoutW(AllOrders);
    NoOrderByWithoutB(AllOrders);
    NoLimitWithoutDigits(AllOrders);
  }

  /** A whole-table scan costs the table's row count. */
  lemma WholeTableScan(env: Env, step: Step)
    requires step.Extra().None?
    requires TableCount(env.stats, step.Table()) == Some(4200)
    ensures EstimateRowCount([step], AllOrders, None, env) == Ok(Estimate(Some(4200), [], [step]))
  {
    AllOrdersIsSimple();
    SimpleScanTakesTableCount([step], AllOrders, None, env);
  }

  /** No `i` among the first `n + 1` characters: no `limit` starts before `n`. */
  lemma NoLimitBefore(sql: string, n: nat)
    requires n < |sql| && forall j :: 0 <= j <= n ==> sql[j] != 'i' && sql[j] != 'I'
    ensures forall j :: 0 <= j < n ==> !LimitAt(sql, j)
  {
    forall j | 0 <= j < n ensures !MatchCiAt(sql, j, "limit") {
      assert Fold(sql[j + 1]) != "limit"[1];
    }
  }

  /** The statement of the LIMIT example. */
  const OrdersLimit := "SELECT * FROM orders LIMIT 10"

  /** Its first `limit` followed by digits starts at 21. */
  lemma OrdersFirstLimit()
    ensures FirstLimitAt(OrdersLimit, 21) && LimitDigits(OrdersLimit, 21) == 27
  {
    var sql := OrdersLimit;
    assert MatchCiAt(sql, 21, "limit");
    SpanStops(sql, 26, IsSpace, 27);
    assert LimitAt(sql, 21);
    NoLimitBefore(sql, 21);
  }

  /** The LIMIT literal of a concrete statement. */
  lemma LimitTen()
    ensures LimitLiteral(OrdersLimit) == Some(10)
  {
    var sql := OrdersLimit;
    OrdersFirstLimit();
    SpanStops(sql, 27, IsDigit, 29);
    assert LimitDigitsEnd(sql, 21) == 29;
    assert sql[27..29] == DecimalString(10);
    DecimalRoundTrip(10);
    LimitLiteralIs(sql, 21);
  }

  /** The LIMIT example has neither WHERE nor ORDER BY. */
  lemma OrdersLimitIsSimple()
    ensures !HasWhere(OrdersLimit) && !HasOrderBy(OrdersLimit)
  {
    NoWhereWithoutW(OrdersLimit);
    NoOrderByWithoutB(OrdersLimit);
  }

  /** A whole-table scan with LIMIT costs the limit, whatever the table holds. */
  lemma LimitedTableScan(env: Env, step: Step)
    requires step.Extra().None?
    ensures EstimateRowCount([step], OrdersLimit, None, env) == Ok(Estimate(Some(10), [], [step]))
  {
    OrdersLimitIsSimple();
    LimitTen();
    SimpleScanTakesLimit([step], OrdersLimit, None, env, env, 10);
  }

  /** The statement of the forced-key example, in two parts: up to the table
      name, and the rest. */
  const UsersFrom := "SELECT * FROM users"
  const UsersWhere := " WHERE id=5"

  /** The first `FROM <token>` of the example statement is `FROM users`. */
  lemma UsersHintPoint()
    ensures HintPoint(UsersFrom + UsersWhere) == Some(|UsersFrom|)
  {
    var sql := UsersFrom + UsersWhere;
    UsersFromMatch();
    UsersNoEarlierFrom();
    HintPointIs(sql, 9);
  }

  /** `FROM users` matches at 9 and ends where `UsersFrom` ends. */
  lemma UsersFromMatch()
    ensures FromAt(UsersFrom + UsersWhere, 9) && FromEnd(UsersFrom + UsersWhere, 9) == 19
  {
    var sql := UsersFrom + UsersWhere;
    assert sql[9] == 'F' && sql[10] == 'R' && sql[11] == 'O' && sql[12] == 'M';
    assert MatchCiAt(sql, 9, "from");
    SpanStops(sql, 13, IsSpace, 14);
    assert forall m :: 14 <= m < 19 ==> sql[m] == UsersFrom[m];
    SpanStops(sql, 14, NotSpace, 19);
  }

  /** No `from` starts within `SELECT * `. */
  lemma UsersNoEarlierFrom()
    ensures forall j :: 0 <= j < 9 ==> !FromAt(UsersFrom + UsersWhere, j)
  {
    var sql := UsersFrom + UsersWhere;
    forall j | 0 <= j < 9 ensures !MatchCiAt(sql, j, "from") {
      assert sql[j] == UsersFrom[j];
      assert Fold(sql[j + 0]) != "from"[0];
    }
  }

  /** The hint goes after the table name that follows FROM. */
  lemma ForceIndexExample()
    ensures ForceIndex(UsersFrom + UsersWhere, "idx_a") == UsersFrom + Hint("idx_a") + UsersWhere
  {
    var sql := UsersFrom + UsersWhere;
    UsersHintPoint();
    ForceIndexSplices(sql, "idx_a", 19);
    assert sql[..19] == UsersFrom && sql[19..] == UsersWhere;
  }

  /** Any "Key <name> doesn't exist in table ..." message, for a name on one
      line, is the message of a missing key. */
  lemma KeyMissingFor(name: string, rest: string)
    requires |name| > 0 && forall i :: 0 <= i < |name| ==> name[i] != '\n'
    ensures KeyMissingMessage("Key " + name + " doesn't exist in table" + rest)
  {
    var msg := "Key " + name + " doesn't exist in table" + rest;
    var j := 4 + |name|;
    assert msg[0..4] == "Key ";
    assert msg[j..j + 23] == " doesn't exist in table";
    assert forall m :: 4 <= m < j ==> msg[m] == name[m - 4];
    assert KeyMissingAt(msg, 0, j);
  }

  /** The database's answer when the forced key does not exist. */
  const MissingIdxB := "Key " + "'idx_b'" + " doesn't exist in table" + " 'users'"

  lemma MissingIdxBIsKeyMissing()
    ensures KeyMissingMessage(MissingIdxB)
  {
    KeyMissingFor("'idx_b'", " 'users'");
  }

  /** Retrying one key that answers. */
  lemma OneRetry(k: string, retry: string -> Result<Option<nat>, Failure>, x: Option<nat>)
    requires retry(k) == Ok(x)
    ensures RetryEach([k], retry) == Ok([x])
  {
    RetryEachCons(k, [], retry, x, []);
    assert [k] + [] == [k] && [x] + [] == [x];
  }

  /** Retrying two keys that both answer. */
  lemma TwoRetries(a: string, b: string, retry: string -> Result<Option<nat>, Failure>, x: Option<nat>, y: Option<nat>)
    requires retry(a) == Ok(x) && retry(b) == Ok(y)
    ensures RetryEach([a, b], retry) == Ok([x, y])
  {
    OneRetry(b, retry, y);
    assert [a, b] == [a] + [b];
    RetryEachCons(a, [b], retry, x, [y]);
    assert [x] + [y] == [x, y];
  }

  /** The two retries of the example: `idx_a` answers, `idx_b` has no answer. */
  lemma ExampleRetries(sql: string, env: Env)
    requires EstimateRowCountWithKey("idx_a", sql, env) == Ok(Some(50))
    requires env.explain(ForceIndex(sql, "idx_b")) == Failed(MissingIdxB)
    ensures RetryEach(["idx_a", "idx_b"], Retrier(sql, env)) == Ok([Some(50), None])
  {
    MissingIdxBIsKeyMissing();
    assert EstimateRowCountWithKey("idx_b", sql, env) == Ok(None);
    TwoRetries("idx_a", "idx_b", Retrier(sql, env), Some(50), None);
  }

  /** Two candidate keys without a chosen one: the retry with `idx_a` answers
      50, the retry with `idx_b` finds no such key, so the cost is 50 and the
      check is reported. */
  lemma AmbiguousKeyRetry(rows: seq<Step>, sql: string, env: Env)
    requires ReachesLookup(rows, sql) && rows[0].Key().None?
    requires rows[0].PossibleKeys() == Some(["idx_a", "idx_b"])
    requires TableCount(env.stats, rows[0].Table()) == Some(1000)
    requires EstimateRowCountWithKey("idx_a", sql, env) == Ok(Some(50))
    requires env.explain(ForceIndex(sql, "idx_b")) == Failed(MissingIdxB)
    ensures var r := EstimateRowCount(rows, sql, None, env);
      r.Ok? && r.value.cost == Some(50) && PossibleKeyCheck in r.value.messages
  {
    ExampleRetries(sql, env);
    PossibleKeyCheckTakesMinimum(rows, sql, env);
    ExampleMinimum();
  }

  /** The least answer among the table count and the two retries. */
  lemma ExampleMinimum()
    ensures MinPresent([Some(1000)] + [Some(50), None]) == Some(50)
  {
    var xs: seq<Option<nat>> := [Some(1000)] + [Some(50), None];
    assert xs == [Some(1000), Some(50), None];
    var m := MinPresent(xs);
    assert m.Some? && m.value <= 50 by {
      assert xs[1].Some?;
    }
    assert m != xs[0] && m != xs[2];
  }
  /** A database error unrelated to the forced key. */
  const LockTimeout := "Lock wait timeout exceeded"

  /** No capital `K` in the message: it does not say a key is missing. */
  lemma NoKeyMissingWithoutK(msg: string)
    requires forall i :: 0 <= i < |msg| ==> msg[i] != 'K'
    ensures !KeyMissingMessage(msg)
  {
    forall i: nat ensures !MatchAt(msg, i, "Key ") {
      if i + 4 <= |msg| {
        assert msg[i..i + 4][0] == msg[i] != 'K' == "Key "[0];
      }
    }
  }

  /** A retry whose EXPLAIN fails for any other reason raises that error. */
  lemma OtherErrorRaised(sql: string, env: Env)
    requires env.explain(ForceIndex(sql, "idx_b")) == Failed(LockTimeout)
    ensures EstimateRowCountWithKey("idx_b", sql, env) == Err(ExplainError(LockTimeout))
  {
    NoKeyMissingWithoutK(LockTimeout);
  }

  /** The example's candidates again, but the `idx_b` retry hits a lock
      timeout: the whole estimate raises that error. */
  lemma AmbiguousKeyRetryRaises(rows: seq<Step>, sql: string, env: Env)
    requires ReachesLookup(rows, sql) && rows[0].Key().None?
    requires rows[0].PossibleKeys() == Some(["idx_a", "idx_b"])
    requires EstimateRowCountWithKey("idx_a", sql, env) == Ok(Some(50))
    requires env.explain(ForceIndex(sql, "idx_b")) == Failed(LockTimeout)
    ensures EstimateRowCount(rows, sql, None, env) == Err(ExplainError(LockTimeout))
  {
    OtherErrorRaised(sql, env);
    var retries := RetryEach(["idx_a", "idx_b"], Retrier(sql, env));
    assert retries.Err?;
    PossibleKeyCheckRaises(rows, sql, env);
  }
}
