# Query-cost estimation core of shiba, in Dafny

shiba is a linter that reads MySQL's `EXPLAIN FORMAT=JSON` plan for a statement
and estimates how many rows the statement will read. This project models the
core of that estimate:

- **Plan normaliser** (`Plan`): `Explain.transform_json` / `transform_table`.
  They turn the JSON `query_block` into a flat list of steps. Ordering and
  duplicate-removal wrappers are stripped. A planner bypass becomes one message
  step. A lone `table` becomes a one-element join list.
- **Cost estimator** (`Explain`): `estimate_row_count`. This is the policy
  cascade over the first step:
  - a bypass message costs 0;
  - a simple single-table scan costs its LIMIT literal, or else the table count;
  - a leading `<derived…>` step is dropped and the cascade runs again;
  - a `fuzzed_data` note is added when the statistics were fuzzed;
  - a chosen key is looked up in the statistics;
  - a step with neither a key nor candidate keys costs the table count;
  - a step with candidate keys but no chosen key triggers forced-key retries.
  
  A forced-key retry is a new `Explain` built with `force_key` set
  (`estimate_row_count_with_key`). It rewrites the statement with a FORCE INDEX
  hint and runs EXPLAIN again. A retry that fails because the key does not
  exist gives no answer.
- **SQL text tests** (`SqlText`): the regular expressions of
  `simple_table_scan?`, the LIMIT literal, the FORCE INDEX rewrite and the
  "key doesn't exist" error test. The two that extract something from the
  statement (`LimitLiteral`, `HintPoint`) are explicit scans that take the
  leftmost match. The boolean tests (`HasWhere`, `HasTrivialWhere`,
  `HasOrderBy`, `KeyMissingMessage`) are existential predicates: some position
  matches, as `=~` asks.
- **Statistics resolver** (`TableStats`): `TableStats#ask_each` asks the
  manual, dump and fuzzed sources in that order. The first answer that is not
  nil wins.

Everything outside the process is a parameter, held in `Explain.Env`:
- `explain` is the EXPLAIN round trip. It maps a statement to its parsed query
  block or to the message of the database error it raised.
- `stats` is the resolver, built from three sources given as functions.
- `isFuzzed` is the fuzzed-statistics test.

Ruby's nil is `Option.None`. A raised exception is a `Result.Err`.
`Scenarios` works the estimator through concrete statements and plans.

The tests of the cascade are predicates, one per Ruby test, and are used by the
members below rather than stated on their own:

| predicate | source | holds when |
|---|---|---|
| `Explain.IgnoreExplain` | lib/shiba/explain.rb:87-101 | the step has an `Extra` and it contains one of the five ignore phrases |
| `Explain.Derived` | lib/shiba/explain.rb:103-105 | the step's table name contains `<derived`, then characters on one line, then `>` |
| `Explain.SimpleTableScan` | lib/shiba/explain.rb:108-110 | the plan has one step and the statement has no WHERE (or has `WHERE 1=1`) and no ORDER BY |
| `SqlText.KeyMissingMessage` | lib/shiba/explain.rb:165 | the message contains `Key `, at least one character on one line, then ` doesn't exist in table` |

## Model

| member | source | states |
|---|---|---|
| Plan.TransformTable | lib/shiba/explain.rb:21-35 | The step copies the table name, access type, key and rows examined per scan. It carries `used_key_parts` exactly as the entry has it. It carries `possible_keys` if and only if the entry has a list that is not `[key]`, and then carries that list unchanged. It carries `using_index` if and only if the entry's flag is true. |
| Plan.PossibleKeysRecoverable | lib/shiba/explain.rb:30-32 | Dropping `possible_keys` loses nothing. When the entry had a list, the candidates read back from the step (its list, or else its key alone) are that list. |
| Plan.UnkeyedKeepsPossibleKeys | lib/shiba/explain.rb:26-32 | For an entry with no chosen key, the step's `possible_keys` is the entry's, verbatim. An absent list stays absent and an empty list stays empty. |
| Plan.Unwrap | lib/shiba/explain.rb:40-43 | Peeling wrappers (ordering first, then duplicate removal) ends at a node that has neither wrapper. |
| Plan.TransformJson | lib/shiba/explain.rb:37-53 | The result depends only on the node left after unwrapping. A bypass node (no `nested_loop`, no `table`) gives exactly one message step carrying the node's message. Otherwise there is one step per join entry, in join order, each being that entry's `TransformTable`. |
| Plan.WrappersAreTransparent | lib/shiba/explain.rb:40-43 | An ordering or duplicate-removal node normalises exactly as the child it wraps. The ordering wrapper is tested first. |
| Plan.StepsAreUniform | lib/shiba/explain.rb:44-52 | A normalised plan is either a single message step or consists of table steps only, none of which has an `Extra`. |
| TableStats.AskEach | lib/shiba/table_stats.rb:22-28 | The answer is nil if and only if every source answers nil. Otherwise it is the answer of the first source that answers, whatever later sources say. |
| TableStats.TableCount | lib/shiba/table_stats.rb:17-28 | A non-nil manual count is returned, even if the dump or the fuzzed source disagrees. If manual is nil, a non-nil dump count is returned. If both are nil, the fuzzed count is returned. The result is nil exactly when all three are nil. A 0 stops the search like any other answer. |
| TableStats.EstimateKey | lib/shiba/table_stats.rb:13-15 | The same priority order, with each source asked about the same table, key and key parts. |
| TableStats.ManualAnswerShadows | lib/shiba/table_stats.rb:23-25 | Once the manual source answers, replacing the dump and fuzzed sources by any others does not change the table count. |
| SqlText.LimitLiteral | lib/shiba/explain.rb:116-117 | The result is nil if and only if `/limit\s*(\d+)/i` matches nowhere. Otherwise it is the decimal value of the maximal digit run after the leftmost match of `limit` and its spaces. |
| SqlText.LimitLiteralIs | lib/shiba/explain.rb:116-117 | The leftmost `limit` that is followed by digits determines the literal. |
| SqlText.DecimalRoundTrip | lib/shiba/explain.rb:117 | Reading the digits of `n` with the `to_i` model gives back `n`. |
| SqlText.HintPoint | lib/shiba/explain.rb:10 | The result is nil if and only if `/FROM\s*\S+/i` matches nowhere. Otherwise it is the end of the leftmost match, just after the `FROM`, its spaces and the following non-space token. |
| SqlText.ForceIndex | lib/shiba/explain.rb:9-11 | Without a match the statement is unchanged. Otherwise `` FORCE INDEX(`key`)`` is inserted at the hint point: the text before it and the text after it are the original text. |
| SqlText.HintPointPreserved | lib/shiba/explain.rb:10 | After the rewrite, the first `FROM <token>` of the statement is still the same one, and it still ends at the same place. |
| Explain.MinPresent | lib/shiba/explain.rb:157 | `compact.min`: nil if and only if every value is nil. Otherwise it is one of the values and no larger than any non-nil value. |
| Explain.NewExplain | lib/shiba/explain.rb:6-19 | The statement used is rewritten with the hint exactly when a key is forced. An estimate with a forced key never reports `possible_key_check`. |
| Explain.EstimateRowCount | lib/shiba/explain.rb:112-160 | An empty plan raises. A successful estimate leaves a non-empty suffix of the plan: only leading steps are ever dropped. Its diagnostics are `fuzzed_data` then `possible_key_check`, each at most once. With a forced key, `possible_key_check` never appears, and the only possible failure is the empty plan. |
| Explain.RetryEach | lib/shiba/explain.rb:153-156 | The candidates are retried in order by the given retry. On success there is one answer per key, each that key's retry result. On failure, the error is the first raising key's, and every earlier key answered. |
| Explain.EstimateRowCountWithKey | lib/shiba/explain.rb:162-170 | If EXPLAIN of the forced statement fails, the retry answers nil exactly when the message says the key does not exist, and otherwise raises that error. If EXPLAIN succeeds, the retry answers the cost of the single forced estimate that the new Explain's constructor ran (the second `estimate_row_count` changes nothing). If that estimate found an empty plan, the retry raises that failure. |
| Explain.BypassCostsNothing | lib/shiba/explain.rb:87-101 | If the first step's `Extra` contains an ignore phrase, the cost is 0 with no diagnostics. The result is the same under any other statistics and database. |
| Explain.SimpleScanTakesLimit | lib/shiba/explain.rb:108-118 | A one-step plan whose statement has no WHERE (or WHERE 1=1) and no ORDER BY costs its LIMIT literal. The result is the same under any other statistics. |
| Explain.SimpleScanTakesTableCount | lib/shiba/explain.rb:115-120 | The same scan without a LIMIT literal costs the resolver's table count, with no diagnostics. |
| Explain.DerivedStepDropped | lib/shiba/explain.rb:123-127 | A leading `<derived…>` step that is not caught earlier is removed. The estimate is then that of the shorter plan, with the simple-scan test applied again. |
| Explain.KeyedLookup | lib/shiba/explain.rb:133-136 | With a chosen key, the cost is the resolver's estimate for (table, key, used key parts), and only `fuzzed_data` may be reported. |
| Explain.UnkeyedFullScan | lib/shiba/explain.rb:138-141 | With no key and no `possible_keys`, the cost is the table count. |
| Explain.ForcedRetryFallsBack | lib/shiba/explain.rb:143-150 | Inside a forced-key retry, candidates without a chosen key cost the table count and report no `possible_key_check`. |
| Explain.PossibleKeyCheckTakesMinimum | lib/shiba/explain.rb:152-157 | Outside a retry, when every retry answers, `possible_key_check` is appended after any `fuzzed_data`. The cost is the least non-nil value among the table count and the retry answers: it is no larger than any of them and equal to one of them. |
| Explain.PossibleKeyCheckRaises | lib/shiba/explain.rb:152-156 | Outside a retry, a retry that raises makes the whole estimate raise the same error. |
| Explain.RetryEachCons | lib/shiba/explain.rb:153-156 | A key whose retry answers contributes its answer ahead of the answers for the remaining keys. |
| Explain.ForcedEstimateRunsNoExplain | lib/shiba/explain.rb:143-150 | A forced-key estimate gives the same result whatever the database would answer to EXPLAIN. It never starts another retry, so retries stop at depth one. |
| Explain.EstimateIsStable | lib/shiba/explain.rb:123-127 | Estimating again on the plan a successful estimate leaves behind yields the same estimate. |
| Scenarios.PrimaryKeyLookup | lib/shiba/explain.rb:133-136 | `SELECT * FROM users WHERE id=5` with a `const` PRIMARY step costs the resolver's estimate for (users, PRIMARY, nil). |
| Scenarios.ImpossibleWhere | lib/shiba/explain.rb:87-101 | A plan whose message is `Impossible WHERE` costs 0 with no diagnostics. |
| Scenarios.WholeTableScan | lib/shiba/explain.rb:108-120 | `SELECT * FROM orders` on a one-step plan costs the table count (4200 in the example). |
| Scenarios.LimitedTableScan | lib/shiba/explain.rb:108-118 | `SELECT * FROM orders LIMIT 10` on a one-step plan costs 10, whatever the statistics say. |
| Scenarios.LimitTen | lib/shiba/explain.rb:116-117 | The LIMIT literal of `SELECT * FROM orders LIMIT 10` is 10. |
| Scenarios.ForceIndexExample | lib/shiba/explain.rb:10 | Forcing `idx_a` on `SELECT * FROM users WHERE id=5` inserts the hint after `users`. |
| Scenarios.AmbiguousKeyRetry | lib/shiba/explain.rb:152-170 | Candidates `idx_a` and `idx_b`, table count 1000: the `idx_a` retry answers 50 and `idx_b` does not exist. The cost is 50 and `possible_key_check` is reported. |
| Scenarios.KeyMissingFor | lib/shiba/explain.rb:165 | Every message `Key <name> doesn't exist in table…`, for a non-empty name on one line, is a missing-key message. |
| Scenarios.OtherErrorRaised | lib/shiba/explain.rb:164-169 | A retry whose EXPLAIN fails with `Lock wait timeout exceeded` raises that error instead of answering nil. |
| Scenarios.AmbiguousKeyRetryRaises | lib/shiba/explain.rb:152-169 | With the same two candidates, a lock timeout on the `idx_b` retry makes the whole estimate raise that error. |

## Left out

- `lib/shiba.rb` (configuration files, MySQL option files, the process-wide
  connection, the temporary directory) is not part of this model. It is all
  I/O and global state.
- The EXPLAIN query and `JSON.parse` in `Explain#initialize`
  (explain.rb:14-15) are replaced by `Env.explain`, which hands back an
  already-parsed query block or the error message.
- `Shiba::Index`, `Shiba::IndexStats` and `Shiba::Fuzzer` are not part of
  this model. `Index.count` and `Index.estimate_key` are taken to forward to
  the resolver's `table_count` and `estimate_key`. `Index.fuzzed?` is the
  opaque `Env.isFuzzed`. The three sources are arbitrary functions, and
  `TableStats#initialize`, which builds them from the dump, the manual file
  and a live fuzzing run, is left out.
- `to_log`, `to_h`, the `filtered` field and the trivial readers `first`,
  `first_table`, `first_key`, `first_extra` are not modelled separately: the
  readers are `Step`'s accessor functions.
- The JSON tree is typed. A `nested_loop` entry without a `table` object
  (Ruby raises NoMethodError), and non-boolean truthy values of
  `using_index`, cannot be expressed.
- The diagnostics that a retry's own Explain object accumulates are not
  modelled: Ruby discards them.
- SqlText: the `/i` matches fold ASCII letters only. Ruby's Unicode case
  folding of other characters is not modelled.
- SqlText.ForceIndex: the key is inserted literally. Ruby's `sub` would
  interpret backslash sequences such as `\0` inside the key name, which is
  not modelled.
