/**
 * The statistics resolver of lib/shiba/table_stats.rb: three sources asked in
 * a fixed order (manual overrides, the stats dump, the fuzzed database
 * statistics); the first answer that is not nil wins.
 */
module TableStats {
  import opened Wrappers

  /** A table name as the estimator passes it: nil for a step without a table. */
  type TableRef = Option<string>

  /** `used_key_parts` of a step, passed through to the sources untouched. */
  type KeyParts = Option<seq<string>>

  /** One statistics source; each answer is nil when the source has no data. */
  datatype Source = Source(
    tableCount: TableRef -> Option<nat>,
    estimateKey: (TableRef, string, KeyParts) -> Option<nat>)

  /** The two questions a resolver forwards, with their arguments. */
  datatype Query =
    | TableCountQuery(table: TableRef)
    | EstimateKeyQuery(table: TableRef, key: string, parts: KeyParts)

  /** `stat.send(method, *args)`. */
  function Ask(s: Source, q: Query): Option<nat> {
    match q
    case TableCountQuery(t) => s.tableCount(t)
    case EstimateKeyQuery(t, k, p) => s.estimateKey(t, k, p)
  }

  /** `sources[i]` answers `q` and no source before it does. */
  predicate FirstAnswerAt(sources: seq<Source>, q: Query, i: int) {
    && 0 <= i < |sources|
    && Ask(sources[i], q).Some?
    && forall j :: 0 <= j < i ==> Ask(sources[j], q).None?
  }

  /** ask_each: the first answer that is not nil, in the order of `sources`. */
  function AskEach(sources: seq<Source>, q: Query): (r: Option<nat>)
    ensures r.None? <==> forall i :: 0 <= i < |sources| ==> Ask(sources[i], q).None?
    ensures forall i :: FirstAnswerAt(sources, q, i) ==> r == Ask(sources[i], q)
  {
    if |sources| == 0 then None
    else
      var answer := Ask(sources[0], q);
      if answer.Some? then answer
      else
        var rest := AskEach(sources[1..], q);
        assert forall i :: 1 <= i < |sources| ==> sources[i] == sources[1..][i - 1];
        rest
  }

  /** The resolver, holding its sources under the names table_stats.rb uses. */
  datatype Resolver = Resolver(manual: Source, dump: Source, db: Source) {
    /** The fixed priority order. */
    function Sources(): seq<Source> {
      [manual, dump, db]
    }
  }

  /** table_count. */
  function TableCount(stats: Resolver, t: TableRef): (r: Option<nat>)
    ensures stats.manual.tableCount(t).Some? ==> r == stats.manual.tableCount(t)
    ensures stats.manual.tableCount(t).None? && stats.dump.tableCount(t).Some? ==> r == stats.dump.tableCount(t)
    ensures stats.manual.tableCount(t).None? && stats.dump.tableCount(t).None? ==> r == stats.db.tableCount(t)
    ensures r.None? <==>
      stats.manual.tableCount(t).None? && stats.dump.tableCount(t).None? && stats.db.tableCount(t).None?
  {
    var r := AskEach(stats.Sources(), TableCountQuery(t));
    assert Ask(stats.Sources()[0], TableCountQuery(t)) == stats.manual.tableCount(t);
    assert Ask(stats.Sources()[1], TableCountQuery(t)) == stats.dump.tableCount(t);
    assert Ask(stats.Sources()[2], TableCountQuery(t)) == stats.db.tableCount(t);
    r
  }

  /** estimate_key: the same order, with table, key and parts handed to each
      source unchanged. */
  function EstimateKey(stats: Resolver, t: TableRef, key: string, parts: KeyParts): (r: Option<nat>)
    ensures stats.manual.estimateKey(t, key, parts).Some? ==> r == stats.manual.estimateKey(t, key, parts)
    ensures stats.manual.estimateKey(t, key, parts).None? && stats.dump.estimateKey(t, key, parts).Some? ==>
      r == stats.dump.estimateKey(t, key, parts)
    ensures stats.manual.estimateKey(t, key, parts).None? && stats.dump.estimateKey(t, key, parts).None? ==>
      r == stats.db.estimateKey(t, key, parts)
    ensures r.None? <==>
      && stats.manual.estimateKey(t, key, parts).None?
      && stats.dump.estimateKey(t, key, parts).None?
      && stats.db.estimateKey(t, key, parts).None?
  {
    var q := EstimateKeyQuery(t, key, parts);
    var r := AskEach(stats.Sources(), q);
    assert Ask(stats.Sources()[0], q) == stats.manual.estimateKey(t, key, parts);
    assert Ask(stats.Sources()[1], q) == stats.dump.estimateKey(t, key, parts);
    assert Ask(stats.Sources()[2], q) == stats.db.estimateKey(t, key, parts);
    r
  }

  /** Only nil falls through: if the manual source answers, the other two
      sources are never looked at, whatever they hold. */
  lemma ManualAnswerShadows(stats: Resolver, dump: Source, db: Source, t: TableRef)
    requires stats.manual.tableCount(t).Some?
    ensures TableCount(stats.(dump := dump, db := db), t) == TableCount(stats, t)
  {
  }
}
