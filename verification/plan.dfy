/**
 * The plan normaliser: MySQL's `EXPLAIN FORMAT=JSON` query block, flattened
 * into the ordered list of access steps the cost estimator walks.
 * Lines refer to lib/shiba/explain.rb.
 */
module Plan {
  import opened Wrappers

  /** The `table` object of one join entry, with the fields the normaliser reads
      (an absent or null field is None). */
  datatype TableEntry = TableEntry(
    tableName: Option<string>,
    accessType: Option<string>,
    key: Option<string>,
    usedKeyParts: Option<seq<string>>,
    rowsExaminedPerScan: Option<nat>,
    possibleKeys: Option<seq<string>>,
    usingIndex: Option<bool>)

  /** A `query_block`, or the body of an `ordering_operation` or
      `duplicates_removal` wrapper inside one. */
  datatype QueryBlock = QueryBlock(
    orderingOperation: Option<QueryBlock>,
    duplicatesRemoval: Option<QueryBlock>,
    nestedLoop: Option<seq<TableEntry>>,
    table: Option<TableEntry>,
    message: Option<string>)

  /** One normalised step: a table access, or the planner's message when it
      bypassed table access altogether. */
  datatype Step =
    | TableStep(
        table: Option<string>,
        accessType: Option<string>,
        key: Option<string>,
        usedKeyParts: Option<seq<string>>,
        rows: Option<nat>,
        possibleKeys: Option<seq<string>>,
        usingIndex: Option<bool>)
    | MessageStep(extra: Option<string>)
  {
    /** `step['table']`: nil on a message step. */
    function Table(): Option<string> {
      if TableStep? then table else None
    }

    /** `step['key']`. */
    function Key(): Option<string> {
      if TableStep? then key else None
    }

    /** `step['used_key_parts']`. */
    function UsedKeyParts(): Option<seq<string>> {
      if TableStep? then usedKeyParts else None
    }

    /** `step['possible_keys']`. */
    function PossibleKeys(): Option<seq<string>> {
      if TableStep? then possibleKeys else None
    }

    /** `step['Extra']`: nil on a table step. */
    function Extra(): Option<string> {
      if MessageStep? then extra else None
    }
  }

  /** One join entry as a step (transform_table). `used_key_parts` and
      `using_index` are copied only when truthy; `possible_keys` only when it
      says more than the chosen key. */
  function TransformTable(e: TableEntry): (s: Step)
    ensures s.TableStep? && s.Extra().None?
    ensures s.table == e.tableName && s.accessType == e.accessType
    ensures s.key == e.key && s.rows == e.rowsExaminedPerScan
    ensures s.usedKeyParts == e.usedKeyParts
    ensures s.possibleKeys.Some? <==> e.possibleKeys.Some? && (e.key.None? || e.possibleKeys.value != [e.key.value])
    ensures s.possibleKeys.Some? ==> s.possibleKeys == e.possibleKeys
    ensures s.usingIndex.Some? <==> e.usingIndex == Some(true)
    ensures s.usingIndex.Some? ==> s.usingIndex.value
  {
    var keepPossible := e.possibleKeys.Some? && (e.key.None? || e.possibleKeys.value != [e.key.value]);
    TableStep(
      e.tableName,
      e.accessType,
      e.key,
      e.usedKeyParts,
      e.rowsExaminedPerScan,
      if keepPossible then e.possibleKeys else None,
      if e.usingIndex == Some(true) then Some(true) else None)
  }

  /** The candidate keys a step stands for: the list it carries, or else the
      chosen key alone. */
  function Candidates(s: Step): Option<seq<string>> {
    if s.PossibleKeys().Some? then s.PossibleKeys()
    else if s.Key().Some? then Some([s.Key().value])
    else None
  }

  /** Dropping `possible_keys` loses nothing: whenever the entry had a list, it
      can be read back from the step. */
  lemma PossibleKeysRecoverable(e: TableEntry)
    requires e.possibleKeys.Some?
    ensures Candidates(TransformTable(e)) == e.possibleKeys
  {
  }

  /** For a step without a chosen key, `possible_keys` is carried verbatim,
      absent and empty lists kept apart. */
  lemma UnkeyedKeepsPossibleKeys(e: TableEntry)
    requires e.key.None?
    ensures TransformTable(e).PossibleKeys() == e.possibleKeys
  {
  }

  /** The node left once ordering and duplicate-removal wrappers are peeled off,
      ordering first, as transform_json tests them. */
  function Unwrap(qb: QueryBlock): (c: QueryBlock)
    ensures c.orderingOperation.None? && c.duplicatesRemoval.None?
    decreases qb
  {
    if qb.orderingOperation.Some? then Unwrap(qb.orderingOperation.value)
    else if qb.duplicatesRemoval.Some? then Unwrap(qb.duplicatesRemoval.value)
    else qb
  }

  /** A node with neither a join list nor a table: the planner bypassed table access. */
  predicate IsBypass(c: QueryBlock) {
    c.nestedLoop.None? && c.table.None?
  }

  /** The join list of an unwrapped node; a lone `table` is a one-element list. */
  function JoinList(c: QueryBlock): seq<TableEntry>
    requires !IsBypass(c)
  {
    if c.nestedLoop.Some? then c.nestedLoop.value else [c.table.value]
  }

  /** transform_json: the steps of a query block, in join order. */
  function TransformJson(qb: QueryBlock): (r: seq<Step>)
    ensures IsBypass(Unwrap(qb)) ==> r == [MessageStep(Unwrap(qb).message)]
    ensures !IsBypass(Unwrap(qb)) ==>
      && |r| == |JoinList(Unwrap(qb))|
      && forall i :: 0 <= i < |r| ==> r[i] == TransformTable(JoinList(Unwrap(qb))[i])
    decreases qb
  {
    if qb.orderingOperation.Some? then TransformJson(qb.orderingOperation.value)
    else if qb.duplicatesRemoval.Some? then TransformJson(qb.duplicatesRemoval.value)
    else if qb.nestedLoop.None? && qb.table.None? then [MessageStep(qb.message)]
    else
      var entries := if qb.nestedLoop.None? then [qb.table.value] else qb.nestedLoop.value;
      seq(|entries|, i requires 0 <= i < |entries| => TransformTable(entries[i]))
  }

  /** A wrapper contributes nothing: its output is its child's. */
  lemma WrappersAreTransparent(qb: QueryBlock)
    requires qb.orderingOperation.Some? || qb.duplicatesRemoval.Some?
    ensures qb.orderingOperation.Some? ==> TransformJson(qb) == TransformJson(qb.orderingOperation.value)
    ensures qb.orderingOperation.None? ==> TransformJson(qb) == TransformJson(qb.duplicatesRemoval.value)
  {
  }

  /** Every output is either one message step, or only table steps whose
      `Extra` is nil. */
  lemma {:induction false} StepsAreUniform(qb: QueryBlock)
    ensures var r := TransformJson(qb);
      (|r| == 1 && r[0].MessageStep?) || forall i :: 0 <= i < |r| ==> r[i].TableStep? && r[i].Extra().None?
  {
  }
}
