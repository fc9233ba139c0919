/**
 * The textual tests the cost estimator runs on the SQL statement, and the
 * FORCE INDEX rewrite used for forced-key retries. The two expressions that
 * extract something (the LIMIT literal and the FORCE INDEX hint point) are
 * explicit scans that take the leftmost match; the boolean tests are
 * predicates saying that some position matches, as `=~` asks.
 */
module SqlText {
  import opened Wrappers

  /** Ruby's `\s`: space, tab, line feed, vertical tab, form feed, carriage return. */
  predicate IsSpace(c: char) {
    c == ' ' || c == '\t' || c == '\n' || c == '\U{0B}' || c == '\U{0C}' || c == '\r'
  }

  predicate NotSpace(c: char) {
    !IsSpace(c)
  }

  /** Ruby's `\d`. */
  predicate IsDigit(c: char) {
    '0' <= c <= '9'
  }

  /** ASCII lower-casing: the part of `/i` matching that the model keeps. */
  function Fold(c: char): char {
    if 'A' <= c <= 'Z' then (c as int - 'A' as int + 'a' as int) as char else c
  }

  /** `p` occurs in `s` at position `i`, character for character. */
  predicate MatchAt(s: string, i: nat, p: string) {
    i + |p| <= |s| && s[i..i + |p|] == p
  }

  /** `p`, written in lower case, occurs in `s` at position `i` ignoring ASCII case. */
  predicate MatchCiAt(s: string, i: nat, p: string) {
    i + |p| <= |s| && forall k :: 0 <= k < |p| ==> Fold(s[i + k]) == p[k]
  }

  /** `s =~ /p/` for a pattern without metacharacters. */
  predicate Contains(s: string, p: string) {
    exists i: nat | i <= |s| :: MatchAt(s, i, p)
  }

  /** `s =~ /p/i` for a lower-case pattern without metacharacters. */
  predicate ContainsCi(s: string, p: string) {
    exists i: nat | i <= |s| :: MatchCiAt(s, i, p)
  }

  /** The end of the longest run of characters satisfying `ok` that starts at `j`. */
  function Span(s: string, j: nat, ok: char -> bool): (k: nat)
    requires j <= |s|
    ensures j <= k <= |s|
    ensures forall m :: j <= m < k ==> ok(s[m])
    ensures k < |s| ==> !ok(s[k])
    decreases |s| - j
  {
    if j == |s| || !ok(s[j]) then j else Span(s, j + 1, ok)
  }

  /** The leftmost position in `[from, n)` where `at` holds: how a regular
      expression picks its match. */
  function Leftmost(n: nat, from: nat, at: nat -> bool): (r: Option<nat>)
    requires from <= n
    ensures r.Some? ==> from <= r.value < n && at(r.value)
    ensures r.Some? ==> forall j :: from <= j < r.value ==> !at(j)
    ensures r.None? ==> forall j :: from <= j < n ==> !at(j)
    decreases n - from
  {
    if from == n then None
    else if at(from) then Some(from)
    else Leftmost(n, from + 1, at)
  }

  // ---------------------------------------------------------------------
  // WHERE / ORDER BY tests of simple_table_scan?

  /** `sql =~ /where/i`. */
  predicate HasWhere(sql: string) {
    ContainsCi(sql, "where")
  }

  /** `/where\s*1=1/i` matches at `i`. */
  predicate TrivialWhereAt(sql: string, i: nat) {
    MatchCiAt(sql, i, "where") && MatchAt(sql, Span(sql, i + 5, IsSpace), "1=1")
  }

  /** `sql =~ /where\s*1=1/i`. */
  predicate HasTrivialWhere(sql: string) {
    exists i: nat | i <= |sql| :: TrivialWhereAt(sql, i)
  }

  /** `sql =~ /order by/i`. */
  predicate HasOrderBy(sql: string) {
    ContainsCi(sql, "order by")
  }

  // ---------------------------------------------------------------------
  // The LIMIT literal: `sql =~ /limit\s*(\d+)/i` and `$1.to_i`

  /** The position of the first digit after `limit` and its spaces, at `i`. */
  function LimitDigits(sql: string, i: nat): nat
    requires MatchCiAt(sql, i, "limit")
  {
    Span(sql, i + 5, IsSpace)
  }

  /** `/limit\s*(\d+)/i` matches at `i`. */
  predicate LimitAt(sql: string, i: nat) {
    MatchCiAt(sql, i, "limit") && LimitDigits(sql, i) < |sql| && IsDigit(sql[LimitDigits(sql, i)])
  }

  /** The value of a string of decimal digits. */
  function DecimalValue(d: string): nat
    requires forall m :: 0 <= m < |d| ==> IsDigit(d[m])
  {
    if |d| == 0 then 0
    else
      assert IsDigit(d[|d| - 1]);
      10 * DecimalValue(d[..|d| - 1]) + (d[|d| - 1] as int - '0' as int)
  }

  /** The decimal spelling of `n`, the inverse of `DecimalValue`. */
  function DecimalString(n: nat): (d: string)
    ensures |d| >= 1
    ensures forall m :: 0 <= m < |d| ==> IsDigit(d[m])
  {
    var last := ['0' + (n % 10) as char];
    if n < 10 then last else DecimalString(n / 10) + last
  }

  /** The match at `i` is the leftmost match of `/limit\s*(\d+)/i`. */
  predicate FirstLimitAt(sql: string, i: nat) {
    i < |sql| && LimitAt(sql, i) && forall j :: 0 <= j < i ==> !LimitAt(sql, j)
  }

  /** The end of the digit run `(\d+)` captured by the match at `i`. */
  function LimitDigitsEnd(sql: string, i: nat): (k: nat)
    requires LimitAt(sql, i)
    ensures LimitDigits(sql, i) < k <= |sql|
    ensures forall m :: LimitDigits(sql, i) <= m < k ==> IsDigit(sql[m])
    ensures k == |sql| || !IsDigit(sql[k])
  {
    Span(sql, LimitDigits(sql, i), IsDigit)
  }

  /** `$1.to_i` for the match at `i`. */
  function LimitValueAt(sql: string, i: nat): nat
    requires LimitAt(sql, i)
  {
    DecimalValue(sql[LimitDigits(sql, i)..LimitDigitsEnd(sql, i)])
  }

  /** The integer literal after the leftmost `limit` that is followed by one,
      or None when the statement has none. */
  function LimitLiteral(sql: string): (r: Option<nat>)
    ensures r.None? <==> forall i :: 0 <= i < |sql| ==> !LimitAt(sql, i)
    ensures r.Some? ==> exists i :: FirstLimitAt(sql, i) && r.value == LimitValueAt(sql, i)
  {
    var at := (i: nat) => LimitAt(sql, i);
    match Leftmost(|sql|, 0, at)
    case None =>
      assert forall i :: 0 <= i < |sql| ==> !LimitAt(sql, i) by {
        forall i | 0 <= i < |sql| ensures !LimitAt(sql, i) { assert !at(i); }
      }
      None
    case Some(i) =>
      assert FirstLimitAt(sql, i) by {
        forall j | 0 <= j < i ensures !LimitAt(sql, j) { assert !at(j); }
      }
      Some(LimitValueAt(sql, i))
  }

  // ---------------------------------------------------------------------
  // The FORCE INDEX rewrite: `sql.sub(/(FROM\s*\S+)/i, '\1' + " FORCE INDEX(`key`)")`

  /** `/FROM\s*\S+/i` matches at `i`. */
  predicate FromAt(sql: string, i: nat) {
    MatchCiAt(sql, i, "from") && Span(sql, i + 4, IsSpace) < |sql|
  }

  /** The end of the match of `/FROM\s*\S+/i` that starts at `i`. */
  function FromEnd(sql: string, i: nat): (k: nat)
    requires FromAt(sql, i)
    ensures i + 4 < k <= |sql|
    ensures forall m :: i + 4 <= m < k ==> (m < Span(sql, i + 4, IsSpace) <==> IsSpace(sql[m]))
    ensures k == |sql| || IsSpace(sql[k])
  {
    Span(sql, Span(sql, i + 4, IsSpace), NotSpace)
  }

  /** The match at `i` is the leftmost match of `/FROM\s*\S+/i`. */
  predicate FirstFromAt(sql: string, i: nat) {
    i < |sql| && FromAt(sql, i) && forall j :: 0 <= j < i ==> !FromAt(sql, j)
  }

  /** Where the hint goes: just after the first `FROM` and the token that follows it. */
  function HintPoint(sql: string): (r: Option<nat>)
    ensures r.None? <==> forall i :: 0 <= i < |sql| ==> !FromAt(sql, i)
    ensures r.Some? ==> exists i :: FirstFromAt(sql, i) && r.value == FromEnd(sql, i)
  {
    var at := (i: nat) => FromAt(sql, i);
    match Leftmost(|sql|, 0, at)
    case None =>
      assert forall i :: 0 <= i < |sql| ==> !FromAt(sql, i) by {
        forall i | 0 <= i < |sql| ensures !FromAt(sql, i) { assert !at(i); }
      }
      None
    case Some(i) =>
      assert FirstFromAt(sql, i) by {
        forall j | 0 <= j < i ensures !FromAt(sql, j) { assert !at(j); }
      }
      Some(FromEnd(sql, i))
  }

  /** The index hint inserted for `key`. */
  function Hint(key: string): string {
    " FORCE INDEX(`" + key + "`)"
  }

  /** The statement with a FORCE INDEX hint for `key` inserted after its first
      `FROM <token>`; unchanged when it has no such clause. */
  function ForceIndex(sql: string, key: string): (r: string)
    ensures HintPoint(sql).None? ==> r == sql
    ensures HintPoint(sql).Some? ==>
      var k := HintPoint(sql).value;
      k <= |sql| && |r| == |sql| + |Hint(key)|
      && r[..k] == sql[..k] && r[k..k + |Hint(key)|] == Hint(key) && r[k + |Hint(key)|..] == sql[k..]
  {
    match HintPoint(sql)
    case None => sql
    case Some(k) => sql[..k] + Hint(key) + sql[k..]
  }

  // ---------------------------------------------------------------------
  // The error test of estimate_row_count_with_key: `/Key .+? doesn't exist in table/`

  /** `/Key .+? doesn't exist in table/` matches from `i`, with its lazy part ending at `j`. */
  predicate KeyMissingAt(msg: string, i: nat, j: nat) {
    && MatchAt(msg, i, "Key ")
    && i + 4 < j
    && MatchAt(msg, j, " doesn't exist in table")
    && forall m :: i + 4 <= m < j ==> msg[m] != '\n'
  }

  /** The database error says that the forced key does not exist on the table. */
  predicate KeyMissingMessage(msg: string) {
    exists i: nat, j: nat | i <= j <= |msg| :: KeyMissingAt(msg, i, j)
  }

  // ---------------------------------------------------------------------
  // Properties of the scans and of the rewrite

  /** `DecimalValue` reads back what `DecimalString` writes. */
  lemma {:induction false} DecimalRoundTrip(n: nat)
    ensures DecimalValue(DecimalString(n)) == n
  {
    var d := DecimalString(n);
    assert d[|d| - 1] as int - '0' as int == n % 10;
    if n >= 10 {
      assert d[..|d| - 1] == DecimalString(n / 10);
      DecimalRoundTrip(n / 10);
    }
  }

  /** A run is fixed by where it stops. */
  lemma SpanStops(s: string, j: nat, ok: char -> bool, k: nat)
    requires j <= k <= |s|
    requires forall m :: j <= m < k ==> ok(s[m])
    requires k == |s| || !ok(s[k])
    ensures Span(s, j, ok) == k
  {
  }

  /** The leftmost `FROM <token>` decides where the hint goes. */
  lemma HintPointIs(sql: string, i: nat)
    requires FirstFromAt(sql, i)
    ensures HintPoint(sql) == Some(FromEnd(sql, i))
  {
    var h := HintPoint(sql);
    assert h.Some?;
    var i': nat :| FirstFromAt(sql, i') && h.value == FromEnd(sql, i');
    assert FirstFromAt(sql, i');
  }

  /** `FROM` cannot match at two positions less than four apart. */
  lemma FromDoesNotOverlap(sql: string, i: nat, j: nat)
    requires j < i < j + 4
    ensures MatchCiAt(sql, j, "from") ==> !MatchCiAt(sql, i, "from")
  {
    var p := "from";
    if MatchCiAt(sql, j, p) {
      assert Fold(sql[j + (i - j)]) == p[i - j] != p[0];
    }
  }

  /** Two statements that agree below `k`, where the second has a space. */
  predicate AgreeBelow(sql: string, r: string, k: nat) {
    k < |r| && k <= |sql| && IsSpace(r[k]) && forall m :: 0 <= m < k ==> r[m] == sql[m]
  }

  /** A `FROM <token>` match ending at `k` survives in a statement that agrees
      up to `k` and has a space there. */
  lemma FromTransfers(sql: string, r: string, i: nat, k: nat)
    requires FromAt(sql, i) && FromEnd(sql, i) == k && AgreeBelow(sql, r, k)
    ensures FromAt(r, i) && FromEnd(r, i) == k
  {
    var j := Span(sql, i + 4, IsSpace);
    assert MatchCiAt(r, i, "from");
    SpanStops(r, i + 4, IsSpace, j);
    SpanStops(r, j, NotSpace, k);
  }

  /** No `FROM <token>` appears before the first one in a statement that agrees
      past it and keeps that first match. */
  lemma NoEarlierFrom(sql: string, r: string, i: nat, k: nat)
    requires FirstFromAt(sql, i) && i + 4 < k && AgreeBelow(sql, r, k) && FromAt(r, i)
    ensures forall j :: 0 <= j < i ==> !FromAt(r, j)
  {
    forall j | 0 <= j < i
      ensures !FromAt(r, j)
    {
      if j + 4 <= i {
        assert !FromAt(sql, j);
        assert !IsSpace(sql[i]) by {
          assert Fold(sql[i + 0]) == "from"[0];
        }
        assert Span(sql, j + 4, IsSpace) <= i;
        assert !MatchCiAt(sql, j, "from");
        assert !MatchCiAt(r, j, "from");
      } else {
        FromDoesNotOverlap(r, i, j);
      }
    }
  }

  /** The rewritten statement has its hint point where the original had it:
      the hint follows the same `FROM <token>`, which is still the first. */
  lemma HintPointPreserved(sql: string, key: string)
    requires HintPoint(sql).Some?
    ensures HintPoint(ForceIndex(sql, key)) == HintPoint(sql)
  {
    var k := HintPoint(sql).value;
    var i: nat :| FirstFromAt(sql, i) && k == FromEnd(sql, i);
    var r := ForceIndex(sql, key);
    assert AgreeBelow(sql, r, k) by {
      forall m | 0 <= m < k ensures r[m] == sql[m] {
        assert r[..k][m] == sql[..k][m];
      }
      assert r[k..k + |Hint(key)|][0] == Hint(key)[0];
    }
    FromTransfers(sql, r, i, k);
    NoEarlierFrom(sql, r, i, k);
    HintPointIs(r, i);
  }

  /** The rewrite splices the hint in at the hint point. */
  lemma ForceIndexSplices(sql: string, key: string, k: nat)
    requires HintPoint(sql) == Some(k)
    ensures k <= |sql| && ForceIndex(sql, key) == sql[..k] + Hint(key) + sql[k..]
  {
  }

  /** The leftmost LIMIT followed by digits decides the literal. */
  lemma LimitLiteralIs(sql: string, i: nat)
    requires FirstLimitAt(sql, i)
    ensures LimitLiteral(sql) == Some(LimitValueAt(sql, i))
  {
    var l := LimitLiteral(sql);
    assert l.Some?;
    var i': nat :| FirstLimitAt(sql, i') && l.value == LimitValueAt(sql, i');
    assert FirstLimitAt(sql, i');
  }
}
