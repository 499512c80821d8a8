/** The backend as an oracle: remote tables of rows, and a fault schedule that
    decides, call by call, whether the backend rejects the call (`true`) or
    serves it (`false`, and every call once the schedule runs out). Only the
    four calls the modelled code makes exist: an upsert with a conflict key, a
    select of a whole table or of the rows updated after a time in ascending
    `updated_at` order, a one-row probe, and a `.single()` lookup. */
module Remote {
  import opened Rows
  import opened Store

  datatype RemoteState = RemoteState(tables: map<string, seq<Row>>, faults: seq<bool>)

  /** What a select asks for: the whole table, or `updated_at > since` in ascending order. */
  datatype Scope = Everything | UpdatedAfter(since: Time)

  function RowsOf(rs: RemoteState, name: string): seq<Row> {
    if name in rs.tables then rs.tables[name] else []
  }

  /** The next call is rejected. */
  predicate NextFails(faults: seq<bool>) {
    |faults| > 0 && faults[0]
  }

  /** Consume one entry of the fault schedule. */
  function Advance(rs: RemoteState): RemoteState {
    rs.(faults := if |rs.faults| > 0 then rs.faults[1..] else [])
  }

  /** The index of the remote row with key `k`, if any. */
  function IndexOfKey(rows: seq<Row>, key: seq<string>, k: seq<Value>, from: nat): (i: Option<nat>)
    requires from <= |rows|
    ensures i.Some? ==> from <= i.value < |rows| && HasKey(key, rows[i.value], k)
    ensures i.None? ==> forall j :: from <= j < |rows| ==> !HasKey(key, rows[j], k)
    decreases |rows| - from
  {
    if from == |rows| then None
    else if HasKey(key, rows[from], k) then Some(from)
    else IndexOfKey(rows, key, k, from + 1)
  }

  /** ON CONFLICT (key) DO UPDATE: merged over the matching row, or appended. */
  function MergeRow(rows: seq<Row>, key: seq<string>, r: Row): seq<Row> {
    match IndexOfKey(rows, key, KeyOf(key, r), 0)
    case Some(i) => rows[i := rows[i] + r]
    case None => rows + [r]
  }

  function MergeRows(rows: seq<Row>, key: seq<string>, batch: seq<Row>): seq<Row>
    decreases |batch|
  {
    if batch == [] then rows else MergeRows(MergeRow(rows, key, batch[0]), key, batch[1..])
  }

  /** One `upsert(batch, { onConflict })` call: all of the batch or nothing. */
  function UpsertCall(rs: RemoteState, name: string, batch: seq<Row>, key: seq<string>): (RemoteState, Outcome) {
    var next := Advance(rs);
    if NextFails(rs.faults) then (next, Fail(RemoteFailed(name)))
    else (next.(tables := next.tables[name := MergeRows(RowsOf(rs, name), key, batch)]), Pass)
  }

  predicate UpdatedAfterTime(r: Row, since: Time) {
    Get(r, "updated_at").Int? && Get(r, "updated_at").n > since
  }

  function UpdatedAtOf(r: Row): int {
    if Get(r, "updated_at").Int? then Get(r, "updated_at").n else 0
  }

  /** No row is newer than a row after it. */
  ghost predicate SortedByUpdatedAt(rows: seq<Row>) {
    forall i, j :: 0 <= i < j < |rows| ==> UpdatedAtOf(rows[i]) <= UpdatedAtOf(rows[j])
  }

  /** Insert `r` before the first row that is not older than it. */
  function InsertByUpdatedAt(r: Row, sorted: seq<Row>): (out: seq<Row>)
    requires SortedByUpdatedAt(sorted)
    ensures SortedByUpdatedAt(out)
    ensures multiset(out) == multiset(sorted) + multiset{r}
    ensures |out| == |sorted| + 1 && (out[0] == r || (sorted != [] && out[0] == sorted[0]))
    decreases |sorted|
  {
    if sorted == [] || UpdatedAtOf(r) <= UpdatedAtOf(sorted[0]) then
      InsertFront(r, sorted);
      [r] + sorted
    else
      var rest := InsertByUpdatedAt(r, sorted[1..]);
      InsertBehind(r, sorted, rest);
      [sorted[0]] + rest
  }

  lemma InsertFront(r: Row, sorted: seq<Row>)
    requires SortedByUpdatedAt(sorted) && (sorted == [] || UpdatedAtOf(r) <= UpdatedAtOf(sorted[0]))
    ensures SortedByUpdatedAt([r] + sorted)
  {
    HeadIsOldest(sorted);
    SortedCons(r, sorted);
  }

  /** Inserting behind the head: the head stays first, in front of the rest with `r` in it. */
  lemma InsertBehind(r: Row, sorted: seq<Row>, rest: seq<Row>)
    requires SortedByUpdatedAt(sorted) && sorted != [] && UpdatedAtOf(sorted[0]) < UpdatedAtOf(r)
    requires SortedByUpdatedAt(rest) && multiset(rest) == multiset(sorted[1..]) + multiset{r}
    ensures SortedByUpdatedAt([sorted[0]] + rest)
    ensures multiset([sorted[0]] + rest) == multiset(sorted) + multiset{r}
  {
    var tail := sorted[1..];
    assert sorted == [sorted[0]] + tail;
    HeadIsOldest(sorted);
    forall y | y in rest ensures UpdatedAtOf(sorted[0]) <= UpdatedAtOf(y) {
      assert y in multiset(tail) + multiset{r};
    }
    SortedCons(sorted[0], rest);
  }

  /** The first row of a sorted list is not newer than any of its rows. */
  lemma HeadIsOldest(sorted: seq<Row>)
    requires SortedByUpdatedAt(sorted)
    ensures sorted != [] ==> forall y :: y in sorted ==> UpdatedAtOf(sorted[0]) <= UpdatedAtOf(y)
  {
    forall y | y in sorted ensures UpdatedAtOf(sorted[0]) <= UpdatedAtOf(y) {
      var k :| 0 <= k < |sorted| && sorted[k] == y;
    }
  }

  /** A row not newer than any row of a sorted list can go in front of it. */
  lemma SortedCons(x: Row, rows: seq<Row>)
    requires SortedByUpdatedAt(rows)
    requires forall y :: y in rows ==> UpdatedAtOf(x) <= UpdatedAtOf(y)
    ensures SortedByUpdatedAt([x] + rows)
  {
    var out := [x] + rows;
    forall i, j | 0 <= i < j < |out| ensures UpdatedAtOf(out[i]) <= UpdatedAtOf(out[j]) {
      assert out[j] == rows[j - 1];
      if i > 0 {
        assert out[i] == rows[i - 1];
      }
    }
  }

  /** `.order('updated_at', { ascending: true })`: a stable ascending sort. */
  function SortByUpdatedAt(rows: seq<Row>): (out: seq<Row>)
    ensures SortedByUpdatedAt(out)
    ensures multiset(out) == multiset(rows)
    decreases |rows|
  {
    if rows == [] then []
    else
      assert rows == [rows[0]] + rows[1..];
      InsertByUpdatedAt(rows[0], SortByUpdatedAt(rows[1..]))
  }

  /** The rows a select returns. */
  function Answer(rows: seq<Row>, f: Scope): seq<Row> {
    match f
    case Everything => rows
    case UpdatedAfter(since) => SortByUpdatedAt(Filter(rows, (r: Row) => UpdatedAfterTime(r, since)))
  }

  function SelectCall(rs: RemoteState, name: string, f: Scope): (RemoteState, Result<seq<Row>>) {
    var next := Advance(rs);
    if NextFails(rs.faults) then (next, Err(RemoteFailed(name)))
    else (next, Ok(Answer(RowsOf(rs, name), f)))
  }

  /** `select('id').limit(1)`: at most the first row (only its presence matters). */
  function ProbeCall(rs: RemoteState, name: string): (RemoteState, Result<seq<Row>>) {
    var next := Advance(rs);
    var rows := RowsOf(rs, name);
    if NextFails(rs.faults) then (next, Err(RemoteFailed(name)))
    else (next, Ok(if rows == [] then [] else [rows[0]]))
  }

  /** `select('*').eq(column, v).single()`: an error unless exactly one row matches. */
  function SingleCall(rs: RemoteState, name: string, column: string, v: Value): (RemoteState, Result<Row>) {
    var next := Advance(rs);
    var found := Matching(RowsOf(rs, name), column, v);
    if NextFails(rs.faults) || |found| != 1 then (next, Err(if NextFails(rs.faults) then RemoteFailed(name) else NotSingle(name)))
    else (next, Ok(found[0]))
  }

  /** An incremental pull returns exactly the remote rows updated after `since`,
      each of them as often as it is stored, oldest first. */
  lemma IncrementalAnswer(rows: seq<Row>, since: Time)
    ensures var a := Answer(rows, UpdatedAfter(since));
      && SortedByUpdatedAt(a)
      && multiset(a) == multiset(Filter(rows, (r: Row) => UpdatedAfterTime(r, since)))
      && (forall x :: x in a <==> x in rows && UpdatedAfterTime(x, since))
  {
    var f := (r: Row) => UpdatedAfterTime(r, since);
    var a := Answer(rows, UpdatedAfter(since));
    forall x ensures x in a <==> x in rows && UpdatedAfterTime(x, since) {
      assert x in a <==> x in multiset(a);
      assert x in Filter(rows, f) <==> x in multiset(Filter(rows, f));
      FilterMember(rows, f, x);
    }
  }

  /** The backend's tables and fault schedule, updated by each call. */
  class Backend {
    var state: RemoteState

    constructor (initial: RemoteState)
      ensures state == initial
    {
      state := initial;
    }

    method Upsert(name: string, batch: seq<Row>, key: seq<string>) returns (out: Outcome)
      modifies this
      ensures (state, out) == UpsertCall(old(state), name, batch, key)
    {
      var r := UpsertCall(state, name, batch, key);
      state, out := r.0, r.1;
    }

    method Select(name: string, f: Scope) returns (out: Result<seq<Row>>)
      modifies this
      ensures (state, out) == SelectCall(old(state), name, f)
    {
      var r := SelectCall(state, name, f);
      state, out := r.0, r.1;
    }

    method Probe(name: string) returns (out: Result<seq<Row>>)
      modifies this
      ensures (state, out) == ProbeCall(old(state), name)
    {
      var r := ProbeCall(state, name);
      state, out := r.0, r.1;
    }

    method SelectSingle(name: string, column: string, v: Value) returns (out: Result<Row>)
      modifies this
      ensures (state, out) == SingleCall(old(state), name, column, v)
    {
      var r := SingleCall(state, name, column, v);
      state, out := r.0, r.1;
    }
  }
}
