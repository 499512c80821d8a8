/** The on-device SQLite file as data. A table holds its declared columns, its
    primary key and its rows in rowid order; statements are map operations on
    these tables, interpreted by `Exec`, and reads are `Select`. */
module Store {
  import opened Rows

  /** The DEFAULT clause of a column. */
  datatype Default = NoDefault | Constant(value: Value) | CurrentTimestamp

  /** A declared column: its default, whether it is NOT NULL, and the text values
      a `CHECK(col IN (...))` admits, if it has one. */
  datatype ColumnSpec = ColumnSpec(default: Default, notNull: bool, allowed: Option<set<string>>)

  /** The shape a `CREATE TABLE` declares. */
  datatype TableDef = TableDef(name: string, columns: map<string, ColumnSpec>, key: seq<string>)

  datatype Table = Table(columns: map<string, ColumnSpec>, key: seq<string>, rows: seq<Row>)

  type Db = map<string, Table>

  datatype Statement =
    | CreateTable(def: TableDef)                                   // CREATE TABLE IF NOT EXISTS
    | AddColumn(table: string, column: string, spec: ColumnSpec)   // ALTER TABLE .. ADD COLUMN
    | InsertOrReplace(table: string, values: Row, now: Time)       // INSERT OR REPLACE; `now` is CURRENT_TIMESTAMP
    | UpdateWhere(table: string, column: string, value: Value, assignments: Row)  // UPDATE .. SET .. WHERE column = ?
    | DeleteWhere(table: string, column: string, value: Value)     // DELETE FROM .. WHERE column = ?

  datatype Query =
    | SelectAll(table: string)                                     // SELECT * FROM table
    | SelectWhere(table: string, column: string, value: Value)     // SELECT * FROM table WHERE column = ?

  function DefaultValue(spec: ColumnSpec, now: Time): Value {
    match spec.default
    case NoDefault => Null
    case Constant(v) => v
    case CurrentTimestamp => Int(now)
  }

  /** The column constraints hold of `v`. SQL CHECK passes on NULL. */
  predicate Admits(spec: ColumnSpec, v: Value) {
    && (spec.notNull ==> v != Null)
    && (spec.allowed.Some? && v != Null ==> v.Text? && v.text in spec.allowed.value)
  }

  predicate Admissible(columns: map<string, ColumnSpec>, row: Row) {
    forall c :: c in columns ==> c in row && Admits(columns[c], row[c])
  }

  /** The values of the key columns of `r`. */
  function KeyOf(key: seq<string>, r: Row): seq<Value> {
    seq(|key|, i requires 0 <= i < |key| => Get(r, key[i]))
  }

  /** `r` carries key value `k`. A key holding NULL never conflicts with any row. */
  predicate HasKey(key: seq<string>, r: Row, k: seq<Value>) {
    KeyOf(key, r) == k && Null !in k
  }

  function WithKey(rows: seq<Row>, key: seq<string>, k: seq<Value>): seq<Row> {
    Filter(rows, (r: Row) => HasKey(key, r, k))
  }

  function WithoutKey(rows: seq<Row>, key: seq<string>, k: seq<Value>): seq<Row> {
    Filter(rows, (r: Row) => !HasKey(key, r, k))
  }

  /** The rows a `WHERE column = v` selects. */
  function Matching(rows: seq<Row>, column: string, v: Value): seq<Row> {
    Filter(rows, (r: Row) => SqlEq(Get(r, column), v))
  }

  function NotMatching(rows: seq<Row>, column: string, v: Value): seq<Row> {
    Filter(rows, (r: Row) => !SqlEq(Get(r, column), v))
  }

  /** `column` of `r` is one of the non-NULL values `vals`. */
  predicate ColumnIn(r: Row, column: string, vals: set<Value>) {
    Get(r, column) != Null && Get(r, column) in vals
  }

  /** Every row whose `column` is among `vals` takes the `assignments`; the others stay. */
  function SetWhere(rows: seq<Row>, column: string, vals: set<Value>, assignments: Row): (r: seq<Row>)
    ensures |r| == |rows|
  {
    seq(|rows|, i requires 0 <= i < |rows| =>
      if ColumnIn(rows[i], column, vals) then rows[i] + assignments else rows[i])
  }

  /** An INSERT OR REPLACE on rows: conflicting rows go, the new one takes a fresh (last) rowid. */
  function ReplaceRow(rows: seq<Row>, key: seq<string>, row: Row): seq<Row> {
    WithoutKey(rows, key, KeyOf(key, row)) + [row]
  }

  /** The full row an INSERT stores: given values, defaults for the other columns. */
  function BuildRow(columns: map<string, ColumnSpec>, values: Row, now: Time): Row {
    map c | c in columns :: if c in values then values[c] else DefaultValue(columns[c], now)
  }

  function CreateIfAbsent(db: Db, def: TableDef): Db {
    if def.name in db then db else db[def.name := Table(def.columns, def.key, [])]
  }

  /** SQLite refuses ADD COLUMN for a NOT NULL column without a default and for a
      non-constant default. */
  predicate Addable(spec: ColumnSpec) {
    !spec.default.CurrentTimestamp? && !(spec.notNull && spec.default.NoDefault?)
  }

  function AddColumnTo(db: Db, name: string, column: string, spec: ColumnSpec): Result<Db> {
    if name !in db then Err(NoSuchTable(name))
    else if column in db[name].columns then Err(DuplicateColumn(name, column))
    else if !Addable(spec) then Err(BadColumnDefault(name, column))
    else
      var t := db[name];
      var v := DefaultValue(spec, 0);
      Ok(db[name := Table(t.columns[column := spec], t.key,
                          seq(|t.rows|, i requires 0 <= i < |t.rows| => t.rows[i][column := v]))])
  }

  /** The effect of one statement on the file, or the error it throws. */
  function Exec(db: Db, s: Statement): Result<Db> {
    match s
    case CreateTable(def) => Ok(CreateIfAbsent(db, def))
    case AddColumn(name, column, spec) => AddColumnTo(db, name, column, spec)
    case InsertOrReplace(name, values, now) =>
      if name !in db then Err(NoSuchTable(name))
      else
        var t := db[name];
        var row := BuildRow(t.columns, values, now);
        if !(values.Keys <= t.columns.Keys) then Err(NoSuchColumn(name))
        else if !Admissible(t.columns, row) then Err(ConstraintFailed(name))
        else Ok(db[name := t.(rows := ReplaceRow(t.rows, t.key, row))])
    case UpdateWhere(name, column, v, assignments) =>
      if name !in db then Err(NoSuchTable(name))
      else
        var t := db[name];
        if column !in t.columns || !(assignments.Keys <= t.columns.Keys) then Err(NoSuchColumn(name))
        else Ok(db[name := t.(rows := SetWhere(t.rows, column, {v}, assignments))])
    case DeleteWhere(name, column, v) =>
      if name !in db then Err(NoSuchTable(name))
      else if column !in db[name].columns then Err(NoSuchColumn(name))
      else Ok(db[name := db[name].(rows := NotMatching(db[name].rows, column, v))])
  }

  /** A statement run for its effect: the new file and Pass, or the old file and the error. */
  function Apply(db: Db, s: Statement): (Db, Outcome) {
    match Exec(db, s)
    case Ok(d) => (d, Pass)
    case Err(e) => (db, Fail(e))
  }

  /** The rows a query returns, in rowid order, or the error it throws. */
  function Select(db: Db, q: Query): Result<seq<Row>> {
    if q.table !in db then Err(NoSuchTable(q.table))
    else
      match q
      case SelectAll(_) => Ok(db[q.table].rows)
      case SelectWhere(name, column, v) =>
        if column !in db[name].columns then Err(NoSuchColumn(name))
        else Ok(Matching(db[name].rows, column, v))
  }

  // ---------------------------------------------------------------------------
  // What INSERT OR REPLACE, UPDATE, DELETE and SELECT .. WHERE do to rows

  /** After a replace, exactly one row carries the new row's key, and it is the new row. */
  lemma ReplaceLeavesOneRow(rows: seq<Row>, key: seq<string>, row: Row)
    requires Null !in KeyOf(key, row)
    ensures WithKey(ReplaceRow(rows, key, row), key, KeyOf(key, row)) == [row]
  {
    var k := KeyOf(key, row);
    FilterAppend(WithoutKey(rows, key, k), [row], (r: Row) => HasKey(key, r, k));
    FilterMember(rows, (r: Row) => !HasKey(key, r, k), row);
    forall x | x in WithoutKey(rows, key, k) ensures !HasKey(key, x, k) {
      FilterMember(rows, (r: Row) => !HasKey(key, r, k), x);
    }
    FilterNone(WithoutKey(rows, key, k), (r: Row) => HasKey(key, r, k));
    assert [row][1..] == [];
  }

  /** A replace leaves the rows of every other key as they were, in order. */
  lemma ReplaceKeepsOtherKeys(rows: seq<Row>, key: seq<string>, row: Row, k: seq<Value>)
    requires k != KeyOf(key, row)
    ensures WithKey(ReplaceRow(rows, key, row), key, k) == WithKey(rows, key, k)
  {
    var k0 := KeyOf(key, row);
    FilterAppend(WithoutKey(rows, key, k0), [row], (r: Row) => HasKey(key, r, k));
    FilterNarrow(rows, (r: Row) => !HasKey(key, r, k0), (r: Row) => HasKey(key, r, k));
    assert [row][1..] == [];
  }

  /** A replace keeps every row that does not carry the new key, in order. */
  lemma ReplaceKeepsOtherRows(rows: seq<Row>, key: seq<string>, row: Row)
    requires Null !in KeyOf(key, row)
    ensures WithoutKey(ReplaceRow(rows, key, row), key, KeyOf(key, row)) == WithoutKey(rows, key, KeyOf(key, row))
  {
    var k := KeyOf(key, row);
    FilterAppend(WithoutKey(rows, key, k), [row], (r: Row) => !HasKey(key, r, k));
    FilterNarrow(rows, (r: Row) => !HasKey(key, r, k), (r: Row) => !HasKey(key, r, k));
    assert [row][1..] == [];
  }

  /** Replacing twice with the same row is replacing once (a NULL key would insert twice). */
  lemma ReplaceIdempotent(rows: seq<Row>, key: seq<string>, row: Row)
    requires Null !in KeyOf(key, row)
    ensures ReplaceRow(ReplaceRow(rows, key, row), key, row) == ReplaceRow(rows, key, row)
  {
    var k := KeyOf(key, row);
    var keep := (r: Row) => !HasKey(key, r, k);
    FilterAppend(WithoutKey(rows, key, k), [row], keep);
    FilterNarrow(rows, keep, keep);
    assert [row][1..] == [];
    assert !keep(row);
  }

  /** An admissible INSERT OR REPLACE on an existing table replaces by key and passes. */
  lemma InsertOrReplaceAdmitted(db: Db, name: string, values: Row, now: Time)
    requires name in db && values.Keys <= db[name].columns.Keys
    requires Admissible(db[name].columns, BuildRow(db[name].columns, values, now))
    ensures Apply(db, InsertOrReplace(name, values, now))
         == (db[name := db[name].(rows := ReplaceRow(db[name].rows, db[name].key, BuildRow(db[name].columns, values, now)))], Pass)
  {
  }

  /** What a replace leaves: the new row alone under its key, present among the
      rows, and every other key's rows as they were. */
  lemma ReplaceSummary(rows: seq<Row>, key: seq<string>, row: Row)
    requires Null !in KeyOf(key, row)
    ensures WithKey(ReplaceRow(rows, key, row), key, KeyOf(key, row)) == [row]
    ensures row in ReplaceRow(rows, key, row)
    ensures forall k :: k != KeyOf(key, row) ==> WithKey(ReplaceRow(rows, key, row), key, k) == WithKey(rows, key, k)
  {
    ReplaceLeavesOneRow(rows, key, row);
    ReplaceKeepsEveryOtherKey(rows, key, row);
  }

  lemma ReplaceKeepsEveryOtherKey(rows: seq<Row>, key: seq<string>, row: Row)
    ensures forall k :: k != KeyOf(key, row) ==> WithKey(ReplaceRow(rows, key, row), key, k) == WithKey(rows, key, k)
  {
    forall k | k != KeyOf(key, row)
      ensures WithKey(ReplaceRow(rows, key, row), key, k) == WithKey(rows, key, k)
    {
      ReplaceKeepsOtherKeys(rows, key, row, k);
    }
  }

  /** When every given value names a column, the stored row has exactly the
      table's columns and holds each given value. */
  lemma BuildRowGiven(columns: map<string, ColumnSpec>, values: Row, now: Time)
    requires values.Keys <= columns.Keys
    ensures BuildRow(columns, values, now).Keys == columns.Keys
    ensures forall c :: c in values ==> BuildRow(columns, values, now)[c] == values[c]
  {
  }

  /** The row an INSERT stores holds each given value and the default of every other column. */
  lemma BuildRowValues(columns: map<string, ColumnSpec>, values: Row, now: Time, c: string)
    requires c in columns
    ensures c in BuildRow(columns, values, now)
    ensures BuildRow(columns, values, now)[c] == if c in values then values[c] else DefaultValue(columns[c], now)
  {
  }

  /** `SELECT .. WHERE column = v` returns exactly the rows whose column equals v. */
  lemma MatchingExact(rows: seq<Row>, column: string, v: Value, x: Row)
    ensures x in Matching(rows, column, v) <==> x in rows && v != Null && Get(x, column) == v
  {
    FilterMember(rows, (r: Row) => SqlEq(Get(r, column), v), x);
  }

  /** `DELETE .. WHERE column = v` keeps exactly the other rows. */
  lemma NotMatchingExact(rows: seq<Row>, column: string, v: Value, x: Row)
    ensures x in NotMatching(rows, column, v) <==> x in rows && !SqlEq(Get(x, column), v)
  {
    FilterMember(rows, (r: Row) => !SqlEq(Get(r, column), v), x);
  }

  /** Two updates with the same assignments add up to one over both value sets,
      as long as the assignments do not touch the column being matched. */
  lemma SetWhereCompose(rows: seq<Row>, column: string, a: set<Value>, b: set<Value>, assignments: Row)
    requires column !in assignments
    ensures SetWhere(SetWhere(rows, column, a, assignments), column, b, assignments)
         == SetWhere(rows, column, a + b, assignments)
  {
    var once := SetWhere(rows, column, a, assignments);
    forall i | 0 <= i < |rows|
      ensures SetWhere(once, column, b, assignments)[i] == SetWhere(rows, column, a + b, assignments)[i]
    {
      assert Get(once[i], column) == Get(rows[i], column);
      if ColumnIn(rows[i], column, a) && ColumnIn(rows[i], column, b) {
        assert rows[i] + assignments + assignments == rows[i] + assignments;
      }
    }
  }

  /** An update whose value set matches no row changes nothing. */
  lemma SetWhereNothing(rows: seq<Row>, column: string, vals: set<Value>, assignments: Row)
    requires forall i :: 0 <= i < |rows| ==> !ColumnIn(rows[i], column, vals)
    ensures SetWhere(rows, column, vals, assignments) == rows
  {
  }

  // ---------------------------------------------------------------------------

  /** An open handle on the SQLite file: `runSync` runs a statement, `getAllSync` a query. */
  class Database {
    var tables: Db

    constructor (initial: Db)
      ensures tables == initial
    {
      tables := initial;
    }

    /** A statement that throws leaves the file as it was. */
    method RunSync(s: Statement) returns (out: Outcome)
      modifies this
      ensures (tables, out) == Apply(old(tables), s)
    {
      var r := Apply(tables, s);
      tables, out := r.0, r.1;
    }

    method GetAllSync(q: Query) returns (rows: Result<seq<Row>>)
      ensures rows == Select(tables, q)
    {
      rows := Select(tables, q);
    }
  }
}
