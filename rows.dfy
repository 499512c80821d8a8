/** Values shared by every other module: nullable column values, untyped rows
    (the `any` records the sync code passes around), and the error results that
    stand for thrown exceptions. */
module Rows {

  datatype Option<T> = None | Some(value: T) {
    function GetOr(default: T): T {
      match this
      case Some(v) => v
      case None => default
    }
  }

  /** Every way an operation of the model can throw. */
  datatype Error =
    | OpenFailed                                   // the database file could not be opened
    | NotInitialized                               // getDatabase() before a successful init
    | NoSuchTable(table: string)
    | NoSuchColumn(table: string)                  // a statement names a column the table lacks
    | DuplicateColumn(table: string, column: string)
    | BadColumnDefault(table: string, column: string)
    | ConstraintFailed(table: string)              // NOT NULL or CHECK(... IN ...)
    | RemoteFailed(table: string)                  // the backend rejected a call
    | NotSingle(table: string)                     // `.single()` did not match exactly one row
    | SignUpFailed                                 // the auth service returned an error
    | NoUserReturned

  datatype Outcome = Pass | Fail(error: Error)

  datatype Result<T> = Ok(value: T) | Err(error: Error)

  /** Timestamps are opaque integers from a nondecreasing clock. */
  type Time = int

  /** A scalar column value. */
  datatype Value = Null | Text(text: string) | Int(n: int)

  /** A row as the sync code sees it: column name to value. */
  type Row = map<string, Value>

  /** `row.column ?? null`: an absent column reads as NULL. */
  function Get(r: Row, column: string): Value {
    if column in r then r[column] else Null
  }

  /** SQL `a = b`: never true when either side is NULL. */
  predicate SqlEq(a: Value, b: Value) {
    a != Null && a == b
  }

  /** The first failure of two steps that both ran. */
  function FirstFailure(first: Outcome, second: Outcome): Outcome {
    if first.Fail? then first else second
  }

  function Min(a: int, b: int): int {
    if a <= b then a else b
  }

  lemma SliceSplit<T>(s: seq<T>, i: nat, e: nat)
    requires i <= e <= |s|
    ensures s[i..] == s[i..e] + s[e..]
  {
  }

  /** `Array.prototype.join(sep)` on strings. */
  function Join(parts: seq<string>, sep: string): string
    decreases |parts|
  {
    if parts == [] then ""
    else if |parts| == 1 then parts[0]
    else parts[0] + sep + Join(parts[1..], sep)
  }

  /** The subsequence of `s` whose elements satisfy `f`, in order. */
  function Filter<T>(s: seq<T>, f: T -> bool): seq<T>
  {
    if s == [] then [] else (if f(s[0]) then [s[0]] else []) + Filter(s[1..], f)
  }

  lemma {:induction false} FilterAppend<T>(a: seq<T>, b: seq<T>, f: T -> bool)
    ensures Filter(a + b, f) == Filter(a, f) + Filter(b, f)
  {
    if a == [] {
      assert a + b == b;
    } else {
      var head := if f(a[0]) then [a[0]] else [];
      assert (a + b)[0] == a[0];
      assert (a + b)[1..] == a[1..] + b;
      assert Filter(a + b, f) == head + Filter(a[1..] + b, f);
      FilterAppend(a[1..], b, f);
      assert head + (Filter(a[1..], f) + Filter(b, f)) == (head + Filter(a[1..], f)) + Filter(b, f);
    }
  }

  lemma {:induction false} FilterMember<T>(s: seq<T>, f: T -> bool, x: T)
    ensures x in Filter(s, f) <==> x in s && f(x)
  {
    if s != [] {
      FilterMember(s[1..], f, x);
      assert s == [s[0]] + s[1..];
    }
  }

  /** Filtering by `g` after `f` is filtering by `g` alone when `g` implies `f`. */
  lemma {:induction false} FilterNarrow<T>(s: seq<T>, f: T -> bool, g: T -> bool)
    requires forall x :: g(x) ==> f(x)
    ensures Filter(Filter(s, f), g) == Filter(s, g)
  {
    if s != [] {
      FilterNarrow(s[1..], f, g);
      var head := if g(s[0]) then [s[0]] else [];
      if f(s[0]) {
        assert [s[0]][1..] == [];
        calc {
          Filter(Filter(s, f), g);
          Filter([s[0]] + Filter(s[1..], f), g);
          { FilterAppend([s[0]], Filter(s[1..], f), g); }
          Filter([s[0]], g) + Filter(Filter(s[1..], f), g);
          head + Filter(s[1..], g);
        }
      } else {
        assert Filter(s, f) == Filter(s[1..], f);
        assert Filter(s, g) == Filter(s[1..], g);
      }
    }
  }

  lemma {:induction false} FilterNone<T>(s: seq<T>, f: T -> bool)
    requires forall x :: x in s ==> !f(x)
    ensures Filter(s, f) == []
  {
    if s != [] {
      FilterNone(s[1..], f);
    }
  }

  lemma {:induction false} FilterAll<T>(s: seq<T>, f: T -> bool)
    requires forall x :: x in s ==> f(x)
    ensures Filter(s, f) == s
  {
    if s != [] {
      FilterAll(s[1..], f);
    }
  }

  /** A filter keeps each element at most as often as it occurs. */
  lemma {:induction false} FilterSubMultiset<T>(s: seq<T>, f: T -> bool)
    ensures multiset(Filter(s, f)) <= multiset(s)
  {
    if s != [] {
      FilterSubMultiset(s[1..], f);
      assert s == [s[0]] + s[1..];
    }
  }
}
