/**
 * The hosted Postgres tables the importers write to, as seen through the
 * PostgREST client: a table is a list of rows with an identifier and a
 * column-to-value map.
 *
 *  - `upsert(records, on_conflict=cols)` inserts each record, or, when a row
 *    with the same values in `cols` exists, overwrites the columns the record
 *    carries and keeps the others;  SQL NULLs never conflict;
 *  - a statement is atomic: it fails as a whole when one record breaks a
 *    constraint of the table's schema (`accepts`), or when two records of one
 *    upsert hit the same conflict key ("ON CONFLICT DO UPDATE command cannot
 *    affect row a second time");
 *  - `insert`, `delete ... in_(col, values)`, `update ... eq('id', id)` and a
 *    `select ... single()` by column values;  a delete can fail as a whole
 *    for reasons outside the rows it names (`permitsDelete`).
 */
module Storage {
  import opened Wrappers
  import opened Collections

  datatype Value = VStr(s: string) | VInt(i: int) | VReal(r: real) | VBool(b: bool) | VNull

  /** A record or a row: column name to value (a JSON object). */
  type Fields = map<string, Value>

  datatype Row = Row(id: nat, fields: Fields)

  /** The value of a column, SQL NULL when the column is absent. */
  function Column(f: Fields, c: string): Value {
    if c in f then f[c] else VNull
  }

  /** The values of the key columns, or `None` when one of them is NULL. */
  function KeyOf(f: Fields, cols: seq<string>): (r: Option<seq<Value>>)
    ensures r.Some? ==> |r.value| == |cols|
    ensures r.Some? <==> forall i :: 0 <= i < |cols| ==> Column(f, cols[i]) != VNull
  {
    if cols == [] then Some([])
    else
      var v := Column(f, cols[0]);
      match KeyOf(f, cols[1..])
      case None => None
      case Some(rest) => if v == VNull then None else Some([v] + rest)
  }

  /** The values of the key columns, NULL included. */
  function ColumnsOf(f: Fields, cols: seq<string>): (r: seq<Value>)
    ensures |r| == |cols| && forall i :: 0 <= i < |cols| ==> r[i] == Column(f, cols[i])
  {
    seq(|cols|, i requires 0 <= i < |cols| => Column(f, cols[i]))
  }

  /** A key without NULLs is the values of the key columns. */
  lemma {:induction false} KeyOfColumns(f: Fields, cols: seq<string>)
    requires KeyOf(f, cols).Some?
    ensures KeyOf(f, cols).value == ColumnsOf(f, cols)
  {
    if cols != [] {
      KeyOfColumns(f, cols[1..]);
    }
  }

  /** Position of the first row whose key equals `k`, or `|rows|`. */
  function FindKey(rows: seq<Row>, cols: seq<string>, k: seq<Value>): (i: nat)
    ensures i <= |rows|
    ensures i < |rows| ==> KeyOf(rows[i].fields, cols) == Some(k)
    ensures forall j :: 0 <= j < i ==> KeyOf(rows[j].fields, cols) != Some(k)
  {
    if rows == [] then 0
    else if KeyOf(rows[0].fields, cols) == Some(k) then 0
    else 1 + FindKey(rows[1..], cols, k)
  }

  /** The state of a table between statements. */
  datatype State = State(rows: seq<Row>, nextId: nat)

  /** Identifiers are distinct and below the next one to be issued. */
  predicate WellFormed(st: State) {
    (forall i :: 0 <= i < |st.rows| ==> st.rows[i].id < st.nextId) &&
    (forall i, j :: 0 <= i < j < |st.rows| ==> st.rows[i].id != st.rows[j].id)
  }

  /** `st'` keeps every row of `st`, with its identifier, at the same position. */
  predicate Extends(st: State, st': State) {
    |st.rows| <= |st'.rows| && st.nextId <= st'.nextId &&
    forall i :: 0 <= i < |st.rows| ==> st'.rows[i].id == st.rows[i].id
  }

  /** `st'` keeps every row of `st`, with its identifier and its key columns, at the same position. */
  predicate ExtendsKeys(st: State, st': State, cols: seq<string>) {
    Extends(st, st') &&
    forall i :: 0 <= i < |st.rows| ==> ColumnsOf(st'.rows[i].fields, cols) == ColumnsOf(st.rows[i].fields, cols)
  }

  /** Some row of `st` has identifier `id` and key columns `key`. */
  predicate Stores(st: State, id: nat, key: seq<Value>, cols: seq<string>) {
    exists i :: 0 <= i < |st.rows| && st.rows[i].id == id && ColumnsOf(st.rows[i].fields, cols) == key
  }

  /** A stored row stays stored, with its key, in a state that extends this one. */
  lemma StoresExtends(st: State, st': State, id: nat, key: seq<Value>, cols: seq<string>)
    requires ExtendsKeys(st, st', cols) && Stores(st, id, key, cols)
    ensures Stores(st', id, key, cols)
  {
    var i :| 0 <= i < |st.rows| && st.rows[i].id == id && ColumnsOf(st.rows[i].fields, cols) == key;
    assert st'.rows[i].id == id && ColumnsOf(st'.rows[i].fields, cols) == key;
  }

  lemma ExtendsKeysTransitive(st1: State, st2: State, st3: State, cols: seq<string>)
    requires ExtendsKeys(st1, st2, cols) && ExtendsKeys(st2, st3, cols)
    ensures ExtendsKeys(st1, st3, cols)
  {
  }

  /** Upserting one record; the second component is the row the statement returns for it. */
  function UpsertOne(st: State, f: Fields, cols: seq<string>): (r: (State, Row))
    ensures ExtendsKeys(st, r.0, cols)
    ensures WellFormed(st) ==> WellFormed(r.0)
    ensures r.1 in r.0.rows
    ensures KeyOf(r.1.fields, cols) == KeyOf(f, cols)
    ensures ColumnsOf(r.1.fields, cols) == ColumnsOf(f, cols)
    ensures f.Keys <= r.1.fields.Keys && forall c :: c in f ==> r.1.fields[c] == f[c]
    ensures KeyOf(f, cols).Some? && FindKey(st.rows, cols, KeyOf(f, cols).value) < |st.rows|
            ==> r.1.id == st.rows[FindKey(st.rows, cols, KeyOf(f, cols).value)].id && r.0.nextId == st.nextId
  {
    var k := KeyOf(f, cols);
    var i := if k.Some? then FindKey(st.rows, cols, k.value) else |st.rows|;
    if i < |st.rows| then
      var row := Row(st.rows[i].id, st.rows[i].fields + f);
      assert KeyOf(row.fields, cols) == k by { KeyOfMerge(st.rows[i].fields, f, cols); }
      KeyOfColumns(row.fields, cols);
      KeyOfColumns(st.rows[i].fields, cols);
      KeyOfColumns(f, cols);
      var st' := State(st.rows[i := row], st.nextId);
      assert st'.rows[i] == row;
      (st', row)
    else
      var row := Row(st.nextId, f);
      var st' := State(st.rows + [row], st.nextId + 1);
      assert st'.rows[|st.rows|] == row;
      (st', row)
  }

  /** Overwriting with a record whose key columns are all present keeps that record's key. */
  lemma {:induction false} KeyOfMerge(old_: Fields, f: Fields, cols: seq<string>)
    requires KeyOf(f, cols).Some?
    ensures KeyOf(old_ + f, cols) == KeyOf(f, cols)
  {
    if cols != [] {
      KeyOfMerge(old_, f, cols[1..]);
      assert Column(old_ + f, cols[0]) == Column(f, cols[0]);
    }
  }

  lemma UpsertAllStores(st1: State, st2: State, row: Row, rows: seq<Row>, cols: seq<string>)
    requires row in st1.rows && ExtendsKeys(st1, st2, cols)
    requires forall j :: 0 <= j < |rows| ==> Stores(st2, rows[j].id, ColumnsOf(rows[j].fields, cols), cols)
    ensures forall j :: 0 <= j < 1 + |rows| ==> Stores(st2, ([row] + rows)[j].id, ColumnsOf(([row] + rows)[j].fields, cols), cols)
  {
    var i :| 0 <= i < |st1.rows| && st1.rows[i] == row;
    assert Stores(st1, row.id, ColumnsOf(row.fields, cols), cols);
    StoresExtends(st1, st2, row.id, ColumnsOf(row.fields, cols), cols);
    forall j | 0 <= j < 1 + |rows|
      ensures Stores(st2, ([row] + rows)[j].id, ColumnsOf(([row] + rows)[j].fields, cols), cols)
    {
      if j > 0 {
        assert ([row] + rows)[j] == rows[j - 1];
      }
    }
  }

  /** Upserting the records of a batch one after the other. */
  function UpsertAll(st: State, batch: seq<Fields>, cols: seq<string>): (r: (State, seq<Row>))
    ensures ExtendsKeys(st, r.0, cols)
    ensures WellFormed(st) ==> WellFormed(r.0)
    ensures |r.1| == |batch|
    ensures forall j :: 0 <= j < |batch| ==> KeyOf(r.1[j].fields, cols) == KeyOf(batch[j], cols)
    ensures forall j :: 0 <= j < |batch| ==> ColumnsOf(r.1[j].fields, cols) == ColumnsOf(batch[j], cols)
    ensures forall j :: 0 <= j < |batch| ==> Stores(r.0, r.1[j].id, ColumnsOf(r.1[j].fields, cols), cols)
    decreases |batch|
  {
    if batch == [] then (st, [])
    else
      var (st1, row) := UpsertOne(st, batch[0], cols);
      var (st2, rows) := UpsertAll(st1, batch[1..], cols);
      UpsertAllStores(st1, st2, row, rows, cols);
      (st2, [row] + rows)
  }

  /** Some row of `st` has key columns `key`. */
  predicate KeyStored(st: State, key: seq<Value>, cols: seq<string>) {
    exists i :: 0 <= i < |st.rows| && ColumnsOf(st.rows[i].fields, cols) == key
  }

  /** After an upsert, every record of the batch has a stored row with its key columns. */
  lemma UpsertAllKeysStored(st: State, batch: seq<Fields>, cols: seq<string>)
    ensures forall x :: x in batch ==> KeyStored(UpsertAll(st, batch, cols).0, ColumnsOf(x, cols), cols)
  {
    var r := UpsertAll(st, batch, cols);
    forall x | x in batch
      ensures KeyStored(r.0, ColumnsOf(x, cols), cols)
    {
      var j :| 0 <= j < |batch| && batch[j] == x;
      var row := r.1[j];
      assert Stores(r.0, row.id, ColumnsOf(row.fields, cols), cols);
      var i :| 0 <= i < |r.0.rows| && r.0.rows[i].id == row.id && ColumnsOf(r.0.rows[i].fields, cols) == ColumnsOf(row.fields, cols);
      assert ColumnsOf(row.fields, cols) == ColumnsOf(x, cols);
    }
  }

  /** Upserting two batches one after the other is upserting their concatenation. */
  lemma {:induction false} UpsertAllAppend(st: State, a: seq<Fields>, b: seq<Fields>, cols: seq<string>)
    ensures UpsertAll(UpsertAll(st, a, cols).0, b, cols).0 == UpsertAll(st, a + b, cols).0
    decreases |a|
  {
    if a == [] {
      assert a + b == b;
    } else {
      var st1 := UpsertOne(st, a[0], cols).0;
      assert (a + b)[0] == a[0] && (a + b)[1..] == a[1..] + b;
      UpsertAllAppend(st1, a[1..], b, cols);
    }
  }

  /** Every record of the batch becomes a new row with a fresh identifier, in order. */
  function InsertAll(st: State, batch: seq<Fields>): (r: State)
    ensures Extends(st, r) && r.rows[..|st.rows|] == st.rows
    ensures WellFormed(st) ==> WellFormed(r)
    ensures |r.rows| == |st.rows| + |batch| && r.nextId == st.nextId + |batch|
    ensures forall j :: 0 <= j < |batch| ==> r.rows[|st.rows| + j] == Row(st.nextId + j, batch[j])
    decreases |batch|
  {
    if batch == [] then st
    else
      var st1 := State(st.rows + [Row(st.nextId, batch[0])], st.nextId + 1);
      var r := InsertAll(st1, batch[1..]);
      assert r.rows[..|st.rows|] == r.rows[..|st1.rows|][..|st.rows|];
      r
  }

  /** Inserting two batches one after the other is inserting their concatenation. */
  lemma {:induction false} InsertAllAppend(st: State, a: seq<Fields>, b: seq<Fields>)
    ensures InsertAll(InsertAll(st, a), b) == InsertAll(st, a + b)
    decreases |a|
  {
    if a == [] {
      assert a + b == b;
    } else {
      var st1 := State(st.rows + [Row(st.nextId, a[0])], st.nextId + 1);
      assert (a + b)[0] == a[0] && (a + b)[1..] == a[1..] + b;
      assert InsertAll(st, a) == InsertAll(st1, a[1..]);
      assert InsertAll(st, a + b) == InsertAll(st1, a[1..] + b);
      InsertAllAppend(st1, a[1..], b);
    }
  }

  /** The rows with identifier `id` get the columns of `f` overwritten; the others are kept. */
  function UpdateAll(st: State, id: nat, f: Fields): (r: State)
    ensures |r.rows| == |st.rows| && r.nextId == st.nextId
    ensures forall i :: 0 <= i < |st.rows| ==> r.rows[i].id == st.rows[i].id
    ensures forall i :: 0 <= i < |st.rows| ==> r.rows[i].fields == if st.rows[i].id == id then st.rows[i].fields + f else st.rows[i].fields
    ensures WellFormed(st) ==> WellFormed(r)
  {
    State(seq(|st.rows|, i requires 0 <= i < |st.rows| =>
            if st.rows[i].id == id then Row(id, st.rows[i].fields + f) else st.rows[i]), st.nextId)
  }

  /** No two records of the batch share a (non-NULL) conflict key. */
  predicate DistinctKeys(batch: seq<Fields>, cols: seq<string>) {
    forall i, j :: 0 <= i < j < |batch| && KeyOf(batch[i], cols).Some? ==> KeyOf(batch[i], cols) != KeyOf(batch[j], cols)
  }

  /** Whether a table whose schema decides `accepts` carries out an upsert of `batch` on `cols`. */
  predicate Admits(accepts: Fields -> bool, batch: seq<Fields>, cols: seq<string>) {
    (forall i :: 0 <= i < |batch| ==> accepts(batch[i])) && DistinctKeys(batch, cols)
  }

  /** The upserts that fail, as a predicate on batches. */
  function Refuses(accepts: Fields -> bool, cols: seq<string>): seq<Fields> -> bool {
    batch => !Admits(accepts, batch, cols)
  }

  /** A slice of a batch without repeated keys has none either. */
  lemma DistinctKeysSlice(xs: seq<Fields>, lo: nat, hi: nat, cols: seq<string>)
    requires lo <= hi <= |xs| && DistinctKeys(xs, cols)
    ensures DistinctKeys(xs[lo..hi], cols)
  {
    var s := xs[lo..hi];
    forall i, j | 0 <= i < j < |s| && KeyOf(s[i], cols).Some?
      ensures KeyOf(s[i], cols) != KeyOf(s[j], cols)
    {
      assert s[i] == xs[lo + i] && s[j] == xs[lo + j];
    }
  }

  /** Keeping some records of a batch without repeated keys leaves none repeated. */
  lemma {:induction false} DistinctKeysFilter(xs: seq<Fields>, p: Fields -> bool, cols: seq<string>)
    requires DistinctKeys(xs, cols)
    ensures DistinctKeys(Filter(xs, p), cols)
  {
    if xs != [] {
      var init, last := xs[..|xs| - 1], xs[|xs| - 1];
      DistinctKeysSlice(xs, 0, |xs| - 1, cols);
      assert xs[0..|xs| - 1] == init;
      DistinctKeysFilter(init, p, cols);
      if p(last) {
        var f := Filter(init, p);
        var r := f + [last];
        FilterIn(init, p);
        forall i, j | 0 <= i < j < |r| && KeyOf(r[i], cols).Some?
          ensures KeyOf(r[i], cols) != KeyOf(r[j], cols)
        {
          if j == |f| {
            assert r[i] == f[i] && f[i] in init;
            var m :| 0 <= m < |init| && init[m] == f[i];
            assert xs[m] == f[i];
          } else {
            assert r[i] == f[i] && r[j] == f[j];
          }
        }
      }
    }
  }

  /** The records of one group of an admitted batch are admitted together. */
  lemma AdmitsMembers<K>(accepts: Fields -> bool, xs: seq<Fields>, key: Fields -> K, k: K, cols: seq<string>)
    requires Admits(accepts, xs, cols)
    ensures Admits(accepts, Members(xs, key, k), cols)
  {
    var p := MembersFilter(xs, key, k);
    FilterIn(xs, p);
    DistinctKeysFilter(xs, p, cols);
    var g := Members(xs, key, k);
    forall i | 0 <= i < |g|
      ensures accepts(g[i])
    {
      assert g[i] in xs;
    }
  }

  /**
   * When the table accepts every record and no two records share a key,
   * every batch of `Chunks(xs, n)` is admitted.
   */
  lemma {:induction false} ChunksAdmitted(accepts: Fields -> bool, xs: seq<Fields>, n: nat, cols: seq<string>)
    requires n > 0 && Admits(accepts, xs, cols)
    ensures forall b :: 0 <= b < |Chunks(xs, n)| ==> Admits(accepts, Chunks(xs, n)[b], cols)
    decreases |xs|
  {
    if xs != [] && |xs| > n {
      DistinctKeysSlice(xs, 0, n, cols);
      DistinctKeysSlice(xs, n, |xs|, cols);
      assert xs[..n] == xs[0..n] && xs[n..] == xs[n..|xs|];
      ChunksAdmitted(accepts, xs[n..], n, cols);
      var c := Chunks(xs, n);
      assert c == [xs[..n]] + Chunks(xs[n..], n);
      forall b | 0 <= b < |c|
        ensures Admits(accepts, c[b], cols)
      {
        if b > 0 {
          assert c[b] == Chunks(xs[n..], n)[b - 1];
        }
      }
    }
  }

  /** A table of the hosted database. */
  class Table {
    var rows: seq<Row>
    var nextId: nat
    /** The constraints of the table's schema, decided on each record. */
    const accepts: Fields -> bool
    /**
     * Whether the server carries out `delete().in_(col, values)`: the request
     * can fail (a timeout, a URL too long, a lost connection) independently
     * of the rows it names.
     */
    const permitsDelete: (string, set<Value>) -> bool

    ghost predicate Valid()
      reads this
    {
      WellFormed(State(rows, nextId))
    }

    function Snapshot(): State
      reads this
    {
      State(rows, nextId)
    }

    constructor (accepts: Fields -> bool, permitsDelete: (string, set<Value>) -> bool)
      ensures Valid() && rows == [] && nextId == 1 && this.accepts == accepts && this.permitsDelete == permitsDelete
    {
      rows := [];
      nextId := 1;
      this.accepts := accepts;
      this.permitsDelete := permitsDelete;
    }

    /** The conditions under which an upsert statement succeeds. */
    predicate UpsertSucceeds(batch: seq<Fields>, cols: seq<string>)
      reads this
    {
      Admits(accepts, batch, cols)
    }

    /** `upsert(batch, on_conflict=cols).execute()`: the rows written, or failure with nothing changed. */
    method Upsert(batch: seq<Fields>, cols: seq<string>) returns (outcome: Option<seq<Row>>)
      requires Valid()
      modifies this
      ensures Valid()
      ensures outcome.Some? <==> old(UpsertSucceeds(batch, cols))
      ensures outcome.Some? ==> (Snapshot(), outcome.value) == UpsertAll(old(Snapshot()), batch, cols)
      ensures outcome.None? ==> Snapshot() == old(Snapshot())
    {
      if UpsertSucceeds(batch, cols) {
        var (st, returned) := UpsertAll(Snapshot(), batch, cols);
        rows, nextId := st.rows, st.nextId;
        outcome := Some(returned);
      } else {
        outcome := None;
      }
    }

    /** `insert(batch).execute()`: every record becomes a new row, or nothing changes. */
    method Insert(batch: seq<Fields>) returns (ok: bool)
      requires Valid()
      modifies this
      ensures Valid()
      ensures ok <==> forall i :: 0 <= i < |batch| ==> accepts(batch[i])
      ensures ok ==> Snapshot() == InsertAll(old(Snapshot()), batch)
      ensures !ok ==> Snapshot() == old(Snapshot())
    {
      ok := forall i :: 0 <= i < |batch| ==> accepts(batch[i]);
      if ok {
        var st := InsertAll(Snapshot(), batch);
        rows, nextId := st.rows, st.nextId;
      }
    }

    /**
     * `delete().in_(col, values).execute()`: removes every row whose `col` is
     * one of `values`, or fails with nothing removed.
     */
    method DeleteIn(col: string, values: set<Value>) returns (ok: bool)
      requires Valid()
      modifies this
      ensures Valid()
      ensures ok <==> permitsDelete(col, values)
      ensures ok ==> rows == Filter(old(rows), Outside(col, values))
      ensures !ok ==> rows == old(rows)
      ensures nextId == old(nextId)
    {
      ok := permitsDelete(col, values);
      if ok {
        rows := Filter(rows, Outside(col, values));
        FilterKeepsIds(old(rows), Outside(col, values), nextId);
      }
    }

    /** `update(f).eq('id', id).execute()`: overwrites the given columns of the row with that identifier. */
    method UpdateById(id: nat, f: Fields) returns (ok: bool)
      requires Valid()
      modifies this
      ensures Valid()
      ensures ok <==> accepts(f)
      ensures ok ==> Snapshot() == UpdateAll(old(Snapshot()), id, f)
      ensures !ok ==> Snapshot() == old(Snapshot())
    {
      ok := accepts(f);
      if ok {
        var st := UpdateAll(Snapshot(), id, f);
        rows := st.rows;
      }
    }

    /** `select().eq(c1, v1)...single()` on the table. */
    function SelectSingle(conds: seq<(string, Value)>): Option<Row>
      reads this
    {
      SelectOne(Snapshot(), conds)
    }
  }

  /** `select().eq(c1, v1)...single()`: the one row matching every condition; an error otherwise. */
  function SelectOne(st: State, conds: seq<(string, Value)>): (r: Option<Row>)
    ensures r.Some? ==> r.value in st.rows && Matches(r.value, conds)
    ensures r.Some? <==> |Filter(st.rows, (row: Row) => Matches(row, conds))| == 1
  {
    var hits := Filter(st.rows, (row: Row) => Matches(row, conds));
    if |hits| == 1 then
      FilterMembers(st.rows, (row: Row) => Matches(row, conds));
      assert hits[0] in multiset(hits);
      Some(hits[0])
    else None
  }

  /** The rows a `delete().in_(col, values)` keeps. */
  function Outside(col: string, values: set<Value>): Row -> bool {
    (r: Row) => Column(r.fields, col) !in values
  }

  /** A row satisfies every column condition. */
  predicate Matches(row: Row, conds: seq<(string, Value)>) {
    forall i :: 0 <= i < |conds| ==> Column(row.fields, conds[i].0) == conds[i].1
  }

  /** Removing rows keeps identifiers distinct and below the next one. */
  lemma {:induction false} FilterKeepsIds(rows: seq<Row>, p: Row -> bool, nextId: nat)
    requires WellFormed(State(rows, nextId))
    ensures WellFormed(State(Filter(rows, p), nextId))
  {
    if rows != [] {
      var init := rows[..|rows| - 1];
      var last := rows[|rows| - 1];
      assert forall i :: 0 <= i < |init| ==> init[i] == rows[i];
      FilterKeepsIds(init, p, nextId);
      var fi := Filter(init, p);
      assert Filter(rows, p) == fi + if p(last) then [last] else [];
      if p(last) {
        FilterMembers(init, p);
        forall i | 0 <= i < |fi|
          ensures fi[i].id != last.id
        {
          assert fi[i] in multiset(fi);
          assert fi[i] in init;
        }
        SnocKeepsIds(fi, last, nextId);
      } else {
        assert fi + [] == fi;
      }
    }
  }

  /** A row with a fresh identifier below the next one can be appended. */
  lemma SnocKeepsIds(rows: seq<Row>, r: Row, nextId: nat)
    requires WellFormed(State(rows, nextId)) && r.id < nextId
    requires forall i :: 0 <= i < |rows| ==> rows[i].id != r.id
    ensures WellFormed(State(rows + [r], nextId))
  {
    var rs := rows + [r];
    assert forall i :: 0 <= i < |rows| ==> rs[i] == rows[i];
  }
}
