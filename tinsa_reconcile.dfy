/**
 * The database half of backend/app/etl/tinsa_importer.py: `insert_projects`
 * upserts the project records in batches and builds the map from
 * (name, commune) to the identifier the database gave the row;
 * `insert_typologies` attaches each typology to its project through that map,
 * deletes the typologies the resolved projects had before, and inserts the
 * new ones in batches; `import_file` chains the transformation and both steps.
 *
 * Failures are those of the tables' model: a statement fails when a record
 * breaks the table's schema or, for an upsert, when two records of one batch
 * share their (name, commune).
 */
module TinsaReconcile {
  import opened Wrappers
  import opened Collections
  import opened Storage
  import opened TinsaTransform

  const BatchSize: nat := 50

  /** `on_conflict="name,commune"`. */
  const ConflictColumns: seq<string> := ["name", "commune"]

  // ---------------------------------------------------------------------------
  // insert_projects
  // ---------------------------------------------------------------------------

  /** A value `insert_projects` leaves out of the upserted record: `None` or a none-like string. */
  predicate Dropped(v: Value) {
    v == VNull || (v.VStr? && IsNoneText(v.s))
  }

  /** `clean_p`: the record without its `None` and none-like fields. */
  function DropEmpty(p: Fields): (r: Fields)
    ensures r.Keys <= p.Keys
    ensures forall k :: k in p ==> (k in r <==> !Dropped(p[k]))
    ensures forall k :: k in r ==> r[k] == p[k]
  {
    map k | k in p && !Dropped(p[k]) :: p[k]
  }

  /** Cleaning twice is cleaning once: a cleaned record has nothing left to drop. */
  lemma DropEmptyIdempotent(p: Fields)
    ensures DropEmpty(DropEmpty(p)) == DropEmpty(p)
    ensures forall k :: k in DropEmpty(p) ==> !Dropped(DropEmpty(p)[k])
  {
  }

  /** The shape of a record, `tuple(sorted(clean_p.keys()))`: two records share it iff they have the same columns. */
  function Shape(p: Fields): set<string> {
    p.Keys
  }

  function Cleaned(projects: seq<Fields>): (r: seq<Fields>)
    ensures |r| == |projects| && forall i :: 0 <= i < |projects| ==> r[i] == DropEmpty(projects[i])
  {
    seq(|projects|, i requires 0 <= i < |projects| => DropEmpty(projects[i]))
  }

  /** The `groups` loop: the cleaned records by shape, shapes in order of first appearance. */
  method GroupByShape(projects: seq<Fields>) returns (shapes: seq<set<string>>, groups: map<set<string>, seq<Fields>>)
    ensures GroupsOf(Cleaned(projects), Shape, shapes, groups)
  {
    shapes, groups := [], map[];
    for i := 0 to |projects|
      invariant GroupsOf(Cleaned(projects[..i]), Shape, shapes, groups)
    {
      var p := DropEmpty(projects[i]);
      CleanedSnoc(projects, i);
      shapes, groups := AddToGroup(Cleaned(projects[..i]), p, shapes, groups);
    }
    assert projects[..|projects|] == projects;
  }

  lemma CleanedSnoc(projects: seq<Fields>, i: nat)
    requires i < |projects|
    ensures Cleaned(projects[..i + 1]) == Cleaned(projects[..i]) + [DropEmpty(projects[i])]
  {
  }

  /** `groups.setdefault(shape, []).append(clean_p)`, with the shapes kept in order of first appearance. */
  method AddToGroup(ghost records: seq<Fields>, p: Fields, shapes: seq<set<string>>, groups: map<set<string>, seq<Fields>>)
    returns (shapes': seq<set<string>>, groups': map<set<string>, seq<Fields>>)
    requires GroupsOf(records, Shape, shapes, groups)
    ensures GroupsOf(records + [p], Shape, shapes', groups')
  {
    GroupStep(records, Shape, p, shapes, groups);
    var shape := Shape(p);
    var items := if shape in groups then groups[shape] else [];
    shapes' := if shape in groups then shapes else shapes + [shape];
    groups' := groups[shape := items + [p]];
  }

  /** The key of the id map, `(p["name"], p["commune"])`. */
  function ProjectKey(f: Fields): (Value, Value) {
    (Column(f, "name"), Column(f, "commune"))
  }

  lemma ProjectKeyColumns(f: Fields)
    ensures ColumnsOf(f, ConflictColumns) == [ProjectKey(f).0, ProjectKey(f).1]
  {
  }

  /** Some row of the table has identifier `id` and the (name, commune) key `key`. */
  predicate StoredAs(st: State, id: nat, key: (Value, Value)) {
    exists i :: 0 <= i < |st.rows| && st.rows[i].id == id && ProjectKey(st.rows[i].fields) == key
  }

  /** Every entry of the id map names a row of the table with that name and commune. */
  predicate Registered(st: State, ids: map<(Value, Value), nat>) {
    forall key :: key in ids ==> StoredAs(st, ids[key], key)
  }

  lemma RegisteredExtends(st: State, st': State, ids: map<(Value, Value), nat>)
    requires ExtendsKeys(st, st', ConflictColumns) && Registered(st, ids)
    ensures Registered(st', ids)
  {
    forall key | key in ids
      ensures StoredAs(st', ids[key], key)
    {
      var i :| 0 <= i < |st.rows| && st.rows[i].id == ids[key] && ProjectKey(st.rows[i].fields) == key;
      ProjectKeyColumns(st.rows[i].fields);
      ProjectKeyColumns(st'.rows[i].fields);
      assert ProjectKey(st'.rows[i].fields) == key;
    }
  }

  /** Recording a row the database returned keeps the map sound. */
  lemma RegisterRow(st: State, ids: map<(Value, Value), nat>, row: Row)
    requires Registered(st, ids)
    requires Stores(st, row.id, ColumnsOf(row.fields, ConflictColumns), ConflictColumns)
    ensures Registered(st, ids[ProjectKey(row.fields) := row.id])
  {
    var i :| 0 <= i < |st.rows| && st.rows[i].id == row.id && ColumnsOf(st.rows[i].fields, ConflictColumns) == ColumnsOf(row.fields, ConflictColumns);
    ProjectKeyColumns(row.fields);
    ProjectKeyColumns(st.rows[i].fields);
    assert StoredAs(st, row.id, ProjectKey(row.fields));
  }

  /** The (name, commune) keys of the records. */
  function RecordKeys(recs: seq<Fields>): set<(Value, Value)> {
    if recs == [] then {} else RecordKeys(recs[..|recs| - 1]) + {ProjectKey(recs[|recs| - 1])}
  }

  /** The (name, commune) keys of the records of `recs` the table accepts. */
  function AcceptedKeys(accepts: Fields -> bool, recs: seq<Fields>): set<(Value, Value)> {
    RecordKeys(Filter(recs, accepts))
  }

  /** A key is collected exactly when some record carries it. */
  lemma {:induction false} RecordKeysIn(recs: seq<Fields>, k: (Value, Value))
    ensures k in RecordKeys(recs) <==> exists i :: 0 <= i < |recs| && ProjectKey(recs[i]) == k
  {
    if recs != [] {
      var init := recs[..|recs| - 1];
      RecordKeysIn(init, k);
      assert forall i :: 0 <= i < |init| ==> init[i] == recs[i];
    }
  }

  lemma {:induction false} RecordKeysAppend(a: seq<Fields>, b: seq<Fields>)
    ensures RecordKeys(a + b) == RecordKeys(a) + RecordKeys(b)
    decreases |b|
  {
    if b == [] {
      assert a + b == a;
    } else {
      assert (a + b)[..|a + b| - 1] == a + b[..|b| - 1];
      RecordKeysAppend(a, b[..|b| - 1]);
    }
  }

  /** The (name, commune) keys of the rows an upsert returned. */
  function RowKeys(data: seq<Row>): set<(Value, Value)> {
    if data == [] then {} else RowKeys(data[..|data| - 1]) + {ProjectKey(data[|data| - 1].fields)}
  }

  lemma RowKeysSnoc(data: seq<Row>, j: nat)
    requires j < |data|
    ensures RowKeys(data[..j + 1]) == RowKeys(data[..j]) + {ProjectKey(data[j].fields)}
  {
    assert data[..j + 1][..j] == data[..j];
  }

  /** The rows returned for a batch carry exactly the keys of its records. */
  lemma {:induction false} RowKeysOfBatch(data: seq<Row>, batch: seq<Fields>)
    requires |data| == |batch|
    requires forall j :: 0 <= j < |batch| ==> ColumnsOf(data[j].fields, ConflictColumns) == ColumnsOf(batch[j], ConflictColumns)
    ensures RowKeys(data) == RecordKeys(batch)
  {
    if batch != [] {
      var n := |batch| - 1;
      RowKeysOfBatch(data[..n], batch[..n]);
      ProjectKeyColumns(data[n].fields);
      ProjectKeyColumns(batch[n]);
    }
  }

  /** Records the rows an upsert returned: `project_ids[(p["name"], p["commune"])] = p["id"]`. */
  method RegisterRows(db: Table, data: seq<Row>, ids: map<(Value, Value), nat>) returns (ids': map<(Value, Value), nat>)
    requires Registered(db.Snapshot(), ids)
    requires forall j :: 0 <= j < |data| ==> Stores(db.Snapshot(), data[j].id, ColumnsOf(data[j].fields, ConflictColumns), ConflictColumns)
    ensures Registered(db.Snapshot(), ids')
    ensures ids'.Keys == ids.Keys + RowKeys(data)
  {
    ids' := ids;
    assert data[..0] == [];
    for j := 0 to |data|
      invariant Registered(db.Snapshot(), ids')
      invariant ids'.Keys == ids.Keys + RowKeys(data[..j])
    {
      RegisterRow(db.Snapshot(), ids', data[j]);
      RowKeysSnoc(data, j);
      ids' := ids'[ProjectKey(data[j].fields) := data[j].id];
    }
    assert data[..|data|] == data;
  }

  /**
   * One batch of `insert_projects`: the batch upsert, or, when it fails, one
   * upsert per record, each failure ignored.  Either way exactly the records
   * the table accepts are written, in order, and their keys enter the map.
   */
  method UpsertBatch(db: Table, batch: seq<Fields>, ids: map<(Value, Value), nat>, inserted: nat, errors: nat)
    returns (ids': map<(Value, Value), nat>, inserted': nat, errors': nat)
    requires db.Valid() && Registered(db.Snapshot(), ids)
    modifies db
    ensures db.Valid() && Registered(db.Snapshot(), ids')
    ensures db.Snapshot() == UpsertAll(old(db.Snapshot()), Filter(batch, db.accepts), ConflictColumns).0
    ensures inserted' == inserted + CountOf(batch, db.accepts)
    ensures errors' == errors + if Admits(db.accepts, batch, ConflictColumns) then 0 else 1
    ensures ids'.Keys == ids.Keys + AcceptedKeys(db.accepts, batch)
  {
    ghost var st0 := db.Snapshot();
    ids', inserted', errors' := ids, inserted, errors;
    var res := db.Upsert(batch, ConflictColumns);
    if res.Some? {
      var data := res.value;
      FilterAll(batch, db.accepts);
      RegisteredExtends(st0, db.Snapshot(), ids);
      RowKeysOfBatch(data, batch);
      if data != [] {
        ids' := RegisterRows(db, data, ids);
        inserted' := inserted + |data|;
      }
    } else {
      errors' := errors + 1;
      ids', inserted' := UpsertOneByOne(db, batch, ids, inserted);
    }
  }

  /** A record on its own is upserted exactly when the table accepts it. */
  lemma SingleAdmits(accepts: Fields -> bool, x: Fields)
    ensures Admits(accepts, [x], ConflictColumns) <==> accepts(x)
  {
    assert [x][0] == x;
  }

  /** The row returned for one record is stored under the record's key, which then maps to it. */
  lemma RegisterSingle(x: Fields, before: State, after: State, data: seq<Row>, ids: map<(Value, Value), nat>)
    requires (after, data) == UpsertAll(before, [x], ConflictColumns)
    requires Registered(before, ids)
    ensures |data| == 1 && ProjectKey(data[0].fields) == ProjectKey(x)
    ensures Registered(after, ids[ProjectKey(x) := data[0].id])
  {
    assert [x][0] == x;
    RegisteredExtends(before, after, ids);
    ProjectKeyColumns(data[0].fields);
    ProjectKeyColumns(x);
    RegisterRow(after, ids, data[0]);
  }

  /** One record of the retry: `upsert(proj, on_conflict="name,commune")`, a failure ignored. */
  method UpsertRecord(db: Table, x: Fields, ids: map<(Value, Value), nat>, inserted: nat)
    returns (ids': map<(Value, Value), nat>, inserted': nat)
    requires db.Valid() && Registered(db.Snapshot(), ids)
    modifies db
    ensures db.Valid() && Registered(db.Snapshot(), ids')
    ensures db.Snapshot() == if db.accepts(x) then UpsertAll(old(db.Snapshot()), [x], ConflictColumns).0 else old(db.Snapshot())
    ensures inserted' == if db.accepts(x) then inserted + 1 else inserted
    ensures ids'.Keys == if db.accepts(x) then ids.Keys + {ProjectKey(x)} else ids.Keys
  {
    ghost var before := db.Snapshot();
    SingleAdmits(db.accepts, x);
    ids', inserted' := ids, inserted;
    var single := db.Upsert([x], ConflictColumns);
    if single.Some? {
      var data := single.value;
      RegisterSingle(x, before, db.Snapshot(), data, ids);
      if data != [] {
        var p := data[0];
        ids' := ids[ProjectKey(p.fields) := p.id];
        inserted' := inserted + 1;
      }
    }
  }

  /** Appending one record to what was written: its state, count and keys. */
  lemma WriteOne(st0: State, written: seq<Fields>, x: Fields)
    ensures UpsertAll(UpsertAll(st0, written, ConflictColumns).0, [x], ConflictColumns).0 == UpsertAll(st0, written + [x], ConflictColumns).0
    ensures RecordKeys(written + [x]) == RecordKeys(written) + {ProjectKey(x)}
  {
    UpsertAllAppend(st0, written, [x], ConflictColumns);
    assert (written + [x])[..|written|] == written;
  }

  lemma UnionAssoc<K>(a: set<K>, b: set<K>, c: set<K>)
    ensures a + b + c == a + (b + c)
  {
  }

  /** One more record of the retry: the table, count and keys follow the accepted prefix of the batch. */
  lemma RetryStep(st0: State, acc: Fields -> bool, batch: seq<Fields>, j: nat, base: nat, baseKeys: set<(Value, Value)>,
                  st: State, st': State, n: nat, n': nat, keys: set<(Value, Value)>, keys': set<(Value, Value)>)
    requires j < |batch|
    requires st == UpsertAll(st0, Filter(batch[..j], acc), ConflictColumns).0
    requires n == base + |Filter(batch[..j], acc)| && keys == baseKeys + RecordKeys(Filter(batch[..j], acc))
    requires st' == if acc(batch[j]) then UpsertAll(st, [batch[j]], ConflictColumns).0 else st
    requires n' == if acc(batch[j]) then n + 1 else n
    requires keys' == if acc(batch[j]) then keys + {ProjectKey(batch[j])} else keys
    ensures st' == UpsertAll(st0, Filter(batch[..j + 1], acc), ConflictColumns).0
    ensures n' == base + |Filter(batch[..j + 1], acc)| && keys' == baseKeys + RecordKeys(Filter(batch[..j + 1], acc))
  {
    var w, x := Filter(batch[..j], acc), batch[j];
    FilterPrefixStep(batch, j, acc);
    if acc(x) {
      assert Filter(batch[..j + 1], acc) == w + [x];
      WriteOne(st0, w, x);
      UnionAssoc(baseKeys, RecordKeys(w), {ProjectKey(x)});
    } else {
      assert Filter(batch[..j + 1], acc) == w;
    }
  }

  /** The retry after a failed batch: one upsert per record, each failure ignored. */
  method UpsertOneByOne(db: Table, batch: seq<Fields>, ids: map<(Value, Value), nat>, inserted: nat)
    returns (ids': map<(Value, Value), nat>, inserted': nat)
    requires db.Valid() && Registered(db.Snapshot(), ids)
    modifies db
    ensures db.Valid() && Registered(db.Snapshot(), ids')
    ensures db.Snapshot() == UpsertAll(old(db.Snapshot()), Filter(batch, db.accepts), ConflictColumns).0
    ensures inserted' == inserted + CountOf(batch, db.accepts)
    ensures ids'.Keys == ids.Keys + AcceptedKeys(db.accepts, batch)
  {
    ghost var st0 := db.Snapshot();
    ghost var acc := db.accepts;
    ids', inserted' := ids, inserted;
    assert batch[..0] == [];
    for j := 0 to |batch|
      invariant db.Valid() && Registered(db.Snapshot(), ids') && db.accepts == acc
      invariant db.Snapshot() == UpsertAll(st0, Filter(batch[..j], acc), ConflictColumns).0
      invariant inserted' == inserted + |Filter(batch[..j], acc)|
      invariant ids'.Keys == ids.Keys + RecordKeys(Filter(batch[..j], acc))
    {
      ghost var st, n, keys := db.Snapshot(), inserted', ids'.Keys;
      ids', inserted' := UpsertRecord(db, batch[j], ids', inserted');
      RetryStep(st0, acc, batch, j, inserted, ids.Keys, st, db.Snapshot(), n, inserted', keys, ids'.Keys);
    }
    assert batch[..|batch|] == batch;
  }

  /** The batches `insert_projects` sends: each shape's group cut into batches of 50, shapes in the order given. */
  function ShapeBatches(recs: seq<Fields>, shapes: seq<set<string>>): seq<seq<Fields>> {
    if shapes == [] then []
    else ShapeBatches(recs, shapes[..|shapes| - 1]) + Chunks(Members(recs, Shape, shapes[|shapes| - 1]), BatchSize)
  }

  /** The batches of the cleaned records, shapes in order of first appearance. */
  function ProjectBatches(projects: seq<Fields>): seq<seq<Fields>> {
    ShapeBatches(Cleaned(projects), Keys(Cleaned(projects), Shape))
  }

  /** Sending the batches one after the other sends the groups one after the other. */
  lemma {:induction false} ShapeBatchesFlatten(recs: seq<Fields>, shapes: seq<set<string>>)
    ensures Flatten(ShapeBatches(recs, shapes)) == Regrouped(recs, Shape, shapes)
  {
    if shapes != [] {
      var init := shapes[..|shapes| - 1];
      ShapeBatchesFlatten(recs, init);
      FlattenAppend(ShapeBatches(recs, init), Chunks(Members(recs, Shape, shapes[|shapes| - 1]), BatchSize));
    }
  }

  /** Every batch of a group of admitted records is admitted. */
  lemma {:induction false} ShapeBatchesAdmitted(accepts: Fields -> bool, recs: seq<Fields>, shapes: seq<set<string>>)
    requires Admits(accepts, recs, ConflictColumns)
    ensures forall b :: 0 <= b < |ShapeBatches(recs, shapes)| ==> Admits(accepts, ShapeBatches(recs, shapes)[b], ConflictColumns)
  {
    if shapes != [] {
      var init, k := shapes[..|shapes| - 1], shapes[|shapes| - 1];
      ShapeBatchesAdmitted(accepts, recs, init);
      var group := Members(recs, Shape, k);
      AdmitsMembers(accepts, recs, Shape, k, ConflictColumns);
      ChunksAdmitted(accepts, group, BatchSize, ConflictColumns);
      var front, back := ShapeBatches(recs, init), Chunks(group, BatchSize);
      forall b | 0 <= b < |front + back|
        ensures Admits(accepts, (front + back)[b], ConflictColumns)
      {
        if b >= |front| {
          assert (front + back)[b] == back[b - |front|];
        }
      }
    }
  }

  /** The batches of `insert_projects` hold the cleaned records, regrouped by shape. */
  lemma ProjectBatchesPermutation(projects: seq<Fields>)
    ensures multiset(Flatten(ProjectBatches(projects))) == multiset(Cleaned(projects))
  {
    var recs := Cleaned(projects);
    ShapeBatchesFlatten(recs, Keys(recs, Shape));
    RegroupedKeys(recs, Shape);
  }

  /** The keys of the accepted records do not depend on their order. */
  lemma AcceptedKeysPermutation(accepts: Fields -> bool, a: seq<Fields>, b: seq<Fields>)
    requires multiset(a) == multiset(b)
    ensures AcceptedKeys(accepts, a) == AcceptedKeys(accepts, b)
  {
    var fa, fb := Filter(a, accepts), Filter(b, accepts);
    FilterIn(a, accepts);
    FilterIn(b, accepts);
    forall k
      ensures k in RecordKeys(fa) ==> k in RecordKeys(fb)
      ensures k in RecordKeys(fb) ==> k in RecordKeys(fa)
    {
      RecordKeysIn(fa, k);
      RecordKeysIn(fb, k);
      if k in RecordKeys(fa) {
        var i :| 0 <= i < |fa| && ProjectKey(fa[i]) == k;
        assert fa[i] in a;
        assert fa[i] in multiset(b);
        assert fa[i] in fb;
        var j :| 0 <= j < |fb| && fb[j] == fa[i];
      }
      if k in RecordKeys(fb) {
        var j :| 0 <= j < |fb| && ProjectKey(fb[j]) == k;
        assert fb[j] in b;
        assert fb[j] in multiset(a);
        assert fb[j] in fa;
        var i :| 0 <= i < |fa| && fa[i] == fb[j];
      }
    }
  }

  /**
   * What the batches of `insert_projects` add up to: as many accepted
   * records, with the same keys, as the cleaned records; and when the table
   * accepts every record and no two share a key, no batch fails.
   */
  lemma ProjectBatchesFacts(accepts: Fields -> bool, projects: seq<Fields>)
    ensures CountOf(Flatten(ProjectBatches(projects)), accepts) == CountOf(Cleaned(projects), accepts)
    ensures AcceptedKeys(accepts, Flatten(ProjectBatches(projects))) == AcceptedKeys(accepts, Cleaned(projects))
    ensures Admits(accepts, Cleaned(projects), ConflictColumns) ==>
              CountOf(ProjectBatches(projects), Refuses(accepts, ConflictColumns)) == 0 &&
              CountOf(Cleaned(projects), accepts) == |projects|
  {
    var recs := Cleaned(projects);
    var sent := Flatten(ProjectBatches(projects));
    ProjectBatchesPermutation(projects);
    CountOfPermutation(sent, recs, accepts);
    AcceptedKeysPermutation(accepts, sent, recs);
    if Admits(accepts, recs, ConflictColumns) {
      NoBatchRefused(accepts, projects);
      FilterAll(recs, accepts);
    }
  }

  /** The totals `insert_projects` gathers over its batches, restated over the cleaned records. */
  lemma ProjectsWritten(accepts: Fields -> bool, projects: seq<Fields>, start: map<(Value, Value), nat>, keys: set<(Value, Value)>, inserted: nat, errors: nat)
    requires start == map[]
    requires keys == start.Keys + AcceptedKeys(accepts, Flatten(ProjectBatches(projects)))
    requires inserted == 0 + CountOf(Flatten(ProjectBatches(projects)), accepts)
    requires errors == 0 + CountOf(ProjectBatches(projects), Refuses(accepts, ConflictColumns))
    ensures keys == AcceptedKeys(accepts, Cleaned(projects))
    ensures inserted == CountOf(Cleaned(projects), accepts)
    ensures Admits(accepts, Cleaned(projects), ConflictColumns) ==> errors == 0 && inserted == |projects|
  {
    ProjectBatchesFacts(accepts, projects);
    assert start.Keys == {};
  }

  lemma NoBatchRefused(accepts: Fields -> bool, projects: seq<Fields>)
    requires Admits(accepts, Cleaned(projects), ConflictColumns)
    ensures CountOf(ProjectBatches(projects), Refuses(accepts, ConflictColumns)) == 0
  {
    var recs := Cleaned(projects);
    ShapeBatchesAdmitted(accepts, recs, Keys(recs, Shape));
    CountOfPositive(ProjectBatches(projects), Refuses(accepts, ConflictColumns));
  }

  /** More batches sent: what is written grows by their accepted records, the errors by their failures. */
  lemma SentStep(st0: State, accepts: Fields -> bool, sent: seq<seq<Fields>>, more: seq<seq<Fields>>, written: seq<Fields>)
    requires written == Filter(Flatten(sent), accepts)
    ensures Filter(Flatten(sent + more), accepts) == written + Filter(Flatten(more), accepts)
    ensures CountOf(sent + more, Refuses(accepts, ConflictColumns))
         == CountOf(sent, Refuses(accepts, ConflictColumns)) + CountOf(more, Refuses(accepts, ConflictColumns))
    ensures RecordKeys(written + Filter(Flatten(more), accepts)) == RecordKeys(written) + AcceptedKeys(accepts, Flatten(more))
    ensures UpsertAll(UpsertAll(st0, written, ConflictColumns).0, Filter(Flatten(more), accepts), ConflictColumns).0
         == UpsertAll(st0, written + Filter(Flatten(more), accepts), ConflictColumns).0
  {
    FlattenAppend(sent, more);
    FilterAppend(Flatten(sent), Flatten(more), accepts);
    CountOfAppend(sent, more, Refuses(accepts, ConflictColumns));
    RecordKeysAppend(written, Filter(Flatten(more), accepts));
    UpsertAllAppend(st0, written, Filter(Flatten(more), accepts), ConflictColumns);
  }

  /** A single batch, as a list of batches. */
  lemma OneBatch(accepts: Fields -> bool, batch: seq<Fields>)
    ensures Flatten([batch]) == batch
    ensures CountOf([batch], Refuses(accepts, ConflictColumns)) == if Admits(accepts, batch, ConflictColumns) then 0 else 1
  {
    assert [batch][..0] == [];
  }

  /** The batches of one shape's group, in order. */
  method UpsertGroup(db: Table, batches: seq<seq<Fields>>, ids: map<(Value, Value), nat>, inserted: nat, errors: nat)
    returns (ids': map<(Value, Value), nat>, inserted': nat, errors': nat)
    requires db.Valid() && Registered(db.Snapshot(), ids)
    modifies db
    ensures db.Valid() && Registered(db.Snapshot(), ids')
    ensures db.Snapshot() == UpsertAll(old(db.Snapshot()), Filter(Flatten(batches), db.accepts), ConflictColumns).0
    ensures inserted' == inserted + CountOf(Flatten(batches), db.accepts)
    ensures errors' == errors + CountOf(batches, Refuses(db.accepts, ConflictColumns))
    ensures ids'.Keys == ids.Keys + AcceptedKeys(db.accepts, Flatten(batches))
  {
    ghost var st0 := db.Snapshot();
    ghost var acc := db.accepts;
    ghost var written: seq<Fields> := [];
    ids', inserted', errors' := ids, inserted, errors;
    assert batches[..0] == [];
    for b := 0 to |batches|
      invariant db.Valid() && Registered(db.Snapshot(), ids')
      invariant written == Filter(Flatten(batches[..b]), acc)
      invariant db.Snapshot() == UpsertAll(st0, written, ConflictColumns).0
      invariant inserted' == inserted + |written|
      invariant errors' == errors + CountOf(batches[..b], Refuses(acc, ConflictColumns))
      invariant ids'.Keys == ids.Keys + RecordKeys(written)
    {
      PrefixSnoc(batches, b);
      OneBatch(acc, batches[b]);
      ghost var before, keys, ins, errs := db.Snapshot(), ids'.Keys, inserted', errors';
      ids', inserted', errors' := UpsertBatch(db, batches[b], ids', inserted', errors');
      SentGroup(st0, acc, written, batches[..b], [batches[b]], ids.Keys, inserted, errors, before, db.Snapshot(), keys, ids'.Keys, ins, inserted', errs, errors');
      written := written + Filter(batches[b], acc);
    }
    assert batches[..|batches|] == batches;
  }

  /** The batches of one more shape follow those of the shapes before it. */
  lemma ShapeStep(recs: seq<Fields>, shapes: seq<set<string>>, g: nat)
    requires g < |shapes|
    ensures ShapeBatches(recs, shapes[..g + 1]) == ShapeBatches(recs, shapes[..g]) + Chunks(Members(recs, Shape, shapes[g]), BatchSize)
  {
    assert shapes[..g + 1][..g] == shapes[..g];
  }

  /**
   * The progress of `insert_projects` after more batches were sent: what was
   * written, counted and registered since the start (`st0`, `keys0`,
   * `inserted0`, `errors0`) grows by what those batches wrote.
   */
  lemma SentGroup(st0: State, acc: Fields -> bool, written: seq<Fields>, sent: seq<seq<Fields>>, batches: seq<seq<Fields>>,
                  keys0: set<(Value, Value)>, inserted0: nat, errors0: nat,
                  before: State, after: State, keys: set<(Value, Value)>, keys': set<(Value, Value)>,
                  inserted: nat, inserted': nat, errors: nat, errors': nat)
    requires written == Filter(Flatten(sent), acc)
    requires before == UpsertAll(st0, written, ConflictColumns).0
    requires inserted == inserted0 + |written|
    requires errors == errors0 + CountOf(sent, Refuses(acc, ConflictColumns))
    requires keys == keys0 + RecordKeys(written)
    requires after == UpsertAll(before, Filter(Flatten(batches), acc), ConflictColumns).0
    requires inserted' == inserted + CountOf(Flatten(batches), acc)
    requires errors' == errors + CountOf(batches, Refuses(acc, ConflictColumns))
    requires keys' == keys + AcceptedKeys(acc, Flatten(batches))
    ensures written + Filter(Flatten(batches), acc) == Filter(Flatten(sent + batches), acc)
    ensures after == UpsertAll(st0, written + Filter(Flatten(batches), acc), ConflictColumns).0
    ensures inserted' == inserted0 + |written + Filter(Flatten(batches), acc)|
    ensures errors' == errors0 + CountOf(sent + batches, Refuses(acc, ConflictColumns))
    ensures keys' == keys0 + RecordKeys(written + Filter(Flatten(batches), acc))
  {
    SentStep(st0, acc, sent, batches, written);
    UnionAssoc(keys0, RecordKeys(written), AcceptedKeys(acc, Flatten(batches)));
  }

  /** The groups of `insert_projects`, one shape after the other, each cut into batches of 50. */
  method UpsertShapes(db: Table, recs: seq<Fields>, shapes: seq<set<string>>, groups: map<set<string>, seq<Fields>>,
                      ids: map<(Value, Value), nat>, inserted: nat, errors: nat)
    returns (ids': map<(Value, Value), nat>, inserted': nat, errors': nat)
    requires db.Valid() && Registered(db.Snapshot(), ids)
    requires forall g :: 0 <= g < |shapes| ==> shapes[g] in groups && groups[shapes[g]] == Members(recs, Shape, shapes[g])
    modifies db
    ensures db.Valid() && Registered(db.Snapshot(), ids')
    ensures db.Snapshot() == UpsertAll(old(db.Snapshot()), Filter(Flatten(ShapeBatches(recs, shapes)), db.accepts), ConflictColumns).0
    ensures inserted' == inserted + CountOf(Flatten(ShapeBatches(recs, shapes)), db.accepts)
    ensures errors' == errors + CountOf(ShapeBatches(recs, shapes), Refuses(db.accepts, ConflictColumns))
    ensures ids'.Keys == ids.Keys + AcceptedKeys(db.accepts, Flatten(ShapeBatches(recs, shapes)))
  {
    ghost var st0 := db.Snapshot();
    ghost var acc := db.accepts;
    ghost var written: seq<Fields> := [];
    ghost var sent: seq<seq<Fields>> := [];
    ids', inserted', errors' := ids, inserted, errors;
    assert shapes[..0] == [];
    for g := 0 to |shapes|
      invariant db.Valid() && Registered(db.Snapshot(), ids')
      invariant sent == ShapeBatches(recs, shapes[..g])
      invariant written == Filter(Flatten(sent), acc)
      invariant db.Snapshot() == UpsertAll(st0, written, ConflictColumns).0
      invariant inserted' == inserted + |written|
      invariant errors' == errors + CountOf(sent, Refuses(acc, ConflictColumns))
      invariant ids'.Keys == ids.Keys + RecordKeys(written)
    {
      var batches := Chunks(groups[shapes[g]], BatchSize);
      ShapeStep(recs, shapes, g);
      ghost var before, keys, ins, errs := db.Snapshot(), ids'.Keys, inserted', errors';
      ids', inserted', errors' := UpsertGroup(db, batches, ids', inserted', errors');
      SentGroup(st0, acc, written, sent, batches, ids.Keys, inserted, errors, before, db.Snapshot(), keys, ids'.Keys, ins, inserted', errs, errors');
      written := written + Filter(Flatten(batches), acc);
      sent := sent + batches;
    }
    WholePrefix(shapes);
  }

  lemma WholePrefix<T>(xs: seq<T>)
    ensures xs[..|xs|] == xs
  {
  }

  lemma PrefixSnoc<T>(xs: seq<T>, i: nat)
    requires i < |xs|
    ensures xs[..i + 1] == xs[..i] + [xs[i]]
  {
  }

  /**
   * `insert_projects`: the id map it returns, with the inserted and error
   * counts it prints.  The records written are the cleaned records the table
   * accepts, group by group and batch by batch; the map holds the key of each
   * of them and names the row stored under it.
   */
  method InsertProjects(db: Table, projects: seq<Fields>) returns (ids: map<(Value, Value), nat>, inserted: nat, errors: nat)
    requires db.Valid()
    modifies db
    ensures db.Valid()
    ensures db.Snapshot() == UpsertAll(old(db.Snapshot()), Filter(Flatten(ProjectBatches(projects)), db.accepts), ConflictColumns).0
    ensures ExtendsKeys(old(db.Snapshot()), db.Snapshot(), ConflictColumns)
    ensures Registered(db.Snapshot(), ids)
    ensures ids.Keys == AcceptedKeys(db.accepts, Cleaned(projects))
    ensures inserted == CountOf(Cleaned(projects), db.accepts)
    ensures errors == CountOf(ProjectBatches(projects), Refuses(db.accepts, ConflictColumns))
    ensures Admits(db.accepts, Cleaned(projects), ConflictColumns) ==> errors == 0 && inserted == |projects|
  {
    var shapes, groups := GroupByShape(projects);
    assert forall g :: 0 <= g < |shapes| ==> shapes[g] in groups;
    ghost var sent := ProjectBatches(projects);
    assert ShapeBatches(Cleaned(projects), shapes) == sent;
    ids, inserted, errors := UpsertShapes(db, Cleaned(projects), shapes, groups, map[], 0, 0);
    ProjectsWritten(db.accepts, projects, map[], ids.Keys, inserted, errors);
  }

  // ---------------------------------------------------------------------------
  // insert_typologies
  // ---------------------------------------------------------------------------

  /** `(typ.pop("_project_name"), typ.pop("_project_commune"))`. */
  function ParentKey(t: Fields): (Value, Value) {
    (Column(t, "_project_name"), Column(t, "_project_commune"))
  }

  /** The typology with its parent key popped and `project_id` set. */
  function Attach(t: Fields, pid: nat): (r: Fields)
    ensures "project_id" in r && r["project_id"] == VInt(pid)
    ensures "_project_name" !in r && "_project_commune" !in r
    ensures forall c :: c in t && c != "_project_name" && c != "_project_commune" && c != "project_id" ==> c in r && r[c] == t[c]
    ensures r.Keys == t.Keys - {"_project_name", "_project_commune"} + {"project_id"}
  {
    (t - {"_project_name", "_project_commune"})["project_id" := VInt(pid)]
  }

  /** The record names a parent the id map knows. */
  predicate ParentResolved(f: Fields, ids: map<(Value, Value), nat>) {
    "project_id" in f && exists key :: key in ids && f["project_id"] == VInt(ids[key])
  }

  /** The typologies whose parent is in the map, attached to it, in order. */
  function Resolve(ts: seq<Fields>, ids: map<(Value, Value), nat>): (r: seq<Fields>)
    ensures |r| <= |ts|
    ensures forall i :: 0 <= i < |r| ==> ParentResolved(r[i], ids)
  {
    if ts == [] then []
    else
      var last := ts[|ts| - 1];
      var key := ParentKey(last);
      Resolve(ts[..|ts| - 1], ids) + if key in ids then [Attach(last, ids[key])] else []
  }

  /** Exactly the typologies with a known parent survive: how many are dropped. */
  function Unresolved(ts: seq<Fields>, ids: map<(Value, Value), nat>): (n: nat)
    ensures n + |Resolve(ts, ids)| == |ts|
  {
    if ts == [] then 0
    else
      var last := ts[|ts| - 1];
      Unresolved(ts[..|ts| - 1], ids) + if ParentKey(last) in ids then 0 else 1
  }

  /** A typology whose parent is missing from the map leaves no record. */
  lemma {:induction false} ResolveDropsOrphans(ts: seq<Fields>, ids: map<(Value, Value), nat>)
    requires forall i :: 0 <= i < |ts| ==> ParentKey(ts[i]) !in ids
    ensures Resolve(ts, ids) == [] && Unresolved(ts, ids) == |ts|
  {
    if ts != [] {
      ResolveDropsOrphans(ts[..|ts| - 1], ids);
    }
  }

  /** A typology whose parent is in the map is attached to that parent's identifier. */
  lemma {:induction false} ResolveKeepsResolved(ts: seq<Fields>, ids: map<(Value, Value), nat>)
    requires forall i :: 0 <= i < |ts| ==> ParentKey(ts[i]) in ids
    ensures |Resolve(ts, ids)| == |ts|
    ensures forall i :: 0 <= i < |ts| ==> Resolve(ts, ids)[i] == Attach(ts[i], ids[ParentKey(ts[i])])
  {
    if ts != [] {
      var init := ts[..|ts| - 1];
      var last := ts[|ts| - 1];
      ResolveKeepsResolved(init, ids);
      var r := Resolve(ts, ids);
      assert r == Resolve(init, ids) + [Attach(last, ids[ParentKey(last)])];
      forall i | 0 <= i < |ts|
        ensures r[i] == Attach(ts[i], ids[ParentKey(ts[i])])
      {
        if i < |init| {
          assert ts[i] == init[i];
        }
      }
    }
  }

  /** The resolution loop of `insert_typologies`. */
  method ResolveParents(typologies: seq<Fields>, ids: map<(Value, Value), nat>) returns (resolved: seq<Fields>, unresolved: nat)
    requires forall i :: 0 <= i < |typologies| ==> CarriesParent(typologies[i])
    ensures resolved == Resolve(typologies, ids)
    ensures unresolved == Unresolved(typologies, ids)
  {
    resolved, unresolved := [], 0;
    for i := 0 to |typologies|
      invariant resolved == Resolve(typologies[..i], ids)
      invariant unresolved == Unresolved(typologies[..i], ids)
    {
      var typ := typologies[i];
      assert typologies[..i + 1][..i] == typologies[..i];
      var key := (typ["_project_name"], typ["_project_commune"]);
      if key in ids {
        resolved := resolved + [Attach(typ, ids[key])];
      } else {
        unresolved := unresolved + 1;
      }
    }
    assert typologies[..|typologies|] == typologies;
  }

  /** `set(t["project_id"] for t in resolved)`. */
  function ParentIds(resolved: seq<Fields>): set<Value> {
    set i | 0 <= i < |resolved| && "project_id" in resolved[i] :: resolved[i]["project_id"]
  }

  function Elements<T>(xs: seq<T>): set<T> {
    set x | x in xs
  }

  /** `list(s)`: the elements of a set, each once, in an order the model leaves open. */
  method ListSet<T>(s: set<T>) returns (order: seq<T>)
    ensures Elements(order) == s && |order| == |s|
  {
    order := [];
    var rest := s;
    while rest != {}
      invariant Elements(order) + rest == s && Elements(order) !! rest
      invariant |order| + |rest| == |s| && |Elements(order)| == |order|
      decreases |rest|
    {
      var x :| x in rest;
      assert Elements(order + [x]) == Elements(order) + {x};
      order := order + [x];
      rest := rest - {x};
    }
  }

  /** Deleting the rows of one batch of identifiers after another is deleting the rows of both. */
  lemma OutsideUnion(rows: seq<Row>, col: string, a: set<Value>, b: set<Value>)
    ensures Filter(Filter(rows, Outside(col, a)), Outside(col, b)) == Filter(rows, Outside(col, a + b))
  {
    FilterFilter(rows, Outside(col, a), Outside(col, b), Outside(col, a + b));
  }

  lemma ElementsFlattenSnoc<T>(xss: seq<seq<T>>, b: nat)
    requires b < |xss|
    ensures Elements(Flatten(xss[..b + 1])) == Elements(Flatten(xss[..b])) + Elements(xss[b])
  {
    assert xss[..b + 1][..b] == xss[..b];
    assert Flatten(xss[..b + 1]) == Flatten(xss[..b]) + xss[b];
  }

  /** Every record of a batch is a record of the list that was cut into batches. */
  lemma ChunkInFlatten<T>(batches: seq<seq<T>>, b: nat)
    requires b < |batches|
    ensures forall x :: x in batches[b] ==> x in Flatten(batches)
  {
    assert batches == batches[..b + 1] + batches[b + 1..];
    FlattenAppend(batches[..b + 1], batches[b + 1..]);
    assert batches[..b + 1][..b] == batches[..b];
  }

  /**
   * The delete loop: the parent identifiers, listed in the order the set
   * yields them, in batches of 50, each batch deleting its typologies; a
   * batch whose delete fails is reported and skipped.  `deleted` are the
   * identifiers of the batches that went through, `allDeleted` whether every
   * batch did.
   */
  method DeletePrevious(db: Table, pids: set<Value>) returns (deleted: set<Value>, allDeleted: bool)
    requires db.Valid()
    modifies db
    ensures db.Valid()
    ensures deleted <= pids
    ensures db.rows == Filter(old(db.rows), Outside("project_id", deleted))
    ensures db.nextId == old(db.nextId)
    ensures allDeleted ==> deleted == pids
    ensures (forall s :: s <= pids ==> db.permitsDelete("project_id", s)) ==> allDeleted
    ensures forall p :: p in pids && p !in deleted ==> exists s :: p in s && s <= pids && !db.permitsDelete("project_id", s)
  {
    ghost var rows0 := db.rows;
    var order := ListSet(pids);
    var batches := Chunks(order, BatchSize);
    deleted, allDeleted := {}, true;
    FilterAll(rows0, Outside("project_id", {}));
    assert Elements(Flatten(batches[..0])) == {};
    for b := 0 to |batches|
      invariant db.Valid() && db.nextId == old(db.nextId)
      invariant deleted <= Elements(Flatten(batches[..b]))
      invariant db.rows == Filter(rows0, Outside("project_id", deleted))
      invariant allDeleted ==> deleted == Elements(Flatten(batches[..b]))
      invariant (forall s :: s <= pids ==> db.permitsDelete("project_id", s)) ==> allDeleted
      invariant Refused(db.permitsDelete, pids, Elements(Flatten(batches[..b])), deleted)
    {
      var batch := Elements(batches[b]);
      ChunkInFlatten(batches, b);
      assert batch <= pids;
      var ok := db.DeleteIn("project_id", batch);
      ElementsFlattenSnoc(batches, b);
      RefusedStep(db.permitsDelete, pids, Elements(Flatten(batches[..b])), deleted, batch, ok);
      if ok {
        OutsideUnion(rows0, "project_id", deleted, batch);
        deleted := deleted + batch;
      } else {
        allDeleted := false;
      }
    }
    assert batches[..|batches|] == batches;
  }

  /** Every id seen but not deleted lies in a set of ids, all from `pids`, whose delete was refused. */
  ghost predicate Refused(permits: (string, set<Value>) -> bool, pids: set<Value>, seen: set<Value>, deleted: set<Value>) {
    forall p :: p in seen && p !in deleted ==> exists s :: p in s && s <= pids && !permits("project_id", s)
  }

  /** A batch that was deleted, or whose delete was refused, keeps every id seen accounted for. */
  lemma RefusedStep(permits: (string, set<Value>) -> bool, pids: set<Value>, seen: set<Value>, deleted: set<Value>,
                    batch: set<Value>, ok: bool)
    requires Refused(permits, pids, seen, deleted) && batch <= pids
    requires !ok ==> !permits("project_id", batch)
    ensures Refused(permits, pids, seen + batch, if ok then deleted + batch else deleted)
  {
    var deleted' := if ok then deleted + batch else deleted;
    forall p | p in seen + batch && p !in deleted'
      ensures exists s :: p in s && s <= pids && !permits("project_id", s)
    {
      if p !in seen || p in deleted {
        assert p in batch && !ok;
        assert p in batch && batch <= pids && !permits("project_id", batch);
      }
    }
  }

  /**
   * The insert loop: batches of 50, a failed batch retried one record at a
   * time.  Exactly the records the table accepts are added, in order, and
   * counted.
   */
  method InsertResolved(db: Table, resolved: seq<Fields>) returns (inserted: nat)
    requires db.Valid()
    modifies db
    ensures db.Valid()
    ensures db.Snapshot() == InsertAll(old(db.Snapshot()), Filter(resolved, db.accepts))
    ensures inserted == CountOf(resolved, db.accepts)
    ensures (forall x :: x in resolved ==> db.accepts(x)) ==> inserted == |resolved|
  {
    ghost var st0 := db.Snapshot();
    ghost var acc := db.accepts;
    ghost var written: seq<Fields> := [];
    var batches := Chunks(resolved, BatchSize);
    inserted := 0;
    assert batches[..0] == [];
    for b := 0 to |batches|
      invariant db.Valid()
      invariant written == Filter(Flatten(batches[..b]), acc)
      invariant db.Snapshot() == InsertAll(st0, written)
      invariant inserted == |written|
    {
      PrefixSnoc(batches, b);
      FlattenSnoc(batches[..b], batches[b]);
      FilterAppend(Flatten(batches[..b]), batches[b], acc);
      InsertAllAppend(st0, written, Filter(batches[b], acc));
      inserted := InsertBatch(db, batches[b], inserted);
      written := written + Filter(batches[b], acc);
    }
    WholePrefix(batches);
    if forall x :: x in resolved ==> acc(x) {
      FilterAll(resolved, acc);
    }
  }

  /** A record on its own is inserted exactly when the table accepts it. */
  lemma SingleAccepted(accepts: Fields -> bool, x: Fields)
    ensures (forall i :: 0 <= i < |[x]| ==> accepts([x][i])) <==> accepts(x)
  {
    assert [x][0] == x;
  }

  /** One batch of the insert loop: the batch insert, or, when it fails, one insert per record. */
  method InsertBatch(db: Table, batch: seq<Fields>, inserted: nat) returns (inserted': nat)
    requires db.Valid()
    modifies db
    ensures db.Valid()
    ensures db.Snapshot() == InsertAll(old(db.Snapshot()), Filter(batch, db.accepts))
    ensures inserted' == inserted + CountOf(batch, db.accepts)
  {
    ghost var st0 := db.Snapshot();
    ghost var acc := db.accepts;
    var ok := db.Insert(batch);
    if ok {
      FilterAll(batch, acc);
      inserted' := inserted + |batch|;
    } else {
      ghost var written: seq<Fields> := [];
      inserted' := inserted;
      assert batch[..0] == [];
      for j := 0 to |batch|
        invariant db.Valid()
        invariant written == Filter(batch[..j], acc)
        invariant db.Snapshot() == InsertAll(st0, written)
        invariant inserted' == inserted + |written|
      {
        var x := batch[j];
        FilterPrefixStep(batch, j, acc);
        InsertAllAppend(st0, written, [x]);
        SingleAccepted(acc, x);
        var one := db.Insert([x]);
        if one {
          inserted' := inserted' + 1;
          written := written + [x];
        }
      }
      WholePrefix(batch);
    }
  }

  /** The table after the deletes of `insert_typologies`: the rows outside `deleted`, the identifier counter untouched. */
  function AfterDelete(rows: seq<Row>, nextId: nat, deleted: set<Value>): State {
    State(Filter(rows, Outside("project_id", deleted)), nextId)
  }

  /**
   * `insert_typologies`: attach, delete the previous typologies of the
   * resolved parents, insert; the counts it prints.  The table ends as the
   * rows the deletes kept followed by the resolved typologies it accepts.
   */
  method InsertTypologies(db: Table, typologies: seq<Fields>, ids: map<(Value, Value), nat>)
    returns (inserted: nat, unresolved: nat, deleted: set<Value>)
    requires db.Valid()
    requires forall i :: 0 <= i < |typologies| ==> CarriesParent(typologies[i])
    modifies db
    ensures db.Valid()
    ensures unresolved == Unresolved(typologies, ids)
    ensures deleted <= ParentIds(Resolve(typologies, ids))
    ensures (forall s :: s <= ParentIds(Resolve(typologies, ids)) ==> db.permitsDelete("project_id", s)) ==>
              deleted == ParentIds(Resolve(typologies, ids))
    ensures db.Snapshot() == InsertAll(AfterDelete(old(db.rows), old(db.nextId), deleted), Filter(Resolve(typologies, ids), db.accepts))
    ensures inserted == CountOf(Resolve(typologies, ids), db.accepts)
    ensures forall i :: 0 <= i < |db.rows| ==> db.rows[i] in old(db.rows) || ParentResolved(db.rows[i].fields, ids)
  {
    var resolved, allDeleted;
    resolved, unresolved := ResolveParents(typologies, ids);
    deleted, allDeleted := DeletePrevious(db, ParentIds(resolved));
    FilterMembers(old(db.rows), Outside("project_id", deleted));
    FilterMembers(resolved, db.accepts);
    inserted := InsertResolved(db, resolved);
    KeptOrResolved(old(db.rows), AfterDelete(old(db.rows), old(db.nextId), deleted), resolved, Filter(resolved, db.accepts), ids);
  }

  /** Every row after the insert was there before the delete, or carries a resolved parent. */
  lemma KeptOrResolved(before: seq<Row>, kept: State, resolved: seq<Fields>, added: seq<Fields>, ids: map<(Value, Value), nat>)
    requires multiset(kept.rows) <= multiset(before)
    requires multiset(added) <= multiset(resolved)
    requires forall i :: 0 <= i < |resolved| ==> ParentResolved(resolved[i], ids)
    ensures var after := InsertAll(kept, added).rows;
            forall i :: 0 <= i < |after| ==> after[i] in before || ParentResolved(after[i].fields, ids)
  {
    var after := InsertAll(kept, added).rows;
    forall i | 0 <= i < |after|
      ensures after[i] in before || ParentResolved(after[i].fields, ids)
    {
      var n := |kept.rows|;
      if i < n {
        assert after[i] == after[..n][i] == kept.rows[i];
        assert kept.rows[i] in multiset(kept.rows);
      } else {
        assert after[n + (i - n)].fields == added[i - n];
        assert added[i - n] in multiset(resolved);
        var j :| 0 <= j < |resolved| && resolved[j] == added[i - n];
      }
    }
  }

  // ---------------------------------------------------------------------------
  // import_file
  // ---------------------------------------------------------------------------

  /**
   * What `import_file` reports.  After a real import, the id map (whose size
   * is the project count it prints), the typologies inserted, those without a
   * parent, and the parent identifiers whose old typologies were deleted.
   */
  datatype ImportOutcome =
    | NoProjects
    | DryRun(projects: nat, typologies: nat)
    | Imported(ids: map<(Value, Value), nat>, typologies: nat, unresolved: nat, deleted: set<Value>)

  /**
   * `import_file` on the rows of a file: without projects, or in a dry run,
   * it returns before any statement reaches the database; otherwise it
   * writes the projects, then their typologies.
   */
  method ImportFile(csv: seq<CsvRow>, dryRun: bool, projectsDb: Table, typologiesDb: Table) returns (outcome: ImportOutcome)
    requires projectsDb != typologiesDb && projectsDb.Valid() && typologiesDb.Valid()
    modifies projectsDb, typologiesDb
    ensures projectsDb.Valid() && typologiesDb.Valid()
    ensures TransformSpec(csv).projects == [] ==> outcome == NoProjects
    ensures TransformSpec(csv).projects != [] && dryRun ==>
              outcome == DryRun(|TransformSpec(csv).projects|, |TransformSpec(csv).typologies|)
    ensures TransformSpec(csv).projects != [] && !dryRun ==> outcome.Imported?
    ensures outcome.NoProjects? || outcome.DryRun? ==> unchanged(projectsDb) && unchanged(typologiesDb)
    ensures outcome.Imported? ==>
              var projects := TransformSpec(csv).projects;
              projectsDb.Snapshot() == UpsertAll(old(projectsDb.Snapshot()), Filter(Flatten(ProjectBatches(projects)), projectsDb.accepts), ConflictColumns).0 &&
              Registered(projectsDb.Snapshot(), outcome.ids) &&
              outcome.ids.Keys == AcceptedKeys(projectsDb.accepts, Cleaned(projects))
    ensures outcome.Imported? ==>
              var typologies := TransformSpec(csv).typologies;
              var resolved := Resolve(typologies, outcome.ids);
              outcome.unresolved == Unresolved(typologies, outcome.ids) &&
              outcome.deleted <= ParentIds(resolved) &&
              typologiesDb.Snapshot() == InsertAll(AfterDelete(old(typologiesDb.rows), old(typologiesDb.nextId), outcome.deleted),
                                                   Filter(resolved, typologiesDb.accepts)) &&
              outcome.typologies == CountOf(resolved, typologiesDb.accepts)
  {
    var projects, typologies, skipped := TransformProjects(csv);
    if projects == [] {
      return NoProjects;
    }
    if dryRun {
      return DryRun(|projects|, |typologies|);
    }
    var ids, inserted, errors := InsertProjects(projectsDb, projects);
    TransformCarriesParent(csv);
    var typInserted, unresolved, cleared := InsertTypologies(typologiesDb, typologies, ids);
    outcome := Imported(ids, typInserted, unresolved, cleared);
  }
}
