/** A batch read from one consistent store is never refused by D1's foreign
    keys, however the outbox range was cut and whatever consistent rows D1
    holds. */
module ForeignKeyOrder {
  import opened Rows
  import opened Statements
  import opened Outbox
  import opened Batches

  ghost predicate Buildable(recs: seq<Rec>, schema: Schema)
    requires SchemaOk(schema)
  {
    forall i :: 0 <= i < |recs| ==> BuildOf(recs[i], schema).Ok?
  }

  function BuildOf(rec: Rec, schema: Schema): Result<seq<Stmt>, BuildError>
    requires rec.key.tbl in schema
  {
    Build(rec.key.tbl, rec.key.pk, rec.row, schema[rec.key.tbl])
  }

  /** batch.statements: every record's statements, in record order. */
  ghost function Flatten(recs: seq<Rec>, schema: Schema): (sts: seq<Stmt>)
    requires SchemaOk(schema) && Buildable(recs, schema)
    ensures WellTyped(sts)
  {
    if recs == [] then []
    else
      assert Buildable(recs[1..], schema);
      BuildWellTyped(recs[0].key.tbl, recs[0].key.pk, recs[0].row, schema[recs[0].key.tbl]);
      BuildOf(recs[0], schema).value + Flatten(recs[1..], schema)
  }

  // ------------------------------------------------------------ parents travel

  ghost predicate CarriesParent(recs: seq<Rec>, r: Rec) {
    Parent(r.key).Some? && r.row.Some? ==>
      exists j :: 0 <= j < |recs| && recs[j].key == Parent(r.key).value && recs[j].row.Some?
  }

  ghost predicate Current(recs: seq<Rec>, rows: Db) {
    forall i :: 0 <= i < |recs| ==> recs[i].row == Get(rows, recs[i].key)
  }

  ghost predicate Same(views: seq<Db>, rows: Db) {
    forall i :: 0 <= i < |views| ==> views[i] == rows
  }

  lemma CarriesMore(recs: seq<Rec>, more: seq<Rec>, r: Rec)
    requires CarriesParent(recs, r)
    ensures CarriesParent(recs + more, r)
  {
    if Parent(r.key).Some? && r.row.Some? {
      var j :| 0 <= j < |recs| && recs[j].key == Parent(r.key).value && recs[j].row.Some?;
      assert (recs + more)[j] == recs[j];
    }
  }

  lemma ParentFound(recs: seq<Rec>, r: Rec, rows: Db)
    requires FkOk(rows) && Current(recs, rows) && r.row == Get(rows, r.key)
    requires Parent(r.key).Some? && Parent(r.key).value in KeysOf(recs)
    ensures CarriesParent(recs, r)
  {
    var j :| 0 <= j < |recs| && recs[j].key == Parent(r.key).value;
    if r.row.Some? { assert recs[j].row.Some?; }
  }

  /** The parent reads have passed record i: all is as stored, and every child
      upsert passed has its parent's upsert beside it. */
  ghost predicate Walked(recs: seq<Rec>, i: nat, extra: seq<Rec>, rows: Db) {
    && i <= |recs| && Current(recs + extra, rows)
    && (forall j :: 0 <= j < i ==> CarriesParent(recs + extra, recs[j]))
    && forall j :: 0 <= j < |extra| ==> extra[j].row.Some? && Parent(extra[j].key).None?
  }

  /** In one consistent store no child loses its parent: the record stays as
      read. */
  lemma ParentTravels(recs: seq<Rec>, i: nat, extra: seq<Rec>, rows: Db)
    requires i < |recs| && FkOk(rows) && Walked(recs, i, extra, rows)
    ensures var step := WithParent(recs[i], KeysOf(recs + extra), rows);
            recs[i := step.0] == recs && Walked(recs, i + 1, extra + step.1, rows)
  {
    var step := WithParent(recs[i], KeysOf(recs + extra), rows);
    var r := recs[i];
    assert (recs + extra)[i] == r;
    assert step.0 == r && recs[i := r] == recs by {
      if Parent(r.key).Some? && r.row.Some? { assert r.key in rows; }
    }
    var all := recs + (extra + step.1);
    assert all == (recs + extra) + step.1;
    forall j | 0 <= j < |all| ensures all[j].row == Get(rows, all[j].key) {
      if j < |recs + extra| { assert all[j] == (recs + extra)[j]; }
    }
    forall j | 0 <= j < i + 1 ensures CarriesParent(all, recs[j]) {
      if j < i { CarriesMore(recs + extra, step.1, recs[j]); }
      else if Parent(r.key).Some? && r.row.Some? {
        if Parent(r.key).value !in KeysOf(recs + extra) {
          assert all[|recs + extra|] == step.1[0];
        } else {
          ParentFound(recs + extra, r, rows);
          CarriesMore(recs + extra, step.1, r);
        }
      }
    }
  }

  lemma {:induction false} ParentsTravel(recs: seq<Rec>, i: nat, extra: seq<Rec>, views: seq<Db>, rows: Db)
    requires |recs| == |views| && Same(views, rows) && FkOk(rows) && Walked(recs, i, extra, rows)
    ensures ParentsFrom(recs, i, extra, views).0 == recs
    ensures Walked(recs, |recs|, ParentsFrom(recs, i, extra, views).1, rows)
    decreases |recs| - i
  {
    if i < |recs| {
      ParentTravels(recs, i, extra, rows);
      ParentsTravel(recs, i + 1, extra + WithParent(recs[i], KeysOf(recs + extra), rows).1, views, rows);
    }
  }

  // ------------------------------------------------------------ running an ordered batch

  /** What the rest of an ordered batch needs of D1. */
  ghost predicate Ready(recs: seq<Rec>, d: D1, rows: Db, schema: Schema)
    requires SchemaOk(schema)
  {
    && InOrder(recs) && FkOk(d.rows) && Buildable(recs, schema)
    && (forall i :: 0 <= i < |recs| ==> Null !in recs[i].key.pk)
    && (forall i :: 0 <= i < |recs| && recs[i].row.Some? ==> StoredRow(schema, recs[i].key, recs[i].row.value))
    && (forall i :: 0 <= i < |recs| && Parent(recs[i].key).Some? && recs[i].row.Some? ==>
          Parent(recs[i].key).value in d.rows || CarriesParent(recs, recs[i]))
  }

  /** One record of an ordered batch: D1 accepts it, and the rest stays ready. */
  lemma RecordAccepted(recs: seq<Rec>, d: D1, rows: Db, schema: Schema) returns (out: D1)
    requires SchemaOk(schema) && recs != [] && Ready(recs, d, rows, schema)
    ensures WellTyped(BuildOf(recs[0], schema).value)
    ensures ExecAll(d, BuildOf(recs[0], schema).value) == Some(out)
    ensures FkOk(out.rows)
    ensures forall k: Key :: k.tbl == Memories && k in d.rows && k !in out.rows ==> recs[0].key == k && recs[0].row.None?
    ensures recs[0].key.tbl == Memories && recs[0].row.Some? ==> recs[0].key in out.rows
  {
    var r := recs[0];
    BuildWellTyped(r.key.tbl, r.key.pk, r.row, schema[r.key.tbl]);
    if r.row.Some? {
      FirstHasParent(recs, d, rows, schema);
      out := BuiltEffect(r.key, r.row.value, schema[r.key.tbl], d);
    } else {
      ExecOne(d, Delete(r.key.tbl, r.key.pk));
      out := DeleteRow(d, r.key);
    }
    ExecAllFk(d, BuildOf(r, schema).value);
  }

  lemma FirstHasParent(recs: seq<Rec>, d: D1, rows: Db, schema: Schema)
    requires SchemaOk(schema) && recs != [] && Ready(recs, d, rows, schema) && recs[0].row.Some?
    ensures ParentPresent(recs[0].key, d.rows)
  {
    if Parent(recs[0].key).Some? && Parent(recs[0].key).value !in d.rows {
      var j :| 0 <= j < |recs| && recs[j].key == Parent(recs[0].key).value && recs[j].row.Some?;
      NotBefore(recs[0], recs[j]);
      assert false;
    }
  }

  lemma NotBefore(child: Rec, parent: Rec)
    requires Parent(child.key) == Some(parent.key) && parent.row.Some?
    ensures !Before(child, parent) && child != parent
  {}

  lemma StillReady(recs: seq<Rec>, d: D1, rows: Db, schema: Schema, out: D1)
    requires SchemaOk(schema) && recs != [] && Ready(recs, d, rows, schema)
    requires FkOk(out.rows)
    requires forall k: Key :: k.tbl == Memories && k in d.rows && k !in out.rows ==> recs[0].key == k && recs[0].row.None?
    requires recs[0].key.tbl == Memories && recs[0].row.Some? ==> recs[0].key in out.rows
    ensures Ready(recs[1..], out, rows, schema)
  {
    var rest := recs[1..];
    forall i | 0 <= i < |rest| && Parent(rest[i].key).Some? && rest[i].row.Some?
      ensures Parent(rest[i].key).value in out.rows || CarriesParent(rest, rest[i])
    {
      assert rest[i] == recs[i + 1];
      assert Before(recs[0], recs[i + 1]);
      StillHasParent(recs, d, out, i);
    }
  }

  lemma StillHasParent(recs: seq<Rec>, d: D1, out: D1, i: nat)
    requires i + 1 < |recs| && Parent(recs[i + 1].key).Some? && recs[i + 1].row.Some? && Before(recs[0], recs[i + 1])
    requires Parent(recs[i + 1].key).value in d.rows || CarriesParent(recs, recs[i + 1])
    requires forall k: Key :: k.tbl == Memories && k in d.rows && k !in out.rows ==> recs[0].key == k && recs[0].row.None?
    requires recs[0].key.tbl == Memories && recs[0].row.Some? ==> recs[0].key in out.rows
    ensures Parent(recs[i + 1].key).value in out.rows || CarriesParent(recs[1..], recs[i + 1])
  {
    var rest := recs[1..];
    var p := Parent(recs[i + 1].key).value;
    if p !in d.rows {
      var j :| 0 <= j < |recs| && recs[j].key == p && recs[j].row.Some?;
      if j > 0 { assert rest[j - 1] == recs[j]; }
    }
  }

  lemma {:induction false} OrderedBatchAccepted(recs: seq<Rec>, d: D1, rows: Db, schema: Schema)
    requires SchemaOk(schema) && Ready(recs, d, rows, schema)
    ensures ExecAll(d, Flatten(recs, schema)).Some?
    decreases |recs|
  {
    if recs != [] {
      var out := RecordAccepted(recs, d, rows, schema);
      StillReady(recs, d, rows, schema, out);
      OrderedBatchAccepted(recs[1..], out, rows, schema);
      ExecSplit(d, BuildOf(recs[0], schema).value, Flatten(recs[1..], schema));
    }
  }

  /** The theorem: a batch read from one foreign-key-consistent store, over any
      outbox range, is accepted by every foreign-key-consistent D1, and no
      prefix of its statements leaves an orphan. */
  lemma BatchNeverRejected(range: seq<OutRow>, store: Store, schema: Schema, views: seq<Db>, batch: seq<Rec>,
                           d: D1, n: nat)
    requires SchemaOk(schema) && StoreOk(schema, store) && FkOk(d.rows)
    requires Ascending(range) && forall e :: e in range ==> OutboxKeyOk(e.key)
    requires |views| == |Coalesce(range)| && Same(views, store.rows)
    requires batch == BatchOf(range, views, views) && Buildable(batch, schema)
    requires n <= |Flatten(batch, schema)|
    ensures ExecAll(d, Flatten(batch, schema)).Some?
    ensures WellTyped(Flatten(batch, schema)[..n])
            && ExecAll(d, Flatten(batch, schema)[..n]).Some?
            && FkOk(ExecAll(d, Flatten(batch, schema)[..n]).value.rows)
  {
    ReadBatchReady(range, store, schema, views, batch, d);
    OrderedBatchAccepted(batch, d, store.rows, schema);
    PrefixAccepted(d, Flatten(batch, schema), n);
  }

  lemma ReadBatchReady(range: seq<OutRow>, store: Store, schema: Schema, views: seq<Db>, batch: seq<Rec>, d: D1)
    requires SchemaOk(schema) && StoreOk(schema, store) && FkOk(d.rows)
    requires forall e :: e in range ==> OutboxKeyOk(e.key)
    requires |views| == |Coalesce(range)| && Same(views, store.rows)
    requires batch == BatchOf(range, views, views) && Buildable(batch, schema)
    ensures Ready(batch, d, store.rows, schema)
  {
    var recs := ReadRows(Coalesce(range), views);
    assert recs + [] == recs;
    ParentsTravel(recs, 0, [], views, store.rows);
    BatchReady(range, recs, ParentsFrom(recs, 0, [], views).1, store, schema, d);
  }

  lemma BatchReady(range: seq<OutRow>, recs: seq<Rec>, more: seq<Rec>, store: Store, schema: Schema, d: D1)
    requires SchemaOk(schema) && StoreOk(schema, store) && FkOk(d.rows)
    requires forall e :: e in range ==> OutboxKeyOk(e.key)
    requires |recs| == |Coalesce(range)|
    requires forall i :: 0 <= i < |recs| ==> recs[i].key == Coalesce(range)[i].key
    requires Walked(recs, |recs|, more, store.rows)
    requires Buildable(Order(recs + more), schema)
    ensures Ready(Order(recs + more), d, store.rows, schema)
  {
    var all := recs + more;
    var o := Order(all);
    OrderInOrder(all);
    OrderMembers(all);
    forall i | 0 <= i < |o|
      ensures Null !in o[i].key.pk && (o[i].row.Some? ==> StoredRow(schema, o[i].key, o[i].row.value))
      ensures CarriesParent(o, o[i])
    {
      assert o[i] in all;
      MemberSound(range, recs, more, store, schema, o[i]);
      CarriesAnywhere(all, o, o[i]);
    }
  }

  lemma MemberSound(range: seq<OutRow>, recs: seq<Rec>, more: seq<Rec>, store: Store, schema: Schema, r: Rec)
    requires SchemaOk(schema) && StoreOk(schema, store)
    requires forall e :: e in range ==> OutboxKeyOk(e.key)
    requires |recs| == |Coalesce(range)|
    requires forall i :: 0 <= i < |recs| ==> recs[i].key == Coalesce(range)[i].key
    requires Walked(recs, |recs|, more, store.rows)
    requires r in recs + more
    ensures Null !in r.key.pk && (r.row.Some? ==> StoredRow(schema, r.key, r.row.value))
    ensures CarriesParent(recs + more, r)
  {
    var j :| 0 <= j < |recs + more| && (recs + more)[j] == r;
    assert r.row == Get(store.rows, r.key);
    if j < |recs| {
      assert recs[j] == r;
      assert Coalesce(range)[j] in range;
    } else {
      assert more[j - |recs|] == r;
    }
  }

  lemma CarriesAnywhere(a: seq<Rec>, b: seq<Rec>, r: Rec)
    requires CarriesParent(a, r) && forall q :: q in a ==> q in b
    ensures CarriesParent(b, r)
  {
    if Parent(r.key).Some? && r.row.Some? {
      var j :| 0 <= j < |a| && a[j].key == Parent(r.key).value && a[j].row.Some?;
      assert a[j] in b;
    }
  }
}
