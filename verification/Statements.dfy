/** The statements the replicator may send, the builder that makes them, and
    what D1 does with them: foreign keys with cascade, the epoch triggers and
    the embedding triggers. */
module Statements {
  import opened Rows
  import opened Identifiers

  datatype Stmt =
    | Upsert(tbl: Table, cols: seq<string>, sets: seq<string>, vals: seq<Value>)
    | Insert(tbl: Table, cols: seq<string>, vals: seq<Value>)
    | Delete(tbl: Table, pk: seq<Value>)

  datatype BuildError = PkMismatch | UnusableColumns | UnsafeValue

  predicate JsonSafe(v: Value) { !v.Blob? }

  predicate AllSafe(vs: seq<Value>) { forall i :: 0 <= i < |vs| ==> JsonSafe(vs[i]) }

  function Filter(cols: seq<string>, keep: set<string>): (r: seq<string>)
    ensures forall c :: c in r <==> c in cols && c in keep
    ensures |r| <= |cols|
  {
    if cols == [] then [] else
      var rest := Filter(cols[1..], keep);
      if cols[0] in keep then [cols[0]] + rest else rest
  }

  function Without(cols: seq<string>, drop: seq<string>): (r: seq<string>)
    ensures forall c :: c in r <==> c in cols && c !in drop
    ensures |r| <= |cols|
  {
    if cols == [] then [] else
      var rest := Without(cols[1..], drop);
      if cols[0] in drop then rest else [cols[0]] + rest
  }

  function Values(cols: seq<string>, row: Row): (vs: seq<Value>)
    requires forall c :: c in cols ==> c in row
    ensures |vs| == |cols|
    ensures forall i :: 0 <= i < |cols| ==> vs[i] == row[cols[i]]
  {
    if cols == [] then [] else [row[cols[0]]] + Values(cols[1..], row)
  }

  /** The statements that make D1's row for a key equal the local row. */
  function Build(t: Table, pk: seq<Value>, row: Option<Row>, columns: seq<string>): Result<seq<Stmt>, BuildError> {
    if |pk| != |PkCols(t)| then Err(PkMismatch)
    else if !AllSafe(pk) then Err(UnsafeValue)
    else if row.None? then Ok([Delete(t, pk)])
    else
      var cols := Filter(columns, row.value.Keys);
      if !(forall c :: c in cols ==> BuilderIdent(c)) || !(forall c :: c in PkCols(t) ==> c in cols)
      then Err(UnusableColumns)
      else
        var vals := Values(cols, row.value);
        if !AllSafe(vals) then Err(UnsafeValue)
        else if t == Embeddings then Ok([Delete(t, pk), Insert(t, cols, vals)])
        else Ok([Upsert(t, cols, Without(cols, PkCols(t)), vals)])
  }

  // ------------------------------------------------------------ execution

  /** D1: its replicated rows and its embedding_change_epoch. */
  datatype D1 = D1(rows: Db, epoch: int)

  /** A statement's columns and parameters as one row; a repeated column's last
      parameter stands. */
  function Zip(cols: seq<string>, vals: seq<Value>): (r: Row)
    requires |cols| == |vals|
    ensures r.Keys == set c | c in cols
  {
    if cols == [] then map[]
    else
      var n := |cols| - 1;
      Zip(cols[..n], vals[..n])[cols[n] := vals[n]]
  }

  lemma {:induction false} ZipValues(cols: seq<string>, vals: seq<Value>, row: Row)
    requires |cols| == |vals|
    requires forall i :: 0 <= i < |cols| ==> cols[i] in row && vals[i] == row[cols[i]]
    ensures forall c :: c in cols ==> Zip(cols, vals)[c] == row[c]
  {
    if cols != [] {
      ZipValues(cols[..|cols| - 1], vals[..|cols| - 1], row);
    }
  }

  function KeyOf(t: Table, row: Row): Option<Key> {
    var cols := PkCols(t);
    if forall i :: 0 <= i < |cols| ==> cols[i] in row
    then Some(Key(t, seq(|cols|, i requires 0 <= i < |cols| && cols[i] in row => row[cols[i]])))
    else None
  }

  lemma KeyOfKeyed(k: Key, row: Row)
    requires KeyedBy(k, row)
    ensures KeyOf(k.tbl, row) == Some(k)
  {
    var cols := PkCols(k.tbl);
    assert seq(|cols|, i requires 0 <= i < |cols| && cols[i] in row => row[cols[i]]) == k.pk;
  }

  function Token(row: Row): Value {
    if "writer_token" in row then row["writer_token"] else Null
  }

  /** What the embedding triggers write over a row they do not trust. */
  function Cleared(row: Row): Row {
    row["representation" := Null]["dimension" := Null]["encoding_source" := Text("unknown")]
  }

  /** The rows an embedding trigger leaves alone. */
  predicate Settled(k: Key, row: Row) {
    k.tbl == Embeddings && Token(row) == Null ==> Cleared(row) == row
  }

  predicate Counted(t: Table) { t == Memories || t == Embeddings }

  predicate ParentPresent(k: Key, rows: Db) {
    Parent(k).Some? ==> Parent(k).value in rows
  }

  function InsertRow(d: D1, k: Key, row: Row): D1 {
    if k.tbl == Embeddings && Token(row) == Null
    then D1(d.rows[k := Cleared(row)], d.epoch + 2)
    else D1(d.rows[k := row], d.epoch + if Counted(k.tbl) then 1 else 0)
  }

  /** ON CONFLICT DO UPDATE over an existing row. An embedding update that does
      not change the writer token is treated as foreign. */
  function UpdateRow(d: D1, k: Key, row: Row): D1
    requires k in d.rows
  {
    var next := d.rows[k] + row;
    if k.tbl == Embeddings && "embedding" in row && Token(next) == Token(d.rows[k])
    then D1(d.rows[k := Cleared(next)["writer_token" := Null]], d.epoch + 2)
    else D1(d.rows[k := next], d.epoch + if Counted(k.tbl) then 1 else 0)
  }

  function Children(k: Key): set<Key> {
    if k.tbl == Memories then {Key(Embeddings, k.pk), Key(Crossrefs, k.pk)} else {}
  }

  function DeleteRow(d: D1, k: Key): D1 {
    if k !in d.rows || Null in k.pk then d // "= NULL" matches nothing
    else
      D1(d.rows - ({k} + Children(k)),
         d.epoch + (if Counted(k.tbl) then 1 else 0)
         + (if k.tbl == Memories && Key(Embeddings, k.pk) in d.rows then 1 else 0))
  }

  /** One statement on D1; None when D1 refuses it (a foreign or primary key). */
  function Exec(d: D1, st: Stmt): Option<D1>
    requires st.Delete? || |st.cols| == |st.vals|
  {
    match st
    case Delete(t, pk) => Some(DeleteRow(d, Key(t, pk)))
    case Insert(t, cols, vals) =>
      var row := Zip(cols, vals);
      var k := KeyOf(t, row);
      if k.None? || Null in k.value.pk || k.value in d.rows || !ParentPresent(k.value, d.rows) then None
      else Some(InsertRow(d, k.value, row))
    case Upsert(t, cols, _, vals) =>
      var row := Zip(cols, vals);
      var k := KeyOf(t, row);
      if k.None? || Null in k.value.pk || !ParentPresent(k.value, d.rows) then None
      else if k.value in d.rows then Some(UpdateRow(d, k.value, row))
      else Some(InsertRow(d, k.value, row))
  }

  ghost predicate WellTyped(sts: seq<Stmt>) {
    forall i :: 0 <= i < |sts| ==> sts[i].Delete? || |sts[i].cols| == |sts[i].vals|
  }

  function ExecAll(d: D1, sts: seq<Stmt>): Option<D1>
    requires WellTyped(sts)
    decreases |sts|
  {
    if sts == [] then Some(d)
    else
      var e := Exec(d, sts[0]);
      if e.None? then None else ExecAll(e.value, sts[1..])
  }

  lemma BuildWellTyped(t: Table, pk: seq<Value>, row: Option<Row>, columns: seq<string>)
    requires Build(t, pk, row, columns).Ok?
    ensures WellTyped(Build(t, pk, row, columns).value)
  {}

  /** A local row as the replicator reads it: all its columns are listed, it
      carries its key, and the embedding triggers have settled it. */
  ghost predicate LocalRow(k: Key, row: Row, columns: seq<string>) {
    && KeyedBy(k, row)
    && (forall c :: c in row ==> c in columns)
    && Settled(k, row)
  }

  /** The row the built statement carries is the local row. */
  lemma BuiltRow(k: Key, row: Row, columns: seq<string>)
    requires KeyedBy(k, row) && forall c :: c in row ==> c in columns
    ensures var cols := Filter(columns, row.Keys);
            Zip(cols, Values(cols, row)) == row && KeyOf(k.tbl, row) == Some(k)
  {
    var cols := Filter(columns, row.Keys);
    ZipValues(cols, Values(cols, row), row);
    KeyOfKeyed(k, row);
  }

  /** Building never confuses keys: what one statement may touch. */
  function Footprint(st: Stmt): set<Key>
    requires st.Delete? || |st.cols| == |st.vals|
  {
    match st
    case Delete(t, pk) => {Key(t, pk)} + Children(Key(t, pk))
    case Insert(t, cols, vals) => var k := KeyOf(t, Zip(cols, vals)); if k.Some? then {k.value} else {}
    case Upsert(t, cols, _, vals) => var k := KeyOf(t, Zip(cols, vals)); if k.Some? then {k.value} else {}
  }

  lemma ExecFrame(d: D1, st: Stmt)
    requires st.Delete? || |st.cols| == |st.vals|
    ensures Exec(d, st).Some? ==> forall k :: k !in Footprint(st) ==> Get(Exec(d, st).value.rows, k) == Get(d.rows, k)
    ensures Exec(d, st).Some? ==> Exec(d, st).value.epoch >= d.epoch
  {}

  /** D1's own constraint: no statement leaves an orphan. */
  lemma ExecKeepsFk(d: D1, st: Stmt)
    requires st.Delete? || |st.cols| == |st.vals|
    requires FkOk(d.rows)
    ensures Exec(d, st).Some? ==> FkOk(Exec(d, st).value.rows)
  {}

  lemma ExecAllFk(d: D1, sts: seq<Stmt>)
    requires WellTyped(sts) && FkOk(d.rows)
    ensures ExecAll(d, sts).Some? ==> FkOk(ExecAll(d, sts).value.rows)
    ensures ExecAll(d, sts).Some? ==> ExecAll(d, sts).value.epoch >= d.epoch
    decreases |sts|
  {
    if sts != [] {
      ExecKeepsFk(d, sts[0]);
      ExecFrame(d, sts[0]);
      var e := Exec(d, sts[0]);
      if e.Some? { ExecAllFk(e.value, sts[1..]); }
    }
  }

  // ------------------------------------------------------------ the builder's theorem

  lemma ExecBuiltInsert(k: Key, row: Row, columns: seq<string>, d: D1)
    requires LocalRow(k, row, columns) && ParentPresent(k, d.rows) && k !in d.rows
    ensures var cols := Filter(columns, row.Keys);
            Exec(d, Insert(k.tbl, cols, Values(cols, row))) == Some(InsertRow(d, k, row))
  {
    BuiltRow(k, row, columns);
  }

  lemma ExecBuiltUpsert(k: Key, row: Row, columns: seq<string>, sets: seq<string>, d: D1)
    requires LocalRow(k, row, columns) && ParentPresent(k, d.rows)
    ensures var cols := Filter(columns, row.Keys);
            Exec(d, Upsert(k.tbl, cols, sets, Values(cols, row)))
            == Some(if k in d.rows then UpdateRow(d, k, row) else InsertRow(d, k, row))
  {
    BuiltRow(k, row, columns);
  }

  lemma InsertedRow(d: D1, k: Key, row: Row)
    requires Settled(k, row)
    ensures InsertRow(d, k, row).rows == d.rows[k := row]
  {}

  lemma UpdatedRow(d: D1, k: Key, row: Row)
    requires k in d.rows && k.tbl != Embeddings
    ensures UpdateRow(d, k, row).rows == d.rows[k := d.rows[k] + row]
    ensures SameRow(Some(row), Some(d.rows[k] + row))
    ensures d.rows[k].Keys <= row.Keys ==> d.rows[k] + row == row
  {}

  lemma ExecOne(d: D1, st: Stmt)
    requires st.Delete? || |st.cols| == |st.vals|
    ensures WellTyped([st]) && ExecAll(d, [st]) == Exec(d, st)
  {
    assert [st][1..] == [];
  }

  lemma ExecTwo(d: D1, st: Stmt, st': Stmt)
    requires st.Delete? || |st.cols| == |st.vals|
    requires st'.Delete? || |st'.cols| == |st'.vals|
    requires Exec(d, st).Some?
    ensures WellTyped([st, st']) && ExecAll(d, [st, st']) == Exec(Exec(d, st).value, st')
  {
    assert [st, st'][1..] == [st'];
    ExecOne(Exec(d, st).value, st');
  }

  /** D1's rows once the statements of a present local row have run. */
  lemma BuiltEffect(k: Key, row: Row, columns: seq<string>, d: D1) returns (out: D1)
    requires LocalRow(k, row, columns)
    requires Build(k.tbl, k.pk, Some(row), columns).Ok?
    requires ParentPresent(k, d.rows)
    ensures var sts := Build(k.tbl, k.pk, Some(row), columns).value;
            WellTyped(sts) && ExecAll(d, sts) == Some(out)
    ensures out.rows == d.rows[k := if k in d.rows && k.tbl != Embeddings then d.rows[k] + row else row]
  {
    BuildWellTyped(k.tbl, k.pk, Some(row), columns);
    var sts := Build(k.tbl, k.pk, Some(row), columns).value;
    var cols := Filter(columns, row.Keys);
    if k.tbl == Embeddings {
      var mid := DeleteRow(d, k);
      assert Exec(d, sts[0]) == Some(mid);
      assert mid.rows == d.rows - {k};
      ExecTwo(d, sts[0], sts[1]);
      assert sts == [sts[0], sts[1]];
      ExecBuiltInsert(k, row, columns, mid);
      InsertedRow(mid, k, row);
      out := InsertRow(mid, k, row);
      assert (d.rows - {k})[k := row] == d.rows[k := row];
    } else {
      ExecOne(d, sts[0]);
      ExecBuiltUpsert(k, row, columns, Without(cols, PkCols(k.tbl)), d);
      InsertedRow(d, k, row);
      if k in d.rows { UpdatedRow(d, k, row); }
      out := if k in d.rows then UpdateRow(d, k, row) else InsertRow(d, k, row);
    }
  }

  /** A present local row: the statements succeed whenever D1 has the parent,
      and D1's row is then the local row. Nothing but this key moves. */
  lemma BuildMakesRowEqual(k: Key, row: Row, columns: seq<string>, d: D1)
    requires LocalRow(k, row, columns)
    requires Build(k.tbl, k.pk, Some(row), columns).Ok?
    requires ParentPresent(k, d.rows)
    ensures var sts := Build(k.tbl, k.pk, Some(row), columns).value;
            WellTyped(sts) && ExecAll(d, sts).Some?
            && k in ExecAll(d, sts).value.rows
            && SameRow(Some(row), Some(ExecAll(d, sts).value.rows[k]))
            && (forall o :: o != k ==> Get(ExecAll(d, sts).value.rows, o) == Get(d.rows, o))
            && (k !in d.rows || k.tbl == Embeddings || d.rows[k].Keys <= row.Keys
                ==> ExecAll(d, sts).value.rows[k] == row)
  {
    var out := BuiltEffect(k, row, columns, d);
    if k in d.rows && k.tbl != Embeddings { UpdatedRow(d, k, row); }
  }

  /** An absent local row: the DELETE always succeeds and removes the key, and
      with a memories row exactly its cascade children. */
  lemma BuildRemovesRow(k: Key, columns: seq<string>, d: D1)
    requires Build(k.tbl, k.pk, None, columns).Ok? && Null !in k.pk
    ensures var sts := Build(k.tbl, k.pk, None, columns).value;
            WellTyped(sts) && ExecAll(d, sts).Some?
            && k !in ExecAll(d, sts).value.rows
            && (forall o :: o != k && o !in Children(k) ==> Get(ExecAll(d, sts).value.rows, o) == Get(d.rows, o))
            && (k in d.rows ==> forall o :: o in Children(k) ==> o !in ExecAll(d, sts).value.rows)
  {
    var sts := Build(k.tbl, k.pk, None, columns).value;
    assert sts[1..] == [];
    assert ExecAll(d, sts) == Some(DeleteRow(d, k));
  }

  /** Sending the same statements again changes no row. */
  lemma {:induction false} BuildIdempotent(k: Key, row: Option<Row>, columns: seq<string>, d: D1)
    requires row.Some? ==> LocalRow(k, row.value, columns) && ParentPresent(k, d.rows)
    requires Null !in k.pk
    requires Build(k.tbl, k.pk, row, columns).Ok?
    ensures var sts := Build(k.tbl, k.pk, row, columns).value;
            WellTyped(sts) && ExecAll(d, sts).Some?
            && var once := ExecAll(d, sts).value;
            ExecAll(once, sts).Some? && ExecAll(once, sts).value.rows == once.rows
  {
    var sts := Build(k.tbl, k.pk, row, columns).value;
    if row.None? {
      assert sts == [Delete(k.tbl, k.pk)];
      ExecOne(d, sts[0]);
      ExecOne(DeleteRow(d, k), sts[0]);
      assert k !in DeleteRow(d, k).rows;
    } else {
      var once, twice := UpsertTwice(k, row.value, columns, d);
    }
  }

  lemma UpsertTwice(k: Key, row: Row, columns: seq<string>, d: D1) returns (once: D1, twice: D1)
    requires LocalRow(k, row, columns) && ParentPresent(k, d.rows)
    requires Build(k.tbl, k.pk, Some(row), columns).Ok?
    ensures var sts := Build(k.tbl, k.pk, Some(row), columns).value;
            WellTyped(sts) && ExecAll(d, sts) == Some(once) && ExecAll(once, sts) == Some(twice)
    ensures twice.rows == once.rows
  {
    once := BuiltEffect(k, row, columns, d);
    ParentKept(k, d.rows, once.rows[k]);
    twice := BuiltEffect(k, row, columns, once);
    MergeTwice(if k in d.rows then d.rows[k] else row, row);
    assert once.rows[k := once.rows[k]] == once.rows;
  }

  lemma ParentKept(k: Key, rows: Db, row: Row)
    requires ParentPresent(k, rows)
    ensures ParentPresent(k, rows[k := row])
  {}

  lemma MergeTwice(a: Row, b: Row)
    ensures (a + b) + b == a + b && b + b == b
  {}

  /** Why embeddings travel as DELETE and INSERT: an UPSERT over an existing
      embedding keeps the local row exactly when it changes the writer token or
      the row is already the one the trigger leaves behind. */
  lemma EmbeddingUpsertLosesProvenance(k: Key, row: Row, columns: seq<string>, d: D1) returns (out: D1)
    requires k.tbl == Embeddings && LocalRow(k, row, columns) && k in d.rows && Parent(k).value in d.rows
    requires "embedding" in row && "writer_token" in row && d.rows[k].Keys == row.Keys
    ensures Exec(d, EmbeddingUpsert(row, columns)) == Some(out) && k in out.rows
    ensures out.rows[k] == row <==> Token(row) != Token(d.rows[k]) || Token(row) == Null
  {
    out := UpdateRow(d, k, row);
    ExecBuiltUpsert(k, row, columns, Without(Filter(columns, row.Keys), PkCols(Embeddings)), d);
    UpdatedEmbedding(d, k, row);
  }

  /** The UPSERT the builder does not send. */
  function EmbeddingUpsert(row: Row, columns: seq<string>): Stmt {
    var cols := Filter(columns, row.Keys);
    Upsert(Embeddings, cols, Without(cols, PkCols(Embeddings)), Values(cols, row))
  }

  lemma UpdatedEmbedding(d: D1, k: Key, row: Row)
    requires k.tbl == Embeddings && Settled(k, row) && k in d.rows && d.rows[k].Keys == row.Keys
    requires "embedding" in row && "writer_token" in row
    ensures UpdateRow(d, k, row).rows[k] == row <==> Token(row) != Token(d.rows[k]) || Token(row) == Null
  {
    assert d.rows[k] + row == row;
    if Token(row) == Token(d.rows[k]) {
      if Token(row) == Null {
        assert row["writer_token" := Null] == row;
      } else {
        assert UpdateRow(d, k, row).rows[k]["writer_token"] == Null;
      }
    }
  }

  lemma {:induction false} ExecSplit(d: D1, a: seq<Stmt>, b: seq<Stmt>)
    requires WellTyped(a) && WellTyped(b)
    ensures WellTyped(a + b)
    ensures ExecAll(d, a).Some? ==> ExecAll(d, a + b) == ExecAll(ExecAll(d, a).value, b)
    ensures ExecAll(d, a).None? ==> ExecAll(d, a + b).None?
    decreases |a|
  {
    if a == [] {
      assert a + b == b;
    } else {
      assert (a + b)[1..] == a[1..] + b;
      var e := Exec(d, a[0]);
      if e.Some? { ExecSplit(e.value, a[1..], b); }
      assert WellTyped(a + b);
    }
  }

  /** Every prefix of accepted statements is accepted and leaves no orphan. */
  lemma PrefixAccepted(d: D1, sts: seq<Stmt>, n: nat)
    requires WellTyped(sts) && n <= |sts| && FkOk(d.rows) && ExecAll(d, sts).Some?
    ensures WellTyped(sts[..n]) && ExecAll(d, sts[..n]).Some? && FkOk(ExecAll(d, sts[..n]).value.rows)
  {
    assert sts == sts[..n] + sts[n..];
    assert WellTyped(sts[..n]) && WellTyped(sts[n..]);
    ExecSplit(d, sts[..n], sts[n..]);
    ExecAllFk(d, sts[..n]);
  }
}
