/** _builder_upsert_row: the row a log record upserts, when the record is
    exactly what the builder makes for its own table and key. */
module LoggedRows {
  import opened Rows
  import opened Identifiers
  import opened Statements
  import opened StatementGrammar
  import opened StatementText
  import opened BuiltStatements

  datatype LogRecord = LogRecord(tbl: string, sql: string, params: seq<Value>, pk: seq<Value>)

  /** The key columns' values; an absent column reads as None. */
  function KeyValues(t: Table, row: Row): (r: seq<Value>)
    ensures |r| == |PkCols(t)|
  {
    seq(|PkCols(t)|, i requires 0 <= i < |PkCols(t)| => if PkCols(t)[i] in row then row[PkCols(t)[i]] else Null)
  }

  function NormAll(vs: seq<Value>): seq<Value> {
    seq(|vs|, i requires 0 <= i < |vs| => NormValue(vs[i]))
  }

  function Params(st: Stmt): seq<Value> {
    if st.Delete? then st.pk else st.vals
  }

  /** The non-DELETE statements. */
  function Upserts(sts: seq<Stmt>): seq<Stmt> {
    if sts == [] then []
    else (if sts[0].Delete? then [] else [sts[0]]) + Upserts(sts[1..])
  }

  /** The column list of the statement the table's rows travel in. */
  function LoggedInto(t: Table, sql: string): Option<Into> {
    if t == Embeddings then ParseInsert(sql)
    else if ParseUpsert(sql).Some? then Some(ParseUpsert(sql).value.0) else None
  }

  function BuilderUpsertRow(rec: LogRecord, columns: map<Table, seq<string>>): Option<Row> {
    var t := TableNamed(rec.tbl);
    if t.None? then None
    else
      var into := LoggedInto(t.value, rec.sql);
      if into.None? || into.value.t != rec.tbl then None
      else
        var cols := into.value.cols;
        if t.value !in columns || columns[t.value] == [] || cols != columns[t.value] || |cols| != |rec.params| then None
        else Rebuilt(t.value, rec, cols)
  }

  /** The row of the parameters, if the builder makes this very statement of it. */
  function Rebuilt(t: Table, rec: LogRecord, cols: seq<string>): Option<Row>
    requires |cols| == |rec.params|
  {
    var row := Zip(cols, rec.params);
    var pk := KeyValues(t, row);
    if NormAll(pk) != NormAll(rec.pk) then None
    else
      var built := Build(t, pk, Some(row), cols);
      if built.Err? then None
      else
        var ups := Upserts(built.value);
        if |ups| != 1 || Sql(ups[0]) != rec.sql || Params(ups[0]) != rec.params then None else Some(row)
  }

  /** The statement that carries the row. */
  function Carrier(t: Table, row: Row, columns: seq<string>): Option<Stmt> {
    var built := Build(t, KeyValues(t, row), Some(row), columns);
    if built.Err? then None else Some(built.value[|built.value| - 1])
  }

  lemma CarrierIsUpserts(t: Table, row: Row, columns: seq<string>)
    requires Carrier(t, row, columns).Some?
    ensures var st := Carrier(t, row, columns).value; var cols := Filter(columns, row.Keys);
            && Upserts(Build(t, KeyValues(t, row), Some(row), columns).value) == [st]
            && st == (if t == Embeddings then Insert(t, cols, Values(cols, row))
                      else Upsert(t, cols, Without(cols, PkCols(t)), Values(cols, row)))
            && BuilderIdents(cols) && forall p :: p in PkCols(t) ==> p in cols
  {
    var sts := Build(t, KeyValues(t, row), Some(row), columns).value;
    if t == Embeddings {
      assert sts == [sts[0], sts[1]];
      assert sts[1..] == [sts[1]];
      assert [sts[1]][1..] == [];
      assert Upserts([sts[1]]) == [sts[1]] + [];
    } else {
      assert sts[1..] == [];
    }
  }

  lemma {:induction false} FilterAll(columns: seq<string>, keep: set<string>)
    requires forall c :: c in columns ==> c in keep
    ensures Filter(columns, keep) == columns
  {
    if columns != [] { FilterAll(columns[1..], keep); }
  }

  lemma ZipBack(columns: seq<string>, row: Row)
    requires row.Keys == set c | c in columns
    ensures Filter(columns, row.Keys) == columns && Zip(columns, Values(columns, row)) == row
  {
    FilterAll(columns, row.Keys);
    ZipValues(columns, Values(columns, row), row);
  }

  ghost predicate Readable(t: Table, cols: seq<string>) {
    StrictIdents(cols) && (t == Embeddings || exists c :: c in cols && c !in PkCols(t))
  }

  lemma CarrierParses(t: Table, cols: seq<string>, vals: seq<Value>)
    requires BuilderIdents(cols) && forall p :: p in PkCols(t) ==> p in cols
    ensures var st := if t == Embeddings then Insert(t, cols, vals) else Upsert(t, cols, Without(cols, PkCols(t)), vals);
            LoggedInto(t, Sql(st)) == if Readable(t, cols) then Some(IntoOf(t, cols)) else None
  {
    var sets := Without(cols, PkCols(t));
    if t == Embeddings {
      InsertTextParses(t, cols);
    } else {
      UpsertTextParses(t, cols, sets);
      SomethingToSet(cols, PkCols(t));
    }
  }

  /** The round trip: of the record the builder's statement for a whole row is
      logged as, the reader returns exactly that row; and it returns nothing
      exactly when the columns are not strict identifiers or leave nothing to
      set. */
  lemma ReadsBackBuiltRow(t: Table, row: Row, columns: map<Table, seq<string>>, rec: LogRecord)
    requires t in columns && columns[t] != [] && row.Keys == set c | c in columns[t]
    requires Carrier(t, row, columns[t]).Some?
    requires var st := Carrier(t, row, columns[t]).value; rec.sql == Sql(st) && rec.params == Params(st)
    requires rec.tbl == TableName(t) && NormAll(rec.pk) == NormAll(KeyValues(t, row))
    ensures BuilderUpsertRow(rec, columns) == if Readable(t, columns[t]) then Some(row) else None
  {
    var cols := columns[t];
    ZipBack(cols, row);
    CarrierIsUpserts(t, row, cols);
    NamesReadBack(t);
    CarrierParses(t, cols, Values(cols, row));
    assert Rebuilt(t, rec, cols) == Some(row) by { assert Zip(cols, rec.params) == row; }
  }

  /** Whatever the reader accepts is the builder's own statement for the row it
      returns: every column of the table, the record's table, key, text and
      values. */
  lemma OnlyBuiltRows(rec: LogRecord, columns: map<Table, seq<string>>)
    requires BuilderUpsertRow(rec, columns).Some?
    ensures var row := BuilderUpsertRow(rec, columns).value;
            exists t: Table ::
              && t in columns && rec.tbl == TableName(t) && row.Keys == (set c | c in columns[t])
              && NormAll(KeyValues(t, row)) == NormAll(rec.pk)
              && Carrier(t, row, columns[t]).Some?
              && Sql(Carrier(t, row, columns[t]).value) == rec.sql
              && Params(Carrier(t, row, columns[t]).value) == rec.params
  {
    var row := BuilderUpsertRow(rec, columns).value;
    var t := TableNamed(rec.tbl).value;
    assert row == Zip(columns[t], rec.params);
    assert Carrier(t, row, columns[t]).Some?;
    CarrierIsUpserts(t, row, columns[t]);
  }
}
