/** The statement builder's texts, the checker that stands between them and D1,
    and the reader that takes a row back out of a logged statement. */
module StatementText {
  import opened Rows
  import opened Identifiers
  import opened Statements
  import opened StatementGrammar

  /** In pieces short enough for the verifier to see their characters. */
  const EPOCH_SQL := "SELECT value" + " FROM memories_meta" + " WHERE key = " + "'embedding_change_epoch'"

  function TableName(t: Table): string {
    match t
    case Memories => "memories"
    case Embeddings => "memories_embeddings"
    case Crossrefs => "memories_crossrefs"
    case Tombstones => "tombstones"
    case TombstoneComponents => "tombstone_components"
    case Actions => "memories_actions"
    case Meta => "memories_meta"
  }

  function TableNamed(s: string): (r: Option<Table>)
    ensures r.Some? ==> TableName(r.value) == s
  {
    if s == "memories" then Some(Memories)
    else if s == "memories_embeddings" then Some(Embeddings)
    else if s == "memories_crossrefs" then Some(Crossrefs)
    else if s == "tombstones" then Some(Tombstones)
    else if s == "tombstone_components" then Some(TombstoneComponents)
    else if s == "memories_actions" then Some(Actions)
    else if s == "memories_meta" then Some(Meta)
    else None
  }

  lemma NamesReadBack(t: Table)
    ensures TableNamed(TableName(t)) == Some(t)
  {
    match t
    case Memories =>
    case Embeddings => assert |TableName(t)| == 19;
    case Crossrefs => assert |TableName(t)| == 18;
    case Tombstones => assert |TableName(t)| == 10;
    case TombstoneComponents => assert |TableName(t)| == 20;
    case Actions => assert |TableName(t)| == 16;
    case Meta => assert |TableName(t)| == 13;
  }

  lemma NamesAreIdents(t: Table)
    ensures IsIdent(TableName(t))
  {
    var s := TableName(t);
    assert IdentStart(s[0]);
    forall i | 0 <= i < |s| ensures IdentChar(s[i]) { assert s[i] == '_' || 'a' <= s[i] <= 'z'; }
  }

  // ------------------------------------------------------------ the checker

  datatype Shape = EpochRead | UpsertShape | InsertShape | DeleteShape | ReadbackShape

  predicate UpsertAllowed(i: Into, c: Conflict) {
    var t := TableNamed(i.t);
    && t.Some? && t.value != Embeddings && c.pk == PkCols(t.value)
    && Distinct(i.cols) && (forall p :: p in c.pk ==> p in i.cols)
    && |i.marks| == |i.cols|
    && (forall j :: 0 <= j < |c.sets| ==> c.sets[j].0 == c.sets[j].1)
    && (set j | 0 <= j < |c.sets| :: c.sets[j].0) == (set x | x in i.cols && x !in c.pk)
    && forall j, k :: 0 <= j < k < |c.sets| ==> c.sets[j].0 != c.sets[k].0
  }

  predicate InsertAllowed(i: Into) {
    && i.t == TableName(Embeddings) && (forall p :: p in PkCols(Embeddings) ==> p in i.cols)
    && Distinct(i.cols) && |i.marks| == |i.cols|
  }

  predicate WhereAllowed(w: Where) {
    TableNamed(w.t).Some? && w.cols == PkCols(TableNamed(w.t).value)
  }

  const DELETE := "DELETE FROM "
  const SELECT := "SELECT * FROM "

  /** _check_statement: the accepted shape, or a refusal. */
  function CheckStatement(sql: string): Option<Shape> {
    if sql == EPOCH_SQL then Some(EpochRead)
    else if ParseUpsert(sql).Some? then
      var (i, c) := ParseUpsert(sql).value;
      if UpsertAllowed(i, c) then Some(UpsertShape) else None
    else if ParseInsert(sql).Some? then
      if InsertAllowed(ParseInsert(sql).value) then Some(InsertShape) else None
    else if ParseWhere(DELETE, sql).Some? then
      if WhereAllowed(ParseWhere(DELETE, sql).value) then Some(DeleteShape) else None
    else if ParseWhere(SELECT, sql).Some? then
      if WhereAllowed(ParseWhere(SELECT, sql).value) then Some(ReadbackShape) else None
    else None
  }

  /** What an allowed statement of each shape spells, letter by letter. */
  ghost predicate Spells(sql: string, shape: Shape) {
    match shape
    case EpochRead => sql == EPOCH_SQL
    case UpsertShape =>
      exists i: Into, c: Conflict :: IntoOk(i) && ConflictOk(c) && UpsertAllowed(i, c) && sql == RenderInto(i, RenderConflict(c))
    case InsertShape => exists i: Into :: IntoOk(i) && InsertAllowed(i) && sql == RenderInto(i, "")
    case DeleteShape => exists w: Where :: WhereOk(w) && WhereAllowed(w) && sql == RenderWhere(DELETE, w)
    case ReadbackShape => exists w: Where :: WhereOk(w) && WhereAllowed(w) && sql == RenderWhere(SELECT, w)
  }

  lemma IntoStarts(sql: string)
    requires ParseInto(sql).Some?
    ensures |sql| > 0 && sql[0] == 'I'
  {}

  lemma WhereStarts(head: string, sql: string)
    requires ParseWhere(head, sql).Some? && head != ""
    ensures head <= sql && sql[0] == head[0]
  {}

  lemma Letters()
    ensures EPOCH_SQL[0] == 'S' && EPOCH_SQL[7] == 'v' && DELETE[0] == 'D' && SELECT[0] == 'S' && SELECT[7] == '*'
  {}

  lemma KeyShapeAlone(sql: string)
    ensures ParseWhere(DELETE, sql).Some? ==> sql != "" && sql[0] == 'D' && sql != EPOCH_SQL
    ensures ParseWhere(SELECT, sql).Some? ==> sql != "" && sql[0] == 'S' && sql != EPOCH_SQL
  {
    Letters();
    if ParseWhere(DELETE, sql).Some? { WhereStarts(DELETE, sql); }
    if ParseWhere(SELECT, sql).Some? {
      WhereStarts(SELECT, sql);
      assert sql[7] == SELECT[7];
    }
  }

  /** Each text is at most one shape's, so the order of the tests is immaterial. */
  lemma OneShape(sql: string)
    ensures ParseUpsert(sql).Some? ==> ParseInsert(sql).None?
    ensures ParseInto(sql).Some? ==> ParseWhere(DELETE, sql).None? && ParseWhere(SELECT, sql).None? && sql != EPOCH_SQL
    ensures ParseWhere(DELETE, sql).Some? ==> ParseWhere(SELECT, sql).None? && sql != EPOCH_SQL
    ensures ParseWhere(SELECT, sql).Some? ==> sql != EPOCH_SQL
  {
    if ParseInto(sql).Some? {
      IntoStarts(sql);
      Letters();
    }
    KeyShapeAlone(sql);
  }

  /** The checker accepts exactly the allowed texts, under their own shape. */
  lemma CheckExact(sql: string, shape: Shape)
    ensures CheckStatement(sql) == Some(shape) <==> Spells(sql, shape)
  {
    OneShape(sql);
    match shape
    case EpochRead =>
    case UpsertShape => CheckUpsertExact(sql);
    case InsertShape => CheckInsertExact(sql);
    case DeleteShape => CheckWhereExact(sql, DELETE);
    case ReadbackShape => CheckWhereExact(sql, SELECT);
  }

  lemma CheckUpsertExact(sql: string)
    ensures Spells(sql, UpsertShape) <==>
              ParseUpsert(sql).Some? && UpsertAllowed(ParseUpsert(sql).value.0, ParseUpsert(sql).value.1)
  {
    if ParseUpsert(sql).Some? { ParseUpsertExact(sql, ParseUpsert(sql).value.0, ParseUpsert(sql).value.1); }
    if Spells(sql, UpsertShape) {
      var i: Into, c: Conflict :| IntoOk(i) && ConflictOk(c) && UpsertAllowed(i, c) && sql == RenderInto(i, RenderConflict(c));
      ParseUpsertExact(sql, i, c);
    }
  }

  lemma CheckInsertExact(sql: string)
    ensures Spells(sql, InsertShape) <==> ParseInsert(sql).Some? && InsertAllowed(ParseInsert(sql).value)
  {
    if ParseInsert(sql).Some? { ParseInsertExact(sql, ParseInsert(sql).value); }
    if Spells(sql, InsertShape) {
      var i: Into :| IntoOk(i) && InsertAllowed(i) && sql == RenderInto(i, "");
      ParseInsertExact(sql, i);
    }
  }

  lemma CheckWhereExact(sql: string, head: string)
    ensures (exists w: Where :: WhereOk(w) && WhereAllowed(w) && sql == RenderWhere(head, w)) <==>
              ParseWhere(head, sql).Some? && WhereAllowed(ParseWhere(head, sql).value)
  {
    if ParseWhere(head, sql).Some? { ParseWhereExact(head, sql, ParseWhere(head, sql).value); }
    if exists w: Where :: WhereOk(w) && WhereAllowed(w) && sql == RenderWhere(head, w) {
      var w: Where :| WhereOk(w) && WhereAllowed(w) && sql == RenderWhere(head, w);
      ParseWhereExact(head, sql, w);
    }
  }

  /** Every accepted write names one replicated table and its whole key: a
      DELETE in its WHERE, an INSERT or UPSERT in its column list, an UPSERT in
      its conflict target too, and an UPSERT sets every other column to its own
      new value. */
  lemma AcceptedWriteNamesKey(sql: string, shape: Shape) returns (t: Table, cols: seq<string>)
    requires CheckStatement(sql) == Some(shape) && shape !in {EpochRead, ReadbackShape}
    ensures shape == DeleteShape ==> cols == PkCols(t) && sql == RenderWhere(DELETE, Where(TableName(t), cols))
    ensures shape != DeleteShape ==> Distinct(cols) && forall p :: p in PkCols(t) ==> p in cols
    ensures shape == InsertShape ==> t == Embeddings && sql == RenderInto(Into(TableName(t), cols, Questions(|cols|)), "")
    ensures shape == UpsertShape ==> t != Embeddings && exists sets: seq<(string, string)> ::
              && sql == RenderInto(Into(TableName(t), cols, Questions(|cols|)), RenderConflict(Conflict(PkCols(t), sets)))
              && (forall p :: p in sets ==> p.0 == p.1)
              && Distinct(sets) && forall x :: (x, x) in sets <==> x in cols && x !in PkCols(t)
  {
    CheckExact(sql, shape);
    match shape {
      case DeleteShape =>
        var w: Where :| WhereOk(w) && WhereAllowed(w) && sql == RenderWhere(DELETE, w);
        t, cols := TableNamed(w.t).value, w.cols;
      case InsertShape =>
        t := Embeddings;
        cols := SpelledInsert(sql);
      case UpsertShape =>
        t, cols := SpelledUpsert(sql);
    }
  }

  lemma SpelledInsert(sql: string) returns (cols: seq<string>)
    requires Spells(sql, InsertShape)
    ensures Distinct(cols) && forall p :: p in PkCols(Embeddings) ==> p in cols
    ensures sql == RenderInto(Into(TableName(Embeddings), cols, Questions(|cols|)), "")
  {
    var i: Into :| IntoOk(i) && InsertAllowed(i) && sql == RenderInto(i, "");
    cols := i.cols;
    MarksAreQuestions(i.marks);
  }

  lemma SpelledUpsert(sql: string) returns (t: Table, cols: seq<string>)
    requires Spells(sql, UpsertShape)
    ensures t != Embeddings && Distinct(cols) && forall p :: p in PkCols(t) ==> p in cols
    ensures exists sets: seq<(string, string)> ::
              && sql == RenderInto(Into(TableName(t), cols, Questions(|cols|)), RenderConflict(Conflict(PkCols(t), sets)))
              && (forall p :: p in sets ==> p.0 == p.1)
              && Distinct(sets) && forall x :: (x, x) in sets <==> x in cols && x !in PkCols(t)
  {
    var i: Into, c: Conflict :|
      IntoOk(i) && ConflictOk(c) && UpsertAllowed(i, c) && sql == RenderInto(i, RenderConflict(c));
    t, cols := TableNamed(i.t).value, i.cols;
    MarksAreQuestions(i.marks);
    SetsArePairs(i.cols, c.pk, c.sets);
  }

  function Questions(n: nat): (r: seq<string>)
    ensures |r| == n && forall i :: 0 <= i < n ==> r[i] == "?"
  {
    if n == 0 then [] else ["?"] + Questions(n - 1)
  }

  lemma MarksAreQuestions(marks: seq<string>)
    requires AllOk(MARK, marks)
    ensures marks == Questions(|marks|)
  {
    forall i | 0 <= i < |marks| ensures marks[i] == "?" { assert MARK.ok(marks[i]); }
  }

  lemma SetsArePairs(cols: seq<string>, pk: seq<string>, sets: seq<(string, string)>)
    requires forall j :: 0 <= j < |sets| ==> sets[j].0 == sets[j].1
    requires (set j | 0 <= j < |sets| :: sets[j].0) == (set x | x in cols && x !in pk)
    ensures forall x :: (x, x) in sets <==> x in cols && x !in pk
  {
    var named, rest := set j | 0 <= j < |sets| :: sets[j].0, set x | x in cols && x !in pk;
    forall x ensures (x, x) in sets <==> x in cols && x !in pk {
      assert x in rest <==> x in cols && x !in pk;
      if (x, x) in sets {
        var j :| 0 <= j < |sets| && sets[j] == (x, x);
        assert sets[j].0 in named;
      }
      if x in named {
        var j :| 0 <= j < |sets| && sets[j].0 == x;
        assert sets[j] == (x, x);
      }
    }
  }
}
