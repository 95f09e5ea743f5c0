/** The builder against the checker: which built statements pass, and that a
    logged statement gives back exactly the row it was built from. */
module BuiltStatements {
  import opened Rows
  import opened Identifiers
  import opened Statements
  import opened StatementGrammar
  import opened StatementText

  // ------------------------------------------------------------ the builder's texts

  function Pairs(cols: seq<string>): (r: seq<(string, string)>)
    ensures |r| == |cols| && forall i :: 0 <= i < |cols| ==> r[i] == (cols[i], cols[i])
  {
    if cols == [] then [] else [(cols[0], cols[0])] + Pairs(cols[1..])
  }

  function IntoOf(t: Table, cols: seq<string>): Into {
    Into(TableName(t), cols, Questions(|cols|))
  }

  function Sql(st: Stmt): string {
    match st
    case Upsert(t, cols, sets, _) => RenderInto(IntoOf(t, cols), RenderConflict(Conflict(PkCols(t), Pairs(sets))))
    case Insert(t, cols, _) => RenderInto(IntoOf(t, cols), "")
    case Delete(t, _) => RenderWhere(DELETE, Where(TableName(t), PkCols(t)))
  }

  function ReadbackText(t: Table): string {
    RenderWhere(SELECT, Where(TableName(t), PkCols(t)))
  }

  // ------------------------------------------------------------ letters

  predicate Foreign(c: char) { c == '\n' || c == ';' }

  lemma {:induction false} ListLetters<T>(it: Item<T>, sep: string, xs: seq<T>, c: char)
    requires c !in sep
    ensures c in RenderList(it, sep, xs) <==> exists i :: 0 <= i < |xs| && c in it.render(xs[i])
  {
    if |xs| == 1 {
      RenderOne(it, sep, xs[0]);
      assert xs == [xs[0]];
    } else if |xs| > 1 {
      RenderCons(it, sep, xs);
      ListLetters(it, sep, xs[1..], c);
      if c in RenderList(it, sep, xs[1..]) {
        var i :| 0 <= i < |xs| - 1 && c in it.render(xs[1..][i]);
        assert xs[i + 1] == xs[1..][i];
      }
      if exists i :: 0 <= i < |xs| && c in it.render(xs[i]) {
        var i :| 0 <= i < |xs| && c in it.render(xs[i]);
        if i > 0 { assert xs[1..][i - 1] == xs[i]; }
      }
    }
  }

  lemma IdentsPlain(xs: seq<string>, c: char)
    requires AllOk(IDENT, xs) && Foreign(c)
    ensures c !in RenderList(IDENT, ", ", xs)
  {
    ListLetters(IDENT, ", ", xs, c);
    forall i | 0 <= i < |xs| ensures c !in IDENT.render(xs[i]) { assert IDENT.ok(xs[i]); }
  }

  lemma MarksPlain(xs: seq<string>, c: char)
    requires AllOk(MARK, xs) && Foreign(c)
    ensures c !in RenderList(MARK, ", ", xs)
  {
    ListLetters(MARK, ", ", xs, c);
    forall i | 0 <= i < |xs| ensures c !in MARK.render(xs[i]) { assert MARK.ok(xs[i]); }
  }

  lemma MatchesPlain(xs: seq<string>, c: char)
    requires AllOk(MATCH, xs) && Foreign(c)
    ensures c !in RenderList(MATCH, " AND ", xs)
  {
    ListLetters(MATCH, " AND ", xs, c);
    forall i | 0 <= i < |xs| ensures c !in MATCH.render(xs[i]) { assert MATCH.ok(xs[i]); }
  }

  lemma AssignsPlain(xs: seq<(string, string)>, c: char)
    requires AllOk(ASSIGN, xs) && Foreign(c)
    ensures c !in RenderList(ASSIGN, ", ", xs)
  {
    ListLetters(ASSIGN, ", ", xs, c);
    forall i | 0 <= i < |xs| ensures c !in ASSIGN.render(xs[i]) { assert ASSIGN.ok(xs[i]); }
  }

  lemma IntoPlain(i: Into, rest: string, c: char)
    requires IntoOk(i) && Foreign(c) && c !in rest
    ensures c !in RenderInto(i, rest)
  {
    IdentsPlain(i.cols, c);
    MarksPlain(i.marks, c);
  }

  lemma ConflictPlain(k: Conflict, c: char)
    requires ConflictOk(k) && Foreign(c)
    ensures c !in RenderConflict(k)
  {
    IdentsPlain(k.pk, c);
    AssignsPlain(k.sets, c);
  }

  lemma WherePlain(head: string, w: Where, c: char)
    requires WhereOk(w) && Foreign(c) && c !in head
    ensures c !in RenderWhere(head, w)
  {
    MatchesPlain(w.cols, c);
  }

  lemma SpelledInsertPlain(sql: string, shape: Shape, c: char)
    requires Spells(sql, shape) && Foreign(c) && (shape.UpsertShape? || shape.InsertShape?)
    ensures c !in sql
  {
    if shape.UpsertShape? {
      var i: Into, k: Conflict :| IntoOk(i) && ConflictOk(k) && UpsertAllowed(i, k) && sql == RenderInto(i, RenderConflict(k));
      ConflictPlain(k, c);
      IntoPlain(i, RenderConflict(k), c);
    } else {
      var i: Into :| IntoOk(i) && InsertAllowed(i) && sql == RenderInto(i, "");
      IntoPlain(i, "", c);
    }
  }

  lemma HeadsPlain(c: char)
    requires Foreign(c)
    ensures c !in DELETE && c !in SELECT
  {}

  lemma SpelledKeyPlain(sql: string, head: string, c: char)
    requires exists w: Where :: WhereOk(w) && WhereAllowed(w) && sql == RenderWhere(head, w)
    requires Foreign(c) && c !in head
    ensures c !in sql
  {
    var w: Where :| WhereOk(w) && WhereAllowed(w) && sql == RenderWhere(head, w);
    WherePlain(head, w, c);
  }

  lemma EpochPlain(c: char)
    requires Foreign(c)
    ensures c !in EPOCH_SQL
  {}

  lemma SpelledPlain(sql: string, shape: Shape, c: char)
    requires Spells(sql, shape) && Foreign(c)
    ensures c !in sql
  {
    match shape
    case EpochRead => EpochPlain(c);
    case UpsertShape => SpelledInsertPlain(sql, shape, c);
    case InsertShape => SpelledInsertPlain(sql, shape, c);
    case DeleteShape => { HeadsPlain(c); SpelledKeyPlain(sql, DELETE, c); }
    case ReadbackShape => { HeadsPlain(c); SpelledKeyPlain(sql, SELECT, c); }
  }

  /** Never two statements, never a second line: an accepted text has neither a
      semicolon nor a newline. */
  lemma AcceptedIsOneStatement(sql: string)
    requires CheckStatement(sql).Some?
    ensures ';' !in sql && '\n' !in sql
  {
    var shape := CheckStatement(sql).value;
    CheckExact(sql, shape);
    SpelledPlain(sql, shape, ';');
    SpelledPlain(sql, shape, '\n');
  }

  // ------------------------------------------------------------ parsing the builder's texts

  ghost predicate StrictIdents(cols: seq<string>) { forall c :: c in cols ==> IsIdent(c) }

  ghost predicate BuilderIdents(cols: seq<string>) { forall c :: c in cols ==> BuilderIdent(c) }

  lemma StrictColumns(t: Table, cols: seq<string>)
    requires StrictIdents(cols) && forall p :: p in PkCols(t) ==> p in cols
    ensures IntoOk(IntoOf(t, cols)) && AllOk(IDENT, PkCols(t))
  {
    NamesAreIdents(t);
    assert PkCols(t)[0] in cols;
    forall i | 0 <= i < |cols| ensures IDENT.ok(cols[i]) { assert cols[i] in cols; }
    forall i | 0 <= i < |PkCols(t)| ensures IDENT.ok(PkCols(t)[i]) { assert PkCols(t)[i] in cols; }
    forall i | 0 <= i < |cols| ensures MARK.ok(Questions(|cols|)[i]) {}
  }

  lemma StrictSets(sets: seq<string>)
    requires StrictIdents(sets) && sets != []
    ensures AllOk(ASSIGN, Pairs(sets))
  {
    forall i | 0 <= i < |sets| ensures ASSIGN.ok(Pairs(sets)[i]) { assert sets[i] in sets; }
  }

  /** A builder identifier that is not strict puts a newline in the text. */
  lemma LooseColumnBreaksLine(t: Table, cols: seq<string>, rest: string)
    requires BuilderIdents(cols) && !StrictIdents(cols)
    ensures '\n' in RenderInto(IntoOf(t, cols), rest)
  {
    var c :| c in cols && !IsIdent(c);
    var i :| 0 <= i < |cols| && cols[i] == c;
    assert BuilderIdent(c);
    BuilderIdentExact(c);
    assert '\n' in IDENT.render(cols[i]);
    ListLetters(IDENT, ", ", cols, '\n');
  }

  /** DO UPDATE SET with nothing to set is no statement of the grammar. */
  lemma EmptySetsFail(pk: seq<string>)
    requires AllOk(IDENT, pk)
    ensures ParseConflict(RenderConflict(Conflict(pk, []))).None?
  {
    var update := RenderUpdate([]);
    EatReads(" ON CONFLICT(", RenderList(IDENT, ", ", pk) + update);
    IdentsRead(pk, update);
    EatReads(") DO UPDATE SET ", "");
    assert RenderList(ASSIGN, ", ", []) == "";
    assert update == ") DO UPDATE SET " + "";
    assert TakeIdent("").None?;
    assert Assigns("").None?;
  }

  lemma UpsertTextParses(t: Table, cols: seq<string>, sets: seq<string>)
    requires BuilderIdents(cols) && (forall p :: p in PkCols(t) ==> p in cols) && forall s :: s in sets ==> s in cols
    ensures var r := ParseUpsert(Sql(Upsert(t, cols, sets, [])));
            && (r.Some? <==> StrictIdents(cols) && sets != [])
            && (r.Some? ==> r.value == (IntoOf(t, cols), Conflict(PkCols(t), Pairs(sets))))
  {
    var k := Conflict(PkCols(t), Pairs(sets));
    var sql := RenderInto(IntoOf(t, cols), RenderConflict(k));
    if !StrictIdents(cols) {
      LooseColumnBreaksLine(t, cols, RenderConflict(k));
      if ParseUpsert(sql).Some? {
        var (i, c) := ParseUpsert(sql).value;
        ParseUpsertExact(sql, i, c);
        ConflictPlain(c, '\n');
        IntoPlain(i, RenderConflict(c), '\n');
      }
    } else {
      StrictColumns(t, cols);
      if sets == [] {
        ParseIntoReads(IntoOf(t, cols), RenderConflict(k));
        EmptySetsFail(PkCols(t));
      } else {
        StrictSets(sets);
        ParseUpsertExact(sql, IntoOf(t, cols), k);
      }
    }
  }

  lemma InsertTextParses(t: Table, cols: seq<string>)
    requires BuilderIdents(cols) && forall p :: p in PkCols(t) ==> p in cols
    ensures var r := ParseInsert(Sql(Insert(t, cols, [])));
            && (r.Some? <==> StrictIdents(cols)) && (r.Some? ==> r.value == IntoOf(t, cols))
  {
    var sql := RenderInto(IntoOf(t, cols), "");
    if !StrictIdents(cols) {
      LooseColumnBreaksLine(t, cols, "");
      if ParseInsert(sql).Some? {
        ParseInsertExact(sql, ParseInsert(sql).value);
        IntoPlain(ParseInsert(sql).value, "", '\n');
      }
    } else {
      StrictColumns(t, cols);
      ParseInsertExact(sql, IntoOf(t, cols));
    }
  }

  // ------------------------------------------------------------ the builder passes the checker

  lemma {:induction false} WithoutDistinct(cols: seq<string>, drop: seq<string>)
    requires Distinct(cols)
    ensures Distinct(Without(cols, drop))
  {
    if cols != [] {
      assert Distinct(cols[1..]);
      WithoutDistinct(cols[1..], drop);
      var rest := Without(cols[1..], drop);
      forall i | 0 <= i < |rest| ensures rest[i] != cols[0] {
        assert rest[i] in cols[1..];
        var j :| 0 <= j < |cols[1..]| && cols[1..][j] == rest[i];
        assert cols[j + 1] == rest[i];
      }
    }
  }

  lemma PairsAllowed(cols: seq<string>, pk: seq<string>)
    requires Distinct(cols)
    ensures var sets := Pairs(Without(cols, pk));
            && (set j | 0 <= j < |sets| :: sets[j].0) == (set x | x in cols && x !in pk)
            && forall j, k :: 0 <= j < k < |sets| ==> sets[j].0 != sets[k].0
  {
    var rest := Without(cols, pk);
    var sets := Pairs(rest);
    WithoutDistinct(cols, pk);
    var named, others := set j | 0 <= j < |sets| :: sets[j].0, set x | x in cols && x !in pk;
    forall x ensures x in named <==> x in others {
      if x in rest {
        var j :| 0 <= j < |rest| && rest[j] == x;
        assert sets[j].0 == x;
      }
    }
  }

  /** A text that starts INSERT is judged by the INSERT shapes alone. */
  lemma OnlyInto(i: Into, rest: string)
    ensures var sql := RenderInto(i, rest);
            sql != EPOCH_SQL && ParseWhere(DELETE, sql).None? && ParseWhere(SELECT, sql).None?
  {
    var sql := RenderInto(i, rest);
    assert sql[0] == "INSERT INTO "[0] == 'I';
    assert EPOCH_SQL[0] == 'S' && DELETE[0] == 'D' && SELECT[0] == 'S';
    if ParseWhere(DELETE, sql).Some? { WhereStarts(DELETE, sql); }
    if ParseWhere(SELECT, sql).Some? { WhereStarts(SELECT, sql); }
  }

  /** Whatever follows VALUES (...), the text is no plain INSERT. */
  lemma NotPlainInsert(t: Table, cols: seq<string>, rest: string)
    requires BuilderIdents(cols) && (forall p :: p in PkCols(t) ==> p in cols) && rest != ""
    ensures ParseInsert(RenderInto(IntoOf(t, cols), rest)).None?
  {
    var sql := RenderInto(IntoOf(t, cols), rest);
    if StrictIdents(cols) {
      StrictColumns(t, cols);
      ParseIntoReads(IntoOf(t, cols), rest);
    } else {
      LooseColumnBreaksLine(t, cols, rest);
      if ParseInsert(sql).Some? {
        ParseInsertExact(sql, ParseInsert(sql).value);
        IntoPlain(ParseInsert(sql).value, "", '\n');
      }
    }
  }

  /** The checker judges a built UPSERT by its own shape alone. */
  lemma UpsertJudged(t: Table, cols: seq<string>, sets: seq<string>)
    requires BuilderIdents(cols) && (forall p :: p in PkCols(t) ==> p in cols) && forall s :: s in sets ==> s in cols
    ensures CheckStatement(Sql(Upsert(t, cols, sets, [])))
            == if StrictIdents(cols) && sets != [] && UpsertAllowed(IntoOf(t, cols), Conflict(PkCols(t), Pairs(sets)))
               then Some(UpsertShape) else None
  {
    var rest := RenderConflict(Conflict(PkCols(t), Pairs(sets)));
    UpsertTextParses(t, cols, sets);
    OnlyInto(IntoOf(t, cols), rest);
    NotPlainInsert(t, cols, rest);
  }

  lemma SomethingToSet(cols: seq<string>, pk: seq<string>)
    ensures Without(cols, pk) != [] <==> exists c :: c in cols && c !in pk
  {
    var sets := Without(cols, pk);
    if exists c :: c in cols && c !in pk {
      var c :| c in cols && c !in pk;
      assert c in sets;
    }
    if sets != [] { assert sets[0] in sets; }
  }

  /** A built UPSERT passes the checker exactly when every column is a strict
      identifier and listed once, and some column is not of the key. */
  lemma BuiltUpsertAccepted(t: Table, cols: seq<string>, vals: seq<Value>)
    requires t != Embeddings && BuilderIdents(cols) && forall p :: p in PkCols(t) ==> p in cols
    ensures var v := CheckStatement(Sql(Upsert(t, cols, Without(cols, PkCols(t)), vals)));
            && (v == Some(UpsertShape) <==>
                  StrictIdents(cols) && Distinct(cols) && exists c :: c in cols && c !in PkCols(t))
            && (v.Some? ==> v.value == UpsertShape)
  {
    var sets := Without(cols, PkCols(t));
    UpsertJudged(t, cols, sets);
    NamesReadBack(t);
    if Distinct(cols) { PairsAllowed(cols, PkCols(t)); }
    SomethingToSet(cols, PkCols(t));
  }

  lemma BuiltInsertAccepted(cols: seq<string>, vals: seq<Value>)
    requires BuilderIdents(cols) && forall p :: p in PkCols(Embeddings) ==> p in cols
    ensures var v := CheckStatement(Sql(Insert(Embeddings, cols, vals)));
            && (v == Some(InsertShape) <==> StrictIdents(cols) && Distinct(cols))
            && (v.Some? ==> v.value == InsertShape)
  {
    var sql := Sql(Insert(Embeddings, cols, vals));
    InsertTextParses(Embeddings, cols);
    OnlyInto(IntoOf(Embeddings, cols), "");
    OneShape(sql);
    if !StrictIdents(cols) {
      LooseColumnBreaksLine(Embeddings, cols, "");
      if CheckStatement(sql).Some? { AcceptedIsOneStatement(sql); }
    }
  }

  lemma KeyTextAccepted(t: Table)
    ensures CheckStatement(RenderWhere(DELETE, Where(TableName(t), PkCols(t)))) == Some(DeleteShape)
    ensures CheckStatement(ReadbackText(t)) == Some(ReadbackShape)
  {
    var w := Where(TableName(t), PkCols(t));
    NamesAreIdents(t);
    NamesReadBack(t);
    forall i | 0 <= i < |w.cols| ensures MATCH.ok(w.cols[i]) { KeyColumnsAreIdents(t, i); }
    CheckExact(RenderWhere(DELETE, w), DeleteShape);
    CheckExact(RenderWhere(SELECT, w), ReadbackShape);
  }

  lemma KeyColumnsAreIdents(t: Table, i: nat)
    requires i < |PkCols(t)|
    ensures IsIdent(PkCols(t)[i])
  {
    var s := PkCols(t)[i];
    assert s in {"id", "memory_id", "content_hash", "key"};
    forall j | 0 <= j < |s| ensures IdentChar(s[j]) { assert s[j] == '_' || 'a' <= s[j] <= 'z'; }
    assert IdentStart(s[0]);
  }

  /** Every statement the builder makes for a row of distinct, strictly named
      columns, one of them outside the key unless the row is an embedding, is
      accepted as its own shape; and so is every DELETE. */
  lemma BuiltStatementsAccepted(t: Table, pk: seq<Value>, row: Option<Row>, columns: seq<string>, i: nat)
    requires Build(t, pk, row, columns).Ok? && i < |Build(t, pk, row, columns).value|
    ensures var st := Build(t, pk, row, columns).value[i];
            match CheckStatement(Sql(st)) {
              case Some(DeleteShape) => st.Delete?
              case Some(InsertShape) => st.Insert? && StrictIdents(st.cols) && Distinct(st.cols)
              case Some(UpsertShape) => st.Upsert? && StrictIdents(st.cols) && Distinct(st.cols)
                                        && exists c :: c in st.cols && c !in PkCols(t)
              case Some(_) => false
              case None => !st.Delete? && (!StrictIdents(st.cols) || !Distinct(st.cols)
                                           || (st.Upsert? && forall c :: c in st.cols ==> c in PkCols(t)))
            }
  {
    var st := Build(t, pk, row, columns).value[i];
    match st
    case Delete(_, _) => KeyTextAccepted(t);
    case Insert(_, cols, vals) => BuiltInsertAccepted(cols, vals);
    case Upsert(_, cols, _, vals) => BuiltUpsertAccepted(t, cols, vals);
  }

  /** The builder's `$` lets a trailing newline through; the checker does not. */
  lemma BuilderPassesWhatCheckerRefuses()
    ensures var row: Row := map["id" := Int(1), "x\n" := Null];
            var r := Build(Memories, [Int(1)], Some(row), ["id", "x\n"]);
            r.Ok? && |r.value| == 1 && CheckStatement(Sql(r.value[0])).None?
  {
    var row: Row := map["id" := Int(1), "x\n" := Null];
    var columns := ["id", "x\n"];
    assert Filter(columns, row.Keys) == columns by { assert columns[1..] == ["x\n"]; assert columns[1..][1..] == []; }
    assert BuilderIdent("x\n") && !IsIdent("x\n") by {
      assert "x\n"[..1] == "x";
      assert !IdentChar("x\n"[1]);
    }
    assert BuilderIdent("id");
    assert "x\n" in columns;
    BuiltStatementsAccepted(Memories, [Int(1)], Some(row), columns, 0);
  }
}
