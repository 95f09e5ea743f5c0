/** Replaying the deduplicated log behind the cursor into the seed rebuilds the
    store: iter_log's order, one key's history, and the theorem over runs. */
module ReplayRebuilds {
  import opened Rows
  import opened Statements
  import opened Outbox
  import opened Batches
  import opened ForeignKeyOrder
  import opened ReplicaLog
  import Replicator
  import Safety = ReplicatorSafety
  import Log = ReplicaLogSafety

  // ------------------------------------------------------------ the replay order

  ghost predicate InOrder(xs: seq<LogRec>) {
    forall i, j :: 0 <= i < j < |xs| ==> Sooner(xs[i], xs[j])
  }

  ghost predicate UniqueIds(xs: seq<LogRec>) {
    forall i, j :: 0 <= i < j < |xs| ==> Id(xs[i]) != Id(xs[j])
  }

  ghost predicate Strict(xs: seq<LogRec>) {
    forall i, j :: 0 <= i < j < |xs| ==>
      xs[i].seq_ < xs[j].seq_ || (xs[i].seq_ == xs[j].seq_ && xs[i].index < xs[j].index)
  }

  lemma PlaceMembers(x: LogRec, xs: seq<LogRec>)
    ensures forall y :: y in PlaceLine(x, xs) <==> y == x || y in xs
  {
    forall y ensures y in PlaceLine(x, xs) <==> y == x || y in xs {
      assert y in PlaceLine(x, xs) <==> y in multiset(PlaceLine(x, xs));
      assert y in xs <==> y in multiset(xs);
    }
  }

  lemma ConsKeeps(x: LogRec, xs: seq<LogRec>)
    requires InOrder(xs) && UniqueIds(xs)
    requires forall y :: y in xs ==> Sooner(x, y) && Id(x) != Id(y)
    ensures InOrder([x] + xs) && UniqueIds([x] + xs)
  {
    forall i, j | 0 <= i < j < |xs| + 1
      ensures Sooner(([x] + xs)[i], ([x] + xs)[j]) && Id(([x] + xs)[i]) != Id(([x] + xs)[j])
    {
      assert xs[j - 1] in xs;
      if i > 0 { assert Sooner(xs[i - 1], xs[j - 1]); }
    }
  }

  lemma {:induction false} PlaceKeeps(x: LogRec, xs: seq<LogRec>)
    requires InOrder(xs) && UniqueIds(xs) && forall y :: y in xs ==> Id(y) != Id(x)
    ensures InOrder(PlaceLine(x, xs)) && UniqueIds(PlaceLine(x, xs))
  {
    if xs != [] {
      var rest := xs[1..];
      forall y | y in rest ensures Sooner(xs[0], y) && Id(xs[0]) != Id(y) {
        var i :| 0 <= i < |rest| && rest[i] == y;
        assert xs[i + 1] == y;
      }
      if Sooner(xs[0], x) {
        PlaceKeeps(x, rest);
        PlaceMembers(x, rest);
        ConsKeeps(xs[0], PlaceLine(x, rest));
      } else {
        forall y | y in xs ensures Sooner(x, y) { assert y == xs[0] || y in rest; }
        ConsKeeps(x, xs);
      }
    }
  }

  lemma SortedMembers(xs: seq<LogRec>)
    ensures forall y :: y in Sorted(xs) <==> y in xs
  {
    forall y ensures y in Sorted(xs) <==> y in xs {
      assert y in Sorted(xs) <==> y in multiset(Sorted(xs));
      assert y in xs <==> y in multiset(xs);
    }
  }

  lemma {:induction false} SortedInOrder(xs: seq<LogRec>)
    requires UniqueIds(xs)
    ensures InOrder(Sorted(xs)) && UniqueIds(Sorted(xs))
  {
    if xs != [] {
      var n := |xs| - 1;
      SortedInOrder(xs[..n]);
      SortedMembers(xs[..n]);
      forall y | y in Sorted(xs[..n]) ensures Id(y) != Id(xs[n]) {
        var i :| 0 <= i < n && xs[..n][i] == y;
      }
      PlaceKeeps(xs[n], Sorted(xs[..n]));
    }
  }

  lemma {:induction false} UpToUnique(xs: seq<LogRec>, c: nat)
    requires UniqueIds(xs)
    ensures UniqueIds(UpTo(xs, c))
  {
    if xs != [] {
      UpToUnique(xs[1..], c);
      var r := UpTo(xs[1..], c);
      forall j | 0 <= j < |r| ensures Id(xs[0]) != Id(r[j]) {
        assert r[j] in xs[1..];
        var i :| 0 <= i < |xs[1..]| && xs[1..][i] == r[j];
      }
    }
  }

  lemma {:induction false} OfStrict(xs: seq<LogRec>, k: Key)
    requires InOrder(xs) && UniqueIds(xs)
    ensures Strict(Of(xs, k))
  {
    if xs != [] {
      OfStrict(xs[1..], k);
      var r := Of(xs[1..], k);
      if xs[0].key == k {
        forall j | 0 <= j < |r|
          ensures xs[0].seq_ < r[j].seq_ || (xs[0].seq_ == r[j].seq_ && xs[0].index < r[j].index)
        {
          assert r[j] in xs[1..];
          var i :| 0 <= i < |xs[1..]| && xs[1..][i] == r[j];
          assert xs[i + 1] == r[j];
        }
      }
    }
  }

  /** What builder_check replays: the lines behind the cursor, by (seq, index). */
  function Replayable(log: seq<LogRec>, cursor: nat): seq<LogRec> {
    Sorted(UpTo(Dedup(log), cursor))
  }

  lemma ReplayableMembers(log: seq<LogRec>, cursor: nat)
    ensures forall x :: x in Replayable(log, cursor) <==> x in Dedup(log) && x.seq_ <= cursor
  {
    SortedMembers(UpTo(Dedup(log), cursor));
  }

  lemma ReplayableStrict(log: seq<LogRec>, cursor: nat, k: Key)
    ensures Strict(Of(Replayable(log, cursor), k))
  {
    DedupExact(log);
    UpToUnique(Dedup(log), cursor);
    SortedInOrder(UpTo(Dedup(log), cursor));
    OfStrict(Replayable(log, cursor), k);
  }

  lemma ReplayableHas(log: seq<LogRec>, cursor: nat, k: Key, n: nat, i: nat)
    requires n <= cursor && HasId(log, (n, k, i))
    ensures HasId(Of(Replayable(log, cursor), k), (n, k, i))
  {
    var d, xs := Dedup(log), Of(Replayable(log, cursor), k);
    DedupExact(log);
    var j :| 0 <= j < |d| && Id(d[j]) == (n, k, i);
    ReplayableMembers(log, cursor);
    assert d[j] in xs;
    var m :| 0 <= m < |xs| && xs[m] == d[j];
  }

  /** One key's part of the replay: strictly ordered lines of the log, and every
      id the log holds behind the cursor. */
  lemma KeyLines(log: seq<LogRec>, cursor: nat, k: Key)
    ensures Strict(Of(Replayable(log, cursor), k))
    ensures forall x :: x in Of(Replayable(log, cursor), k) ==> x in log && x.key == k && x.seq_ <= cursor
    ensures forall n: nat, i: nat :: n <= cursor && HasId(log, (n, k, i)) ==> HasId(Of(Replayable(log, cursor), k), (n, k, i))
  {
    ReplayableStrict(log, cursor, k);
    ReplayableMembers(log, cursor);
    forall n: nat, i: nat | n <= cursor && HasId(log, (n, k, i)) ensures HasId(Of(Replayable(log, cursor), k), (n, k, i)) {
      ReplayableHas(log, cursor, k, n, i);
    }
  }

  // ------------------------------------------------------------ one key's history

  /** Good lines of one key, in order, with their pairs. */
  ghost predicate History(schema: Schema, st: Store, k: Key, xs: seq<LogRec>)
    requires SchemaOk(schema)
  {
    Strict(xs) && forall i :: 0 <= i < |xs| ==> InHistory(schema, st, k, xs, i)
  }

  ghost predicate InHistory(schema: Schema, st: Store, k: Key, xs: seq<LogRec>, i: int)
    requires SchemaOk(schema) && 0 <= i < |xs|
  {
    xs[i].key == k && Log.LineGood(schema, st, xs[i]) && Log.Paired(xs, xs[i])
  }

  lemma LineTyped(schema: Schema, st: Store, x: LogRec)
    requires SchemaOk(schema) && Log.LineGood(schema, st, x)
    ensures x.stmt.Delete? || |x.stmt.cols| == |x.stmt.vals|
  {
    BuildWellTyped(x.key.tbl, x.key.pk, x.row, schema[x.key.tbl]);
  }

  /** A line alone: an embedding's INSERT needs the row gone; every other last
      line of a pair leaves its own row. */
  lemma LineEffect(schema: Schema, st: Store, x: LogRec, before: Option<Row>)
    requires SchemaOk(schema) && Log.LineGood(schema, st, x)
    ensures x.stmt.Delete? || |x.stmt.cols| == |x.stmt.vals|
    ensures x.index > 0 ==> x.index == 1 && x.key.tbl == Embeddings && x.row.Some?
    ensures x.index == 0 && x.key.tbl == Embeddings ==> Scratch(before, x.key, x.stmt) == Some(None)
    ensures x.index == 0 && x.key.tbl != Embeddings ==>
              Scratch(before, x.key, x.stmt).Some? && Carries(x.row, Scratch(before, x.key, x.stmt).value)
    ensures x.index == 1 && before.None? ==> Scratch(before, x.key, x.stmt) == Some(x.row)
  {
    Safety.RecStatements(schema, Rec(x.seq_, x.key, x.row));
    LineTyped(schema, st, x);
    if x.row.Some? && x.index == 1 {
      InsertEffect(x.key, x.row.value, schema[x.key.tbl], x.stmt);
    } else if x.row.Some? && x.key.tbl != Embeddings {
      UpsertEffect(x.key, x.row.value, schema[x.key.tbl], x.stmt, before);
    }
  }

  lemma InsertEffect(k: Key, row: Row, columns: seq<string>, st: Stmt)
    requires LocalRow(k, row, columns) && Build(k.tbl, k.pk, Some(row), columns).Ok? && k.tbl == Embeddings
    requires st == Build(k.tbl, k.pk, Some(row), columns).value[1]
    ensures |st.cols| == |st.vals| && Scratch(None, k, st) == Some(Some(row))
  {
    BuiltRow(k, row, columns);
    InsertedRow(D1(map[], 0), k, row);
  }

  lemma UpsertEffect(k: Key, row: Row, columns: seq<string>, st: Stmt, before: Option<Row>)
    requires LocalRow(k, row, columns) && Build(k.tbl, k.pk, Some(row), columns).Ok? && k.tbl != Embeddings
    requires st == Build(k.tbl, k.pk, Some(row), columns).value[0]
    ensures |st.cols| == |st.vals| && Scratch(before, k, st).Some? && Carries(Some(row), Scratch(before, k, st).value)
  {
    BuiltRow(k, row, columns);
    InsertedRow(D1(map[], 0), k, row);
    if before.Some? { UpdatedRow(D1(map[k := before.value], 0), k, row); }
  }

  /** What the replay has after the first n lines: nothing yet, between a pair's
      lines no row, and otherwise the last line's row. */
  ghost predicate After(xs: seq<LogRec>, n: nat, seedRow: Option<Row>, row: Option<Row>)
    requires n <= |xs|
  {
    if n == 0 then row == seedRow
    else
      var x := xs[n - 1];
      if x.index == 0 && x.key.tbl == Embeddings then row.None? else Carries(x.row, row)
  }

  /** An embedding's INSERT directly follows its DELETE. */
  lemma PairAdjacent(xs: seq<LogRec>, k: Key, n: nat)
    requires Strict(xs) && n < |xs| && xs[n].index == 1 && HasId(xs, (xs[n].seq_, k, 0))
    ensures n > 0 && xs[n - 1].seq_ == xs[n].seq_ && xs[n - 1].index == 0
  {
    var i :| 0 <= i < |xs| && Id(xs[i]) == (xs[n].seq_, k, 0);
    assert i < n;
    var before := xs[n - 1];
  }

  /** A pair's DELETE is never the last line. */
  lemma PairNotLast(xs: seq<LogRec>, k: Key)
    requires Strict(xs) && xs != [] && HasId(xs, (xs[|xs| - 1].seq_, k, 1))
    ensures xs[|xs| - 1].index > 0
  {
    var i :| 0 <= i < |xs| && Id(xs[i]) == (xs[|xs| - 1].seq_, k, 1);
    assert i <= |xs| - 1;
  }

  lemma {:induction false} HistoryReplays(schema: Schema, st: Store, k: Key, xs: seq<LogRec>, n: nat, seedRow: Option<Row>)
    requires SchemaOk(schema) && History(schema, st, k, xs) && n <= |xs|
    ensures Typed(xs) && Typed(xs[..n])
    ensures KeyReplay(seedRow, k, xs[..n]).Some?
    ensures After(xs, n, seedRow, KeyReplay(seedRow, k, xs[..n]).value)
  {
    HistoryTyped(schema, st, k, xs);
    if n > 0 {
      HistoryReplays(schema, st, k, xs, n - 1, seedRow);
      KeyReplaySnoc(seedRow, k, xs, n);
      HistoryStep(schema, st, k, xs, n, seedRow, KeyReplay(seedRow, k, xs[..n - 1]).value);
    }
  }

  lemma HistoryTyped(schema: Schema, st: Store, k: Key, xs: seq<LogRec>)
    requires SchemaOk(schema) && History(schema, st, k, xs)
    ensures Typed(xs)
  {
    forall i | 0 <= i < |xs| ensures xs[i].stmt.Delete? || |xs[i].stmt.cols| == |xs[i].stmt.vals| {
      HistoryAt(schema, st, k, xs, i);
      LineTyped(schema, st, xs[i]);
    }
  }

  lemma HistoryAt(schema: Schema, st: Store, k: Key, xs: seq<LogRec>, i: nat)
    requires SchemaOk(schema) && History(schema, st, k, xs) && i < |xs|
    ensures xs[i].key == k && Log.LineGood(schema, st, xs[i]) && Log.Paired(xs, xs[i])
  {
    assert InHistory(schema, st, k, xs, i);
  }

  /** One more line: it is accepted, and leaves what a history should. */
  lemma NextLine(schema: Schema, st: Store, xs: seq<LogRec>, n: nat, seedRow: Option<Row>, before: Option<Row>)
    requires SchemaOk(schema) && 0 < n <= |xs| && After(xs, n - 1, seedRow, before)
    requires Log.LineGood(schema, st, xs[n - 1])
    requires xs[n - 1].index > 0 ==> n > 1 && xs[n - 2].index == 0 && xs[n - 2].key.tbl == Embeddings
    ensures var x := xs[n - 1];
            && (x.stmt.Delete? || |x.stmt.cols| == |x.stmt.vals|) && Scratch(before, x.key, x.stmt).Some?
            && After(xs, n, seedRow, Scratch(before, x.key, x.stmt).value)
  {
    LineEffect(schema, st, xs[n - 1], before);
    CarriesReflexive(xs[n - 1].row);
  }

  /** Only an embedding's second line has an index past 0. */
  lemma SecondLine(schema: Schema, st: Store, x: LogRec)
    requires SchemaOk(schema) && Log.LineGood(schema, st, x) && x.index > 0
    ensures x.index == 1 && x.key.tbl == Embeddings
  {
    LineEffect(schema, st, x, None);
  }

  lemma HistoryId(schema: Schema, st: Store, k: Key, xs: seq<LogRec>, i: nat)
    requires SchemaOk(schema) && History(schema, st, k, xs) && i < |xs| && xs[i].index > 0
    ensures HasId(xs, (xs[i].seq_, k, 0))
  {
    HistoryAt(schema, st, k, xs, i);
  }

  /** An embedding's INSERT has its DELETE just before it. */
  lemma HistoryPair(schema: Schema, st: Store, k: Key, xs: seq<LogRec>, n: nat)
    requires SchemaOk(schema) && History(schema, st, k, xs) && 0 < n <= |xs|
    ensures xs[n - 1].index > 0 ==> n > 1 && xs[n - 2].index == 0 && xs[n - 2].key.tbl == Embeddings
  {
    if xs[n - 1].index > 0 {
      HistoryAt(schema, st, k, xs, n - 1);
      SecondLine(schema, st, xs[n - 1]);
      HistoryId(schema, st, k, xs, n - 1);
      PairAdjacent(xs, k, n - 1);
      HistoryKey(schema, st, k, xs, n - 2);
    }
  }

  lemma HistoryKey(schema: Schema, st: Store, k: Key, xs: seq<LogRec>, i: nat)
    requires SchemaOk(schema) && History(schema, st, k, xs) && i < |xs|
    ensures xs[i].key == k
  {
    HistoryAt(schema, st, k, xs, i);
  }

  lemma HistoryStep(schema: Schema, st: Store, k: Key, xs: seq<LogRec>, n: nat, seedRow: Option<Row>, before: Option<Row>)
    requires SchemaOk(schema) && History(schema, st, k, xs) && 0 < n <= |xs| && After(xs, n - 1, seedRow, before)
    ensures xs[n - 1].stmt.Delete? || |xs[n - 1].stmt.cols| == |xs[n - 1].stmt.vals|
    ensures Scratch(before, k, xs[n - 1].stmt).Some?
    ensures After(xs, n, seedRow, Scratch(before, k, xs[n - 1].stmt).value)
  {
    HistoryAt(schema, st, k, xs, n - 1);
    HistoryPair(schema, st, k, xs, n);
    NextLine(schema, st, xs, n, seedRow, before);
  }

  lemma KeyReplaySnoc(row: Option<Row>, k: Key, xs: seq<LogRec>, n: nat)
    requires Typed(xs) && 0 < n <= |xs|
    ensures Typed(xs[..n]) && Typed(xs[..n - 1])
    ensures KeyReplay(row, k, xs[..n])
            == if KeyReplay(row, k, xs[..n - 1]).None? then None
               else Scratch(KeyReplay(row, k, xs[..n - 1]).value, k, xs[n - 1].stmt)
  {
    assert xs[..n][..n - 1] == xs[..n - 1];
  }

  /** The last line carries its whole row. */
  lemma LastLine(schema: Schema, st: Store, k: Key, xs: seq<LogRec>, row: Option<Row>)
    requires SchemaOk(schema) && History(schema, st, k, xs) && xs != []
    requires After(xs, |xs|, None, row)
    ensures Carries(xs[|xs| - 1].row, row)
  {
    var x := xs[|xs| - 1];
    HistoryAt(schema, st, k, xs, |xs| - 1);
    if x.index == 0 && x.key.tbl == Embeddings && x.row.Some? { PairNotLast(xs, k); }
  }

  // ------------------------------------------------------------ columns

  ghost predicate ColumnsIn(row: Option<Row>, columns: seq<string>) {
    row.Some? ==> forall c :: c in row.value ==> c in columns
  }

  /** A row as SELECT * reads it: every column of its table. */
  ghost predicate FullRow(row: Option<Row>, columns: seq<string>) {
    row.Some? ==> row.value.Keys == set c | c in columns
  }

  lemma InsertColumns(k: Key, row: Row, columns: seq<string>, st: Stmt, before: Option<Row>)
    requires LocalRow(k, row, columns) && Build(k.tbl, k.pk, Some(row), columns).Ok? && k.tbl == Embeddings
    requires st == Build(k.tbl, k.pk, Some(row), columns).value[1]
    ensures |st.cols| == |st.vals|
    ensures Scratch(before, k, st).Some? ==> ColumnsIn(Scratch(before, k, st).value, columns)
  {
    InsertEffect(k, row, columns, st);
  }

  lemma UpsertColumns(k: Key, row: Row, columns: seq<string>, st: Stmt, before: Option<Row>)
    requires LocalRow(k, row, columns) && Build(k.tbl, k.pk, Some(row), columns).Ok? && k.tbl != Embeddings
    requires st == Build(k.tbl, k.pk, Some(row), columns).value[0] && ColumnsIn(before, columns)
    ensures |st.cols| == |st.vals| && Scratch(before, k, st).Some? && ColumnsIn(Scratch(before, k, st).value, columns)
  {
    BuiltRow(k, row, columns);
    InsertedRow(D1(map[], 0), k, row);
    if before.Some? { UpdatedRow(D1(map[k := before.value], 0), k, row); }
  }

  /** A line adds no column its table does not have. */
  lemma LineColumns(schema: Schema, st: Store, x: LogRec, before: Option<Row>)
    requires SchemaOk(schema) && Log.LineGood(schema, st, x) && ColumnsIn(before, schema[x.key.tbl])
    ensures x.stmt.Delete? || |x.stmt.cols| == |x.stmt.vals|
    ensures Scratch(before, x.key, x.stmt).Some? ==> ColumnsIn(Scratch(before, x.key, x.stmt).value, schema[x.key.tbl])
  {
    Safety.RecStatements(schema, Rec(x.seq_, x.key, x.row));
    LineTyped(schema, st, x);
    if x.row.Some? && x.index == 1 {
      InsertColumns(x.key, x.row.value, schema[x.key.tbl], x.stmt, before);
    } else if x.row.Some? && x.key.tbl != Embeddings {
      UpsertColumns(x.key, x.row.value, schema[x.key.tbl], x.stmt, before);
    }
  }

  lemma {:induction false} HistoryColumns(schema: Schema, st: Store, k: Key, xs: seq<LogRec>, n: nat, seedRow: Option<Row>)
    requires SchemaOk(schema) && History(schema, st, k, xs) && n <= |xs| && ColumnsIn(seedRow, schema[k.tbl])
    ensures Typed(xs) && Typed(xs[..n])
    ensures KeyReplay(seedRow, k, xs[..n]).Some? ==> ColumnsIn(KeyReplay(seedRow, k, xs[..n]).value, schema[k.tbl])
  {
    HistoryTyped(schema, st, k, xs);
    if n > 0 {
      HistoryColumns(schema, st, k, xs, n - 1, seedRow);
      KeyReplaySnoc(seedRow, k, xs, n);
      HistoryAt(schema, st, k, xs, n - 1);
      var before := KeyReplay(seedRow, k, xs[..n - 1]);
      if before.Some? { LineColumns(schema, st, xs[n - 1], before.value); }
    }
  }

  lemma CarriedWhole(local: Option<Row>, other: Option<Row>, columns: seq<string>)
    requires Carries(local, other) && FullRow(local, columns) && ColumnsIn(other, columns)
    ensures local == other
  {
    if local.Some? { assert local.value.Keys == other.value.Keys && local.value == other.value; }
  }

  // ------------------------------------------------------------ the theorem

  lemma HistoryOf(schema: Schema, s: Log.LogState, k: Key)
    requires SchemaOk(schema) && Log.Inv(schema, s)
    ensures History(schema, s.store, k, Of(Replayable(s.log, s.cursor), k))
  {
    var xs := Of(Replayable(s.log, s.cursor), k);
    KeyLines(s.log, s.cursor, k);
    forall i | 0 <= i < |xs| ensures InHistory(schema, s.store, k, xs, i) {
      assert xs[i] in s.log && xs[i].key == k && xs[i].seq_ <= s.cursor;
    }
  }

  /** Nothing pending past the cursor: nothing is pending past the last line. */
  lemma LastLineIsLast(s: Log.LogState, k: Key, xs: seq<LogRec>, last: int)
    requires xs == Of(Replayable(s.log, s.cursor), k)
    requires forall e :: e in s.store.outbox && e.seq_ <= s.cursor ==> Log.Logged(s.log, e, s.cursor)
    requires forall i :: 0 <= i < |xs| ==> xs[i].seq_ <= last
    requires !Pending(s.store.outbox, k, s.cursor)
    ensures !Pending(s.store.outbox, k, last)
  {
    if Pending(s.store.outbox, k, last) {
      var i :| 0 <= i < |s.store.outbox| && s.store.outbox[i].key == k && s.store.outbox[i].seq_ > last;
      var e := s.store.outbox[i];
      assert e in s.store.outbox && e.seq_ <= s.cursor;
      var j :| 0 <= j < |s.log| && s.log[j].key == e.key && e.seq_ <= s.log[j].seq_ <= s.cursor;
      assert HasId(s.log, (s.log[j].seq_, k, s.log[j].index));
      KeyLines(s.log, s.cursor, k);
    }
  }

  lemma LineIsCurrent(schema: Schema, st: Store, x: LogRec)
    requires SchemaOk(schema) && Log.LineGood(schema, st, x) && !Pending(st.outbox, x.key, x.seq_)
    ensures x.row == Get(st.rows, x.key)
  {
    assert Safety.FreshRow(st, x.key, x.row, x.seq_);
  }

  lemma GoodLine(schema: Schema, s: Log.LogState, x: LogRec)
    requires SchemaOk(schema) && Log.LogGood(schema, s.store, s.log) && x in s.log
    ensures Log.LineGood(schema, s.store, x)
  {}

  lemma LastLineIsCurrent(schema: Schema, s: Log.LogState, k: Key, xs: seq<LogRec>)
    requires SchemaOk(schema) && Log.Inv(schema, s) && !Pending(s.store.outbox, k, s.cursor)
    requires xs == Of(Replayable(s.log, s.cursor), k)
    ensures if xs == [] then !Pending(s.store.outbox, k, 0)
            else xs[|xs| - 1].row == Get(s.store.rows, k)
  {
    KeyLines(s.log, s.cursor, k);
    if xs == [] {
      LastLineIsLast(s, k, xs, 0);
    } else {
      var x := xs[|xs| - 1];
      assert x in s.log && x.key == k;
      LastLineIsLast(s, k, xs, x.seq_);
      GoodLine(schema, s, x);
      LineIsCurrent(schema, s.store, x);
    }
  }

  lemma KeyRebuilt(schema: Schema, s: Log.LogState, k: Key)
    requires SchemaOk(schema) && Log.Inv(schema, s)
    ensures var xs := Of(Replayable(s.log, s.cursor), k);
            && Typed(xs) && KeyReplay(Get(s.seed, k), k, xs).Some?
            && (!Excluded(k) && !Pending(s.store.outbox, k, s.cursor) ==>
                  Carries(Get(s.store.rows, k), KeyReplay(Get(s.seed, k), k, xs).value))
            && (ColumnsIn(Get(s.seed, k), schema[k.tbl]) ==>
                  ColumnsIn(KeyReplay(Get(s.seed, k), k, xs).value, schema[k.tbl]))
  {
    var xs := Of(Replayable(s.log, s.cursor), k);
    HistoryOf(schema, s, k);
    HistoryReplays(schema, s.store, k, xs, |xs|, Get(s.seed, k));
    assert xs[..|xs|] == xs;
    if ColumnsIn(Get(s.seed, k), schema[k.tbl]) { HistoryColumns(schema, s.store, k, xs, |xs|, Get(s.seed, k)); }
    if !Excluded(k) && !Pending(s.store.outbox, k, s.cursor) {
      LastLineIsCurrent(schema, s, k, xs);
      if xs == [] {
        assert Safety.FreshRow(s.store, k, Get(s.seed, k), 0);
        CarriesReflexive(Get(s.seed, k));
      } else {
        LastLine(schema, s.store, k, xs, KeyReplay(Get(s.seed, k), k, xs).value);
      }
    }
  }

  lemma ReplayTyped(schema: Schema, s: Log.LogState)
    requires SchemaOk(schema) && Log.Inv(schema, s)
    ensures Typed(Replayable(s.log, s.cursor))
  {
    var xs := Replayable(s.log, s.cursor);
    SortedMembers(UpTo(Dedup(s.log), s.cursor));
    forall i | 0 <= i < |xs| ensures xs[i].stmt.Delete? || |xs[i].stmt.cols| == |xs[i].stmt.vals| {
      assert xs[i] in xs && xs[i] in s.log;
      LineTyped(schema, s.store, xs[i]);
    }
  }

  /** The replay never fails. A key with no outbox row past the cursor is there
      exactly when the store has it, with every column of the store's row at its
      very value; and as rows carry every column of their table, it is that row. */
  lemma ReplayRebuildsStore(schema: Schema, s: Log.LogState) returns (replayed: Db)
    requires SchemaOk(schema) && Log.Inv(schema, s)
    ensures Typed(Replayable(s.log, s.cursor))
    ensures Replay(s.seed, Replayable(s.log, s.cursor)) == Some(replayed)
    ensures forall k :: !Excluded(k) && !Pending(s.store.outbox, k, s.cursor) ==>
              Carries(Get(s.store.rows, k), Get(replayed, k))
    ensures forall k :: !Excluded(k) && !Pending(s.store.outbox, k, s.cursor)
                        && ColumnsIn(Get(s.seed, k), schema[k.tbl]) && FullRow(Get(s.store.rows, k), schema[k.tbl]) ==>
              Get(replayed, k) == Get(s.store.rows, k)
  {
    var xs := Replayable(s.log, s.cursor);
    ReplayTyped(schema, s);
    forall k ensures Typed(Of(xs, k)) && KeyReplay(Get(s.seed, k), k, Of(xs, k)).Some? {
      KeyRebuilt(schema, s, k);
    }
    ReplayByKey(s.seed, xs);
    replayed := Replay(s.seed, xs).value;
    forall k | !Excluded(k) && !Pending(s.store.outbox, k, s.cursor)
      ensures Carries(Get(s.store.rows, k), Get(replayed, k))
      ensures ColumnsIn(Get(s.seed, k), schema[k.tbl]) && FullRow(Get(s.store.rows, k), schema[k.tbl]) ==>
                Get(replayed, k) == Get(s.store.rows, k)
    {
      KeyRebuilt(schema, s, k);
      assert KeyReplay(Get(s.seed, k), k, Of(xs, k)) == Some(Get(replayed, k));
      if ColumnsIn(Get(s.seed, k), schema[k.tbl]) && FullRow(Get(s.store.rows, k), schema[k.tbl]) {
        CarriedWhole(Get(s.store.rows, k), Get(replayed, k), schema[k.tbl]);
      }
    }
  }

  /** Over every run: local writes, partial cycles, crashes between the fsync
      and the cursor, and ranges appended again. */
  lemma LogRebuildsStore(schema: Schema, s: Log.LogState, es: seq<Log.Event>) returns (replayed: Db)
    requires SchemaOk(schema) && Log.Init(schema, s)
    ensures var t := Log.Run(schema, s, es);
            && Typed(Replayable(t.log, t.cursor))
            && Replay(t.seed, Replayable(t.log, t.cursor)) == Some(replayed)
            && (forall k :: !Excluded(k) && !Pending(t.store.outbox, k, t.cursor) ==>
                  Carries(Get(t.store.rows, k), Get(replayed, k)))
            && forall k :: !Excluded(k) && !Pending(t.store.outbox, k, t.cursor)
                           && ColumnsIn(Get(t.seed, k), schema[k.tbl]) && FullRow(Get(t.store.rows, k), schema[k.tbl]) ==>
                 Get(replayed, k) == Get(t.store.rows, k)
  {
    Log.RunKeepsInv(schema, s, es);
    replayed := ReplayRebuildsStore(schema, Log.Run(schema, s, es));
  }

  /** No key is missing from the log: whatever the outbox enqueued up to the
      cursor is replayed under a seq no older. */
  lemma LogHasEveryKey(schema: Schema, s: Log.LogState, es: seq<Log.Event>, e: OutRow)
    requires SchemaOk(schema) && Log.Init(schema, s)
    requires var t := Log.Run(schema, s, es); e in t.store.outbox && e.seq_ <= t.cursor
    ensures var t := Log.Run(schema, s, es);
            exists x :: x in Replayable(t.log, t.cursor) && x.key == e.key && e.seq_ <= x.seq_
  {
    Log.RunKeepsInv(schema, s, es);
    var t := Log.Run(schema, s, es);
    assert Log.Logged(t.log, e, t.cursor);
    var i :| 0 <= i < |t.log| && t.log[i].key == e.key && e.seq_ <= t.log[i].seq_ <= t.cursor;
    assert HasId(t.log, (t.log[i].seq_, e.key, t.log[i].index));
    ReplayableHas(t.log, t.cursor, e.key, t.log[i].seq_, t.log[i].index);
    var xs := Of(Replayable(t.log, t.cursor), e.key);
    var j :| 0 <= j < |xs| && Id(xs[j]) == (t.log[i].seq_, e.key, t.log[i].index);
    assert xs[j] in Replayable(t.log, t.cursor);
  }
}
