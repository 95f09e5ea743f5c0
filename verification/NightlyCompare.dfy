/** The compare of a store with D1: the report over both sides, and why the
    nightly one, taken while writes go on, reports no false difference. */
module NightlyCompare {
  import opened Rows
  import opened FloatCompare
  import opened Statements
  import opened Outbox
  import opened Replicator
  import opened ReplicatorSafety
  import opened ReplicatorHistory

  // ------------------------------------------------------------ compare_sides

  datatype Side = Side(rows: Db, columns: map<Table, set<string>>)

  datatype Report = Report(onlyLocal: set<Key>, onlyD1: set<Key>, changed: set<Key>, excluded: set<Key>,
                           columnDiffs: nat, diffs: nat, missingVectors: nat)

  const TABLES: seq<Table> :=
    [Memories, Embeddings, Crossrefs, Tombstones, TombstoneComponents, Actions, Meta]

  function Cols(side: Side, t: Table): set<string> {
    if t in side.columns then side.columns[t] else {}
  }

  function KeysIn(local: Side, other: Side, t: Table): set<Key> {
    set k | k in local.rows.Keys + other.rows.Keys && k.tbl == t
  }

  function ColumnDiffs(local: Side, other: Side, t: Table): nat {
    |Cols(local, t) - Cols(other, t)| + |Cols(other, t) - Cols(local, t)|
  }

  function ColumnDiffsUpTo(local: Side, other: Side, n: nat): nat
    requires n <= |TABLES|
  {
    if n == 0 then 0 else ColumnDiffsUpTo(local, other, n - 1) + ColumnDiffs(local, other, TABLES[n - 1])
  }

  /** A row's value in a column; a column it lacks reads as NULL. */
  function ValueIn(row: Row, c: string): Value {
    if c in row then row[c] else Null
  }

  predicate EqualRows(a: Row, b: Row) {
    forall c :: c in a.Keys + b.Keys ==> NormValue(ValueIn(a, c)) == NormValue(ValueIn(b, c))
  }

  function VectorOf(row: Row): Value { ValueIn(row, "embedding") }

  /** A local vector that D1 does not have. */
  predicate MissingVector(local: Side, other: Side, k: Key) {
    && k.tbl == Embeddings && k in local.rows && VectorOf(local.rows[k]) != Null
    && (k !in other.rows || (!EqualRows(local.rows[k], other.rows[k]) && VectorOf(other.rows[k]) == Null))
  }

  datatype Verdict = Skipped | OnlyLocal | OnlyD1 | Changed | Equal

  function Classify(local: Side, other: Side, skip: set<Key>, k: Key): Verdict
    requires k in local.rows || k in other.rows
  {
    if k in skip then Skipped
    else if k !in other.rows then OnlyLocal
    else if k !in local.rows then OnlyD1
    else if !EqualRows(local.rows[k], other.rows[k]) then Changed
    else Equal
  }

  function AllKeys(local: Side, other: Side): set<Key> { local.rows.Keys + other.rows.Keys }

  /** The keys among ks with a verdict. */
  ghost function Those(local: Side, other: Side, skip: set<Key>, ks: set<Key>, v: Verdict): set<Key>
    requires ks <= AllKeys(local, other)
  {
    set k | k in ks && Classify(local, other, skip, k) == v
  }

  ghost function Vectorless(local: Side, other: Side, skip: set<Key>, ks: set<Key>): set<Key> {
    set k | k in ks && k !in skip && MissingVector(local, other, k)
  }

  /** The report over the keys ks. */
  ghost predicate ReportsOn(r: Report, local: Side, other: Side, skip: set<Key>, ks: set<Key>) {
    && ks <= AllKeys(local, other)
    && r.excluded == Those(local, other, skip, ks, Skipped)
    && r.onlyLocal == Those(local, other, skip, ks, OnlyLocal)
    && r.onlyD1 == Those(local, other, skip, ks, OnlyD1)
    && r.changed == Those(local, other, skip, ks, Changed)
    && r.diffs == r.columnDiffs + |r.onlyLocal| + |r.onlyD1| + |r.changed|
    && r.missingVectors == |Vectorless(local, other, skip, ks)|
  }

  lemma ThoseGrow(local: Side, other: Side, skip: set<Key>, ks: set<Key>, k: Key, v: Verdict)
    requires ks + {k} <= AllKeys(local, other) && k !in ks
    ensures Those(local, other, skip, ks + {k}, v)
            == Those(local, other, skip, ks, v) + if Classify(local, other, skip, k) == v then {k} else {}
    ensures k !in Those(local, other, skip, ks, v)
  {}

  lemma VectorlessGrow(local: Side, other: Side, skip: set<Key>, ks: set<Key>, k: Key)
    requires k !in ks
    ensures |Vectorless(local, other, skip, ks + {k})|
            == |Vectorless(local, other, skip, ks)| + if k !in skip && MissingVector(local, other, k) then 1 else 0
  {
    var was, now := Vectorless(local, other, skip, ks), Vectorless(local, other, skip, ks + {k});
    if k !in skip && MissingVector(local, other, k) { assert now == was + {k}; } else { assert now == was; }
  }

  function AddIf(ks: set<Key>, k: Key, add: bool): set<Key> {
    if add then ks + {k} else ks
  }

  function One(b: bool): nat { if b then 1 else 0 }

  /** The report with one more key judged. */
  function Added(r: Report, k: Key, v: Verdict, vectorless: bool): Report {
    Report(AddIf(r.onlyLocal, k, v == OnlyLocal), AddIf(r.onlyD1, k, v == OnlyD1), AddIf(r.changed, k, v == Changed),
           AddIf(r.excluded, k, v == Skipped), r.columnDiffs,
           r.diffs + One(v == OnlyLocal) + One(v == OnlyD1) + One(v == Changed), r.missingVectors + One(vectorless))
  }

  lemma VerdictGrows(local: Side, other: Side, skip: set<Key>, ks: set<Key>, k: Key, v: Verdict)
    requires ks + {k} <= AllKeys(local, other) && k !in ks
    ensures var add := Classify(local, other, skip, k) == v;
            Those(local, other, skip, ks + {k}, v) == AddIf(Those(local, other, skip, ks, v), k, add)
            && |AddIf(Those(local, other, skip, ks, v), k, add)| == |Those(local, other, skip, ks, v)| + One(add)
  {
    ThoseGrow(local, other, skip, ks, k, v);
  }

  lemma AddedReports(r: Report, local: Side, other: Side, skip: set<Key>, k: Key, ks: set<Key>)
    requires ReportsOn(r, local, other, skip, ks) && k in AllKeys(local, other) && k !in ks
    ensures ReportsOn(Added(r, k, Classify(local, other, skip, k), k !in skip && MissingVector(local, other, k)),
                      local, other, skip, ks + {k})
  {
    var v := Classify(local, other, skip, k);
    assert AddIf(r.excluded, k, v == Skipped) == Those(local, other, skip, ks + {k}, Skipped) by {
      VerdictGrows(local, other, skip, ks, k, Skipped);
    }
    assert AddIf(r.onlyLocal, k, v == OnlyLocal) == Those(local, other, skip, ks + {k}, OnlyLocal)
           && |AddIf(r.onlyLocal, k, v == OnlyLocal)| == |r.onlyLocal| + One(v == OnlyLocal) by {
      VerdictGrows(local, other, skip, ks, k, OnlyLocal);
    }
    assert AddIf(r.onlyD1, k, v == OnlyD1) == Those(local, other, skip, ks + {k}, OnlyD1)
           && |AddIf(r.onlyD1, k, v == OnlyD1)| == |r.onlyD1| + One(v == OnlyD1) by {
      VerdictGrows(local, other, skip, ks, k, OnlyD1);
    }
    assert AddIf(r.changed, k, v == Changed) == Those(local, other, skip, ks + {k}, Changed)
           && |AddIf(r.changed, k, v == Changed)| == |r.changed| + One(v == Changed) by {
      VerdictGrows(local, other, skip, ks, k, Changed);
    }
    VectorlessGrow(local, other, skip, ks, k);
  }

  /** The keys of the first n tables. */
  ghost function Walked(local: Side, other: Side, n: nat): set<Key>
    requires n <= |TABLES|
  {
    set k | k in AllKeys(local, other) && k.tbl in TABLES[..n]
  }

  lemma WalkedGrow(local: Side, other: Side, n: nat)
    requires n < |TABLES|
    ensures Walked(local, other, n + 1) == Walked(local, other, n) + KeysIn(local, other, TABLES[n])
    ensures Walked(local, other, n) !! KeysIn(local, other, TABLES[n])
  {
    assert TABLES[..n + 1] == TABLES[..n] + [TABLES[n]];
    assert TABLES[n] !in TABLES[..n];
  }

  lemma WalkedAll(local: Side, other: Side)
    ensures Walked(local, other, |TABLES|) == AllKeys(local, other)
  {
    forall k | k in AllKeys(local, other) ensures k.tbl in TABLES[..|TABLES|] {
      AllTables(k.tbl);
      assert TABLES[..|TABLES|] == TABLES;
    }
  }

  lemma AllTables(t: Table)
    ensures t in TABLES
  {
    match t
    case Memories => assert TABLES[0] == t;
    case Embeddings => assert TABLES[1] == t;
    case Crossrefs => assert TABLES[2] == t;
    case Tombstones => assert TABLES[3] == t;
    case TombstoneComponents => assert TABLES[4] == t;
    case Actions => assert TABLES[5] == t;
    case Meta => assert TABLES[6] == t;
  }

  /** Two values the compare takes for the same: equal, or an integer and the
      real that is that integer. */
  predicate Alike(a: Value, b: Value) {
    match (a, b)
    case (Int(i), Real(r)) => r == i as real
    case (Real(r), Int(i)) => r == i as real
    case _ => a == b
  }

  lemma AlikeExact(a: Value, b: Value)
    ensures NormValue(a) == NormValue(b) <==> Alike(a, b)
  {}

  /** A column whose values differ; one a row lacks is NULL there. */
  ghost predicate DiffersIn(l: Row, o: Row, c: string) {
    (c in l || c in o) && !Alike(if c in l then l[c] else Null, if c in o then o[c] else Null)
  }

  /** The columns one side's table has and the other's has not. */
  ghost function LoneColumns(local: Side, other: Side): set<(Table, string)> {
    (set t, c | t in local.columns && c in local.columns[t] && !(t in other.columns && c in other.columns[t]) :: (t, c))
    + (set t, c | t in other.columns && c in other.columns[t] && !(t in local.columns && c in local.columns[t]) :: (t, c))
  }

  /** A local vector where D1 has none: no row, or a NULL one. */
  ghost predicate VectorLost(local: Side, other: Side, k: Key) {
    && k.tbl == Embeddings && k in local.rows
    && "embedding" in local.rows[k] && local.rows[k]["embedding"] != Null
    && (k in other.rows && "embedding" in other.rows[k] ==> other.rows[k]["embedding"] == Null)
  }

  /** What the report says: every table, every column, both key sets; the keys
      of skip left out. */
  ghost predicate Tells(r: Report, local: Side, other: Side, skip: set<Key>) {
    && (forall k :: k in r.onlyLocal <==> k in local.rows && k !in other.rows && k !in skip)
    && (forall k :: k in r.onlyD1 <==> k in other.rows && k !in local.rows && k !in skip)
    && (forall k :: k in r.changed <==> k in local.rows && k in other.rows && k !in skip
                                        && exists c :: DiffersIn(local.rows[k], other.rows[k], c))
    && (forall k :: k in r.excluded <==> (k in local.rows || k in other.rows) && k in skip)
    && r.columnDiffs == |LoneColumns(local, other)|
    && r.diffs == |LoneColumns(local, other)| + |r.onlyLocal| + |r.onlyD1| + |r.changed|
    && r.missingVectors == |set k | k in local.rows && k !in skip && VectorLost(local, other, k)|
  }

  method CompareSides(local: Side, other: Side, skip: set<Key>) returns (r: Report)
    ensures Tells(r, local, other, skip)
  {
    r := Report({}, {}, {}, {}, 0, 0, 0);
    NothingYet(r, local, other, skip);
    var n := 0;
    while n < |TABLES|
      invariant 0 <= n <= |TABLES|
      invariant ReportsOn(r, local, other, skip, Walked(local, other, n))
      invariant r.columnDiffs == ColumnDiffsUpTo(local, other, n)
    {
      var diff := ColumnDiffs(local, other, TABLES[n]);
      MoreColumns(r, local, other, skip, n, diff);
      r := r.(columnDiffs := r.columnDiffs + diff, diffs := r.diffs + diff);
      r := CompareTable(r, local, other, skip, n);
      n := n + 1;
    }
    WalkedAll(local, other);
    FinalReport(r, local, other, skip);
  }

  lemma NothingYet(r: Report, local: Side, other: Side, skip: set<Key>)
    requires r == Report({}, {}, {}, {}, 0, 0, 0)
    ensures ReportsOn(r, local, other, skip, Walked(local, other, 0))
  {
    assert Walked(local, other, 0) == {};
    assert Vectorless(local, other, skip, {}) == {};
  }

  lemma MoreColumns(r: Report, local: Side, other: Side, skip: set<Key>, n: nat, diff: nat)
    requires n < |TABLES| && ReportsOn(r, local, other, skip, Walked(local, other, n))
    ensures ReportsOn(r.(columnDiffs := r.columnDiffs + diff, diffs := r.diffs + diff), local, other, skip,
                      Walked(local, other, n))
  {}

  lemma StillToDo(before: set<Key>, keys: set<Key>, todo: set<Key>, k: Key)
    requires todo <= keys && k in todo
    ensures before + (keys - todo) + {k} == before + (keys - (todo - {k}))
  {}

  /** The inner loop: one table's keys. */
  method CompareTable(r0: Report, local: Side, other: Side, skip: set<Key>, n: nat) returns (r: Report)
    requires n < |TABLES| && ReportsOn(r0, local, other, skip, Walked(local, other, n))
    ensures ReportsOn(r, local, other, skip, Walked(local, other, n + 1)) && r.columnDiffs == r0.columnDiffs
  {
    WalkedGrow(local, other, n);
    r := CompareKeys(r0, local, other, skip, KeysIn(local, other, TABLES[n]), Walked(local, other, n));
  }

  method CompareKeys(r0: Report, local: Side, other: Side, skip: set<Key>, keys: set<Key>, ghost before: set<Key>)
    returns (r: Report)
    requires ReportsOn(r0, local, other, skip, before) && keys <= AllKeys(local, other) && before !! keys
    ensures ReportsOn(r, local, other, skip, before + keys) && r.columnDiffs == r0.columnDiffs
  {
    r := r0;
    var todo := keys;
    ghost var ks := before;
    while todo != {}
      invariant todo <= keys && ks == before + (keys - todo)
      invariant ReportsOn(r, local, other, skip, ks) && r.columnDiffs == r0.columnDiffs
      decreases todo
    {
      var k :| k in todo;
      assert k in AllKeys(local, other) && k !in ks;
      AddedReports(r, local, other, skip, k, ks);
      r := Added(r, k, Classify(local, other, skip, k), k !in skip && MissingVector(local, other, k));
      StillToDo(before, keys, todo, k);
      todo := todo - {k};
      ks := ks + {k};
    }
    assert ks == before + keys;
  }

  lemma FinalReport(r: Report, local: Side, other: Side, skip: set<Key>)
    requires ReportsOn(r, local, other, skip, AllKeys(local, other))
    requires r.columnDiffs == ColumnDiffsUpTo(local, other, |TABLES|)
    ensures Tells(r, local, other, skip)
  {
    FinalKeys(r, local, other, skip);
    FinalChanged(r, local, other, skip);
    FinalVectors(local, other, skip);
    ColumnsCounted(local, other);
  }

  lemma FinalKeys(r: Report, local: Side, other: Side, skip: set<Key>)
    requires ReportsOn(r, local, other, skip, AllKeys(local, other))
    ensures forall k :: k in r.onlyLocal <==> k in local.rows && k !in other.rows && k !in skip
    ensures forall k :: k in r.onlyD1 <==> k in other.rows && k !in local.rows && k !in skip
    ensures forall k :: k in r.excluded <==> (k in local.rows || k in other.rows) && k in skip
  {}

  lemma EqualRowsExact(l: Row, o: Row)
    ensures EqualRows(l, o) <==> forall c :: !DiffersIn(l, o, c)
  {
    forall c ensures NormValue(ValueIn(l, c)) == NormValue(ValueIn(o, c)) <==> Alike(ValueIn(l, c), ValueIn(o, c)) {
      AlikeExact(ValueIn(l, c), ValueIn(o, c));
    }
    if EqualRows(l, o) {
      forall c ensures !DiffersIn(l, o, c) {
        if c in l || c in o { assert c in l.Keys + o.Keys; }
      }
    } else {
      var c :| c in l.Keys + o.Keys && NormValue(ValueIn(l, c)) != NormValue(ValueIn(o, c));
      assert DiffersIn(l, o, c);
    }
  }

  lemma FinalChanged(r: Report, local: Side, other: Side, skip: set<Key>)
    requires ReportsOn(r, local, other, skip, AllKeys(local, other))
    ensures forall k :: k in r.changed <==> k in local.rows && k in other.rows && k !in skip
                                            && exists c :: DiffersIn(local.rows[k], other.rows[k], c)
  {
    forall k | k in local.rows && k in other.rows
      ensures EqualRows(local.rows[k], other.rows[k]) <==> forall c :: !DiffersIn(local.rows[k], other.rows[k], c)
    {
      EqualRowsExact(local.rows[k], other.rows[k]);
    }
  }

  lemma FinalVectors(local: Side, other: Side, skip: set<Key>)
    ensures Vectorless(local, other, skip, AllKeys(local, other))
            == set k | k in local.rows && k !in skip && VectorLost(local, other, k)
  {
    forall k | k in AllKeys(local, other) ensures MissingVector(local, other, k) <==> VectorLost(local, other, k) {
      if k in local.rows && k in other.rows {
        EqualRowsExact(local.rows[k], other.rows[k]);
        if VectorLost(local, other, k) { assert DiffersIn(local.rows[k], other.rows[k], "embedding"); }
      }
    }
  }

  /** The lone columns of the first n tables. */
  ghost function LoneUpTo(local: Side, other: Side, n: nat): set<(Table, string)>
    requires n <= |TABLES|
  {
    set p | p in LoneColumns(local, other) && p.0 in TABLES[..n]
  }

  function Paired(t: Table, cs: set<string>): set<(Table, string)> { set c | c in cs :: (t, c) }

  lemma {:induction false} PairedCount(t: Table, cs: set<string>)
    ensures |Paired(t, cs)| == |cs|
    decreases cs
  {
    if cs == {} {
      assert Paired(t, cs) == {};
    } else {
      var c :| c in cs;
      PairedCount(t, cs - {c});
      assert Paired(t, cs) == Paired(t, cs - {c}) + {(t, c)};
      assert (t, c) !in Paired(t, cs - {c});
    }
  }

  lemma OneTable(local: Side, other: Side, n: nat)
    requires n < |TABLES|
    ensures LoneUpTo(local, other, n + 1)
            == LoneUpTo(local, other, n) + Paired(TABLES[n], Cols(local, TABLES[n]) - Cols(other, TABLES[n]))
               + Paired(TABLES[n], Cols(other, TABLES[n]) - Cols(local, TABLES[n]))
    ensures LoneUpTo(local, other, n) !! Paired(TABLES[n], Cols(local, TABLES[n]) - Cols(other, TABLES[n]))
    ensures LoneUpTo(local, other, n) !! Paired(TABLES[n], Cols(other, TABLES[n]) - Cols(local, TABLES[n]))
    ensures Paired(TABLES[n], Cols(local, TABLES[n]) - Cols(other, TABLES[n]))
            !! Paired(TABLES[n], Cols(other, TABLES[n]) - Cols(local, TABLES[n]))
  {
    assert TABLES[..n + 1] == TABLES[..n] + [TABLES[n]];
    assert TABLES[n] !in TABLES[..n];
  }

  lemma {:induction false} ColumnsUpTo(local: Side, other: Side, n: nat)
    requires n <= |TABLES|
    ensures ColumnDiffsUpTo(local, other, n) == |LoneUpTo(local, other, n)|
  {
    if n == 0 {
      assert LoneUpTo(local, other, 0) == {};
    } else {
      ColumnsUpTo(local, other, n - 1);
      NextTable(local, other, n - 1);
    }
  }

  lemma NextTable(local: Side, other: Side, n: nat)
    requires n < |TABLES|
    ensures |LoneUpTo(local, other, n + 1)| == |LoneUpTo(local, other, n)| + ColumnDiffs(local, other, TABLES[n])
  {
    var t := TABLES[n];
    var a, b := Paired(t, Cols(local, t) - Cols(other, t)), Paired(t, Cols(other, t) - Cols(local, t));
    OneTable(local, other, n);
    PairedCount(t, Cols(local, t) - Cols(other, t));
    PairedCount(t, Cols(other, t) - Cols(local, t));
    ThreeParts(LoneUpTo(local, other, n), a, b);
  }

  lemma ThreeParts<T>(x: set<T>, a: set<T>, b: set<T>)
    requires x !! a && x !! b && a !! b
    ensures |x + a + b| == |x| + |a| + |b|
  {}

  lemma ColumnsCounted(local: Side, other: Side)
    ensures ColumnDiffsUpTo(local, other, |TABLES|) == |LoneColumns(local, other)|
  {
    ColumnsUpTo(local, other, |TABLES|);
    forall p | p in LoneColumns(local, other) ensures p.0 in TABLES[..|TABLES|] {
      AllTables(p.0);
      assert TABLES[..|TABLES|] == TABLES;
    }
    assert LoneUpTo(local, other, |TABLES|) == LoneColumns(local, other);
  }

  // ------------------------------------------------------------ runs of a registered compare

  /** A registered run that is still there was there before, with the same
      start: nothing registers an id twice. */
  lemma StepRunBack(schema: Schema, s: State, e: Event, id: nat)
    requires SchemaOk(schema) && id in s.sync.heads && id in Step(schema, s, e).sync.runs
    ensures id in s.sync.runs && s.sync.runs[id] == Step(schema, s, e).sync.runs[id]
    ensures id in Step(schema, s, e).sync.heads && Step(schema, s, e).sync.heads[id] == s.sync.heads[id]
  {
    if ReadsBatch(e) || (TouchesD1(e) && !e.Ack?) || e.Foreign? || e.Resume? { QuietStep(schema, s, e); }
  }

  /** The run began before s and may still record after es. */
  ghost predicate Spans(schema: Schema, s: State, es: seq<Event>, id: nat)
    requires SchemaOk(schema)
  {
    id in s.sync.heads && MayRecord(Run(schema, s, es).sync, Run(schema, s, es).now, id)
  }

  lemma SpansStep(schema: Schema, s: State, es: seq<Event>, id: nat)
    requires SchemaOk(schema) && es != [] && Inv(schema, s) && NoForeign(es) && Spans(schema, s, es, id)
    ensures Spans(schema, Step(schema, s, es[0]), es[1..], id)
    ensures Step(schema, s, es[0]).sync.heads[id] == s.sync.heads[id]
    ensures id in s.sync.runs && s.now - s.sync.runs[id] <= RUN_MAX
    decreases |es|
  {
    var s1 := Step(schema, s, es[0]);
    StepKeepsInv(schema, s, es[0]);
    StepCursors(schema, s, es[0]);
    HeadsStay(schema, s, es[0], id);
    if |es| == 1 {
      assert Run(schema, s, es) == s1;
    } else {
      SpansStep(schema, s1, es[1..], id);
    }
    StepRunBack(schema, s, es[0], id);
  }

  lemma HeadsStay(schema: Schema, s: State, e: Event, id: nat)
    requires SchemaOk(schema) && id in s.sync.heads
    ensures id in Step(schema, s, e).sync.heads && Step(schema, s, e).sync.heads[id] == s.sync.heads[id]
  {
    if ReadsBatch(e) || (TouchesD1(e) && !e.Ack?) || e.Foreign? || e.Resume? { QuietStep(schema, s, e); }
  }

  /** A row written after a live compare began survives every step. */
  lemma StepKeepsRow(schema: Schema, s: State, e: Event, row: OutRow, id: nat)
    requires SchemaOk(schema) && Held(s.store, s.sync, s.now)
    requires id in s.sync.runs && s.now - s.sync.runs[id] <= RUN_MAX
    requires row in s.store.outbox && row.seq_ >= s.sync.heads[id]
    ensures row in Step(schema, s, e).store.outbox
  {
    assert RunHeld(s.store, s.sync, s.now, id);
    if ReadsBatch(e) || (TouchesD1(e) && !e.Ack?) || e.Foreign? || e.Resume? { QuietStep(schema, s, e); }
    else if e.Ack? && s.pc.Sent? {
      assert !Prunable(row, s.pc.b.hi, s.sync, s.now);
    }
  }

  lemma {:induction false} RowKept(schema: Schema, s: State, es: seq<Event>, row: OutRow, id: nat)
    requires SchemaOk(schema) && Inv(schema, s) && Held(s.store, s.sync, s.now) && NoForeign(es)
    requires Spans(schema, s, es, id) && row in s.store.outbox && row.seq_ >= s.sync.heads[id]
    ensures row in Run(schema, s, es).store.outbox
    decreases |es|
  {
    if es != [] {
      SpansStep(schema, s, es, id);
      StepKeepsRow(schema, s, es[0], row, id);
      StepKeepsInv(schema, s, es[0]);
      StepKeepsHeld(schema, s, es[0]);
      RowKept(schema, Step(schema, s, es[0]), es[1..], row, id);
    }
  }

  /** K: a key with an outbox row past H. */
  ghost predicate InK(s: State, k: Key, head: int) { Pending(s.store.outbox, k, head) }

  lemma PendingKept(schema: Schema, s: State, es: seq<Event>, k: Key, head: int, id: nat)
    requires SchemaOk(schema) && Inv(schema, s) && Held(s.store, s.sync, s.now) && NoForeign(es)
    requires Spans(schema, s, es, id) && s.sync.heads[id] <= head + 1 && InK(s, k, head)
    ensures InK(Run(schema, s, es), k, head)
  {
    var i :| 0 <= i < |s.store.outbox| && s.store.outbox[i].key == k && s.store.outbox[i].seq_ > head;
    RowKept(schema, s, es, s.store.outbox[i], id);
  }

  lemma SpansStay(schema: Schema, s: State, es: seq<Event>, n: nat, id: nat)
    requires SchemaOk(schema) && n <= |es| && Inv(schema, s) && NoForeign(es) && Spans(schema, s, es, id)
    ensures Spans(schema, Run(schema, s, es[..n]), es[n..], id)
    ensures Run(schema, s, es[..n]).sync.heads[id] == s.sync.heads[id]
    decreases n
  {
    if n == 0 {
      assert es[..0] == [] && es[0..] == es;
    } else {
      SpansStep(schema, s, es, id);
      StepKeepsInv(schema, s, es[0]);
      SpansStay(schema, Step(schema, s, es[0]), es[1..], n - 1, id);
      assert es[..n][1..] == es[1..][..n - 1];
      assert es[1..][n - 1..] == es[n..];
    }
  }

  lemma FirstStepUnchanged(schema: Schema, s: State, es: seq<Event>, k: Key, head: int, id: nat)
    requires SchemaOk(schema) && Inv(schema, s) && Held(s.store, s.sync, s.now) && NoForeign(es) && es != []
    requires Spans(schema, s, es, id) && s.sync.heads[id] <= head + 1 && head < s.store.next
    requires !Excluded(k) && !InK(Run(schema, s, es), k, head)
    ensures var s1 := Step(schema, s, es[0]);
            && Inv(schema, s1) && Held(s1.store, s1.sync, s1.now) && Spans(schema, s1, es[1..], id)
            && s1.sync.heads[id] == s.sync.heads[id] && head < s1.store.next
            && Get(s1.store.rows, k) == Get(s.store.rows, k)
  {
    var s1 := Step(schema, s, es[0]);
    SpansStep(schema, s, es, id);
    StepKeepsInv(schema, s, es[0]);
    StepKeepsHeld(schema, s, es[0]);
    StepCursors(schema, s, es[0]);
    StepRow(schema, s, es[0], k, head);
    if InK(s1, k, head) { PendingKept(schema, s1, es[1..], k, head, id); }
  }

  /** A key out of K has the row the snapshot saw. */
  lemma {:induction false} RowUnchanged(schema: Schema, s: State, es: seq<Event>, n: nat, k: Key, head: int, id: nat)
    requires SchemaOk(schema) && Inv(schema, s) && Held(s.store, s.sync, s.now) && NoForeign(es) && n <= |es|
    requires Spans(schema, s, es, id) && s.sync.heads[id] <= head + 1 && head < s.store.next
    requires !Excluded(k) && !InK(Run(schema, s, es), k, head)
    ensures Get(Run(schema, s, es[..n]).store.rows, k) == Get(s.store.rows, k)
    decreases n
  {
    if n == 0 {
      assert es[..0] == [];
    } else {
      FirstStepUnchanged(schema, s, es, k, head, id);
      RowUnchanged(schema, Step(schema, s, es[0]), es[1..], n - 1, k, head, id);
      assert es[..n][1..] == es[1..][..n - 1];
    }
  }

  lemma StepRow(schema: Schema, s: State, e: Event, k: Key, head: int)
    requires SchemaOk(schema) && Inv(schema, s) && !Excluded(k) && head < s.store.next
    ensures Get(Step(schema, s, e).store.rows, k) == Get(s.store.rows, k) || InK(Step(schema, s, e), k, head)
  {
    if ReadsBatch(e) || (TouchesD1(e) && !e.Ack?) || e.Foreign? || e.Resume? { QuietStep(schema, s, e); }
    else if e.Local? && Accepted(schema, s.store, e.w) {
      TriggersRecordEveryChange(schema, s.store, e.w, s.now, k);
      if Pending(Outbox.Apply(s.store, e.w, s.now).outbox, k, s.store.next - 1) {
        Weaken(Outbox.Apply(s.store, e.w, s.now).outbox, k, s.store.next - 1, head);
      }
    }
  }

  // ------------------------------------------------------------ the nightly compare

  /** D1 as the compare reads it: each table at its own moment of the run. */
  ghost predicate ReadTableByTable(schema: Schema, s: State, es: seq<Event>, at: map<Table, nat>, d1: Db)
    requires SchemaOk(schema)
  {
    && (forall t :: t in at)
    && (forall t :: at[t] <= |es|)
    && (forall k :: Get(d1, k) == Get(Run(schema, s, es[..at[k.tbl]]).d1.rows, k))
  }

  /** One key at the moment its table is read, with the acks at or past H. */
  lemma KeyAgrees(schema: Schema, s: State, es: seq<Event>, n: nat, k: Key, head: int, id: nat)
    requires SchemaOk(schema) && Inv(schema, s) && Held(s.store, s.sync, s.now) && NoForeign(es) && n <= |es|
    requires Spans(schema, s, es, id) && s.sync.heads[id] <= head + 1 && head < s.store.next
    requires !Excluded(k) && !InK(Run(schema, s, es), k, head)
    requires Run(schema, s, es[..n]).sync.acked >= head
    ensures SameRow(Get(s.store.rows, k), Get(Run(schema, s, es[..n]).d1.rows, k))
  {
    var mid := Run(schema, s, es[..n]);
    RowUnchanged(schema, s, es, n, k, head, id);
    RunKeepsInv(schema, s, es[..n]);
    assert Covered(mid.store, mid.d1, k, mid.sync.acked);
    if Pending(mid.store.outbox, k, mid.sync.acked) {
      Weaken(mid.store.outbox, k, mid.sync.acked, head);
      RunKeepsHeld(schema, s, es[..n]);
      SpansStay(schema, s, es, n, id);
      PendingKept(schema, mid, es[n..], k, head, id);
      RunSplit(schema, s, es, n);
    }
  }

  /** The theorem. A registered run takes the snapshot at s, a reachable state,
      with head H; es is what happens until K is read; the acks have passed H
      when the first table of D1 is read. Every key out of K has the same row on
      both sides: every difference the report names is in K or real. */
  lemma NightlyReportsNoFalseDifference(schema: Schema, s0: State, es0: seq<Event>, s: State, es: seq<Event>,
                                        id: nat, first: nat, at: map<Table, nat>, d1: Db, k: Key)
    requires SchemaOk(schema) && Init(schema, s0) && NoForeign(es0) && NoForeign(es)
    requires s == Run(schema, s0, es0) && Spans(schema, s, es, id)
    requires ReadTableByTable(schema, s, es, at, d1)
    requires first <= |es| && (forall t :: t in at ==> first <= at[t])
    requires Run(schema, s, es[..first]).sync.acked >= s.store.next - 1
    requires !Excluded(k) && !InK(Run(schema, s, es), k, s.store.next - 1)
    ensures SameRow(Get(s.store.rows, k), Get(d1, k))
  {
    Reached(schema, s0, es0);
    var n := at[k.tbl];
    SpansHead(schema, s, es, id);
    AckedLater(schema, s, es, first, n);
    KeyAgrees(schema, s, es, n, k, s.store.next - 1, id);
  }

  lemma Reached(schema: Schema, s0: State, es0: seq<Event>)
    requires SchemaOk(schema) && Init(schema, s0) && NoForeign(es0)
    ensures var s := Run(schema, s0, es0); Inv(schema, s) && Held(s.store, s.sync, s.now)
  {
    InitInv(schema, s0);
    InitHeld(schema, s0);
    RunKeepsInv(schema, s0, es0);
    RunKeepsHeld(schema, s0, es0);
  }

  lemma SpansHead(schema: Schema, s: State, es: seq<Event>, id: nat)
    requires SchemaOk(schema) && Inv(schema, s) && Held(s.store, s.sync, s.now) && NoForeign(es) && Spans(schema, s, es, id)
    ensures s.sync.heads[id] <= s.store.next
  {
    if es == [] { assert RunHeld(s.store, s.sync, s.now, id); }
    else { SpansStep(schema, s, es, id); assert RunHeld(s.store, s.sync, s.now, id); }
  }

  lemma AckedLater(schema: Schema, s: State, es: seq<Event>, m: nat, n: nat)
    requires SchemaOk(schema) && Inv(schema, s) && NoForeign(es) && m <= n <= |es|
    ensures Run(schema, s, es[..n]).sync.acked >= Run(schema, s, es[..m]).sync.acked
  {
    RunSplit(schema, s, es[..n], m);
    assert es[..n][..m] == es[..m];
    RunKeepsInv(schema, s, es[..m]);
    CursorsOnlyGrow(schema, Run(schema, s, es[..m]), es[..n][m..]);
  }

  // ------------------------------------------------------------ its report

  /** The float comparison cannot take these values for one another unless the
      compare does. */
  predicate Apart(a: Value, b: Value) {
    Told(a) || (SmallInt(a) && SmallInt(b))
  }

  /** D1's further columns are NULL, and the values are ones the reconcile's
      comparison tells apart. */
  ghost predicate Comparable(l: Row, r: Row) {
    forall c :: c in r ==> if c in l then Apart(l[c], r[c]) else r[c] == Null
  }

  lemma AgreeingRowsEqual(l: Row, r: Row)
    requires SameRow(Some(l), Some(r)) && Comparable(l, r)
    ensures EqualRows(l, r)
  {
    forall c | c in l.Keys + r.Keys ensures NormValue(ValueIn(l, c)) == NormValue(ValueIn(r, c)) {
      if c in l {
        assert SameValue(l[c], r[c]);
        if Told(l[c]) { ToldIsExact(l[c], r[c]); } else { SameValueExact(l[c], r[c]); }
      }
    }
  }

  lemma LostDiffers(local: Side, other: Side, k: Key)
    ensures VectorLost(local, other, k) && k in other.rows ==> DiffersIn(local.rows[k], other.rows[k], "embedding")
  {}

  /** Rows that agree under the reconcile's comparison show no difference. */
  lemma CleanOutsideK(r: Report, local: Side, other: Side, skip: set<Key>)
    requires Tells(r, local, other, skip)
    requires forall k :: k !in skip ==> SameRow(Get(local.rows, k), Get(other.rows, k))
    requires forall k :: k in local.rows && k in other.rows && k !in skip ==> Comparable(local.rows[k], other.rows[k])
    ensures r.onlyLocal == {} && r.onlyD1 == {} && r.changed == {} && r.diffs == r.columnDiffs && r.missingVectors == 0
  {
    forall k | (k in local.rows || k in other.rows) && k !in skip
      ensures k in local.rows && k in other.rows && forall c :: !DiffersIn(local.rows[k], other.rows[k], c)
    {
      assert SameRow(Get(local.rows, k), Get(other.rows, k));
      AgreeingRowsEqual(local.rows[k], other.rows[k]);
      EqualRowsExact(local.rows[k], other.rows[k]);
    }
    forall k | k in local.rows && k !in skip ensures !VectorLost(local, other, k) { LostDiffers(local, other, k); }
    assert (set k | k in local.rows && k !in skip && VectorLost(local, other, k)) == {};
  }

  /** The converse: a report without a difference means the same columns, the
      same keys but the skipped ones, and the same row under each, where rows
      have their table's columns. */
  lemma CleanMeansEqual(r: Report, local: Side, other: Side, skip: set<Key>)
    requires Tells(r, local, other, skip) && r.diffs == 0
    requires forall k :: k in local.rows ==> k.tbl in local.columns && local.rows[k].Keys == local.columns[k.tbl]
    requires forall k :: k in other.rows ==> k.tbl in other.columns && other.rows[k].Keys == other.columns[k.tbl]
    ensures forall t, c :: (t in local.columns && c in local.columns[t]) <==> (t in other.columns && c in other.columns[t])
    ensures forall k :: k !in skip ==> (k in local.rows <==> k in other.rows)
    ensures forall k :: k !in skip && k in local.rows && k in other.rows ==>
              NormRow(local.rows[k]) == NormRow(other.rows[k])
  {
    NoLoneColumn(local, other);
    assert r.onlyLocal == {} && r.onlyD1 == {} && r.changed == {};
    forall k | k !in skip && k in local.rows && k in other.rows
      ensures NormRow(local.rows[k]) == NormRow(other.rows[k])
    {
      assert k !in r.changed;
      SameNorms(local.rows[k], other.rows[k]);
    }
  }

  lemma NoLoneColumn(local: Side, other: Side)
    requires |LoneColumns(local, other)| == 0
    ensures forall t, c :: (t in local.columns && c in local.columns[t]) <==> (t in other.columns && c in other.columns[t])
  {
    forall t, c ensures (t in local.columns && c in local.columns[t]) <==> (t in other.columns && c in other.columns[t]) {
      assert (t, c) !in LoneColumns(local, other);
    }
  }

  lemma SameNorms(l: Row, o: Row)
    requires l.Keys == o.Keys && forall c :: !DiffersIn(l, o, c)
    ensures NormRow(l) == NormRow(o)
  {
    forall c | c in l ensures NormRow(l)[c] == NormRow(o)[c] {
      assert !DiffersIn(l, o, c);
      AlikeExact(l[c], o[c]);
    }
    assert NormRow(l).Keys == NormRow(o).Keys;
  }

  /** A side as it is read: the excluded meta keys are left out. */
  function SideOf(rows: Db, columns: map<Table, set<string>>): Side {
    Side(map k | k in rows && !Excluded(k) :: rows[k], columns)
  }

  /** K: the keys with an outbox row past the head. */
  function KeysAfter(outbox: seq<OutRow>, head: int): set<Key> {
    set i | 0 <= i < |outbox| && outbox[i].seq_ > head :: outbox[i].key
  }

  lemma SideGet(rows: Db, columns: map<Table, set<string>>, k: Key)
    ensures Get(SideOf(rows, columns).rows, k) == if Excluded(k) then None else Get(rows, k)
  {}

  lemma AfterIsPending(outbox: seq<OutRow>, head: int, k: Key)
    ensures k in KeysAfter(outbox, head) <==> Pending(outbox, k, head)
  {}

  /** The nightly report: with K left out and nothing but values the reconcile's
      comparison tells apart, no key is only on one side and no row changed. */
  lemma NightlyReportIsClean(schema: Schema, s0: State, es0: seq<Event>, s: State, es: seq<Event>, id: nat, first: nat,
                             at: map<Table, nat>, d1: Db, lc: map<Table, set<string>>, oc: map<Table, set<string>>,
                             r: Report)
    requires SchemaOk(schema) && Init(schema, s0) && NoForeign(es0) && NoForeign(es)
    requires s == Run(schema, s0, es0) && Spans(schema, s, es, id)
    requires ReadTableByTable(schema, s, es, at, d1)
    requires first <= |es| && (forall t :: t in at ==> first <= at[t])
    requires Run(schema, s, es[..first]).sync.acked >= s.store.next - 1
    requires Tells(r, SideOf(s.store.rows, lc), SideOf(d1, oc), KeysAfter(Run(schema, s, es).store.outbox, s.store.next - 1))
    requires forall k :: k in s.store.rows && k in d1 && !Excluded(k) ==> Comparable(s.store.rows[k], d1[k])
    ensures r.onlyLocal == {} && r.onlyD1 == {} && r.changed == {} && r.diffs == r.columnDiffs && r.missingVectors == 0
  {
    var local, other := SideOf(s.store.rows, lc), SideOf(d1, oc);
    var skip := KeysAfter(Run(schema, s, es).store.outbox, s.store.next - 1);
    forall k | k !in skip ensures SameRow(Get(local.rows, k), Get(other.rows, k)) {
      SideGet(s.store.rows, lc, k);
      SideGet(d1, oc, k);
      AfterIsPending(Run(schema, s, es).store.outbox, s.store.next - 1, k);
      if !Excluded(k) { NightlyReportsNoFalseDifference(schema, s0, es0, s, es, id, first, at, d1, k); }
    }
    forall k | k in local.rows && k in other.rows && k !in skip ensures Comparable(local.rows[k], other.rows[k]) {
      SideGet(s.store.rows, lc, k);
      SideGet(d1, oc, k);
    }
    CleanOutsideK(r, local, other, skip);
  }
}
