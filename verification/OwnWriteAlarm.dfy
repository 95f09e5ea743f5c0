/** A run without any foreign writer that leaves the store unable to drain: a
    send fails after D1 took it, the row changes before the reconcile, and the
    process dies before the resend. The next preflight takes the store's own
    write for a foreign one. */
module OwnWriteAlarm {
  import opened Rows
  import opened FloatCompare
  import opened Identifiers
  import opened Statements
  import opened Outbox
  import opened Batches
  import opened ForeignKeyOrder
  import opened Replicator
  import opened ReplicatorSafety
  import opened ReplicatorHistory
  import opened DrainedValues
  import opened ForeignWindows
  import opened Convergence

  function Memo(v: int): Rec { Rec(1, MEMORY, Some(RowOf(Int(v)))) }

  function Seed(): State {
    State(Store(map[MEMORY := RowOf(Int(1))], [], 1), Sync(0, 0, Some(0), None, None, None, map[], map[]),
          D1(map[MEMORY := RowOf(Int(1))], 0), 0.0, Idle, None)
  }

  lemma SeedInit()
    ensures SchemaOk(SCHEMA) && Init(SCHEMA, Seed())
  {
    AllTables();
    assert StoredRow(SCHEMA, MEMORY, RowOf(Int(1)));
  }

  /** A local update of the one row. */
  lemma Updates(s: State, was: int, v: int)
    requires SchemaOk(SCHEMA) && s.store.rows == map[MEMORY := RowOf(Int(was))] && was != v
    ensures Step(SCHEMA, s, Local(UpdateW(MEMORY, RowOf(Int(v)))))
            == s.(store := Store(map[MEMORY := RowOf(Int(v))], s.store.outbox + [OutRow(s.store.next, MEMORY, s.now)], s.store.next + 1))
  {
    AllTables();
    assert RowOf(Int(was))["v"] == Int(was) && RowOf(Int(v))["v"] == Int(v);
    assert StoredRow(SCHEMA, MEMORY, RowOf(Int(v)));
    assert Enqueued(s.store, UpdateW(MEMORY, RowOf(Int(v)))) == [MEMORY];
  }

  // ------------------------------------------------------------ the reads

  lemma BuiltParts(row: Row, v: int)
    requires row == RowOf(Int(v))
    ensures Filter(COLUMNS, row.Keys) == COLUMNS && Without(COLUMNS, ["id"]) == ["v"]
    ensures Values(COLUMNS, row) == [Int(1), Int(v)]
    ensures BuilderIdent("id") && BuilderIdent("v")
  {
    assert COLUMNS[1..] == ["v"] && COLUMNS[1..][1..] == [];
  }

  lemma Builds(v: int)
    ensures SchemaOk(SCHEMA) && BuildOf(Memo(v), SCHEMA) == Ok([Upsert(Memories, COLUMNS, ["v"], [Int(1), Int(v)])])
  {
    AllTables();
    BuiltParts(RowOf(Int(v)), v);
    assert PkCols(Memories) == ["id"] && COLUMNS[0] == "id";
  }

  lemma NoDelete(v: int, rows: Db)
    ensures !GuardTrips([Memo(v)], rows)
  {
    forall t: Table ensures DeletesOf([Memo(v)], t) == 0 {
      assert [Memo(v)][1..] == [];
      assert DeletesOf([], t) == 0;
    }
  }

  function ReadAs(p: Purpose, v: int): Pc {
    if p == ForReconcile then Checking(Batch(1, 1, [Memo(v)]), 0) else Prepared(Batch(1, 1, [Memo(v)]))
  }

  lemma ReadsMemo(s: State, v: int, p: Purpose, e: OutRow)
    requires SchemaOk(SCHEMA) && s.store.rows == map[MEMORY := RowOf(Int(v))] && e.key == MEMORY && e.seq_ == 1
    requires s.pc == Reading(p, 1, 1, [e], []) && s.sync.halted.None? && s.sync.expected.Some?
    ensures Run(SCHEMA, s, READ) == s.(pc := ReadAs(p, v))
  {
    assert READ == [ReadRow, ReadRow, ReadParent] + [Assemble];
    RunBoth(s, [ReadRow, ReadRow, ReadParent], [Assemble]);
    RunThree(s, ReadRow, ReadRow, ReadParent);
    ReadSteps(s, v, p, e);
    var s3 := s.(pc := Adding(p, 1, 1, [Memo(v)], 1, []));
    assert [Assemble] == [Assemble] + [];
    RunOne(s3, Assemble, []);
    AssemblesMemo(s3, v);
  }

  lemma ReadSteps(s: State, v: int, p: Purpose, e: OutRow)
    requires SchemaOk(SCHEMA) && s.store.rows == map[MEMORY := RowOf(Int(v))] && e.key == MEMORY && e.seq_ == 1
    requires s.pc == Reading(p, 1, 1, [e], [])
    ensures Step(SCHEMA, Step(SCHEMA, Step(SCHEMA, s, ReadRow), ReadRow), ReadParent)
            == s.(pc := Adding(p, 1, 1, [Memo(v)], 1, []))
  {
    assert [] + [Memo(v)] == [Memo(v)];
    assert ReadRowStep(s) == s.(pc := Reading(p, 1, 1, [e], [Memo(v)]));
    var s2 := s.(pc := Adding(p, 1, 1, [Memo(v)], 0, []));
    assert ReadRowStep(s.(pc := Reading(p, 1, 1, [e], [Memo(v)]))) == s2;
    assert [Memo(v)][0 := Memo(v)] == [Memo(v)];
    var none: seq<Rec> := [];
    assert none + none == none;
    assert ReadParentStep(s2) == s.(pc := Adding(p, 1, 1, [Memo(v)], 1, []));
  }

  lemma AssemblesMemo(s: State, v: int)
    requires SchemaOk(SCHEMA) && s.sync.halted.None? && s.sync.expected.Some?
    requires s.pc.Adding? && s.pc.recs == [Memo(v)] && s.pc.extra == [] && s.pc.lo == s.pc.hi == 1 && s.pc.i == 1
    ensures Step(SCHEMA, s, Assemble) == s.(pc := ReadAs(s.pc.p, v))
  {
    OrderOne(Memo(v));
    Builds(v);
    NoDelete(v, s.store.rows);
    assert Assembled(SCHEMA, s) == (ReadAs(s.pc.p, v), s.sync.halted);
    AssembleIs(SCHEMA, s, ReadAs(s.pc.p, v));
  }

  lemma FirstOf(outbox: seq<OutRow>)
    requires 1 <= |outbox| <= 2 && outbox[0].seq_ == 1 && (|outbox| == 2 ==> outbox[1].seq_ == 2)
    ensures |outbox| == 1 ==> WriteRows(outbox, 0, 1) == [outbox[0]]
    ensures Select(outbox, 0, Some(1)) == [outbox[0]] && Coalesce([outbox[0]]) == [outbox[0]]
  {
    var rest := outbox[1..];
    if |outbox| == 2 {
      assert rest == [outbox[1]] && rest[1..] == [];
      assert Select(rest[1..], 0, Some(1)) == [];
      assert Select(rest, 0, Some(1)) == [];
    } else {
      assert rest == [];
    }
    assert [outbox[0]] + [] == [outbox[0]];
    assert !KeyedLater([outbox[0]]) && [outbox[0]][1..] == [];
  }

  // ------------------------------------------------------------ the send, and its failure

  lemma ExecMemo()
    ensures Exec(Seed().d1, Upsert(Memories, COLUMNS, ["v"], [Int(1), Int(2)])) == Some(D1(map[MEMORY := RowOf(Int(2))], 1))
  {
    ZipValues(COLUMNS, [Int(1), Int(2)], RowOf(Int(2)));
    assert COLUMNS[0] == "id" && COLUMNS[1] == "v";
    assert Zip(COLUMNS, [Int(1), Int(2)]) == RowOf(Int(2));
    KeyOfKeyed(MEMORY, RowOf(Int(2)));
    var d := Seed().d1;
    assert d.rows[MEMORY] + RowOf(Int(2)) == RowOf(Int(2));
    assert d.rows[MEMORY := RowOf(Int(2))] == map[MEMORY := RowOf(Int(2))];
  }

  lemma SendsMemo(s: State)
    requires SchemaOk(SCHEMA) && s.pc == Sending(B2, 0, 0) && s.d1 == Seed().d1
    ensures Step(SCHEMA, s, Send) == s.(d1 := D1(map[MEMORY := RowOf(Int(2))], 1), pc := Sending(B2, 1, 0))
  {
    var st := Upsert(Memories, COLUMNS, ["v"], [Int(1), Int(2)]);
    Builds(2);
    assert |st.cols| == 2 && |st.vals| == 2;
    ExecMemo();
    SendsLast(SCHEMA, s, st, D1(map[MEMORY := RowOf(Int(2))], 1));
  }

  const B2 := Batch(1, 1, [Memo(2)])
  const B3 := Batch(1, 1, [Memo(3)])

  function Wait(v: int, rows: seq<OutRow>, marked: bool): State {
    Seed().(store := Store(map[MEMORY := RowOf(Int(v))], rows, 1 + |rows|),
            sync := Seed().sync.(inflight := if marked then Some(Marker(1, 1, 0)) else None),
            d1 := if marked then D1(map[MEMORY := RowOf(Int(2))], 1) else Seed().d1)
  }

  const O1 := OutRow(1, MEMORY, 0.0)
  const O2 := OutRow(2, MEMORY, 0.0)

  const WRITE: seq<Event> := [StartWrite(1)] + (READ + [Mark, Preflight, Send])

  lemma StartsMemo(s: State)
    requires SchemaOk(SCHEMA) && s == Wait(2, [O1], false)
    ensures Step(SCHEMA, s, StartWrite(1)) == s.(pc := Reading(ForWrite, 1, 1, [O1], []))
  {
    FirstOf([O1]);
    StepIsStart(SCHEMA, s, 1);
  }

  lemma MarksMemo(s: State)
    requires SchemaOk(SCHEMA) && s == Wait(2, [O1], false)
    ensures Run(SCHEMA, s.(pc := Prepared(B2)), [Mark, Preflight, Send]) == Wait(2, [O1], true).(pc := Sending(B2, 1, 0))
  {
    var s2 := s.(pc := Prepared(B2));
    RunThree(s2, Mark, Preflight, Send);
    var s3 := s.(sync := Wait(2, [O1], true).sync, pc := Marked(B2));
    assert MarkStep(s2) == s3;
    assert PreflightStep(s3) == s3.(pc := Sending(B2, 0, 0));
    SendsMemo(s3.(pc := Sending(B2, 0, 0)));
  }

  /** D1 takes the statement. */
  lemma Writes(s: State)
    requires SchemaOk(SCHEMA) && s == Wait(2, [O1], false)
    ensures Run(SCHEMA, s, WRITE) == Wait(2, [O1], true).(pc := Sending(B2, 1, 0))
  {
    var s1 := s.(pc := Reading(ForWrite, 1, 1, [O1], []));
    StartsMemo(s);
    RunOne(s, StartWrite(1), READ + [Mark, Preflight, Send]);
    RunBoth(s1, READ, [Mark, Preflight, Send]);
    ReadsMemo(s1, 2, ForWrite, O1);
    MarksMemo(s);
  }

  const RECHECK: seq<Event> := [StartReconcile] + (READ + [Check, Crash])

  lemma RestartsMemo(s: State)
    requires SchemaOk(SCHEMA) && s == Wait(3, [O1, O2], true)
    ensures Step(SCHEMA, s, StartReconcile) == s.(pc := Reading(ForReconcile, 1, 1, [O1], []))
  {
    FirstOf([O1, O2]);
    assert ReconcileRows(s.store.outbox, Marker(1, 1, 0)) == [O1];
    StepIsStart(SCHEMA, s, 1);
  }

  lemma ChecksMemo(s: State)
    requires SchemaOk(SCHEMA) && s == Wait(3, [O1, O2], true)
    ensures Run(SCHEMA, s.(pc := Checking(B3, 0)), [Check, Crash]) == s.(sync := s.sync.(inflight := None))
  {
    var s2 := s.(pc := Checking(B3, 0));
    assert [Check, Crash] == [Check] + ([Crash] + []);
    RunOne(s2, Check, [Crash] + []);
    Newer(s2);
    RunOne(s.(relaxed := Some(0), sync := s.sync.(inflight := None)), Crash, []);
  }

  /** The reconcile reads a newer row than D1 has, and the process dies before
      the resend. */
  lemma Rechecks(s: State)
    requires SchemaOk(SCHEMA) && s == Wait(3, [O1, O2], true)
    ensures Run(SCHEMA, s, RECHECK) == s.(sync := s.sync.(inflight := None))
  {
    var s1 := s.(pc := Reading(ForReconcile, 1, 1, [O1], []));
    RestartsMemo(s);
    RunOne(s, StartReconcile, READ + [Check, Crash]);
    RunBoth(s1, READ, [Check, Crash]);
    ReadsMemo(s1, 3, ForReconcile, O1);
    ChecksMemo(s);
  }

  lemma Newer(s: State)
    requires SchemaOk(SCHEMA) && s.pc == Checking(B3, 0) && s.sync.inflight == Some(Marker(1, 1, 0))
    requires s.d1.rows == map[MEMORY := RowOf(Int(2))]
    ensures Step(SCHEMA, s, Check) == s.(relaxed := Some(0), sync := s.sync.(inflight := None), pc := Idle)
  {
    NearestDoubleExact(2);
    NearestDoubleExact(3);
    assert RowOf(Int(3))["v"] == Int(3) && RowOf(Int(2))["v"] == Int(2);
    assert CheckStep(s) == s.(relaxed := Some(0), sync := s.sync.(inflight := None), pc := Idle);
  }

  // ------------------------------------------------------------ the run

  const SECOND: Event := Local(UpdateW(MEMORY, RowOf(Int(2))))
  const THIRD: Event := Local(UpdateW(MEMORY, RowOf(Int(3))))

  const ALARM: seq<Event> := [SECOND] + (WRITE + ([Fail] + ([THIRD] + RECHECK)))

  const END: State := Wait(3, [O1, O2], false).(d1 := D1(map[MEMORY := RowOf(Int(2))], 1))

  lemma SecondUpdate()
    requires SchemaOk(SCHEMA)
    ensures Step(SCHEMA, Seed(), SECOND) == Wait(2, [O1], false)
  {
    Updates(Seed(), 1, 2);
    assert [] + [O1] == [O1];
  }

  lemma ThirdUpdate()
    requires SchemaOk(SCHEMA)
    ensures Step(SCHEMA, Wait(2, [O1], true), THIRD) == Wait(3, [O1, O2], true)
  {
    Updates(Wait(2, [O1], true), 2, 3);
    assert [O1] + [O2] == [O1, O2];
  }

  lemma Reached()
    requires SchemaOk(SCHEMA)
    ensures Run(SCHEMA, Seed(), ALARM) == END
  {
    var rest := [Fail] + ([THIRD] + RECHECK);
    RunOne(Seed(), SECOND, WRITE + rest);
    SecondUpdate();
    RunBoth(Wait(2, [O1], false), WRITE, rest);
    Writes(Wait(2, [O1], false));
    AfterFailure(Wait(2, [O1], true).(pc := Sending(B2, 1, 0)));
  }

  lemma AfterFailure(s: State)
    requires SchemaOk(SCHEMA) && s == Wait(2, [O1], true).(pc := Sending(B2, 1, 0))
    ensures Run(SCHEMA, s, [Fail] + ([THIRD] + RECHECK)) == END
  {
    RunOne(s, Fail, [THIRD] + RECHECK);
    RunOne(Wait(2, [O1], true), THIRD, RECHECK);
    ThirdUpdate();
    Rechecks(Wait(3, [O1, O2], true));
  }

  lemma {:induction false} NoneResumed(s: State, es: seq<Event>)
    requires SchemaOk(SCHEMA) && forall i :: 0 <= i < |es| ==> !es[i].Resume?
    ensures EpochsRead(SCHEMA, s, es)
    decreases |es|
  {
    if es != [] { NoneResumed(Step(SCHEMA, s, es[0]), es[1..]); }
  }

  lemma AlarmIsOwn()
    ensures NoForeign(ALARM) && forall i :: 0 <= i < |ALARM| ==> !ALARM[i].Resume?
  {}

  lemma RestsThere(r: State)
    requires SchemaOk(SCHEMA) && r == END
    ensures CanBuild(SCHEMA, r.store) && !EpochKnown(r) && !Drained(r) && !DeletePending(r)
  {
    Builds(3);
    assert O2 in r.store.outbox && O2.seq_ > r.sync.acked;
    forall k | k in r.store.rows && !Excluded(k) ensures BuildOf(Rec(0, k, Some(r.store.rows[k])), SCHEMA).Ok? {
      assert BuildOf(Rec(0, MEMORY, Some(RowOf(Int(3)))), SCHEMA) == BuildOf(Memo(3), SCHEMA);
    }
    forall e | e in r.store.outbox ensures e.key == MEMORY {}
  }

  /** Nobody else wrote to D1, nothing is deleted and no operator resumed, yet
      no run of the replicator alone drains the store: the epoch of its own
      write is not the one it expects. */
  lemma OwnWriteStopsStore() returns (r: State)
    ensures SchemaOk(SCHEMA) && Init(SCHEMA, Seed()) && NoForeign(ALARM) && r == Run(SCHEMA, Seed(), ALARM)
    ensures r.pc.Idle? && r.sync.halted.None? && !DeletePending(r) && r.sync.expected == Some(0) && r.d1.epoch == 1
    ensures forall es :: AllDriven(es) ==> !Drained(Run(SCHEMA, r, es))
  {
    SeedInit();
    Reached();
    r := END;
    AlarmIsOwn();
    NoneResumed(Seed(), ALARM);
    RestsThere(r);
    forall es | AllDriven(es) ensures !Drained(Run(SCHEMA, r, es)) {
      NeverDrains(SCHEMA, Seed(), ALARM, es);
    }
  }
}
