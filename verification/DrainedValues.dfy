/** What a drained store's values have become on D1: where the reconcile's float
    comparison tells values apart they are D1's, and where it does not an update
    can be acked that D1 never got. */
module DrainedValues {
  import opened Rows
  import opened FloatCompare
  import opened Identifiers
  import opened Statements
  import opened Outbox
  import opened Batches
  import opened ForeignKeyOrder
  import opened Replicator
  import opened ReplicatorSafety
  import opened ReplicatorHistory

  /** A drained store's row is D1's row, as the nightly compare reads both,
      where its values are told apart and both sides have its columns. */
  lemma DrainedIsExact(schema: Schema, s: State, es: seq<Event>, k: Key)
    requires SchemaOk(schema) && Init(schema, s) && NoForeign(es) && !Excluded(k)
    requires var r := Run(schema, s, es);
             && (forall e :: e in r.store.outbox ==> e.seq_ <= r.sync.acked)
             && (k in r.store.rows ==> AllTold(r.store.rows[k]))
             && (k in r.store.rows && k in r.d1.rows ==> r.store.rows[k].Keys == r.d1.rows[k].Keys)
    ensures var r := Run(schema, s, es);
            (k in r.store.rows <==> k in r.d1.rows)
            && (k in r.store.rows ==> NormRow(r.store.rows[k]) == NormRow(r.d1.rows[k]))
  {
    DrainedEqualsD1(schema, s, es);
    var r := Run(schema, s, es);
    assert SameRow(Get(r.store.rows, k), Get(r.d1.rows, k));
    if k in r.store.rows { ToldRowIsExact(r.store.rows[k], r.d1.rows[k]); }
  }

  // ------------------------------------------------------------ a cycle whose send is lost

  const K := Key(Actions, [Int(1)])
  const COLUMNS := ["id", "v"]

  const SCHEMA: Schema := map[Memories := COLUMNS, Embeddings := COLUMNS, Crossrefs := COLUMNS, Tombstones := COLUMNS,
                              TombstoneComponents := COLUMNS, Actions := COLUMNS, Meta := COLUMNS]

  lemma AllTables()
    ensures SchemaOk(SCHEMA)
  {
    forall t: Table ensures t in SCHEMA {
      match t {
        case Memories => case Embeddings => case Crossrefs => case Tombstones => case TombstoneComponents =>
        case Actions => case Meta =>
      }
    }
  }

  function RowOf(v: Value): Row { map["id" := Int(1), "v" := v] }

  function RecOf(v: Value): Rec { Rec(1, K, Some(RowOf(v))) }

  /** Where the reads of the one row lead. */
  function ReadInto(p: Purpose, v: Value): Pc {
    if p == ForWrite then Prepared(Batch(1, 1, [RecOf(v)])) else Checking(Batch(1, 1, [RecOf(v)]), 0)
  }

  const READ: seq<Event> := [ReadRow, ReadRow, ReadParent, Assemble]

  const FAILED: seq<Event> := [StartWrite(1)] + (READ + [Mark, Fail, StartReconcile])

  /** A write cycle whose process fails after the marker, then a reconcile. */
  const LOST: seq<Event> := FAILED + (READ + [Check, PostEpoch, Ack])

  /** One row of the outbox, for K, is left to send. */
  ghost predicate Queued(s: State, v: Value) {
    && JsonSafe(v) && Get(s.store.rows, K) == Some(RowOf(v))
    && |s.store.outbox| == 1 && s.store.outbox[0].key == K && s.store.outbox[0].seq_ == 1
    && s.sync.acked == 0 && s.sync.consumed == 0 && s.sync.halted.None? && s.sync.expected.Some?
  }

  /** And the comparison takes D1's row for the store's. */
  ghost predicate Waiting(s: State, v: Value) {
    Queued(s, v) && SameRow(Some(RowOf(v)), Get(s.d1.rows, K))
  }

  lemma RunOne(s: State, e: Event, es: seq<Event>)
    requires SchemaOk(SCHEMA)
    ensures Run(SCHEMA, s, [e] + es) == Run(SCHEMA, Step(SCHEMA, s, e), es)
  {
    assert ([e] + es)[1..] == es;
  }

  lemma RunThree(s: State, a: Event, b: Event, c: Event)
    requires SchemaOk(SCHEMA)
    ensures Run(SCHEMA, s, [a, b, c]) == Step(SCHEMA, Step(SCHEMA, Step(SCHEMA, s, a), b), c)
  {
    assert [a, b, c] == [a] + ([b] + ([c] + []));
    RunOne(s, a, [b] + ([c] + []));
    RunOne(Step(SCHEMA, s, a), b, [c] + []);
    RunOne(Step(SCHEMA, Step(SCHEMA, s, a), b), c, []);
  }

  lemma RunBoth(s: State, a: seq<Event>, b: seq<Event>)
    requires SchemaOk(SCHEMA)
    ensures Run(SCHEMA, s, a + b) == Run(SCHEMA, Run(SCHEMA, s, a), b)
  {
    RunSplit(SCHEMA, s, a + b, |a|);
    assert (a + b)[..|a|] == a && (a + b)[|a|..] == b;
  }

  lemma BuildsOne(v: Value)
    requires JsonSafe(v)
    ensures SchemaOk(SCHEMA) && Buildable([RecOf(v)], SCHEMA)
  {
    AllTables();
    var row := RowOf(v);
    assert BuilderIdent("id") && BuilderIdent("v");
    assert COLUMNS[1..] == ["v"] && COLUMNS[1..][1..] == [];
    assert Filter(COLUMNS, row.Keys) == COLUMNS;
    assert PkCols(Actions) == ["id"] && "id" in COLUMNS;
    assert Build(Actions, [Int(1)], Some(row), COLUMNS).Ok?;
  }

  lemma NoDeletes(v: Value, rows: Db)
    ensures !GuardTrips([RecOf(v)], rows)
  {
    forall t: Table ensures DeletesOf([RecOf(v)], t) == 0 {
      assert [RecOf(v)][1..] == [];
      assert DeletesOf([], t) == 0;
    }
  }

  lemma OrderOne(r: Rec)
    ensures Order([r] + []) == [r]
  {
    assert [r] + [] == [r];
    OrderMembers([r]);
    assert r in Order([r]);
  }

  /** What the four read steps do to the one row. */
  lemma ReadsOne(s: State, v: Value, p: Purpose, e: OutRow)
    requires SchemaOk(SCHEMA) && Queued(s, v) && e.key == K && e.seq_ == 1
    requires s.pc == Reading(p, 1, 1, [e], []) && (p == ForReconcile <==> s.sync.inflight.Some?)
    ensures Run(SCHEMA, s, READ) == s.(pc := ReadInto(p, v))
  {
    assert READ == [ReadRow, ReadRow, ReadParent] + [Assemble];
    RunBoth(s, [ReadRow, ReadRow, ReadParent], [Assemble]);
    RunThree(s, ReadRow, ReadRow, ReadParent);
    RowAndParent(s, v, p, e);
    var s3 := s.(pc := Adding(p, 1, 1, [RecOf(v)], 1, []));
    assert [Assemble] == [Assemble] + [];
    RunOne(s3, Assemble, []);
    Assembles(s3, v);
  }

  lemma RowAndParent(s: State, v: Value, p: Purpose, e: OutRow)
    requires SchemaOk(SCHEMA) && Queued(s, v) && e.key == K && e.seq_ == 1 && s.pc == Reading(p, 1, 1, [e], [])
    ensures Step(SCHEMA, Step(SCHEMA, Step(SCHEMA, s, ReadRow), ReadRow), ReadParent)
            == s.(pc := Adding(p, 1, 1, [RecOf(v)], 1, []))
  {
    assert [] + [RecOf(v)] == [RecOf(v)];
    assert ReadRowStep(s) == s.(pc := Reading(p, 1, 1, [e], [RecOf(v)]));
    var s2 := s.(pc := Adding(p, 1, 1, [RecOf(v)], 0, []));
    assert ReadRowStep(s.(pc := Reading(p, 1, 1, [e], [RecOf(v)]))) == s2;
    assert [RecOf(v)][0 := RecOf(v)] == [RecOf(v)];
    var none: seq<Rec> := [];
    assert none + none == none;
    assert ReadParentStep(s2) == s.(pc := Adding(p, 1, 1, [RecOf(v)], 1, []));
  }

  lemma AssembledOne(s: State, v: Value)
    requires SchemaOk(SCHEMA) && Queued(s, v)
    requires s.pc.Adding? && s.pc.recs == [RecOf(v)] && s.pc.extra == [] && s.pc.lo == s.pc.hi == 1
    ensures Assembled(SCHEMA, s) == (ReadInto(s.pc.p, v), None)
  {
    OrderOne(RecOf(v));
    BuildsOne(v);
    NoDeletes(v, s.store.rows);
  }

  lemma AssembleIs(schema: Schema, s: State, pc: Pc)
    requires SchemaOk(schema) && s.pc.Adding? && s.pc.i >= |s.pc.recs| && Assembled(schema, s) == (pc, s.sync.halted)
    ensures Step(schema, s, Assemble) == s.(pc := pc)
  {
    assert AssembleStep(schema, s) == s.(sync := s.sync.(halted := s.sync.halted), pc := pc);
  }

  lemma Assembles(s: State, v: Value)
    requires SchemaOk(SCHEMA) && Queued(s, v)
    requires s.pc.Adding? && s.pc.recs == [RecOf(v)] && s.pc.extra == [] && s.pc.lo == s.pc.hi == 1 && s.pc.i == 1
    ensures Step(SCHEMA, s, Assemble) == s.(pc := ReadInto(s.pc.p, v))
  {
    AssembledOne(s, v);
    AssembleIs(SCHEMA, s, Assembled(SCHEMA, s).0);
  }

  lemma OneRow(outbox: seq<OutRow>, lo: int, hi: Option<nat>)
    requires |outbox| == 1 && outbox[0].seq_ == 1 && lo == 0 && (hi.Some? ==> hi.value == 1)
    ensures Select(outbox, lo, hi) == outbox && Coalesce(outbox) == outbox
  {
    assert outbox[1..] == [];
    assert [outbox[0]] + [] == outbox;
    assert !KeyedLater(outbox);
  }

  lemma Starts(s: State, v: Value)
    requires SchemaOk(SCHEMA) && Queued(s, v) && s.pc == Idle
    ensures s.sync.inflight.None? ==>
              Step(SCHEMA, s, StartWrite(1)) == s.(pc := Reading(ForWrite, 1, 1, [s.store.outbox[0]], []))
    ensures s.sync.inflight.Some? && s.sync.inflight.value.lo == 1 && s.sync.inflight.value.hi == 1 ==>
              Step(SCHEMA, s, StartReconcile) == s.(pc := Reading(ForReconcile, 1, 1, [s.store.outbox[0]], []))
  {
    OneRow(s.store.outbox, 0, None);
    OneRow(s.store.outbox, 0, Some(1));
    assert s.store.outbox == [s.store.outbox[0]];
  }

  lemma MarksAndFails(s: State)
    requires SchemaOk(SCHEMA) && s.pc.Prepared? && s.pc.b.lo == s.pc.b.hi == 1 && s.sync.expected.Some?
    ensures var t := s.(sync := s.sync.(inflight := Some(Marker(1, 1, s.sync.expected.value))), pc := Idle);
            Run(SCHEMA, s, [Mark, Fail, StartReconcile]) == Step(SCHEMA, t, StartReconcile)
  {
    RunThree(s, Mark, Fail, StartReconcile);
    MarkThenFail(SCHEMA, s);
  }

  lemma MarkThenFail(schema: Schema, s: State)
    requires SchemaOk(schema) && s.pc.Prepared? && s.sync.expected.Some?
    ensures Step(schema, Step(schema, s, Mark), Fail)
            == s.(sync := MarkStep(s).sync, pc := Idle)
    ensures MarkStep(s).sync == s.sync.(inflight := Some(Marker(s.pc.b.lo, s.pc.b.hi, s.sync.expected.value)))
  {}

  /** The write cycle up to its failure: D1 has nothing, the marker stays. */
  lemma Fails(s: State, v: Value) returns (t: State)
    requires SchemaOk(SCHEMA) && Queued(s, v) && s.pc == Idle && s.sync.inflight.None?
    ensures t == s.(sync := s.sync.(inflight := Some(Marker(1, 1, s.sync.expected.value))))
    ensures Run(SCHEMA, s, FAILED) == Step(SCHEMA, t, StartReconcile)
  {
    t := s.(sync := s.sync.(inflight := Some(Marker(1, 1, s.sync.expected.value))));
    Starts(s, v);
    var s1 := s.(pc := Reading(ForWrite, 1, 1, [s.store.outbox[0]], []));
    RunOne(s, StartWrite(1), READ + [Mark, Fail, StartReconcile]);
    RunBoth(s1, READ, [Mark, Fail, StartReconcile]);
    ReadsOne(s1, v, ForWrite, s.store.outbox[0]);
    MarksAndFails(s.(pc := Prepared(Batch(1, 1, [RecOf(v)]))));
  }

  lemma ChecksAndAcks(s: State, v: Value) returns (t: State)
    requires SchemaOk(SCHEMA) && Waiting(s, v) && s.pc == Checking(Batch(1, 1, [RecOf(v)]), 0) && s.sync.inflight.Some?
    ensures t == Run(SCHEMA, s, [Check, PostEpoch, Ack])
    ensures t.d1 == s.d1 && t.store.rows == s.store.rows && t.sync == AckedSync(s.sync, 1, s.d1.epoch)
    ensures t.pc == Idle && t.relaxed == s.relaxed
    ensures forall o :: o in t.store.outbox ==> o.seq_ == 1
  {
    RunThree(s, Check, PostEpoch, Ack);
    var b := s.pc.b;
    assert CheckStep(s) == s.(pc := Checking(b, 1));
    assert PostEpochStep(s.(pc := Checking(b, 1))) == s.(pc := Sent(b, s.d1.epoch));
    t := AckStep(s.(pc := Sent(b, s.d1.epoch)));
  }

  /** The reconcile after it: the read-back accepts D1's row, and the range is
      acked. */
  lemma Reconciles(s: State, v: Value) returns (t: State)
    requires SchemaOk(SCHEMA) && Waiting(s, v) && s.pc == Idle && s.sync.inflight.Some?
    requires s.sync.inflight.value.lo == 1 && s.sync.inflight.value.hi == 1
    ensures t == Run(SCHEMA, Step(SCHEMA, s, StartReconcile), READ + [Check, PostEpoch, Ack])
    ensures t.d1 == s.d1 && t.store.rows == s.store.rows && t.sync == AckedSync(s.sync, 1, s.d1.epoch)
    ensures t.pc == Idle && t.relaxed == s.relaxed
    ensures forall o :: o in t.store.outbox ==> o.seq_ == 1
  {
    Starts(s, v);
    var s1 := s.(pc := Reading(ForReconcile, 1, 1, [s.store.outbox[0]], []));
    RunBoth(s1, READ, [Check, PostEpoch, Ack]);
    ReadsOne(s1, v, ForReconcile, s.store.outbox[0]);
    t := ChecksAndAcks(s.(pc := Checking(Batch(1, 1, [RecOf(v)]), 0)), v);
  }

  lemma LostCycle(s: State, v: Value) returns (t: State)
    requires SchemaOk(SCHEMA) && Waiting(s, v) && s.pc == Idle && s.sync.inflight.None?
    ensures t == Run(SCHEMA, s, LOST) && t.d1 == s.d1 && t.store.rows == s.store.rows
    ensures t.sync == AckedSync(s.sync, 1, s.d1.epoch) && forall o :: o in t.store.outbox ==> o.seq_ == 1
  {
    var f := Fails(s, v);
    var rest := READ + [Check, PostEpoch, Ack];
    RunBoth(s, FAILED, rest);
    t := Reconciles(f, v);
  }

  // ------------------------------------------------------------ the loss

  /** A store seeded with v under K, D1 with the same row. */
  function Seeded(v: Value): State {
    State(Store(map[K := RowOf(v)], [], 1), Sync(0, 0, Some(0), None, None, None, map[], map[]),
          D1(map[K := RowOf(v)], 0), 0.0, Idle, None)
  }

  lemma SeededInit(v: Value)
    ensures SchemaOk(SCHEMA) && Init(SCHEMA, Seeded(v))
  {
    AllTables();
    assert StoredRow(SCHEMA, K, RowOf(v));
  }

  /** After the local update of K to v. */
  lemma Updated(s0: State, was: Value, v: Value) returns (s: State)
    requires was != v && JsonSafe(v)
    requires s0 == Seeded(was).(d1 := s0.d1) && Get(s0.d1.rows, K) == Some(RowOf(was))
    ensures SchemaOk(SCHEMA) && s == Step(SCHEMA, s0, Local(UpdateW(K, RowOf(v))))
    ensures Queued(s, v) && s.store.rows == map[K := RowOf(v)] && s == s0.(store := s.store)
    ensures SameValue(v, was) ==> Waiting(s, v)
  {
    SeededInit(was);
    assert RowOf(was)["v"] == was && RowOf(v)["v"] == v;
    assert StoredRow(SCHEMA, K, RowOf(v));
    s := Step(SCHEMA, s0, Local(UpdateW(K, RowOf(v))));
    assert Enqueued(s0.store, UpdateW(K, RowOf(v))) == [K];
  }

  lemma NoForeignLost()
    ensures NoForeign(LOST)
  {}

  /** An integer the comparison takes for another can be lost: a run without a
      foreign writer acks its update, the outbox holds nothing past the ack,
      and D1 still has the other. */
  lemma UpdateCanBeLost(n: int) returns (b: int, es: seq<Event>)
    requires !ToldApart(n)
    ensures b != n && (Int64(n) ==> Int64(b)) && NoForeign(es) && SchemaOk(SCHEMA) && Init(SCHEMA, Seeded(Int(b)))
    ensures var r := Run(SCHEMA, Seeded(Int(b)), es);
            && (forall o :: o in r.store.outbox ==> o.seq_ <= r.sync.acked)
            && Get(r.store.rows, K) == Some(RowOf(Int(n))) && Get(r.d1.rows, K) == Some(RowOf(Int(b)))
  {
    b := Another(n);
    Equal(n, b);
    SeededInit(Int(b));
    var s := Updated(Seeded(Int(b)), Int(b), Int(n));
    var e := Local(UpdateW(K, RowOf(Int(n))));
    es := [e] + LOST;
    RunOne(Seeded(Int(b)), e, LOST);
    NoForeignLost();
    var t := LostCycle(s, Int(n));
  }
}
