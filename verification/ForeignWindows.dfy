/** Runs in which a foreign write goes unseen, one for each way to have something
    out when it lands, and one in which the preflight stays relaxed for later
    batches. */
module ForeignWindows {
  import opened Rows
  import opened FloatCompare
  import opened Statements
  import opened Outbox
  import opened Batches
  import opened ForeignKeyOrder
  import opened Replicator
  import opened ReplicatorSafety
  import opened ReplicatorHistory
  import opened DrainedValues

  const MEMORY := Key(Memories, [Int(1)])

  /** Another writer's new memories row. */
  const FOREIGN := Upsert(Memories, COLUMNS, ["v"], [Int(1), Int(2)])

  /** It succeeds on any D1 without that row, and moves the epoch. */
  lemma ForeignMemory(s: State)
    requires SchemaOk(SCHEMA) && MEMORY !in s.d1.rows
    ensures Step(SCHEMA, s, Foreign(FOREIGN)) == s.(d1 := D1(s.d1.rows[MEMORY := RowOf(Int(2))], s.d1.epoch + 1))
  {
    ForeignRow();
    assert Exec(s.d1, FOREIGN) == Some(InsertRow(s.d1, MEMORY, RowOf(Int(2))));
  }

  lemma ForeignRow()
    ensures Zip(COLUMNS, [Int(1), Int(2)]) == RowOf(Int(2))
    ensures KeyOf(Memories, RowOf(Int(2))) == Some(MEMORY)
  {
    ZipValues(COLUMNS, [Int(1), Int(2)], RowOf(Int(2)));
    assert COLUMNS[0] == "id" && COLUMNS[1] == "v";
    KeyOfKeyed(MEMORY, RowOf(Int(2)));
  }

  lemma ForeignThenLocal() returns (s: State, e: Event, u: State)
    ensures SchemaOk(SCHEMA) && s == Step(SCHEMA, Seeded(Int(1)), Foreign(FOREIGN)) && NothingOut(s)
    ensures s.d1.epoch == 1 && MEMORY in s.d1.rows
    ensures e.Local? && u == Step(SCHEMA, s, e) && u == s.(store := u.store) && Waiting(u, Real(1.0))
    ensures MEMORY !in u.store.rows && s.sync == Seeded(Int(1)).sync && s.pc == Idle
  {
    SeededInit(Int(1));
    s := Step(SCHEMA, Seeded(Int(1)), Foreign(FOREIGN));
    ForeignMemory(Seeded(Int(1)));
    assert NearestDouble(1) == 1 by { NearestDoubleExact(1); }
    e := Local(UpdateW(K, RowOf(Real(1.0))));
    u := Updated(s, Int(1), Real(1.0));
  }

  /** A failure between the marker and its preflight hides a foreign write: the
      reconcile acks without an operator's resume, and the epoch expected next
      is D1's after that write. */
  lemma FailureHidesForeignWrite() returns (es: seq<Event>)
    ensures SchemaOk(SCHEMA) && Init(SCHEMA, Seeded(Int(1)))
    ensures forall i :: 0 <= i < |es| ==> !es[i].Foreign? && !es[i].Resume?
    ensures var s := Step(SCHEMA, Seeded(Int(1)), Foreign(FOREIGN));
            var r := Run(SCHEMA, s, es);
            && NothingOut(s) && s.d1.epoch == 1 && MEMORY in r.d1.rows
            && MEMORY !in r.store.rows
            && r.sync.acked == 1 && r.sync.expected == Some(r.d1.epoch) && r.sync.halted.None?
  {
    SeededInit(Int(1));
    var s, e, u := ForeignThenLocal();
    es := [e] + LOST;
    RunOne(s, e, LOST);
    var t := LostCycle(u, Real(1.0));
  }

  // ------------------------------------------------------------ a write during the send

  const B: Batch := Batch(1, 1, [RecOf(Int(2))])

  lemma BuiltUpsert(v: Value)
    requires JsonSafe(v)
    ensures BuildOf(RecOf(v), SCHEMA) == Ok([Upsert(Actions, COLUMNS, ["v"], [Int(1), v])])
  {
    BuildsOne(v);
    assert COLUMNS[1..] == ["v"] && COLUMNS[1..][1..] == [];
    assert Filter(COLUMNS, RowOf(v).Keys) == COLUMNS;
    assert Without(COLUMNS, ["id"]) == ["v"];
    assert Values(COLUMNS, RowOf(v)) == [Int(1), v];
  }

  lemma UpsertWrites(d: D1, v: Value)
    requires K in d.rows && d.rows[K].Keys == {"id", "v"}
    ensures Exec(d, Upsert(Actions, COLUMNS, ["v"], [Int(1), v])) == Some(D1(d.rows[K := RowOf(v)], d.epoch))
  {
    ZipValues(COLUMNS, [Int(1), v], RowOf(v));
    assert COLUMNS[0] == "id" && COLUMNS[1] == "v";
    assert Zip(COLUMNS, [Int(1), v]) == RowOf(v);
    KeyOfKeyed(K, RowOf(v));
    assert d.rows[K] + RowOf(v) == RowOf(v);
  }

  /** The one statement reaches D1. */
  lemma SendsOne(s: State)
    requires SchemaOk(SCHEMA) && s.pc == Sending(B, 0, 0) && K in s.d1.rows && s.d1.rows[K].Keys == {"id", "v"}
    ensures Step(SCHEMA, s, Send) == s.(d1 := D1(s.d1.rows[K := RowOf(Int(2))], s.d1.epoch), pc := Sending(B, 1, 0))
  {
    var st := Upsert(Actions, COLUMNS, ["v"], [Int(1), Int(2)]);
    UpsertIsNext(s, st);
    UpsertWrites(s.d1, Int(2));
    SendsLast(SCHEMA, s, st, D1(s.d1.rows[K := RowOf(Int(2))], s.d1.epoch));
  }

  lemma SendsLast(schema: Schema, s: State, st: Stmt, d': D1)
    requires SchemaOk(schema) && NextStatement(schema, s, [st]) && Exec(s.d1, st) == Some(d') && s.pc.j == 0
    ensures Step(schema, s, Send) == s.(d1 := d', pc := Sending(s.pc.b, s.pc.i + 1, 0))
  {
    SendIs(schema, s, [st], d');
    StepIsSend(schema, s);
  }

  lemma UpsertIsNext(s: State, st: Stmt)
    requires SchemaOk(SCHEMA) && s.pc == Sending(B, 0, 0) && st == Upsert(Actions, COLUMNS, ["v"], [Int(1), Int(2)])
    ensures NextStatement(SCHEMA, s, [st])
  {
    BuiltUpsert(Int(2));
    assert |st.cols| == 2 && |st.vals| == 2;
  }

  const SEND: seq<Event> := [StartWrite(1)] + (READ + [Mark, Preflight, Send])

  lemma MarksAndSends(s: State) returns (t: State)
    requires SchemaOk(SCHEMA) && s.pc == Prepared(B) && s.sync.expected == Some(s.d1.epoch)
    requires s.relaxed.Some? ==> s.relaxed.value <= s.d1.epoch
    requires K in s.d1.rows && s.d1.rows[K].Keys == {"id", "v"}
    ensures t == Run(SCHEMA, s, [Mark, Preflight, Send])
    ensures t == s.(sync := s.sync.(inflight := Some(Marker(1, 1, s.d1.epoch))),
                    d1 := D1(s.d1.rows[K := RowOf(Int(2))], s.d1.epoch), pc := Sending(B, 1, 0))
  {
    RunThree(s, Mark, Preflight, Send);
    var marked := s.(sync := s.sync.(inflight := Some(Marker(1, 1, s.d1.epoch))), pc := Marked(B));
    assert MarkStep(s) == marked;
    assert PreflightStep(marked) == marked.(pc := Sending(B, 0, 0));
    SendsOne(marked.(pc := Sending(B, 0, 0)));
    t := Step(SCHEMA, marked.(pc := Sending(B, 0, 0)), Send);
  }

  /** A whole write cycle up to its last statement. */
  lemma Sends(s: State) returns (t: State)
    requires SchemaOk(SCHEMA) && Queued(s, Int(2)) && s.pc == Idle && s.sync.inflight.None?
    requires s.sync.expected == Some(s.d1.epoch) && (s.relaxed.Some? ==> s.relaxed.value <= s.d1.epoch)
    requires K in s.d1.rows && s.d1.rows[K].Keys == {"id", "v"}
    ensures t == Run(SCHEMA, s, SEND)
    ensures t == s.(sync := s.sync.(inflight := Some(Marker(1, 1, s.d1.epoch))),
                    d1 := D1(s.d1.rows[K := RowOf(Int(2))], s.d1.epoch), pc := Sending(B, 1, 0))
  {
    Starts(s, Int(2));
    var s1 := s.(pc := Reading(ForWrite, 1, 1, [s.store.outbox[0]], []));
    RunOne(s, StartWrite(1), READ + [Mark, Preflight, Send]);
    RunBoth(s1, READ, [Mark, Preflight, Send]);
    ReadsOne(s1, Int(2), ForWrite, s.store.outbox[0]);
    t := MarksAndSends(s.(pc := Prepared(B)));
  }

  /** The seed's K updated from 1 to 2. */
  const UPDATE: Event := Local(UpdateW(K, RowOf(Int(2))))

  const SENT: seq<Event> := [UPDATE] + SEND
  const ENDED: seq<Event> := [PostEpoch, Ack]

  /** Neither another writer's, nor a death of the process, nor an operator's. */
  predicate Own(e: Event) { !e.Foreign? && !e.Crash? && !e.Resume? }

  predicate AllOwn(es: seq<Event>) { forall i :: 0 <= i < |es| ==> Own(es[i]) }

  predicate FailFree(es: seq<Event>) { forall i :: 0 <= i < |es| ==> !es[i].Fail? }

  /** Nothing fails: another writer's row lands inside the send, and the ack
      takes the epoch after it. */
  lemma WriteDuringSendIsMissed() returns (before: seq<Event>, after: seq<Event>)
    ensures SchemaOk(SCHEMA) && Init(SCHEMA, Seeded(Int(1)))
    ensures AllOwn(before) && AllOwn(after) && FailFree(before) && FailFree(after)
    ensures var s := Run(SCHEMA, Seeded(Int(1)), before);
            var r := Run(SCHEMA, Step(SCHEMA, s, Foreign(FOREIGN)), after);
            && s.pc.Sending? && MEMORY in r.d1.rows && MEMORY !in r.store.rows
            && r.sync.acked == 1 && r.sync.expected == Some(r.d1.epoch) && r.d1.epoch == s.d1.epoch + 1
            && r.sync.halted.None? && r.pc == Idle
  {
    before, after := SENT, ENDED;
    SentIsOwn();
    var s := UntilWrite();
    MissedBySend(s);
  }

  lemma UntilWrite() returns (s: State)
    ensures SchemaOk(SCHEMA) && Init(SCHEMA, Seeded(Int(1))) && s == Run(SCHEMA, Seeded(Int(1)), SENT)
    ensures s.pc == Sending(B, 1, 0) && MEMORY !in s.d1.rows && MEMORY !in s.store.rows && s.sync.halted.None?
  {
    SeededInit(Int(1));
    var u := Updated(Seeded(Int(1)), Int(1), Int(2));
    RunOne(Seeded(Int(1)), UPDATE, SEND);
    s := Sends(u);
  }

  lemma SentIsOwn()
    ensures AllOwn(SENT) && FailFree(SENT) && AllOwn(ENDED) && FailFree(ENDED)
  {}

  lemma MissedBySend(s: State)
    requires SchemaOk(SCHEMA) && s.pc == Sending(B, 1, 0) && MEMORY !in s.d1.rows && s.sync.halted.None?
    ensures var r := Run(SCHEMA, Step(SCHEMA, s, Foreign(FOREIGN)), ENDED);
            && MEMORY in r.d1.rows && r.store.rows == s.store.rows && r.sync.acked == 1
            && r.sync.expected == Some(r.d1.epoch) && r.d1.epoch == s.d1.epoch + 1 && r.sync.halted.None? && r.pc == Idle
  {
    ForeignMemory(s);
    EndsSend(Step(SCHEMA, s, Foreign(FOREIGN)));
  }

  lemma EndsSend(s: State)
    requires SchemaOk(SCHEMA) && s.pc == Sending(B, 1, 0)
    ensures var r := Run(SCHEMA, s, ENDED);
            r.store.rows == s.store.rows && r.d1 == s.d1 && r.sync == AckedSync(s.sync, 1, s.d1.epoch) && r.pc == Idle
  {
    assert [PostEpoch, Ack] == [PostEpoch] + ([Ack] + []);
    RunOne(s, PostEpoch, [Ack] + []);
    RunOne(PostEpochStep(s), Ack, []);
    assert PostEpochStep(s) == s.(pc := Sent(B, s.d1.epoch), relaxed := None);
  }

  // ------------------------------------------------------------ a preflight left relaxed

  lemma ReadsBack(s: State)
    requires SchemaOk(SCHEMA) && Queued(s, Int(2)) && s.pc == Idle && s.sync.inflight.Some?
    requires s.sync.inflight.value.lo == 1 && s.sync.inflight.value.hi == 1
    ensures Run(SCHEMA, Step(SCHEMA, s, StartReconcile), READ) == s.(pc := Checking(B, 0))
  {
    Starts(s, Int(2));
    var s1 := s.(pc := Reading(ForReconcile, 1, 1, [s.store.outbox[0]], []));
    ReadsOne(s1, Int(2), ForReconcile, s.store.outbox[0]);
  }

  /** The reconcile of a send that never left: the read-back differs, and the
      resend is relaxed. */
  lemma Relaxes(s: State) returns (t: State)
    requires SchemaOk(SCHEMA) && Queued(s, Int(2)) && s.pc == Idle && s.sync.inflight.Some?
    requires s.sync.inflight.value.lo == 1 && s.sync.inflight.value.hi == 1
    requires Get(s.d1.rows, K) == Some(RowOf(Int(1)))
    ensures t == Run(SCHEMA, Step(SCHEMA, s, StartReconcile), READ + [Check])
    ensures t == s.(relaxed := Some(s.sync.inflight.value.epochBefore), sync := s.sync.(inflight := None))
  {
    ReadsBack(s);
    RunBoth(Step(SCHEMA, s, StartReconcile), READ, [Check]);
    RefusesBack(s.(pc := Checking(B, 0)));
    t := s.(relaxed := Some(s.sync.inflight.value.epochBefore), sync := s.sync.(inflight := None));
  }

  lemma RefusesBack(s: State)
    requires SchemaOk(SCHEMA) && Get(s.d1.rows, K) == Some(RowOf(Int(1))) && s.pc == Checking(B, 0) && s.sync.inflight.Some?
    ensures Run(SCHEMA, s, [Check])
            == s.(relaxed := Some(s.sync.inflight.value.epochBefore), sync := s.sync.(inflight := None), pc := Idle)
  {
    assert [Check] == [Check] + [];
    RunOne(s, Check, []);
    Differs(s);
  }

  lemma Differs(s: State)
    requires Get(s.d1.rows, K) == Some(RowOf(Int(1))) && s.pc == Checking(B, 0) && s.sync.inflight.Some?
    ensures CheckStep(s) == s.(relaxed := Some(s.sync.inflight.value.epochBefore), sync := s.sync.(inflight := None), pc := Idle)
  {
    NearestDoubleExact(1);
    NearestDoubleExact(2);
    assert RowOf(Int(2))["v"] == Int(2) && RowOf(Int(1))["v"] == Int(1);
  }

  const RELAX: seq<Event> := [UPDATE] + (FAILED + (READ + [Check]))
  const RESEND: seq<Event> := SEND + ([Fail] + ([StartReconcile] + (READ + [Check, PostEpoch, Ack])))

  lemma RelaxedRun() returns (x: State)
    ensures SchemaOk(SCHEMA) && x == Run(SCHEMA, Seeded(Int(1)), RELAX)
    ensures Queued(x, Int(2)) && x.pc == Idle && x.relaxed == Some(0) && x.d1 == Seeded(Int(1)).d1
    ensures x.sync == Seeded(Int(1)).sync
  {
    SeededInit(Int(1));
    var u := Updated(Seeded(Int(1)), Int(1), Int(2));
    var f := Fails(u, Int(2));
    x := Relaxes(f);
    RunOne(Seeded(Int(1)), UPDATE, FAILED + (READ + [Check]));
    RunBoth(u, FAILED, READ + [Check]);
  }

  lemma ResentRun(x: State) returns (z: State)
    requires SchemaOk(SCHEMA) && Queued(x, Int(2)) && x.pc == Idle && x.relaxed == Some(0)
    requires x.d1 == Seeded(Int(1)).d1 && x.sync == Seeded(Int(1)).sync
    ensures z == Run(SCHEMA, x, RESEND) && z.pc == Idle && z.relaxed == Some(0)
    ensures z.sync.acked == 1 && z.sync.inflight.None? && z.sync.halted.None? && forall o :: o in z.store.outbox ==> o.seq_ == 1
  {
    var y := Sends(x);
    var last := READ + [Check, PostEpoch, Ack];
    RunBoth(x, SEND, [Fail] + ([StartReconcile] + last));
    RunOne(y, Fail, [StartReconcile] + last);
    RunOne(y.(pc := Idle), StartReconcile, last);
    z := Reconciles(y.(pc := Idle), Int(2));
  }

  lemma RelaxIsOwn()
    ensures AllOwn(RELAX)
  {}

  lemma ResendIsOwn()
    ensures AllOwn(RESEND)
  {}

  lemma OwnBoth(a: seq<Event>, b: seq<Event>)
    requires AllOwn(a) && AllOwn(b)
    ensures AllOwn(a + b)
  {}

  /** A reconcile that acks leaves the preflight relaxed for the batches after
      it: the range is acked, no marker stands, and the relaxed epoch is still
      there, in a run without a foreign writer, a crash or a resume. */
  lemma RelaxedOutlivesItsAttempt() returns (es: seq<Event>)
    ensures SchemaOk(SCHEMA) && Init(SCHEMA, Seeded(Int(1))) && AllOwn(es)
    ensures var r := Run(SCHEMA, Seeded(Int(1)), es);
            && r.sync.acked == 1 && (forall o :: o in r.store.outbox ==> o.seq_ <= r.sync.acked)
            && r.sync.inflight.None? && r.sync.halted.None? && r.pc == Idle && r.relaxed.Some? && !NothingOut(r)
  {
    SeededInit(Int(1));
    RelaxIsOwn();
    ResendIsOwn();
    OwnBoth(RELAX, RESEND);
    es := RELAX + RESEND;
    RunBoth(Seeded(Int(1)), RELAX, RESEND);
    var x := RelaxedRun();
    var z := ResentRun(x);
  }
}
