/** What a replicator that nothing interrupts comes to: from any reachable state
    it drains the outbox and makes D1 equal, unless the delete guard stops it. */
module Convergence {
  import opened Rows
  import opened Statements
  import opened Outbox
  import opened Batches
  import opened ForeignKeyOrder
  import opened Replicator
  import opened ReplicatorSafety
  import opened ReplicatorHistory
  import opened ForeignWrites

  /** What the replicator itself does when nothing fails. */
  predicate Driven(e: Event) {
    || e.StartWrite? || e.StartReconcile? || e.ReadRow? || e.ReadParent? || e.Assemble? || e.Mark?
    || e.Preflight? || e.Send? || e.PostEpoch? || e.Check? || e.Ack?
  }

  predicate AllDriven(es: seq<Event>) { forall i :: 0 <= i < |es| ==> Driven(es[i]) }

  /** Its next step. */
  function Next(s: State, limit: nat): Event {
    match s.pc
    case Idle => if s.sync.inflight.Some? then StartReconcile else StartWrite(limit)
    case Reading(_, _, _, _, _) => ReadRow
    case Adding(_, _, _, recs, i, _) => if i < |recs| then ReadParent else Assemble
    case Prepared(_) => Mark
    case Marked(_) => Preflight
    case Sending(b, i, _) => if i < |b.recs| then Send else PostEpoch
    case Checking(b, i) => if i < |b.recs| then Check else PostEpoch
    case Sent(_, _) => Ack
  }

  /** Every stored row and every enqueued key makes statements. */
  ghost predicate CanBuild(schema: Schema, st: Store)
    requires SchemaOk(schema)
  {
    && (forall k :: k in st.rows && !Excluded(k) ==> BuildOf(Rec(0, k, Some(st.rows[k])), schema).Ok?)
    && forall e :: e in st.outbox ==> BuildOf(Rec(0, e.key, None), schema).Ok?
  }

  // ------------------------------------------------------------ a state on its way

  /** An ordered batch as stored, each child's parent with it. */
  ghost predicate Fit(recs: seq<Rec>, rows: Db) {
    Current(recs, rows) && InOrder(recs) && forall i :: 0 <= i < |recs| ==> CarriesParent(recs, recs[i])
  }

  /** What is left of the batch runs on D1 as it is, or as it was before the
      first of the record's two statements. */
  ghost predicate Sendable(schema: Schema, s: State)
    requires SchemaOk(schema) && s.pc.Sending? && s.pc.i <= |s.pc.b.recs|
  {
    exists d: D1 :: Ready(s.pc.b.recs[s.pc.i..], d, s.store.rows, schema) && Reached(schema, s, d)
  }

  ghost predicate Reached(schema: Schema, s: State, d: D1)
    requires SchemaOk(schema) && s.pc.Sending? && s.pc.i <= |s.pc.b.recs|
  {
    if s.pc.j == 0 then d == s.d1
    else
      && s.pc.i < |s.pc.b.recs| && BuildOf(s.pc.b.recs[s.pc.i], schema).Ok?
      && var sts := BuildOf(s.pc.b.recs[s.pc.i], schema).value;
         WellTyped(sts) && |sts| == 2 && s.pc.j == 1 && Exec(d, sts[0]) == Some(s.d1)
  }

  ghost predicate OnCourse(schema: Schema, s: State)
    requires SchemaOk(schema)
  {
    match s.pc
    case Idle => true
    case Reading(_, _, _, _, got) => Current(got, s.store.rows)
    case Adding(_, _, _, recs, i, extra) => Walked(recs, i, extra, s.store.rows)
    case Prepared(b) => Fit(b.recs, s.store.rows)
    case Marked(b) => Fit(b.recs, s.store.rows)
    case Sending(b, i, _) => i <= |b.recs| && Fit(b.recs, s.store.rows) && Sendable(schema, s)
    case Checking(_, _) => true
    case Sent(_, post) => post == s.d1.epoch
  }

  /** No preflight ahead will halt: D1's epoch is the expected one wherever it
      is compared with it. */
  ghost predicate EpochClear(s: State) {
    s.relaxed.Some? || s.sync.expected == Some(s.d1.epoch)
    || match s.pc {
      case Idle => s.sync.inflight.Some?
      case Reading(p, _, _, _, _) => p == ForReconcile
      case Adding(p, _, _, _, _, _) => p == ForReconcile
      case Prepared(_) => false
      case Marked(_) => false
      case _ => true
    }
  }

  ghost predicate Steady(schema: Schema, s: State)
    requires SchemaOk(schema)
  {
    && Inv(schema, s) && Shape(s) && s.sync.halted.None? && CanBuild(schema, s.store)
    && EpochClear(s) && OnCourse(schema, s)
  }

  // ------------------------------------------------------------ how far it has come

  function Gap(s: State): nat { if s.sync.acked < s.store.next then s.store.next - s.sync.acked else 0 }

  function Stage(s: State): nat {
    match s.pc
    case Idle => if s.sync.inflight.Some? then 10 else 6
    case Reading(p, _, _, _, _) => if p == ForReconcile then 9 else 5
    case Adding(p, _, _, _, _, _) => if p == ForReconcile then 8 else 4
    case Checking(_, _) => 7
    case Prepared(_) => 3
    case Marked(_) => 2
    case Sending(_, _, _) => 1
    case Sent(_, _) => 0
  }

  function Left(s: State): nat {
    match s.pc
    case Reading(_, _, _, todo, got) => if |got| <= |todo| then |todo| - |got| + 1 else 0
    case Adding(_, _, _, recs, i, _) => if i <= |recs| then |recs| - i + 1 else 0
    case Sending(b, i, j) => if i < |b.recs| && j <= 1 then 2 * (|b.recs| - i) - j + 1 else 0
    case Checking(b, i) => if i <= |b.recs| then |b.recs| - i + 1 else 0
    case _ => 0
  }

  ghost predicate Nearer(t: State, s: State) {
    || Gap(t) < Gap(s)
    || (Gap(t) == Gap(s) && (Stage(t) < Stage(s) || (Stage(t) == Stage(s) && Left(t) < Left(s))))
  }

  /** The step keeps the local rows and takes the state on. */
  ghost predicate Advances(schema: Schema, s: State, t: State)
    requires SchemaOk(schema)
  {
    Steady(schema, t) && Nearer(t, s) && t.store.rows == s.store.rows && Kept(s, t)
  }

  /** What is pending was pending before. */
  ghost predicate Kept(s: State, t: State) {
    s.sync.acked <= t.sync.acked && forall e :: e in t.store.outbox ==> e in s.store.outbox
  }

  /** Nothing to do: no marker and no outbox row past the acks. */
  ghost predicate Drained(s: State) {
    s.pc.Idle? && s.sync.inflight.None? && forall e :: e in s.store.outbox ==> e.seq_ <= s.sync.acked
  }

  // ------------------------------------------------------------ reading

  /** Only the program counter moved. */
  lemma Moved(schema: Schema, s: State, pc: Pc)
    requires SchemaOk(schema) && Steady(schema, s) && Inv(schema, s.(pc := pc)) && Shape(s.(pc := pc))
    requires EpochClear(s.(pc := pc)) && OnCourse(schema, s.(pc := pc)) && Nearer(s.(pc := pc), s)
    ensures Advances(schema, s, s.(pc := pc))
  {}

  lemma SomethingToRead(s: State, limit: nat)
    requires s.pc.Idle? && s.sync.inflight.None? && !Drained(s) && 1 <= limit
    ensures WriteRows(s.store.outbox, s.sync.acked, limit) != []
  {
    var e :| e in s.store.outbox && e.seq_ > s.sync.acked;
    SelectMembers(s.store.outbox, s.sync.acked, None);
    assert e in Select(s.store.outbox, s.sync.acked, None);
  }

  lemma StartIs(s: State, limit: nat)
    requires s.pc.Idle? && s.sync.halted.None? && s.sync.inflight.None? && !Drained(s) && 1 <= limit <= 1000
    ensures var t := StartWriteStep(s, limit);
            t.pc.Reading? && t.pc.p == ForWrite && t.pc.got == [] && t == s.(pc := t.pc)
  {
    SomethingToRead(s, limit);
  }

  lemma StartsWrite(schema: Schema, s: State, limit: nat)
    requires SchemaOk(schema) && Steady(schema, s) && s.pc.Idle? && s.sync.inflight.None? && !Drained(s)
    requires 1 <= limit <= 1000
    ensures Advances(schema, s, StartWriteStep(s, limit))
  {
    StartIs(s, limit);
    StartWriteKeeps(schema, s, limit);
    Moved(schema, s, StartWriteStep(s, limit).pc);
  }

  lemma StartsReconcile(schema: Schema, s: State)
    requires SchemaOk(schema) && Steady(schema, s) && s.pc.Idle? && s.sync.inflight.Some?
    ensures Advances(schema, s, StartReconcileStep(s))
  {
    StartReconcileKeeps(schema, s);
    Moved(schema, s, StartReconcileStep(s).pc);
  }

  lemma ReadIsCurrent(schema: Schema, s: State)
    requires SchemaOk(schema) && s.pc.Reading? && OnCourse(schema, s)
    ensures OnCourse(schema, ReadRowStep(s))
  {
    if |s.pc.got| >= |s.pc.todo| { assert s.pc.got + [] == s.pc.got; }
  }

  lemma ReadsRow(schema: Schema, s: State)
    requires SchemaOk(schema) && Steady(schema, s) && s.pc.Reading?
    ensures Advances(schema, s, ReadRowStep(s))
  {
    ReadRowKeeps(schema, s);
    ReadIsCurrent(schema, s);
    Moved(schema, s, ReadRowStep(s).pc);
  }

  lemma ReadsParent(schema: Schema, s: State)
    requires SchemaOk(schema) && Steady(schema, s) && s.pc.Adding? && s.pc.i < |s.pc.recs|
    ensures Advances(schema, s, ReadParentStep(s))
  {
    ReadParentKeeps(schema, s);
    ParentTravels(s.pc.recs, s.pc.i, s.pc.extra, s.store.rows);
    Moved(schema, s, ReadParentStep(s).pc);
  }

  lemma OrderFits(recs: seq<Rec>, extra: seq<Rec>, rows: Db)
    requires Walked(recs, |recs|, extra, rows)
    ensures Fit(Order(recs + extra), rows)
  {
    var all := recs + extra;
    var o := Order(all);
    OrderInOrder(all);
    OrderMembers(all);
    forall i | 0 <= i < |o| ensures o[i].row == Get(rows, o[i].key) && CarriesParent(o, o[i]) {
      assert o[i] in all;
      var j :| 0 <= j < |all| && all[j] == o[i];
      assert CarriesParent(all, all[j]) by { if j >= |recs| { assert all[j] == extra[j - |recs|]; } }
      CarriesAnywhere(all, o, o[i]);
    }
  }

  lemma RecBuilds(schema: Schema, s: State, hi: int, r: Rec)
    requires SchemaOk(schema) && CanBuild(schema, s.store) && RecGood(schema, s.store, s.sync.acked, hi, r)
    requires r.row == Get(s.store.rows, r.key)
    ensures BuildOf(r, schema).Ok?
  {
    if r.row.Some? {
      assert BuildOf(Rec(0, r.key, r.row), schema).Ok?;
    } else {
      var i :| 0 <= i < |s.store.outbox| && s.store.outbox[i].key == r.key && s.store.outbox[i].seq_ > s.sync.acked;
      assert s.store.outbox[i] in s.store.outbox;
    }
  }

  lemma AllBuild(schema: Schema, s: State)
    requires SchemaOk(schema) && Steady(schema, s) && s.pc.Adding? && s.pc.i == |s.pc.recs|
    ensures var o := Order(s.pc.recs + s.pc.extra);
            Buildable(o, schema) && Fit(o, s.store.rows) && RecsGood(schema, s.store, s.sync.acked, s.pc.hi, o)
  {
    var o := Order(s.pc.recs + s.pc.extra);
    OrderFits(s.pc.recs, s.pc.extra, s.store.rows);
    OrderMembers(s.pc.recs + s.pc.extra);
    forall i | 0 <= i < |o| ensures BuildOf(o[i], schema).Ok? {
      assert o[i] in s.pc.recs + s.pc.extra;
      RecBuilds(schema, s, s.pc.hi, o[i]);
    }
  }

  /** A local row is gone and D1 has not been told. */
  ghost predicate DeletePending(s: State) {
    exists e :: e in s.store.outbox && e.seq_ > s.sync.acked && e.key !in s.store.rows
  }

  lemma {:induction false} SomeDelete(recs: seq<Rec>, t: Table) returns (i: nat)
    requires DeletesOf(recs, t) > 0
    ensures i < |recs| && recs[i].row.None?
  {
    if recs[0].key.tbl == t && recs[0].row.None? { i := 0; }
    else {
      i := SomeDelete(recs[1..], t);
      i := i + 1;
    }
  }

  lemma GuardNeedsDelete(schema: Schema, s: State, recs: seq<Rec>, hi: int)
    requires SchemaOk(schema) && RecsGood(schema, s.store, s.sync.acked, hi, recs) && Current(recs, s.store.rows)
    requires GuardTrips(recs, s.store.rows)
    ensures DeletePending(s)
  {
    var t :| DeletesOf(recs, t) > DELETE_GUARD_ROWS || 100 * DeletesOf(recs, t) > Total(s.store.rows, t) + DeletesOf(recs, t);
    var i := SomeDelete(recs, t);
    assert recs[i] in recs;
    var n :| 0 <= n < |s.store.outbox| && s.store.outbox[n].key == recs[i].key && s.store.outbox[n].seq_ > s.sync.acked;
    assert s.store.outbox[n] in s.store.outbox;
  }

  /** The guard stopped a batch with a delete in it. */
  ghost predicate Guarded(s: State, t: State) {
    && t.pc.Idle? && t.sync.halted.Some? && t.sync.halted.value.DeleteGuard? && t.store.rows == s.store.rows
    && DeletePending(s)
  }

  lemma Assembles(schema: Schema, s: State)
    requires SchemaOk(schema) && Steady(schema, s) && s.pc.Adding? && s.pc.i == |s.pc.recs|
    ensures var t := AssembleStep(schema, s); Advances(schema, s, t) || Guarded(s, t)
  {
    AllBuild(schema, s);
    AssembleKeeps(schema, s);
    AssembleShape(schema, s);
    var b := Batch(s.pc.lo, s.pc.hi, Order(s.pc.recs + s.pc.extra));
    var t := AssembleStep(schema, s);
    if s.pc.p == ForReconcile {
      assert t == s.(pc := Checking(b, 0));
      Moved(schema, s, t.pc);
    } else if GuardTrips(b.recs, s.store.rows) && s.sync.allow != Some(AttemptOf(b)) {
      GuardNeedsDelete(schema, s, b.recs, s.pc.hi);
    } else {
      assert t == s.(pc := Prepared(b));
      Moved(schema, s, t.pc);
    }
  }

  // ------------------------------------------------------------ sending

  lemma Marks(schema: Schema, s: State)
    requires SchemaOk(schema) && Steady(schema, s) && s.pc.Prepared?
    ensures Advances(schema, s, MarkStep(s))
  {
    MarkKeeps(schema, s);
  }

  lemma BatchIsReady(schema: Schema, s: State, b: Batch)
    requires SchemaOk(schema) && BatchGood(schema, s.store, s.sync.acked, b) && Fit(b.recs, s.store.rows) && FkOk(s.d1.rows)
    ensures Ready(b.recs, s.d1, s.store.rows, schema)
  {
    forall i | 0 <= i < |b.recs|
      ensures Null !in b.recs[i].key.pk
      ensures b.recs[i].row.Some? ==> StoredRow(schema, b.recs[i].key, b.recs[i].row.value)
    {
      assert b.recs[i] in b.recs;
    }
  }

  lemma Preflights(schema: Schema, s: State)
    requires SchemaOk(schema) && Steady(schema, s) && s.pc.Marked?
    ensures Advances(schema, s, PreflightStep(s))
  {
    var b := s.pc.b;
    PreflightKeeps(schema, s);
    var t := s.(pc := Sending(b, 0, 0));
    assert PreflightStep(s) == t;
    BatchIsReady(schema, s, b);
    assert b.recs[0..] == b.recs;
    assert Ready(b.recs[0..], s.d1, s.store.rows, schema) && Reached(schema, t, s.d1);
    Moved(schema, s, t.pc);
  }

  lemma ReachedBy(schema: Schema, s: State, sts: seq<Stmt>, d: D1)
    requires SchemaOk(schema) && s.pc.Sending? && s.pc.i < |s.pc.b.recs| && Reached(schema, s, d)
    requires BuildOf(s.pc.b.recs[s.pc.i], schema) == Ok(sts)
    ensures s.pc.j == 0 ==> d == s.d1
    ensures s.pc.j != 0 ==> s.pc.j == 1 && |sts| == 2 && WellTyped(sts) && Exec(d, sts[0]) == Some(s.d1)
  {}

  /** The record's statement is accepted: one of one, or one of two. */
  lemma SendsRecord(schema: Schema, s: State, sts: seq<Stmt>, d: D1) returns (d': D1)
    requires SchemaOk(schema) && s.pc.Sending? && s.pc.i < |s.pc.b.recs| && Reached(schema, s, d)
    requires Ready(s.pc.b.recs[s.pc.i..], d, s.store.rows, schema) && Fit(s.pc.b.recs, s.store.rows)
    requires BuildOf(s.pc.b.recs[s.pc.i], schema) == Ok(sts)
    ensures NextStatement(schema, s, sts) && Exec(s.d1, sts[s.pc.j]) == Some(d') && 1 <= |sts| <= 2
    ensures OnCourse(schema, AfterSend(s, d', s.pc.j + 1 == |sts|))
  {
    var rest := s.pc.b.recs[s.pc.i..];
    var out := RecordRuns(schema, rest, d, s.store.rows, sts);
    assert rest[1..] == s.pc.b.recs[s.pc.i + 1..];
    ReachedBy(schema, s, sts, d);
    d' := if s.pc.j + 1 == |sts| then out else Exec(d, sts[0]).value;
    AfterIsReached(schema, s, sts, d, d');
    StaysReady(schema, AfterSend(s, d', s.pc.j + 1 == |sts|), if s.pc.j + 1 == |sts| then out else d);
  }

  lemma AfterIsReached(schema: Schema, s: State, sts: seq<Stmt>, d: D1, d': D1)
    requires SchemaOk(schema) && s.pc.Sending? && s.pc.i < |s.pc.b.recs| && WellTyped(sts) && 1 <= |sts| <= 2
    requires BuildOf(s.pc.b.recs[s.pc.i], schema) == Ok(sts)
    requires s.pc.j + 1 != |sts| ==> |sts| == 2 && Exec(d, sts[0]) == Some(d')
    ensures var last := s.pc.j + 1 == |sts|; Reached(schema, AfterSend(s, d', last), if last then d' else d)
  {}

  function AfterSend(s: State, d': D1, last: bool): State
    requires s.pc.Sending?
  {
    s.(d1 := d', pc := if last then Sending(s.pc.b, s.pc.i + 1, 0) else Sending(s.pc.b, s.pc.i, 1))
  }

  lemma StaysReady(schema: Schema, t: State, d: D1)
    requires SchemaOk(schema) && t.pc.Sending? && t.pc.i <= |t.pc.b.recs|
    requires Ready(t.pc.b.recs[t.pc.i..], d, t.store.rows, schema) && Reached(schema, t, d)
    requires Fit(t.pc.b.recs, t.store.rows)
    ensures OnCourse(schema, t)
  {}

  lemma RecordRuns(schema: Schema, rest: seq<Rec>, d: D1, rows: Db, sts: seq<Stmt>) returns (out: D1)
    requires SchemaOk(schema) && rest != [] && Ready(rest, d, rows, schema) && BuildOf(rest[0], schema) == Ok(sts)
    ensures Ready(rest[1..], out, rows, schema) && WellTyped(sts) && 1 <= |sts| <= 2
    ensures |sts| == 1 ==> Exec(d, sts[0]) == Some(out)
    ensures |sts| == 2 ==> Exec(d, sts[0]).Some? && Exec(Exec(d, sts[0]).value, sts[1]) == Some(out)
  {
    out := RecordAccepted(rest, d, rows, schema);
    StillReady(rest, d, rows, schema, out);
    RecStatements(schema, rest[0]);
    ExecSteps(d, sts, out);
  }

  /** One statement, or two one after the other. */
  lemma ExecSteps(d: D1, sts: seq<Stmt>, out: D1)
    requires WellTyped(sts) && 1 <= |sts| <= 2 && ExecAll(d, sts) == Some(out)
    ensures |sts| == 1 ==> Exec(d, sts[0]) == Some(out)
    ensures |sts| == 2 ==> Exec(d, sts[0]).Some? && Exec(Exec(d, sts[0]).value, sts[1]) == Some(out)
  {
    if |sts| == 2 {
      var mid := Exec(d, sts[0]).value;
      ExecOne(mid, sts[1]);
      assert sts[1..] == [sts[1]];
    } else {
      assert sts[1..] == [];
    }
  }

  lemma SendSteps(schema: Schema, s: State) returns (d': D1, last: bool)
    requires SchemaOk(schema) && Steady(schema, s) && s.pc.Sending? && s.pc.i < |s.pc.b.recs|
    ensures SendStep(schema, s) == AfterSend(s, d', last) && OnCourse(schema, AfterSend(s, d', last))
    ensures !last ==> s.pc.j == 0
  {
    var sts := BuildOf(s.pc.b.recs[s.pc.i], schema).value;
    assert s.pc.b.recs[s.pc.i] in s.pc.b.recs;
    var d: D1 :| Ready(s.pc.b.recs[s.pc.i..], d, s.store.rows, schema) && Reached(schema, s, d);
    ReachedBy(schema, s, sts, d);
    d' := SendsRecord(schema, s, sts, d);
    last := s.pc.j + 1 == |sts|;
    SendIs(schema, s, sts, d');
  }

  lemma SentAdvances(schema: Schema, s: State, d': D1, last: bool)
    requires SchemaOk(schema) && Steady(schema, s) && s.pc.Sending? && s.pc.i < |s.pc.b.recs| && (!last ==> s.pc.j == 0)
    requires var t := AfterSend(s, d', last); Inv(schema, t) && Shape(t) && OnCourse(schema, t)
    ensures Advances(schema, s, AfterSend(s, d', last))
  {}

  lemma SendAdvances(schema: Schema, s: State)
    requires SchemaOk(schema) && Steady(schema, s) && s.pc.Sending? && s.pc.i < |s.pc.b.recs|
    ensures Advances(schema, s, SendStep(schema, s))
  {
    var d', last := SendSteps(schema, s);
    SendKeeps(schema, s);
    SendShape(schema, s);
    SentAdvances(schema, s, d', last);
  }

  /** A batch that D1 refuses as a whole starts over from its first statement,
      over whatever was applied, and is still on its way. */
  lemma RefusedBatchStartsOver(schema: Schema, s: State)
    requires SchemaOk(schema) && Steady(schema, s) && s.pc.Sending?
    ensures Step(schema, s, Resend) == s.(pc := Sending(s.pc.b, 0, 0)) && Steady(schema, Step(schema, s, Resend))
  {
    var b := s.pc.b;
    var t := s.(pc := Sending(b, 0, 0));
    ResendKeeps(schema, s);
    assert ResendStep(s) == t;
    BatchIsReady(schema, s, b);
    assert b.recs[0..] == b.recs;
    assert Ready(b.recs[0..], s.d1, s.store.rows, schema) && Reached(schema, t, s.d1);
  }

  lemma ReadsEpoch(schema: Schema, s: State)
    requires SchemaOk(schema) && Steady(schema, s)
    requires (s.pc.Sending? || s.pc.Checking?) && s.pc.i >= |s.pc.b.recs|
    ensures Advances(schema, s, PostEpochStep(s))
  {
    PostEpochKeeps(schema, s);
  }

  lemma Checks(schema: Schema, s: State)
    requires SchemaOk(schema) && Steady(schema, s) && s.pc.Checking? && s.pc.i < |s.pc.b.recs|
    ensures Advances(schema, s, CheckStep(s))
  {
    CheckKeeps(schema, s);
  }

  lemma Acks(schema: Schema, s: State)
    requires SchemaOk(schema) && Steady(schema, s) && s.pc.Sent?
    ensures Advances(schema, s, AckStep(s))
  {
    AckKeeps(schema, s);
    var t := AckStep(s);
    forall e | e in t.store.outbox ensures e in s.store.outbox {}
  }

  // ------------------------------------------------------------ the run

  ghost function Turn(schema: Schema, s: State, limit: nat): State
    requires SchemaOk(schema)
  {
    match s.pc
    case Idle => if s.sync.inflight.Some? then StartReconcileStep(s) else StartWriteStep(s, limit)
    case Reading(_, _, _, _, _) => ReadRowStep(s)
    case Adding(_, _, _, recs, i, _) => if i < |recs| then ReadParentStep(s) else AssembleStep(schema, s)
    case Prepared(_) => MarkStep(s)
    case Marked(_) => PreflightStep(s)
    case Sending(b, i, _) => if i < |b.recs| then SendStep(schema, s) else PostEpochStep(s)
    case Checking(b, i) => if i < |b.recs| then CheckStep(s) else PostEpochStep(s)
    case Sent(_, _) => AckStep(s)
  }

  lemma StepIsStart(schema: Schema, s: State, limit: nat)
    requires SchemaOk(schema)
    ensures Step(schema, s, StartWrite(limit)) == StartWriteStep(s, limit)
    ensures Step(schema, s, StartReconcile) == StartReconcileStep(s)
  {}

  lemma StepIsRead(schema: Schema, s: State)
    requires SchemaOk(schema)
    ensures Step(schema, s, ReadRow) == ReadRowStep(s) && Step(schema, s, ReadParent) == ReadParentStep(s)
  {}

  lemma StepIsTurn(schema: Schema, s: State, limit: nat)
    requires SchemaOk(schema)
    ensures Step(schema, s, Next(s, limit)) == Turn(schema, s, limit)
  {
    match s.pc
    case Idle => StepIsStart(schema, s, limit);
    case Reading(_, _, _, _, _) => StepIsRead(schema, s);
    case Adding(_, _, _, recs, i, _) => if i < |recs| { StepIsRead(schema, s); } else { StepIsAssemble(schema, s); }
    case Sending(b, i, _) => if i < |b.recs| { StepIsSend(schema, s); }
    case _ =>
  }

  lemma ReadAdvances(schema: Schema, s: State, limit: nat)
    requires SchemaOk(schema) && Steady(schema, s) && !Drained(s) && 1 <= limit <= 1000
    requires s.pc.Idle? || s.pc.Reading? || s.pc.Adding?
    ensures Advances(schema, s, Turn(schema, s, limit)) || Guarded(s, Turn(schema, s, limit))
  {
    match s.pc
    case Idle => if s.sync.inflight.Some? { StartsReconcile(schema, s); } else { StartsWrite(schema, s, limit); }
    case Reading(_, _, _, _, _) => ReadsRow(schema, s);
    case Adding(_, _, _, recs, i, _) => AddingIndex(schema, s); if i < |recs| { ReadsParent(schema, s); } else { Assembles(schema, s); }
  }

  lemma AddingIndex(schema: Schema, s: State)
    requires SchemaOk(schema) && Steady(schema, s) && s.pc.Adding?
    ensures s.pc.i <= |s.pc.recs|
  {}

  lemma D1Advances(schema: Schema, s: State, limit: nat)
    requires SchemaOk(schema) && Steady(schema, s) && !s.pc.Idle? && !s.pc.Reading? && !s.pc.Adding?
    ensures Advances(schema, s, Turn(schema, s, limit))
  {
    match s.pc
    case Prepared(_) => Marks(schema, s);
    case Marked(_) => Preflights(schema, s);
    case Sending(b, i, _) => if i < |b.recs| { SendAdvances(schema, s); } else { ReadsEpoch(schema, s); }
    case Checking(b, i) => if i < |b.recs| { Checks(schema, s); } else { ReadsEpoch(schema, s); }
    case Sent(_, _) => Acks(schema, s);
  }

  /** Drained, or stopped by the guard over a local delete. */
  ghost predicate Settled(s: State, t: State) {
    && t.store.rows == s.store.rows && t.pc.Idle?
    && if t.sync.halted.Some? then t.sync.halted.value.DeleteGuard? && DeletePending(s) else Drained(t)
  }

  lemma LaterDelete(s: State, t: State)
    requires Kept(s, t) && t.store.rows == s.store.rows && DeletePending(t)
    ensures DeletePending(s)
  {
    var e :| e in t.store.outbox && e.seq_ > t.sync.acked && e.key !in t.store.rows;
    assert e in s.store.outbox;
  }

  lemma SettledLater(schema: Schema, s: State, t: State, r: State)
    requires SchemaOk(schema) && Advances(schema, s, t) && Settled(t, r)
    ensures Settled(s, r)
  {
    if DeletePending(t) { LaterDelete(s, t); }
  }

  lemma Progress(schema: Schema, s: State, limit: nat) returns (t: State)
    requires SchemaOk(schema) && Steady(schema, s) && !Drained(s) && 1 <= limit <= 1000
    ensures t == Step(schema, s, Next(s, limit))
    ensures Advances(schema, s, t) || Settled(s, t)
  {
    t := Turn(schema, s, limit);
    StepIsTurn(schema, s, limit);
    if s.pc.Idle? || s.pc.Reading? || s.pc.Adding? { ReadAdvances(schema, s, limit); } else { D1Advances(schema, s, limit); }
  }

  lemma {:induction false} Converges(schema: Schema, s: State, limit: nat) returns (es: seq<Event>)
    requires SchemaOk(schema) && Steady(schema, s) && 1 <= limit <= 1000
    ensures AllDriven(es) && Settled(s, Run(schema, s, es))
    decreases Gap(s), Stage(s), Left(s)
  {
    if Drained(s) {
      es := [];
    } else {
      var t := Progress(schema, s, limit);
      var more := [];
      if Advances(schema, s, t) {
        more := Converges(schema, t, limit);
        SettledLater(schema, s, t, Run(schema, t, more));
      }
      es := [Next(s, limit)] + more;
      assert es[1..] == more;
    }
  }

  // ------------------------------------------------------------ from any reachable state

  /** D1's epoch is the expected one, or will not be compared with it. */
  predicate EpochKnown(s: State) {
    s.relaxed.Some? || s.sync.inflight.Some? || s.sync.expected == Some(s.d1.epoch)
  }

  /** A state between attempts, not halted, with no foreign writer before it. */
  ghost predicate Resting(schema: Schema, s0: State, before: seq<Event>)
    requires SchemaOk(schema)
  {
    && Init(schema, s0) && NoForeign(before) && EpochsRead(schema, s0, before)
    && var s := Run(schema, s0, before);
       s.pc.Idle? && s.sync.halted.None? && CanBuild(schema, s.store)
  }

  lemma RestingIsSteady(schema: Schema, s0: State, before: seq<Event>)
    requires SchemaOk(schema) && Resting(schema, s0, before) && EpochKnown(Run(schema, s0, before))
    ensures Steady(schema, Run(schema, s0, before))
  {
    InitInv(schema, s0);
    RunKeepsInv(schema, s0, before);
    RunShape(schema, s0, before);
  }

  lemma DrainedIsEqual(schema: Schema, r: State)
    requires SchemaOk(schema) && Inv(schema, r) && Drained(r)
    ensures forall k :: !Excluded(k) ==> SameRow(Get(r.store.rows, k), Get(r.d1.rows, k))
  {
    forall k | !Excluded(k) ensures SameRow(Get(r.store.rows, k), Get(r.d1.rows, k)) {
      assert Covered(r.store, r.d1, k, r.sync.acked);
      NothingPending(r.store.outbox, k, r.sync.acked);
    }
  }

  lemma DrivenIsOwn(es: seq<Event>)
    requires AllDriven(es)
    ensures NoForeign(es)
  {
    forall i | 0 <= i < |es| ensures !es[i].Foreign? { assert Driven(es[i]); }
  }

  /** From any reachable state the replicator alone, failing nowhere, sends and
      acks all there is and leaves D1 equal to the store; only the delete guard
      can stop it, and only over a row deleted here. */
  lemma ReachableConverges(schema: Schema, s0: State, before: seq<Event>, limit: nat) returns (es: seq<Event>)
    requires SchemaOk(schema) && Resting(schema, s0, before) && EpochKnown(Run(schema, s0, before)) && 1 <= limit <= 1000
    ensures var s := Run(schema, s0, before);
            var r := Run(schema, s, es);
            && AllDriven(es) && r.store.rows == s.store.rows && r.pc.Idle?
            && (r.sync.halted.Some? ==> r.sync.halted.value.DeleteGuard? && DeletePending(s))
            && (r.sync.halted.None? ==>
                  && r.sync.inflight.None? && (forall e :: e in r.store.outbox ==> e.seq_ <= r.sync.acked)
                  && forall k :: !Excluded(k) ==> SameRow(Get(s.store.rows, k), Get(r.d1.rows, k)))
  {
    var s := Run(schema, s0, before);
    RestingIsSteady(schema, s0, before);
    es := Converges(schema, s, limit);
    DrivenIsOwn(es);
    RunKeepsInv(schema, s, es);
    var r := Run(schema, s, es);
    if r.sync.halted.None? { DrainedIsEqual(schema, r); }
  }

  lemma {:induction false} DrivenIsUndisturbed(schema: Schema, s: State, es: seq<Event>)
    requires SchemaOk(schema) && AllDriven(es)
    ensures UndisturbedRun(schema, s, es)
    decreases |es|
  {
    if es != [] {
      assert Driven(es[0]) && AllDriven(es[1..]);
      DrivenIsUndisturbed(schema, Step(schema, s, es[0]), es[1..]);
    }
  }

  /** With an epoch nobody knows, what is pending stays so. */
  lemma NeverDrains(schema: Schema, s0: State, before: seq<Event>, es: seq<Event>)
    requires SchemaOk(schema) && Resting(schema, s0, before) && AllDriven(es)
    requires var s := Run(schema, s0, before); !EpochKnown(s) && !Drained(s)
    ensures !Drained(Run(schema, Run(schema, s0, before), es))
  {
    var s := Run(schema, s0, before);
    var r := Run(schema, s, es);
    RunKeepsEpochOk(schema, s0, before);
    DrivenIsUndisturbed(schema, s, es);
    StoppedRun(schema, s, es);
    DrivenIsOwn(es);
    var i: nat :| i < |s.store.outbox| && s.store.outbox[i].seq_ > s.sync.acked;
    InitInv(schema, s0);
    RunKeepsInv(schema, s0, before);
    CursorsOnlyGrow(schema, s, es);
    RunSplit(schema, s0, before + es, |before|);
    assert (before + es)[..|before|] == before && (before + es)[|before|..] == es;
    UnackedRowsAreKept(schema, s0, before + es, s.store.outbox[i].seq_);
    NotDrained(r, s.store.outbox[i].seq_);
  }

  lemma NotDrained(r: State, n: int)
    requires HasSeq(r.store.outbox, n) && n > r.sync.acked
    ensures !Drained(r)
  {
    var i :| 0 <= i < |r.store.outbox| && r.store.outbox[i].seq_ == n;
    assert r.store.outbox[i] in r.store.outbox;
  }

  /** So a store with no delete pending can be drained exactly when there is
      nothing to send or D1's epoch is known. */
  lemma DrainsExactly(schema: Schema, s0: State, before: seq<Event>)
    requires SchemaOk(schema) && Resting(schema, s0, before) && !DeletePending(Run(schema, s0, before))
    ensures var s := Run(schema, s0, before);
            (exists es :: AllDriven(es) && Drained(Run(schema, s, es))) <==> Drained(s) || EpochKnown(s)
  {
    var s := Run(schema, s0, before);
    if EpochKnown(s) {
      RestingIsSteady(schema, s0, before);
      var es := Converges(schema, s, 1000);
      assert AllDriven(es) && Drained(Run(schema, s, es));
    } else if Drained(s) {
      assert AllDriven([]) && Drained(Run(schema, s, []));
    } else {
      forall es | AllDriven(es) ensures !Drained(Run(schema, s, es)) { NeverDrains(schema, s0, before, es); }
    }
  }
}
