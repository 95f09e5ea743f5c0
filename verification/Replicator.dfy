/** One store's write-mode replicator as a state machine: local writes, the
    reads of a batch, the durable marker, the epoch preflight, the statements
    one at a time, acks with pruning, reconciles, halts, crashes and compare
    runs. Every step is one atomic action of the store, of D1 or of the
    replicator, so all interleavings of these are runs. */
module Replicator {
  import opened Rows
  import opened Statements
  import opened Outbox
  import opened Batches
  import opened ForeignKeyOrder

  const MAX_BATCH_ROWS: nat := 1000
  const RECONCILE_ROWS: nat := 1_000_000
  const DELETE_GUARD_ROWS: nat := 50
  // julian days
  const KEEP_AGE: real := 1.0
  const RUN_STALE: real := 1.0
  const RUN_MAX: real := 0.5

  /** An attempt: the range and the keys it deletes. */
  datatype Attempt = Attempt(lo: nat, hi: nat, deleted: set<Key>)

  datatype Halt = ForeignWriter | DeleteGuard(attempt: Attempt) | StatementRejected | Config

  datatype Marker = Marker(lo: nat, hi: nat, epochBefore: int)

  /** The sync_state row. heads is history: the next seq when a run began. */
  datatype Sync = Sync(acked: nat, consumed: nat, expected: Option<int>, inflight: Option<Marker>,
                       halted: Option<Halt>, allow: Option<Attempt>, runs: map<nat, real>, heads: map<nat, nat>)

  datatype Purpose = ForWrite | ForReconcile

  datatype Batch = Batch(lo: nat, hi: nat, recs: seq<Rec>)

  datatype Pc =
    | Idle
    | Reading(p: Purpose, lo: nat, hi: nat, todo: seq<OutRow>, got: seq<Rec>)
    | Adding(p: Purpose, lo: nat, hi: nat, recs: seq<Rec>, i: nat, extra: seq<Rec>)
    | Prepared(b: Batch)
    | Marked(b: Batch)
    | Sending(b: Batch, i: nat, j: nat)
    | Checking(b: Batch, i: nat)
    | Sent(b: Batch, post: int)

  /** pc and relaxed are the process's memory; the rest is durable. */
  datatype State = State(store: Store, sync: Sync, d1: D1, now: real, pc: Pc, relaxed: Option<int>)

  datatype Event =
    | Local(w: Write)
    | Tick(t: real)
    | StartWrite(limit: nat)
    | StartReconcile
    | ReadRow
    | ReadParent
    | Assemble
    | Mark
    | Preflight
    | Send
    | Resend
    | PostEpoch
    | Check
    | Ack
    | Fail
    | Crash
    | Resume(acceptEpoch: Option<int>, allowDeletes: Option<Attempt>)
    | Begin(id: nat)
    | Abort(id: nat)
    | Record(id: nat, clean: bool, head: nat)
    | Foreign(st: Stmt)

  // ------------------------------------------------------------ outbox queries

  /** The outbox rows with lo < seq <= hi (no bound without hi), in order. */
  function Select(outbox: seq<OutRow>, lo: int, hi: Option<nat>): (r: seq<OutRow>)
    ensures |r| <= |outbox|
  {
    if outbox == [] then []
    else
      var e, rest := outbox[0], Select(outbox[1..], lo, hi);
      if e.seq_ > lo && (hi.None? || e.seq_ <= hi.value) then [e] + rest else rest
  }

  lemma {:induction false} SelectMembers(outbox: seq<OutRow>, lo: int, hi: Option<nat>)
    ensures forall e :: e in Select(outbox, lo, hi)
                        <==> e in outbox && e.seq_ > lo && (hi.Some? ==> e.seq_ <= hi.value)
  {
    if outbox != [] { SelectMembers(outbox[1..], lo, hi); }
  }

  function Take(rows: seq<OutRow>, limit: nat): seq<OutRow> {
    if |rows| <= limit then rows else rows[..limit]
  }

  /** The rows a write cycle reads. */
  function WriteRows(outbox: seq<OutRow>, acked: nat, limit: nat): seq<OutRow> {
    Take(Select(outbox, acked, None), limit)
  }

  /** The rows a reconcile reads back. */
  function ReconcileRows(outbox: seq<OutRow>, m: Marker): seq<OutRow> {
    Take(Select(outbox, m.lo - 1, Some(m.hi)), RECONCILE_ROWS)
  }

  /** Whether the ack at hi prunes a row: acked, consumed by a compare, a day
      old, and older than every compare still running. */
  predicate Prunable(e: OutRow, hi: nat, sync: Sync, now: real) {
    && e.seq_ <= hi && e.seq_ <= sync.consumed
    && e.created < now - KEEP_AGE
    && forall id :: id in sync.runs && sync.runs[id] > now - RUN_STALE ==> e.created < sync.runs[id]
  }

  function Prune(outbox: seq<OutRow>, hi: nat, sync: Sync, now: real): (r: seq<OutRow>)
    ensures forall e :: e in r <==> e in outbox && !Prunable(e, hi, sync, now)
    ensures |r| <= |outbox|
  {
    if outbox == [] then []
    else
      var rest := Prune(outbox[1..], hi, sync, now);
      if Prunable(outbox[0], hi, sync, now) then rest else [outbox[0]] + rest
  }

  // ------------------------------------------------------------ the delete guard

  function DeletedKeys(recs: seq<Rec>): set<Key> {
    set i | 0 <= i < |recs| && recs[i].row.None? :: recs[i].key
  }

  function DeletesOf(recs: seq<Rec>, t: Table): nat {
    if recs == [] then 0
    else (if recs[0].key.tbl == t && recs[0].row.None? then 1 else 0) + DeletesOf(recs[1..], t)
  }

  function Total(rows: Db, t: Table): nat {
    |set k | k in rows && k.tbl == t|
  }

  /** More than 50 deletes of a table, or more than one in a hundred rows. */
  ghost predicate GuardTrips(recs: seq<Rec>, rows: Db) {
    exists t :: DeletesOf(recs, t) > DELETE_GUARD_ROWS
                || 100 * DeletesOf(recs, t) > Total(rows, t) + DeletesOf(recs, t)
  }

  function AttemptOf(b: Batch): Attempt {
    Attempt(b.lo, b.hi, DeletedKeys(b.recs))
  }

  // ------------------------------------------------------------ the operators' and compares' updates

  /** resume: a foreign-writer halt needs an epoch, a delete-guard halt its
      own attempt. */
  function Resumed(sync: Sync, acceptEpoch: Option<int>, allowDeletes: Option<Attempt>): Sync {
    match sync.halted
    case None => sync
    case Some(ForeignWriter) =>
      if acceptEpoch.None? then sync else sync.(halted := None, expected := acceptEpoch)
    case Some(DeleteGuard(attempt)) =>
      if allowDeletes != Some(attempt) then sync else sync.(halted := None, allow := Some(attempt))
    case Some(_) => sync.(halted := None)
  }

  function Begun(sync: Sync, next: nat, now: real, id: nat): Sync {
    var live := map r | r in sync.runs && now - sync.runs[r] <= RUN_STALE :: sync.runs[r];
    sync.(runs := live[id := now], heads := sync.heads[id := next])
  }

  function Aborted(sync: Sync, id: nat): Sync {
    sync.(runs := sync.runs - {id})
  }

  /** Whether a report of run id may be recorded now. */
  predicate MayRecord(sync: Sync, now: real, id: nat) {
    id in sync.runs && now - sync.runs[id] <= RUN_MAX
  }

  /** record_compare of a verified report: a clean barrier or nightly one moves
      the consumed seq to its head; a head past the acks records nothing. */
  function Recorded(sync: Sync, now: real, id: nat, clean: bool, head: nat): Sync {
    if !MayRecord(sync, now, id) || (clean && head > sync.acked) then sync
    else
      sync.(consumed := if clean && head > sync.consumed then head else sync.consumed,
            runs := sync.runs - {id})
  }

  function AckedSync(sync: Sync, hi: nat, post: int): Sync {
    sync.(acked := hi, expected := Some(post), inflight := None, allow := None)
  }

  // ------------------------------------------------------------ the steps

  function Halted(s: State, why: Halt): State {
    s.(sync := s.sync.(halted := Some(why)), pc := Idle)
  }

  function StartWriteStep(s: State, limit: nat): State {
    if s.pc != Idle || s.sync.halted.Some? || s.sync.inflight.Some? || !(1 <= limit <= MAX_BATCH_ROWS) then s
    else
      var range := WriteRows(s.store.outbox, s.sync.acked, limit);
      if range == [] then s
      else s.(pc := Reading(ForWrite, range[0].seq_, range[|range| - 1].seq_, Coalesce(range), []))
  }

  function StartReconcileStep(s: State): State {
    if s.pc != Idle || s.sync.halted.Some? || s.sync.inflight.None? then s
    else
      var m := s.sync.inflight.value;
      var range := ReconcileRows(s.store.outbox, m);
      if range == [] then s.(pc := Checking(Batch(m.lo, m.hi, []), 0))
      else s.(pc := Reading(ForReconcile, m.lo, m.hi, Coalesce(range), []))
  }

  function ReadRowStep(s: State): State {
    if !s.pc.Reading? then s
    else
      var pc := s.pc;
      if |pc.got| >= |pc.todo| then s.(pc := Adding(pc.p, pc.lo, pc.hi, pc.got, 0, []))
      else
        var e := pc.todo[|pc.got|];
        s.(pc := pc.(got := pc.got + [Rec(e.seq_, e.key, Get(s.store.rows, e.key))]))
  }

  function ReadParentStep(s: State): State {
    if !s.pc.Adding? || s.pc.i >= |s.pc.recs| then s
    else
      var pc := s.pc;
      var step := WithParent(pc.recs[pc.i], KeysOf(pc.recs + pc.extra), s.store.rows);
      s.(pc := pc.(recs := pc.recs[pc.i := step.0], i := pc.i + 1, extra := pc.extra + step.1))
  }

  /** What becomes of the read records: a batch to send or to check, or a halt. */
  ghost function Assembled(schema: Schema, s: State): (Pc, Option<Halt>)
    requires SchemaOk(schema) && s.pc.Adding?
  {
    var b := Batch(s.pc.lo, s.pc.hi, Order(s.pc.recs + s.pc.extra));
    if !Buildable(b.recs, schema)
    then (Idle, if s.pc.p == ForWrite then Some(StatementRejected) else s.sync.halted)
    else if s.pc.p == ForReconcile then (Checking(b, 0), s.sync.halted)
    else if GuardTrips(b.recs, s.store.rows) && s.sync.allow != Some(AttemptOf(b))
    then (Idle, Some(DeleteGuard(AttemptOf(b))))
    else if s.sync.expected.None? then (Idle, Some(Config))
    else (Prepared(b), s.sync.halted)
  }

  ghost function AssembleStep(schema: Schema, s: State): State
    requires SchemaOk(schema)
  {
    if !s.pc.Adding? || s.pc.i < |s.pc.recs| then s
    else
      var (pc, halted) := Assembled(schema, s);
      s.(sync := s.sync.(halted := halted), pc := pc)
  }

  /** H3: the durable marker, before anything is sent. */
  function MarkStep(s: State): State {
    if !s.pc.Prepared? || s.sync.expected.None? then s
    else
      var b := s.pc.b;
      s.(sync := s.sync.(inflight := Some(Marker(b.lo, b.hi, s.sync.expected.value))), pc := Marked(b))
  }

  /** H2: the epoch decides whether the batch goes out. */
  function PreflightStep(s: State): State {
    if !s.pc.Marked? || s.sync.expected.None? then s
    else if s.relaxed.None? && s.d1.epoch != s.sync.expected.value then Halted(s, ForeignWriter)
    else if s.relaxed.Some? && s.d1.epoch < s.relaxed.value then Halted(s, ForeignWriter)
    else s.(pc := Sending(s.pc.b, 0, 0))
  }

  /** The next statement reaches D1; a refused one fails the send. */
  function SendStep(schema: Schema, s: State): State {
    if !s.pc.Sending? || s.pc.i >= |s.pc.b.recs| then s
    else
      var rec := s.pc.b.recs[s.pc.i];
      if rec.key.tbl !in schema || BuildOf(rec, schema).Err? then s
      else
        var sts := BuildOf(rec, schema).value;
        if s.pc.j >= |sts| || !(sts[s.pc.j].Delete? || |sts[s.pc.j].cols| == |sts[s.pc.j].vals|) then s
        else
          var d := Exec(s.d1, sts[s.pc.j]);
          if d.None? then s.(pc := Idle)
          else if s.pc.j + 1 == |sts| then s.(d1 := d.value, pc := Sending(s.pc.b, s.pc.i + 1, 0))
          else s.(d1 := d.value, pc := Sending(s.pc.b, s.pc.i, s.pc.j + 1))
  }

  /** D1 refuses the batch body: its statements go out again from the first,
      one request each, over whatever prefix was applied. */
  function ResendStep(s: State): State {
    if !s.pc.Sending? then s else s.(pc := Sending(s.pc.b, 0, 0))
  }

  /** The epoch read after the last statement, or after the last read-back. */
  function PostEpochStep(s: State): State {
    if s.pc.Sending? && s.pc.i >= |s.pc.b.recs|
    then s.(pc := Sent(s.pc.b, s.d1.epoch), relaxed := None)
    else if s.pc.Checking? && s.pc.i >= |s.pc.b.recs|
    then s.(pc := Sent(s.pc.b, s.d1.epoch))
    else s
  }

  /** One read-back: a row that differs clears the marker for a resend. */
  ghost function CheckStep(s: State): State {
    if !s.pc.Checking? || s.pc.i >= |s.pc.b.recs| || s.sync.inflight.None? then s
    else
      var rec := s.pc.b.recs[s.pc.i];
      if SameRow(rec.row, Get(s.d1.rows, rec.key)) then s.(pc := Checking(s.pc.b, s.pc.i + 1))
      else s.(relaxed := Some(s.sync.inflight.value.epochBefore), sync := s.sync.(inflight := None), pc := Idle)
  }

  ghost function AckStep(s: State): State {
    if !s.pc.Sent? then s
    else
      s.(store := s.store.(outbox := Prune(s.store.outbox, s.pc.b.hi, s.sync, s.now)),
         sync := AckedSync(s.sync, s.pc.b.hi, s.pc.post), pc := Idle)
  }

  ghost function Step(schema: Schema, s: State, e: Event): State
    requires SchemaOk(schema)
  {
    match e
    case Local(w) => if Accepted(schema, s.store, w) then s.(store := Outbox.Apply(s.store, w, s.now)) else s
    case Tick(t) => if t > s.now then s.(now := t) else s
    case StartWrite(limit) => StartWriteStep(s, limit)
    case StartReconcile => StartReconcileStep(s)
    case ReadRow => ReadRowStep(s)
    case ReadParent => ReadParentStep(s)
    case Assemble => AssembleStep(schema, s)
    case Mark => MarkStep(s)
    case Preflight => PreflightStep(s)
    case Send => SendStep(schema, s)
    case Resend => ResendStep(s)
    case PostEpoch => PostEpochStep(s)
    case Check => CheckStep(s)
    case Ack => AckStep(s)
    case Fail => s.(pc := Idle)
    case Crash => s.(pc := Idle, relaxed := None)
    case Resume(epoch, attempt) => s.(sync := Resumed(s.sync, epoch, attempt))
    case Begin(id) => if id in s.sync.heads then s else s.(sync := Begun(s.sync, s.store.next, s.now, id))
    case Abort(id) => s.(sync := Aborted(s.sync, id))
    case Record(id, clean, head) => s.(sync := Recorded(s.sync, s.now, id, clean, head))
    case Foreign(st) =>
      if (st.Delete? || |st.cols| == |st.vals|) && Exec(s.d1, st).Some? then s.(d1 := Exec(s.d1, st).value) else s
  }

  ghost function Run(schema: Schema, s: State, es: seq<Event>): State
    requires SchemaOk(schema)
    decreases |es|
  {
    if es == [] then s else Run(schema, Step(schema, s, es[0]), es[1..])
  }

  /** A freshly seeded store: D1 holds its rows and the outbox is empty. */
  ghost predicate Init(schema: Schema, s: State)
    requires SchemaOk(schema)
  {
    && StoreOk(schema, s.store) && s.store.outbox == [] && s.store.next == 1
    && FkOk(s.d1.rows)
    && (forall k :: !Excluded(k) ==> SameRow(Get(s.store.rows, k), Get(s.d1.rows, k)))
    && s.sync == Sync(0, 0, Some(s.d1.epoch), None, None, None, map[], map[])
    && s.pc == Idle && s.relaxed == None
  }
}
