/** What holds over whole runs of the replicator, foreign writers included: the
    acked and consumed seqs only grow, no row a compare still needs is pruned,
    and a foreign write is seen by the next unrelaxed preflight. */
module ReplicatorHistory {
  import opened Rows
  import opened Statements
  import opened Outbox
  import opened Batches
  import opened ForeignKeyOrder
  import opened Replicator
  import opened ReplicatorSafety

  lemma {:induction false} RunSplit(schema: Schema, s: State, es: seq<Event>, n: nat)
    requires SchemaOk(schema) && n <= |es|
    ensures Run(schema, s, es) == Run(schema, Run(schema, s, es[..n]), es[n..])
    decreases n
  {
    if n == 0 {
      assert es[..0] == [] && es[0..] == es;
    } else {
      RunSplit(schema, Step(schema, s, es[0]), es[1..], n - 1);
      assert es[..n][1..] == es[1..][..n - 1];
      assert es[1..][n - 1..] == es[n..];
    }
  }

  // ------------------------------------------------------------ pruning

  ghost predicate HasSeq(outbox: seq<OutRow>, n: int) {
    exists i :: 0 <= i < |outbox| && outbox[i].seq_ == n
  }

  /** Rows from a seq on, up to the head. */
  ghost predicate HasFrom(st: Store, from: int) {
    forall n :: from <= n < st.next ==> HasSeq(st.outbox, n)
  }

  /** Every row a run may still need was written at or after its start. */
  ghost predicate RunHeld(st: Store, sync: Sync, now: real, id: nat)
    requires id in sync.runs
  {
    && id in sync.heads && sync.heads[id] <= st.next && sync.runs[id] <= now
    && (forall e :: e in st.outbox && e.seq_ >= sync.heads[id] ==> e.created >= sync.runs[id])
    && (sync.runs[id] > now - RUN_STALE ==> HasFrom(st, sync.heads[id]))
  }

  /** Pruning's invariant: no uncompared row is gone, and no row newer than a
      compare that is not a day old. */
  ghost predicate Held(st: Store, sync: Sync, now: real) {
    && (forall i :: 0 <= i < |st.outbox| ==> st.outbox[i].seq_ < st.next)
    && (forall e :: e in st.outbox ==> e.created <= now)
    && HasFrom(st, sync.consumed + 1)
    && forall id :: id in sync.runs ==> RunHeld(st, sync, now, id)
  }

  lemma LocalHasFrom(st: Store, w: Write, now: real, from: int)
    requires HasFrom(st, from)
    ensures HasFrom(Outbox.Apply(st, w, now), from)
  {
    var st' := Outbox.Apply(st, w, now);
    var more := Numbered(Enqueued(st, w), st.next, now);
    forall n | from <= n < st'.next ensures HasSeq(st'.outbox, n) {
      if n < st.next {
        assert HasSeq(st.outbox, n);
        var i :| 0 <= i < |st.outbox| && st.outbox[i].seq_ == n;
        assert st'.outbox[i] == st.outbox[i];
      } else {
        assert st'.outbox[|st.outbox| + (n - st.next)] == more[n - st.next];
      }
    }
  }

  lemma LocalHeld(st: Store, sync: Sync, w: Write, now: real)
    requires Held(st, sync, now)
    ensures Held(Outbox.Apply(st, w, now), sync, now)
  {
    var st' := Outbox.Apply(st, w, now);
    var more := Numbered(Enqueued(st, w), st.next, now);
    assert st'.outbox == st.outbox + more;
    forall e | e in st'.outbox ensures e in st.outbox || (e.created == now && st.next <= e.seq_ < st'.next) {
      if e !in st.outbox {
        assert e in more;
        var i :| 0 <= i < |more| && more[i] == e;
      }
    }
    forall i | 0 <= i < |st'.outbox| ensures st'.outbox[i].seq_ < st'.next {
      assert st'.outbox[i] in st'.outbox;
      if st'.outbox[i] in st.outbox { var j :| 0 <= j < |st.outbox| && st.outbox[j] == st'.outbox[i]; }
    }
    LocalHasFrom(st, w, now, sync.consumed + 1);
    forall id | id in sync.runs ensures RunHeld(st', sync, now, id) {
      assert RunHeld(st, sync, now, id);
      if sync.runs[id] > now - RUN_STALE { LocalHasFrom(st, w, now, sync.heads[id]); }
    }
  }

  lemma TickHeld(st: Store, sync: Sync, now: real, now': real)
    requires Held(st, sync, now) && now <= now'
    ensures Held(st, sync, now')
  {
    forall id | id in sync.runs ensures RunHeld(st, sync, now', id) {
      assert RunHeld(st, sync, now, id);
    }
  }

  lemma PruneHasFrom(st: Store, sync: Sync, now: real, hi: nat, from: int)
    requires HasFrom(st, from)
    requires forall e :: e in st.outbox && from <= e.seq_ ==> !Prunable(e, hi, sync, now)
    ensures HasFrom(st.(outbox := Prune(st.outbox, hi, sync, now)), from)
  {
    var out := Prune(st.outbox, hi, sync, now);
    forall n | from <= n < st.next ensures HasSeq(out, n) {
      assert HasSeq(st.outbox, n);
      var i :| 0 <= i < |st.outbox| && st.outbox[i].seq_ == n;
      assert st.outbox[i] in st.outbox;
      assert st.outbox[i] in out;
    }
  }

  lemma PruneHeld(st: Store, sync: Sync, now: real, hi: nat)
    requires Held(st, sync, now)
    ensures Held(st.(outbox := Prune(st.outbox, hi, sync, now)), sync, now)
  {
    var st' := st.(outbox := Prune(st.outbox, hi, sync, now));
    forall i | 0 <= i < |st'.outbox| ensures st'.outbox[i].seq_ < st.next {
      assert st'.outbox[i] in st.outbox;
    }
    PruneHasFrom(st, sync, now, hi, sync.consumed + 1);
    forall id | id in sync.runs ensures RunHeld(st', sync, now, id) {
      assert RunHeld(st, sync, now, id);
      if sync.runs[id] > now - RUN_STALE { PruneHasFrom(st, sync, now, hi, sync.heads[id]); }
    }
  }

  /** sync_state updates that keep runs and heads, and never lower consumed. */
  lemma SyncHeld(st: Store, sync: Sync, sync': Sync, now: real)
    requires Held(st, sync, now) && sync.consumed <= sync'.consumed && sync'.heads == sync.heads
    requires forall id :: id in sync'.runs ==> id in sync.runs && sync'.runs[id] == sync.runs[id]
    ensures Held(st, sync', now)
  {
    forall id | id in sync'.runs ensures RunHeld(st, sync', now, id) {
      assert RunHeld(st, sync, now, id);
    }
  }

  lemma BeginHeld(st: Store, sync: Sync, now: real, id: nat)
    requires Held(st, sync, now) && id !in sync.heads
    ensures Held(st, Begun(sync, st.next, now, id), now)
  {
    var sync' := Begun(sync, st.next, now, id);
    forall r | r in sync'.runs ensures RunHeld(st, sync', now, r) {
      if r != id { assert RunHeld(st, sync, now, r); }
      else {
        forall e | e in st.outbox ensures e.seq_ < st.next {
          var i :| 0 <= i < |st.outbox| && st.outbox[i] == e;
        }
      }
    }
  }

  ghost predicate Quiet(s: State, s': State) {
    && s'.store == s.store && s'.now == s.now && s'.sync.acked == s.sync.acked
    && s'.sync.consumed == s.sync.consumed && s'.sync.runs == s.sync.runs && s'.sync.heads == s.sync.heads
  }

  lemma QuietRead(schema: Schema, s: State, e: Event)
    requires SchemaOk(schema) && ReadsBatch(e)
    ensures Quiet(s, Step(schema, s, e))
  {
    match e
    case StartWrite(limit) =>
    case StartReconcile =>
    case ReadRow =>
    case ReadParent =>
    case Assemble =>
  }

  lemma QuietD1(schema: Schema, s: State, e: Event)
    requires SchemaOk(schema) && TouchesD1(e) && !e.Ack?
    ensures Quiet(s, Step(schema, s, e))
  {
    match e
    case Mark =>
    case Preflight =>
    case Send => assert Quiet(s, SendStep(schema, s));
    case Resend =>
    case PostEpoch =>
    case Check => assert Quiet(s, CheckStep(s));
    case Fail =>
    case Crash =>
  }

  /** Events that leave the outbox, the clock and the compare fields alone. */
  lemma QuietStep(schema: Schema, s: State, e: Event)
    requires SchemaOk(schema)
    requires ReadsBatch(e) || (TouchesD1(e) && !e.Ack?) || e.Foreign? || e.Resume?
    ensures Quiet(s, Step(schema, s, e))
  {
    if ReadsBatch(e) { QuietRead(schema, s, e); }
    else if TouchesD1(e) { QuietD1(schema, s, e); }
  }

  lemma StepKeepsHeld(schema: Schema, s: State, e: Event)
    requires SchemaOk(schema) && Held(s.store, s.sync, s.now)
    ensures var s' := Step(schema, s, e); Held(s'.store, s'.sync, s'.now)
  {
    var s' := Step(schema, s, e);
    if ReadsBatch(e) || (TouchesD1(e) && !e.Ack?) || e.Foreign? || e.Resume? {
      QuietStep(schema, s, e);
      SyncHeld(s.store, s.sync, s'.sync, s.now);
    } else {
      match e
      case Local(w) => if Accepted(schema, s.store, w) { LocalHeld(s.store, s.sync, w, s.now); }
      case Tick(t) => if t > s.now { TickHeld(s.store, s.sync, s.now, t); }
      case Ack => if s.pc.Sent? {
          PruneHeld(s.store, s.sync, s.now, s.pc.b.hi);
          SyncHeld(s'.store, s.sync, s'.sync, s.now);
        }
      case Begin(id) => if id !in s.sync.heads { BeginHeld(s.store, s.sync, s.now, id); }
      case Abort(id) => SyncHeld(s.store, s.sync, s'.sync, s.now);
      case Record(id, clean, head) => SyncHeld(s.store, s.sync, s'.sync, s.now);
    }
  }

  lemma {:induction false} RunKeepsHeld(schema: Schema, s: State, es: seq<Event>)
    requires SchemaOk(schema) && Held(s.store, s.sync, s.now)
    ensures var r := Run(schema, s, es); Held(r.store, r.sync, r.now)
    decreases |es|
  {
    if es != [] {
      StepKeepsHeld(schema, s, es[0]);
      RunKeepsHeld(schema, Step(schema, s, es[0]), es[1..]);
    }
  }

  lemma InitHeld(schema: Schema, s: State)
    requires SchemaOk(schema) && Init(schema, s)
    ensures Held(s.store, s.sync, s.now)
  {}

  /** A run that may still record finds every row written since it began. */
  lemma RecordableRunFindsItsRows(schema: Schema, s: State, es: seq<Event>, id: nat)
    requires SchemaOk(schema) && Init(schema, s)
    requires var r := Run(schema, s, es); MayRecord(r.sync, r.now, id)
    ensures var r := Run(schema, s, es);
            id in r.sync.heads && forall n :: r.sync.heads[id] <= n < r.store.next ==> HasSeq(r.store.outbox, n)
  {
    InitHeld(schema, s);
    RunKeepsHeld(schema, s, es);
    var r := Run(schema, s, es);
    assert RunHeld(r.store, r.sync, r.now, id);
  }

  /** No unacked and no uncompared row is ever pruned. */
  lemma UnackedRowsAreKept(schema: Schema, s: State, es: seq<Event>, n: int)
    requires SchemaOk(schema) && Init(schema, s) && NoForeign(es)
    requires var r := Run(schema, s, es);
             n < r.store.next && (n > r.sync.acked || n > r.sync.consumed)
    ensures HasSeq(Run(schema, s, es).store.outbox, n)
    ensures var r := Run(schema, s, es); r.sync.consumed <= r.sync.acked < r.store.next
  {
    InitHeld(schema, s);
    RunKeepsHeld(schema, s, es);
    InitInv(schema, s);
    RunKeepsInv(schema, s, es);
  }

  /** What an ack takes out of the outbox: a row acked, compared, a day old, and
      older than every compare that began within the day. */
  predicate Done(s: State, e: OutRow)
    requires s.pc.Sent?
  {
    && e.seq_ <= s.pc.b.hi && e.seq_ <= s.sync.consumed && e.created < s.now - 1.0
    && forall id :: id in s.sync.runs && s.sync.runs[id] > s.now - 1.0 ==> e.created < s.sync.runs[id]
  }

  /** A row leaves the outbox exactly by an ack that finds it done. */
  lemma PrunedExactly(schema: Schema, s: State, e: Event, o: OutRow)
    requires SchemaOk(schema) && o in s.store.outbox
    ensures o !in Step(schema, s, e).store.outbox <==> e.Ack? && s.pc.Sent? && Done(s, o)
  {
    if ReadsBatch(e) || (TouchesD1(e) && !e.Ack?) || e.Foreign? || e.Resume? { QuietStep(schema, s, e); }
    else if e.Ack? { assert Step(schema, s, e) == AckStep(s); }
  }

  // ------------------------------------------------------------ the cursors only grow

  lemma StepCursors(schema: Schema, s: State, e: Event)
    requires SchemaOk(schema) && Inv(schema, s)
    ensures var s' := Step(schema, s, e);
            s'.sync.acked >= s.sync.acked && s'.sync.consumed >= s.sync.consumed && s'.store.next >= s.store.next
            && s'.now >= s.now
  {
    if ReadsBatch(e) || (TouchesD1(e) && !e.Ack?) || e.Foreign? || e.Resume? { QuietStep(schema, s, e); }
  }

  lemma {:induction false} CursorsOnlyGrow(schema: Schema, s: State, es: seq<Event>)
    requires SchemaOk(schema) && Inv(schema, s) && NoForeign(es)
    ensures var r := Run(schema, s, es);
            r.sync.acked >= s.sync.acked && r.sync.consumed >= s.sync.consumed && r.store.next >= s.store.next
            && r.now >= s.now
    decreases |es|
  {
    if es != [] {
      StepCursors(schema, s, es[0]);
      StepKeepsInv(schema, s, es[0]);
      CursorsOnlyGrow(schema, Step(schema, s, es[0]), es[1..]);
    }
  }

  // ------------------------------------------------------------ foreign writers

  /** A statement that changes a memories or embeddings row moves D1's epoch. */
  lemma CountedChangeMovesEpoch(d: D1, st: Stmt, k: Key)
    requires st.Delete? || |st.cols| == |st.vals|
    requires Exec(d, st).Some? && Counted(k.tbl) && Get(Exec(d, st).value.rows, k) != Get(d.rows, k)
    ensures Exec(d, st).value.epoch > d.epoch
  {}

  predicate KeepsExpected(e: Event) { !e.Ack? && !e.Resume? }

  lemma StepEpoch(schema: Schema, s: State, e: Event)
    requires SchemaOk(schema)
    ensures Step(schema, s, e).d1.epoch >= s.d1.epoch
    ensures KeepsExpected(e) ==> Step(schema, s, e).sync.expected == s.sync.expected
  {
    if e.Send? { SendEpoch(schema, s); }
    if e.Foreign? && (e.st.Delete? || |e.st.cols| == |e.st.vals|) { ExecFrame(s.d1, e.st); }
  }

  lemma SendEpoch(schema: Schema, s: State)
    ensures SendStep(schema, s).d1.epoch >= s.d1.epoch && SendStep(schema, s).sync == s.sync
  {
    if SendStep(schema, s).d1 != s.d1 {
      ExecFrame(s.d1, BuildOf(s.pc.b.recs[s.pc.i], schema).value[s.pc.j]);
    }
  }

  /** The expected epoch is set and never runs ahead of D1's. */
  ghost predicate EpochOk(s: State) {
    s.sync.expected.Some? && s.sync.expected.value <= s.d1.epoch && (s.pc.Sent? ==> s.pc.post <= s.d1.epoch)
  }

  ghost predicate NotNewlySent(s: State, s': State) {
    s'.pc.Sent? ==> s.pc.Sent? && s'.pc.post == s.pc.post
  }

  lemma ReadNotSent(schema: Schema, s: State, e: Event)
    requires SchemaOk(schema) && ReadsBatch(e)
    ensures NotNewlySent(s, Step(schema, s, e))
  {
    match e
    case StartWrite(limit) =>
    case StartReconcile =>
    case ReadRow =>
    case ReadParent =>
    case Assemble => assert NotNewlySent(s, AssembleStep(schema, s));
  }

  lemma D1NotSent(schema: Schema, s: State, e: Event)
    requires SchemaOk(schema) && TouchesD1(e) && !e.PostEpoch? && !e.Ack?
    ensures NotNewlySent(s, Step(schema, s, e))
  {
    match e
    case Mark =>
    case Preflight =>
    case Send => assert NotNewlySent(s, SendStep(schema, s));
    case Resend =>
    case Check => assert NotNewlySent(s, CheckStep(s));
    case Fail =>
    case Crash =>
  }

  /** An operator accepts an epoch read from D1. */
  predicate EpochRead(s: State, e: Event) {
    e.Resume? && e.acceptEpoch.Some? ==> e.acceptEpoch.value <= s.d1.epoch
  }

  lemma StepKeepsEpochOk(schema: Schema, s: State, e: Event)
    requires SchemaOk(schema) && EpochOk(s) && EpochRead(s, e)
    ensures EpochOk(Step(schema, s, e))
  {
    if e.PostEpoch? {
      assert EpochOk(PostEpochStep(s));
    } else if !e.Ack? && !e.Resume? {
      StepEpoch(schema, s, e);
      if ReadsBatch(e) { ReadNotSent(schema, s, e); } else if TouchesD1(e) { D1NotSent(schema, s, e); }
    }
  }

  ghost predicate EpochsRead(schema: Schema, s: State, es: seq<Event>)
    requires SchemaOk(schema)
    decreases |es|
  {
    es == [] || (EpochRead(s, es[0]) && EpochsRead(schema, Step(schema, s, es[0]), es[1..]))
  }

  /** Foreign writers included. */
  lemma {:induction false} RunKeepsEpochOk(schema: Schema, s: State, es: seq<Event>)
    requires SchemaOk(schema) && EpochOk(s) && EpochsRead(schema, s, es)
    ensures EpochOk(Run(schema, s, es))
    decreases |es|
  {
    if es != [] {
      StepKeepsEpochOk(schema, s, es[0]);
      RunKeepsEpochOk(schema, Step(schema, s, es[0]), es[1..]);
    }
  }

  lemma {:induction false} RunEpoch(schema: Schema, s: State, es: seq<Event>)
    requires SchemaOk(schema) && forall i :: 0 <= i < |es| ==> KeepsExpected(es[i])
    ensures Run(schema, s, es).d1.epoch >= s.d1.epoch
    ensures Run(schema, s, es).sync.expected == s.sync.expected
    decreases |es|
  {
    if es != [] {
      StepEpoch(schema, s, es[0]);
      RunEpoch(schema, Step(schema, s, es[0]), es[1..]);
    }
  }

  lemma ForeignMoves(schema: Schema, s: State, st: Stmt, k: Key)
    requires SchemaOk(schema) && EpochOk(s) && (st.Delete? || |st.cols| == |st.vals|)
    requires Exec(s.d1, st).Some? && Counted(k.tbl) && Get(Exec(s.d1, st).value.rows, k) != Get(s.d1.rows, k)
    ensures Step(schema, s, Foreign(st)) == s.(d1 := Exec(s.d1, st).value)
    ensures Exec(s.d1, st).value.epoch > s.sync.expected.value
  {
    CountedChangeMovesEpoch(s.d1, st, k);
  }

  lemma BehindHalts(schema: Schema, s: State, es: seq<Event>)
    requires SchemaOk(schema) && s.sync.expected.Some? && s.sync.expected.value < s.d1.epoch
    requires forall i :: 0 <= i < |es| ==> KeepsExpected(es[i])
    ensures var r := Run(schema, s, es);
            r.pc.Marked? && r.relaxed.None? ==> PreflightStep(r) == Halted(r, ForeignWriter)
  {
    RunEpoch(schema, s, es);
  }

  /** In any reachable state, after another writer changes such a row, an
      unrelaxed preflight halts until an ack or an operator sets the expected
      epoch anew. */
  lemma UnrelaxedPreflightHalts(schema: Schema, s0: State, before: seq<Event>, st: Stmt, k: Key, after: seq<Event>)
    requires SchemaOk(schema) && Init(schema, s0) && EpochsRead(schema, s0, before)
    requires st.Delete? || |st.cols| == |st.vals|
    requires var s := Run(schema, s0, before);
             Exec(s.d1, st).Some? && Counted(k.tbl) && Get(Exec(s.d1, st).value.rows, k) != Get(s.d1.rows, k)
    requires forall i :: 0 <= i < |after| ==> KeepsExpected(after[i])
    ensures var r := Run(schema, Step(schema, Run(schema, s0, before), Foreign(st)), after);
            r.pc.Marked? && r.relaxed.None? ==> PreflightStep(r) == Halted(r, ForeignWriter)
  {
    var s := Run(schema, s0, before);
    RunKeepsEpochOk(schema, s0, before);
    ForeignMoves(schema, s, st, k);
    BehindHalts(schema, Step(schema, s, Foreign(st)), after);
  }

  /** No statement is on its way, no earlier send is unresolved, and the next
      preflight is not relaxed. */
  ghost predicate NothingOut(s: State) {
    && s.relaxed.None?
    && (s.sync.inflight.Some? ==> s.pc.Marked? || (s.pc.Idle? && s.sync.halted.Some?))
    && match s.pc {
      case Idle => true
      case Reading(p, _, _, _, _) => p == ForWrite
      case Adding(p, _, _, _, _, _) => p == ForWrite
      case Prepared(_) => true
      case Marked(_) => true
      case Sending(_, _, _) => false
      case Checking(_, _) => false
      case Sent(_, _) => false
    }
  }

  /** D1 is past the epoch the next preflight expects. */
  ghost predicate Stopped(s: State) {
    NothingOut(s) && s.sync.expected.Some? && s.sync.expected.value < s.d1.epoch
  }

  /** No operator resumes, and the process does not fail between the durable
      marker and its preflight. */
  predicate Undisturbed(s: State, e: Event) {
    !e.Resume? && (e.Fail? || e.Crash? ==> !s.pc.Marked?)
  }

  ghost predicate UndisturbedRun(schema: Schema, s: State, es: seq<Event>)
    requires SchemaOk(schema)
    decreases |es|
  {
    es == [] || (Undisturbed(s, es[0]) && UndisturbedRun(schema, Step(schema, s, es[0]), es[1..]))
  }

  /** What stays of a stopped state. */
  ghost predicate Unmoved(s: State, s': State, e: Event) {
    Stopped(s') && s'.sync.acked == s.sync.acked && s'.sync.expected == s.sync.expected
    && (!e.Foreign? ==> s'.d1 == s.d1)
  }

  lemma StoppedRead(schema: Schema, s: State, e: Event)
    requires SchemaOk(schema) && Stopped(s) && ReadsBatch(e)
    ensures Unmoved(s, Step(schema, s, e), e)
  {
    match e
    case StartWrite(limit) => assert Unmoved(s, StartWriteStep(s, limit), e);
    case StartReconcile => assert StartReconcileStep(s) == s;
    case ReadRow => assert Unmoved(s, ReadRowStep(s), e);
    case ReadParent => assert Unmoved(s, ReadParentStep(s), e);
    case Assemble => StoppedAssemble(schema, s);
  }

  lemma StoppedAssemble(schema: Schema, s: State)
    requires SchemaOk(schema) && Stopped(s)
    ensures Unmoved(s, AssembleStep(schema, s), Assemble)
  {}

  lemma StoppedD1(schema: Schema, s: State, e: Event)
    requires SchemaOk(schema) && Stopped(s) && TouchesD1(e) && Undisturbed(s, e)
    ensures Unmoved(s, Step(schema, s, e), e)
  {
    match e
    case Mark =>
    case Preflight =>
    case Send => assert SendStep(schema, s) == s;
    case Resend =>
    case PostEpoch =>
    case Check => assert CheckStep(s) == s;
    case Ack => assert AckStep(s) == s;
    case Fail =>
    case Crash =>
  }

  lemma StoppedStep(schema: Schema, s: State, e: Event)
    requires SchemaOk(schema) && Stopped(s) && Undisturbed(s, e)
    ensures Unmoved(s, Step(schema, s, e), e)
  {
    if ReadsBatch(e) { StoppedRead(schema, s, e); }
    else if TouchesD1(e) { StoppedD1(schema, s, e); }
    else { StepEpoch(schema, s, e); }
  }

  lemma {:induction false} StoppedRun(schema: Schema, s: State, es: seq<Event>)
    requires SchemaOk(schema) && Stopped(s) && UndisturbedRun(schema, s, es)
    ensures var r := Run(schema, s, es);
            Stopped(r) && r.sync.acked == s.sync.acked && r.sync.expected == s.sync.expected
            && (NoForeign(es) ==> r.d1 == s.d1)
    decreases |es|
  {
    if es != [] {
      StoppedStep(schema, s, es[0]);
      StoppedRun(schema, Step(schema, s, es[0]), es[1..]);
      if NoForeign(es) { assert !es[0].Foreign? && NoForeign(es[1..]); }
    }
  }

  /** A foreign write to memories or their embeddings is caught. In any
      reachable state with nothing out, after another writer changes such a
      row, nothing is sent and nothing acked, whatever happens, until an
      operator resumes or the process fails between a marker and its preflight;
      D1 changes by foreign writes alone, and a preflight halts. */
  lemma ForeignWriteHalts(schema: Schema, s0: State, before: seq<Event>, st: Stmt, k: Key, after: seq<Event>)
    requires SchemaOk(schema) && Init(schema, s0) && EpochsRead(schema, s0, before)
    requires st.Delete? || |st.cols| == |st.vals|
    requires var s := Run(schema, s0, before);
             && NothingOut(s) && Exec(s.d1, st).Some?
             && Counted(k.tbl) && Get(Exec(s.d1, st).value.rows, k) != Get(s.d1.rows, k)
             && UndisturbedRun(schema, Step(schema, s, Foreign(st)), after)
    ensures var s := Run(schema, s0, before);
            var r := Run(schema, Step(schema, s, Foreign(st)), after);
            && !r.pc.Sending? && !r.pc.Checking? && !r.pc.Sent? && r.sync.acked == s.sync.acked
            && (NoForeign(after) ==> Some(r.d1) == Exec(s.d1, st))
            && (r.pc.Marked? ==> PreflightStep(r) == Halted(r, ForeignWriter))
  {
    var s := Run(schema, s0, before);
    RunKeepsEpochOk(schema, s0, before);
    ForeignMoves(schema, s, st, k);
    StoppedRun(schema, Step(schema, s, Foreign(st)), after);
  }

  // ------------------------------------------------------------ halts

  /** Whether an event is the resume this halt demands: a foreign writer wants
      an epoch accepted, the delete guard its own attempt allowed. */
  predicate Lifts(h: Halt, e: Event) {
    e.Resume? && match h {
      case ForeignWriter => e.acceptEpoch.Some?
      case DeleteGuard(attempt) => e.allowDeletes == Some(attempt)
      case _ => true
    }
  }

  lemma HaltedStep(schema: Schema, s: State, e: Event)
    requires SchemaOk(schema) && s.sync.halted.Some? && s.pc == Idle && !e.Foreign?
    ensures var t := Step(schema, s, e);
            && t.d1 == s.d1 && t.sync.acked == s.sync.acked && t.pc == Idle
            && (t.sync.halted == s.sync.halted <==> !Lifts(s.sync.halted.value, e))
  {}

  /** A halted store sends nothing and acks nothing, whatever happens to it,
      until it is resumed the way its halt demands. */
  lemma {:induction false} HaltedSendsNothing(schema: Schema, s: State, es: seq<Event>)
    requires SchemaOk(schema) && s.sync.halted.Some? && s.pc == Idle && NoForeign(es)
    requires forall i :: 0 <= i < |es| ==> !Lifts(s.sync.halted.value, es[i])
    ensures var t := Run(schema, s, es);
            t.d1 == s.d1 && t.sync.acked == s.sync.acked && t.sync.halted == s.sync.halted && t.pc == Idle
    decreases |es|
  {
    if es != [] {
      HaltedStep(schema, s, es[0]);
      HaltedSendsNothing(schema, Step(schema, s, es[0]), es[1..]);
    }
  }
}
