/** The delete guard over whole runs: which batches it stops, which it lets out,
    and what an operator's allowance is good for. */
module GuardedBatches {
  import opened Rows
  import opened Statements
  import opened Outbox
  import opened Batches
  import opened ForeignKeyOrder
  import opened Replicator
  import opened ReplicatorSafety
  import opened ReplicatorHistory

  // ------------------------------------------------------------ what the guard tests

  /** The keys of a table a batch deletes, and the table's rows. */
  ghost function Deleted(recs: seq<Rec>, t: Table): set<Key> {
    set i | 0 <= i < |recs| && recs[i].row.None? && recs[i].key.tbl == t :: recs[i].key
  }

  ghost function RowsOf(rows: Db, t: Table): set<Key> {
    set k | k in rows && k.tbl == t
  }

  /** At most 50 deletes of the table, and at most one in a hundred of the rows
      it had. */
  ghost predicate WithinBounds(recs: seq<Rec>, rows: Db) {
    forall t: Table :: |Deleted(recs, t)| <= 50
                       && 100 * |Deleted(recs, t)| <= |RowsOf(rows, t)| + |Deleted(recs, t)|
  }

  lemma FirstDeleted(recs: seq<Rec>, t: Table)
    requires recs != []
    ensures Deleted(recs, t)
            == Deleted(recs[1..], t) + if recs[0].key.tbl == t && recs[0].row.None? then {recs[0].key} else {}
  {
    var rest := recs[1..];
    forall k | k in Deleted(rest, t) ensures k in Deleted(recs, t) {
      var i :| 0 <= i < |rest| && rest[i].row.None? && rest[i].key.tbl == t && rest[i].key == k;
      assert recs[i + 1].key == k;
    }
    forall k | k in Deleted(recs, t) && k != recs[0].key ensures k in Deleted(rest, t) {
      var i :| 0 <= i < |recs| && recs[i].row.None? && recs[i].key.tbl == t && recs[i].key == k;
      assert rest[i - 1] == recs[i];
    }
    forall k | k in Deleted(recs, t) && k == recs[0].key
      ensures k in Deleted(rest, t) || (recs[0].key.tbl == t && recs[0].row.None?)
    {
      var i :| 0 <= i < |recs| && recs[i].row.None? && recs[i].key.tbl == t && recs[i].key == k;
      if i > 0 { assert rest[i - 1] == recs[i]; }
    }
  }

  lemma {:induction false} DeletesCounted(recs: seq<Rec>, t: Table)
    requires UniqueKeys(recs)
    ensures DeletesOf(recs, t) == |Deleted(recs, t)|
  {
    if recs == [] {
      assert Deleted(recs, t) == {};
    } else {
      DeletedOnce(recs, t);
      DeletesCounted(recs[1..], t);
      FirstDeleted(recs, t);
      OneMore(Deleted(recs[1..], t), recs[0].key);
    }
  }

  lemma DeletedOnce(recs: seq<Rec>, t: Table)
    requires recs != [] && UniqueKeys(recs)
    ensures UniqueKeys(recs[1..]) && recs[0].key !in Deleted(recs[1..], t)
  {
    var rest := recs[1..];
    forall i | 0 <= i < |rest| ensures rest[i].key != recs[0].key { assert rest[i] == recs[i + 1]; }
  }

  lemma OneMore(ks: set<Key>, k: Key)
    requires k !in ks
    ensures |ks + {k}| == |ks| + 1 && ks + {} == ks
  {}

  /** The guard trips exactly past those bounds. */
  lemma GuardExact(recs: seq<Rec>, rows: Db)
    requires UniqueKeys(recs)
    ensures GuardTrips(recs, rows) <==> !WithinBounds(recs, rows)
  {
    forall t: Table ensures DeletesOf(recs, t) == |Deleted(recs, t)| && Total(rows, t) == |RowsOf(rows, t)| {
      DeletesCounted(recs, t);
    }
  }

  // ------------------------------------------------------------ no key twice

  /** What the process reads and holds names no key twice. */
  ghost predicate KeysOnce(pc: Pc) {
    match pc
    case Idle => true
    case Reading(_, _, _, todo, got) =>
      DistinctKeys(todo) && |got| <= |todo| && forall i :: 0 <= i < |got| ==> got[i].key == todo[i].key
    case Adding(_, _, _, recs, _, extra) => UniqueKeys(recs + extra)
    case Prepared(b) => UniqueKeys(b.recs)
    case Marked(b) => UniqueKeys(b.recs)
    case Sending(b, _, _) => UniqueKeys(b.recs)
    case Checking(b, _) => UniqueKeys(b.recs)
    case Sent(b, _) => UniqueKeys(b.recs)
  }

  ghost predicate Once(s: State) { Ordered(s.store.outbox, s.store.next) && KeysOnce(s.pc) }

  lemma RangeOnce(outbox: seq<OutRow>, lo: int, hi: Option<nat>, limit: nat)
    requires Ascending(outbox)
    ensures DistinctKeys(Coalesce(Take(Select(outbox, lo, hi), limit)))
  {
    SelectAscending(outbox, lo, hi);
    CoalesceOrdered(Take(Select(outbox, lo, hi), limit));
  }

  lemma StartsOnce(s: State, limit: nat)
    requires Once(s)
    ensures Once(StartWriteStep(s, limit)) && Once(StartReconcileStep(s))
  {
    RangeOnce(s.store.outbox, s.sync.acked, None, limit);
    if s.sync.inflight.Some? {
      RangeOnce(s.store.outbox, s.sync.inflight.value.lo - 1, Some(s.sync.inflight.value.hi), RECONCILE_ROWS);
    }
  }

  lemma ReadRowOnce(s: State)
    requires Once(s)
    ensures Once(ReadRowStep(s))
  {
    if s.pc.Reading? && |s.pc.got| >= |s.pc.todo| {
      var got := s.pc.got;
      assert got + [] == got;
      forall i, j | 0 <= i < j < |got| ensures got[i].key != got[j].key {
        assert s.pc.todo[i].key != s.pc.todo[j].key;
      }
    }
  }

  lemma ParentOnce(recs: seq<Rec>, i: nat, extra: seq<Rec>, rows: Db)
    requires i < |recs| && UniqueKeys(recs + extra)
    ensures var step := WithParent(recs[i], KeysOf(recs + extra), rows); UniqueKeys(recs[i := step.0] + (extra + step.1))
  {
    var all := recs + extra;
    var step := WithParent(recs[i], KeysOf(all), rows);
    var all' := recs[i := step.0] + (extra + step.1);
    assert all[i] == recs[i];
    assert all' == all[i := step.0] + step.1;
    forall a, b | 0 <= a < b < |all'| ensures all'[a].key != all'[b].key {
      if b < |all| { assert all[a].key != all[b].key; } else { assert all[a].key in KeysOf(all); }
    }
  }

  lemma AssembleOnce(schema: Schema, s: State)
    requires SchemaOk(schema) && Once(s)
    ensures Once(AssembleStep(schema, s))
  {
    if s.pc.Adding? { OrderUnique(s.pc.recs + s.pc.extra); }
  }

  lemma LocalOnce(schema: Schema, s: State, w: Write)
    requires SchemaOk(schema) && Once(s)
    ensures Once(Step(schema, s, Local(w)))
  {
    ApplyKeepsOrder(s.store, w, s.now);
  }

  lemma AckOnce(s: State)
    requires Once(s)
    ensures Once(AckStep(s))
  {
    if s.pc.Sent? {
      PruneAscending(s.store.outbox, s.pc.b.hi, s.sync, s.now);
      var out := AckStep(s).store.outbox;
      forall i | 0 <= i < |out| ensures out[i].seq_ < s.store.next {
        assert out[i] in s.store.outbox;
      }
    }
  }

  lemma D1Once(schema: Schema, s: State, e: Event)
    requires SchemaOk(schema) && Once(s) && TouchesD1(e)
    ensures Once(Step(schema, s, e))
  {
    match e
    case Mark =>
    case Preflight =>
    case Send => assert Once(SendStep(schema, s));
    case Resend =>
    case PostEpoch =>
    case Check => assert Once(CheckStep(s));
    case Ack => AckOnce(s);
    case Fail =>
    case Crash =>
  }

  lemma StepOnce(schema: Schema, s: State, e: Event)
    requires SchemaOk(schema) && Once(s)
    ensures Once(Step(schema, s, e))
  {
    if e.StartWrite? { StartsOnce(s, e.limit); }
    else if e.StartReconcile? { StartsOnce(s, 0); }
    else if e.ReadRow? { ReadRowOnce(s); }
    else if e.ReadParent? { if s.pc.Adding? && s.pc.i < |s.pc.recs| { ParentOnce(s.pc.recs, s.pc.i, s.pc.extra, s.store.rows); } }
    else if e.Assemble? { AssembleOnce(schema, s); }
    else if TouchesD1(e) { D1Once(schema, s, e); }
    else if e.Local? { LocalOnce(schema, s, e.w); }
  }

  // ------------------------------------------------------------ one assembly

  /** A write batch is whole: read, with its parents, and buildable. */
  ghost predicate Whole(schema: Schema, s: State, b: Batch)
    requires SchemaOk(schema)
  {
    && s.pc.Adding? && s.pc.p == ForWrite && s.pc.i >= |s.pc.recs|
    && b == Batch(s.pc.lo, s.pc.hi, Order(s.pc.recs + s.pc.extra)) && Buildable(b.recs, schema)
  }

  /** The guard's decision on a whole batch, both ways: it goes on exactly when
      it is within the bounds or this very attempt is allowed. */
  lemma AssembleDecides(schema: Schema, s: State, b: Batch)
    requires SchemaOk(schema) && Once(s) && Whole(schema, s, b)
    ensures var t := Step(schema, s, Assemble);
            if !WithinBounds(b.recs, s.store.rows) && s.sync.allow != Some(Attempt(b.lo, b.hi, DeletedKeys(b.recs)))
            then t == s.(pc := Idle, sync := s.sync.(halted := Some(DeleteGuard(Attempt(b.lo, b.hi, DeletedKeys(b.recs))))))
            else if s.sync.expected.Some? then t == s.(pc := Prepared(b))
            else t == s.(pc := Idle, sync := s.sync.(halted := Some(Config)))
  {
    OrderUnique(s.pc.recs + s.pc.extra);
    GuardExact(b.recs, s.store.rows);
    StepIsAssemble(schema, s);
  }

  /** The keys of an attempt are all the batch's deletes. */
  lemma AttemptNames(recs: seq<Rec>, k: Key)
    ensures k in DeletedKeys(recs) <==> exists t: Table :: k in Deleted(recs, t)
  {
    if k in DeletedKeys(recs) { assert k in Deleted(recs, k.tbl); }
  }

  // ------------------------------------------------------------ one step

  /** The write batch the process means to send, or is sending. */
  function Outgoing(pc: Pc): Option<Batch> {
    match pc
    case Prepared(b) => Some(b)
    case Marked(b) => Some(b)
    case Sending(b, _, _) => Some(b)
    case _ => None
  }

  function AttemptFor(b: Batch): Attempt { Attempt(b.lo, b.hi, DeletedKeys(b.recs)) }

  /** The guard passed this batch here. */
  ghost predicate Passes(schema: Schema, s: State, b: Batch)
    requires SchemaOk(schema)
  {
    Whole(schema, s, b) && (WithinBounds(b.recs, s.store.rows) || s.sync.allow == Some(AttemptFor(b)))
  }

  /** The guard stopped a batch here. */
  ghost predicate Stops(schema: Schema, s: State, b: Batch)
    requires SchemaOk(schema)
  {
    Whole(schema, s, b) && !WithinBounds(b.recs, s.store.rows) && s.sync.allow != Some(AttemptFor(b))
  }

  predicate AcksNow(s: State, e: Event) { e.Ack? && s.pc.Sent? }

  predicate Grants(s: State, e: Event, a: Attempt) {
    e.Resume? && e.allowDeletes == Some(a) && s.sync.halted == Some(DeleteGuard(a))
  }

  ghost predicate GuardStep(schema: Schema, s: State, e: Event, t: State)
    requires SchemaOk(schema)
  {
    && (Outgoing(t.pc).Some? ==>
          Outgoing(t.pc) == Outgoing(s.pc) || (e.Assemble? && Passes(schema, s, Outgoing(t.pc).value)))
    && (t.sync.allow.Some? ==>
          (t.sync.allow == s.sync.allow && !AcksNow(s, e)) || Grants(s, e, t.sync.allow.value))
    && (t.sync.halted.Some? && t.sync.halted.value.DeleteGuard? ==>
          t.sync.halted == s.sync.halted
          || (e.Assemble? && exists b :: Stops(schema, s, b) && AttemptFor(b) == t.sync.halted.value.attempt))
  }

  lemma AssembleGuarded(schema: Schema, s: State)
    requires SchemaOk(schema) && Once(s)
    ensures GuardStep(schema, s, Assemble, Step(schema, s, Assemble))
  {
    if s.pc.Adding? && s.pc.p == ForWrite && s.pc.i >= |s.pc.recs| {
      var b := Batch(s.pc.lo, s.pc.hi, Order(s.pc.recs + s.pc.extra));
      if Buildable(b.recs, schema) { WholeGuarded(schema, s, b); } else { NotBuilt(schema, s, b); }
    } else {
      NotWritten(schema, s);
    }
  }

  lemma WholeGuarded(schema: Schema, s: State, b: Batch)
    requires SchemaOk(schema) && Once(s) && Whole(schema, s, b)
    ensures GuardStep(schema, s, Assemble, Step(schema, s, Assemble))
  {
    AssembleDecides(schema, s, b);
    if !Passes(schema, s, b) { assert Stops(schema, s, b); }
  }

  lemma NotBuilt(schema: Schema, s: State, b: Batch)
    requires SchemaOk(schema) && s.pc.Adding? && s.pc.i >= |s.pc.recs| && s.pc.p == ForWrite
    requires b == Batch(s.pc.lo, s.pc.hi, Order(s.pc.recs + s.pc.extra)) && !Buildable(b.recs, schema)
    ensures GuardStep(schema, s, Assemble, Step(schema, s, Assemble))
  {
    assert Step(schema, s, Assemble) == s.(sync := s.sync.(halted := Some(StatementRejected)), pc := Idle);
  }

  lemma NotWritten(schema: Schema, s: State)
    requires SchemaOk(schema) && !(s.pc.Adding? && s.pc.p == ForWrite && s.pc.i >= |s.pc.recs|)
    ensures GuardStep(schema, s, Assemble, Step(schema, s, Assemble))
  {
    var t := AssembleStep(schema, s);
    assert t.sync == s.sync && Outgoing(t.pc).Some? ==> t == s;
  }

  lemma ReadGuarded(schema: Schema, s: State, e: Event)
    requires SchemaOk(schema) && Once(s) && ReadsBatch(e)
    ensures GuardStep(schema, s, e, Step(schema, s, e))
  {
    match e
    case StartWrite(limit) => assert GuardStep(schema, s, e, StartWriteStep(s, limit));
    case StartReconcile => assert GuardStep(schema, s, e, StartReconcileStep(s));
    case ReadRow => assert GuardStep(schema, s, e, ReadRowStep(s));
    case ReadParent => assert GuardStep(schema, s, e, ReadParentStep(s));
    case Assemble => AssembleGuarded(schema, s);
  }

  lemma D1Guarded(schema: Schema, s: State, e: Event)
    requires SchemaOk(schema) && TouchesD1(e)
    ensures GuardStep(schema, s, e, Step(schema, s, e))
  {
    match e
    case Mark => assert GuardStep(schema, s, e, MarkStep(s));
    case Preflight => assert GuardStep(schema, s, e, PreflightStep(s));
    case Send => SendGuarded(schema, s);
    case Resend => assert GuardStep(schema, s, e, ResendStep(s));
    case PostEpoch => assert GuardStep(schema, s, e, PostEpochStep(s));
    case Check => assert GuardStep(schema, s, e, CheckStep(s));
    case Ack => assert GuardStep(schema, s, e, AckStep(s));
    case Fail =>
    case Crash =>
  }

  lemma SendGuarded(schema: Schema, s: State)
    requires SchemaOk(schema)
    ensures GuardStep(schema, s, Send, SendStep(schema, s))
  {}

  lemma StepGuarded(schema: Schema, s: State, e: Event)
    requires SchemaOk(schema) && Once(s)
    ensures GuardStep(schema, s, e, Step(schema, s, e))
  {
    if ReadsBatch(e) { ReadGuarded(schema, s, e); }
    else if TouchesD1(e) { D1Guarded(schema, s, e); }
  }

  // ------------------------------------------------------------ over runs

  /** An operator's resume allowed this attempt when it had halted the store,
      and no ack has used the allowance up since. */
  ghost predicate Allowed(schema: Schema, s0: State, es: seq<Event>, n: nat, a: Attempt)
    requires SchemaOk(schema) && n <= |es|
  {
    exists m: nat :: m < n && Grants(Run(schema, s0, es[..m]), es[m], a) && NoAckSince(schema, s0, es, m, n)
  }

  ghost predicate NoAckSince(schema: Schema, s0: State, es: seq<Event>, m: nat, n: nat)
    requires SchemaOk(schema) && n <= |es|
  {
    forall j :: m < j < n ==> !AcksNow(Run(schema, s0, es[..j]), es[j])
  }

  /** The batch was assembled n events into the run, within the bounds of the
      rows there then, or allowed. */
  ghost predicate PassedAt(schema: Schema, s0: State, es: seq<Event>, n: nat, b: Batch)
    requires SchemaOk(schema) && n < |es|
  {
    var s := Run(schema, s0, es[..n]);
    es[n].Assemble? && Whole(schema, s, b)
    && (WithinBounds(b.recs, s.store.rows) || Allowed(schema, s0, es, n, AttemptFor(b)))
  }

  ghost predicate StoppedAt(schema: Schema, s0: State, es: seq<Event>, n: nat, a: Attempt)
    requires SchemaOk(schema) && n < |es|
  {
    es[n].Assemble? && exists b :: Stops(schema, Run(schema, s0, es[..n]), b) && AttemptFor(b) == a
  }

  ghost predicate Traced(schema: Schema, s0: State, es: seq<Event>)
    requires SchemaOk(schema)
  {
    var r := Run(schema, s0, es);
    && Once(r)
    && (Outgoing(r.pc).Some? ==> exists n: nat :: n < |es| && PassedAt(schema, s0, es, n, Outgoing(r.pc).value))
    && (r.sync.allow.Some? ==> Allowed(schema, s0, es, |es|, r.sync.allow.value))
    && (r.sync.halted.Some? && r.sync.halted.value.DeleteGuard? ==>
          exists n: nat :: n < |es| && StoppedAt(schema, s0, es, n, r.sync.halted.value.attempt))
  }

  lemma AllowedKept(schema: Schema, s0: State, es: seq<Event>, e: Event, n: nat, a: Attempt)
    requires SchemaOk(schema) && n <= |es| && Allowed(schema, s0, es, n, a)
    ensures Allowed(schema, s0, es + [e], n, a)
    ensures n == |es| && !AcksNow(Run(schema, s0, es), e) ==> Allowed(schema, s0, es + [e], n + 1, a)
  {
    var all := es + [e];
    var m: nat :| m < n && Grants(Run(schema, s0, es[..m]), es[m], a) && NoAckSince(schema, s0, es, m, n);
    assert all[..m] == es[..m] && all[m] == es[m];
    forall j | m < j < n ensures !AcksNow(Run(schema, s0, all[..j]), all[j]) {
      assert all[..j] == es[..j];
    }
    if n == |es| { assert all[..n] == es; }
  }

  lemma PassedKept(schema: Schema, s0: State, es: seq<Event>, e: Event, n: nat, b: Batch)
    requires SchemaOk(schema) && n < |es| && PassedAt(schema, s0, es, n, b)
    ensures PassedAt(schema, s0, es + [e], n, b)
  {
    assert (es + [e])[..n] == es[..n];
    if Allowed(schema, s0, es, n, AttemptFor(b)) { AllowedKept(schema, s0, es, e, n, AttemptFor(b)); }
  }

  lemma StoppedKept(schema: Schema, s0: State, es: seq<Event>, e: Event, n: nat, a: Attempt)
    requires SchemaOk(schema) && n < |es| && StoppedAt(schema, s0, es, n, a)
    ensures StoppedAt(schema, s0, es + [e], n, a)
  {
    assert (es + [e])[..n] == es[..n];
  }

  lemma RunMore(schema: Schema, s0: State, es: seq<Event>, e: Event)
    requires SchemaOk(schema)
    ensures Run(schema, s0, es + [e]) == Step(schema, Run(schema, s0, es), e)
  {
    RunSplit(schema, s0, es + [e], |es|);
    assert (es + [e])[..|es|] == es && (es + [e])[|es|..] == [e] && [e][1..] == [];
  }

  lemma TracedBatch(schema: Schema, s0: State, es: seq<Event>, e: Event)
    requires SchemaOk(schema) && Traced(schema, s0, es)
    ensures var t := Run(schema, s0, es + [e]);
            Outgoing(t.pc).Some? ==>
              exists n: nat :: n < |es + [e]| && PassedAt(schema, s0, es + [e], n, Outgoing(t.pc).value)
  {
    var s, t := Run(schema, s0, es), Run(schema, s0, es + [e]);
    RunMore(schema, s0, es, e);
    StepGuarded(schema, s, e);
    if Outgoing(t.pc).Some? {
      var b := Outgoing(t.pc).value;
      if Outgoing(s.pc) == Some(b) {
        var n: nat :| n < |es| && PassedAt(schema, s0, es, n, b);
        PassedKept(schema, s0, es, e, n, b);
      } else {
        assert (es + [e])[..|es|] == es;
        if s.sync.allow == Some(AttemptFor(b)) { AllowedKept(schema, s0, es, e, |es|, AttemptFor(b)); }
        assert PassedAt(schema, s0, es + [e], |es|, b);
      }
    }
  }

  lemma TracedAllow(schema: Schema, s0: State, es: seq<Event>, e: Event)
    requires SchemaOk(schema) && Traced(schema, s0, es)
    ensures var t := Run(schema, s0, es + [e]);
            t.sync.allow.Some? ==> Allowed(schema, s0, es + [e], |es + [e]|, t.sync.allow.value)
  {
    var s, t := Run(schema, s0, es), Run(schema, s0, es + [e]);
    RunMore(schema, s0, es, e);
    StepGuarded(schema, s, e);
    if t.sync.allow.Some? {
      var a := t.sync.allow.value;
      if Grants(s, e, a) {
        assert (es + [e])[..|es|] == es && (es + [e])[|es|] == e;
        assert NoAckSince(schema, s0, es + [e], |es|, |es| + 1);
      } else {
        AllowedKept(schema, s0, es, e, |es|, a);
      }
    }
  }

  lemma TracedHalt(schema: Schema, s0: State, es: seq<Event>, e: Event)
    requires SchemaOk(schema) && Traced(schema, s0, es)
    ensures var t := Run(schema, s0, es + [e]);
            t.sync.halted.Some? && t.sync.halted.value.DeleteGuard? ==>
              exists n: nat :: n < |es + [e]| && StoppedAt(schema, s0, es + [e], n, t.sync.halted.value.attempt)
  {
    var s, t := Run(schema, s0, es), Run(schema, s0, es + [e]);
    RunMore(schema, s0, es, e);
    StepGuarded(schema, s, e);
    if t.sync.halted.Some? && t.sync.halted.value.DeleteGuard? {
      var a := t.sync.halted.value.attempt;
      if t.sync.halted == s.sync.halted {
        var n: nat :| n < |es| && StoppedAt(schema, s0, es, n, a);
        StoppedKept(schema, s0, es, e, n, a);
      } else {
        assert (es + [e])[..|es|] == es;
        assert StoppedAt(schema, s0, es + [e], |es|, a);
      }
    }
  }

  lemma {:induction false} RunTraced(schema: Schema, s0: State, es: seq<Event>)
    requires SchemaOk(schema) && Init(schema, s0)
    ensures Traced(schema, s0, es)
    decreases |es|
  {
    if es != [] {
      var front, e := es[..|es| - 1], es[|es| - 1];
      RunTraced(schema, s0, front);
      assert es == front + [e];
      RunMore(schema, s0, front, e);
      StepOnce(schema, Run(schema, s0, front), e);
      TracedBatch(schema, s0, front, e);
      TracedAllow(schema, s0, front, e);
      TracedHalt(schema, s0, front, e);
    }
  }

  /** In every reachable state, foreign writers included, a batch on its way out
      was within the bounds when it was assembled, or an operator had allowed
      this very attempt, once, after it had halted the store. */
  lemma OutgoingWasGuarded(schema: Schema, s0: State, es: seq<Event>, b: Batch)
    requires SchemaOk(schema) && Init(schema, s0) && Outgoing(Run(schema, s0, es).pc) == Some(b)
    ensures exists n: nat :: n < |es| && PassedAt(schema, s0, es, n, b)
  {
    RunTraced(schema, s0, es);
  }

  /** And a store halted by the guard had a batch past the bounds that nobody
      had allowed. */
  lemma GuardHaltWasDue(schema: Schema, s0: State, es: seq<Event>, a: Attempt)
    requires SchemaOk(schema) && Init(schema, s0) && Run(schema, s0, es).sync.halted == Some(DeleteGuard(a))
    ensures exists n: nat :: n < |es| && StoppedAt(schema, s0, es, n, a)
  {
    RunTraced(schema, s0, es);
  }

  /** The decision, at any assembly of any run. */
  lemma GuardDecidesEveryBatch(schema: Schema, s0: State, es: seq<Event>, b: Batch)
    requires SchemaOk(schema) && Init(schema, s0) && EpochsRead(schema, s0, es) && Whole(schema, Run(schema, s0, es), b)
    ensures var s := Run(schema, s0, es);
            var t := Step(schema, s, Assemble);
            if WithinBounds(b.recs, s.store.rows) || s.sync.allow == Some(AttemptFor(b))
            then t == s.(pc := Prepared(b))
            else t == s.(pc := Idle, sync := s.sync.(halted := Some(DeleteGuard(AttemptFor(b)))))
  {
    RunTraced(schema, s0, es);
    RunKeepsEpochOk(schema, s0, es);
    AssembleDecides(schema, Run(schema, s0, es), b);
  }
}
