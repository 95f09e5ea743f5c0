/** When a foreign write to D1 is caught and when the next ack takes it over:
    exactly according to whether anything is out. */
module ForeignWrites {
  import opened Rows
  import opened Statements
  import opened Outbox
  import opened Batches
  import opened ForeignKeyOrder
  import opened Replicator
  import opened ReplicatorSafety
  import opened ReplicatorHistory

  // ------------------------------------------------------------ the shape of reachable states

  /** A marker stands exactly from the mark to the ack, over failures; only an
      idle process has a write halted. */
  ghost predicate MarkerFits(s: State) {
    match s.pc
    case Idle => true
    case Reading(p, _, _, _, _) => s.sync.inflight.Some? <==> p == ForReconcile
    case Adding(p, _, _, _, _, _) => s.sync.inflight.Some? <==> p == ForReconcile
    case Prepared(_) => s.sync.inflight.None?
    case Marked(_) => s.sync.inflight.Some?
    case Sending(_, _, _) => s.sync.inflight.Some?
    case Checking(_, _) => s.sync.inflight.Some?
    case Sent(_, _) => s.sync.inflight.Some?
  }

  ghost predicate HaltFits(s: State) {
    s.sync.halted.Some? ==>
      s.pc.Idle? && if s.sync.halted == Some(ForeignWriter) then s.relaxed.None? else s.sync.inflight.None?
  }

  /** The epochs a process compares with are ones D1 has had. */
  ghost predicate EpochsFit(s: State) {
    && EpochOk(s)
    && (s.sync.inflight.Some? ==> s.sync.inflight.value.epochBefore <= s.d1.epoch)
    && (s.relaxed.Some? ==> s.relaxed.value <= s.d1.epoch)
  }

  ghost predicate Shape(s: State) { MarkerFits(s) && HaltFits(s) && EpochsFit(s) }

  lemma ReadShape(schema: Schema, s: State, e: Event)
    requires SchemaOk(schema) && Shape(s) && ReadsBatch(e)
    ensures Shape(Step(schema, s, e))
  {
    match e
    case StartWrite(limit) => assert Shape(StartWriteStep(s, limit));
    case StartReconcile => assert Shape(StartReconcileStep(s));
    case ReadRow => assert Shape(ReadRowStep(s));
    case ReadParent => assert Shape(ReadParentStep(s));
    case Assemble => AssembleShape(schema, s);
  }

  lemma AssembleShape(schema: Schema, s: State)
    requires SchemaOk(schema) && Shape(s)
    ensures Shape(AssembleStep(schema, s))
  {}

  lemma SendShape(schema: Schema, s: State)
    requires SchemaOk(schema) && Shape(s)
    ensures Shape(SendStep(schema, s))
  {
    SendEpoch(schema, s);
  }

  lemma D1Shape(schema: Schema, s: State, e: Event)
    requires SchemaOk(schema) && Shape(s) && TouchesD1(e)
    ensures Shape(Step(schema, s, e))
  {
    match e
    case Mark => assert Shape(MarkStep(s));
    case Preflight => assert Shape(PreflightStep(s));
    case Send => SendShape(schema, s);
    case Resend => assert Shape(ResendStep(s));
    case PostEpoch => assert Shape(PostEpochStep(s));
    case Check => assert Shape(CheckStep(s));
    case Ack => assert Shape(AckStep(s));
    case Fail =>
    case Crash =>
  }

  lemma StepShape(schema: Schema, s: State, e: Event)
    requires SchemaOk(schema) && Shape(s) && EpochRead(s, e)
    ensures Shape(Step(schema, s, e))
  {
    if ReadsBatch(e) { ReadShape(schema, s, e); }
    else if TouchesD1(e) { D1Shape(schema, s, e); }
    else { StepEpoch(schema, s, e); }
  }

  lemma {:induction false} RunShape(schema: Schema, s: State, es: seq<Event>)
    requires SchemaOk(schema) && Shape(s) && EpochsRead(schema, s, es)
    ensures Shape(Run(schema, s, es))
    decreases |es|
  {
    if es != [] {
      StepShape(schema, s, es[0]);
      RunShape(schema, Step(schema, s, es[0]), es[1..]);
    }
  }

  // ------------------------------------------------------------ after the write, before the next ack

  /** A write moved D1's epoch to at least e, past the expected one; an epoch
      read for an ack since then is no older. */
  ghost predicate Behind(s: State, e: int) {
    && Shape(s) && s.sync.expected.value < e <= s.d1.epoch
    && (s.pc.Sent? ==> s.pc.post >= e)
  }

  predicate Unsettled(e: Event) { !e.Ack? && !e.Resume? }

  predicate AllUnsettled(es: seq<Event>) { forall i :: 0 <= i < |es| ==> Unsettled(es[i]) }

  lemma StepBehind(schema: Schema, s: State, e: Event, epoch: int)
    requires SchemaOk(schema) && Behind(s, epoch) && Unsettled(e)
    ensures Behind(Step(schema, s, e), epoch)
  {
    StepShape(schema, s, e);
    StepEpoch(schema, s, e);
    if ReadsBatch(e) { ReadNotSent(schema, s, e); }
    else if TouchesD1(e) && !e.PostEpoch? { D1NotSent(schema, s, e); }
  }

  lemma {:induction false} RunBehind(schema: Schema, s: State, es: seq<Event>, epoch: int)
    requires SchemaOk(schema) && Behind(s, epoch) && AllUnsettled(es)
    ensures Behind(Run(schema, s, es), epoch)
    decreases |es|
  {
    if es != [] {
      assert Unsettled(es[0]) && AllUnsettled(es[1..]);
      StepBehind(schema, s, es[0], epoch);
      RunBehind(schema, Step(schema, s, es[0]), es[1..], epoch);
    }
  }

  /** The expected epoch includes the write, and nothing has halted for it. */
  ghost predicate TakenOver(s: State, epoch: int) {
    s.sync.expected.Some? && s.sync.expected.value >= epoch && s.sync.halted.None?
  }

  /** With nothing out a preflight halts and no ack is to come; otherwise a
      preflight lets the batch out and an ack takes the write over. */
  ghost predicate Decided(s: State, epoch: int) {
    && (s.pc.Marked? ==>
          PreflightStep(s) == if NothingOut(s) then Halted(s, ForeignWriter) else s.(pc := Sending(s.pc.b, 0, 0)))
    && (s.sync.halted == Some(ForeignWriter) ==> NothingOut(s))
    && (s.pc.Sent? ==> !NothingOut(s) && TakenOver(AckStep(s), epoch))
  }

  lemma BehindDecides(s: State, epoch: int)
    requires Behind(s, epoch)
    ensures Decided(s, epoch)
  {}

  // ------------------------------------------------------------ what turns one into the other

  /** With an unrelaxed preflight ahead, a failure between the marker and the
      preflight; with a relaxed one, a process death that no marker outlives. */
  predicate Turns(s: State, e: Event) {
    if s.relaxed.None? then (e.Fail? || e.Crash?) && s.pc.Marked?
    else e.Crash? && s.sync.inflight.None?
  }

  lemma ReadTurns(schema: Schema, s: State, e: Event)
    requires SchemaOk(schema) && Shape(s) && ReadsBatch(e)
    ensures NothingOut(Step(schema, s, e)) <==> NothingOut(s)
  {
    match e
    case StartWrite(limit) => assert NothingOut(StartWriteStep(s, limit)) <==> NothingOut(s);
    case StartReconcile => assert NothingOut(StartReconcileStep(s)) <==> NothingOut(s);
    case ReadRow => assert NothingOut(ReadRowStep(s)) <==> NothingOut(s);
    case ReadParent => assert NothingOut(ReadParentStep(s)) <==> NothingOut(s);
    case Assemble => AssembleTurns(schema, s);
  }

  lemma AssembleTurns(schema: Schema, s: State)
    requires SchemaOk(schema) && Shape(s)
    ensures NothingOut(AssembleStep(schema, s)) <==> NothingOut(s)
  {}

  lemma SendTurns(schema: Schema, s: State)
    requires SchemaOk(schema) && Shape(s)
    ensures NothingOut(SendStep(schema, s)) <==> NothingOut(s)
  {}

  lemma D1Turns(schema: Schema, s: State, e: Event, epoch: int)
    requires SchemaOk(schema) && Behind(s, epoch) && TouchesD1(e) && !e.Ack?
    ensures NothingOut(Step(schema, s, e)) <==> (NothingOut(s) <==> !Turns(s, e))
  {
    match e
    case Mark => assert NothingOut(MarkStep(s)) <==> NothingOut(s);
    case Preflight => assert NothingOut(PreflightStep(s)) <==> NothingOut(s);
    case Send => SendTurns(schema, s);
    case Resend => assert NothingOut(ResendStep(s)) <==> NothingOut(s);
    case PostEpoch => assert NothingOut(PostEpochStep(s)) <==> NothingOut(s);
    case Check => assert NothingOut(CheckStep(s)) <==> NothingOut(s);
    case Fail =>
    case Crash =>
  }

  /** Exactly those events. */
  lemma TurnsExactly(schema: Schema, s: State, e: Event, epoch: int)
    requires SchemaOk(schema) && Behind(s, epoch) && Unsettled(e)
    ensures NothingOut(Step(schema, s, e)) <==> (NothingOut(s) <==> !Turns(s, e))
  {
    if ReadsBatch(e) { ReadTurns(schema, s, e); }
    else if TouchesD1(e) { D1Turns(schema, s, e, epoch); }
  }

  ghost predicate NoTurn(schema: Schema, s: State, es: seq<Event>)
    requires SchemaOk(schema)
    decreases |es|
  {
    es == [] || (!Turns(s, es[0]) && NoTurn(schema, Step(schema, s, es[0]), es[1..]))
  }

  lemma {:induction false} NoTurnRun(schema: Schema, s: State, es: seq<Event>, epoch: int)
    requires SchemaOk(schema) && Behind(s, epoch) && AllUnsettled(es) && NoTurn(schema, s, es)
    ensures NothingOut(Run(schema, s, es)) <==> NothingOut(s)
    decreases |es|
  {
    if es != [] {
      assert Unsettled(es[0]) && AllUnsettled(es[1..]);
      TurnsExactly(schema, s, es[0], epoch);
      StepBehind(schema, s, es[0], epoch);
      NoTurnRun(schema, Step(schema, s, es[0]), es[1..], epoch);
    }
  }

  // ------------------------------------------------------------ the theorems

  /** Another writer's statement that changes a row of memories or of their
      embeddings. */
  ghost predicate CountedWrite(s: State, st: Stmt, k: Key) {
    && (st.Delete? || |st.cols| == |st.vals|)
    && Exec(s.d1, st).Some? && Counted(k.tbl) && Get(Exec(s.d1, st).value.rows, k) != Get(s.d1.rows, k)
  }

  lemma Reached(schema: Schema, s0: State, before: seq<Event>)
    requires SchemaOk(schema) && Init(schema, s0) && EpochsRead(schema, s0, before)
    ensures Shape(Run(schema, s0, before))
  {
    RunShape(schema, s0, before);
  }

  lemma WriteLeavesBehind(schema: Schema, s: State, st: Stmt, k: Key)
    requires SchemaOk(schema) && Shape(s) && CountedWrite(s, st, k) && !s.pc.Sent?
    ensures var t := Step(schema, s, Foreign(st)); Behind(t, t.d1.epoch) && (NothingOut(t) <==> NothingOut(s))
  {
    ForeignMoves(schema, s, st, k);
    StepShape(schema, s, Foreign(st));
  }

  /** After any run without an ack or a resume: decided by whether something is
      out, which nothing has changed unless an event has turned it. */
  ghost predicate Settled(schema: Schema, t: State, after: seq<Event>, epoch: int)
    requires SchemaOk(schema)
  {
    && Decided(Run(schema, t, after), epoch)
    && (NoTurn(schema, t, after) ==> (NothingOut(Run(schema, t, after)) <==> NothingOut(t)))
  }

  lemma FromBehind(schema: Schema, t: State, after: seq<Event>, epoch: int)
    requires SchemaOk(schema) && Behind(t, epoch) && AllUnsettled(after)
    ensures Settled(schema, t, after, epoch)
  {
    RunBehind(schema, t, after, epoch);
    BehindDecides(Run(schema, t, after), epoch);
    if NoTurn(schema, t, after) { NoTurnRun(schema, t, after, epoch); }
  }

  /** A foreign write in any reachable state but one that has read the epoch for
      its ack, and any run after it without an ack or an operator's resume: the
      write is caught if nothing is out, and otherwise the next ack takes it
      over; and which of the two, nothing changes but the events that turn it. */
  lemma ForeignWriteCaughtExactly(schema: Schema, s0: State, before: seq<Event>, st: Stmt, k: Key, after: seq<Event>)
    requires SchemaOk(schema) && Init(schema, s0) && EpochsRead(schema, s0, before)
    requires CountedWrite(Run(schema, s0, before), st, k) && !Run(schema, s0, before).pc.Sent?
    requires AllUnsettled(after)
    ensures var s := Run(schema, s0, before);
            var t := Step(schema, s, Foreign(st));
            Settled(schema, t, after, t.d1.epoch) && (NothingOut(t) <==> NothingOut(s))
  {
    var s := Run(schema, s0, before);
    Reached(schema, s0, before);
    WriteLeavesBehind(schema, s, st, k);
    var t := Step(schema, s, Foreign(st));
    FromBehind(schema, t, after, t.d1.epoch);
  }

  /** Events that leave a read epoch waiting for its ack. */
  predicate Waits(e: Event) { !e.Ack? && !e.Fail? && !e.Crash? }

  ghost predicate StillSent(s: State, s': State) {
    s'.pc == s.pc && s'.relaxed == s.relaxed && s'.sync.expected == s.sync.expected && Shape(s') && s'.d1.epoch >= s.d1.epoch
  }

  lemma WaitRead(schema: Schema, s: State, e: Event)
    requires SchemaOk(schema) && Shape(s) && s.pc.Sent? && ReadsBatch(e)
    ensures Step(schema, s, e) == s
  {}

  lemma WaitStep(schema: Schema, s: State, e: Event)
    requires SchemaOk(schema) && Shape(s) && s.pc.Sent? && Waits(e)
    ensures StillSent(s, Step(schema, s, e))
  {
    if ReadsBatch(e) { WaitRead(schema, s, e); }
    else {
      if e.Resume? { assert Step(schema, s, e) == s; } else { StepShape(schema, s, e); }
      StepEpoch(schema, s, e);
    }
  }

  lemma {:induction false} WaitRun(schema: Schema, s: State, es: seq<Event>)
    requires SchemaOk(schema) && Shape(s) && s.pc.Sent? && forall i :: 0 <= i < |es| ==> Waits(es[i])
    ensures StillSent(s, Run(schema, s, es))
    decreases |es|
  {
    if es != [] {
      WaitStep(schema, s, es[0]);
      WaitRun(schema, Step(schema, s, es[0]), es[1..]);
    }
  }

  lemma SentEnds(schema: Schema, s: State, e: Event, epoch: int)
    requires SchemaOk(schema) && Shape(s) && s.pc.Sent? && !Waits(e)
    requires s.sync.expected.value < epoch && s.pc.post < epoch <= s.d1.epoch
    ensures Behind(Step(schema, s, e), epoch)
    ensures NothingOut(Step(schema, s, e)) <==> e.Ack? && s.relaxed.None?
  {
    StepShape(schema, s, e);
  }

  lemma WaitedOut(schema: Schema, s: State, st: Stmt, k: Key, wait: seq<Event>, e: Event) returns (t: State, u: State)
    requires SchemaOk(schema) && Shape(s) && CountedWrite(s, st, k) && s.pc.Sent?
    requires (forall i :: 0 <= i < |wait| ==> Waits(wait[i])) && !Waits(e)
    ensures t == Step(schema, s, Foreign(st)) && u == Step(schema, Run(schema, t, wait), e)
    ensures Behind(u, t.d1.epoch) && (NothingOut(u) <==> e.Ack? && s.relaxed.None?)
  {
    t := Step(schema, s, Foreign(st));
    ForeignMoves(schema, s, st, k);
    CountedChangeMovesEpoch(s.d1, st, k);
    StepShape(schema, s, Foreign(st));
    WaitRun(schema, t, wait);
    SentEnds(schema, Run(schema, t, wait), e, t.d1.epoch);
    u := Step(schema, Run(schema, t, wait), e);
  }

  /** A write that lands when the epoch of an ack is already read: that ack does
      not take it over, and leaves it to be caught unless the preflight stays
      relaxed; a failure before the ack leaves it to the next one. */
  lemma WriteAfterPostEpoch(schema: Schema, s0: State, before: seq<Event>, st: Stmt, k: Key, wait: seq<Event>, e: Event,
                            after: seq<Event>)
    requires SchemaOk(schema) && Init(schema, s0) && EpochsRead(schema, s0, before)
    requires CountedWrite(Run(schema, s0, before), st, k) && Run(schema, s0, before).pc.Sent?
    requires (forall i :: 0 <= i < |wait| ==> Waits(wait[i])) && !Waits(e) && AllUnsettled(after)
    ensures var s := Run(schema, s0, before);
            var t := Step(schema, s, Foreign(st));
            var u := Step(schema, Run(schema, t, wait), e);
            && u.sync.expected.Some? && u.sync.expected.value < t.d1.epoch
            && (NothingOut(u) <==> e.Ack? && s.relaxed.None?) && Settled(schema, u, after, t.d1.epoch)
  {
    Reached(schema, s0, before);
    var t, u := WaitedOut(schema, Run(schema, s0, before), st, k, wait, e);
    FromBehind(schema, u, after, t.d1.epoch);
  }

  /** A relaxed epoch lasts until a send ends or the process dies: a reconcile
      that acks leaves it to later batches. */
  lemma RelaxedLastsExactly(schema: Schema, s: State, e: Event)
    requires SchemaOk(schema) && s.relaxed.Some?
    ensures Step(schema, s, e).relaxed.None?
            <==> e.Crash? || (e.PostEpoch? && s.pc.Sending? && s.pc.i >= |s.pc.b.recs|)
  {
    match e
    case Send => assert SendStep(schema, s).relaxed == s.relaxed;
    case Check => assert CheckStep(s).relaxed.Some?;
    case Assemble => assert AssembleStep(schema, s).relaxed == s.relaxed;
    case _ =>
  }
}
