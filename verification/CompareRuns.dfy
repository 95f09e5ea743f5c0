/** The registered compares and the compared seq over whole runs: what registers
    and drops a run, and which reports the compared seq has come from. */
module CompareRuns {
  import opened Rows
  import opened Statements
  import opened Outbox
  import opened Batches
  import opened ForeignKeyOrder
  import opened Replicator
  import opened ReplicatorSafety
  import opened ReplicatorHistory

  // ------------------------------------------------------------ one step

  /** A report recorded here: its run is registered and at most half a day old,
      and a clean one's head is acked. */
  predicate Records(s: State, e: Event) {
    && e.Record? && e.id in s.sync.runs && s.now - s.sync.runs[e.id] <= 0.5
    && (e.clean ==> e.head <= s.sync.acked)
  }

  predicate Registers(s: State, e: Event) { e.Begin? && e.id !in s.sync.heads }

  /** What takes a registered run away: its own abort or record, or another's
      begin when it is more than a day old. */
  predicate Drops(s: State, e: Event, id: nat)
    requires id in s.sync.runs
  {
    || (e.Abort? && e.id == id)
    || (Records(s, e) && e.id == id)
    || (Registers(s, e) && e.id != id && s.now - s.sync.runs[id] > 1.0)
  }

  /** Every other run stays registered with its start, and only a begin adds one. */
  lemma RunsExactly(schema: Schema, s: State, e: Event, id: nat)
    requires SchemaOk(schema) && forall r :: r in s.sync.runs ==> r in s.sync.heads
    ensures var t := Step(schema, s, e);
            && (id in s.sync.runs ==> (id in t.sync.runs <==> !Drops(s, e, id)))
            && (id !in s.sync.runs ==> (id in t.sync.runs <==> Registers(s, e) && e.id == id))
            && (id in t.sync.runs ==>
                  t.sync.runs[id] == if id in s.sync.runs then s.sync.runs[id] else s.now)
  {
    if ReadsBatch(e) || (TouchesD1(e) && !e.Ack?) || e.Foreign? || e.Resume? { QuietStep(schema, s, e); }
  }

  /** The compared seq changes by recorded clean reports alone, to the larger of
      itself and their head. */
  lemma ConsumedExactly(schema: Schema, s: State, e: Event)
    requires SchemaOk(schema)
    ensures Step(schema, s, e).sync.consumed
            == if Records(s, e) && e.clean && e.head > s.sync.consumed then e.head else s.sync.consumed
  {
    if ReadsBatch(e) || (TouchesD1(e) && !e.Ack?) || e.Foreign? || e.Resume? { QuietStep(schema, s, e); }
  }

  // ------------------------------------------------------------ over runs

  /** The n-th event records a clean report with this head. */
  ghost predicate RecordedAt(schema: Schema, s0: State, es: seq<Event>, n: nat, head: nat)
    requires SchemaOk(schema) && n < |es|
  {
    Records(Run(schema, s0, es[..n]), es[n]) && es[n].clean && es[n].head == head
  }

  ghost predicate ConsumedFrom(schema: Schema, s0: State, es: seq<Event>, consumed: nat)
    requires SchemaOk(schema)
  {
    && (consumed == 0 || exists n: nat :: n < |es| && RecordedAt(schema, s0, es, n, consumed))
    && forall n: nat, head: nat :: n < |es| && RecordedAt(schema, s0, es, n, head) ==> head <= consumed
  }

  lemma RecordedSame(schema: Schema, s0: State, es: seq<Event>, e: Event, n: nat, head: nat)
    requires SchemaOk(schema) && n < |es|
    ensures RecordedAt(schema, s0, es + [e], n, head) <==> RecordedAt(schema, s0, es, n, head)
  {
    assert (es + [e])[..n] == es[..n];
  }

  lemma ConsumedStep(schema: Schema, s0: State, es: seq<Event>, e: Event)
    requires SchemaOk(schema) && ConsumedFrom(schema, s0, es, Run(schema, s0, es).sync.consumed)
    ensures ConsumedFrom(schema, s0, es + [e], Step(schema, Run(schema, s0, es), e).sync.consumed)
  {
    var s := Run(schema, s0, es);
    var was, now := s.sync.consumed, Step(schema, s, e).sync.consumed;
    var all := es + [e];
    ConsumedExactly(schema, s, e);
    assert all[..|es|] == es && all[|es|] == e;
    if now != was {
      assert RecordedAt(schema, s0, all, |es|, now);
    } else if was != 0 {
      var n: nat :| n < |es| && RecordedAt(schema, s0, es, n, was);
      RecordedSame(schema, s0, es, e, n, was);
    }
    forall n: nat, head: nat | n < |all| && RecordedAt(schema, s0, all, n, head) ensures head <= now {
      if n < |es| { RecordedSame(schema, s0, es, e, n, head); }
    }
  }

  /** In every reachable state the compared seq is the largest head of a clean
      report recorded so far, or 0 without one. */
  lemma {:induction false} ConsumedIsLargestHead(schema: Schema, s0: State, es: seq<Event>)
    requires SchemaOk(schema) && Init(schema, s0)
    ensures ConsumedFrom(schema, s0, es, Run(schema, s0, es).sync.consumed)
    decreases |es|
  {
    if es != [] {
      var front, e := es[..|es| - 1], es[|es| - 1];
      ConsumedIsLargestHead(schema, s0, front);
      ConsumedStep(schema, s0, front, e);
      assert es == front + [e];
      RunSplit(schema, s0, es, |front|);
      assert es[..|front|] == front && es[|front|..] == [e] && [e][1..] == [];
    }
  }

  /** So a row past every such head is still there, whatever has been acked. */
  lemma UncomparedRowsAreKept(schema: Schema, s0: State, es: seq<Event>, n: nat)
    requires SchemaOk(schema) && Init(schema, s0) && NoForeign(es) && 1 <= n < Run(schema, s0, es).store.next
    requires forall m: nat, head: nat :: m < |es| && RecordedAt(schema, s0, es, m, head) ==> head < n
    ensures HasSeq(Run(schema, s0, es).store.outbox, n)
  {
    ConsumedIsLargestHead(schema, s0, es);
    UnackedRowsAreKept(schema, s0, es, n);
  }
}
