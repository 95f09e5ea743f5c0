/** The log rebuilds the store: replaying what lies behind the cursor into the
    seed gives every key's current row, whatever was appended twice. */
module ReplicaLogSafety {
  import opened Rows
  import opened Statements
  import opened Outbox
  import opened Batches
  import opened ForeignKeyOrder
  import opened Replicator
  import opened ReplicatorSafety
  import opened ReplicaLog

  datatype Pc =
    | Resting
    | Collecting(hi: nat, todo: seq<OutRow>, got: seq<Rec>)
    | Extending(hi: nat, recs: seq<Rec>, i: nat, extra: seq<Rec>)
    | Appended(hi: nat) // the fsync is done, the cursor has not moved

  datatype LogState = LogState(seed: Db, store: Store, cursor: nat, log: seq<LogRec>, now: real, pc: Pc)

  datatype Event =
    | Local(w: Write)
    | Tick(t: real)
    | Start(limit: nat)
    | ReadRow
    | ReadParent
    | Append
    | MoveCursor
    | Crash // and every failure: the process forgets its batch

  function StartStep(s: LogState, limit: nat): LogState {
    var range := WriteRows(s.store.outbox, s.cursor, limit);
    if s.pc != Resting || limit == 0 || range == [] then s
    else s.(pc := Collecting(range[|range| - 1].seq_, Coalesce(range), []))
  }

  function ReadRowStep(s: LogState): LogState {
    if !s.pc.Collecting? then s
    else if |s.pc.got| >= |s.pc.todo| then s.(pc := Extending(s.pc.hi, s.pc.got, 0, []))
    else
      var e := s.pc.todo[|s.pc.got|];
      s.(pc := s.pc.(got := s.pc.got + [Rec(e.seq_, e.key, Get(s.store.rows, e.key))]))
  }

  function ReadParentStep(s: LogState): LogState {
    if !s.pc.Extending? || s.pc.i >= |s.pc.recs| then s
    else
      var step := WithParent(s.pc.recs[s.pc.i], KeysOf(s.pc.recs + s.pc.extra), s.store.rows);
      s.(pc := s.pc.(recs := s.pc.recs[s.pc.i := step.0], i := s.pc.i + 1, extra := s.pc.extra + step.1))
  }

  ghost function AppendStep(schema: Schema, s: LogState): LogState
    requires SchemaOk(schema)
  {
    if !s.pc.Extending? || s.pc.i < |s.pc.recs| then s
    else
      var recs := Order(s.pc.recs + s.pc.extra);
      if !Buildable(recs, schema) then s.(pc := Resting)
      else s.(log := s.log + Lines(recs, schema), pc := Appended(s.pc.hi))
  }

  function MoveStep(s: LogState): LogState {
    if !s.pc.Appended? then s else s.(cursor := s.pc.hi, pc := Resting)
  }

  ghost function Step(schema: Schema, s: LogState, e: Event): LogState
    requires SchemaOk(schema)
  {
    match e
    case Local(w) => if Accepted(schema, s.store, w) then s.(store := Outbox.Apply(s.store, w, s.now)) else s
    case Tick(t) => if t > s.now then s.(now := t) else s
    case Start(limit) => StartStep(s, limit)
    case ReadRow => ReadRowStep(s)
    case ReadParent => ReadParentStep(s)
    case Append => AppendStep(schema, s)
    case MoveCursor => MoveStep(s)
    case Crash => s.(pc := Resting)
  }

  ghost function Run(schema: Schema, s: LogState, es: seq<Event>): LogState
    requires SchemaOk(schema)
    decreases |es|
  {
    if es == [] then s else Run(schema, Step(schema, s, es[0]), es[1..])
  }

  ghost predicate Init(schema: Schema, s: LogState)
    requires SchemaOk(schema)
  {
    && StoreOk(schema, s.store) && s.store.outbox == [] && s.store.next == 1
    && (forall k :: !Excluded(k) ==> Get(s.seed, k) == Get(s.store.rows, k))
    && s.cursor == 0 && s.log == [] && s.pc == Resting
  }

  // ------------------------------------------------------------ the invariant

  /** A row recorded under seq n was read when the outbox already held n: it is
      the key's row still, or the key was enqueued after n. */
  ghost predicate ReadUnder(schema: Schema, st: Store, k: Key, row: Option<Row>, n: int)
    requires SchemaOk(schema)
  {
    && OutboxKeyOk(k) && FreshRow(st, k, row, n)
    && (row.Some? ==> StoredRow(schema, k, row.value))
  }

  ghost predicate LineGood(schema: Schema, st: Store, x: LogRec)
    requires SchemaOk(schema)
  {
    && 0 < x.seq_ < st.next && ReadUnder(schema, st, x.key, x.row, x.seq_)
    && var b := BuildOf(Rec(x.seq_, x.key, x.row), schema);
       b.Ok? && x.index < |b.value| && x.stmt == b.value[x.index]
  }

  /** A pair's lines come together. */
  ghost predicate Paired(xs: seq<LogRec>, x: LogRec) {
    && (x.index > 0 ==> HasId(xs, (x.seq_, x.key, 0)))
    && (x.index == 0 && x.key.tbl == Embeddings && x.row.Some? ==> HasId(xs, (x.seq_, x.key, 1)))
  }

  ghost predicate Logged(xs: seq<LogRec>, e: OutRow, cursor: int) {
    exists i :: 0 <= i < |xs| && xs[i].key == e.key && e.seq_ <= xs[i].seq_ <= cursor
  }

  /** Records that cover the range's rows under seqs no smaller. */
  ghost predicate CoversSeqs(st: Store, lo: int, hi: int, recs: seq<Rec>) {
    forall e :: e in st.outbox && lo < e.seq_ <= hi ==>
      exists i :: 0 <= i < |recs| && recs[i].key == e.key && e.seq_ <= recs[i].seq_
  }

  ghost predicate SeqsIn(recs: seq<Rec>, lo: int, hi: int) {
    forall i :: 0 <= i < |recs| ==> lo < recs[i].seq_ <= hi
  }

  ghost predicate TodoSeqs(st: Store, lo: int, hi: int, todo: seq<OutRow>) {
    && (forall e :: e in todo ==> lo < e.seq_ <= hi)
    && forall e :: e in st.outbox && lo < e.seq_ <= hi ==> Covers(todo, e)
  }

  ghost predicate PcGood(schema: Schema, s: LogState)
    requires SchemaOk(schema)
  {
    match s.pc
    case Resting => true
    case Collecting(hi, todo, got) =>
      && TodoGood(s.store, s.cursor, hi, todo) && GotGood(schema, s.store, s.cursor, hi, todo, got)
      && TodoSeqs(s.store, s.cursor, hi, todo) && forall i :: 0 <= i < |got| ==> got[i].seq_ == todo[i].seq_
    case Extending(hi, recs, i, extra) =>
      && i <= |recs| && AddingGood(schema, s.store, s.cursor, hi, recs, extra)
      && SeqsIn(recs + extra, s.cursor, hi) && CoversSeqs(s.store, s.cursor, hi, recs)
    case Appended(hi) =>
      && s.cursor < hi < s.store.next
      && forall e :: e in s.store.outbox && e.seq_ <= hi ==> Logged(s.log, e, hi)
  }

  ghost predicate LogGood(schema: Schema, st: Store, log: seq<LogRec>)
    requires SchemaOk(schema)
  {
    forall x :: x in log ==> LineGood(schema, st, x) && Paired(log, x)
  }

  ghost predicate SeedGood(seed: Db, st: Store) {
    forall k :: !Excluded(k) ==> FreshRow(st, k, Get(seed, k), 0)
  }

  ghost predicate Inv(schema: Schema, s: LogState)
    requires SchemaOk(schema)
  {
    && StoreOk(schema, s.store) && s.cursor < s.store.next
    && (forall e :: e in s.store.outbox ==> e.seq_ > 0)
    && LogGood(schema, s.store, s.log) && SeedGood(s.seed, s.store)
    && (forall e :: e in s.store.outbox && e.seq_ <= s.cursor ==> Logged(s.log, e, s.cursor))
    && PcGood(schema, s)
  }

  // ------------------------------------------------------------ local writes

  lemma NewRows(st: Store, w: Write, now: real, e: OutRow)
    requires e in Outbox.Apply(st, w, now).outbox
    ensures e in st.outbox || (e.seq_ >= st.next && e in Numbered(Enqueued(st, w), st.next, now))
  {
    var more := Numbered(Enqueued(st, w), st.next, now);
    assert Outbox.Apply(st, w, now).outbox == st.outbox + more;
    if e in more { var i :| 0 <= i < |more| && more[i] == e; }
  }

  lemma LocalLine(schema: Schema, st: Store, w: Write, now: real, x: LogRec)
    requires SchemaOk(schema) && StoreOk(schema, st) && Accepted(schema, st, w) && LineGood(schema, st, x)
    ensures LineGood(schema, Outbox.Apply(st, w, now), x)
  {
    LocalFresh(schema, st, w, now, x.key, x.row, x.seq_);
  }

  lemma LocalSeed(schema: Schema, seed: Db, st: Store, w: Write, now: real)
    requires SchemaOk(schema) && StoreOk(schema, st) && Accepted(schema, st, w) && SeedGood(seed, st) && 0 < st.next
    ensures SeedGood(seed, Outbox.Apply(st, w, now))
  {
    forall k | !Excluded(k) ensures FreshRow(Outbox.Apply(st, w, now), k, Get(seed, k), 0) {
      LocalFresh(schema, st, w, now, k, Get(seed, k), 0);
    }
  }

  lemma LocalPc(schema: Schema, s: LogState, w: Write)
    requires SchemaOk(schema) && Inv(schema, s) && Accepted(schema, s.store, w)
    ensures PcGood(schema, s.(store := Outbox.Apply(s.store, w, s.now)))
  {
    var st, now, c := s.store, s.now, s.cursor;
    var st' := Outbox.Apply(st, w, now);
    forall e | e in st'.outbox && e.seq_ < st.next ensures e in st.outbox { NewRows(st, w, now, e); }
    match s.pc
    case Resting =>
    case Collecting(hi, todo, got) =>
      LocalTodo(st, w, now, c, hi, todo);
      LocalRecs(schema, st, w, now, c, hi, got);
    case Extending(hi, recs, i, extra) =>
      LocalRecs(schema, st, w, now, c, hi, recs + extra);
      LocalRange(st, w, now, c, hi, KeysOf(recs));
    case Appended(hi) =>
  }

  lemma LocalKeeps(schema: Schema, s: LogState, w: Write)
    requires SchemaOk(schema) && Inv(schema, s) && Accepted(schema, s.store, w)
    ensures Inv(schema, s.(store := Outbox.Apply(s.store, w, s.now)))
  {
    var st' := Outbox.Apply(s.store, w, s.now);
    ApplyKeepsStore(schema, s.store, w, s.now);
    forall x | x in s.log ensures LineGood(schema, st', x) { LocalLine(schema, s.store, w, s.now, x); }
    LocalSeed(schema, s.seed, s.store, w, s.now);
    forall e | e in st'.outbox ensures e in s.store.outbox || e.seq_ >= s.store.next {
      NewRows(s.store, w, s.now, e);
    }
    LocalPc(schema, s, w);
  }

  // ------------------------------------------------------------ a cycle

  lemma StartPc(schema: Schema, s: LogState, limit: nat)
    requires SchemaOk(schema) && Inv(schema, s) && StartStep(s, limit) != s
    ensures PcGood(schema, StartStep(s, limit))
  {
    var range := RangeHolds(s.store, s.cursor, limit);
    var hi := range[|range| - 1].seq_;
    WriteTodo(schema, s.store, s.cursor, limit);
    var todo := Coalesce(range);
    forall e | e in todo ensures s.cursor < e.seq_ <= hi {
      FirstLeast(range, e);
    }
    forall e | e in s.store.outbox && s.cursor < e.seq_ <= hi ensures Covers(todo, e) {
      CoalesceCovers(range, e);
    }
  }

  /** All rows read: the records carry the range's own seqs. */
  lemma GotSeqs(st: Store, lo: nat, hi: nat, todo: seq<OutRow>, got: seq<Rec>)
    requires TodoSeqs(st, lo, hi, todo) && |got| == |todo|
    requires forall i :: 0 <= i < |got| ==> got[i].key == todo[i].key && got[i].seq_ == todo[i].seq_
    ensures SeqsIn(got, lo, hi) && CoversSeqs(st, lo, hi, got)
  {
    forall i | 0 <= i < |got| ensures lo < got[i].seq_ <= hi { assert todo[i] in todo; }
    forall e | e in st.outbox && lo < e.seq_ <= hi
      ensures exists i :: 0 <= i < |got| && got[i].key == e.key && e.seq_ <= got[i].seq_
    {
      var j :| 0 <= j < |todo| && todo[j].key == e.key && e.seq_ <= todo[j].seq_;
      assert got[j].key == e.key;
    }
  }

  lemma AllReadPc(schema: Schema, s: LogState)
    requires SchemaOk(schema) && StoreOk(schema, s.store) && PcGood(schema, s) && s.pc.Collecting?
    requires |s.pc.got| >= |s.pc.todo|
    ensures PcGood(schema, ReadRowStep(s))
  {
    var hi, todo, got := s.pc.hi, s.pc.todo, s.pc.got;
    assert got + [] == got;
    assert SeqsIn(got, s.cursor, hi) && CoversSeqs(s.store, s.cursor, hi, got) by {
      GotSeqs(s.store, s.cursor, hi, todo, got);
    }
    GotAll(schema, s.store, s.cursor, hi, todo, got);
  }

  lemma ReadRowPc(schema: Schema, s: LogState)
    requires SchemaOk(schema) && StoreOk(schema, s.store) && PcGood(schema, s) && s.pc.Collecting?
    ensures PcGood(schema, ReadRowStep(s))
  {
    if |s.pc.got| >= |s.pc.todo| {
      AllReadPc(schema, s);
    } else {
      GotOne(schema, s.store, s.cursor, s.pc.hi, s.pc.todo, s.pc.got);
    }
  }

  lemma ReadParentPc(schema: Schema, s: LogState)
    requires SchemaOk(schema) && StoreOk(schema, s.store) && PcGood(schema, s)
    requires s.pc.Extending? && s.pc.i < |s.pc.recs|
    ensures PcGood(schema, ReadParentStep(s))
  {
    var hi, recs, i, extra := s.pc.hi, s.pc.recs, s.pc.i, s.pc.extra;
    ParentStepGood(schema, s.store, s.cursor, hi, recs, i, extra);
    var step := WithParent(recs[i], KeysOf(recs + extra), s.store.rows);
    ParentSeqs(recs, i, extra, step, s.cursor, hi);
    var more := recs[i := step.0];
    forall e | e in s.store.outbox && s.cursor < e.seq_ <= hi
      ensures exists j :: 0 <= j < |more| && more[j].key == e.key && e.seq_ <= more[j].seq_
    {
      var j :| 0 <= j < |recs| && recs[j].key == e.key && e.seq_ <= recs[j].seq_;
      assert more[j].key == e.key;
    }
  }

  lemma ParentSeqs(recs: seq<Rec>, i: nat, extra: seq<Rec>, step: (Rec, seq<Rec>), lo: int, hi: int)
    requires i < |recs| && SeqsIn(recs + extra, lo, hi)
    requires step.0.key == recs[i].key && step.0.seq_ == recs[i].seq_
    requires forall j :: 0 <= j < |step.1| ==> step.1[j].seq_ == recs[i].seq_
    ensures SeqsIn(recs[i := step.0] + (extra + step.1), lo, hi)
  {
    assert (recs + extra)[i] == recs[i];
    var all := recs[i := step.0] + (extra + step.1);
    forall j | 0 <= j < |all| ensures lo < all[j].seq_ <= hi {
      if j < |recs| + |extra| { assert lo < (recs + extra)[j].seq_ <= hi; }
    }
  }

  /** The appended lines are good, come in pairs, and log the whole range. */
  lemma NewLine(schema: Schema, st: Store, cursor: nat, hi: nat, recs: seq<Rec>, x: LogRec)
    requires SchemaOk(schema) && Buildable(recs, schema) && hi < st.next
    requires RecsGood(schema, st, cursor, hi, recs) && SeqsIn(recs, cursor, hi)
    requires x in Lines(recs, schema)
    ensures LineGood(schema, st, x) && Paired(Lines(recs, schema), x)
  {
    LinesFrom(recs, schema);
    var i :| 0 <= i < |recs| && x in LinesOf(recs[i], BuildOf(recs[i], schema).value);
    var sts := BuildOf(recs[i], schema).value;
    var lines := LinesOf(recs[i], sts);
    assert recs[i] in recs;
    RecStatements(schema, recs[i]);
    var j :| 0 <= j < |lines| && lines[j] == x;
    if Pending(st.outbox, x.key, hi) { Weaken(st.outbox, x.key, hi, x.seq_); }
    LinesHave(recs, schema, i, lines[0]);
    MemberHasId(Lines(recs, schema), lines[0]);
    if x.key.tbl == Embeddings && x.row.Some? {
      LinesHave(recs, schema, i, lines[1]);
      MemberHasId(Lines(recs, schema), lines[1]);
    }
  }

  lemma MemberHasId(xs: seq<LogRec>, x: LogRec)
    requires x in xs
    ensures HasId(xs, Id(x))
  {
    var i :| 0 <= i < |xs| && xs[i] == x;
  }

  lemma RangeLogged(schema: Schema, st: Store, cursor: nat, hi: nat, recs: seq<Rec>, e: OutRow)
    requires SchemaOk(schema) && Buildable(recs, schema) && SeqsIn(recs, cursor, hi)
    requires exists i :: 0 <= i < |recs| && recs[i].key == e.key && e.seq_ <= recs[i].seq_
    ensures Logged(Lines(recs, schema), e, hi)
  {
    var i :| 0 <= i < |recs| && recs[i].key == e.key && e.seq_ <= recs[i].seq_;
    RecStatements(schema, recs[i]);
    var lines := LinesOf(recs[i], BuildOf(recs[i], schema).value);
    LinesHave(recs, schema, i, lines[0]);
    var j :| 0 <= j < |Lines(recs, schema)| && Lines(recs, schema)[j] == lines[0];
  }

  lemma HasIdMore(a: seq<LogRec>, b: seq<LogRec>, id: (nat, Key, nat))
    requires HasId(a, id) || HasId(b, id)
    ensures HasId(a + b, id)
  {
    if HasId(a, id) {
      var i :| 0 <= i < |a| && Id(a[i]) == id;
      assert (a + b)[i] == a[i];
    } else {
      var i :| 0 <= i < |b| && Id(b[i]) == id;
      assert (a + b)[|a| + i] == b[i];
    }
  }

  lemma PairedMore(a: seq<LogRec>, b: seq<LogRec>, x: LogRec)
    requires Paired(a, x) || Paired(b, x)
    ensures Paired(a + b, x)
  {
    if Paired(a, x) {
      if x.index > 0 { HasIdMore(a, b, (x.seq_, x.key, 0)); }
      if x.index == 0 && x.key.tbl == Embeddings && x.row.Some? { HasIdMore(a, b, (x.seq_, x.key, 1)); }
    } else {
      if x.index > 0 { HasIdMore(a, b, (x.seq_, x.key, 0)); }
      if x.index == 0 && x.key.tbl == Embeddings && x.row.Some? { HasIdMore(a, b, (x.seq_, x.key, 1)); }
    }
  }

  lemma LoggedMore(a: seq<LogRec>, b: seq<LogRec>, e: OutRow, c: int, c': int)
    requires (Logged(a, e, c) && c <= c') || Logged(b, e, c')
    ensures Logged(a + b, e, c')
  {
    if Logged(b, e, c') {
      var i :| 0 <= i < |b| && b[i].key == e.key && e.seq_ <= b[i].seq_ <= c';
      assert (a + b)[|a| + i] == b[i];
    } else {
      var i :| 0 <= i < |a| && a[i].key == e.key && e.seq_ <= a[i].seq_ <= c;
      assert (a + b)[i] == a[i];
    }
  }

  lemma OrderedRecs(schema: Schema, st: Store, cursor: nat, hi: nat, recs: seq<Rec>, extra: seq<Rec>)
    requires SchemaOk(schema) && AddingGood(schema, st, cursor, hi, recs, extra)
    requires SeqsIn(recs + extra, cursor, hi) && CoversSeqs(st, cursor, hi, recs)
    ensures var o := Order(recs + extra);
            RecsGood(schema, st, cursor, hi, o) && SeqsIn(o, cursor, hi) && CoversSeqs(st, cursor, hi, o)
  {
    var all := recs + extra;
    var o := Order(all);
    OrderMembers(all);
    forall i | 0 <= i < |o| ensures cursor < o[i].seq_ <= hi {
      assert o[i] in all;
      var j :| 0 <= j < |all| && all[j] == o[i];
    }
    forall e | e in st.outbox && cursor < e.seq_ <= hi
      ensures exists i :: 0 <= i < |o| && o[i].key == e.key && e.seq_ <= o[i].seq_
    {
      var j :| 0 <= j < |recs| && recs[j].key == e.key && e.seq_ <= recs[j].seq_;
      assert all[j] in o;
      var i :| 0 <= i < |o| && o[i] == all[j];
    }
  }

  lemma AppendedLines(schema: Schema, st: Store, cursor: nat, hi: nat, log: seq<LogRec>, o: seq<Rec>)
    requires SchemaOk(schema) && LogGood(schema, st, log) && Buildable(o, schema) && hi < st.next
    requires RecsGood(schema, st, cursor, hi, o) && SeqsIn(o, cursor, hi)
    ensures LogGood(schema, st, log + Lines(o, schema))
  {
    var more := Lines(o, schema);
    forall x | x in log + more ensures LineGood(schema, st, x) && Paired(log + more, x) {
      if x in more { NewLine(schema, st, cursor, hi, o, x); }
      PairedMore(log, more, x);
    }
  }

  lemma AppendKeeps(schema: Schema, s: LogState)
    requires SchemaOk(schema) && Inv(schema, s)
    ensures Inv(schema, AppendStep(schema, s))
  {
    if s.pc.Extending? && s.pc.i >= |s.pc.recs| {
      var o, hi := Order(s.pc.recs + s.pc.extra), s.pc.hi;
      OrderedRecs(schema, s.store, s.cursor, hi, s.pc.recs, s.pc.extra);
      if Buildable(o, schema) {
        var more := Lines(o, schema);
        AppendedLines(schema, s.store, s.cursor, hi, s.log, o);
        forall e | e in s.store.outbox && e.seq_ <= hi
          ensures Logged(s.log + more, e, hi) && (e.seq_ <= s.cursor ==> Logged(s.log + more, e, s.cursor))
        {
          if e.seq_ <= s.cursor {
            LoggedMore(s.log, more, e, s.cursor, s.cursor);
            LoggedMore(s.log, more, e, s.cursor, hi);
          } else {
            RangeLogged(schema, s.store, s.cursor, hi, o, e);
            LoggedMore(s.log, more, e, s.cursor, hi);
          }
        }
      }
    }
  }

  lemma StepKeepsInv(schema: Schema, s: LogState, e: Event)
    requires SchemaOk(schema) && Inv(schema, s)
    ensures Inv(schema, Step(schema, s, e))
  {
    match e
    case Local(w) => if Accepted(schema, s.store, w) { LocalKeeps(schema, s, w); }
    case Tick(t) =>
    case Start(limit) => if StartStep(s, limit) != s { StartPc(schema, s, limit); }
    case ReadRow => if s.pc.Collecting? { ReadRowPc(schema, s); }
    case ReadParent => if s.pc.Extending? && s.pc.i < |s.pc.recs| { ReadParentPc(schema, s); }
    case Append => AppendKeeps(schema, s);
    case MoveCursor =>
    case Crash =>
  }

  lemma {:induction false} RunKeepsInv(schema: Schema, s: LogState, es: seq<Event>)
    requires SchemaOk(schema) && Inv(schema, s)
    ensures Inv(schema, Run(schema, s, es))
    decreases |es|
  {
    if es != [] {
      StepKeepsInv(schema, s, es[0]);
      RunKeepsInv(schema, Step(schema, s, es[0]), es[1..]);
    }
  }
}
