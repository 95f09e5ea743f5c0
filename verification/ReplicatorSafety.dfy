/** The replicator's safety: whatever D1 has not got is still in the outbox. */
module ReplicatorSafety {
  import opened Rows
  import opened Statements
  import opened Outbox
  import opened Batches
  import opened ForeignKeyOrder
  import opened Replicator

  // ------------------------------------------------------------ the invariant

  /** The key's rows agree, or the outbox still holds it past c. */
  ghost predicate Covered(st: Store, d1: D1, k: Key, c: int) {
    SameRow(Get(st.rows, k), Get(d1.rows, k)) || Pending(st.outbox, k, c)
  }

  /** The central property, with c the last acked seq. */
  ghost predicate Replicated(st: Store, d1: D1, c: int) {
    forall k :: !Excluded(k) ==> Covered(st, d1, k, c)
  }

  /** A row read for key k is still the key's row, or the key has been enqueued
      since, past hi. */
  ghost predicate FreshRow(st: Store, k: Key, row: Option<Row>, hi: int) {
    Get(st.rows, k) == row || Pending(st.outbox, k, hi)
  }

  /** A memories row read as absent had no children then. */
  ghost predicate FreshChildren(st: Store, k: Key, row: Option<Row>, hi: int) {
    row.None? ==> forall c :: c in Children(k) ==> FreshRow(st, c, None, hi)
  }

  ghost predicate RecGood(schema: Schema, st: Store, acked: int, hi: int, r: Rec)
    requires SchemaOk(schema)
  {
    && OutboxKeyOk(r.key)
    && FreshRow(st, r.key, r.row, hi) && FreshChildren(st, r.key, r.row, hi)
    && (r.row.Some? ==> StoredRow(schema, r.key, r.row.value))
    && (Pending(st.outbox, r.key, acked) || (r.key.tbl == Memories && r.row.Some?))
  }

  ghost predicate RecsGood(schema: Schema, st: Store, acked: int, hi: int, recs: seq<Rec>)
    requires SchemaOk(schema)
  {
    forall r :: r in recs ==> RecGood(schema, st, acked, hi, r)
  }

  /** Every outbox row of the range has its key among ks. */
  ghost predicate CoversRange(st: Store, acked: int, hi: int, ks: set<Key>) {
    forall i :: 0 <= i < |st.outbox| && acked < st.outbox[i].seq_ <= hi ==> st.outbox[i].key in ks
  }

  ghost predicate BatchGood(schema: Schema, st: Store, acked: int, b: Batch)
    requires SchemaOk(schema)
  {
    && acked < b.hi < st.next
    && RecsGood(schema, st, acked, b.hi, b.recs) && UniqueKeys(b.recs)
    && CoversRange(st, acked, b.hi, KeysOf(b.recs))
    && Buildable(b.recs, schema)
  }

  ghost predicate DoneUpTo(st: Store, d1: D1, b: Batch, n: nat) {
    n <= |b.recs| && forall i :: 0 <= i < n ==> Covered(st, d1, b.recs[i].key, b.hi)
  }

  ghost predicate TodoGood(st: Store, acked: int, hi: int, todo: seq<OutRow>) {
    && acked < hi < st.next && DistinctKeys(todo)
    && CoversRange(st, acked, hi, set i | 0 <= i < |todo| :: todo[i].key)
    && forall e :: e in todo ==> OutboxKeyOk(e.key) && Pending(st.outbox, e.key, acked)
  }

  ghost predicate GotGood(schema: Schema, st: Store, acked: int, hi: int, todo: seq<OutRow>, got: seq<Rec>)
    requires SchemaOk(schema)
  {
    && |got| <= |todo|
    && (forall i :: 0 <= i < |got| ==> got[i].key == todo[i].key)
    && RecsGood(schema, st, acked, hi, got)
  }

  ghost predicate AddingGood(schema: Schema, st: Store, acked: int, hi: int, recs: seq<Rec>, extra: seq<Rec>)
    requires SchemaOk(schema)
  {
    && acked < hi < st.next
    && RecsGood(schema, st, acked, hi, recs + extra) && UniqueKeys(recs + extra)
    && CoversRange(st, acked, hi, KeysOf(recs))
  }

  /** The marker of an unresolved batch names its whole range, which a
      reconcile reads without a cut. */
  ghost predicate MarkerGood(st: Store, sync: Sync, lo: nat, hi: nat) {
    && sync.acked < hi < st.next && sync.acked < lo
    && (forall e :: e in st.outbox && sync.acked < e.seq_ <= hi ==> lo <= e.seq_)
    && |Select(st.outbox, sync.acked, Some(hi))| <= MAX_BATCH_ROWS
  }

  ghost predicate InflightIs(sync: Sync, hi: nat) {
    sync.inflight.Some? && sync.inflight.value.hi == hi
  }

  ghost predicate PcGood(schema: Schema, s: State)
    requires SchemaOk(schema)
  {
    match s.pc
    case Idle => true
    case Reading(p, lo, hi, todo, got) =>
      && TodoGood(s.store, s.sync.acked, hi, todo) && GotGood(schema, s.store, s.sync.acked, hi, todo, got)
      && (if p == ForWrite then MarkerGood(s.store, s.sync, lo, hi) && s.sync.inflight.None?
          else InflightIs(s.sync, hi))
    case Adding(p, lo, hi, recs, i, extra) =>
      && i <= |recs| && AddingGood(schema, s.store, s.sync.acked, hi, recs, extra)
      && (if p == ForWrite then MarkerGood(s.store, s.sync, lo, hi) && s.sync.inflight.None?
          else InflightIs(s.sync, hi))
    case Prepared(b) =>
      BatchGood(schema, s.store, s.sync.acked, b) && MarkerGood(s.store, s.sync, b.lo, b.hi) && s.sync.inflight.None?
    case Marked(b) =>
      BatchGood(schema, s.store, s.sync.acked, b) && InflightIs(s.sync, b.hi)
    case Sending(b, i, j) =>
      && BatchGood(schema, s.store, s.sync.acked, b) && InflightIs(s.sync, b.hi)
      && DoneUpTo(s.store, s.d1, b, i)
      && (j > 0 ==> i < |b.recs| && j == 1 && b.recs[i].key.tbl == Embeddings && b.recs[i].row.Some?
                    && b.recs[i].key !in s.d1.rows)
    case Checking(b, i) =>
      && BatchGood(schema, s.store, s.sync.acked, b) && InflightIs(s.sync, b.hi)
      && DoneUpTo(s.store, s.d1, b, i)
    case Sent(b, post) =>
      && BatchGood(schema, s.store, s.sync.acked, b) && InflightIs(s.sync, b.hi)
      && DoneUpTo(s.store, s.d1, b, |b.recs|)
  }

  ghost predicate SyncGood(s: State) {
    && s.sync.consumed <= s.sync.acked < s.store.next
    && (s.sync.inflight.Some? ==> MarkerGood(s.store, s.sync, s.sync.inflight.value.lo, s.sync.inflight.value.hi))
  }

  ghost predicate Inv(schema: Schema, s: State)
    requires SchemaOk(schema)
  {
    && StoreOk(schema, s.store) && FkOk(s.d1.rows)
    && Replicated(s.store, s.d1, s.sync.acked)
    && SyncGood(s) && PcGood(schema, s)
  }

  // ------------------------------------------------------------ local writes

  lemma LocalFresh(schema: Schema, st: Store, w: Write, now: real, k: Key, row: Option<Row>, hi: int)
    requires SchemaOk(schema) && StoreOk(schema, st) && Accepted(schema, st, w) && !Excluded(k) && hi < st.next
    requires FreshRow(st, k, row, hi)
    ensures FreshRow(Outbox.Apply(st, w, now), k, row, hi)
  {
    TriggersRecordEveryChange(schema, st, w, now, k);
    var st' := Outbox.Apply(st, w, now);
    if Pending(st.outbox, k, hi) {
      PendingGrows(st, w, now, k, hi);
    } else if Get(st'.rows, k) != Get(st.rows, k) {
      Weaken(st'.outbox, k, st.next - 1, hi);
    }
  }

  lemma Weaken(outbox: seq<OutRow>, k: Key, c: int, c': int)
    requires Pending(outbox, k, c) && c' <= c
    ensures Pending(outbox, k, c')
  {}

  lemma LocalCovered(schema: Schema, st: Store, w: Write, now: real, d1: D1, k: Key, c: int)
    requires SchemaOk(schema) && StoreOk(schema, st) && Accepted(schema, st, w) && !Excluded(k) && c < st.next
    requires Covered(st, d1, k, c)
    ensures Covered(Outbox.Apply(st, w, now), d1, k, c)
  {
    LocalFresh(schema, st, w, now, k, Get(st.rows, k), c);
    if Pending(st.outbox, k, c) { PendingGrows(st, w, now, k, c); }
  }

  lemma LocalRec(schema: Schema, st: Store, w: Write, now: real, acked: int, hi: int, r: Rec)
    requires SchemaOk(schema) && StoreOk(schema, st) && Accepted(schema, st, w) && hi < st.next
    requires RecGood(schema, st, acked, hi, r)
    ensures RecGood(schema, Outbox.Apply(st, w, now), acked, hi, r)
  {
    LocalFresh(schema, st, w, now, r.key, r.row, hi);
    if r.row.None? {
      forall c | c in Children(r.key) ensures FreshRow(Outbox.Apply(st, w, now), c, None, hi) {
        LocalFresh(schema, st, w, now, c, None, hi);
      }
    }
    if Pending(st.outbox, r.key, acked) { PendingGrows(st, w, now, r.key, acked); }
  }

  lemma LocalRecs(schema: Schema, st: Store, w: Write, now: real, acked: int, hi: int, recs: seq<Rec>)
    requires SchemaOk(schema) && StoreOk(schema, st) && Accepted(schema, st, w) && hi < st.next
    requires RecsGood(schema, st, acked, hi, recs)
    ensures RecsGood(schema, Outbox.Apply(st, w, now), acked, hi, recs)
  {
    forall r | r in recs ensures RecGood(schema, Outbox.Apply(st, w, now), acked, hi, r) {
      LocalRec(schema, st, w, now, acked, hi, r);
    }
  }

  lemma LocalRange(st: Store, w: Write, now: real, acked: int, hi: int, ks: set<Key>)
    requires CoversRange(st, acked, hi, ks) && hi < st.next
    ensures CoversRange(Outbox.Apply(st, w, now), acked, hi, ks)
  {
    var st' := Outbox.Apply(st, w, now);
    var more := Numbered(Enqueued(st, w), st.next, now);
    forall i | 0 <= i < |st'.outbox| && acked < st'.outbox[i].seq_ <= hi ensures st'.outbox[i].key in ks {
      assert st'.outbox == st.outbox + more;
    }
  }

  lemma {:induction false} SelectNone(b: seq<OutRow>, lo: int, hi: nat)
    requires forall i :: 0 <= i < |b| ==> b[i].seq_ > hi
    ensures Select(b, lo, Some(hi)) == []
  {
    if b != [] { SelectNone(b[1..], lo, hi); }
  }

  lemma {:induction false} SelectAppend(a: seq<OutRow>, b: seq<OutRow>, lo: int, hi: nat)
    requires forall i :: 0 <= i < |b| ==> b[i].seq_ > hi
    ensures Select(a + b, lo, Some(hi)) == Select(a, lo, Some(hi))
  {
    if a == [] {
      assert a + b == b;
      SelectNone(b, lo, hi);
    } else {
      assert (a + b)[1..] == a[1..] + b;
      SelectAppend(a[1..], b, lo, hi);
    }
  }

  lemma LocalMarker(st: Store, w: Write, now: real, sync: Sync, lo: nat, hi: nat)
    requires MarkerGood(st, sync, lo, hi)
    ensures MarkerGood(Outbox.Apply(st, w, now), sync, lo, hi)
  {
    var more := Numbered(Enqueued(st, w), st.next, now);
    SelectAppend(st.outbox, more, sync.acked, hi);
  }

  lemma LocalTodo(st: Store, w: Write, now: real, acked: int, hi: int, todo: seq<OutRow>)
    requires TodoGood(st, acked, hi, todo)
    ensures TodoGood(Outbox.Apply(st, w, now), acked, hi, todo)
  {
    LocalRange(st, w, now, acked, hi, set i | 0 <= i < |todo| :: todo[i].key);
    forall e | e in todo ensures Pending(Outbox.Apply(st, w, now).outbox, e.key, acked) {
      PendingGrows(st, w, now, e.key, acked);
    }
  }

  lemma LocalBatch(schema: Schema, st: Store, w: Write, now: real, acked: int, b: Batch)
    requires SchemaOk(schema) && StoreOk(schema, st) && Accepted(schema, st, w)
    requires BatchGood(schema, st, acked, b)
    ensures BatchGood(schema, Outbox.Apply(st, w, now), acked, b)
  {
    LocalRecs(schema, st, w, now, acked, b.hi, b.recs);
    LocalRange(st, w, now, acked, b.hi, KeysOf(b.recs));
  }

  lemma LocalDone(schema: Schema, st: Store, w: Write, now: real, d1: D1, b: Batch, n: nat, acked: int)
    requires SchemaOk(schema) && StoreOk(schema, st) && Accepted(schema, st, w)
    requires BatchGood(schema, st, acked, b) && DoneUpTo(st, d1, b, n)
    ensures DoneUpTo(Outbox.Apply(st, w, now), d1, b, n)
  {
    forall i | 0 <= i < n ensures Covered(Outbox.Apply(st, w, now), d1, b.recs[i].key, b.hi) {
      assert b.recs[i] in b.recs;
      LocalCovered(schema, st, w, now, d1, b.recs[i].key, b.hi);
    }
  }

  lemma LocalPc(schema: Schema, s: State, w: Write)
    requires SchemaOk(schema) && Inv(schema, s) && Accepted(schema, s.store, w)
    ensures PcGood(schema, s.(store := Outbox.Apply(s.store, w, s.now)))
  {
    var st, now, acked := s.store, s.now, s.sync.acked;
    match s.pc
    case Idle =>
    case Reading(p, lo, hi, todo, got) =>
      LocalTodo(st, w, now, acked, hi, todo);
      LocalRecs(schema, st, w, now, acked, hi, got);
      if p == ForWrite { LocalMarker(st, w, now, s.sync, lo, hi); }
    case Adding(p, lo, hi, recs, i, extra) =>
      LocalRecs(schema, st, w, now, acked, hi, recs + extra);
      LocalRange(st, w, now, acked, hi, KeysOf(recs));
      if p == ForWrite { LocalMarker(st, w, now, s.sync, lo, hi); }
    case Prepared(b) =>
      LocalBatch(schema, st, w, now, acked, b);
      LocalMarker(st, w, now, s.sync, b.lo, b.hi);
    case Marked(b) =>
      LocalBatch(schema, st, w, now, acked, b);
    case Sending(b, i, j) =>
      LocalBatch(schema, st, w, now, acked, b);
      LocalDone(schema, st, w, now, s.d1, b, i, acked);
    case Checking(b, i) =>
      LocalBatch(schema, st, w, now, acked, b);
      LocalDone(schema, st, w, now, s.d1, b, i, acked);
    case Sent(b, post) =>
      LocalBatch(schema, st, w, now, acked, b);
      LocalDone(schema, st, w, now, s.d1, b, |b.recs|, acked);
  }

  lemma LocalKeeps(schema: Schema, s: State, w: Write)
    requires SchemaOk(schema) && Inv(schema, s) && Accepted(schema, s.store, w)
    ensures Inv(schema, s.(store := Outbox.Apply(s.store, w, s.now)))
  {
    var st' := Outbox.Apply(s.store, w, s.now);
    ApplyKeepsStore(schema, s.store, w, s.now);
    forall k | !Excluded(k) ensures Covered(st', s.d1, k, s.sync.acked) {
      LocalCovered(schema, s.store, w, s.now, s.d1, k, s.sync.acked);
    }
    if s.sync.inflight.Some? {
      LocalMarker(s.store, w, s.now, s.sync, s.sync.inflight.value.lo, s.sync.inflight.value.hi);
    }
    LocalPc(schema, s, w);
  }

  // ------------------------------------------------------------ reading a batch

  lemma {:induction false} SelectAscending(outbox: seq<OutRow>, lo: int, hi: Option<nat>)
    requires Ascending(outbox)
    ensures Ascending(Select(outbox, lo, hi))
  {
    if outbox != [] {
      assert Ascending(outbox[1..]);
      SelectAscending(outbox[1..], lo, hi);
      SelectMembers(outbox[1..], lo, hi);
      var rest := Select(outbox[1..], lo, hi);
      forall i | 0 <= i < |rest| ensures outbox[0].seq_ < rest[i].seq_ {
        AfterFirst(outbox, rest[i]);
      }
      ConsAscending(outbox[0], rest);
    }
  }

  lemma ConsAscending(e: OutRow, rest: seq<OutRow>)
    requires Ascending(rest) && forall i :: 0 <= i < |rest| ==> e.seq_ < rest[i].seq_
    ensures Ascending([e] + rest)
  {}

  lemma AfterFirst(outbox: seq<OutRow>, e: OutRow)
    requires outbox != [] && Ascending(outbox) && e in outbox[1..]
    ensures outbox[0].seq_ < e.seq_
  {
    var j :| 0 <= j < |outbox[1..]| && outbox[1..][j] == e;
    assert outbox[j + 1] == e;
  }

  lemma TakeAscending(rows: seq<OutRow>, limit: nat, e: OutRow)
    requires Ascending(rows) && Take(rows, limit) != [] && e in rows
    requires e.seq_ <= Take(rows, limit)[|Take(rows, limit)| - 1].seq_
    ensures e in Take(rows, limit)
  {
    var i :| 0 <= i < |rows| && rows[i] == e;
    if i >= limit && |rows| > limit { assert rows[limit - 1].seq_ < rows[i].seq_; }
  }

  /** The coalesced range is fit to be read. */
  lemma RangeTodo(schema: Schema, st: Store, acked: int, hi: nat, range: seq<OutRow>)
    requires SchemaOk(schema) && StoreOk(schema, st)
    requires IsRange(st, acked, hi, range) && acked < hi < st.next
    ensures TodoGood(st, acked, hi, Coalesce(range))
  {
    var todo := Coalesce(range);
    CoalesceOrdered(range);
    forall i | 0 <= i < |st.outbox| && acked < st.outbox[i].seq_ <= hi
      ensures st.outbox[i].key in (set j | 0 <= j < |todo| :: todo[j].key)
    {
      CoalesceCovers(range, st.outbox[i]);
      var j :| 0 <= j < |todo| && todo[j].key == st.outbox[i].key;
    }
    forall e | e in todo ensures OutboxKeyOk(e.key) && Pending(st.outbox, e.key, acked) {
      assert e in range;
      var i :| 0 <= i < |st.outbox| && st.outbox[i] == e;
    }
  }

  lemma {:induction false} SelectTwice(outbox: seq<OutRow>, lo: int, hi: nat)
    ensures Select(outbox, lo, Some(hi)) == Select(Select(outbox, lo, None), lo, Some(hi))
  {
    if outbox != [] {
      SelectTwice(outbox[1..], lo, hi);
      var rest := Select(outbox[1..], lo, None);
      if outbox[0].seq_ > lo { assert ([outbox[0]] + rest)[1..] == rest; }
    }
  }

  /** A range cut at its limit-th row holds no more rows than the limit. */
  lemma RangeBounded(outbox: seq<OutRow>, lo: int, m: nat)
    requires Ascending(outbox) && 0 < m <= |Select(outbox, lo, None)|
    ensures |Select(outbox, lo, Some(Select(outbox, lo, None)[m - 1].seq_))| <= m
  {
    var all := Select(outbox, lo, None);
    var hi := all[m - 1].seq_;
    SelectAscending(outbox, lo, None);
    SelectTwice(outbox, lo, hi);
    var a, b := all[..m], all[m..];
    assert all == a + b;
    assert forall i :: 0 <= i < |b| ==> b[i] == all[m + i];
    SelectAppend(a, b, lo, hi);
  }

  lemma FirstLeast(range: seq<OutRow>, e: OutRow)
    requires Ascending(range) && e in range
    ensures range[0].seq_ <= e.seq_ <= range[|range| - 1].seq_
  {}

  ghost predicate IsRange(st: Store, acked: int, hi: nat, range: seq<OutRow>) {
    && Ascending(range)
    && (forall e :: e in range ==> e in st.outbox && acked < e.seq_)
    && (forall e :: e in st.outbox && acked < e.seq_ <= hi ==> e in range)
  }

  lemma PrefixIsRange(st: Store, acked: int, all: seq<OutRow>, limit: nat)
    requires Ascending(all) && Take(all, limit) != []
    requires forall e :: e in all <==> e in st.outbox && acked < e.seq_
    ensures IsRange(st, acked, Take(all, limit)[|Take(all, limit)| - 1].seq_, Take(all, limit))
  {
    var range := Take(all, limit);
    forall e | e in range ensures e in all {}
    forall e | e in all && e.seq_ <= range[|range| - 1].seq_ ensures e in range {
      TakeAscending(all, limit, e);
    }
  }

  lemma RangeHolds(st: Store, acked: nat, limit: nat) returns (range: seq<OutRow>)
    requires Ordered(st.outbox, st.next) && WriteRows(st.outbox, acked, limit) != []
    ensures range == WriteRows(st.outbox, acked, limit)
    ensures IsRange(st, acked, range[|range| - 1].seq_, range)
  {
    SelectAscending(st.outbox, acked, None);
    SelectMembers(st.outbox, acked, None);
    PrefixIsRange(st, acked, Select(st.outbox, acked, None), limit);
    range := WriteRows(st.outbox, acked, limit);
  }

  lemma RangeEnds(st: Store, acked: int, hi: nat, range: seq<OutRow>)
    requires Ordered(st.outbox, st.next) && IsRange(st, acked, hi, range) && range != []
    ensures acked < range[0].seq_ && acked < range[|range| - 1].seq_ < st.next
    ensures forall e :: e in st.outbox && acked < e.seq_ <= hi ==> range[0].seq_ <= e.seq_
  {
    assert range[|range| - 1] in range && range[0] in range;
    forall e | e in st.outbox && acked < e.seq_ <= hi ensures range[0].seq_ <= e.seq_ {
      FirstLeast(range, e);
    }
  }

  lemma WriteMarker(st: Store, sync: Sync, limit: nat)
    requires Ordered(st.outbox, st.next) && 1 <= limit <= MAX_BATCH_ROWS
    requires WriteRows(st.outbox, sync.acked, limit) != []
    ensures var range := WriteRows(st.outbox, sync.acked, limit);
            MarkerGood(st, sync, range[0].seq_, range[|range| - 1].seq_)
  {
    var range := RangeHolds(st, sync.acked, limit);
    RangeBounded(st.outbox, sync.acked, |range|);
    MarkerOfRange(st, sync, range);
  }

  lemma MarkerOfRange(st: Store, sync: Sync, range: seq<OutRow>)
    requires Ordered(st.outbox, st.next) && range != [] && IsRange(st, sync.acked, range[|range| - 1].seq_, range)
    requires |Select(st.outbox, sync.acked, Some(range[|range| - 1].seq_))| <= MAX_BATCH_ROWS
    ensures MarkerGood(st, sync, range[0].seq_, range[|range| - 1].seq_)
  {
    RangeEnds(st, sync.acked, range[|range| - 1].seq_, range);
  }

  lemma WriteTodo(schema: Schema, st: Store, acked: nat, limit: nat)
    requires SchemaOk(schema) && StoreOk(schema, st) && WriteRows(st.outbox, acked, limit) != []
    ensures var range := WriteRows(st.outbox, acked, limit);
            TodoGood(st, acked, range[|range| - 1].seq_, Coalesce(range))
  {
    var range := RangeHolds(st, acked, limit);
    RangeEnds(st, acked, range[|range| - 1].seq_, range);
    RangeTodo(schema, st, acked, range[|range| - 1].seq_, range);
  }

  lemma StartWritePc(schema: Schema, s: State, limit: nat)
    requires SchemaOk(schema) && StoreOk(schema, s.store)
    requires StartWriteStep(s, limit) != s
    ensures PcGood(schema, StartWriteStep(s, limit))
  {
    WriteMarker(s.store, s.sync, limit);
    WriteTodo(schema, s.store, s.sync.acked, limit);
    var range := WriteRows(s.store.outbox, s.sync.acked, limit);
    NothingRead(schema, s, ForWrite, range[0].seq_, range[|range| - 1].seq_, Coalesce(range));
  }

  lemma {:induction false} SelectWider(outbox: seq<OutRow>, lo: int, lo': int, hi: nat)
    requires forall e :: e in outbox && lo < e.seq_ <= hi ==> lo' < e.seq_
    requires lo <= lo'
    ensures Select(outbox, lo', Some(hi)) == Select(outbox, lo, Some(hi))
  {
    if outbox != [] {
      SelectWider(outbox[1..], lo, lo', hi);
    }
  }

  lemma ReconcileWhole(st: Store, sync: Sync, m: Marker)
    requires MarkerGood(st, sync, m.lo, m.hi) && Ascending(st.outbox)
    ensures IsRange(st, sync.acked, m.hi, ReconcileRows(st.outbox, m))
  {
    SelectWider(st.outbox, sync.acked, m.lo - 1, m.hi);
    SelectAscending(st.outbox, m.lo - 1, Some(m.hi));
    SelectMembers(st.outbox, m.lo - 1, Some(m.hi));
  }

  lemma ReconcileTodo(schema: Schema, st: Store, sync: Sync, m: Marker)
    requires SchemaOk(schema) && StoreOk(schema, st) && MarkerGood(st, sync, m.lo, m.hi)
    ensures TodoGood(st, sync.acked, m.hi, Coalesce(ReconcileRows(st.outbox, m)))
    ensures ReconcileRows(st.outbox, m) == [] ==> CoversRange(st, sync.acked, m.hi, {})
  {
    ReconcileWhole(st, sync, m);
    RangeTodo(schema, st, sync.acked, m.hi, ReconcileRows(st.outbox, m));
    if ReconcileRows(st.outbox, m) == [] { NoRange(st, sync.acked, m.hi); }
  }

  lemma NoRange(st: Store, acked: int, hi: nat)
    requires IsRange(st, acked, hi, [])
    ensures CoversRange(st, acked, hi, {})
  {
    forall i | 0 <= i < |st.outbox| && acked < st.outbox[i].seq_ <= hi ensures st.outbox[i] in [] {}
  }

  /** Steps that only move the program counter. */
  lemma OnlyPc(schema: Schema, s: State, pc: Pc)
    requires SchemaOk(schema) && Inv(schema, s) && PcGood(schema, s.(pc := pc))
    ensures Inv(schema, s.(pc := pc))
  {}

  lemma StartReconcilePc(schema: Schema, s: State)
    requires SchemaOk(schema) && StoreOk(schema, s.store) && SyncGood(s)
    requires StartReconcileStep(s) != s
    ensures PcGood(schema, StartReconcileStep(s))
  {
    var m := s.sync.inflight.value;
    ReconcileTodo(schema, s.store, s.sync, m);
    var all := ReconcileRows(s.store.outbox, m);
    if all == [] {
      NothingToCheck(schema, s, m.lo, m.hi);
    } else {
      NothingRead(schema, s, ForReconcile, m.lo, m.hi, Coalesce(all));
    }
  }

  lemma NothingRead(schema: Schema, s: State, p: Purpose, lo: nat, hi: nat, todo: seq<OutRow>)
    requires SchemaOk(schema) && TodoGood(s.store, s.sync.acked, hi, todo)
    requires if p == ForWrite then MarkerGood(s.store, s.sync, lo, hi) && s.sync.inflight.None?
             else InflightIs(s.sync, hi)
    ensures PcGood(schema, s.(pc := Reading(p, lo, hi, todo, [])))
  {}

  lemma NothingToCheck(schema: Schema, s: State, lo: nat, hi: nat)
    requires SchemaOk(schema) && InflightIs(s.sync, hi) && s.sync.acked < hi < s.store.next
    requires CoversRange(s.store, s.sync.acked, hi, {})
    ensures PcGood(schema, s.(pc := Checking(Batch(lo, hi, []), 0)))
  {
    assert KeysOf([]) == {};
  }

  lemma ReadRowPc(schema: Schema, s: State)
    requires SchemaOk(schema) && StoreOk(schema, s.store) && PcGood(schema, s) && s.pc.Reading?
    ensures PcGood(schema, ReadRowStep(s))
  {
    var pc := s.pc;
    if |pc.got| >= |pc.todo| {
      GotAll(schema, s.store, s.sync.acked, pc.hi, pc.todo, pc.got);
    } else {
      GotOne(schema, s.store, s.sync.acked, pc.hi, pc.todo, pc.got);
    }
  }

  lemma GotOne(schema: Schema, st: Store, acked: int, hi: int, todo: seq<OutRow>, got: seq<Rec>)
    requires SchemaOk(schema) && StoreOk(schema, st)
    requires TodoGood(st, acked, hi, todo) && GotGood(schema, st, acked, hi, todo, got) && |got| < |todo|
    ensures var e := todo[|got|];
            GotGood(schema, st, acked, hi, todo, got + [Rec(e.seq_, e.key, Get(st.rows, e.key))])
  {
    var e := todo[|got|];
    assert e in todo;
    CurrentRec(schema, st, acked, hi, e);
  }

  lemma CurrentRec(schema: Schema, st: Store, acked: int, hi: int, e: OutRow)
    requires SchemaOk(schema) && StoreOk(schema, st) && OutboxKeyOk(e.key) && Pending(st.outbox, e.key, acked)
    ensures RecGood(schema, st, acked, hi, Rec(e.seq_, e.key, Get(st.rows, e.key)))
  {
    if e.key !in st.rows { NoChildren(st.rows, e.key); }
  }

  lemma NoChildren(rows: Db, k: Key)
    requires FkOk(rows) && k !in rows
    ensures forall c :: c in Children(k) ==> c !in rows
  {
    forall c | c in Children(k) ensures c !in rows {
      assert Parent(c) == Some(k);
    }
  }

  lemma GotAll(schema: Schema, st: Store, acked: int, hi: int, todo: seq<OutRow>, got: seq<Rec>)
    requires SchemaOk(schema) && TodoGood(st, acked, hi, todo) && GotGood(schema, st, acked, hi, todo, got)
    requires |got| == |todo|
    ensures AddingGood(schema, st, acked, hi, got, [])
  {
    assert got + [] == got;
    forall k | k in (set i | 0 <= i < |todo| :: todo[i].key) ensures k in KeysOf(got) {
      var i :| 0 <= i < |todo| && todo[i].key == k;
      assert got[i].key == k;
    }
  }

  lemma ReadParentPc(schema: Schema, s: State)
    requires SchemaOk(schema) && StoreOk(schema, s.store) && PcGood(schema, s)
    requires s.pc.Adding? && s.pc.i < |s.pc.recs|
    ensures PcGood(schema, ReadParentStep(s))
  {
    ParentStepGood(schema, s.store, s.sync.acked, s.pc.hi, s.pc.recs, s.pc.i, s.pc.extra);
  }

  lemma ParentStepGood(schema: Schema, st: Store, acked: int, hi: int, recs: seq<Rec>, i: nat, extra: seq<Rec>)
    requires SchemaOk(schema) && StoreOk(schema, st) && i < |recs|
    requires AddingGood(schema, st, acked, hi, recs, extra)
    ensures var step := WithParent(recs[i], KeysOf(recs + extra), st.rows);
            AddingGood(schema, st, acked, hi, recs[i := step.0], extra + step.1)
  {
    var r := recs[i];
    var all := recs + extra;
    assert all[i] == r;
    var step := WithParent(r, KeysOf(all), st.rows);
    var all' := recs[i := step.0] + (extra + step.1);
    assert all' == all[i := step.0] + step.1;
    StepRecGood(schema, st, acked, hi, r, KeysOf(all));
    forall x | x in all' ensures RecGood(schema, st, acked, hi, x) {
      if x !in step.1 && x != step.0 { assert x in all; }
    }
    forall a, b | 0 <= a < b < |all'| ensures all'[a].key != all'[b].key {
      if b < |all| { assert all[a].key != all[b].key; } else { assert all[a].key in KeysOf(all); }
    }
    forall k | k in KeysOf(recs) ensures k in KeysOf(recs[i := step.0]) {
      var j :| 0 <= j < |recs| && recs[j].key == k;
      assert recs[i := step.0][j].key == k;
    }
  }

  /** What a parent read turns one record into stays fresh: a child whose
      parent is gone is itself gone from the store. */
  lemma StepRecGood(schema: Schema, st: Store, acked: int, hi: int, r: Rec, present: set<Key>)
    requires SchemaOk(schema) && StoreOk(schema, st) && RecGood(schema, st, acked, hi, r)
    ensures var step := WithParent(r, present, st.rows);
            step.0.key == r.key && RecGood(schema, st, acked, hi, step.0)
            && |step.1| <= 1
            && (step.1 != [] ==> step.1[0].key !in present && RecGood(schema, st, acked, hi, step.1[0]))
  {
    if Parent(r.key).Some? && r.row.Some? && Parent(r.key).value !in present {
      var p := Parent(r.key).value;
      if p in st.rows {
        assert StoredRow(schema, p, st.rows[p]);
      } else {
        assert r.key !in st.rows;
      }
    }
  }

  lemma AssemblePc(schema: Schema, s: State)
    requires SchemaOk(schema) && PcGood(schema, s)
    requires s.pc.Adding? && s.pc.i >= |s.pc.recs|
    ensures PcGood(schema, AssembleStep(schema, s))
  {
    AssembledGood(schema, s.store, s.sync.acked, s.pc.lo, s.pc.hi, s.pc.recs, s.pc.extra);
  }

  lemma HaltKeeps(schema: Schema, s: State, halted: Option<Halt>)
    requires SchemaOk(schema) && Inv(schema, s)
    ensures Inv(schema, s.(sync := s.sync.(halted := halted), pc := Idle))
    ensures Inv(schema, s.(pc := Idle))
  {}

  lemma AssembledGood(schema: Schema, st: Store, acked: int, lo: nat, hi: nat, recs: seq<Rec>, extra: seq<Rec>)
    requires SchemaOk(schema) && AddingGood(schema, st, acked, hi, recs, extra)
    ensures Buildable(Order(recs + extra), schema) ==> BatchGood(schema, st, acked, Batch(lo, hi, Order(recs + extra)))
  {
    var all := recs + extra;
    OrderMembers(all);
    OrderUnique(all);
    forall k | k in KeysOf(recs) ensures k in KeysOf(Order(all)) {
      var j :| 0 <= j < |recs| && recs[j].key == k;
      assert all[j] in Order(all);
    }
  }

  // ------------------------------------------------------------ sending

  /** D1 after a statement, for every key as well covered as before. */
  ghost predicate NoWorse(st: Store, d: D1, d': D1, hi: int) {
    forall k, c :: !Excluded(k) && c <= hi && Covered(st, d, k, c) ==> Covered(st, d', k, c)
  }

  lemma DeleteNoWorse(schema: Schema, st: Store, d: D1, acked: int, hi: int, r: Rec)
    requires SchemaOk(schema) && RecGood(schema, st, acked, hi, r) && r.row.None?
    ensures NoWorse(st, d, DeleteRow(d, r.key), hi) && Covered(st, DeleteRow(d, r.key), r.key, hi)
  {
    var d' := DeleteRow(d, r.key);
    assert Get(d'.rows, r.key).None?;
    forall k, c | !Excluded(k) && c <= hi && Covered(st, d, k, c)
      ensures Covered(st, d', k, c)
    {
      if k == r.key {
        if Pending(st.outbox, k, hi) { Weaken(st.outbox, k, hi, c); }
      } else if k in Children(r.key) && Get(d'.rows, k) != Get(d.rows, k) {
        assert FreshRow(st, k, None, hi);
        if Pending(st.outbox, k, hi) { Weaken(st.outbox, k, hi, c); }
      }
    }
  }

  lemma WriteNoWorse(schema: Schema, st: Store, d: D1, d': D1, acked: int, hi: int, r: Rec)
    requires SchemaOk(schema) && RecGood(schema, st, acked, hi, r) && r.row.Some?
    requires Wrote(r, d, d')
    ensures NoWorse(st, d, d', hi) && Covered(st, d', r.key, hi)
  {
    forall k, c | !Excluded(k) && c <= hi && Covered(st, d, k, c)
      ensures Covered(st, d', k, c)
    {
      if k == r.key && Pending(st.outbox, k, hi) { Weaken(st.outbox, k, hi, c); }
    }
  }

  /** The statements of one record, by what they do. */
  lemma RecStatements(schema: Schema, r: Rec)
    requires SchemaOk(schema) && BuildOf(r, schema).Ok?
    ensures WellTyped(BuildOf(r, schema).value)
    ensures r.row.None? ==> BuildOf(r, schema).value == [Delete(r.key.tbl, r.key.pk)]
    ensures r.row.Some? && r.key.tbl != Embeddings ==> |BuildOf(r, schema).value| == 1
    ensures r.row.Some? && r.key.tbl == Embeddings ==>
              |BuildOf(r, schema).value| == 2 && BuildOf(r, schema).value[0] == Delete(r.key.tbl, r.key.pk)
  {
    BuildWellTyped(r.key.tbl, r.key.pk, r.row, schema[r.key.tbl]);
  }

  /** What carrying a present row does to D1. */
  ghost predicate Wrote(r: Rec, d: D1, d': D1) {
    && r.row.Some? && r.key in d'.rows && SameRow(r.row, Some(d'.rows[r.key]))
    && forall k :: k != r.key ==> Get(d'.rows, k) == Get(d.rows, k)
  }

  lemma InsertWrote(r: Rec, d: D1)
    requires r.row.Some? && Settled(r.key, r.row.value)
    ensures Wrote(r, d, InsertRow(d, r.key, r.row.value))
  {
    InsertedRow(d, r.key, r.row.value);
  }

  lemma UpdateWrote(r: Rec, d: D1)
    requires r.row.Some? && r.key in d.rows && r.key.tbl != Embeddings
    ensures Wrote(r, d, UpdateRow(d, r.key, r.row.value))
  {
    UpdatedRow(d, r.key, r.row.value);
  }

  lemma CarriedInsert(r: Rec, columns: seq<string>, d: D1)
    requires r.row.Some? && LocalRow(r.key, r.row.value, columns) && r.key !in d.rows
    ensures var cols := Filter(columns, r.row.value.Keys);
            var st := Insert(r.key.tbl, cols, Values(cols, r.row.value));
            Exec(d, st).Some? ==> Wrote(r, d, Exec(d, st).value)
  {
    BuiltRow(r.key, r.row.value, columns);
    if ParentPresent(r.key, d.rows) {
      ExecBuiltInsert(r.key, r.row.value, columns, d);
      InsertWrote(r, d);
    }
  }

  lemma CarriedUpsert(r: Rec, columns: seq<string>, sets: seq<string>, d: D1)
    requires r.row.Some? && LocalRow(r.key, r.row.value, columns) && r.key.tbl != Embeddings
    ensures var cols := Filter(columns, r.row.value.Keys);
            var st := Upsert(r.key.tbl, cols, sets, Values(cols, r.row.value));
            Exec(d, st).Some? ==> Wrote(r, d, Exec(d, st).value)
  {
    BuiltRow(r.key, r.row.value, columns);
    if ParentPresent(r.key, d.rows) {
      ExecBuiltUpsert(r.key, r.row.value, columns, sets, d);
      if r.key in d.rows { UpdateWrote(r, d); } else { InsertWrote(r, d); }
    }
  }

  /** The statement that carries a present row writes exactly that row. */
  lemma CarriedRow(schema: Schema, r: Rec, d: D1)
    requires SchemaOk(schema) && BuildOf(r, schema).Ok? && r.row.Some?
    requires StoredRow(schema, r.key, r.row.value)
    requires r.key.tbl == Embeddings ==> r.key !in d.rows
    ensures var st := Last(BuildOf(r, schema).value);
            (st.Delete? || |st.cols| == |st.vals|)
            && (Exec(d, st).Some? ==> Wrote(r, d, Exec(d, st).value))
  {
    var columns := schema[r.key.tbl];
    var cols := Filter(columns, r.row.value.Keys);
    if r.key.tbl == Embeddings {
      assert Last(BuildOf(r, schema).value) == Insert(r.key.tbl, cols, Values(cols, r.row.value));
      CarriedInsert(r, columns, d);
    } else {
      var sets := Without(cols, PkCols(r.key.tbl));
      assert Last(BuildOf(r, schema).value) == Upsert(r.key.tbl, cols, sets, Values(cols, r.row.value));
      CarriedUpsert(r, columns, sets, d);
    }
  }

  function Last(sts: seq<Stmt>): Stmt
    requires |sts| > 0
  {
    sts[|sts| - 1]
  }

  lemma NoWorseReplicated(st: Store, d: D1, d': D1, acked: int, hi: int)
    requires Replicated(st, d, acked) && NoWorse(st, d, d', hi) && acked < hi
    ensures Replicated(st, d', acked)
  {}

  lemma NoWorseDone(schema: Schema, st: Store, d: D1, d': D1, acked: int, b: Batch, n: nat)
    requires SchemaOk(schema) && BatchGood(schema, st, acked, b)
    requires DoneUpTo(st, d, b, n) && NoWorse(st, d, d', b.hi)
    ensures DoneUpTo(st, d', b, n)
  {
    forall i | 0 <= i < n ensures Covered(st, d', b.recs[i].key, b.hi) {
      assert b.recs[i] in b.recs;
    }
  }

  lemma EmbeddingGap(schema: Schema, st: Store, d: D1, acked: int, b: Batch, i: nat)
    requires SchemaOk(schema) && BatchGood(schema, st, acked, b) && i < |b.recs|
    requires b.recs[i].key.tbl == Embeddings && Replicated(st, d, acked) && DoneUpTo(st, d, b, i)
    ensures var d' := DeleteRow(d, b.recs[i].key);
            Replicated(st, d', acked) && DoneUpTo(st, d', b, i) && b.recs[i].key !in d'.rows
  {
    var r := b.recs[i];
    assert r in b.recs;
    var d' := DeleteRow(d, r.key);
    forall k | !Excluded(k) ensures Covered(st, d', k, acked) {
      if k != r.key { assert Get(d'.rows, k) == Get(d.rows, k); assert Covered(st, d, k, acked); }
    }
    forall x | 0 <= x < i ensures Covered(st, d', b.recs[x].key, b.hi) {
      assert Get(d'.rows, b.recs[x].key) == Get(d.rows, b.recs[x].key);
      assert Covered(st, d, b.recs[x].key, b.hi);
    }
  }

  /** What a statement of record i must leave: everything covered, the records
      before it done, and the record itself when done is set. */
  ghost predicate SendGood(st: Store, d': D1, acked: int, b: Batch, i: nat, done: bool)
    requires i < |b.recs|
  {
    && Replicated(st, d', acked) && DoneUpTo(st, d', b, i)
    && (if done then Covered(st, d', b.recs[i].key, b.hi) else b.recs[i].key !in d'.rows)
  }

  lemma SendWhole(schema: Schema, st: Store, d: D1, d': D1, acked: int, b: Batch, i: nat)
    requires SchemaOk(schema) && BatchGood(schema, st, acked, b) && i < |b.recs|
    requires Replicated(st, d, acked) && DoneUpTo(st, d, b, i)
    requires if b.recs[i].row.None? then d' == DeleteRow(d, b.recs[i].key) else Wrote(b.recs[i], d, d')
    ensures SendGood(st, d', acked, b, i, true)
  {
    var r := b.recs[i];
    assert r in b.recs;
    if r.row.None? { DeleteNoWorse(schema, st, d, acked, b.hi, r); }
    else { WriteNoWorse(schema, st, d, d', acked, b.hi, r); }
    NoWorseReplicated(st, d, d', acked, b.hi);
    NoWorseDone(schema, st, d, d', acked, b, i);
  }

  lemma SendOne(schema: Schema, s: State, d': D1)
    requires SchemaOk(schema) && StoreOk(schema, s.store) && Replicated(s.store, s.d1, s.sync.acked)
    requires PcGood(schema, s) && s.pc.Sending? && s.pc.i < |s.pc.b.recs|
    requires var sts := BuildOf(s.pc.b.recs[s.pc.i], schema).value;
             WellTyped(sts) && s.pc.j < |sts| && Exec(s.d1, sts[s.pc.j]) == Some(d')
    ensures var sts := BuildOf(s.pc.b.recs[s.pc.i], schema).value;
            SendGood(s.store, d', s.sync.acked, s.pc.b, s.pc.i, s.pc.j + 1 == |sts|)
    ensures var sts := BuildOf(s.pc.b.recs[s.pc.i], schema).value;
            s.pc.j + 1 < |sts| ==> s.pc.j == 0 && s.pc.b.recs[s.pc.i].key.tbl == Embeddings && s.pc.b.recs[s.pc.i].row.Some?
  {
    var b, i, j := s.pc.b, s.pc.i, s.pc.j;
    var r := b.recs[i];
    assert r in b.recs;
    RecStatements(schema, r);
    if r.row.Some? && r.key.tbl == Embeddings && j == 0 {
      EmbeddingGap(schema, s.store, s.d1, s.sync.acked, b, i);
    } else {
      if r.row.Some? { CarriedRow(schema, r, s.d1); }
      SendWhole(schema, s.store, s.d1, d', s.sync.acked, b, i);
    }
  }

  lemma SentPc(schema: Schema, s: State, d': D1, done: bool)
    requires SchemaOk(schema) && PcGood(schema, s) && s.pc.Sending? && s.pc.i < |s.pc.b.recs|
    requires SendGood(s.store, d', s.sync.acked, s.pc.b, s.pc.i, done)
    requires !done ==> s.pc.j == 0 && s.pc.b.recs[s.pc.i].key.tbl == Embeddings && s.pc.b.recs[s.pc.i].row.Some?
    ensures PcGood(schema, s.(d1 := d', pc := if done then Sending(s.pc.b, s.pc.i + 1, 0) else Sending(s.pc.b, s.pc.i, 1)))
  {}

  /** The statement that is next to reach D1. */
  ghost predicate NextStatement(schema: Schema, s: State, sts: seq<Stmt>)
    requires SchemaOk(schema)
  {
    && s.pc.Sending? && s.pc.i < |s.pc.b.recs|
    && BuildOf(s.pc.b.recs[s.pc.i], schema) == Ok(sts) && WellTyped(sts) && s.pc.j < |sts|
  }

  lemma SendIs(schema: Schema, s: State, sts: seq<Stmt>, d': D1)
    requires SchemaOk(schema) && NextStatement(schema, s, sts) && Exec(s.d1, sts[s.pc.j]) == Some(d')
    ensures SendStep(schema, s)
            == s.(d1 := d', pc := if s.pc.j + 1 == |sts| then Sending(s.pc.b, s.pc.i + 1, 0) else Sending(s.pc.b, s.pc.i, s.pc.j + 1))
  {}

  lemma SendMoves(schema: Schema, s: State, sts: seq<Stmt>, d': D1)
    requires SchemaOk(schema) && Inv(schema, s) && NextStatement(schema, s, sts) && Exec(s.d1, sts[s.pc.j]) == Some(d')
    ensures Inv(schema, SendStep(schema, s))
  {
    SendIs(schema, s, sts, d');
    SendOne(schema, s, d');
    SentPc(schema, s, d', s.pc.j + 1 == |sts|);
    ExecKeepsFk(s.d1, sts[s.pc.j]);
    MovedD1(schema, s, d', SendStep(schema, s).pc);
  }

  lemma SendKeeps(schema: Schema, s: State)
    requires SchemaOk(schema) && Inv(schema, s)
    ensures Inv(schema, SendStep(schema, s))
  {
    HaltKeeps(schema, s, None);
    if s.pc.Sending? && s.pc.i < |s.pc.b.recs| {
      var r := s.pc.b.recs[s.pc.i];
      assert r in s.pc.b.recs;
      RecStatements(schema, r);
      var sts := BuildOf(r, schema).value;
      if s.pc.j < |sts| && Exec(s.d1, sts[s.pc.j]).Some? {
        SendMoves(schema, s, sts, Exec(s.d1, sts[s.pc.j]).value);
      }
    }
  }

  lemma MovedD1(schema: Schema, s: State, d': D1, pc: Pc)
    requires SchemaOk(schema) && Inv(schema, s) && FkOk(d'.rows) && Replicated(s.store, d', s.sync.acked)
    requires PcGood(schema, s.(d1 := d', pc := pc))
    ensures Inv(schema, s.(d1 := d', pc := pc))
  {}

  // ------------------------------------------------------------ acks and read-backs

  lemma PrunePending(st: Store, hi: nat, sync: Sync, now: real, k: Key, c: int)
    requires Pending(st.outbox, k, c) && hi <= c
    ensures Pending(Prune(st.outbox, hi, sync, now), k, c)
  {
    var i :| 0 <= i < |st.outbox| && st.outbox[i].key == k && st.outbox[i].seq_ > c;
    assert st.outbox[i] in Prune(st.outbox, hi, sync, now);
  }

  lemma {:induction false} PruneAscending(outbox: seq<OutRow>, hi: nat, sync: Sync, now: real)
    requires Ascending(outbox)
    ensures Ascending(Prune(outbox, hi, sync, now))
  {
    if outbox != [] {
      assert Ascending(outbox[1..]);
      PruneAscending(outbox[1..], hi, sync, now);
      var rest := Prune(outbox[1..], hi, sync, now);
      forall i | 0 <= i < |rest| ensures outbox[0].seq_ < rest[i].seq_ {
        AfterFirst(outbox, rest[i]);
      }
      ConsAscending(outbox[0], rest);
    }
  }

  lemma PruneKeepsStore(schema: Schema, st: Store, hi: nat, sync: Sync, now: real)
    requires SchemaOk(schema) && StoreOk(schema, st)
    ensures StoreOk(schema, st.(outbox := Prune(st.outbox, hi, sync, now)))
  {
    var out := Prune(st.outbox, hi, sync, now);
    PruneAscending(st.outbox, hi, sync, now);
    forall i | 0 <= i < |out| ensures out[i].seq_ < st.next && OutboxKeyOk(out[i].key) {
      assert out[i] in st.outbox;
    }
  }

  /** Acking hi when every record of the batch is done keeps every key covered. */
  lemma AckReplicated(schema: Schema, st: Store, d1: D1, sync: Sync, now: real, b: Batch)
    requires SchemaOk(schema) && BatchGood(schema, st, sync.acked, b)
    requires Replicated(st, d1, sync.acked) && DoneUpTo(st, d1, b, |b.recs|)
    ensures Replicated(st.(outbox := Prune(st.outbox, b.hi, sync, now)), d1, b.hi)
  {
    forall k | !Excluded(k) ensures Covered(st.(outbox := Prune(st.outbox, b.hi, sync, now)), d1, k, b.hi) {
      assert Covered(st, d1, k, sync.acked);
      if !SameRow(Get(st.rows, k), Get(d1.rows, k)) {
        var i :| 0 <= i < |st.outbox| && st.outbox[i].key == k && st.outbox[i].seq_ > sync.acked;
        if st.outbox[i].seq_ <= b.hi {
          assert k in KeysOf(b.recs);
          var x :| 0 <= x < |b.recs| && b.recs[x].key == k;
          assert Covered(st, d1, k, b.hi);
        }
        assert Pending(st.outbox, k, b.hi);
        PrunePending(st, b.hi, sync, now, k, b.hi);
      }
    }
  }

  lemma AckKeeps(schema: Schema, s: State)
    requires SchemaOk(schema) && Inv(schema, s) && s.pc.Sent?
    ensures Inv(schema, AckStep(s))
  {
    AckReplicated(schema, s.store, s.d1, s.sync, s.now, s.pc.b);
    PruneKeepsStore(schema, s.store, s.pc.b.hi, s.sync, s.now);
  }

  lemma CheckPc(schema: Schema, s: State)
    requires SchemaOk(schema) && PcGood(schema, s) && s.pc.Checking? && s.pc.i < |s.pc.b.recs|
    ensures PcGood(schema, CheckStep(s))
  {
    var r := s.pc.b.recs[s.pc.i];
    assert r in s.pc.b.recs;
    if SameRow(r.row, Get(s.d1.rows, r.key)) {
      assert Covered(s.store, s.d1, r.key, s.pc.b.hi);
    }
  }

  // ------------------------------------------------------------ all steps

  /** Updates of sync_state that leave the acked seq and the marker alone. */
  lemma SyncOnly(schema: Schema, s: State, sync: Sync)
    requires SchemaOk(schema) && Inv(schema, s)
    requires sync.acked == s.sync.acked && sync.inflight == s.sync.inflight && sync.consumed <= sync.acked
    ensures Inv(schema, s.(sync := sync))
  {
    var s' := s.(sync := sync);
    assert forall lo, hi :: MarkerGood(s.store, s.sync, lo, hi) ==> MarkerGood(s.store, sync, lo, hi);
  }

  lemma StartWriteKeeps(schema: Schema, s: State, limit: nat)
    requires SchemaOk(schema) && Inv(schema, s)
    ensures Inv(schema, StartWriteStep(s, limit))
  {
    if StartWriteStep(s, limit) != s {
      StartWritePc(schema, s, limit);
      OnlyPc(schema, s, StartWriteStep(s, limit).pc);
    }
  }

  lemma StartReconcileKeeps(schema: Schema, s: State)
    requires SchemaOk(schema) && Inv(schema, s)
    ensures Inv(schema, StartReconcileStep(s))
  {
    if StartReconcileStep(s) != s {
      StartReconcilePc(schema, s);
      OnlyPc(schema, s, StartReconcileStep(s).pc);
    }
  }

  lemma ReadRowKeeps(schema: Schema, s: State)
    requires SchemaOk(schema) && Inv(schema, s)
    ensures Inv(schema, ReadRowStep(s))
  {
    if s.pc.Reading? {
      ReadRowPc(schema, s);
      OnlyPc(schema, s, ReadRowStep(s).pc);
    }
  }

  lemma ReadParentKeeps(schema: Schema, s: State)
    requires SchemaOk(schema) && Inv(schema, s)
    ensures Inv(schema, ReadParentStep(s))
  {
    if s.pc.Adding? && s.pc.i < |s.pc.recs| {
      ReadParentPc(schema, s);
      OnlyPc(schema, s, ReadParentStep(s).pc);
    }
  }

  lemma AssembleKeeps(schema: Schema, s: State)
    requires SchemaOk(schema) && Inv(schema, s)
    ensures Inv(schema, AssembleStep(schema, s))
  {
    if s.pc.Adding? && s.pc.i >= |s.pc.recs| {
      AssemblePc(schema, s);
      OnlyPc2(schema, s, AssembleStep(schema, s));
    }
  }

  lemma OnlyPc2(schema: Schema, s: State, s': State)
    requires SchemaOk(schema) && Inv(schema, s) && PcGood(schema, s')
    requires s' == s.(sync := s.sync.(halted := s'.sync.halted), pc := s'.pc)
    ensures Inv(schema, s')
  {}

  lemma CheckKeeps(schema: Schema, s: State)
    requires SchemaOk(schema) && Inv(schema, s)
    ensures Inv(schema, CheckStep(s))
  {
    if s.pc.Checking? && s.pc.i < |s.pc.b.recs| {
      CheckPc(schema, s);
    }
  }

  predicate ReadsBatch(e: Event) {
    e.StartWrite? || e.StartReconcile? || e.ReadRow? || e.ReadParent? || e.Assemble?
  }

  predicate TouchesD1(e: Event) {
    e.Mark? || e.Preflight? || e.Send? || e.Resend? || e.PostEpoch? || e.Check? || e.Ack? || e.Fail? || e.Crash?
  }

  lemma ReadStepKeepsInv(schema: Schema, s: State, e: Event)
    requires SchemaOk(schema) && Inv(schema, s) && ReadsBatch(e)
    ensures Inv(schema, Step(schema, s, e))
  {
    match e
    case StartWrite(limit) => StartWriteKeeps(schema, s, limit);
    case StartReconcile => StartReconcileKeeps(schema, s);
    case ReadRow => ReadRowKeeps(schema, s);
    case ReadParent => ReadParentKeeps(schema, s);
    case Assemble => AssembleKeeps(schema, s);
  }

  lemma SendStepKeepsInv(schema: Schema, s: State, e: Event)
    requires SchemaOk(schema) && Inv(schema, s) && (e.Mark? || e.Preflight? || e.Send? || e.Resend?)
    ensures Inv(schema, Step(schema, s, e))
  {
    match e
    case Mark => MarkKeeps(schema, s);
    case Preflight => PreflightKeeps(schema, s);
    case Send => SendKeeps(schema, s);
    case Resend => ResendKeeps(schema, s);
  }

  lemma CheckStepKeepsInv(schema: Schema, s: State, e: Event)
    requires SchemaOk(schema) && Inv(schema, s) && (e.PostEpoch? || e.Check?)
    ensures Inv(schema, Step(schema, s, e))
  {
    match e
    case PostEpoch => PostEpochKeeps(schema, s);
    case Check => CheckKeeps(schema, s);
  }

  lemma EndStepKeepsInv(schema: Schema, s: State, e: Event)
    requires SchemaOk(schema) && Inv(schema, s) && (e.Ack? || e.Fail? || e.Crash?)
    ensures Inv(schema, Step(schema, s, e))
  {
    match e
    case Ack => if s.pc.Sent? { AckKeeps(schema, s); }
    case Fail => HaltKeeps(schema, s, None);
    case Crash => HaltKeeps(schema, s, None);
  }

  lemma D1StepKeepsInv(schema: Schema, s: State, e: Event)
    requires SchemaOk(schema) && Inv(schema, s) && TouchesD1(e)
    ensures Inv(schema, Step(schema, s, e))
  {
    if e.Mark? || e.Preflight? || e.Send? || e.Resend? {
      SendStepKeepsInv(schema, s, e);
    } else if e.PostEpoch? || e.Check? {
      CheckStepKeepsInv(schema, s, e);
    } else {
      EndStepKeepsInv(schema, s, e);
    }
  }

  /** The operators' and the compares' events. */
  lemma SyncStepKeepsInv(schema: Schema, s: State, e: Event)
    requires SchemaOk(schema) && Inv(schema, s) && (e.Resume? || e.Begin? || e.Abort? || e.Record?)
    ensures Inv(schema, Step(schema, s, e))
  {
    match e
    case Resume(epoch, attempt) => SyncOnly(schema, s, Resumed(s.sync, epoch, attempt));
    case Begin(id) => SyncOnly(schema, s, Begun(s.sync, s.store.next, s.now, id));
    case Abort(id) => SyncOnly(schema, s, Aborted(s.sync, id));
    case Record(id, clean, head) => SyncOnly(schema, s, Recorded(s.sync, s.now, id, clean, head));
  }

  lemma StoreStepKeepsInv(schema: Schema, s: State, e: Event)
    requires SchemaOk(schema) && Inv(schema, s) && (e.Local? || e.Tick?)
    ensures Inv(schema, Step(schema, s, e))
  {
    if e.Local? && Accepted(schema, s.store, e.w) { LocalKeeps(schema, s, e.w); }
  }

  /** Every step but a foreign writer's keeps the invariant. */
  lemma StepKeepsInv(schema: Schema, s: State, e: Event)
    requires SchemaOk(schema) && Inv(schema, s) && !e.Foreign?
    ensures Inv(schema, Step(schema, s, e))
  {
    if ReadsBatch(e) {
      ReadStepKeepsInv(schema, s, e);
    } else if TouchesD1(e) {
      D1StepKeepsInv(schema, s, e);
    } else if e.Local? || e.Tick? {
      StoreStepKeepsInv(schema, s, e);
    } else {
      SyncStepKeepsInv(schema, s, e);
    }
  }

  lemma StepIsSend(schema: Schema, s: State)
    requires SchemaOk(schema)
    ensures Step(schema, s, Send) == SendStep(schema, s)
  {}

  lemma StepIsAssemble(schema: Schema, s: State)
    requires SchemaOk(schema)
    ensures Step(schema, s, Assemble) == AssembleStep(schema, s)
  {}

  lemma MarkKeeps(schema: Schema, s: State)
    requires SchemaOk(schema) && Inv(schema, s)
    ensures Inv(schema, MarkStep(s))
  {
    if MarkStep(s) != s {
      assert MarkerGood(s.store, MarkStep(s).sync, s.pc.b.lo, s.pc.b.hi);
    }
  }

  lemma PreflightKeeps(schema: Schema, s: State)
    requires SchemaOk(schema) && Inv(schema, s)
    ensures Inv(schema, PreflightStep(s))
  {
    if s.pc.Marked? {
      HaltKeeps(schema, s, PreflightStep(s).sync.halted);
      OnlyPc(schema, s, Sending(s.pc.b, 0, 0));
    }
  }

  lemma ResendKeeps(schema: Schema, s: State)
    requires SchemaOk(schema) && Inv(schema, s)
    ensures Inv(schema, ResendStep(s))
  {
    if s.pc.Sending? { OnlyPc(schema, s, Sending(s.pc.b, 0, 0)); }
  }

  lemma PostEpochPc(schema: Schema, s: State)
    requires SchemaOk(schema) && PcGood(schema, s)
    ensures PcGood(schema, PostEpochStep(s))
  {}

  lemma PostEpochKeeps(schema: Schema, s: State)
    requires SchemaOk(schema) && Inv(schema, s)
    ensures Inv(schema, PostEpochStep(s))
  {
    PostEpochPc(schema, s);
    OnlyPc(schema, s, PostEpochStep(s).pc);
  }

  // ------------------------------------------------------------ the theorems

  lemma InitInv(schema: Schema, s: State)
    requires SchemaOk(schema) && Init(schema, s)
    ensures Inv(schema, s)
  {}

  predicate NoForeign(es: seq<Event>) {
    forall i :: 0 <= i < |es| ==> !es[i].Foreign?
  }

  lemma {:induction false} RunKeepsInv(schema: Schema, s: State, es: seq<Event>)
    requires SchemaOk(schema) && Inv(schema, s) && NoForeign(es)
    ensures Inv(schema, Run(schema, s, es))
    decreases |es|
  {
    if es != [] {
      StepKeepsInv(schema, s, es[0]);
      RunKeepsInv(schema, Step(schema, s, es[0]), es[1..]);
    }
  }

  /** In every reachable state of a store whose D1 has one writer, a replicated
      key whose D1 row differs from the local row still has an outbox row past
      the last acked seq. */
  lemma DifferenceIsPending(schema: Schema, s: State, es: seq<Event>, k: Key)
    requires SchemaOk(schema) && Init(schema, s) && NoForeign(es) && !Excluded(k)
    ensures var r := Run(schema, s, es);
            !SameRow(Get(r.store.rows, k), Get(r.d1.rows, k)) ==> Pending(r.store.outbox, k, r.sync.acked)
  {
    InitInv(schema, s);
    RunKeepsInv(schema, s, es);
    assert Covered(Run(schema, s, es).store, Run(schema, s, es).d1, k, Run(schema, s, es).sync.acked);
  }

  lemma NothingPending(outbox: seq<OutRow>, k: Key, acked: nat)
    requires forall e :: e in outbox ==> e.seq_ <= acked
    ensures !Pending(outbox, k, acked)
  {
    forall i | 0 <= i < |outbox| ensures outbox[i].seq_ <= acked { assert outbox[i] in outbox; }
  }

  /** A drained store equals D1 on all seven tables but the excluded meta keys. */
  lemma DrainedEqualsD1(schema: Schema, s: State, es: seq<Event>)
    requires SchemaOk(schema) && Init(schema, s) && NoForeign(es)
    requires var r := Run(schema, s, es);
             forall e :: e in r.store.outbox ==> e.seq_ <= r.sync.acked
    ensures var r := Run(schema, s, es);
            forall k :: !Excluded(k) ==> SameRow(Get(r.store.rows, k), Get(r.d1.rows, k))
  {
    var r := Run(schema, s, es);
    forall k | !Excluded(k) ensures SameRow(Get(r.store.rows, k), Get(r.d1.rows, k)) {
      DifferenceIsPending(schema, s, es, k);
      NothingPending(r.store.outbox, k, r.sync.acked);
    }
  }
}
