/** The replicator in log mode: batches are appended to a file and a cursor
    moves behind them; a crash between the two makes the next cycle append the
    range again, with whatever the rows are then. */
module ReplicaLog {
  import opened Rows
  import opened Statements
  import opened Outbox
  import opened Batches
  import opened ForeignKeyOrder
  import opened Replicator
  import opened ReplicatorSafety

  /** One line: a statement of a record. row is history, what the builder was
      given. */
  datatype LogRec = LogRec(seq_: nat, key: Key, index: nat, stmt: Stmt, row: Option<Row>)

  // ------------------------------------------------------------ append_log

  function LinesOf(r: Rec, sts: seq<Stmt>): (lines: seq<LogRec>)
    ensures |lines| == |sts|
    ensures forall i :: 0 <= i < |sts| ==> lines[i] == LogRec(r.seq_, r.key, i, sts[i], r.row)
  {
    seq(|sts|, i requires 0 <= i < |sts| => LogRec(r.seq_, r.key, i, sts[i], r.row))
  }

  function Lines(recs: seq<Rec>, schema: Schema): seq<LogRec>
    requires SchemaOk(schema) && Buildable(recs, schema)
  {
    if recs == [] then []
    else
      assert Buildable(recs[..|recs| - 1], schema);
      Lines(recs[..|recs| - 1], schema) + LinesOf(recs[|recs| - 1], BuildOf(recs[|recs| - 1], schema).value)
  }

  /** The inner loop: a record's statements by index. */
  method AppendRecord(log: seq<LogRec>, r: Rec, sts: seq<Stmt>) returns (out: seq<LogRec>)
    ensures out == log + LinesOf(r, sts)
  {
    out := log;
    var j := 0;
    while j < |sts|
      invariant 0 <= j <= |sts|
      invariant out == log + LinesOf(r, sts)[..j]
    {
      out := out + [LogRec(r.seq_, r.key, j, sts[j], r.row)];
      j := j + 1;
    }
  }

  /** append_log: one line per statement, record by record. */
  method AppendLog(log: seq<LogRec>, recs: seq<Rec>, schema: Schema) returns (out: seq<LogRec>)
    requires SchemaOk(schema) && Buildable(recs, schema)
    ensures out == log + Lines(recs, schema)
  {
    out := log;
    var i := 0;
    assert recs[..0] == [];
    while i < |recs|
      invariant 0 <= i <= |recs| && Buildable(recs[..i], schema)
      invariant out == log + Lines(recs[..i], schema)
    {
      out := AppendRecord(out, recs[i], BuildOf(recs[i], schema).value);
      assert recs[..i + 1][..i] == recs[..i];
      i := i + 1;
    }
    assert recs[..i] == recs;
  }

  lemma {:induction false} LinesFrom(recs: seq<Rec>, schema: Schema)
    requires SchemaOk(schema) && Buildable(recs, schema)
    ensures forall x :: x in Lines(recs, schema) ==>
              exists i :: 0 <= i < |recs| && x in LinesOf(recs[i], BuildOf(recs[i], schema).value)
  {
    if recs != [] {
      var n := |recs| - 1;
      LinesFrom(recs[..n], schema);
      forall x | x in Lines(recs, schema)
        ensures exists i :: 0 <= i < |recs| && x in LinesOf(recs[i], BuildOf(recs[i], schema).value)
      {
        if x in Lines(recs[..n], schema) {
          var i :| 0 <= i < n && x in LinesOf(recs[..n][i], BuildOf(recs[..n][i], schema).value);
          assert recs[..n][i] == recs[i];
        } else {
          assert x in LinesOf(recs[n], BuildOf(recs[n], schema).value);
        }
      }
    }
  }

  lemma {:induction false} LinesHave(recs: seq<Rec>, schema: Schema, i: nat, x: LogRec)
    requires SchemaOk(schema) && Buildable(recs, schema)
    requires i < |recs| && x in LinesOf(recs[i], BuildOf(recs[i], schema).value)
    ensures x in Lines(recs, schema)
  {
    var n := |recs| - 1;
    var front, last := Lines(recs[..n], schema), LinesOf(recs[n], BuildOf(recs[n], schema).value);
    assert Lines(recs, schema) == front + last;
    if i < n {
      assert recs[..n][i] == recs[i];
      LinesHave(recs[..n], schema, i, x);
    }
    InEither(front, last, x);
  }

  lemma InEither(a: seq<LogRec>, b: seq<LogRec>, x: LogRec)
    ensures x in a + b <==> x in a || x in b
  {}

  // ------------------------------------------------------------ iter_log

  /** The deduplication key of a line. */
  function Id(x: LogRec): (nat, Key, nat) { (x.seq_, x.key, x.index) }

  ghost predicate HasId(xs: seq<LogRec>, id: (nat, Key, nat)) {
    exists i :: 0 <= i < |xs| && Id(xs[i]) == id
  }

  /** The first line of each id, in order. */
  function Dedup(log: seq<LogRec>): (r: seq<LogRec>)
    ensures forall x :: x in r ==> x in log
  {
    if log == [] then []
    else
      var n := |log| - 1;
      var r := Dedup(log[..n]);
      if exists i :: 0 <= i < |r| && Id(r[i]) == Id(log[n]) then r else r + [log[n]]
  }

  lemma {:induction false} DedupExact(log: seq<LogRec>)
    ensures forall id :: HasId(log, id) <==> HasId(Dedup(log), id)
    ensures forall i, j :: 0 <= i < j < |Dedup(log)| ==> Id(Dedup(log)[i]) != Id(Dedup(log)[j])
  {
    if log != [] {
      var n := |log| - 1;
      var r, out := Dedup(log[..n]), Dedup(log);
      DedupExact(log[..n]);
      forall id ensures HasId(log, id) <==> HasId(out, id) {
        if HasId(log, id) {
          var i :| 0 <= i < |log| && Id(log[i]) == id;
          if i < n {
            assert log[..n][i] == log[i];
            assert HasId(log[..n], id);
            var j :| 0 <= j < |r| && Id(r[j]) == id;
            assert out[j] == r[j];
          } else if out != r {
            assert out[|r|] == log[n];
          }
        }
        if HasId(out, id) {
          var j :| 0 <= j < |out| && Id(out[j]) == id;
          assert out[j] in log;
        }
      }
    }
  }

  function Ids(xs: seq<LogRec>): set<(nat, Key, nat)> {
    set j | 0 <= j < |xs| :: Id(xs[j])
  }

  lemma IdsGrow(xs: seq<LogRec>, x: LogRec)
    ensures Ids(xs + [x]) == Ids(xs) + {Id(x)}
  {
    forall id ensures id in Ids(xs + [x]) <==> id in Ids(xs) || id == Id(x) {
      if id in Ids(xs) {
        var j :| 0 <= j < |xs| && Id(xs[j]) == id;
        assert (xs + [x])[j] == xs[j];
      }
      if id == Id(x) { assert (xs + [x])[|xs|] == x; }
    }
  }

  /** iter_log: walk the lines once with the ids seen so far. */
  method IterLog(log: seq<LogRec>) returns (out: seq<LogRec>)
    ensures out == Dedup(log)
  {
    out := [];
    var seen: set<(nat, Key, nat)> := {};
    var i := 0;
    while i < |log|
      invariant 0 <= i <= |log|
      invariant out == Dedup(log[..i])
      invariant seen == Ids(out)
    {
      assert log[..i + 1][..i] == log[..i];
      var x := log[i];
      if Id(x) !in seen {
        IdsGrow(out, x);
        seen := seen + {Id(x)};
        out := out + [x];
      }
      i := i + 1;
    }
    assert log[..i] == log;
  }

  // ------------------------------------------------------------ the replay

  predicate Sooner(a: LogRec, b: LogRec) {
    a.seq_ < b.seq_ || (a.seq_ == b.seq_ && a.index <= b.index)
  }

  function PlaceLine(x: LogRec, xs: seq<LogRec>): (r: seq<LogRec>)
    ensures multiset(r) == multiset{x} + multiset(xs)
  {
    if xs == [] then [x]
    else if Sooner(xs[0], x) then
      assert xs == [xs[0]] + xs[1..];
      [xs[0]] + PlaceLine(x, xs[1..])
    else [x] + xs
  }

  /** sorted(records, key=(seq, index)). */
  function Sorted(xs: seq<LogRec>): (r: seq<LogRec>)
    ensures multiset(r) == multiset(xs)
  {
    if xs == [] then []
    else
      assert xs == xs[..|xs| - 1] + [xs[|xs| - 1]];
      PlaceLine(xs[|xs| - 1], Sorted(xs[..|xs| - 1]))
  }

  function UpTo(xs: seq<LogRec>, cursor: nat): (r: seq<LogRec>)
    ensures forall x :: x in r <==> x in xs && x.seq_ <= cursor
  {
    if xs == [] then []
    else (if xs[0].seq_ <= cursor then [xs[0]] else []) + UpTo(xs[1..], cursor)
  }

  /** A statement in the scratch file, where foreign keys are off: it touches
      its own key only. None: a primary-key conflict. */
  function Scratch(row: Option<Row>, k: Key, st: Stmt): Option<Option<Row>>
    requires st.Delete? || |st.cols| == |st.vals|
  {
    match st
    case Delete(_, _) => Some(None)
    case Insert(_, cols, vals) =>
      if row.Some? then None else Some(Some(InsertRow(D1(map[], 0), k, Zip(cols, vals)).rows[k]))
    case Upsert(_, cols, _, vals) =>
      Some(Some(if row.Some? then UpdateRow(D1(map[k := row.value], 0), k, Zip(cols, vals)).rows[k]
                else InsertRow(D1(map[], 0), k, Zip(cols, vals)).rows[k]))
  }

  ghost predicate Typed(xs: seq<LogRec>) {
    forall i :: 0 <= i < |xs| ==> xs[i].stmt.Delete? || |xs[i].stmt.cols| == |xs[i].stmt.vals|
  }

  /** The whole scratch file after the lines; None when one fails. */
  function Replay(db: Db, xs: seq<LogRec>): Option<Db>
    requires Typed(xs)
    decreases |xs|
  {
    if xs == [] then Some(db)
    else
      var x := xs[0];
      var r := Scratch(Get(db, x.key), x.key, x.stmt);
      if r.None? then None
      else Replay(if r.value.Some? then db[x.key := r.value.value] else db - {x.key}, xs[1..])
  }

  /** One key's lines, in order. */
  function Of(xs: seq<LogRec>, k: Key): (r: seq<LogRec>)
    ensures forall x :: x in r <==> x in xs && x.key == k
  {
    if xs == [] then []
    else (if xs[0].key == k then [xs[0]] else []) + Of(xs[1..], k)
  }

  function KeyReplay(row: Option<Row>, k: Key, xs: seq<LogRec>): Option<Option<Row>>
    requires Typed(xs)
    decreases |xs|
  {
    if xs == [] then Some(row)
    else
      var before := KeyReplay(row, k, xs[..|xs| - 1]);
      if before.None? then None else Scratch(before.value, k, xs[|xs| - 1].stmt)
  }

  lemma {:induction false} OfTyped(xs: seq<LogRec>, k: Key)
    requires Typed(xs)
    ensures Typed(Of(xs, k))
  {
    forall i | 0 <= i < |Of(xs, k)|
      ensures Of(xs, k)[i].stmt.Delete? || |Of(xs, k)[i].stmt.cols| == |Of(xs, k)[i].stmt.vals|
    {
      assert Of(xs, k)[i] in xs;
    }
  }

  lemma {:induction false} KeyReplayCons(row: Option<Row>, k: Key, x: LogRec, xs: seq<LogRec>)
    requires (x.stmt.Delete? || |x.stmt.cols| == |x.stmt.vals|) && Typed([x] + xs) && Typed(xs)
    ensures KeyReplay(row, k, [x] + xs)
            == var r := Scratch(row, k, x.stmt); if r.None? then None else KeyReplay(r.value, k, xs)
    decreases |xs|
  {
    var all := [x] + xs;
    if xs == [] {
      assert all[..0] == [];
      assert all[|all| - 1] == x;
    } else {
      var n := |xs| - 1;
      assert all[..|all| - 1] == [x] + xs[..n];
      assert all[|all| - 1] == xs[n];
      assert Typed([x] + xs[..n]) && Typed(xs[..n]);
      KeyReplayCons(row, k, x, xs[..n]);
    }
  }

  /** The replay acts on each key by its own lines alone. */
  lemma {:induction false} ReplayByKey(db: Db, xs: seq<LogRec>)
    requires Typed(xs)
    requires forall k :: Typed(Of(xs, k)) && KeyReplay(Get(db, k), k, Of(xs, k)).Some?
    ensures Replay(db, xs).Some?
    ensures forall k :: KeyReplay(Get(db, k), k, Of(xs, k)) == Some(Get(Replay(db, xs).value, k))
    decreases |xs|
  {
    if xs != [] {
      var x := xs[0];
      assert Typed(xs[1..]);
      assert Of(xs, x.key) == [x] + Of(xs[1..], x.key);
      OfTyped(xs[1..], x.key);
      KeyReplayCons(Get(db, x.key), x.key, x, Of(xs[1..], x.key));
      var r := Scratch(Get(db, x.key), x.key, x.stmt);
      var db' := if r.value.Some? then db[x.key := r.value.value] else db - {x.key};
      forall k ensures Typed(Of(xs[1..], k)) && KeyReplay(Get(db', k), k, Of(xs[1..], k)) == KeyReplay(Get(db, k), k, Of(xs, k)) {
        OfTyped(xs[1..], k);
        if k != x.key { assert Of(xs, k) == Of(xs[1..], k); assert Get(db', k) == Get(db, k); }
      }
      ReplayByKey(db', xs[1..]);
    }
  }
}
