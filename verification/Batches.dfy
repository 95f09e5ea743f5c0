/** The replicator's batch: an outbox range coalesced per key, each key's row
    read from the store, parents added for children, and the statements put in
    foreign-key order. The reads are separate queries: each may see the store
    as it was at its own moment (its view). */
module Batches {
  import opened Rows
  import opened Identifiers
  import opened Statements
  import opened Outbox

  datatype Rec = Rec(seq_: nat, key: Key, row: Option<Row>)

  function KeysOf(recs: seq<Rec>): set<Key> {
    set i | 0 <= i < |recs| :: recs[i].key
  }

  ghost predicate UniqueKeys(recs: seq<Rec>) {
    forall i, j :: 0 <= i < j < |recs| ==> recs[i].key != recs[j].key
  }

  // ------------------------------------------------------------ coalescing

  /** Of each key's outbox rows only the last, in seq order. */
  function Coalesce(rows: seq<OutRow>): (r: seq<OutRow>)
    ensures forall e :: e in r ==> e in rows
    ensures |r| <= |rows|
  {
    if rows == [] then []
    else if KeyedLater(rows) then Coalesce(rows[1..])
    else [rows[0]] + Coalesce(rows[1..])
  }

  predicate KeyedLater(rows: seq<OutRow>) {
    rows != [] && exists i :: 1 <= i < |rows| && rows[i].key == rows[0].key
  }

  ghost predicate Ascending(rows: seq<OutRow>) {
    forall i, j :: 0 <= i < j < |rows| ==> rows[i].seq_ < rows[j].seq_
  }

  ghost predicate Covers(rows: seq<OutRow>, e: OutRow) {
    exists j :: 0 <= j < |rows| && rows[j].key == e.key && e.seq_ <= rows[j].seq_
  }

  /** Coalescing keeps every key under its highest seq ... */
  lemma {:induction false} CoalesceCovers(rows: seq<OutRow>, e: OutRow)
    requires Ascending(rows) && e in rows
    ensures Covers(Coalesce(rows), e)
  {
    var tail := Coalesce(rows[1..]);
    if KeyedLater(rows) {
      if e == rows[0] {
        var m :| 1 <= m < |rows| && rows[m].key == rows[0].key;
        assert rows[m] in rows[1..];
        CoalesceCovers(rows[1..], rows[m]);
      } else {
        CoalesceCovers(rows[1..], e);
      }
    } else if e == rows[0] {
      assert Coalesce(rows)[0] == e;
    } else {
      CoalesceCovers(rows[1..], e);
      var j :| 0 <= j < |tail| && tail[j].key == e.key && e.seq_ <= tail[j].seq_;
      assert Coalesce(rows)[j + 1] == tail[j];
    }
  }

  ghost predicate DistinctKeys(rows: seq<OutRow>) {
    forall i, j :: 0 <= i < j < |rows| ==> rows[i].key != rows[j].key
  }

  lemma LaterRow(rows: seq<OutRow>, e: OutRow)
    requires rows != [] && Ascending(rows) && !KeyedLater(rows) && e in rows[1..]
    ensures e.key != rows[0].key && rows[0].seq_ < e.seq_
  {
    var m :| 0 <= m < |rows[1..]| && rows[1..][m] == e;
    assert rows[m + 1] == e;
  }

  /** ... and only once, in seq order. */
  lemma {:induction false} CoalesceOrdered(rows: seq<OutRow>)
    requires Ascending(rows)
    ensures Ascending(Coalesce(rows)) && DistinctKeys(Coalesce(rows))
  {
    if rows != [] {
      assert Ascending(rows[1..]);
      CoalesceOrdered(rows[1..]);
      if !KeyedLater(rows) {
        var tail := Coalesce(rows[1..]);
        forall j | 0 <= j < |tail| ensures tail[j].key != rows[0].key && rows[0].seq_ < tail[j].seq_ {
          LaterRow(rows, tail[j]);
        }
        ConsOrdered(rows[0], tail);
      }
    }
  }

  lemma ConsOrdered(e: OutRow, tail: seq<OutRow>)
    requires Ascending(tail) && DistinctKeys(tail)
    requires forall j :: 0 <= j < |tail| ==> tail[j].key != e.key && e.seq_ < tail[j].seq_
    ensures Ascending([e] + tail) && DistinctKeys([e] + tail)
  {}

  // ------------------------------------------------------------ reading and parents

  /** Each key's row, the i-th read seeing views[i]. */
  function ReadRows(rows: seq<OutRow>, views: seq<Db>): (recs: seq<Rec>)
    requires |rows| == |views|
    ensures |recs| == |rows|
    ensures forall i :: 0 <= i < |rows| ==> recs[i] == Rec(rows[i].seq_, rows[i].key, Get(views[i], rows[i].key))
  {
    seq(|rows|, i requires 0 <= i < |rows| => Rec(rows[i].seq_, rows[i].key, Get(views[i], rows[i].key)))
  }

  /** What one record becomes: a child upsert whose parent is not in the batch
      brings the parent's current row, or turns into a delete without one. */
  function WithParent(rec: Rec, present: set<Key>, rows: Db): (Rec, seq<Rec>) {
    if Parent(rec.key).None? || rec.row.None? || Parent(rec.key).value in present then (rec, [])
    else
      var p := Parent(rec.key).value;
      if p in rows then (rec, [Rec(rec.seq_, p, Some(rows[p]))])
      else (rec.(row := None), [])
  }

  /** The loop over the batch's records from index i; the i-th parent read sees
      views[i]. */
  function ParentsFrom(recs: seq<Rec>, i: nat, extra: seq<Rec>, views: seq<Db>): (seq<Rec>, seq<Rec>)
    requires i <= |recs| == |views|
    decreases |recs| - i
  {
    if i == |recs| then (recs, extra)
    else
      var (rec, more) := WithParent(recs[i], KeysOf(recs + extra), views[i]);
      ParentsFrom(recs[i := rec], i + 1, extra + more, views)
  }

  // ------------------------------------------------------------ order

  function Phase(rec: Rec): nat {
    if rec.key.tbl == Memories then if rec.row.Some? then 0 else 2 else 1
  }

  predicate Before(a: Rec, b: Rec) {
    Phase(a) < Phase(b) || (Phase(a) == Phase(b) && a.seq_ <= b.seq_)
  }

  function Place(rec: Rec, sorted: seq<Rec>): (r: seq<Rec>)
    ensures multiset(r) == multiset{rec} + multiset(sorted)
  {
    if sorted == [] then [rec]
    else if Before(sorted[0], rec) then
      assert sorted == [sorted[0]] + sorted[1..];
      [sorted[0]] + Place(rec, sorted[1..])
    else [rec] + sorted
  }

  /** sorted(keys, key=(phase, seq)). */
  function Order(recs: seq<Rec>): (r: seq<Rec>)
    ensures multiset(r) == multiset(recs)
  {
    if recs == [] then []
    else
      assert recs == recs[..|recs| - 1] + [recs[|recs| - 1]];
      Place(recs[|recs| - 1], Order(recs[..|recs| - 1]))
  }

  ghost predicate InOrder(recs: seq<Rec>) {
    forall i, j :: 0 <= i < j < |recs| ==> Before(recs[i], recs[j])
  }

  lemma {:induction false} PlaceInOrder(rec: Rec, sorted: seq<Rec>)
    requires InOrder(sorted)
    ensures InOrder(Place(rec, sorted))
  {
    if sorted != [] && Before(sorted[0], rec) {
      PlaceInOrder(rec, sorted[1..]);
      var tail := Place(rec, sorted[1..]);
      forall j | 0 <= j < |tail| ensures Before(sorted[0], tail[j]) {
        assert tail[j] in multiset(tail);
        if tail[j] != rec {
          assert tail[j] in sorted[1..];
        }
      }
    } else if sorted != [] {
      forall j | 0 <= j < |sorted| ensures Before(rec, sorted[j]) {
        assert Before(sorted[0], sorted[j]) || j == 0;
      }
    }
  }

  lemma {:induction false} OrderInOrder(recs: seq<Rec>)
    ensures InOrder(Order(recs))
  {
    if recs != [] {
      OrderInOrder(recs[..|recs| - 1]);
      PlaceInOrder(recs[|recs| - 1], Order(recs[..|recs| - 1]));
    }
  }

  lemma {:induction false} PlaceUnique(rec: Rec, sorted: seq<Rec>)
    requires UniqueKeys(sorted) && forall i :: 0 <= i < |sorted| ==> sorted[i].key != rec.key
    ensures UniqueKeys(Place(rec, sorted))
  {
    if sorted != [] && Before(sorted[0], rec) {
      PlaceUnique(rec, sorted[1..]);
      var tail := Place(rec, sorted[1..]);
      forall j | 0 <= j < |tail| ensures sorted[0].key != tail[j].key {
        assert tail[j] in multiset(tail);
        if tail[j] != rec { assert tail[j] in sorted[1..]; }
      }
    }
  }

  lemma OrderMembers(recs: seq<Rec>)
    ensures |Order(recs)| == |recs|
    ensures forall r :: r in Order(recs) <==> r in recs
  {
    var o := Order(recs);
    assert |multiset(o)| == |multiset(recs)|;
    forall r ensures r in o <==> r in recs {
      assert r in multiset(o) <==> r in multiset(recs);
    }
  }

  lemma {:induction false} OrderUnique(recs: seq<Rec>)
    requires UniqueKeys(recs)
    ensures UniqueKeys(Order(recs))
  {
    if recs != [] {
      var n := |recs| - 1;
      OrderUnique(recs[..n]);
      OrderMembers(recs[..n]);
      forall i | 0 <= i < |Order(recs[..n])| ensures Order(recs[..n])[i].key != recs[n].key {
        assert Order(recs[..n])[i] in recs[..n];
      }
      PlaceUnique(recs[n], Order(recs[..n]));
    }
  }

  // ------------------------------------------------------------ the whole read

  /** The ordered records read_batch makes of an outbox range. */
  function BatchOf(rows: seq<OutRow>, views: seq<Db>, parentViews: seq<Db>): seq<Rec>
    requires |views| == |parentViews| == |Coalesce(rows)|
  {
    var (recs, extra) := ParentsFrom(ReadRows(Coalesce(rows), views), 0, [], parentViews);
    Order(recs + extra)
  }

  /** read_batch: the range's last row per key, the rows, the parents, the
      order. views and parentViews are what the separate queries see. */
  method ReadBatch(rows: seq<OutRow>, views: seq<Db>, parentViews: seq<Db>) returns (batch: seq<Rec>)
    requires Ascending(rows)
    requires |views| == |parentViews| == |Coalesce(rows)|
    ensures batch == BatchOf(rows, views, parentViews)
  {
    var keys := LatestPerKey(rows);
    var recs: seq<Rec> := [];
    var i := 0;
    while i < |keys|
      invariant 0 <= i <= |keys| == |views|
      invariant recs == ReadRows(keys, views)[..i]
    {
      recs := recs + [Rec(keys[i].seq_, keys[i].key, Get(views[i], keys[i].key))];
      i := i + 1;
    }
    assert recs == ReadRows(keys, views);
    var extra: seq<Rec>;
    recs, extra := AddParents(recs, parentViews);
    batch := Order(recs + extra);
  }

  /** latest[(tbl, pk)] = seq over the range, then the items by seq. */
  method LatestPerKey(rows: seq<OutRow>) returns (keys: seq<OutRow>)
    requires Ascending(rows)
    ensures keys == Coalesce(rows)
  {
    var latest: map<Key, nat> := map[];
    var i := 0;
    while i < |rows|
      invariant 0 <= i <= |rows|
      invariant forall k :: k in latest <==> exists j :: 0 <= j < i && rows[j].key == k
      invariant forall j :: 0 <= j < i ==> rows[j].seq_ <= latest[rows[j].key]
      invariant forall k :: k in latest ==> exists j :: 0 <= j < i && rows[j].key == k && rows[j].seq_ == latest[k]
    {
      latest := latest[rows[i].key := rows[i].seq_];
      i := i + 1;
    }
    keys := [];
    while i > 0
      invariant 0 <= i <= |rows|
      invariant keys == Coalesce(rows[i..])
    {
      i := i - 1;
      assert rows[i..][1..] == rows[i + 1..];
      LastOccurrence(rows, i, latest);
      if latest[rows[i].key] == rows[i].seq_ { keys := [rows[i]] + keys; }
    }
    assert rows[0..] == rows;
  }

  lemma LastOccurrence(rows: seq<OutRow>, i: nat, latest: map<Key, nat>)
    requires i < |rows|
    requires Ascending(rows)
    requires forall j :: 0 <= j < |rows| ==> rows[j].key in latest && rows[j].seq_ <= latest[rows[j].key]
    requires forall k :: k in latest ==> exists j :: 0 <= j < |rows| && rows[j].key == k && rows[j].seq_ == latest[k]
    ensures latest[rows[i].key] == rows[i].seq_ <==> !KeyedLater(rows[i..])
  {
    var k := rows[i].key;
    if latest[k] == rows[i].seq_ {
      forall m | 1 <= m < |rows[i..]| ensures rows[i..][m].key != k {
        assert rows[i..][m] == rows[i + m];
      }
    } else {
      var j :| 0 <= j < |rows| && rows[j].key == k && rows[j].seq_ == latest[k];
      assert j > i;
      assert rows[i..][j - i] == rows[j];
    }
  }

  /** _add_parents: the batch grows while it is walked, its own records first. */
  method AddParents(recs0: seq<Rec>, views: seq<Db>) returns (recs: seq<Rec>, extra: seq<Rec>)
    requires |recs0| == |views|
    ensures (recs, extra) == ParentsFrom(recs0, 0, [], views)
  {
    recs, extra := recs0, [];
    assert recs + extra == recs;
    var present := KeysOf(recs);
    var i := 0;
    while i < |recs|
      invariant 0 <= i <= |recs| == |views|
      invariant present == KeysOf(recs + extra)
      invariant ParentsFrom(recs, i, extra, views) == ParentsFrom(recs0, 0, [], views)
    {
      var rec := recs[i];
      ghost var was := recs + extra;
      var step := WithParent(rec, present, views[i]);
      recs := recs[i := step.0];
      extra := extra + step.1;
      KeysAfterStep(was, recs + extra, i, step.1);
      present := present + (set j | 0 <= j < |step.1| :: step.1[j].key);
      i := i + 1;
    }
  }

  lemma KeysAfterStep(was: seq<Rec>, now: seq<Rec>, i: nat, more: seq<Rec>)
    requires i < |was| && |now| == |was| + |more|
    requires forall j :: 0 <= j < |was| ==> now[j].key == was[j].key
    requires forall j :: 0 <= j < |more| ==> now[|was| + j] == more[j]
    ensures KeysOf(now) == KeysOf(was) + (set j | 0 <= j < |more| :: more[j].key)
  {
    forall k ensures k in KeysOf(now) <==> k in KeysOf(was) || k in (set j | 0 <= j < |more| :: more[j].key) {
      if k in KeysOf(now) {
        var j :| 0 <= j < |now| && now[j].key == k;
        if j >= |was| { assert more[j - |was|].key == k; } else { assert was[j].key == k; }
      }
      if k in KeysOf(was) {
        var j :| 0 <= j < |was| && was[j].key == k;
        assert now[j].key == k;
      }
      if k in (set j | 0 <= j < |more| :: more[j].key) {
        var j :| 0 <= j < |more| && more[j].key == k;
        assert now[|was| + j].key == k;
      }
    }
  }
}
