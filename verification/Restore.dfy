/** restore --from-r2: the differences between a snapshot and D1 by conflict
    group, and the statements that turn one group into the snapshot's. */
module Restore {
  import opened Rows
  import opened Identifiers
  import opened Statements

  /** A memory with its children, one meta key, or one action of no memory. */
  datatype Gid = MemoryGroup(id: Value) | MetaGroup(key: Value) | ActionGroup(id: Value)

  /** A group of the conflicts file: its keys, and both sides' rows of it as
      the file holds them, normalised. */
  datatype Group = Group(gid: Gid, keys: seq<Key>, snapshot: Db, d1: Db)

  function Col(row: Row, c: string): Value { if c in row then row[c] else Null }

  function GroupOf(t: Table, row: Row): Gid {
    match t
    case Memories => MemoryGroup(Col(row, "id"))
    case Meta => MetaGroup(Col(row, "key"))
    case Actions => if Col(row, "memory_id") == Null then ActionGroup(Col(row, "id")) else MemoryGroup(Col(row, "memory_id"))
    case _ => MemoryGroup(Col(row, "memory_id"))
  }

  /** An action of a memory is in that memory's group, with the memory's own row
      and children; one of no memory is a group of its own. */
  lemma ActionGroups(action: Row, memory: Row, child: Row, id: Value)
    requires "memory_id" in action && action["memory_id"] == id && id != Null
    requires "id" in memory && memory["id"] == id && "memory_id" in child && child["memory_id"] == id
    ensures GroupOf(Actions, action) == MemoryGroup(id)
    ensures GroupOf(Actions, action) == GroupOf(Memories, memory)
    ensures forall t :: t in {Embeddings, Crossrefs, Tombstones, TombstoneComponents} ==>
              GroupOf(Actions, action) == GroupOf(t, child)
  {}

  lemma LoneActionGroup(action: Row)
    requires "memory_id" in action ==> action["memory_id"] == Null
    ensures GroupOf(Actions, action) == ActionGroup(if "id" in action then action["id"] else Null)
  {}

  /** Every current row of a group, normalised. */
  function Enumerate(rows: Db, gid: Gid): Db {
    map k | k in rows && GroupOf(k.tbl, rows[k]) == gid :: NormRow(rows[k])
  }

  // ------------------------------------------------------------ the statements of a group

  function Rank(t: Table): nat {
    match t
    case Memories => 0
    case Embeddings => 1
    case Crossrefs => 2
    case Tombstones => 3
    case TombstoneComponents => 4
    case Actions => 5
    case Meta => 6
  }

  predicate Changed(g: Group, k: Key) { Get(g.snapshot, k) != Get(g.d1, k) }

  /** sort, stable: parents first going up, children first going down. */
  function PlaceKey(k: Key, ks: seq<Key>, up: bool): (r: seq<Key>)
    ensures forall x :: x in r <==> x == k || x in ks
  {
    if ks == [] then [k]
    else if (up && Rank(ks[0].tbl) <= Rank(k.tbl)) || (!up && Rank(ks[0].tbl) >= Rank(k.tbl))
    then [ks[0]] + PlaceKey(k, ks[1..], up)
    else [k] + ks
  }

  function Sorted(ks: seq<Key>, up: bool): (r: seq<Key>)
    ensures forall x :: x in r <==> x in ks
  {
    if ks == [] then [] else PlaceKey(ks[|ks| - 1], Sorted(ks[..|ks| - 1], up), up)
  }

  /** The changed keys the snapshot has, or has not. */
  function Picked(g: Group, ks: seq<Key>, present: bool): (r: seq<Key>)
    ensures forall x :: x in r <==> x in ks && Changed(g, x) && (x in g.snapshot <==> present)
  {
    if ks == [] then []
    else
      var rest := Picked(g, ks[..|ks| - 1], present);
      var k := ks[|ks| - 1];
      if Changed(g, k) && (k in g.snapshot <==> present) then rest + [k] else rest
  }

  function Ups(g: Group): seq<Key> { Sorted(Picked(g, g.keys, true), true) }

  function Dels(g: Group): seq<Key> { Sorted(Picked(g, g.keys, false), false) }

  predicate Columned(columns: map<Table, seq<string>>) { forall t: Table :: t in columns }

  function BuiltFor(g: Group, k: Key, columns: map<Table, seq<string>>): Result<seq<Stmt>, BuildError>
    requires Columned(columns)
  {
    Build(k.tbl, k.pk, Get(g.snapshot, k), columns[k.tbl])
  }

  predicate AllBuilt(g: Group, ks: seq<Key>, columns: map<Table, seq<string>>)
    requires Columned(columns)
  {
    forall i :: 0 <= i < |ks| ==> BuiltFor(g, ks[i], columns).Ok?
  }

  function StatementsFor(g: Group, ks: seq<Key>, columns: map<Table, seq<string>>): (sts: seq<Stmt>)
    requires Columned(columns) && AllBuilt(g, ks, columns)
    ensures WellTyped(sts)
  {
    if ks == [] then []
    else
      BuildWellTyped(ks[0].tbl, ks[0].pk, Get(g.snapshot, ks[0]), columns[ks[0].tbl]);
      assert AllBuilt(g, ks[1..], columns);
      BuiltFor(g, ks[0], columns).value + StatementsFor(g, ks[1..], columns)
  }

  function GroupStatements(g: Group, columns: map<Table, seq<string>>): Option<seq<Stmt>>
    requires Columned(columns)
  {
    if !AllBuilt(g, Ups(g), columns) || !AllBuilt(g, Dels(g), columns) then None
    else Some(StatementsFor(g, Ups(g), columns) + StatementsFor(g, Dels(g), columns))
  }

  // ------------------------------------------------------------ order

  ghost predicate Ranked(ks: seq<Key>, up: bool) {
    forall i, j :: 0 <= i < j < |ks| ==>
      if up then Rank(ks[i].tbl) <= Rank(ks[j].tbl) else Rank(ks[i].tbl) >= Rank(ks[j].tbl)
  }

  lemma ConsRanked(k: Key, ks: seq<Key>, up: bool)
    requires Ranked(ks, up) && Distinct(ks) && k !in ks
    requires forall x :: x in ks ==> if up then Rank(k.tbl) <= Rank(x.tbl) else Rank(k.tbl) >= Rank(x.tbl)
    ensures Ranked([k] + ks, up) && Distinct([k] + ks)
  {
    var all := [k] + ks;
    forall i, j | 0 <= i < j < |all|
      ensures (if up then Rank(all[i].tbl) <= Rank(all[j].tbl) else Rank(all[i].tbl) >= Rank(all[j].tbl)) && all[i] != all[j]
    {
      assert all[j] == ks[j - 1] && ks[j - 1] in ks;
      if i > 0 { assert all[i] == ks[i - 1]; }
    }
  }

  lemma {:induction false} PlaceRanked(k: Key, ks: seq<Key>, up: bool)
    requires Ranked(ks, up) && Distinct(ks) && k !in ks
    ensures Ranked(PlaceKey(k, ks, up), up) && Distinct(PlaceKey(k, ks, up))
  {
    if ks != [] {
      var rest := ks[1..];
      forall x | x in rest
        ensures (if up then Rank(ks[0].tbl) <= Rank(x.tbl) else Rank(ks[0].tbl) >= Rank(x.tbl)) && x != ks[0]
      {
        var i :| 0 <= i < |rest| && rest[i] == x;
        assert ks[i + 1] == x;
      }
      if (up && Rank(ks[0].tbl) <= Rank(k.tbl)) || (!up && Rank(ks[0].tbl) >= Rank(k.tbl)) {
        PlaceRanked(k, rest, up);
        ConsRanked(ks[0], PlaceKey(k, rest, up), up);
      } else {
        ConsRanked(k, ks, up);
      }
    }
  }

  lemma {:induction false} SortedRanked(ks: seq<Key>, up: bool)
    requires Distinct(ks)
    ensures Ranked(Sorted(ks, up), up) && Distinct(Sorted(ks, up))
  {
    if ks != [] {
      var n := |ks| - 1;
      SortedRanked(ks[..n], up);
      forall x | x in Sorted(ks[..n], up) ensures x != ks[n] {
        var i :| 0 <= i < n && ks[..n][i] == x;
      }
      PlaceRanked(ks[n], Sorted(ks[..n], up), up);
    }
  }

  lemma {:induction false} PickedDistinct(g: Group, ks: seq<Key>, present: bool)
    requires Distinct(ks)
    ensures Distinct(Picked(g, ks, present))
  {
    if ks != [] {
      var n := |ks| - 1;
      PickedDistinct(g, ks[..n], present);
      forall x | x in Picked(g, ks[..n], present) ensures x != ks[n] {
        var i :| 0 <= i < n && ks[..n][i] == x;
      }
    }
  }

  const FK_ORDER: seq<Table> := [Memories, Embeddings, Crossrefs, Tombstones, TombstoneComponents, Actions, Meta]

  /** Every key of one table is ahead of every key of the other. */
  ghost predicate GoesFirst(ks: seq<Key>, t: Table, u: Table) {
    forall i, j :: 0 <= i < |ks| && 0 <= j < |ks| && ks[i].tbl == t && ks[j].tbl == u ==> i < j
  }

  /** Upserts go in the tables' foreign-key order, deletes in its reverse, each
      changed key once. */
  lemma StatementOrder(g: Group, n: nat, m: nat)
    requires Distinct(g.keys) && n < m < 7
    ensures Distinct(Ups(g)) && Distinct(Dels(g))
    ensures GoesFirst(Ups(g), FK_ORDER[n], FK_ORDER[m]) && GoesFirst(Dels(g), FK_ORDER[m], FK_ORDER[n])
  {
    PickedDistinct(g, g.keys, true);
    PickedDistinct(g, g.keys, false);
    SortedRanked(Picked(g, g.keys, true), true);
    SortedRanked(Picked(g, g.keys, false), false);
    assert Rank(FK_ORDER[n]) == n && Rank(FK_ORDER[m]) == m;
  }

  // ------------------------------------------------------------ running them

  /** A row of the snapshot that D1 will keep as it is: whole, keyed, and
      settled for the embedding triggers. */
  ghost predicate Whole(k: Key, row: Row, columns: map<Table, seq<string>>)
    requires Columned(columns)
  {
    LocalRow(k, row, columns[k.tbl]) && row.Keys == set c | c in columns[k.tbl]
  }

  ghost predicate WholeRows(rows: Db, columns: map<Table, seq<string>>)
    requires Columned(columns)
  {
    forall k :: k in rows ==> Whole(k, rows[k], columns)
  }

  /** Each key's parent is there, or comes earlier. */
  ghost predicate ParentsFirst(d: Db, ks: seq<Key>) {
    forall i :: 0 <= i < |ks| && Parent(ks[i]).Some? ==> Parent(ks[i]).value in d || Parent(ks[i]).value in ks[..i]
  }

  function Written(d: Db, ks: seq<Key>, rows: Db): Db
    requires forall k :: k in ks ==> k in rows
  {
    map k | k in d.Keys + (set x | x in ks) :: if k in ks then rows[k] else d[k]
  }

  ghost predicate FullColumns(rows: Db, columns: map<Table, seq<string>>)
    requires Columned(columns)
  {
    forall k :: k in rows ==> rows[k].Keys == set c | c in columns[k.tbl]
  }

  /** One written key, over whatever D1 has of it. */
  lemma UpRuns(g: Group, k: Key, columns: map<Table, seq<string>>, d: D1) returns (out: D1)
    requires Columned(columns) && BuiltFor(g, k, columns).Ok? && k in g.snapshot && Whole(k, g.snapshot[k], columns)
    requires k in d.rows ==> d.rows[k].Keys == g.snapshot[k].Keys
    requires ParentPresent(k, d.rows)
    ensures WellTyped(BuiltFor(g, k, columns).value)
    ensures ExecAll(d, BuiltFor(g, k, columns).value) == Some(out) && out.rows == d.rows[k := g.snapshot[k]]
  {
    out := BuiltEffect(k, g.snapshot[k], columns[k.tbl], d);
    if k in d.rows { assert d.rows[k] + g.snapshot[k] == g.snapshot[k]; }
  }

  lemma FullMore(d: Db, k: Key, row: Row, columns: map<Table, seq<string>>)
    requires Columned(columns) && FullColumns(d, columns) && Whole(k, row, columns)
    ensures FullColumns(d[k := row], columns)
    ensures k in d ==> d[k].Keys == row.Keys
  {}

  lemma HeadParent(d: Db, ks: seq<Key>)
    requires ks != [] && ParentsFirst(d, ks)
    ensures ParentPresent(ks[0], d)
  {
    assert ks[..0] == [];
  }

  lemma {:induction false} UpsRun(g: Group, ks: seq<Key>, columns: map<Table, seq<string>>, d: D1) returns (out: D1)
    requires Columned(columns) && AllBuilt(g, ks, columns) && WholeRows(g.snapshot, columns)
    requires forall k :: k in ks ==> k in g.snapshot
    requires FullColumns(d.rows, columns)
    requires ParentsFirst(d.rows, ks)
    ensures ExecAll(d, StatementsFor(g, ks, columns)) == Some(out)
    ensures out.rows == Written(d.rows, ks, g.snapshot)
    decreases |ks|
  {
    if ks == [] {
      out := d;
      assert Written(d.rows, ks, g.snapshot) == d.rows;
    } else {
      var k, rest := ks[0], ks[1..];
      assert k in g.snapshot && Whole(k, g.snapshot[k], columns);
      assert AllBuilt(g, rest, columns);
      HeadParent(d.rows, ks);
      FullMore(d.rows, k, g.snapshot[k], columns);
      var mid := UpRuns(g, k, columns, d);
      ParentsRemain(d.rows, mid.rows, ks);
      out := UpsRun(g, rest, columns, mid);
      ExecSplit(d, BuiltFor(g, k, columns).value, StatementsFor(g, rest, columns));
      WrittenCons(d.rows, ks, g.snapshot);
    }
  }

  lemma ParentsRemain(d: Db, d': Db, ks: seq<Key>)
    requires ks != [] && ParentsFirst(d, ks) && d'.Keys == d.Keys + {ks[0]}
    ensures ParentsFirst(d', ks[1..])
  {
    var rest := ks[1..];
    forall i | 0 <= i < |rest| && Parent(rest[i]).Some?
      ensures Parent(rest[i]).value in d' || Parent(rest[i]).value in rest[..i]
    {
      assert rest[i] == ks[i + 1];
      var p := Parent(rest[i]).value;
      if p !in d {
        assert p in ks[..i + 1];
        var j :| 0 <= j < i + 1 && ks[j] == p;
        if j > 0 { assert rest[..i][j - 1] == p; }
      }
    }
  }

  lemma WrittenCons(d: Db, ks: seq<Key>, rows: Db)
    requires ks != [] && forall k :: k in ks ==> k in rows
    ensures Written(d[ks[0] := rows[ks[0]]], ks[1..], rows) == Written(d, ks, rows)
  {
    assert forall k :: k in ks <==> k == ks[0] || k in ks[1..];
  }

  /** Each memories key's children are gone, or go earlier. */
  ghost predicate ChildrenFirst(d: Db, ks: seq<Key>) {
    forall i, c :: 0 <= i < |ks| && c in Children(ks[i]) ==> c !in d || c in ks[..i]
  }

  lemma HeadChildren(d: Db, ks: seq<Key>)
    requires ks != [] && ChildrenFirst(d, ks)
    ensures forall c :: c in Children(ks[0]) ==> c !in d
  {
    assert ks[..0] == [];
  }

  lemma KeysGone(d: Db, ks: seq<Key>)
    requires ks != []
    ensures d - {ks[0]} - (set k | k in ks[1..]) == d - (set k | k in ks)
  {
    assert (set k | k in ks) == {ks[0]} + set k | k in ks[1..];
  }

  /** One deleted key, its children gone before. */
  lemma DelRuns(g: Group, k: Key, columns: map<Table, seq<string>>, d: D1) returns (out: D1)
    requires Columned(columns) && BuiltFor(g, k, columns).Ok? && k !in g.snapshot && Null !in k.pk
    requires forall c :: c in Children(k) ==> c !in d.rows
    ensures WellTyped(BuiltFor(g, k, columns).value)
    ensures ExecAll(d, BuiltFor(g, k, columns).value) == Some(out) && out.rows == d.rows - {k}
  {
    BuildRemovesRow(k, columns[k.tbl], d);
    out := ExecAll(d, BuiltFor(g, k, columns).value).value;
    OnlyKeyRemoved(d.rows, out.rows, k);
  }

  lemma {:induction false} DelsRun(g: Group, ks: seq<Key>, columns: map<Table, seq<string>>, d: D1) returns (out: D1)
    requires Columned(columns) && AllBuilt(g, ks, columns) && Distinct(ks)
    requires forall k :: k in ks ==> k !in g.snapshot && Null !in k.pk
    requires ChildrenFirst(d.rows, ks)
    ensures ExecAll(d, StatementsFor(g, ks, columns)) == Some(out)
    ensures out.rows == d.rows - (set k | k in ks)
    decreases |ks|
  {
    if ks == [] {
      out := d;
    } else {
      var k, rest := ks[0], ks[1..];
      assert k in ks && AllBuilt(g, rest, columns);
      HeadChildren(d.rows, ks);
      var mid := DelRuns(g, k, columns, d);
      ChildrenRemain(d.rows, mid.rows, ks);
      out := DelsRun(g, rest, columns, mid);
      ExecSplit(d, BuiltFor(g, k, columns).value, StatementsFor(g, rest, columns));
      KeysGone(d.rows, ks);
    }
  }

  lemma OnlyKeyRemoved(d: Db, d': Db, k: Key)
    requires k !in d' && forall o :: o != k && o !in Children(k) ==> Get(d', o) == Get(d, o)
    requires forall c :: c in Children(k) ==> c !in d
    requires k in d ==> forall c :: c in Children(k) ==> c !in d'
    requires k !in d ==> d' == d
    ensures d' == d - {k}
  {
    forall o ensures o in d' <==> o in d - {k} {
      assert o != k && o !in Children(k) ==> Get(d', o) == Get(d, o);
    }
    forall o | o in d' ensures d'[o] == (d - {k})[o] {
      assert o !in Children(k);
      assert Get(d', o) == Get(d, o);
    }
  }

  lemma ChildrenRemain(d: Db, d': Db, ks: seq<Key>)
    requires ks != [] && Distinct(ks) && ChildrenFirst(d, ks) && d' == d - {ks[0]}
    ensures ChildrenFirst(d', ks[1..])
  {
    var rest := ks[1..];
    forall i, c | 0 <= i < |rest| && c in Children(rest[i]) ensures c !in d' || c in rest[..i] {
      assert rest[i] == ks[i + 1];
      if c in d' {
        assert c in ks[..i + 1];
        var j :| 0 <= j < i + 1 && ks[j] == c;
        assert j > 0;
        assert rest[..i][j - 1] == c;
      }
    }
  }
}
