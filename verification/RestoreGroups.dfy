/** Applying chosen groups: a group whose D1 rows are still the recorded ones
    becomes exactly the snapshot's, no other group moves, and no statement is
    refused or leaves an orphan. */
module RestoreGroups {
  import opened Rows
  import opened Identifiers
  import opened Statements
  import opened Restore

  /** A group as the conflicts file records it, from a foreign-key consistent
      snapshot. */
  ghost predicate GroupSound(g: Group, columns: map<Table, seq<string>>)
    requires Columned(columns)
  {
    && Distinct(g.keys) && (forall k :: k in g.keys <==> k in g.snapshot || k in g.d1)
    && WholeRows(g.snapshot, columns) && FkOk(g.snapshot)
    && forall k :: k in g.snapshot ==> GroupOf(k.tbl, g.snapshot[k]) == g.gid && NormRow(g.snapshot[k]) == g.snapshot[k]
  }

  ghost predicate D1Ok(rows: Db, columns: map<Table, seq<string>>)
    requires Columned(columns)
  {
    FkOk(rows) && FullColumns(rows, columns) && AllKeyed(rows)
  }

  ghost predicate AllKeyed(rows: Db) { forall k :: k in rows ==> KeyedBy(k, rows[k]) }

  /** An action keeps its memory. */
  ghost predicate ActionsFixed(g: Group, rows: Db) {
    forall k: Key :: k.tbl == Actions && k in g.snapshot && k in rows ==> GroupOf(Actions, rows[k]) == g.gid
  }

  /** Everything but an action shows its group in its key. */
  lemma GroupByKey(k: Key, a: Row, b: Row)
    requires KeyedBy(k, a) && KeyedBy(k, b) && k.tbl != Actions
    ensures GroupOf(k.tbl, a) == GroupOf(k.tbl, b)
  {
    if k.tbl == Tombstones { assert a[PkCols(k.tbl)[1]] == k.pk[1]; } else { assert a[PkCols(k.tbl)[0]] == k.pk[0]; }
  }

  lemma ChildGroup(k: Key, c: Key, a: Row, b: Row)
    requires c in Children(k) && KeyedBy(k, a) && KeyedBy(c, b)
    ensures GroupOf(c.tbl, b) == GroupOf(k.tbl, a)
  {
    assert a[PkCols(k.tbl)[0]] == k.pk[0] && b[PkCols(c.tbl)[0]] == c.pk[0];
  }

  // ------------------------------------------------------------ the order is enough

  lemma Earlier(ks: seq<Key>, up: bool, i: nat, p: Key)
    requires Ranked(ks, up) && i < |ks| && p in ks
    requires if up then Rank(p.tbl) < Rank(ks[i].tbl) else Rank(p.tbl) > Rank(ks[i].tbl)
    ensures p in ks[..i]
  {
    var j :| 0 <= j < |ks| && ks[j] == p;
    assert j < i;
    assert ks[..i][j] == p;
  }

  lemma UpsParentsFirst(g: Group, rows: Db, columns: map<Table, seq<string>>)
    requires Columned(columns) && GroupSound(g, columns) && Enumerate(rows, g.gid) == g.d1
    ensures ParentsFirst(rows, Ups(g))
  {
    var ups := Ups(g);
    PickedDistinct(g, g.keys, true);
    SortedRanked(Picked(g, g.keys, true), true);
    forall i | 0 <= i < |ups| && Parent(ups[i]).Some?
      ensures Parent(ups[i]).value in rows || Parent(ups[i]).value in ups[..i]
    {
      var p := Parent(ups[i]).value;
      assert ups[i] in ups;
      assert p in g.snapshot;
      if Changed(g, p) { Earlier(ups, true, i, p); } else { assert p in g.d1; }
    }
  }

  /** A child that survives the writes goes with its memory. */
  lemma ChildGoes(g: Group, rows: Db, mid: Db, columns: map<Table, seq<string>>, k: Key, c: Key)
    requires Columned(columns) && GroupSound(g, columns) && AllKeyed(rows) && Enumerate(rows, g.gid) == g.d1
    requires mid == Written(rows, Ups(g), g.snapshot)
    requires k in Dels(g) && c in Children(k) && c in mid
    ensures c in Dels(g)
  {
    assert k in g.d1 && k in rows;
    assert Parent(c) == Some(k);
    assert c !in g.snapshot && c in rows;
    ChildGroup(k, c, rows[k], rows[c]);
    assert c in Enumerate(rows, g.gid);
  }

  lemma DelsRanked(g: Group)
    requires Distinct(g.keys)
    ensures Ranked(Dels(g), false) && Distinct(Dels(g))
  {
    PickedDistinct(g, g.keys, false);
    SortedRanked(Picked(g, g.keys, false), false);
  }

  lemma DelsChildrenFirst(g: Group, rows: Db, mid: Db, columns: map<Table, seq<string>>)
    requires Columned(columns) && GroupSound(g, columns) && AllKeyed(rows) && Enumerate(rows, g.gid) == g.d1
    requires mid == Written(rows, Ups(g), g.snapshot)
    ensures ChildrenFirst(mid, Dels(g))
  {
    var dels := Dels(g);
    forall i, c | 0 <= i < |dels| && c in Children(dels[i]) ensures c !in mid || c in dels[..i] {
      if c in mid { ChildEarlier(g, rows, mid, columns, i, c); }
    }
  }

  lemma EarlierDel(g: Group, dels: seq<Key>, i: nat, c: Key)
    requires Distinct(g.keys) && dels == Dels(g) && i < |dels| && c in Children(dels[i]) && c in dels
    ensures c in dels[..i]
  {
    DelsRanked(g);
    Earlier(dels, false, i, c);
  }

  lemma ChildEarlier(g: Group, rows: Db, mid: Db, columns: map<Table, seq<string>>, i: nat, c: Key)
    requires Columned(columns) && GroupSound(g, columns) && AllKeyed(rows) && Enumerate(rows, g.gid) == g.d1
    requires mid == Written(rows, Ups(g), g.snapshot)
    requires i < |Dels(g)| && c in Children(Dels(g)[i]) && c in mid
    ensures c in Dels(g)[..i]
  {
    var dels := Dels(g);
    assert dels[i] in dels;
    ChildGoes(g, rows, mid, columns, dels[i], c);
    EarlierDel(g, dels, i, c);
  }

  // ------------------------------------------------------------ the result

  /** The rows after a group's statements. */
  function Restored(g: Group, rows: Db): Db {
    Written(rows, Ups(g), g.snapshot) - set k | k in Dels(g)
  }

  lemma RestoredKey(g: Group, rows: Db, columns: map<Table, seq<string>>, k: Key)
    requires Columned(columns) && GroupSound(g, columns) && Enumerate(rows, g.gid) == g.d1
    ensures k !in g.keys ==> Get(Restored(g, rows), k) == Get(rows, k)
    ensures k in g.keys && k !in g.snapshot ==> k !in Restored(g, rows)
    ensures k in g.snapshot ==> k in Restored(g, rows) && NormRow(Restored(g, rows)[k]) == g.snapshot[k]
                                && GroupOf(k.tbl, Restored(g, rows)[k]) == g.gid
    ensures k in g.snapshot ==> Restored(g, rows)[k] == g.snapshot[k] || (k in rows && Restored(g, rows)[k] == rows[k])
  {
    if k in g.snapshot && !Changed(g, k) { assert k in g.d1; }
  }

  /** Where a key of D1 belongs. */
  lemma KeyGroup(g: Group, rows: Db, columns: map<Table, seq<string>>, k: Key)
    requires Columned(columns) && GroupSound(g, columns) && AllKeyed(rows) && ActionsFixed(g, rows)
    requires Enumerate(rows, g.gid) == g.d1 && k in rows
    ensures k in g.keys <==> GroupOf(k.tbl, rows[k]) == g.gid
  {
    if k in g.snapshot && k.tbl != Actions {
      assert Whole(k, g.snapshot[k], columns);
      GroupByKey(k, g.snapshot[k], rows[k]);
    }
    assert k in g.d1 <==> k in Enumerate(rows, g.gid);
  }

  lemma OwnKey(g: Group, rows: Db, columns: map<Table, seq<string>>, k: Key)
    requires Columned(columns) && GroupSound(g, columns) && AllKeyed(rows) && ActionsFixed(g, rows)
    requires Enumerate(rows, g.gid) == g.d1
    ensures Get(Enumerate(Restored(g, rows), g.gid), k) == Get(g.snapshot, k)
  {
    RestoredKey(g, rows, columns, k);
    if k in rows { KeyGroup(g, rows, columns, k); }
  }

  lemma OtherKey(g: Group, rows: Db, columns: map<Table, seq<string>>, gid: Gid, k: Key)
    requires Columned(columns) && GroupSound(g, columns) && AllKeyed(rows) && ActionsFixed(g, rows)
    requires Enumerate(rows, g.gid) == g.d1 && gid != g.gid
    ensures Get(Enumerate(Restored(g, rows), gid), k) == Get(Enumerate(rows, gid), k)
  {
    RestoredKey(g, rows, columns, k);
    if k in g.keys {
      if k in rows { KeyGroup(g, rows, columns, k); }
      assert k !in Enumerate(rows, gid);
      assert k !in Enumerate(Restored(g, rows), gid);
    } else {
      assert Get(Restored(g, rows), k) == Get(rows, k);
    }
  }

  lemma SameDb(a: Db, b: Db)
    requires forall k :: Get(a, k) == Get(b, k)
    ensures a == b
  {
    forall k ensures k in a <==> k in b { assert Get(a, k) == Get(b, k); }
    forall k | k in a ensures a[k] == b[k] { assert Get(a, k) == Get(b, k); }
  }

  lemma OwnGroup(g: Group, rows: Db, columns: map<Table, seq<string>>)
    requires Columned(columns) && GroupSound(g, columns) && AllKeyed(rows) && ActionsFixed(g, rows)
    requires Enumerate(rows, g.gid) == g.d1
    ensures Enumerate(Restored(g, rows), g.gid) == g.snapshot
  {
    forall k ensures Get(Enumerate(Restored(g, rows), g.gid), k) == Get(g.snapshot, k) { OwnKey(g, rows, columns, k); }
    SameDb(Enumerate(Restored(g, rows), g.gid), g.snapshot);
  }

  lemma OtherGroup(g: Group, rows: Db, columns: map<Table, seq<string>>, gid: Gid)
    requires Columned(columns) && GroupSound(g, columns) && AllKeyed(rows) && ActionsFixed(g, rows)
    requires Enumerate(rows, g.gid) == g.d1 && gid != g.gid
    ensures Enumerate(Restored(g, rows), gid) == Enumerate(rows, gid)
  {
    forall k ensures Get(Enumerate(Restored(g, rows), gid), k) == Get(Enumerate(rows, gid), k) {
      OtherKey(g, rows, columns, gid, k);
    }
    SameDb(Enumerate(Restored(g, rows), gid), Enumerate(rows, gid));
  }

  lemma RestoredD1Ok(g: Group, rows: Db, columns: map<Table, seq<string>>)
    requires Columned(columns) && GroupSound(g, columns) && D1Ok(rows, columns) && Enumerate(rows, g.gid) == g.d1
    requires FkOk(Restored(g, rows))
    ensures D1Ok(Restored(g, rows), columns)
  {
    forall k | k in Restored(g, rows)
      ensures KeyedBy(k, Restored(g, rows)[k]) && Restored(g, rows)[k].Keys == set c | c in columns[k.tbl]
    {
      RestoredKey(g, rows, columns, k);
      if k in g.snapshot { assert Whole(k, g.snapshot[k], columns); } else { assert Get(Restored(g, rows), k) == Get(rows, k); }
    }
  }

  /** The group's statements are never refused; afterwards the group is exactly
      the snapshot's, every other group is as it was, and D1 is consistent. */
  lemma GroupRestored(g: Group, columns: map<Table, seq<string>>, d: D1) returns (out: D1)
    requires Columned(columns) && GroupSound(g, columns) && GroupStatements(g, columns).Some?
    requires D1Ok(d.rows, columns) && ActionsFixed(g, d.rows) && Enumerate(d.rows, g.gid) == g.d1
    ensures ExecAll(d, GroupStatements(g, columns).value) == Some(out)
    ensures Enumerate(out.rows, g.gid) == g.snapshot
    ensures forall gid :: gid != g.gid ==> Enumerate(out.rows, gid) == Enumerate(d.rows, gid)
    ensures forall k :: k !in g.keys ==> Get(out.rows, k) == Get(d.rows, k)
    ensures D1Ok(out.rows, columns)
  {
    var ups, dels := Ups(g), Dels(g);
    UpsParentsFirst(g, d.rows, columns);
    var mid := UpsRun(g, ups, columns, d);
    DelsChildrenFirst(g, d.rows, mid.rows, columns);
    DelsRanked(g);
    forall k | k in dels ensures k !in g.snapshot && Null !in k.pk { assert k in g.d1; }
    out := DelsRun(g, dels, columns, mid);
    ExecSplit(d, StatementsFor(g, ups, columns), StatementsFor(g, dels, columns));
    assert out.rows == Restored(g, d.rows);
    ExecAllFk(d, GroupStatements(g, columns).value);
    RestoredD1Ok(g, d.rows, columns);
    OwnGroup(g, d.rows, columns);
    forall gid | gid != g.gid ensures Enumerate(out.rows, gid) == Enumerate(d.rows, gid) {
      OtherGroup(g, d.rows, columns, gid);
    }
    forall k | k !in g.keys ensures Get(out.rows, k) == Get(d.rows, k) { RestoredKey(g, d.rows, columns, k); }
  }

  /** However far the sending gets, no child is without its memory. */
  lemma EveryPrefixConsistent(g: Group, columns: map<Table, seq<string>>, d: D1, n: nat)
    requires Columned(columns) && GroupSound(g, columns) && GroupStatements(g, columns).Some?
    requires D1Ok(d.rows, columns) && ActionsFixed(g, d.rows) && Enumerate(d.rows, g.gid) == g.d1
    requires n <= |GroupStatements(g, columns).value|
    ensures var sts := GroupStatements(g, columns).value[..n];
            WellTyped(sts) && ExecAll(d, sts).Some? && FkOk(ExecAll(d, sts).value.rows)
  {
    var out := GroupRestored(g, columns, d);
    var sts := GroupStatements(g, columns).value;
    PrefixAccepted(d, sts, n);
  }

  // ------------------------------------------------------------ restore_apply

  /** The chosen groups: each its own, none sharing a key. */
  ghost predicate Chosen(groups: seq<Group>, columns: map<Table, seq<string>>)
    requires Columned(columns)
  {
    && (forall i :: 0 <= i < |groups| ==> GroupSound(groups[i], columns) && GroupStatements(groups[i], columns).Some?)
    && forall i, j :: 0 <= i < j < |groups| ==>
         groups[i].gid != groups[j].gid && forall k :: k in groups[i].keys ==> k !in groups[j].keys
  }

  class Target {
    var d1: D1

    constructor (start: D1)
      ensures d1 == start
    {
      d1 := start;
    }

    /** Send a group's statements one at a time. */
    method Send(sts: seq<Stmt>) returns (ok: bool)
      requires WellTyped(sts)
      modifies this
      ensures ok <==> ExecAll(old(d1), sts).Some?
      ensures ok ==> ExecAll(old(d1), sts) == Some(d1)
    {
      var i := 0;
      while i < |sts|
        invariant 0 <= i <= |sts|
        invariant ExecAll(old(d1), sts) == ExecAll(d1, sts[i..])
      {
        assert sts[i..][0] == sts[i] && sts[i..][1..] == sts[i + 1..];
        var next := Exec(d1, sts[i]);
        if next.None? { return false; }
        d1 := next.value;
        i := i + 1;
      }
      ok := true;
    }

    /** One group: checked, sent, and checked again. */
    method ApplyGroup(g: Group, columns: map<Table, seq<string>>) returns (applied: bool, halted: bool)
      requires Columned(columns) && GroupSound(g, columns) && GroupStatements(g, columns).Some?
      requires D1Ok(d1.rows, columns) && ActionsFixed(g, d1.rows)
      modifies this
      ensures !halted && D1Ok(d1.rows, columns)
      ensures OneApplied(g, applied, old(d1).rows, d1.rows)
      ensures !applied ==> d1 == old(d1)
      ensures forall k :: k !in g.keys ==> Get(d1.rows, k) == Get(old(d1).rows, k)
    {
      if Enumerate(d1.rows, g.gid) != g.d1 { return false, false; }
      ghost var out := GroupRestored(g, columns, d1);
      var ok := Send(GroupStatements(g, columns).value);
      if !ok || Enumerate(d1.rows, g.gid) != g.snapshot { return true, true; }
      return true, false;
    }

    /** The apply loop: a group whose rows changed since is aborted; no group
        halts. */
    method RestoreApply(groups: seq<Group>, columns: map<Table, seq<string>>)
      returns (applied: seq<bool>, halted: bool)
      requires Columned(columns) && Chosen(groups, columns) && D1Ok(d1.rows, columns)
      requires forall i :: 0 <= i < |groups| ==> ActionsFixed(groups[i], d1.rows)
      modifies this
      ensures !halted && D1Ok(d1.rows, columns)
      ensures Progress(groups, |groups|, applied, old(d1).rows, d1.rows)
    {
      applied, halted := [], false;
      var n := 0;
      while n < |groups|
        invariant 0 <= n <= |groups| && !halted && D1Ok(d1.rows, columns)
        invariant forall i :: n <= i < |groups| ==> ActionsFixed(groups[i], d1.rows)
        invariant Progress(groups, n, applied, old(d1).rows, d1.rows)
      {
        ghost var before := d1.rows;
        var one;
        one, halted := ApplyGroup(groups[n], columns);
        if halted { return; }
        forall i | n < i < |groups| ensures ActionsFixed(groups[i], d1.rows) {
          OthersActions(groups, columns, n, i, before, d1.rows);
        }
        MoreProgress(groups, columns, n, applied, one, old(d1).rows, before, d1.rows);
        applied := applied + [one];
        n := n + 1;
      }
    }
  }

  ghost predicate Touched(groups: seq<Group>, applied: seq<bool>, gid: Gid) {
    exists i :: 0 <= i < |groups| && i < |applied| && applied[i] && groups[i].gid == gid
  }

  /** The first n groups are applied or aborted: an applied group was as
      recorded and is the snapshot's now, and nothing else moved. */
  ghost predicate Progress(groups: seq<Group>, n: nat, applied: seq<bool>, start: Db, rows: Db) {
    && n <= |groups| && |applied| == n
    && (forall i :: 0 <= i < n ==> (applied[i] <==> Enumerate(start, groups[i].gid) == groups[i].d1))
    && (forall i :: 0 <= i < n && applied[i] ==> Enumerate(rows, groups[i].gid) == groups[i].snapshot)
    && forall gid :: !Touched(groups, applied, gid) ==> Enumerate(rows, gid) == Enumerate(start, gid)
  }

  lemma TouchedMore(groups: seq<Group>, applied: seq<bool>, one: bool, gid: Gid)
    requires |applied| < |groups|
    ensures Touched(groups, applied + [one], gid)
            <==> Touched(groups, applied, gid) || (one && groups[|applied|].gid == gid)
  {
    var all := applied + [one];
    if Touched(groups, applied, gid) {
      var i :| 0 <= i < |groups| && i < |applied| && applied[i] && groups[i].gid == gid;
      assert all[i];
    }
    if one && groups[|applied|].gid == gid { assert all[|applied|]; }
  }

  lemma NotTouchedYet(groups: seq<Group>, columns: map<Table, seq<string>>, applied: seq<bool>)
    requires Columned(columns) && Chosen(groups, columns) && |applied| < |groups|
    ensures !Touched(groups, applied, groups[|applied|].gid)
  {}

  lemma NewGid(groups: seq<Group>, columns: map<Table, seq<string>>, i: nat, n: nat)
    requires Columned(columns) && Chosen(groups, columns) && i < n < |groups|
    ensures groups[i].gid != groups[n].gid
  {}

  /** What the apply step of group n does to any group's rows. */
  ghost predicate OneApplied(g: Group, one: bool, before: Db, rows: Db) {
    && (one <==> Enumerate(before, g.gid) == g.d1)
    && (if one then Enumerate(rows, g.gid) == g.snapshot else rows == before)
    && forall gid :: gid != g.gid ==> Enumerate(rows, gid) == Enumerate(before, gid)
  }

  lemma ProgressAt(groups: seq<Group>, columns: map<Table, seq<string>>, n: nat, applied: seq<bool>, one: bool,
                   start: Db, before: Db, rows: Db, i: nat)
    requires Columned(columns) && Chosen(groups, columns) && n < |groups| && Progress(groups, n, applied, start, before)
    requires OneApplied(groups[n], one, before, rows) && i <= n
    ensures (applied + [one])[i] <==> Enumerate(start, groups[i].gid) == groups[i].d1
    ensures (applied + [one])[i] ==> Enumerate(rows, groups[i].gid) == groups[i].snapshot
  {
    if i < n {
      NewGid(groups, columns, i, n);
      assert (applied + [one])[i] == applied[i];
    } else {
      NotTouchedYet(groups, columns, applied);
      assert (applied + [one])[n] == one;
    }
  }

  lemma UntouchedAt(groups: seq<Group>, n: nat, applied: seq<bool>, one: bool,
                    start: Db, before: Db, rows: Db, gid: Gid)
    requires n < |groups| && Progress(groups, n, applied, start, before)
    requires OneApplied(groups[n], one, before, rows) && !Touched(groups, applied + [one], gid)
    ensures Enumerate(rows, gid) == Enumerate(start, gid)
  {
    TouchedMore(groups, applied, one, gid);
  }

  lemma MoreProgress(groups: seq<Group>, columns: map<Table, seq<string>>, n: nat, applied: seq<bool>, one: bool,
                     start: Db, before: Db, rows: Db)
    requires Columned(columns) && Chosen(groups, columns) && n < |groups| && Progress(groups, n, applied, start, before)
    requires OneApplied(groups[n], one, before, rows)
    ensures Progress(groups, n + 1, applied + [one], start, rows)
  {
    forall i: nat | i <= n
      ensures (applied + [one])[i] <==> Enumerate(start, groups[i].gid) == groups[i].d1
      ensures (applied + [one])[i] ==> Enumerate(rows, groups[i].gid) == groups[i].snapshot
    {
      ProgressAt(groups, columns, n, applied, one, start, before, rows, i);
    }
    forall gid | !Touched(groups, applied + [one], gid) ensures Enumerate(rows, gid) == Enumerate(start, gid) {
      UntouchedAt(groups, n, applied, one, start, before, rows, gid);
    }
  }

  lemma OthersActions(groups: seq<Group>, columns: map<Table, seq<string>>, n: nat, i: nat, rows: Db, rows': Db)
    requires Columned(columns) && Chosen(groups, columns) && n < i < |groups| && ActionsFixed(groups[i], rows)
    requires forall k :: k !in groups[n].keys ==> Get(rows', k) == Get(rows, k)
    ensures ActionsFixed(groups[i], rows')
  {
    forall k: Key | k.tbl == Actions && k in groups[i].snapshot && k in rows'
      ensures GroupOf(Actions, rows'[k]) == groups[i].gid
    {
      assert k in groups[i].keys;
      assert k !in groups[n].keys;
      assert Get(rows', k) == Get(rows, k);
    }
  }
}
