/** build_conflicts: every difference between a snapshot and D1, by group. */
module RestoreConflicts {
  import opened Rows
  import opened Identifiers
  import opened Statements
  import opened Restore
  import opened RestoreGroups

  /** A side of the comparison: the rows a file has, without the excluded meta
      keys. */
  function Side(db: Db): Db {
    map k | k in db && !Excluded(k) :: db[k]
  }

  function GidOf(side: Db, k: Key): Gid
    requires k in side
  {
    GroupOf(k.tbl, side[k])
  }

  /** A key's groups: its row's on either side. */
  predicate InGroup(snap: Db, d1: Db, k: Key, gid: Gid) {
    (k in snap && GidOf(snap, k) == gid) || (k in d1 && GidOf(d1, k) == gid)
  }

  /** _group_rows: a side's rows at the group's keys, normalised. */
  function RowsAt(side: Db, keys: seq<Key>): Db {
    map k | k in side && k in keys :: NormRow(side[k])
  }

  /** The lists of members, each key once. */
  ghost predicate MembersOf(members: map<Gid, seq<Key>>, snap: Db, d1: Db, seen: set<Key>, seen1: set<Key>) {
    && (forall gid :: gid in members ==> Distinct(members[gid]))
    && forall gid, k :: (gid in members && k in members[gid])
         <==> (k in seen && k in snap && GidOf(snap, k) == gid) || (k in seen1 && k in d1 && GidOf(d1, k) == gid)
  }

  function WithMember(members: map<Gid, seq<Key>>, gid: Gid, k: Key): map<Gid, seq<Key>> {
    if gid !in members then members[gid := [k]]
    else if k in members[gid] then members
    else members[gid := members[gid] + [k]]
  }

  lemma SnapMember(members: map<Gid, seq<Key>>, snap: Db, d1: Db, seen: set<Key>, seen1: set<Key>, k: Key)
    requires MembersOf(members, snap, d1, seen, seen1) && k in snap
    ensures MembersOf(WithMember(members, GidOf(snap, k), k), snap, d1, seen + {k}, seen1)
  {}

  lemma D1Member(members: map<Gid, seq<Key>>, snap: Db, d1: Db, seen: set<Key>, seen1: set<Key>, k: Key)
    requires MembersOf(members, snap, d1, seen, seen1) && k in d1
    ensures MembersOf(WithMember(members, GidOf(d1, k), k), snap, d1, seen, seen1 + {k})
  {}

  /** The loops over both sides' rows. */
  method Members(snap: Db, d1: Db) returns (members: map<Gid, seq<Key>>)
    ensures MembersOf(members, snap, d1, snap.Keys, d1.Keys)
  {
    members := map[];
    var todo := snap.Keys;
    assert snap.Keys - todo == {};
    while todo != {}
      invariant todo <= snap.Keys && MembersOf(members, snap, d1, snap.Keys - todo, {})
      decreases |todo|
    {
      var k :| k in todo;
      SnapMember(members, snap, d1, snap.Keys - todo, {}, k);
      assert snap.Keys - (todo - {k}) == snap.Keys - todo + {k};
      members := WithMember(members, GidOf(snap, k), k);
      todo := todo - {k};
    }
    assert snap.Keys - todo == snap.Keys;
    members := MoreMembers(snap, d1, members);
  }

  method MoreMembers(snap: Db, d1: Db, start: map<Gid, seq<Key>>) returns (members: map<Gid, seq<Key>>)
    requires MembersOf(start, snap, d1, snap.Keys, {})
    ensures MembersOf(members, snap, d1, snap.Keys, d1.Keys)
  {
    members := start;
    var todo := d1.Keys;
    assert d1.Keys - todo == {};
    while todo != {}
      invariant todo <= d1.Keys && MembersOf(members, snap, d1, snap.Keys, d1.Keys - todo)
      decreases |todo|
    {
      var k :| k in todo;
      D1Member(members, snap, d1, snap.Keys, d1.Keys - todo, k);
      assert d1.Keys - (todo - {k}) == d1.Keys - todo + {k};
      members := WithMember(members, GidOf(d1, k), k);
      todo := todo - {k};
    }
    assert d1.Keys - todo == d1.Keys;
  }

  function MakeGroup(snap: Db, d1: Db, gid: Gid, keys: seq<Key>): Group {
    Group(gid, keys, RowsAt(snap, keys), RowsAt(d1, keys))
  }

  predicate Differs(g: Group) { g.snapshot != g.d1 }

  ghost predicate Recorded(g: Group, snap: Db, d1: Db) {
    && Distinct(g.keys) && g == MakeGroup(snap, d1, g.gid, g.keys) && Differs(g)
    && forall k :: k in g.keys <==> InGroup(snap, d1, k, g.gid)
  }

  /** A conflicts list: groups that differ, each recorded once. */
  ghost predicate Conflicts(groups: seq<Group>, snap: Db, d1: Db) {
    && (forall i :: 0 <= i < |groups| ==> Recorded(groups[i], snap, d1))
    && forall i, j :: 0 <= i < j < |groups| ==> groups[i].gid != groups[j].gid
  }

  lemma MemberList(members: map<Gid, seq<Key>>, snap: Db, d1: Db, gid: Gid)
    requires MembersOf(members, snap, d1, snap.Keys, d1.Keys) && gid in members
    ensures Distinct(members[gid]) && forall k :: k in members[gid] <==> InGroup(snap, d1, k, gid)
  {}

  lemma MoreConflicts(groups: seq<Group>, snap: Db, d1: Db, g: Group)
    requires Conflicts(groups, snap, d1) && Recorded(g, snap, d1)
    requires forall i :: 0 <= i < |groups| ==> groups[i].gid != g.gid
    ensures Conflicts(groups + [g], snap, d1)
  {}

  /** The pass over the groups. */
  method PickConflicts(snap: Db, d1: Db, members: map<Gid, seq<Key>>) returns (groups: seq<Group>)
    requires MembersOf(members, snap, d1, snap.Keys, d1.Keys)
    ensures Conflicts(groups, snap, d1)
    ensures forall gid :: gid in members && Differs(MakeGroup(snap, d1, gid, members[gid])) ==>
              MakeGroup(snap, d1, gid, members[gid]) in groups
  {
    groups := [];
    var todo := members.Keys;
    while todo != {}
      invariant todo <= members.Keys && Conflicts(groups, snap, d1)
      invariant forall i :: 0 <= i < |groups| ==> groups[i].gid !in todo
      invariant forall gid :: gid in members && gid !in todo && Differs(MakeGroup(snap, d1, gid, members[gid])) ==>
                  MakeGroup(snap, d1, gid, members[gid]) in groups
      decreases |todo|
    {
      var gid :| gid in todo;
      var g := MakeGroup(snap, d1, gid, members[gid]);
      if Differs(g) {
        MemberList(members, snap, d1, gid);
        MoreConflicts(groups, snap, d1, g);
        groups := groups + [g];
      }
      todo := todo - {gid};
    }
  }

  method BuildConflicts(snapshot: Db, d1File: Db) returns (groups: seq<Group>)
    ensures Conflicts(groups, Side(snapshot), Side(d1File))
    ensures forall k :: k in Side(snapshot) || k in Side(d1File) ==> Covered(groups, Side(snapshot), Side(d1File), k)
  {
    var snap, d1 := Side(snapshot), Side(d1File);
    var members := Members(snap, d1);
    groups := PickConflicts(snap, d1, members);
    forall k | k in snap || k in d1 ensures Covered(groups, snap, d1, k) {
      if !Same(snap, d1, k) { DifferenceRecorded(groups, snap, d1, members, k); }
    }
  }

  lemma DifferenceRecorded(groups: seq<Group>, snap: Db, d1: Db, members: map<Gid, seq<Key>>, k: Key)
    requires MembersOf(members, snap, d1, snap.Keys, d1.Keys) && (k in snap || k in d1) && !Same(snap, d1, k)
    requires forall gid :: gid in members && Differs(MakeGroup(snap, d1, gid, members[gid])) ==>
               MakeGroup(snap, d1, gid, members[gid]) in groups
    ensures exists i :: 0 <= i < |groups| && k in groups[i].keys
  {
    var gid := if k in snap then GidOf(snap, k) else GidOf(d1, k);
    assert gid in members && k in members[gid];
    DiffersThere(snap, d1, gid, members[gid], k);
    var i :| 0 <= i < |groups| && groups[i] == MakeGroup(snap, d1, gid, members[gid]);
    assert k in groups[i].keys;
  }

  /** The key's rows are the same on both sides. */
  predicate Same(snap: Db, d1: Db, k: Key) {
    (k in snap <==> k in d1) && (k in snap && k in d1 ==> NormRow(snap[k]) == NormRow(d1[k]))
  }

  ghost predicate Covered(groups: seq<Group>, snap: Db, d1: Db, k: Key) {
    Same(snap, d1, k) || exists i :: 0 <= i < |groups| && k in groups[i].keys
  }

  lemma DiffersThere(snap: Db, d1: Db, gid: Gid, keys: seq<Key>, k: Key)
    requires k in keys && !Same(snap, d1, k)
    ensures Differs(MakeGroup(snap, d1, gid, keys))
  {
    var a, b := RowsAt(snap, keys), RowsAt(d1, keys);
    assert k in a <==> k in snap;
    assert k in b <==> k in d1;
    if k in snap && k in d1 { assert a[k] == NormRow(snap[k]) && b[k] == NormRow(d1[k]); }
  }

  /** The snapshot's rows are whole, keyed and settled, and no key changes its
      group between the sides. */
  ghost predicate Restorable(snap: Db, d1: Db, columns: map<Table, seq<string>>)
    requires Columned(columns)
  {
    && FkOk(snap) && AllKeyed(snap)
    && (forall k :: k in snap && k in d1 ==> GidOf(snap, k) == GidOf(d1, k))
    && forall k :: k in snap ==> Whole(k, NormRow(snap[k]), columns) && GroupOf(k.tbl, NormRow(snap[k])) == GidOf(snap, k)
  }

  /** When no key changes its group between the sides, a conflicts list is what
      the apply step needs: its groups are sound for a snapshot of whole rows,
      and D1 as compared matches each recorded preimage. */
  lemma ConflictsApply(groups: seq<Group>, snap: Db, d1: Db, columns: map<Table, seq<string>>, i: nat)
    requires Columned(columns) && Conflicts(groups, snap, d1) && Restorable(snap, d1, columns) && i < |groups|
    ensures GroupSound(groups[i], columns) && Enumerate(d1, groups[i].gid) == groups[i].d1
  {
    var g := groups[i];
    assert Recorded(g, snap, d1);
    assert g.snapshot == RowsAt(snap, g.keys) && g.d1 == RowsAt(d1, g.keys);
    forall k | k in g.snapshot ensures GidOf(snap, k) == g.gid {}
    forall k | k in g.snapshot && Parent(k).Some? ensures Parent(k).value in g.snapshot {
      var p := Parent(k).value;
      assert k in Children(p) && p in snap;
      ChildGroup(p, k, snap[p], snap[k]);
      assert InGroup(snap, d1, p, g.gid);
    }
    forall k | k in g.snapshot ensures NormRow(g.snapshot[k]) == g.snapshot[k] { NormTwice(snap[k]); }
    forall k ensures k in Enumerate(d1, g.gid) <==> k in g.d1 {
      if k in g.d1 { assert InGroup(snap, d1, k, g.gid); }
    }
    assert Enumerate(d1, g.gid).Keys == g.d1.Keys;
  }

  lemma NormTwice(r: Row)
    ensures NormRow(NormRow(r)) == NormRow(r)
  {
    forall c | c in r ensures NormValue(NormValue(r[c])) == NormValue(r[c]) {}
    assert NormRow(NormRow(r)).Keys == NormRow(r).Keys;
  }

  // ------------------------------------------------------------ from prepare to apply

  /** The groups the operator chose the snapshot for. */
  function Selected(groups: seq<Group>, selections: set<Gid>): (r: seq<Group>)
    ensures forall g :: g in r <==> g in groups && g.gid in selections
  {
    if groups == [] then []
    else if groups[0].gid in selections then [groups[0]] + Selected(groups[1..], selections)
    else Selected(groups[1..], selections)
  }

  ghost predicate Apart(a: Group, b: Group) {
    a.gid != b.gid && forall k :: k in a.keys ==> k !in b.keys
  }

  ghost predicate AllApart(groups: seq<Group>) {
    forall i, j :: 0 <= i < j < |groups| ==> Apart(groups[i], groups[j])
  }

  lemma ConflictsApart(groups: seq<Group>, snap: Db, d1: Db)
    requires Conflicts(groups, snap, d1) && forall k :: k in snap && k in d1 ==> GidOf(snap, k) == GidOf(d1, k)
    ensures AllApart(groups)
  {
    forall i, j | 0 <= i < j < |groups| ensures Apart(groups[i], groups[j]) {
      assert Recorded(groups[i], snap, d1) && Recorded(groups[j], snap, d1);
      forall k | k in groups[i].keys ensures k !in groups[j].keys {
        assert InGroup(snap, d1, k, groups[i].gid);
      }
    }
  }

  lemma {:induction false} SelectedApart(groups: seq<Group>, selections: set<Gid>)
    requires AllApart(groups)
    ensures AllApart(Selected(groups, selections))
  {
    if groups != [] {
      var rest := Selected(groups[1..], selections);
      assert AllApart(groups[1..]) by {
        forall i, j | 0 <= i < j < |groups[1..]| ensures Apart(groups[1..][i], groups[1..][j]) {
          assert groups[1..][i] == groups[i + 1] && groups[1..][j] == groups[j + 1];
        }
      }
      SelectedApart(groups[1..], selections);
      forall j | 0 <= j < |rest| ensures Apart(groups[0], rest[j]) {
        assert rest[j] in groups[1..];
        var m :| 0 <= m < |groups[1..]| && groups[1..][m] == rest[j];
        assert groups[m + 1] == rest[j];
      }
      ConsApart(groups[0], rest);
    }
  }

  lemma ConsApart(g: Group, rest: seq<Group>)
    requires AllApart(rest) && forall j :: 0 <= j < |rest| ==> Apart(g, rest[j])
    ensures AllApart([g] + rest)
  {}

  /** What prepare records is what apply needs: any selection whose statements
      can be built is a choice of sound groups, none sharing a key, each
      matching its preimage on D1 as compared and keeping its actions. */
  lemma ConflictsChosen(groups: seq<Group>, snap: Db, d1: Db, columns: map<Table, seq<string>>, selections: set<Gid>)
    requires Columned(columns) && Conflicts(groups, snap, d1) && Restorable(snap, d1, columns)
    requires forall g :: g in groups && g.gid in selections ==> GroupStatements(g, columns).Some?
    ensures Chosen(Selected(groups, selections), columns)
    ensures forall g :: g in Selected(groups, selections) ==> Enumerate(d1, g.gid) == g.d1 && ActionsFixed(g, d1)
  {
    var chosen := Selected(groups, selections);
    ConflictsApart(groups, snap, d1);
    SelectedApart(groups, selections);
    forall g | g in chosen ensures GroupSound(g, columns) && Enumerate(d1, g.gid) == g.d1 && ActionsFixed(g, d1) {
      var i :| 0 <= i < |groups| && groups[i] == g;
      ConflictsApply(groups, snap, d1, columns, i);
      ConflictActions(g, snap, d1);
    }
    ChosenWhen(chosen, columns);
  }

  lemma ConflictActions(g: Group, snap: Db, d1: Db)
    requires Recorded(g, snap, d1) && forall k :: k in snap && k in d1 ==> GidOf(snap, k) == GidOf(d1, k)
    ensures ActionsFixed(g, d1)
  {
    forall k: Key | k.tbl == Actions && k in g.snapshot && k in d1 ensures GroupOf(Actions, d1[k]) == g.gid {
      assert k in snap && InGroup(snap, d1, k, g.gid);
    }
  }

  lemma ChosenWhen(groups: seq<Group>, columns: map<Table, seq<string>>)
    requires Columned(columns) && AllApart(groups)
    requires forall g :: g in groups ==> GroupSound(g, columns) && GroupStatements(g, columns).Some?
    ensures Chosen(groups, columns)
  {
    forall i, j | 0 <= i < j < |groups|
      ensures groups[i].gid != groups[j].gid && forall k :: k in groups[i].keys ==> k !in groups[j].keys
    {
      assert Apart(groups[i], groups[j]);
    }
  }
}
