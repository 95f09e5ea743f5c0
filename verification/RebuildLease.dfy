/** The embedding rebuild behind its lease. Every statement is its own step and
    any number of other rebuilds run between two of them. */
module RebuildLease {
  import opened Rows
  import opened VectorKinds

  const LEASE_SECONDS := 300
  const REPAIR_CHUNK: nat := 20

  /** The lease row: a token and its last heartbeat, or text that is neither. */
  datatype LeaseValue = Held(token: nat, beat: int) | Garbage(text: string)

  /** What a rebuild writes under its lease, its heartbeats included. A model's
      dim is its dense dimension, None the backend's own kind. */
  datatype What =
    | Renewal
    | BuildingStamp
    | Vector(id: int, vec: Vec)
    | Model(name: string, dim: Option<nat>)
    | Repair(id: int)
    | AuditStamp

  /** The history of the lease and of the fenced writes. */
  datatype Entry = Took(token: nat) | Gave(token: nat) | Wrote(token: nat, what: What)

  datatype Shared = Shared(lease: Option<LeaseValue>, log: seq<Entry>)

  /** One statement of one rebuild. Each process reads its own clock. */
  datatype Op =
    | Insert(token: nat, beat: int)                     // INSERT OR IGNORE
    | Steal(token: nat, seen: LeaseValue, beat: int)    // compare and set over a value stale by its own clock, beat
    | Beat(token: nat, seen: LeaseValue, beat: int)     // compare and set of the own value
    | Write(token: nat, what: What)                     // INSERT ... WHERE EXISTS (the lease is mine)
    | Release(token: nat)

  predicate HeldBy(lease: Option<LeaseValue>, token: nat) {
    lease.Some? && lease.value.Held? && lease.value.token == token
  }

  predicate Stale(v: LeaseValue, now: int) {
    v.Garbage? || now - v.beat > LEASE_SECONDS
  }

  /** Whether the statement's row count is not zero. */
  predicate Changes(s: Shared, op: Op) {
    match op
    case Insert(_, _) => s.lease.None?
    case Steal(_, seen, beat) => s.lease == Some(seen) && Stale(seen, beat)
    case Beat(token, seen, _) => s.lease == Some(seen) && HeldBy(s.lease, token)
    case Write(token, _) => HeldBy(s.lease, token)
    case Release(token) => HeldBy(s.lease, token)
  }

  function Exec(s: Shared, op: Op): Shared {
    if !Changes(s, op) then s
    else
      match op
      case Insert(token, beat) => s.(lease := Some(Held(token, beat)), log := s.log + [Took(token)])
      case Steal(token, _, beat) => s.(lease := Some(Held(token, beat)), log := s.log + [Took(token)])
      case Beat(token, _, beat) => s.(lease := Some(Held(token, beat)), log := s.log + [Wrote(token, Renewal)])
      case Write(token, what) => s.(log := s.log + [Wrote(token, what)])
      case Release(token) => s.(lease := None, log := s.log + [Gave(token)])
  }

  function ExecAll(s: Shared, ops: seq<Op>): Shared
    decreases |ops|
  {
    if ops == [] then s else ExecAll(Exec(s, ops[0]), ops[1..])
  }

  predicate NotOf(ops: seq<Op>, me: nat) {
    forall i :: 0 <= i < |ops| ==> ops[i].token != me
  }

  /** A lost token is never regained: if others leave the lease mine, it was
      mine all along, and nothing was written meanwhile. */
  lemma {:induction false} NeverRegained(s: Shared, ops: seq<Op>, me: nat)
    requires NotOf(ops, me)
    ensures HeldBy(ExecAll(s, ops).lease, me) ==>
              ExecAll(s, ops).lease == s.lease && ExecAll(s, ops).log == s.log
    decreases |ops|
  {
    if ops != [] { NeverRegained(Exec(s, ops[0]), ops[1..], me); }
  }

  lemma {:induction false} LogGrows(s: Shared, ops: seq<Op>)
    ensures s.log <= ExecAll(s, ops).log
    decreases |ops|
  {
    if ops != [] { LogGrows(Exec(s, ops[0]), ops[1..]); }
  }

  /** No other process reads, before it steals, a time more than the lease time
      past this heartbeat. */
  predicate ClocksWithin(ops: seq<Op>, beat: int) {
    forall i :: 0 <= i < |ops| && ops[i].Steal? ==> ops[i].beat - beat <= 300
  }

  /** A heartbeat that nobody's clock makes older than the lease time protects
      the lease. */
  lemma {:induction false} FreshLeaseIsKept(s: Shared, ops: seq<Op>, me: nat)
    requires NotOf(ops, me) && HeldBy(s.lease, me) && ClocksWithin(ops, s.lease.value.beat)
    ensures ExecAll(s, ops).lease == s.lease && ExecAll(s, ops).log == s.log
    decreases |ops|
  {
    if ops != [] {
      FreshLeaseIsKept(Exec(s, ops[0]), ops[1..], me);
    }
  }

  /** A statement of another process loses me the lease exactly when it is a
      steal by a clock that makes the heartbeat too old. */
  lemma LostExactly(s: Shared, op: Op, me: nat)
    requires op.token != me && HeldBy(s.lease, me)
    ensures !HeldBy(Exec(s, op).lease, me)
            <==> op.Steal? && Some(op.seen) == s.lease && op.beat - s.lease.value.beat > 300
  {}

  // ------------------------------------------------------------ what a rebuild writes

  function Entries(me: nat, writes: seq<What>): (r: seq<Entry>)
    ensures |r| == |writes| && forall i :: 0 <= i < |writes| ==> r[i] == Wrote(me, writes[i])
  {
    seq(|writes|, i requires 0 <= i < |writes| => Wrote(me, writes[i]))
  }

  function Vectors(ids: seq<int>, vecs: seq<Vec>): (r: seq<What>)
    requires |ids| == |vecs|
    ensures |r| == |ids| && forall i :: 0 <= i < |ids| ==> r[i] == Vector(ids[i], vecs[i])
  {
    seq(|ids|, i requires 0 <= i < |ids| => Vector(ids[i], vecs[i]))
  }

  function Repairs(ids: seq<int>): (r: seq<What>)
    ensures |r| == |ids| && forall i :: 0 <= i < |ids| ==> r[i] == Repair(ids[i])
  {
    seq(|ids|, i requires 0 <= i < |ids| => Repair(ids[i]))
  }

  /** The dense dimension of the first vector that has a kind. */
  function Dimension(vecs: seq<Vec>): Option<nat> {
    if vecs == [] then None
    else
      match RepresentationOf(vecs[0])
      case Empty => Dimension(vecs[1..])
      case Dense(n) => Some(n)
      case Sparse => None
  }

  /** Uniform vectors are all of the certified dimension, or all sparse. */
  lemma {:induction false} DimensionCertifies(vecs: seq<Vec>, i: nat)
    requires Uniform(vecs) && i < |vecs|
    ensures match Dimension(vecs) {
              case Some(n) => RepresentationOf(vecs[i]) in {Dense(n), Empty}
              case None => RepresentationOf(vecs[i]) in {Sparse, Empty}
            }
  {
    var first := RepresentationOf(vecs[0]);
    if first.Empty? {
      if i > 0 {
        assert Uniform(vecs[1..]);
        DimensionCertifies(vecs[1..], i - 1);
        assert vecs[1..][i - 1] == vecs[i];
      } else {
        assert RepresentationOf(vecs[i]) == Empty;
      }
    } else {
      assert RepresentationOf(vecs[0]) == RepresentationOf(vecs[i]) || RepresentationOf(vecs[i]) == Empty;
    }
  }

  /** The published dimension is the certified one. */
  lemma {:induction false} DimensionExact(vecs: seq<Vec>)
    requires Uniform(vecs)
    ensures Certified(vecs, Dimension(vecs))
  {
    var dim := UniformCertified(vecs);
    if dim.Some? {
      var i :| 0 <= i < |vecs| && vecs[i] != map[];
      EmptyExact(vecs[i]);
      SameKind(vecs, dim, i);
      DimensionCertifies(vecs, i);
    } else {
      forall i, n: nat | 0 <= i < |vecs| && vecs[i] != map[] ensures Dimension(vecs) != Some(n) {
        EmptyExact(vecs[i]);
        SameKind(vecs, dim, i);
        DimensionCertifies(vecs, i);
      }
      if forall i :: 0 <= i < |vecs| ==> vecs[i] == map[] { AllEmpty(vecs); }
    }
  }

  lemma {:induction false} AllEmpty(vecs: seq<Vec>)
    requires forall i :: 0 <= i < |vecs| ==> vecs[i] == map[]
    ensures Dimension(vecs) == None
  {
    if vecs != [] {
      EmptyExact(vecs[0]);
      AllEmpty(vecs[1..]);
    }
  }

  /** seen is the one kind among them that is not empty, if any. */
  ghost predicate OnlyKind(vecs: seq<Vec>, seen: Option<Representation>) {
    && (forall i :: 0 <= i < |vecs| ==>
          RepresentationOf(vecs[i]) == Empty || Some(RepresentationOf(vecs[i])) == seen)
    && (seen.Some? ==> seen.value != Empty && exists i :: 0 <= i < |vecs| && RepresentationOf(vecs[i]) == seen.value)
  }

  lemma TwoKinds(vecs: seq<Vec>, i: nat, rep: Representation)
    requires i < |vecs| && OnlyKind(vecs[..i], Some(rep)) && RepresentationOf(vecs[i]) != Empty
    requires RepresentationOf(vecs[i]) != rep
    ensures !Uniform(vecs)
  {
    var j :| 0 <= j < i && RepresentationOf(vecs[..i][j]) == rep;
    assert vecs[j] == vecs[..i][j];
  }

  lemma NextKind(vecs: seq<Vec>, i: nat, seen: Option<Representation>)
    requires i < |vecs| && OnlyKind(vecs[..i], seen)
    requires seen.Some? && RepresentationOf(vecs[i]) != Empty ==> seen.value == RepresentationOf(vecs[i])
    ensures OnlyKind(vecs[..i + 1], if RepresentationOf(vecs[i]) == Empty then seen else Some(RepresentationOf(vecs[i])))
  {
    var now := vecs[..i + 1];
    assert now == vecs[..i] + [vecs[i]];
    if seen.Some? {
      var j :| 0 <= j < i && RepresentationOf(vecs[..i][j]) == seen.value;
      assert now[j] == vecs[..i][j];
    }
    assert now[i] == vecs[i];
  }

  lemma OneKind(vecs: seq<Vec>, seen: Option<Representation>)
    requires OnlyKind(vecs, seen)
    ensures Uniform(vecs)
    ensures Dimension(vecs) == if seen.Some? && seen.value.Dense? then Some(seen.value.n) else None
  {
    if seen.Some? {
      var i :| 0 <= i < |vecs| && RepresentationOf(vecs[i]) == seen.value;
      DimensionCertifies(vecs, i);
    } else {
      forall i | 0 <= i < |vecs| ensures vecs[i] == map[] { EmptyExact(vecs[i]); }
      AllEmpty(vecs);
    }
  }

  // ------------------------------------------------------------ all it writes, heartbeats included

  /** A chunk: a heartbeat before the embedding call, one before the writes. */
  function ChunkWrite(ids: seq<int>, vecs: seq<Vec>): seq<What>
    requires |ids| == |vecs|
  {
    [Renewal, Renewal] + Vectors(ids, vecs)
  }

  function ChunkWrites(ids: seq<int>, vecs: seq<Vec>, chunk: nat): seq<What>
    requires |ids| == |vecs| && chunk >= 1
    decreases |ids|
  {
    if ids == [] then []
    else
      var n := if chunk < |ids| then chunk else |ids|;
      ChunkWrite(ids[..n], vecs[..n]) + ChunkWrites(ids[n..], vecs[n..], chunk)
  }

  /** The i-th repair: a heartbeat before every 20. */
  function RepairWrite(ids: seq<int>, i: nat): seq<What>
    requires i < |ids|
  {
    if i % REPAIR_CHUNK == 0 then [Renewal, Repair(ids[i])] else [Repair(ids[i])]
  }

  /** The repairs from the i-th. */
  function RepairWrites(ids: seq<int>, i: nat): seq<What>
    requires i <= |ids|
    decreases |ids| - i
  {
    if i == |ids| then []
    else RepairWrite(ids, i) + RepairWrites(ids, i + 1)
  }

  /** The model and the repairs. */
  function ModelWrites(ids: seq<int>, vecs: seq<Vec>, repaired: seq<int>, model: string): seq<What> {
    if ids == [] then [Renewal, Model(model, None)]
    else [Renewal, Model(model, Dimension(vecs))] + RepairWrites(repaired, 0)
  }

  const ENDING: seq<What> := [Renewal, Renewal, AuditStamp, Renewal]

  /** Everything a finished rebuild has written, in order. */
  function Plan(ids: seq<int>, vecs: seq<Vec>, repaired: seq<int>, model: string, chunk: nat): seq<What>
    requires |ids| == |vecs| && chunk >= 1
  {
    [Renewal, BuildingStamp] + ChunkWrites(ids, vecs, chunk) + ModelWrites(ids, vecs, repaired, model) + ENDING
  }

  /** Without the heartbeats. */
  function Fenced(writes: seq<What>): seq<What> {
    if writes == [] then []
    else (if writes[0].Renewal? then [] else [writes[0]]) + Fenced(writes[1..])
  }

  lemma {:induction false} FencedBoth(a: seq<What>, b: seq<What>)
    ensures Fenced(a + b) == Fenced(a) + Fenced(b)
  {
    if a == [] {
      assert a + b == b;
    } else {
      assert (a + b)[0] == a[0] && (a + b)[1..] == a[1..] + b;
      FencedBoth(a[1..], b);
    }
  }

  lemma {:induction false} FencedAll(writes: seq<What>)
    requires forall i :: 0 <= i < |writes| ==> !writes[i].Renewal?
    ensures Fenced(writes) == writes
  {
    if writes != [] { FencedAll(writes[1..]); }
  }

  lemma ChunkFenced(ids: seq<int>, vecs: seq<Vec>)
    requires |ids| == |vecs|
    ensures Fenced(ChunkWrite(ids, vecs)) == Vectors(ids, vecs)
  {
    TwoRenewals();
    FencedAll(Vectors(ids, vecs));
    FencedBoth([Renewal, Renewal], Vectors(ids, vecs));
  }

  lemma VectorsBoth(ids: seq<int>, vecs: seq<Vec>, n: nat)
    requires |ids| == |vecs| && n <= |ids|
    ensures Vectors(ids[..n], vecs[..n]) + Vectors(ids[n..], vecs[n..]) == Vectors(ids, vecs)
  {}

  lemma {:induction false} ChunksFenced(ids: seq<int>, vecs: seq<Vec>, chunk: nat)
    requires |ids| == |vecs| && chunk >= 1
    ensures Fenced(ChunkWrites(ids, vecs, chunk)) == Vectors(ids, vecs)
    decreases |ids|
  {
    if ids != [] {
      var n := if chunk < |ids| then chunk else |ids|;
      ChunksFenced(ids[n..], vecs[n..], chunk);
      ChunkFenced(ids[..n], vecs[..n]);
      FencedBoth(ChunkWrite(ids[..n], vecs[..n]), ChunkWrites(ids[n..], vecs[n..], chunk));
      VectorsBoth(ids, vecs, n);
    }
  }

  lemma TwoRenewals()
    ensures Fenced([Renewal]) == [] && Fenced([Renewal, Renewal]) == []
  {
    assert [Renewal, Renewal][1..] == [Renewal] && [Renewal][1..] == [];
  }

  lemma RepairFenced(ids: seq<int>, i: nat)
    requires i < |ids|
    ensures Fenced(RepairWrite(ids, i)) == [Repair(ids[i])]
  {
    TwoRenewals();
    FencedBoth([Renewal], [Repair(ids[i])]);
    FencedAll([Repair(ids[i])]);
  }

  lemma {:induction false} RepairsFenced(ids: seq<int>, i: nat)
    requires i <= |ids|
    ensures Fenced(RepairWrites(ids, i)) == Repairs(ids[i..])
    decreases |ids| - i
  {
    if i < |ids| {
      RepairsFenced(ids, i + 1);
      FencedBoth(RepairWrite(ids, i), RepairWrites(ids, i + 1));
      RepairFenced(ids, i);
      assert [Repair(ids[i])] + Repairs(ids[i + 1..]) == Repairs(ids[i..]);
    }
  }

  lemma EndingFenced(model: string, dim: Option<nat>)
    ensures Fenced([Renewal, BuildingStamp]) == [BuildingStamp] && Fenced([Renewal, Model(model, dim)]) == [Model(model, dim)]
    ensures Fenced(ENDING) == [AuditStamp]
  {
    TwoRenewals();
    FencedAll([BuildingStamp]);
    FencedBoth([Renewal], [BuildingStamp]);
    FencedAll([Model(model, dim)]);
    FencedBoth([Renewal], [Model(model, dim)]);
    FencedAll([AuditStamp]);
    FencedBoth([Renewal, Renewal], [AuditStamp]);
    FencedBoth([Renewal, Renewal] + [AuditStamp], [Renewal]);
    assert [Renewal, Renewal] + [AuditStamp] + [Renewal] == ENDING;
  }

  lemma ModelFenced(ids: seq<int>, vecs: seq<Vec>, repaired: seq<int>, model: string)
    ensures Fenced(ModelWrites(ids, vecs, repaired, model))
            == if ids == [] then [Model(model, None)] else [Model(model, Dimension(vecs))] + Repairs(repaired)
  {
    EndingFenced(model, if ids == [] then None else Dimension(vecs));
    RepairsFenced(repaired, 0);
    assert repaired[0..] == repaired;
    FencedBoth([Renewal, Model(model, Dimension(vecs))], RepairWrites(repaired, 0));
  }

  /** A finished rebuild has written the stamps, every vector in order, the
      model with the certified dimension, and the repairs, once each. */
  lemma PlanExact(ids: seq<int>, vecs: seq<Vec>, repaired: seq<int>, model: string, chunk: nat)
    requires |ids| == |vecs| && chunk >= 1
    ensures Fenced(Plan(ids, vecs, repaired, model, chunk))
            == [BuildingStamp] + Vectors(ids, vecs)
               + (if ids == [] then [Model(model, None)] else [Model(model, Dimension(vecs))] + Repairs(repaired))
               + [AuditStamp]
  {
    var a, b, c := [Renewal, BuildingStamp], ChunkWrites(ids, vecs, chunk), ModelWrites(ids, vecs, repaired, model);
    EndingFenced(model, None);
    ChunksFenced(ids, vecs, chunk);
    ModelFenced(ids, vecs, repaired, model);
    FencedBoth(a + b + c, ENDING);
    FencedBoth(a + b, c);
    FencedBoth(a, b);
  }

  /** More than n writes in a row are never without a heartbeat. */
  ghost predicate Spaced(writes: seq<What>, n: nat) {
    forall i, j :: 0 <= i && i + n < j <= |writes| ==> RenewedIn(writes, i, j)
  }

  ghost predicate RenewedIn(writes: seq<What>, i: int, j: int)
    requires 0 <= i <= j <= |writes|
  {
    exists k :: i <= k < j && writes[k] == Renewal
  }

  lemma SpacedBoth(a: seq<What>, b: seq<What>, n: nat)
    requires Spaced(a, n) && Spaced(b, n) && (b != [] ==> b[0] == Renewal)
    ensures Spaced(a + b, n)
  {
    var all := a + b;
    forall i, j | 0 <= i && i + n < j <= |all| ensures RenewedIn(all, i, j) {
      if j <= |a| {
        assert RenewedIn(a, i, j);
        var k :| i <= k < j && a[k] == Renewal;
        assert all[k] == Renewal;
      } else if |a| <= i {
        assert RenewedIn(b, i - |a|, j - |a|);
        var k :| i - |a| <= k < j - |a| && b[k] == Renewal;
        assert all[|a| + k] == Renewal;
      } else {
        assert all[|a|] == b[0];
      }
    }
  }

  lemma SpacedOne(b: seq<What>, n: nat)
    requires 1 <= |b| <= n + 1 && b[0] == Renewal
    ensures Spaced(b, n)
  {
    forall i, j | 0 <= i && i + n < j <= |b| ensures RenewedIn(b, i, j) { assert b[0] == Renewal; }
  }

  lemma {:induction false} ChunksSpaced(ids: seq<int>, vecs: seq<Vec>, chunk: nat, n: nat)
    requires |ids| == |vecs| && 1 <= chunk <= n
    ensures Spaced(ChunkWrites(ids, vecs, chunk), n)
    ensures ids != [] ==> ChunkWrites(ids, vecs, chunk)[0] == Renewal
    decreases |ids|
  {
    if ids != [] {
      var m := if chunk < |ids| then chunk else |ids|;
      ChunksSpaced(ids[m..], vecs[m..], chunk, n);
      SpacedOne([Renewal], n);
      SpacedOne([Renewal] + Vectors(ids[..m], vecs[..m]), n);
      SpacedBoth([Renewal], [Renewal] + Vectors(ids[..m], vecs[..m]), n);
      assert [Renewal] + ([Renewal] + Vectors(ids[..m], vecs[..m])) == [Renewal, Renewal] + Vectors(ids[..m], vecs[..m]);
      SpacedBoth([Renewal, Renewal] + Vectors(ids[..m], vecs[..m]), ChunkWrites(ids[m..], vecs[m..], chunk), n);
    }
  }

  /** One of the last m writes is a heartbeat. */
  ghost predicate Recent(writes: seq<What>, m: nat) {
    exists k :: 0 <= k < |writes| && |writes| - m <= k && writes[k] == Renewal
  }

  lemma RepairSpaced(before: seq<What>, ids: seq<int>, i: nat, n: nat)
    requires i < |ids| && 20 <= n && Spaced(before, n) && (i % 20 != 0 ==> Recent(before, i % 20 + 1))
    ensures var next := before + RepairWrite(ids, i);
            Spaced(next, n) && ((i + 1) % 20 != 0 ==> Recent(next, (i + 1) % 20 + 1))
  {
    var next := before + RepairWrite(ids, i);
    if i % 20 == 0 {
      SpacedOne([Renewal, Repair(ids[i])], n);
      SpacedBoth(before, [Renewal, Repair(ids[i])], n);
      assert next[|before|] == Renewal;
    } else {
      var k :| 0 <= k < |before| && |before| - (i % 20 + 1) <= k && before[k] == Renewal;
      OneMoreSpaced(before, Repair(ids[i]), k, n);
      assert next[k] == Renewal;
    }
  }

  /** So do the repairs, 20 at a time, whatever was written before. */
  lemma {:induction false} RepairsSpaced(before: seq<What>, ids: seq<int>, i: nat, n: nat)
    requires i <= |ids| && 20 <= n && Spaced(before, n) && (i % 20 != 0 ==> Recent(before, i % 20 + 1))
    ensures Spaced(before + RepairWrites(ids, i), n)
    decreases |ids| - i
  {
    if i == |ids| {
      assert before + RepairWrites(ids, i) == before;
    } else {
      var next := before + RepairWrite(ids, i);
      RepairSpaced(before, ids, i, n);
      RepairsSpaced(next, ids, i + 1, n);
      assert RepairWrites(ids, i) == RepairWrite(ids, i) + RepairWrites(ids, i + 1);
      assert before + RepairWrites(ids, i) == next + RepairWrites(ids, i + 1);
    }
  }

  lemma OneMoreSpaced(before: seq<What>, w: What, k: nat, n: nat)
    requires Spaced(before, n) && k < |before| && before[k] == Renewal && |before| - k <= n
    ensures Spaced(before + [w], n)
  {
    var all := before + [w];
    forall i, j | 0 <= i && i + n < j <= |all| ensures RenewedIn(all, i, j) {
      if j <= |before| {
        assert RenewedIn(before, i, j);
        var m :| i <= m < j && before[m] == Renewal;
        assert all[m] == Renewal;
      } else {
        assert all[k] == Renewal;
      }
    }
  }

  /** A rebuild never writes more than a chunk, or 20 repairs, without a
      heartbeat, and its first and last write is one. */
  lemma RenewedOften(ids: seq<int>, vecs: seq<Vec>, repaired: seq<int>, model: string, chunk: nat, n: nat)
    requires |ids| == |vecs| && 1 <= chunk <= n && 20 <= n
    ensures var plan := Plan(ids, vecs, repaired, model, chunk);
            Spaced(plan, n) && plan[0] == Renewal && plan[|plan| - 1] == Renewal
  {
    var dim := if ids == [] then None else Dimension(vecs);
    var a, b := [Renewal, BuildingStamp], ChunkWrites(ids, vecs, chunk);
    SpacedOne(a, n);
    ChunksSpaced(ids, vecs, chunk, n);
    SpacedBoth(a, b, n);
    SpacedOne([Renewal, Model(model, dim)], n);
    SpacedBoth(a + b, [Renewal, Model(model, dim)], n);
    var c := a + b + [Renewal, Model(model, dim)];
    RepairsSpaced(c, repaired, 0, n);
    SpacedOne(ENDING, n);
    if ids == [] {
      SpacedBoth(c, ENDING, n);
      assert Plan(ids, vecs, repaired, model, chunk) == c + ENDING;
    } else {
      SpacedBoth(c + RepairWrites(repaired, 0), ENDING, n);
      assert a + b + ([Renewal, Model(model, dim)] + RepairWrites(repaired, 0)) == c + RepairWrites(repaired, 0);
    }
  }

  lemma Regroup(a: seq<What>, b: seq<What>, c: seq<What>)
    ensures a + (b + c) == (a + b) + c
  {}

  lemma NextChunk(done: seq<What>, ids: seq<int>, vecs: seq<Vec>, chunk: nat, i: nat, end: nat)
    requires |ids| == |vecs| && chunk >= 1 && i < |ids| && end == if i + chunk < |ids| then i + chunk else |ids|
    ensures done + ChunkWrites(ids[i..], vecs[i..], chunk)
            == (done + ChunkWrite(ids[i..end], vecs[i..end])) + ChunkWrites(ids[end..], vecs[end..], chunk)
  {
    assert ids[i..][..end - i] == ids[i..end] && vecs[i..][..end - i] == vecs[i..end];
    assert ids[i..][end - i..] == ids[end..] && vecs[i..][end - i..] == vecs[end..];
    Regroup(done, ChunkWrite(ids[i..end], vecs[i..end]), ChunkWrites(ids[end..], vecs[end..], chunk));
  }

  datatype Fault = AlreadyBuilding | LeaseLost | NonUniform

  /** What the others do before my next statement, and what my clock then
      reads. */
  datatype Turn = Turn(ops: seq<Op>, clock: int)

  function OthersDo(s: Shared, schedule: seq<Turn>, turn: nat): Shared {
    if turn < |schedule| then ExecAll(s, schedule[turn].ops) else s
  }

  function Later(schedule: seq<Turn>, turn: nat): nat { if turn < |schedule| then turn + 1 else turn }

  /** The clock after the others' turn. */
  function ClockAt(now: int, schedule: seq<Turn>, turn: nat): int {
    if turn < |schedule| then schedule[turn].clock else now
  }

  class RebuildStore {
    var lease: Option<LeaseValue>
    var log: seq<Entry>
    var now: int
    var schedule: seq<Turn>
    var turn: nat

    constructor (start: Shared, clock: int, others: seq<Turn>)
      ensures View() == start && now == clock && schedule == others && turn == 0
    {
      lease, log, now := start.lease, start.log, clock;
      schedule, turn := others, 0;
    }

    function View(): Shared
      reads this
    {
      Shared(lease, log)
    }

    predicate Alone(me: nat)
      reads this
    {
      forall i :: 0 <= i < |schedule| ==> NotOf(schedule[i].ops, me)
    }

    /** The log of a rebuild that has written these, held since before. */
    ghost predicate Holding(me: nat, before: seq<Entry>, writes: seq<What>)
      reads this
    {
      HeldBy(lease, me) && log == before + [Took(me)] + Entries(me, writes)
    }

    /** The other rebuilds get their turn. */
    method Yield(ghost me: nat)
      requires Alone(me)
      modifies this
      ensures Alone(me) && schedule == old(schedule)
      ensures View() == OthersDo(old(View()), schedule, old(turn)) && turn == Later(schedule, old(turn))
      ensures now == ClockAt(old(now), schedule, old(turn))
      ensures HeldBy(lease, me) ==> lease == old(lease) && log == old(log)
      ensures old(log) <= log
    {
      if turn < |schedule| {
        NeverRegained(View(), schedule[turn].ops, me);
        LogGrows(View(), schedule[turn].ops);
        var s := ExecAll(View(), schedule[turn].ops);
        lease, log, now := s.lease, s.log, schedule[turn].clock;
        turn := turn + 1;
      }
    }

    /** One statement of mine; whether it changed a row. */
    method Run(op: Op) returns (changed: bool)
      modifies `lease, `log
      ensures View() == Exec(old(View()), op) && changed == Changes(old(View()), op)
    {
      changed := Changes(View(), op);
      var s := Exec(View(), op);
      lease, log := s.lease, s.log;
    }

    /** _acquire_rebuild_lease: a free lease is inserted, one seen stale is
        stolen if it is still the one seen; its clock is read once. */
    method Acquire(me: nat) returns (ok: bool, before: seq<Entry>)
      requires Alone(me) && !HeldBy(lease, me)
      modifies this
      ensures Alone(me) && schedule == old(schedule)
      ensures ok ==> old(log) <= before && Holding(me, before, [])
      ensures !ok ==> !HeldBy(lease, me)
      ensures var t1, t2 := Later(schedule, old(turn)), Later(schedule, Later(schedule, old(turn)));
              var s1 := OthersDo(old(View()), schedule, old(turn));
              var clock := ClockAt(old(now), schedule, old(turn));
              var s2 := OthersDo(if s1.lease.None? then Exec(s1, Insert(me, clock)) else s1, schedule, t1);
              var s3 := OthersDo(s2, schedule, t2);
              ok <==> || s2.lease == Some(Held(me, clock))
                      || (s2.lease.Some? && (s2.lease.value.Garbage? || clock - s2.lease.value.beat > 300)
                          && s3.lease == s2.lease)
      ensures ok ==> lease == Some(Held(me, ClockAt(old(now), schedule, old(turn))))
    {
      Yield(me);
      var candidate := Held(me, now);
      before := log;
      var inserted := Run(Insert(me, now));
      Yield(me);
      var current := lease;
      if current == Some(candidate) {
        return true, before;
      }
      if current.Some? && Stale(current.value, candidate.beat) {
        Yield(me);
        before := log;
        ok := Run(Steal(me, current.value, candidate.beat));
        return;
      }
      ok := false;
    }

    /** _heartbeat_rebuild_lease: a compare and set of the value read. */
    method Heartbeat(me: nat, ghost before: seq<Entry>, ghost writes: seq<What>) returns (ok: bool)
      requires Alone(me) && Holding(me, before, writes)
      modifies this
      ensures Alone(me) && schedule == old(schedule)
      ensures ok ==> Holding(me, before, writes + [Renewal]) && lease == Some(Held(me, now))
      ensures !ok ==> !HeldBy(lease, me)
      ensures var s1 := OthersDo(old(View()), schedule, old(turn));
              ok <==> HeldBy(s1.lease, me) && HeldBy(OthersDo(s1, schedule, Later(schedule, old(turn))).lease, me)
    {
      Yield(me);
      var current := lease;
      if !HeldBy(current, me) { return false; }
      Yield(me);
      ok := Run(Beat(me, current.value, now));
      assert Entries(me, writes + [Renewal]) == Entries(me, writes) + [Wrote(me, Renewal)];
    }

    method Put(me: nat, what: What, ghost before: seq<Entry>, ghost writes: seq<What>) returns (ok: bool)
      requires Alone(me) && Holding(me, before, writes)
      modifies this
      ensures Alone(me) && schedule == old(schedule)
      ensures ok ==> Holding(me, before, writes + [what])
      ensures !ok ==> !HeldBy(lease, me)
      ensures ok <==> HeldBy(OthersDo(old(View()), schedule, old(turn)).lease, me)
    {
      Yield(me);
      ok := Run(Write(me, what));
      assert Entries(me, writes + [what]) == Entries(me, writes) + [Wrote(me, what)];
    }

    /** upsert_embeddings_batch: one fenced statement a row. */
    method PutVectors(me: nat, ids: seq<int>, vecs: seq<Vec>, ghost before: seq<Entry>, ghost writes: seq<What>)
      returns (ok: bool)
      requires |ids| == |vecs| && Alone(me) && Holding(me, before, writes)
      modifies this
      ensures Alone(me) && schedule == old(schedule)
      ensures ok ==> Holding(me, before, writes + Vectors(ids, vecs))
      ensures !ok ==> !HeldBy(lease, me)
    {
      var i := 0;
      ghost var done := writes;
      assert writes + Vectors(ids[..0], vecs[..0]) == writes;
      while i < |ids|
        invariant 0 <= i <= |ids| && Alone(me) && schedule == old(schedule)
        invariant done == writes + Vectors(ids[..i], vecs[..i]) && Holding(me, before, done)
      {
        ok := Put(me, Vector(ids[i], vecs[i]), before, done);
        if !ok { return; }
        assert Vectors(ids[..i + 1], vecs[..i + 1]) == Vectors(ids[..i], vecs[..i]) + [Vector(ids[i], vecs[i])];
        done := done + [Vector(ids[i], vecs[i])];
        i := i + 1;
      }
      assert ids[..i] == ids && vecs[..i] == vecs;
      ok := true;
    }

    method PutRepairs(me: nat, ids: seq<int>, ghost before: seq<Entry>, ghost writes: seq<What>) returns (ok: bool)
      requires Alone(me) && Holding(me, before, writes)
      modifies this
      ensures Alone(me) && schedule == old(schedule)
      ensures ok ==> Holding(me, before, writes + RepairWrites(ids, 0))
      ensures !ok ==> !HeldBy(lease, me)
    {
      var i := 0;
      ghost var done := writes;
      while i < |ids|
        invariant 0 <= i <= |ids| && Alone(me) && schedule == old(schedule)
        invariant writes + RepairWrites(ids, 0) == done + RepairWrites(ids, i) && Holding(me, before, done)
      {
        ghost var was := done;
        if i % REPAIR_CHUNK == 0 {
          ok := Heartbeat(me, before, done);
          if !ok { return; }
          done := done + [Renewal];
        }
        ok := Put(me, Repair(ids[i]), before, done);
        if !ok { return; }
        done := done + [Repair(ids[i])];
        assert done == was + RepairWrite(ids, i);
        Regroup(was, RepairWrite(ids, i), RepairWrites(ids, i + 1));
        i := i + 1;
      }
      assert done + RepairWrites(ids, i) == done;
      ok := true;
    }

    /** One chunk: a heartbeat before the embedding call and one before the
        writes. */
    method PutChunk(me: nat, ids: seq<int>, vecs: seq<Vec>, ghost before: seq<Entry>, ghost writes: seq<What>)
      returns (ok: bool)
      requires |ids| == |vecs| && Alone(me) && Holding(me, before, writes)
      modifies this
      ensures Alone(me) && schedule == old(schedule)
      ensures ok ==> Holding(me, before, writes + ChunkWrite(ids, vecs))
      ensures !ok ==> !HeldBy(lease, me)
    {
      ok := Heartbeat(me, before, writes);
      if !ok { return; }
      ok := Heartbeat(me, before, writes + [Renewal]);
      if !ok { return; }
      assert writes + [Renewal] + [Renewal] + Vectors(ids, vecs) == writes + ChunkWrite(ids, vecs);
      ok := PutVectors(me, ids, vecs, before, writes + [Renewal] + [Renewal]);
    }

    method PutChunks(me: nat, ids: seq<int>, vecs: seq<Vec>, chunk: nat, ghost before: seq<Entry>, ghost writes: seq<What>)
      returns (ok: bool)
      requires |ids| == |vecs| && chunk >= 1 && Alone(me) && Holding(me, before, writes)
      modifies this
      ensures Alone(me) && schedule == old(schedule)
      ensures ok ==> Holding(me, before, writes + ChunkWrites(ids, vecs, chunk))
      ensures !ok ==> !HeldBy(lease, me)
    {
      var i := 0;
      ghost var done := writes;
      assert ids[0..] == ids && vecs[0..] == vecs;
      while i < |ids|
        invariant 0 <= i <= |ids| && Alone(me) && schedule == old(schedule)
        invariant writes + ChunkWrites(ids, vecs, chunk) == done + ChunkWrites(ids[i..], vecs[i..], chunk)
        invariant Holding(me, before, done)
      {
        var end := if i + chunk < |ids| then i + chunk else |ids|;
        ok := PutChunk(me, ids[i..end], vecs[i..end], before, done);
        if !ok { return; }
        NextChunk(done, ids, vecs, chunk, i, end);
        done := done + ChunkWrite(ids[i..end], vecs[i..end]);
        i := end;
      }
      assert done + ChunkWrites(ids[i..], vecs[i..], chunk) == done;
      ok := true;
    }

    /** A heartbeat and a fenced write: the model and the stamps. */
    method Publish(me: nat, what: What, ghost before: seq<Entry>, ghost writes: seq<What>) returns (ok: bool)
      requires Alone(me) && Holding(me, before, writes)
      modifies this
      ensures Alone(me) && schedule == old(schedule)
      ensures ok ==> Holding(me, before, writes + [Renewal, what])
      ensures !ok ==> !HeldBy(lease, me)
    {
      ok := Heartbeat(me, before, writes);
      if !ok { return; }
      assert writes + [Renewal] + [what] == writes + [Renewal, what];
      ok := Put(me, what, before, writes + [Renewal]);
    }

    /** verify_embedding_integrity's stamp, a heartbeat, and the release. */
    method Finish(me: nat, ghost before: seq<Entry>, ghost writes: seq<What>) returns (ok: bool)
      requires Alone(me) && Holding(me, before, writes)
      modifies this
      ensures Alone(me) && schedule == old(schedule)
      ensures ok ==> log == before + [Took(me)] + Entries(me, writes + ENDING) + [Gave(me)]
      ensures !HeldBy(lease, me)
    {
      ok := Heartbeat(me, before, writes);
      if !ok { return; }
      ok := Publish(me, AuditStamp, before, writes + [Renewal]);
      if !ok { return; }
      ok := Heartbeat(me, before, writes + [Renewal] + [Renewal, AuditStamp]);
      if !ok { return; }
      assert writes + [Renewal] + [Renewal, AuditStamp] + [Renewal] == writes + ENDING;
      Yield(me);
      ok := Run(Release(me));
    }

    /** The kinds seen: whether more than one is not empty, and the dimension. */
    method Kinds(vecs: seq<Vec>) returns (uniform: bool, dim: Option<nat>)
      ensures uniform <==> Uniform(vecs)
      ensures uniform ==> dim == Dimension(vecs)
    {
      var seen: Option<Representation> := None;
      var i := 0;
      while i < |vecs|
        invariant 0 <= i <= |vecs| && OnlyKind(vecs[..i], seen)
      {
        var rep := RepresentationOf(vecs[i]);
        if seen.Some? && rep != Empty && seen.value != rep {
          TwoKinds(vecs, i, seen.value);
          return false, None;
        }
        NextKind(vecs, i, seen);
        if rep != Empty { seen := Some(rep); }
        i := i + 1;
      }
      assert vecs[..i] == vecs;
      OneKind(vecs, seen);
      uniform, dim := true, if seen.Some? && seen.value.Dense? then Some(seen.value.n) else None;
    }

    /** A rebuild that returns normally held the lease from its acquisition to
        its release: between them the log holds its own writes, all of them and
        nothing else, and they certify one kind of vector. */
    method RebuildAll(me: nat, ids: seq<int>, vecs: seq<Vec>, repaired: seq<int>, model: string, chunk: nat)
      returns (out: Result<nat, Fault>, before: seq<Entry>)
      requires |ids| == |vecs| && chunk >= 1 && Alone(me) && !HeldBy(lease, me)
      modifies this
      ensures out.Ok? ==>
                && old(log) <= before && out.value == |ids| && Uniform(vecs) && !HeldBy(lease, me)
                && log == before + [Took(me)] + Entries(me, Plan(ids, vecs, repaired, model, chunk)) + [Gave(me)]
      ensures out.Ok? ==> Certified(vecs, Dimension(vecs))
      ensures out == Err(LeaseLost) || out == Err(AlreadyBuilding) ==> !HeldBy(lease, me)
      ensures out == Err(NonUniform) ==> !exists dim :: Certified(vecs, dim)
    {
      var ok;
      ok, before := Acquire(me);
      if !ok { return Err(AlreadyBuilding), before; }
      ok := Publish(me, BuildingStamp, before, []);
      if !ok { return Err(LeaseLost), before; }
      ghost var writes := [Renewal, BuildingStamp];
      assert [] + [Renewal, BuildingStamp] == writes;
      ok := PutChunks(me, ids, vecs, chunk, before, writes);
      if !ok { return Err(LeaseLost), before; }
      writes := writes + ChunkWrites(ids, vecs, chunk);
      if |ids| == 0 {
        ok := Publish(me, Model(model, None), before, writes);
        if !ok { return Err(LeaseLost), before; }
        ok := Finish(me, before, writes + [Renewal, Model(model, None)]);
        if !ok { return Err(LeaseLost), before; }
        DimensionExact(vecs);
        return Ok(0), before;
      }
      var uniform, dim := Kinds(vecs);
      UniformExact(vecs);
      if !uniform { return Err(NonUniform), before; }
      DimensionExact(vecs);
      ok := Publish(me, Model(model, dim), before, writes);
      if !ok { return Err(LeaseLost), before; }
      ok := PutRepairs(me, repaired, before, writes + [Renewal, Model(model, dim)]);
      if !ok { return Err(LeaseLost), before; }
      Regroup(writes, [Renewal, Model(model, dim)], RepairWrites(repaired, 0));
      assert ModelWrites(ids, vecs, repaired, model) == [Renewal, Model(model, dim)] + RepairWrites(repaired, 0);
      ok := Finish(me, before, writes + ModelWrites(ids, vecs, repaired, model));
      if !ok { return Err(LeaseLost), before; }
      return Ok(|ids|), before;
    }
  }
}
