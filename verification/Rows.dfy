/** The values the two sides of a replica hold: SQLite values, rows, the seven
    replicated tables with their primary keys, and the row comparison the
    replicator reconciles with. */
module Rows {

  datatype Option<+T> = None | Some(value: T)

  datatype Result<+T, +E> = Ok(value: T) | Err(error: E)

  /** A SQLite storage class. Reals are kept exact. */
  datatype Value = Null | Int(i: int) | Real(r: real) | Text(s: string) | Blob(b: seq<bv8>)

  type Row = map<string, Value>

  datatype Table = Memories | Embeddings | Crossrefs | Tombstones | TombstoneComponents | Actions | Meta

  /** A replicated row's identity: its table and its primary-key values. */
  datatype Key = Key(tbl: Table, pk: seq<Value>)

  type Db = map<Key, Row>

  function PkCols(t: Table): (cols: seq<string>)
    ensures |cols| > 0
  {
    match t
    case Memories => ["id"]
    case Embeddings => ["memory_id"]
    case Crossrefs => ["memory_id"]
    case Tombstones => ["content_hash", "memory_id"]
    case TombstoneComponents => ["memory_id"]
    case Actions => ["id"]
    case Meta => ["key"]
  }

  function Get<K, V>(m: map<K, V>, k: K): Option<V> {
    if k in m then Some(m[k]) else None
  }

  /** The memories row a child row points at (the replicated ON DELETE CASCADE
      children are keyed by their parent's id). */
  function Parent(k: Key): Option<Key> {
    if k.tbl == Embeddings || k.tbl == Crossrefs then Some(Key(Memories, k.pk)) else None
  }

  ghost predicate FkOk(db: Db) {
    forall k :: k in db && Parent(k).Some? ==> Parent(k).value in db
  }

  /** The memories_meta keys that stay on their own side. */
  predicate Excluded(k: Key) {
    k.tbl == Meta && k.pk in {[Text("embedding_change_epoch")], [Text("embedding_rebuild_lease")],
                              [Text("embedding_integrity")]}
  }

  /** The row carries its own key, and its key columns are not null. */
  ghost predicate KeyedBy(k: Key, row: Row) {
    && |k.pk| == |PkCols(k.tbl)|
    && (forall i :: 0 <= i < |k.pk| ==> PkCols(k.tbl)[i] in row && row[PkCols(k.tbl)[i]] == k.pk[i])
    && Null !in k.pk
  }

  // ------------------------------------------------------------ comparison

  function Pow2(n: nat): (p: nat)
    ensures p > 0
  {
    if n == 0 then 1 else 2 * Pow2(n - 1)
  }

  const DOUBLE_EXACT: int := 0x20_0000_0000_0000 // 2^53

  /** How many low bits of n a double cannot hold. */
  function ExcessBits(n: nat): nat {
    if n < DOUBLE_EXACT then 0 else 1 + ExcessBits(n / 2)
  }

  function NearestDoubleNat(n: nat): int {
    var unit := Pow2(ExcessBits(n));
    var q, rest := n / unit, n % unit;
    if 2 * rest < unit || (2 * rest == unit && q % 2 == 0) then q * unit else (q + 1) * unit
  }

  /** Python's float(n): the nearest double, ties to even. */
  function NearestDouble(n: int): int {
    if n < 0 then -NearestDoubleNat(-n) else NearestDoubleNat(n)
  }

  predicate Numeric(v: Value) { v.Int? || v.Real? }

  function AsDouble(v: Value): real
    requires Numeric(v)
  {
    if v.Int? then NearestDouble(v.i) as real else v.r
  }

  predicate SameValue(a: Value, b: Value) {
    if Numeric(a) && Numeric(b) then AsDouble(a) == AsDouble(b) else a == b
  }

  /** The reconcile's row comparison: every local column has the same value on
      D1 (which may have more columns); numbers are compared as floats. */
  ghost predicate SameRow(local: Option<Row>, remote: Option<Row>) {
    if local.None? || remote.None? then local.None? && remote.None?
    else local.value.Keys <= remote.value.Keys
         && forall c :: c in local.value ==> SameValue(local.value[c], remote.value[c])
  }

  lemma SameRowReflexive(r: Option<Row>)
    ensures SameRow(r, r)
  {}

  /** Exactly: the row is there or not on both sides, and every local column is
      there with the same value. */
  ghost predicate Carries(local: Option<Row>, other: Option<Row>) {
    if local.None? || other.None? then local.None? && other.None?
    else local.value.Keys <= other.value.Keys && forall c :: c in local.value ==> other.value[c] == local.value[c]
  }

  lemma CarriesReflexive(r: Option<Row>)
    ensures Carries(r, r)
  {}

  /** A value as the compare reads it: an integral float is an int. */
  function NormValue(v: Value): Value {
    if v.Real? && v.r == v.r.Floor as real then Int(v.r.Floor) else v
  }

  function NormRow(r: Row): Row {
    map c | c in r :: NormValue(r[c])
  }

  predicate SmallInt(v: Value) {
    v.Int? ==> -DOUBLE_EXACT <= v.i <= DOUBLE_EXACT
  }

  ghost predicate SmallInts(r: Row) {
    forall c :: c in r ==> SmallInt(r[c])
  }

  lemma NearestDoubleExact(n: int)
    requires -DOUBLE_EXACT <= n <= DOUBLE_EXACT
    ensures NearestDouble(n) == n
  {
    var m: nat := if n < 0 then -n else n;
    if m < DOUBLE_EXACT {
      assert ExcessBits(m) == 0;
      assert NearestDoubleNat(m) == m;
    } else {
      assert m / 2 < DOUBLE_EXACT;
      assert ExcessBits(m) == 1 && Pow2(1) == 2 by { assert Pow2(0) == 1; }
      assert NearestDoubleNat(m) == m;
    }
  }

  /** Where every integer fits a double, the reconcile's float comparison is
      the nightly compare's exact one. */
  lemma SameValueExact(a: Value, b: Value)
    requires SmallInt(a) && SmallInt(b)
    ensures SameValue(a, b) <==> NormValue(a) == NormValue(b)
  {
    if a.Int? { NearestDoubleExact(a.i); }
    if b.Int? { NearestDoubleExact(b.i); }
  }

  lemma SameRowExact(l: Row, r: Row)
    requires SmallInts(l) && SmallInts(r) && l.Keys == r.Keys
    ensures SameRow(Some(l), Some(r)) <==> NormRow(l) == NormRow(r)
  {
    forall c | c in l
      ensures SameValue(l[c], r[c]) <==> NormRow(l)[c] == NormRow(r)[c]
    {
      SameValueExact(l[c], r[c]);
    }
    assert NormRow(l).Keys == l.Keys && NormRow(r).Keys == r.Keys;
    if NormRow(l) == NormRow(r) {
      forall c | c in l ensures SameValue(l[c], r[c]) {
        assert NormRow(l)[c] == NormRow(r)[c];
      }
    }
  }

  /** From 2^53 on the float comparison takes different integers for the same. */
  lemma SameValueAcceptsDistinctIntegers()
    ensures SameValue(Int(DOUBLE_EXACT), Int(DOUBLE_EXACT + 1))
    ensures NormValue(Int(DOUBLE_EXACT)) != NormValue(Int(DOUBLE_EXACT + 1))
  {
    var n := DOUBLE_EXACT;
    assert ExcessBits(n) == 1 by { assert n / 2 < DOUBLE_EXACT; assert ExcessBits(n / 2) == 0; }
    assert ExcessBits(n + 1) == 1 by { assert (n + 1) / 2 < DOUBLE_EXACT; assert ExcessBits((n + 1) / 2) == 0; }
    assert Pow2(1) == 2 by { assert Pow2(0) == 1; }
    assert n / 2 == 0x10_0000_0000_0000 && n % 2 == 0;
    assert (n + 1) / 2 == 0x10_0000_0000_0000 && (n + 1) % 2 == 1;
    assert NearestDoubleNat(n) == n;
    assert NearestDoubleNat(n + 1) == n;
  }
}
