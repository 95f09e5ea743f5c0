/** A local store under replication: its rows, and the outbox its triggers
    append to. One local write is one row-level statement together with what
    it cascades to; a transaction is several of them. */
module Outbox {
  import opened Rows
  import opened Statements

  datatype OutRow = OutRow(seq_: nat, key: Key, created: real)

  /** rows, the outbox in seq order, and the next AUTOINCREMENT seq. */
  datatype Store = Store(rows: Db, outbox: seq<OutRow>, next: nat)

  datatype Write =
    | InsertW(key: Key, row: Row)
    | UpdateW(key: Key, row: Row)
    | RekeyW(old_: Key, key: Key, row: Row, oldFirst: bool) // oldFirst: which of its two triggers fires first
    | DeleteW(key: Key)

  type Schema = map<Table, seq<string>>

  ghost predicate SchemaOk(schema: Schema) {
    forall t :: t in schema
  }

  ghost predicate StoredRow(schema: Schema, k: Key, row: Row)
    requires SchemaOk(schema)
  {
    LocalRow(k, row, schema[k.tbl])
  }

  /** What SQLite accepts: constraints, foreign keys (ON UPDATE has no action)
      and an embedding row as the local triggers leave it. */
  ghost predicate Accepted(schema: Schema, st: Store, w: Write)
    requires SchemaOk(schema)
  {
    match w
    case InsertW(k, row) => k !in st.rows && StoredRow(schema, k, row) && ParentPresent(k, st.rows)
    case UpdateW(k, row) => k in st.rows && StoredRow(schema, k, row)
    case RekeyW(o, k, row, _) =>
      && o in st.rows && k !in st.rows && o.tbl == k.tbl && StoredRow(schema, k, row)
      && ParentPresent(k, st.rows) && forall c :: c in Children(o) ==> c !in st.rows
    case DeleteW(k) => k in st.rows
  }

  /** The cascade children of a key that are there, in the order they go. */
  function LiveChildren(k: Key, rows: Db): (cs: seq<Key>)
    ensures forall c :: c in cs <==> c in Children(k) && c in rows
  {
    if k.tbl != Memories then []
    else
      (if Key(Embeddings, k.pk) in rows then [Key(Embeddings, k.pk)] else [])
      + (if Key(Crossrefs, k.pk) in rows then [Key(Crossrefs, k.pk)] else [])
  }

  /** The keys the triggers enqueue, in order: an insert or a changed update
      its new key; a key change also the old one, before or after it; a delete its old key, after
      the children the cascade deletes. */
  function Enqueued(st: Store, w: Write): seq<Key> {
    match w
    case InsertW(k, _) => Kept(k)
    case UpdateW(k, row) => if Get(st.rows, k) == Some(row) then [] else Kept(k)
    case RekeyW(o, k, _, oldFirst) => if oldFirst then Kept(o) + Kept(k) else Kept(k) + Kept(o)
    case DeleteW(k) => LiveChildren(k, st.rows) + Kept(k)
  }

  /** The WHEN clause of the memories_meta triggers. */
  function Kept(k: Key): seq<Key> {
    if Excluded(k) then [] else [k]
  }

  function Written(rows: Db, w: Write): Db {
    match w
    case InsertW(k, row) => rows[k := row]
    case UpdateW(k, row) => rows[k := row]
    case RekeyW(o, k, row, _) => (rows - {o})[k := row]
    case DeleteW(k) => rows - ({k} + Children(k))
  }

  /** Outbox rows for ks, numbered from n. */
  function Numbered(ks: seq<Key>, n: nat, now: real): (r: seq<OutRow>)
    ensures |r| == |ks|
    ensures forall i :: 0 <= i < |r| ==> r[i] == OutRow(n + i, ks[i], now)
  {
    if ks == [] then [] else [OutRow(n, ks[0], now)] + Numbered(ks[1..], n + 1, now)
  }

  function Apply(st: Store, w: Write, now: real): Store {
    var ks := Enqueued(st, w);
    Store(Written(st.rows, w), st.outbox + Numbered(ks, st.next, now), st.next + |ks|)
  }

  /** An outbox row of the key with a seq past c. */
  ghost predicate Pending(outbox: seq<OutRow>, k: Key, c: int) {
    exists i :: 0 <= i < |outbox| && outbox[i].key == k && outbox[i].seq_ > c
  }

  ghost predicate Ordered(outbox: seq<OutRow>, next: nat) {
    && (forall i :: 0 <= i < |outbox| ==> outbox[i].seq_ < next)
    && (forall i, j :: 0 <= i < j < |outbox| ==> outbox[i].seq_ < outbox[j].seq_)
  }

  ghost predicate StoreOk(schema: Schema, st: Store)
    requires SchemaOk(schema)
  {
    && FkOk(st.rows)
    && (forall k :: k in st.rows ==> StoredRow(schema, k, st.rows[k]))
    && Ordered(st.outbox, st.next)
    && (forall i :: 0 <= i < |st.outbox| ==> OutboxKeyOk(st.outbox[i].key))
  }

  /** A key the triggers can enqueue: replicated, whole and not null. */
  ghost predicate OutboxKeyOk(k: Key) {
    !Excluded(k) && |k.pk| == |PkCols(k.tbl)| && Null !in k.pk
  }

  // ------------------------------------------------------------ what the triggers guarantee

  lemma AppendedPending(st: Store, w: Write, now: real, k: Key)
    requires k in Enqueued(st, w)
    ensures Pending(Apply(st, w, now).outbox, k, st.next - 1)
  {
    var ks := Enqueued(st, w);
    var i :| 0 <= i < |ks| && ks[i] == k;
    var out := Apply(st, w, now).outbox;
    assert out[|st.outbox| + i] == Numbered(ks, st.next, now)[i];
  }

  lemma PendingGrows(st: Store, w: Write, now: real, k: Key, c: int)
    requires Pending(st.outbox, k, c)
    ensures Pending(Apply(st, w, now).outbox, k, c)
  {
    var i :| 0 <= i < |st.outbox| && st.outbox[i].key == k && st.outbox[i].seq_ > c;
    assert Apply(st, w, now).outbox[i] == st.outbox[i];
  }

  /** A replicated row changes exactly when the same statement enqueues its
      key, under a seq no earlier row has. */
  lemma TriggersRecordEveryChange(schema: Schema, st: Store, w: Write, now: real, k: Key)
    requires SchemaOk(schema) && StoreOk(schema, st) && Accepted(schema, st, w)
    requires !Excluded(k)
    ensures Get(Apply(st, w, now).rows, k) != Get(st.rows, k) <==> k in Enqueued(st, w)
    ensures Get(Apply(st, w, now).rows, k) != Get(st.rows, k)
            ==> Pending(Apply(st, w, now).outbox, k, st.next - 1)
  {
    EnqueuedIffChanged(st, w, k, schema);
    if k in Enqueued(st, w) { AppendedPending(st, w, now, k); }
  }

  lemma EnqueuedIffChanged(st: Store, w: Write, k: Key, schema: Schema)
    requires SchemaOk(schema) && StoreOk(schema, st) && Accepted(schema, st, w)
    requires !Excluded(k)
    ensures Get(Written(st.rows, w), k) != Get(st.rows, k) <==> k in Enqueued(st, w)
  {
    match w
    case InsertW(key, row) =>
    case UpdateW(key, row) =>
    case RekeyW(o, key, row, _) =>
    case DeleteW(key) =>
      if k in Children(key) { assert !Excluded(k); }
  }

  lemma ApplyKeepsOrder(st: Store, w: Write, now: real)
    requires Ordered(st.outbox, st.next)
    ensures Ordered(Apply(st, w, now).outbox, Apply(st, w, now).next)
  {
    var ks := Enqueued(st, w);
    var out := Apply(st, w, now).outbox;
    forall i | 0 <= i < |out|
      ensures out[i] == if i < |st.outbox| then st.outbox[i] else OutRow(st.next + (i - |st.outbox|), ks[i - |st.outbox|], now)
    {}
  }

  lemma ApplyKeepsFk(schema: Schema, st: Store, w: Write)
    requires SchemaOk(schema) && StoreOk(schema, st) && Accepted(schema, st, w)
    ensures FkOk(Written(st.rows, w))
  {
    match w
    case InsertW(k, row) =>
    case UpdateW(k, row) =>
    case RekeyW(o, k, row, _) =>
    case DeleteW(k) =>
  }

  lemma ApplyKeepsRows(schema: Schema, st: Store, w: Write)
    requires SchemaOk(schema) && StoreOk(schema, st) && Accepted(schema, st, w)
    ensures forall k :: k in Written(st.rows, w) ==> StoredRow(schema, k, Written(st.rows, w)[k])
  {}

  lemma EnqueuedKeyOk(schema: Schema, st: Store, w: Write, k: Key)
    requires SchemaOk(schema) && StoreOk(schema, st) && Accepted(schema, st, w) && k in Enqueued(st, w)
    ensures OutboxKeyOk(k)
  {
    if k in st.rows { assert StoredRow(schema, k, st.rows[k]); }
    if w.DeleteW? { assert StoredRow(schema, w.key, st.rows[w.key]); }
  }

  lemma ApplyKeepsKeys(schema: Schema, st: Store, w: Write, now: real)
    requires SchemaOk(schema) && StoreOk(schema, st) && Accepted(schema, st, w)
    ensures forall i :: 0 <= i < |Apply(st, w, now).outbox| ==> OutboxKeyOk(Apply(st, w, now).outbox[i].key)
  {
    var ks := Enqueued(st, w);
    var more := Numbered(ks, st.next, now);
    forall i | 0 <= i < |more| ensures OutboxKeyOk(more[i].key) {
      assert more[i].key == ks[i];
      EnqueuedKeyOk(schema, st, w, ks[i]);
    }
  }

  /** A local write keeps the store consistent. */
  lemma ApplyKeepsStore(schema: Schema, st: Store, w: Write, now: real)
    requires SchemaOk(schema) && StoreOk(schema, st) && Accepted(schema, st, w)
    ensures StoreOk(schema, Apply(st, w, now))
  {
    ApplyKeepsOrder(st, w, now);
    ApplyKeepsFk(schema, st, w);
    ApplyKeepsRows(schema, st, w);
    ApplyKeepsKeys(schema, st, w, now);
  }
}
