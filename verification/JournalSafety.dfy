/** What the journal promises the senders of D1 requests, over every history of
    appends, failures, repairs, compactions, process deaths and power losses. */
module JournalSafety {
  import opened Rows
  import opened IntentRecords
  import opened IntentJournal

  /** The journal and its clients. granted: intents a live client holds and has
      not sent; checked: those that passed the re-check; unknown: sent, without
      a known outcome; sent: every request that went out, in order. */
  datatype World = World(j: Jrnl, granted: map<int, Request>, checked: set<int>,
                         unknown: map<int, Request>, sent: seq<int>)

  datatype Death =
    | Between
    | WritingIntent(req: Request, n: nat)
    | WritingOutcome(id: int, outcome: string, n: nat)
    | Renamed

  datatype Event =
    | Open(truncated: bool, dirSynced: bool)
    | Append(req: Request, io: Io, cio: CompactIo)
    | Check(id: int)
    | Send(id: int)
    | Known(id: int)
    | Resolve(id: int, outcome: string, durable: bool, io: Io)
    | Abandon(id: int, outcome: string, io: Io)
    | Tick(ok: bool, repaired: bool)
    | Compact(cio: CompactIo)
    | ProcessDies(how: Death)
    | PowerLoss(renameLost: bool, kept: nat)

  /** A crash leaves the synced bytes and any prefix of what follows them. */
  function Cut(f: File, kept: nat): File {
    File(f.data[..Clamp(f, kept)], f.synced)
  }

  function Clamp(f: File, kept: nat): (p: nat)
    ensures p <= |f.data| && (f.synced <= |f.data| ==> f.synced <= p)
  {
    if kept < f.synced <= |f.data| then f.synced else if kept > |f.data| then |f.data| else kept
  }

  function AppendStep(c: Codec, w: World, req: Request, io: Io, cio: CompactIo): World {
    var (j, id) := Appended(c, w.j, req, io, cio);
    w.(j := j, granted := if id.Some? then w.granted[id.value := req] else w.granted)
  }

  /** The re-check before the send: an unusable journal abandons the intent. */
  function CheckStep(c: Codec, w: World, id: int): World {
    if id !in w.granted then w
    else if Usable(w.j) then w.(checked := w.checked + {id})
    else w.(j := Abandoned(c, w.j, id, "not-sent", Fine), granted := w.granted - {id}, checked := w.checked - {id})
  }

  function SendStep(w: World, id: int): World {
    if id !in w.checked || id !in w.granted then w
    else
      w.(granted := w.granted - {id}, checked := w.checked - {id},
         unknown := w.unknown[id := w.granted[id]], sent := w.sent + [id])
  }

  /** Only an intent whose outcome is known, or that was never sent, is closed. */
  predicate Closable(w: World, id: int) { id !in w.unknown && id !in w.granted && id >= 1 }

  function DieStep(c: Codec, w: World, how: Death): World {
    var j :=
      match how
      case Between => w.j
      case WritingIntent(req, n) =>
        if Usable(w.j) then Wrote(w.j, TakeBytes(Line(c, Intent(w.j.next, req)), n)) else w.j
      case WritingOutcome(id, outcome, n) =>
        if Usable(w.j) && Closable(w, id) then Wrote(w.j, TakeBytes(Line(c, Resolved(id, outcome)), n)) else w.j
      case Renamed => Compacted(c, w.j, Broke(true));
    w.(j := j.(up := false), granted := map[], checked := {})
  }

  function LoseStep(w: World, renameLost: bool, kept: nat): World {
    var f := if renameLost && w.j.other.Some? then w.j.other.value else w.j.file;
    w.(j := w.j.(file := Cut(f, kept), other := None, up := false), granted := map[], checked := {})
  }

  function Step(c: Codec, w: World, e: Event): World {
    match e
    case Open(truncated, dirSynced) => w.(j := Opened(c, w.j, truncated, dirSynced))
    case Append(req, io, cio) => AppendStep(c, w, req, io, cio)
    case Check(id) => CheckStep(c, w, id)
    case Send(id) => SendStep(w, id)
    case Known(id) => w.(unknown := w.unknown - {id})
    case Resolve(id, outcome, durable, io) =>
      if Closable(w, id) then w.(j := ResolvedStep(c, w.j, id, outcome, durable, io).0) else w
    case Abandon(id, outcome, io) =>
      if id in w.granted && id >= 1 then
        w.(j := Abandoned(c, w.j, id, outcome, io), granted := w.granted - {id}, checked := w.checked - {id})
      else w
    case Tick(ok, repaired) => w.(j := Ticked(w.j, ok, repaired))
    case Compact(cio) => w.(j := Compacted(c, w.j, cio))
    case ProcessDies(how) => DieStep(c, w, how)
    case PowerLoss(renameLost, kept) => LoseStep(w, renameLost, kept)
  }

  function Run(c: Codec, w: World, es: seq<Event>): World
    decreases |es|
  {
    if es == [] then w else Run(c, Step(c, w, es[0]), es[1..])
  }

  const EMPTY: World := World(Jrnl(File([], 0), None, false, [], 1, false, false, false), map[], {}, map[], [])

  // ------------------------------------------------------------ the invariant

  /** A memory that keeps every outstanding intent, and gives no used id again. */
  ghost predicate Safe(w: World, m: Mem) {
    && OpenOk(m)
    && (forall id :: id in w.unknown ==> id < m.next && Find(m.open, id) == Some(Intent(id, w.unknown[id])))
    && (forall id :: id in w.granted ==> id < m.next && Find(m.open, id) == Some(Intent(id, w.granted[id])))
    && forall id :: id in w.sent ==> id < m.next
  }

  /** A file holding records, the first m of them durable; every crash image
      from there on is safe. */
  ghost predicate Holds(c: Codec, w: World, f: File, rs: seq<Record>, torn: seq<Byte>, m: nat) {
    && m <= |rs| && NEWLINE !in torn
    && f.data == Frame(c, rs) + torn && f.synced == |Frame(c, rs[..m])|
    && (forall i :: 0 <= i < |rs| ==> ValidRecord(rs[i]))
    && forall k :: m <= k <= |rs| ==> Safe(w, ApplyAll(FRESH, rs[..k]))
  }

  ghost predicate FileSafe(c: Codec, w: World, f: File) {
    exists rs: seq<Record>, torn: seq<Byte>, m: nat :: Holds(c, w, f, rs, torn, m)
  }

  ghost predicate Clean(f: File) { LastLine(f.data) == |f.data| }

  ghost predicate Clients(w: World) {
    && (forall i, j :: 0 <= i < j < |w.sent| ==> w.sent[i] != w.sent[j])
    && (forall id :: id in w.granted ==> id !in w.sent)
    && (forall id :: id in w.unknown ==> id in w.sent)
    && (w.granted != map[] ==> w.j.up && !w.j.fatal)
  }

  ghost predicate Inv(c: Codec, w: World) {
    && Clients(w)
    && FileSafe(c, w, w.j.file) && (w.j.other.Some? ==> FileSafe(c, w, w.j.other.value))
    && (w.j.up && !w.j.fatal ==> Safe(w, Mem(w.j.open, w.j.next)))
    && (Usable(w.j) ==> Clean(w.j.file) && w.j.other.None?)
  }

  // ------------------------------------------------------------ files

  /** Whoever is served by w is served by a world that asks for no more. */
  ghost predicate AsksLess(w: World, w': World) {
    && (forall id :: id in w'.unknown ==> (id in w.unknown && w'.unknown[id] == w.unknown[id])
                                          || (id in w.granted && w'.unknown[id] == w.granted[id]))
    && (forall id :: id in w'.granted ==> id in w.granted && w'.granted[id] == w.granted[id])
    && forall id :: id in w'.sent ==> id in w.sent || id in w.granted
  }

  lemma SafeForLess(w: World, w': World, m: Mem)
    requires AsksLess(w, w') && Safe(w, m)
    ensures Safe(w', m)
  {
    forall id | id in w'.sent ensures id < m.next { assert id in w.sent || id in w.granted; }
  }

  lemma FileForLess(c: Codec, w: World, w': World, f: File)
    requires AsksLess(w, w') && FileSafe(c, w, f)
    ensures FileSafe(c, w', f)
  {
    var rs: seq<Record>, torn: seq<Byte>, m: nat :| Holds(c, w, f, rs, torn, m);
    forall k | m <= k <= |rs| ensures Safe(w', ApplyAll(FRESH, rs[..k])) {
      SafeForLess(w, w', ApplyAll(FRESH, rs[..k]));
    }
    assert Holds(c, w', f, rs, torn, m);
  }

  lemma CleanHolds(c: Codec, w: World, f: File) returns (rs: seq<Record>, m: nat)
    requires Framing(c) && FileSafe(c, w, f) && Clean(f)
    ensures Holds(c, w, f, rs, [], m)
  {
    var torn: seq<Byte>;
    rs, torn, m :| Holds(c, w, f, rs, torn, m);
    FrameEnds(c, rs, torn);
    assert torn == [];
  }

  /** Writing some bytes of a record's line: the records so far and a torn
      line, or one more record. */
  lemma WriteKeeps(c: Codec, w: World, f: File, r: Record, n: nat) returns (rs: seq<Record>, torn: seq<Byte>, m: nat)
    requires Framing(c) && FileSafe(c, w, f) && Clean(f) && ValidRecord(r)
    requires forall mem :: Safe(w, mem) ==> Safe(w, Apply(mem, r))
    ensures Holds(c, w, File(f.data + TakeBytes(Line(c, r), n), f.synced), rs, torn, m)
    ensures n >= |Line(c, r)| ==> torn == []
  {
    rs, m := CleanHolds(c, w, f);
    assert f.data == Frame(c, rs);
    if n < |Line(c, r)| {
      torn := c.enc(r)[..n];
      assert TakeBytes(Line(c, r), n) == torn;
    } else {
      torn := [];
      FrameOneMore(c, rs, r);
      ApplyOneMore(FRESH, rs, r);
      assert rs[..|rs|] == rs && (rs + [r])[..|rs| + 1] == rs + [r];
      forall k | m <= k <= |rs| + 1 ensures Safe(w, ApplyAll(FRESH, (rs + [r])[..k])) {
        if k <= |rs| { assert (rs + [r])[..k] == rs[..k]; }
      }
      assert (rs + [r])[..m] == rs[..m];
      assert f.data + Line(c, r) == Frame(c, rs + [r]) + [];
      rs := rs + [r];
    }
  }

  lemma RepairKeeps(c: Codec, w: World, f: File)
    requires Framing(c) && FileSafe(c, w, f)
    ensures var keep := LastLine(f.data); FileSafe(c, w, File(f.data[..keep], keep)) && Clean(File(f.data[..keep], keep))
  {
    var rs: seq<Record>, torn: seq<Byte>, m: nat :| Holds(c, w, f, rs, torn, m);
    FrameEnds(c, rs, torn);
    FrameEnds(c, rs, []);
    assert rs[..|rs|] == rs && Frame(c, rs) + [] == Frame(c, rs);
    assert Holds(c, w, File(Frame(c, rs), |Frame(c, rs)|), rs, [], |rs|);
  }

  lemma SnapshotKeeps(c: Codec, w: World, m: Mem)
    requires Framing(c) && Safe(w, m)
    ensures FileSafe(c, w, Snapshot(c, m)) && Clean(Snapshot(c, m))
  {
    var rs := Compaction(m);
    CompactionReplays(m);
    FrameEnds(c, rs, []);
    assert rs[..|rs|] == rs && Frame(c, rs) + [] == Frame(c, rs);
    assert Holds(c, w, Snapshot(c, m), rs, [], |rs|);
  }

  /** A crash image of a safe file is safe, and replays to a safe memory. */
  lemma CutKeeps(c: Codec, w: World, f: File, kept: nat)
    requires Framing(c) && FileSafe(c, w, f)
    ensures FileSafe(c, w, Cut(f, kept))
  {
    var rs: seq<Record>, torn: seq<Byte>, m: nat :| Holds(c, w, f, rs, torn, m);
    FrameSplit(c, rs[..m], rs[m..]);
    assert rs[..m] + rs[m..] == rs;
    var n, rest := CutFrame(c, rs, torn, Clamp(f, kept));
    assert rs[..n][..m] == rs[..m];
    forall k | m <= k <= n ensures Safe(w, ApplyAll(FRESH, rs[..n][..k])) {
      assert rs[..n][..k] == rs[..k];
    }
    assert Holds(c, w, Cut(f, kept), rs[..n], rest, m);
  }

  lemma SafeFileReplays(c: Codec, w: World, f: File)
    requires Framing(c) && FileSafe(c, w, f)
    ensures ReplayBytes(c, f.data).bad.None? && Safe(w, ReplayBytes(c, f.data).mem)
  {
    var rs: seq<Record>, torn: seq<Byte>, m: nat :| Holds(c, w, f, rs, torn, m);
    FrameReplays(c, rs, torn, 0, FRESH);
    assert rs[..|rs|] == rs;
  }

  // ------------------------------------------------------------ records

  ghost predicate Unused(w: World, next: int) {
    forall id :: id in w.unknown || id in w.granted || id in w.sent ==> id < next
  }

  /** Recording a new intent, under an id no one was given, keeps any memory. */
  lemma IntentKeeps(w: World, next: int, req: Request, mem: Mem)
    requires Safe(w, mem) && next >= 1 && Unused(w, next)
    ensures Safe(w, Apply(mem, Intent(next, req)))
    ensures Find(Apply(mem, Intent(next, req)).open, next) == Some(Intent(next, req))
  {
    var r := Intent(next, req);
    ApplyKeepsOpenOk(mem, r);
    FindPut(mem.open, r, next);
    forall id | id in w.unknown ensures Find(Put(mem.open, r), id) == Find(mem.open, id) { FindPut(mem.open, r, id); }
    forall id | id in w.granted ensures Find(Put(mem.open, r), id) == Find(mem.open, id) { FindPut(mem.open, r, id); }
  }

  lemma OutcomeKeeps(w: World, id: int, outcome: string, mem: Mem)
    requires Safe(w, mem) && Closable(w, id)
    ensures Safe(w, Apply(mem, Resolved(id, outcome)))
  {
    ApplyKeepsOpenOk(mem, Resolved(id, outcome));
    forall o | o in w.unknown ensures Find(Drop(mem.open, id), o) == Find(mem.open, o) { FindDrop(mem.open, id, o); }
    forall o | o in w.granted ensures Find(Drop(mem.open, id), o) == Find(mem.open, o) { FindDrop(mem.open, id, o); }
  }

  // ------------------------------------------------------------ the journal's steps

  ghost predicate Healthy(c: Codec, w: World) {
    Framing(c) && Inv(c, w) && Usable(w.j)
  }

  /** Only the journal's file grew by a line, or part of one. */
  lemma WroteKeeps(c: Codec, w: World, r: Record, n: nat, whole: bool)
    requires Healthy(c, w) && ValidRecord(r) && (whole ==> n >= |Line(c, r)|)
    requires forall mem :: Safe(w, mem) ==> Safe(w, Apply(mem, r))
    ensures FileSafe(c, w, Wrote(w.j, TakeBytes(Line(c, r), n)).file)
    ensures whole ==> Clean(Wrote(w.j, TakeBytes(Line(c, r), n)).file)
  {
    var rs, torn, m := WriteKeeps(c, w, w.j.file, r, n);
    if whole { FrameEnds(c, rs, []); }
  }

  /** The same clients over a journal that serves them. */
  lemma NewJournal(c: Codec, w: World, j: Jrnl)
    requires Clients(w) && (w.granted != map[] ==> j.up && !j.fatal)
    requires FileSafe(c, w, j.file) && (j.other.Some? ==> FileSafe(c, w, j.other.value))
    requires j.up && !j.fatal ==> Safe(w, Mem(j.open, j.next))
    requires Usable(j) ==> Clean(j.file) && j.other.None?
    ensures Inv(c, w.(j := j))
  {
    var w' := w.(j := j);
    FileForLess(c, w, w', j.file);
    if j.other.Some? { FileForLess(c, w, w', j.other.value); }
    if j.up && !j.fatal { SafeForLess(w, w', Mem(j.open, j.next)); }
  }

  lemma FailedWriteKeeps(c: Codec, w: World, r: Record, n: nat, repaired: bool)
    requires Healthy(c, w) && ValidRecord(r)
    requires forall mem :: Safe(w, mem) ==> Safe(w, Apply(mem, r))
    ensures Inv(c, w.(j := Repaired(Wrote(w.j, TakeBytes(Line(c, r), n)), repaired)))
  {
    var j := Wrote(w.j, TakeBytes(Line(c, r), n));
    WroteKeeps(c, w, r, n, false);
    RepairKeeps(c, w, j.file);
    NewJournal(c, w, Repaired(j, repaired));
  }

  lemma CompactKeeps(c: Codec, w: World, io: CompactIo)
    requires Framing(c) && Inv(c, w)
    ensures Inv(c, w.(j := Compacted(c, w.j, io)))
  {
    if Usable(w.j) {
      SnapshotKeeps(c, w, Mem(w.j.open, w.j.next));
      NewJournal(c, w, Compacted(c, w.j, io));
    }
  }

  /** The whole line and its fsync: the intent is granted. */
  function Granted(c: Codec, w: World, req: Request): World {
    var r := Intent(w.j.next, req);
    var j := Synced(Wrote(w.j, Line(c, r))).(open := Put(w.j.open, r), next := w.j.next + 1, dirty := false);
    w.(j := j, granted := w.granted[w.j.next := req])
  }

  lemma GrantedSafe(w: World, w': World, next: int, req: Request, mem: Mem)
    requires Safe(w, mem) && next >= 1 && Unused(w, next)
    requires w' == w.(j := w'.j, granted := w.granted[next := req])
    ensures Safe(w', Apply(mem, Intent(next, req)))
  {
    IntentKeeps(w, next, req, mem);
  }

  /** Every image of the file as it is now synced holds the new intent. */
  lemma GrantedFile(c: Codec, w: World, w': World, req: Request)
    requires Healthy(c, w) && w' == w.(j := w'.j, granted := w.granted[w.j.next := req])
    ensures var f := Synced(Wrote(w.j, Line(c, Intent(w.j.next, req)))).file; FileSafe(c, w', f) && Clean(f)
  {
    var r := Intent(w.j.next, req);
    var rs, m := CleanHolds(c, w, w.j.file);
    assert rs[..|rs|] == rs;
    GrantedSafe(w, w', w.j.next, req, ApplyAll(FRESH, rs));
    ApplyOneMore(FRESH, rs, r);
    FrameOneMore(c, rs, r);
    var rs' := rs + [r];
    assert rs'[..|rs'|] == rs' && Frame(c, rs') + [] == Frame(c, rs');
    assert Holds(c, w', Synced(Wrote(w.j, Line(c, r))).file, rs', [], |rs'|);
    FrameEnds(c, rs', []);
  }

  lemma GrantKeeps(c: Codec, w: World, req: Request)
    requires Healthy(c, w)
    ensures Inv(c, Granted(c, w, req))
  {
    var w' := Granted(c, w, req);
    GrantedFile(c, w, w', req);
    GrantedSafe(w, w', w.j.next, req, Mem(w.j.open, w.j.next));
    assert Clients(w');
    NewJournal(c, w', w'.j);
    assert w'.(j := w'.j) == w';
  }

  /** An intent its client gives up. */
  function GaveUp(w: World, id: int): World {
    w.(j := w.j.(open := Drop(w.j.open, id)), granted := w.granted - {id}, checked := w.checked - {id})
  }

  lemma GiveUpKeeps(c: Codec, w: World, id: int)
    requires Framing(c) && Inv(c, w) && id in w.granted && id >= 1
    ensures Inv(c, GaveUp(w, id)) && Closable(GaveUp(w, id), id)
  {
    var w' := GaveUp(w, id);
    var m := Mem(w.j.open, w.j.next);
    SafeForLess(w, w', m);
    OutcomeKeeps(w', id, "", m);
    FileForLess(c, w, w', w.j.file);
    if w.j.other.Some? { FileForLess(c, w, w', w.j.other.value); }
  }

  /** The compaction broke the journal: the new intent is given up. */
  lemma AppendBrokenKeeps(c: Codec, w: World, w2: World, id: int)
    requires Framing(c) && Inv(c, w) && Usable(w.j) && Inv(c, w2) && w2.j.up && !w2.j.fatal && w2.j.broken
    requires id >= 1 && id in w2.granted && w2.granted - {id} == w.granted
    requires w2.unknown == w.unknown && w2.sent == w.sent
    ensures Inv(c, w.(j := w2.j.(open := Drop(w2.j.open, id))))
  {
    var w3 := GaveUp(w2, id);
    GiveUpKeeps(c, w2, id);
    FileForLess(c, w3, w, w3.j.file);
    if w3.j.other.Some? { FileForLess(c, w3, w, w3.j.other.value); }
    SafeForLess(w3, w, Mem(w3.j.open, w3.j.next));
    NewJournal(c, w, w3.j);
  }

  lemma AppendIsGrant(c: Codec, w: World, req: Request, cio: CompactIo, w2: World)
    requires Usable(w.j) && w2 == Granted(c, w, req).(j := Compacted(c, Granted(c, w, req).j, cio))
    ensures AppendStep(c, w, req, Fine, cio)
            == if w2.j.broken then w.(j := w2.j.(open := Drop(w2.j.open, w.j.next))) else w2
  {}

  lemma AppendFineKeeps(c: Codec, w: World, req: Request, cio: CompactIo)
    requires Healthy(c, w)
    ensures Inv(c, AppendStep(c, w, req, Fine, cio))
  {
    var w1 := Granted(c, w, req);
    GrantKeeps(c, w, req);
    CompactKeeps(c, w1, cio);
    var w2 := w1.(j := Compacted(c, w1.j, cio));
    AppendIsGrant(c, w, req, cio, w2);
    GrantGone(c, w, req);
    if w2.j.broken { AppendBrokenKeeps(c, w, w2, w.j.next); }
  }

  lemma GrantGone(c: Codec, w: World, req: Request)
    requires Safe(w, Mem(w.j.open, w.j.next))
    ensures Granted(c, w, req).granted - {w.j.next} == w.granted
  {}

  lemma AppendKeeps(c: Codec, w: World, req: Request, io: Io, cio: CompactIo)
    requires Framing(c) && Inv(c, w)
    ensures Inv(c, AppendStep(c, w, req, io, cio))
  {
    if Usable(w.j) {
      if io.Fine? {
        AppendFineKeeps(c, w, req, cio);
      } else {
        var r := Intent(w.j.next, req);
        forall mem | Safe(w, mem) ensures Safe(w, Apply(mem, r)) { IntentKeeps(w, w.j.next, req, mem); }
        FailedWriteKeeps(c, w, r, if io.Torn? then io.n else |Line(c, r)|, io.repaired);
      }
    }
  }

  lemma OutcomeFiles(c: Codec, w: World, id: int, outcome: string)
    requires Healthy(c, w) && Closable(w, id)
    ensures var f := Wrote(w.j, Line(c, Resolved(id, outcome))).file;
            Clean(f) && FileSafe(c, w, f) && FileSafe(c, w, File(f.data, |f.data|))
  {
    var r := Resolved(id, outcome);
    forall mem | Safe(w, mem) ensures Safe(w, Apply(mem, r)) { OutcomeKeeps(w, id, outcome, mem); }
    WroteKeeps(c, w, r, |Line(c, r)|, true);
    var f := Wrote(w.j, Line(c, r)).file;
    RepairKeeps(c, w, f);
    assert f.data[..|f.data|] == f.data;
  }

  lemma RecordOutcomeKeeps(c: Codec, w: World, id: int, outcome: string)
    requires Healthy(c, w) && Closable(w, id)
    ensures Inv(c, w.(j := Wrote(w.j, Line(c, Resolved(id, outcome))).(open := Drop(w.j.open, id), dirty := true)))
    ensures Inv(c, w.(j := Synced(Wrote(w.j, Line(c, Resolved(id, outcome)))).(open := Drop(w.j.open, id))))
  {
    var r := Resolved(id, outcome);
    OutcomeKeeps(w, id, outcome, Mem(w.j.open, w.j.next));
    OutcomeFiles(c, w, id, outcome);
    NewJournal(c, w, Wrote(w.j, Line(c, r)).(open := Drop(w.j.open, id), dirty := true));
    NewJournal(c, w, Synced(Wrote(w.j, Line(c, r))).(open := Drop(w.j.open, id)));
  }

  lemma ResolveKeeps(c: Codec, w: World, id: int, outcome: string, durable: bool, io: Io)
    requires Framing(c) && Inv(c, w) && Closable(w, id)
    ensures Inv(c, w.(j := ResolvedStep(c, w.j, id, outcome, durable, io).0))
  {
    if Find(w.j.open, id).Some? && Usable(w.j) {
      var r := Resolved(id, outcome);
      if io.Fine? || (io.Unsynced? && !durable) {
        RecordOutcomeKeeps(c, w, id, outcome);
      } else {
        forall mem | Safe(w, mem) ensures Safe(w, Apply(mem, r)) { OutcomeKeeps(w, id, outcome, mem); }
        FailedWriteKeeps(c, w, r, if io.Torn? then io.n else |Line(c, r)|, io.repaired);
      }
    }
  }

  lemma AbandonKeeps(c: Codec, w: World, id: int, outcome: string, io: Io)
    requires Framing(c) && Inv(c, w) && id in w.granted && id >= 1
    ensures Inv(c, w.(j := Abandoned(c, w.j, id, outcome, io), granted := w.granted - {id}, checked := w.checked - {id}))
  {
    var w1 := GaveUp(w, id);
    GiveUpKeeps(c, w, id);
    if Usable(w.j) {
      var r := Resolved(id, outcome);
      if io.Torn? {
        forall mem | Safe(w1, mem) ensures Safe(w1, Apply(mem, r)) { OutcomeKeeps(w1, id, outcome, mem); }
        FailedWriteKeeps(c, w1, r, io.n, io.repaired);
      } else {
        RecordOutcomeKeeps(c, w1, id, outcome);
        DropTwice(w.j.open, id);
      }
    }
  }

  lemma {:induction false} DropTwice(open: seq<Record>, id: int)
    ensures Drop(Drop(open, id), id) == Drop(open, id)
  {
    if open != [] { DropTwice(open[1..], id); }
  }

  lemma TickKeeps(c: Codec, w: World, ok: bool, repaired: bool)
    requires Framing(c) && Inv(c, w)
    ensures Inv(c, w.(j := Ticked(w.j, ok, repaired)))
  {
    if w.j.dirty && Usable(w.j) {
      var w' := w.(j := Ticked(w.j, ok, repaired));
      RepairKeeps(c, w, w.j.file);
      assert w.j.file.data[..|w.j.file.data|] == w.j.file.data;
      FileForLess(c, w, w', w'.j.file);
      SafeForLess(w, w', Mem(w.j.open, w.j.next));
    }
  }

  lemma OpenedFile(c: Codec, w: World, truncated: bool, dirSynced: bool)
    requires Framing(c) && FileSafe(c, w, w.j.file) && !w.j.up
    ensures var j := Opened(c, w.j, truncated, dirSynced);
            && FileSafe(c, w, j.file) && (j.other.Some? ==> j.other == w.j.other)
            && (!j.fatal ==> Clean(j.file) && j.other.None? && Safe(w, Mem(j.open, j.next)))
  {
    SafeFileReplays(c, w, w.j.file);
    RepairKeeps(c, w, w.j.file);
  }

  lemma OpenKeeps(c: Codec, w: World, truncated: bool, dirSynced: bool)
    requires Framing(c) && Inv(c, w)
    ensures Inv(c, w.(j := Opened(c, w.j, truncated, dirSynced)))
  {
    if !w.j.up {
      OpenedFile(c, w, truncated, dirSynced);
      NewJournal(c, w, Opened(c, w.j, truncated, dirSynced));
    }
  }

  lemma DieKeeps(c: Codec, w: World, how: Death)
    requires Framing(c) && Inv(c, w)
    ensures Inv(c, DieStep(c, w, how))
  {
    var w' := DieStep(c, w, how);
    if how.Renamed? {
      CompactKeeps(c, w, Broke(true));
      DeadKeeps(c, w.(j := Compacted(c, w.j, Broke(true))), w');
      return;
    } else if Usable(w.j) && how.WritingIntent? {
      var r := Intent(w.j.next, how.req);
      forall mem | Safe(w, mem) ensures Safe(w, Apply(mem, r)) { IntentKeeps(w, w.j.next, how.req, mem); }
      WroteKeeps(c, w, r, how.n, false);
    } else if Usable(w.j) && how.WritingOutcome? && Closable(w, how.id) {
      var r := Resolved(how.id, how.outcome);
      forall mem | Safe(w, mem) ensures Safe(w, Apply(mem, r)) { OutcomeKeeps(w, how.id, how.outcome, mem); }
      WroteKeeps(c, w, r, how.n, false);
    }
    DeadKeeps(c, w, w');
  }

  /** A dead process's clients ask for nothing. */
  lemma DeadKeeps(c: Codec, w: World, w': World)
    requires Clients(w) && AsksLess(w, w') && !w'.j.up && w'.granted == map[]
    requires w'.unknown == w.unknown && w'.sent == w.sent
    requires FileSafe(c, w, w'.j.file) || FileSafe(c, w', w'.j.file)
    requires w'.j.other.Some? ==> FileSafe(c, w, w'.j.other.value) || FileSafe(c, w', w'.j.other.value)
    ensures Inv(c, w')
  {
    if FileSafe(c, w, w'.j.file) { FileForLess(c, w, w', w'.j.file); }
    if w'.j.other.Some? && FileSafe(c, w, w'.j.other.value) { FileForLess(c, w, w', w'.j.other.value); }
  }

  lemma LoseKeeps(c: Codec, w: World, renameLost: bool, kept: nat)
    requires Framing(c) && Inv(c, w)
    ensures Inv(c, LoseStep(w, renameLost, kept))
  {
    var f := if renameLost && w.j.other.Some? then w.j.other.value else w.j.file;
    CutKeeps(c, w, f, kept);
    DeadKeeps(c, w, LoseStep(w, renameLost, kept));
  }

  lemma SendKeeps(c: Codec, w: World, id: int)
    requires Framing(c) && Inv(c, w)
    ensures Inv(c, SendStep(w, id))
  {
    var w' := SendStep(w, id);
    FileForLess(c, w, w', w.j.file);
    if w.j.other.Some? { FileForLess(c, w, w', w.j.other.value); }
    if w.j.up && !w.j.fatal { SafeForLess(w, w', Mem(w.j.open, w.j.next)); }
  }

  lemma KnownKeeps(c: Codec, w: World, id: int)
    requires Framing(c) && Inv(c, w)
    ensures Inv(c, w.(unknown := w.unknown - {id}))
  {
    var w' := w.(unknown := w.unknown - {id});
    FileForLess(c, w, w', w.j.file);
    if w.j.other.Some? { FileForLess(c, w, w', w.j.other.value); }
    if w.j.up && !w.j.fatal { SafeForLess(w, w', Mem(w.j.open, w.j.next)); }
  }

  lemma CheckKeeps(c: Codec, w: World, id: int)
    requires Framing(c) && Inv(c, w)
    ensures Inv(c, CheckStep(c, w, id))
  {
    if id in w.granted {
      if Usable(w.j) {
        FileForLess(c, w, CheckStep(c, w, id), w.j.file);
        SafeForLess(w, CheckStep(c, w, id), Mem(w.j.open, w.j.next));
      } else {
        OpenIdsPositive(Mem(w.j.open, w.j.next), id);
        GiveUpKeeps(c, w, id);
      }
    }
  }

  lemma OpenIdsPositive(m: Mem, id: int)
    requires OpenOk(m) && Find(m.open, id).Some?
    ensures id >= 1
  {
    FoundIsMember(m.open, id);
  }

  lemma {:induction false} FoundIsMember(open: seq<Record>, id: int)
    requires Find(open, id).Some?
    ensures exists i :: 0 <= i < |open| && open[i] == Find(open, id).value
    ensures Find(open, id).value.Intent? && Find(open, id).value.id == id
  {
    if !(open[0].Intent? && open[0].id == id) {
      FoundIsMember(open[1..], id);
      var i :| 0 <= i < |open| - 1 && open[1..][i] == Find(open, id).value;
      assert open[i + 1] == Find(open, id).value;
    }
  }

  lemma StepKeepsInv(c: Codec, w: World, e: Event)
    requires Framing(c) && Inv(c, w)
    ensures Inv(c, Step(c, w, e))
  {
    match e
    case Open(truncated, dirSynced) => OpenKeeps(c, w, truncated, dirSynced);
    case Append(req, io, cio) => AppendKeeps(c, w, req, io, cio);
    case Check(id) => CheckKeeps(c, w, id);
    case Send(id) => SendKeeps(c, w, id);
    case Known(id) => KnownKeeps(c, w, id);
    case Resolve(id, outcome, durable, io) => if Closable(w, id) { ResolveKeeps(c, w, id, outcome, durable, io); }
    case Abandon(id, outcome, io) => if id in w.granted && id >= 1 { AbandonKeeps(c, w, id, outcome, io); }
    case Tick(ok, repaired) => TickKeeps(c, w, ok, repaired);
    case Compact(cio) => CompactKeeps(c, w, cio);
    case ProcessDies(how) => DieKeeps(c, w, how);
    case PowerLoss(renameLost, kept) => LoseKeeps(c, w, renameLost, kept);
  }

  lemma EmptyOk(c: Codec)
    ensures Inv(c, EMPTY)
  {
    assert Holds(c, EMPTY, EMPTY.j.file, [], [], 0);
  }

  lemma {:induction false} RunKeepsInv(c: Codec, w: World, es: seq<Event>)
    requires Framing(c) && Inv(c, w)
    ensures Inv(c, Run(c, w, es))
    decreases |es|
  {
    if es != [] {
      StepKeepsInv(c, w, es[0]);
      RunKeepsInv(c, Step(c, w, es[0]), es[1..]);
    }
  }

  // ------------------------------------------------------------ the theorems

  /** What a crash may leave of a file: its synced bytes and any prefix of the
      rest. */
  predicate CrashImage(f: File, image: seq<Byte>) {
    image <= f.data && f.synced <= |image|
  }

  /** After any history, whatever a crash leaves of the journal's file, or of
      the one an unsynced rename replaced, replays without refusal, and every
      request that was sent and has no known outcome is open, as it was sent. */
  lemma EveryCrashKeepsUnknown(c: Codec, es: seq<Event>, f: File, image: seq<Byte>)
    requires Framing(c) && CrashImage(f, image)
    requires f == Run(c, EMPTY, es).j.file || Some(f) == Run(c, EMPTY, es).j.other
    ensures var w := Run(c, EMPTY, es);
            var r := ReplayBytes(c, image);
            && r.bad.None?
            && (forall id :: id in w.unknown ==> Find(r.mem.open, id) == Some(Intent(id, w.unknown[id])))
            && forall id :: id in w.sent ==> id < r.mem.next
  {
    EmptyOk(c);
    RunKeepsInv(c, EMPTY, es);
    var w := Run(c, EMPTY, es);
    CutKeeps(c, w, f, |image|);
    assert image == f.data[..|image|];
    SafeFileReplays(c, w, File(image, f.synced));
  }

  // ------------------------------------------------------------ what the clients come to hold

  predicate Sends(w: World, e: Event, id: int) {
    e.Send? && e.id == id && id in w.checked && id in w.granted
  }

  /** An event that ends a client's hold on its unsent intent. */
  predicate GivesUp(w: World, e: Event, id: int) {
    || (e.Check? && e.id == id && !Usable(w.j))
    || (e.Abandon? && e.id == id && id >= 1)
    || e.ProcessDies? || e.PowerLoss?
  }

  predicate Grants(w: World, e: Event, id: int) {
    e.Append? && id == w.j.next && Usable(w.j) && e.io.Fine? && !e.cio.Broke?
  }

  /** A request is unknown from its send until its outcome is known, and only a
      checked intent of a live client is sent. */
  lemma UnknownExactly(c: Codec, w: World, e: Event, id: int)
    ensures var t := Step(c, w, e);
            && (id in t.unknown <==> Sends(w, e, id) || (id in w.unknown && e != Known(id)))
            && (id in t.unknown ==> t.unknown[id] == if Sends(w, e, id) then w.granted[id] else w.unknown[id])
            && t.sent == (if e.Send? && Sends(w, e, e.id) then w.sent + [e.id] else w.sent)
  {
    if e.Append? { AppendClients(c, w, e.req, e.io, e.cio); }
  }

  /** A client holds an intent from its durable append until it sends it or
      gives it up. */
  lemma GrantedExactly(c: Codec, w: World, e: Event, id: int)
    ensures var t := Step(c, w, e);
            && (id in t.granted <==> Grants(w, e, id) || (id in w.granted && !Sends(w, e, id) && !GivesUp(w, e, id)))
            && (id in t.granted ==> t.granted[id] == if Grants(w, e, id) then e.req else w.granted[id])
  {
    if e.Append? { AppendClients(c, w, e.req, e.io, e.cio); }
  }

  /** It is checked by a re-check on a usable journal. */
  lemma CheckedExactly(c: Codec, w: World, e: Event, id: int)
    requires w.checked <= w.granted.Keys
    ensures var t := Step(c, w, e);
            && t.checked <= t.granted.Keys
            && (id in t.checked <==> (e == Check(id) && id in w.granted && Usable(w.j))
                                     || (id in w.checked && !Sends(w, e, id) && !GivesUp(w, e, id)))
  {
    if e.Append? { AppendClients(c, w, e.req, e.io, e.cio); }
  }

  lemma AppendClients(c: Codec, w: World, req: Request, io: Io, cio: CompactIo)
    ensures AppendStep(c, w, req, io, cio).unknown == w.unknown && AppendStep(c, w, req, io, cio).sent == w.sent
    ensures AppendStep(c, w, req, io, cio).checked == w.checked
    ensures AppendStep(c, w, req, io, cio).granted
            == if Usable(w.j) && io.Fine? && !cio.Broke? then w.granted[w.j.next := req] else w.granted
  {}

  lemma Appends(c: Codec, w: World, req: Request, cio: CompactIo)
    requires Framing(c) && Inv(c, w) && Usable(w.j) && !cio.Broke?
    ensures var t := AppendStep(c, w, req, Fine, cio);
            Inv(c, t) && Usable(t.j) && t == w.(j := t.j, granted := w.granted[w.j.next := req]) && w.j.next !in w.sent
  {
    AppendKeeps(c, w, req, Fine, cio);
    AppendIsGrant(c, w, req, cio, Granted(c, w, req).(j := Compacted(c, Granted(c, w, req).j, cio)));
  }

  lemma GrantedIsDurable(c: Codec, w: World, id: int)
    requires Framing(c) && FileSafe(c, w, w.j.file) && id in w.granted
    ensures var image := w.j.file.data[..Clamp(w.j.file, w.j.file.synced)];
            Find(ReplayBytes(c, image).mem.open, id) == Some(Intent(id, w.granted[id]))
  {
    CutKeeps(c, w, w.j.file, w.j.file.synced);
    SafeFileReplays(c, w, Cut(w.j.file, w.j.file.synced));
  }

  /** The way through: on a usable journal a request that is appended, checked
      and sent goes out under a new id, its intent durable before. */
  lemma RequestGoesOut(c: Codec, w: World, req: Request, cio: CompactIo)
    requires Framing(c) && Inv(c, w) && Usable(w.j) && !cio.Broke?
    ensures var n := w.j.next;
            var t := Step(c, w, Append(req, Fine, cio));
            var u := Step(c, Step(c, t, Check(n)), Send(n));
            && n !in w.sent && t.sent == w.sent
            && Find(ReplayBytes(c, t.j.file.data[..Clamp(t.j.file, t.j.file.synced)]).mem.open, n) == Some(Intent(n, req))
            && u.sent == w.sent + [n] && n in u.unknown && u.unknown[n] == req
  {
    Appends(c, w, req, cio);
    GrantedIsDurable(c, AppendStep(c, w, req, Fine, cio), w.j.next);
    CheckedIsSent(c, AppendStep(c, w, req, Fine, cio), w.j.next);
  }

  lemma CheckedIsSent(c: Codec, w: World, id: int)
    requires Usable(w.j) && id in w.granted
    ensures var u := Step(c, Step(c, w, Check(id)), Send(id));
            u.sent == w.sent + [id] && id in u.unknown && u.unknown[id] == w.granted[id]
  {}

  /** And the way out: once its outcome is known and recorded it is open no
      more, and if recorded durably a restart does not find it. */
  lemma OutcomeCloses(c: Codec, w: World, id: int, outcome: string, durable: bool)
    requires Framing(c) && Exact(c, w) && Usable(w.j) && id in w.unknown
    ensures var t := Step(c, Step(c, w, Known(id)), Resolve(id, outcome, durable, Fine));
            && id !in t.unknown && Find(t.j.open, id).None?
            && Find(ReplayBytes(c, t.j.file.data).mem.open, id).None? && (durable ==> t.j.file.synced == |t.j.file.data|)
  {
    StepKeepsExact(c, w, Known(id));
    OpenIdsPositive(Mem(w.j.open, w.j.next), id);
    ResolveCloses(c, Step(c, w, Known(id)), id, outcome, durable);
  }

  lemma ResolveCloses(c: Codec, w: World, id: int, outcome: string, durable: bool)
    requires Framing(c) && Exact(c, w) && Usable(w.j) && Find(w.j.open, id).Some? && Closable(w, id)
    ensures var j := ResolvedStep(c, w.j, id, outcome, durable, Fine).0;
            && Find(j.open, id).None? && Find(ReplayBytes(c, j.file.data).mem.open, id).None?
            && (durable ==> j.file.synced == |j.file.data|)
  {
    CloseExact(c, w, id, outcome, durable);
    FindDropped(w.j.open, id);
  }

  /** No id is ever given to two sent requests, across restarts too. */
  lemma NoIdSentTwice(c: Codec, es: seq<Event>)
    requires Framing(c)
    ensures var sent := Run(c, EMPTY, es).sent; forall i, j :: 0 <= i < j < |sent| ==> sent[i] != sent[j]
  {
    EmptyOk(c);
    RunKeepsInv(c, EMPTY, es);
  }

  /** A live journal's own open set never misses an outstanding request. */
  lemma LiveOpenSetIsComplete(c: Codec, es: seq<Event>)
    requires Framing(c)
    ensures var w := Run(c, EMPTY, es);
            w.j.up && !w.j.fatal ==>
              forall id :: id in w.unknown ==> Find(w.j.open, id) == Some(Intent(id, w.unknown[id]))
  {
    EmptyOk(c);
    RunKeepsInv(c, EMPTY, es);
  }

  // ------------------------------------------------------------ nothing extra

  /** Histories in which no write, fsync or compaction fails. */
  predicate FaultFree(e: Event) {
    match e
    case Open(truncated, dirSynced) => truncated && dirSynced
    case Append(_, io, cio) => io.Fine? && !cio.Broke?
    case Resolve(_, _, _, io) => io.Fine?
    case Abandon(_, _, io) => io.Fine?
    case Tick(ok, _) => ok
    case Compact(cio) => !cio.Broke?
    case ProcessDies(how) => how.Between?
    case PowerLoss(_, _) => false
    case _ => true
  }

  /** The file says exactly what the memory says. */
  ghost predicate Exact(c: Codec, w: World) {
    && Inv(c, w) && Clean(w.j.file) && (w.j.up ==> Usable(w.j))
    && (w.j.up ==> ReplayBytes(c, w.j.file.data) == Replayed(Mem(w.j.open, w.j.next), None))
  }

  lemma ReplayAfterLine(c: Codec, w: World, f: File, r: Record)
    requires Framing(c) && FileSafe(c, w, f) && Clean(f) && ValidRecord(r)
    ensures ReplayBytes(c, f.data + Line(c, r)) == Replayed(Apply(ReplayBytes(c, f.data).mem, r), None)
    ensures LastLine(f.data + Line(c, r)) == |f.data + Line(c, r)|
  {
    var rs, m := CleanHolds(c, w, f);
    FrameOneMore(c, rs, r);
    ApplyOneMore(FRESH, rs, r);
    FrameReplays(c, rs, [], 0, FRESH);
    FrameReplays(c, rs + [r], [], 0, FRESH);
    FrameEnds(c, rs + [r], []);
    assert Frame(c, rs) + [] == Frame(c, rs) && Frame(c, rs + [r]) + [] == Frame(c, rs + [r]);
  }

  lemma SnapshotExact(c: Codec, m: Mem)
    requires Framing(c) && OpenOk(m)
    ensures ReplayBytes(c, Snapshot(c, m).data) == Replayed(m, None) && Clean(Snapshot(c, m))
  {
    var rs := Compaction(m);
    CompactionReplays(m);
    FrameReplays(c, rs, [], 0, FRESH);
    FrameEnds(c, rs, []);
    assert Frame(c, rs) + [] == Frame(c, rs);
  }

  lemma AppendExact(c: Codec, w: World, req: Request, cio: CompactIo)
    requires Framing(c) && Exact(c, w) && !cio.Broke?
    ensures Exact(c, AppendStep(c, w, req, Fine, cio))
  {
    if Usable(w.j) {
      var w1 := Granted(c, w, req);
      GrantExact(c, w, req);
      CompactExact(c, w1, cio);
      AppendIsGrant(c, w, req, cio, w1.(j := Compacted(c, w1.j, cio)));
    }
  }

  lemma GrantExact(c: Codec, w: World, req: Request)
    requires Framing(c) && Exact(c, w) && Usable(w.j)
    ensures Exact(c, Granted(c, w, req))
  {
    GrantKeeps(c, w, req);
    ReplayAfterLine(c, w, w.j.file, Intent(w.j.next, req));
  }

  lemma OutcomeExact(c: Codec, w: World, w': World, id: int, outcome: string)
    requires Framing(c) && Exact(c, w) && Usable(w.j) && id >= 1
    requires Inv(c, w') && Usable(w'.j) && w'.j.file.data == w.j.file.data + Line(c, Resolved(id, outcome))
    requires w'.j.open == Drop(w.j.open, id) && w'.j.next == w.j.next
    ensures Exact(c, w')
  {
    ReplayAfterLine(c, w, w.j.file, Resolved(id, outcome));
  }

  lemma CloseExact(c: Codec, w: World, id: int, outcome: string, durable: bool)
    requires Framing(c) && Exact(c, w) && Closable(w, id)
    ensures Exact(c, w.(j := ResolvedStep(c, w.j, id, outcome, durable, Fine).0))
  {
    ResolveKeeps(c, w, id, outcome, durable, Fine);
    var w' := w.(j := ResolvedStep(c, w.j, id, outcome, durable, Fine).0);
    if Find(w.j.open, id).Some? && Usable(w.j) { OutcomeExact(c, w, w', id, outcome); }
  }

  lemma AbandonExact(c: Codec, w: World, id: int, outcome: string)
    requires Framing(c) && Exact(c, w) && id in w.granted && id >= 1
    ensures Exact(c, w.(j := Abandoned(c, w.j, id, outcome, Fine), granted := w.granted - {id}, checked := w.checked - {id}))
  {
    AbandonKeeps(c, w, id, outcome, Fine);
    var w' := w.(j := Abandoned(c, w.j, id, outcome, Fine), granted := w.granted - {id}, checked := w.checked - {id});
    assert Usable(w.j);
    OutcomeExact(c, w, w', id, outcome);
  }

  lemma CompactExact(c: Codec, w: World, cio: CompactIo)
    requires Framing(c) && Exact(c, w) && !cio.Broke?
    ensures Exact(c, w.(j := Compacted(c, w.j, cio)))
  {
    CompactKeeps(c, w, cio);
    if Usable(w.j) { SnapshotExact(c, Mem(w.j.open, w.j.next)); }
  }

  lemma OpenExact(c: Codec, w: World)
    requires Framing(c) && Exact(c, w)
    ensures Exact(c, w.(j := Opened(c, w.j, true, true)))
  {
    OpenKeeps(c, w, true, true);
    if !w.j.up { SafeFileReplays(c, w, w.j.file); }
  }

  /** Only the clients moved, or the file was synced as it is. */
  lemma SameBytesExact(c: Codec, w: World, w': World)
    requires Exact(c, w) && Inv(c, w') && w'.j.file.data == w.j.file.data
    requires w'.j.up ==> Usable(w'.j) && w.j.up && w'.j.open == w.j.open && w'.j.next == w.j.next
    ensures Exact(c, w')
  {}

  lemma StepKeepsExact(c: Codec, w: World, e: Event)
    requires Framing(c) && Exact(c, w) && FaultFree(e)
    ensures Exact(c, Step(c, w, e))
  {
    match e
    case Open(_, _) => OpenExact(c, w);
    case Append(req, _, cio) => AppendExact(c, w, req, cio);
    case Resolve(id, outcome, durable, _) => if Closable(w, id) { CloseExact(c, w, id, outcome, durable); }
    case Abandon(id, outcome, _) => if id in w.granted && id >= 1 { AbandonExact(c, w, id, outcome); }
    case Compact(cio) => CompactExact(c, w, cio);
    case Check(id) => { CheckKeeps(c, w, id); SameBytesExact(c, w, CheckStep(c, w, id)); }
    case Send(id) => { SendKeeps(c, w, id); SameBytesExact(c, w, SendStep(w, id)); }
    case Known(id) => { KnownKeeps(c, w, id); SameBytesExact(c, w, Step(c, w, e)); }
    case Tick(_, r) => { TickKeeps(c, w, true, r); SameBytesExact(c, w, Step(c, w, e)); }
    case ProcessDies(how) => { DieKeeps(c, w, how); SameBytesExact(c, w, DieStep(c, w, how)); }
    case PowerLoss(_, _) =>
  }

  lemma {:induction false} RunKeepsExact(c: Codec, w: World, es: seq<Event>)
    requires Framing(c) && Exact(c, w) && forall i :: 0 <= i < |es| ==> FaultFree(es[i])
    ensures Exact(c, Run(c, w, es))
    decreases |es|
  {
    if es != [] {
      StepKeepsExact(c, w, es[0]);
      RunKeepsExact(c, Step(c, w, es[0]), es[1..]);
    }
  }

  /** While nothing fails, a restart finds exactly the open set and the next id
      the process had: nothing missing and nothing extra, compacted or not. */
  lemma FaultFreeReplayIsExact(c: Codec, es: seq<Event>)
    requires Framing(c) && forall i :: 0 <= i < |es| ==> FaultFree(es[i])
    ensures var j := Run(c, EMPTY, es).j;
            j.up ==> Usable(j) && ReplayBytes(c, j.file.data) == Replayed(Mem(j.open, j.next), None)
  {
    EmptyOk(c);
    RunKeepsExact(c, EMPTY, es);
  }
}
