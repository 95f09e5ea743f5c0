/** The write-ahead intent journal. Each operation is a step on the journal's
    state, given what the operating system answered; the class carries the
    steps out field by field. */
module IntentJournal {
  import opened Rows
  import opened IntentRecords

  /** A file: its bytes, and how many of them a crash cannot take away. */
  datatype File = File(data: seq<Byte>, synced: nat)

  /** other is the file a power loss may bring back after an unsynced rename. */
  datatype Jrnl = Jrnl(file: File, other: Option<File>, up: bool, open: seq<Record>, next: int,
                       dirty: bool, broken: bool, fatal: bool)

  /** A write and its fsync: a write fails after n bytes, or the fsync fails;
      then the repair succeeds or not. */
  datatype Io = Fine | Torn(n: nat, repaired: bool) | Unsynced(repaired: bool)

  /** A compaction: below the threshold, its temporary file failed, done, or
      failed at or after the rename. */
  datatype CompactIo = NotDue | Skipped | Done | Broke(renamed: bool)

  predicate Usable(j: Jrnl) { j.up && !j.fatal && !j.broken }

  function TakeBytes(b: seq<Byte>, n: nat): seq<Byte> { if n < |b| then b[..n] else b }

  function Wrote(j: Jrnl, b: seq<Byte>): Jrnl {
    j.(file := File(j.file.data + b, j.file.synced))
  }

  function Synced(j: Jrnl): Jrnl {
    j.(file := File(j.file.data, |j.file.data|))
  }

  /** Truncate to the last complete line and fsync; a failure breaks the
      journal (and the truncation may not be durable). */
  function Repaired(j: Jrnl, ok: bool): Jrnl {
    if ok then
      var keep := LastLine(j.file.data);
      j.(file := File(j.file.data[..keep], keep))
    else j.(broken := true)
  }

  function Snapshot(c: Codec, m: Mem): File {
    var data := Frame(c, Compaction(m));
    File(data, |data|)
  }

  function Compacted(c: Codec, j: Jrnl, io: CompactIo): Jrnl {
    if !Usable(j) then j
    else
      match io
      case NotDue => j
      case Skipped => j
      case Done => j.(file := Snapshot(c, Mem(j.open, j.next)), dirty := false)
      case Broke(renamed) =>
        if renamed then j.(file := Snapshot(c, Mem(j.open, j.next)), other := Some(j.file), broken := true)
        else j.(broken := true)
  }

  /** append_intent: the id, or None when the request must not be sent. */
  function Appended(c: Codec, j: Jrnl, req: Request, io: Io, cio: CompactIo): (Jrnl, Option<int>) {
    if !Usable(j) then (j, None)
    else
      var r := Intent(j.next, req);
      match io
      case Torn(n, ok) => (Repaired(Wrote(j, TakeBytes(Line(c, r), n)), ok), None)
      case Unsynced(ok) => (Repaired(Wrote(j, Line(c, r)), ok), None)
      case Fine =>
        var j1 := Synced(Wrote(j, Line(c, r))).(open := Put(j.open, r), next := j.next + 1, dirty := false);
        var j2 := Compacted(c, j1, cio);
        if j2.broken then (j2.(open := Drop(j2.open, j.next)), None) else (j2, Some(j.next))
  }

  /** resolve: whether the resolution was recorded; otherwise it stays open. */
  function ResolvedStep(c: Codec, j: Jrnl, id: int, outcome: string, durable: bool, io: Io): (Jrnl, bool) {
    if Find(j.open, id).None? || !Usable(j) then (j, false)
    else
      var line := Line(c, Resolved(id, outcome));
      match io
      case Torn(n, ok) => (Repaired(Wrote(j, TakeBytes(line, n)), ok), false)
      case Unsynced(ok) =>
        if durable then (Repaired(Wrote(j, line), ok), false)
        else (Wrote(j, line).(open := Drop(j.open, id), dirty := true), true) // no fsync was due
      case Fine =>
        if durable then (Synced(Wrote(j, line)).(open := Drop(j.open, id)), true)
        else (Wrote(j, line).(open := Drop(j.open, id), dirty := true), true)
  }

  /** abandon: a request that was never sent. */
  function Abandoned(c: Codec, j: Jrnl, id: int, outcome: string, io: Io): Jrnl {
    var j1 := j.(open := Drop(j.open, id));
    if !Usable(j) then j1
    else
      var line := Line(c, Resolved(id, outcome));
      match io
      case Torn(n, ok) => Repaired(Wrote(j1, TakeBytes(line, n)), ok)
      case _ => Wrote(j1, line).(dirty := true)
  }

  /** One turn of the lazy fsync timer. */
  function Ticked(j: Jrnl, ok: bool, repaired: bool): Jrnl {
    if !j.dirty || !Usable(j) then j
    else if ok then Synced(j).(dirty := false)
    else Repaired(j, repaired)
  }

  /** open: replay, drop a torn tail durably, sync the directory. */
  function Opened(c: Codec, j: Jrnl, truncated: bool, dirSynced: bool): Jrnl {
    if j.up then j
    else
      var r := ReplayBytes(c, j.file.data);
      var j1 := j.(up := true, open := r.mem.open, next := r.mem.next, dirty := false, broken := false, fatal := true);
      var keep := LastLine(j.file.data);
      if r.bad.Some? || (keep < |j.file.data| && !truncated) then j1
      else
        var j2 := if keep < |j.file.data| then j1.(file := File(j.file.data[..keep], keep)) else j1;
        if dirSynced then j2.(fatal := false, other := None) else j2
  }

  lemma FindDropped(open: seq<Record>, id: int)
    ensures Find(Drop(open, id), id).None?
    ensures forall o :: o != id ==> Find(Drop(open, id), o) == Find(open, o)
  {
    FindDrop(open, id, id);
    forall o | o != id ensures Find(Drop(open, id), o) == Find(open, o) { FindDrop(open, id, o); }
  }

  lemma FindAdded(open: seq<Record>, id: int, req: Request)
    ensures Find(Put(open, Intent(id, req)), id) == Some(Intent(id, req))
    ensures forall o :: o != id ==> Find(Put(open, Intent(id, req)), o) == Find(open, o)
  {
    FindPut(open, Intent(id, req), id);
    forall o | o != id ensures Find(Put(open, Intent(id, req)), o) == Find(open, o) { FindPut(open, Intent(id, req), o); }
  }

  class Journal {
    const codec: Codec
    var file: File
    var other: Option<File>
    var up: bool
    var open: seq<Record>
    var next: int
    var dirty: bool
    var broken: bool
    var fatal: bool

    ghost function View(): Jrnl
      reads this
    {
      Jrnl(file, other, up, open, next, dirty, broken, fatal)
    }

    constructor (c: Codec, onDisk: File, renamedOver: Option<File>)
      ensures codec == c
      ensures View() == Jrnl(onDisk, renamedOver, false, [], 1, false, false, false)
    {
      codec, file, other := c, onDisk, renamedOver;
      up, open, next, dirty, broken, fatal := false, [], 1, false, false, false;
    }

    method Open(truncated: bool, dirSynced: bool)
      modifies this
      ensures View() == Opened(codec, old(View()), truncated, dirSynced)
      ensures old(up) ==> View() == old(View())
      ensures !old(up) ==>
                var data := old(file).data;
                var mem := ReplayBytes(codec, data).mem;
                && up && !dirty && !broken && open == mem.open && next == mem.next
                && (fatal <==>
                      ReplayBytes(codec, data).bad.Some? || (LastLine(data) < |data| && !truncated) || !dirSynced)
                && other == (if fatal then old(other) else None)
                && file == (if ReplayBytes(codec, data).bad.None? && LastLine(data) < |data| && truncated
                            then File(data[..LastLine(data)], LastLine(data)) else old(file))
    {
      if up { return; }
      var mem, bad := IntentRecords.Replay(codec, file.data);
      up, open, next, dirty, broken, fatal := true, mem.open, mem.next, false, false, true;
      if bad.Some? { return; }
      var keep := LastLine(file.data);
      if keep < |file.data| {
        if !truncated { return; }
        file := File(file.data[..keep], keep);
      }
      if dirSynced {
        other, fatal := None, false;
      }
    }

    method Write(bytes: seq<Byte>)
      modifies `file
      ensures View() == Wrote(old(View()), bytes)
      ensures file == File(old(file).data + bytes, old(file).synced)
    {
      file := File(file.data + bytes, file.synced);
    }

    method Fsync()
      modifies `file
      ensures View() == Synced(old(View()))
      ensures file == File(old(file).data, |old(file).data|)
    {
      file := File(file.data, |file.data|);
    }

    method Repair(ok: bool)
      modifies `file, `broken
      ensures View() == Repaired(old(View()), ok)
      ensures ok ==> file.data == old(file).data[..LastLine(old(file).data)] && file.synced == |file.data|
      ensures broken == (old(broken) || !ok) && (!ok ==> file == old(file))
    {
      if ok {
        var keep := LastLine(file.data);
        file := File(file.data[..keep], keep);
      } else {
        broken := true;
      }
    }

    method AppendIntent(req: Request, io: Io, cio: CompactIo) returns (id: Option<int>)
      modifies this
      ensures (View(), id) == Appended(codec, old(View()), req, io, cio)
      ensures id.Some? <==> old(up && !fatal && !broken) && io.Fine? && !cio.Broke?
      ensures id.Some? ==>
                && id.value == old(next) && next == old(next) + 1 && !dirty && !broken
                && Find(open, old(next)) == Some(Intent(old(next), req))
                && (forall o :: o != old(next) ==> Find(open, o) == Find(old(open), o))
                && file.synced == |file.data|
                && file.data == (if cio.Done? then Frame(codec, Compaction(Mem(open, next)))
                                 else old(file).data + Line(codec, Intent(old(next), req)))
      ensures id.None? ==> forall o :: Find(open, o).Some? ==> o == old(next) || Find(open, o) == Find(old(open), o)
      ensures id.None? && old(up && !fatal && !broken) && io.Fine? ==> broken
      ensures !old(up && !fatal && !broken) ==> View() == old(View())
      ensures old(up && !fatal && !broken) && !io.Fine? ==> open == old(open) && next == old(next) && broken == !io.repaired
    {
      id := None;
      if !up || fatal || broken { return; }
      var r := Intent(next, req);
      var line := Line(codec, r);
      match io {
        case Torn(n, ok) => Write(TakeBytes(line, n)); Repair(ok);
        case Unsynced(ok) => Write(line); Repair(ok);
        case Fine =>
          Write(line);
          Fsync();
          var iid := next;
          next := iid + 1;
          open := Put(open, r);
          dirty := false;
          FindAdded(old(open), iid, req);
          Compact(cio);
          if broken {
            Abandon(iid, "not-sent", Fine);
          } else {
            id := Some(iid);
          }
      }
    }

    method Resolve(id: int, outcome: string, durable: bool, io: Io) returns (done: bool)
      modifies this
      ensures (View(), done) == ResolvedStep(codec, old(View()), id, outcome, durable, io)
      ensures done <==> old(Find(open, id).Some? && up && !fatal && !broken) && (io.Fine? || (io.Unsynced? && !durable))
      ensures done ==>
                && Find(open, id).None? && (forall o :: o != id ==> Find(open, o) == Find(old(open), o))
                && file.data == old(file).data + Line(codec, Resolved(id, outcome))
                && (if durable then file.synced == |file.data| && dirty == old(dirty) else dirty)
      ensures !done ==> open == old(open)
      ensures next == old(next)
    {
      done := false;
      if Find(open, id).None? || !up || fatal || broken { return; }
      var line := Line(codec, Resolved(id, outcome));
      if io.Torn? {
        Write(TakeBytes(line, io.n));
        Repair(io.repaired);
        return;
      }
      Write(line);
      if durable {
        if io.Unsynced? {
          Repair(io.repaired);
          return;
        }
        Fsync();
      } else {
        dirty := true;
      }
      FindDropped(open, id);
      open := Drop(open, id);
      done := true;
    }

    method Abandon(id: int, outcome: string, io: Io)
      modifies this
      ensures View() == Abandoned(codec, old(View()), id, outcome, io)
      ensures Find(open, id).None? && next == old(next) && forall o :: o != id ==> Find(open, o) == Find(old(open), o)
      ensures old(up && !fatal && !broken) && !io.Torn? ==>
                file.data == old(file).data + Line(codec, Resolved(id, outcome)) && dirty && !broken
      ensures old(up && !fatal && !broken) && io.Torn? ==> broken == !io.repaired
      ensures !old(up && !fatal && !broken) ==> file == old(file) && dirty == old(dirty) && broken == old(broken)
    {
      FindDropped(open, id);
      open := Drop(open, id);
      if !up || fatal || broken { return; }
      var line := Line(codec, Resolved(id, outcome));
      if io.Torn? {
        Write(TakeBytes(line, io.n));
        Repair(io.repaired);
      } else {
        Write(line);
        dirty := true;
      }
    }

    method FsyncTick(ok: bool, repaired: bool)
      modifies this
      ensures View() == Ticked(old(View()), ok, repaired)
      ensures old(dirty && up && !fatal && !broken) && ok ==>
                file.data == old(file).data && file.synced == |file.data| && !dirty
    {
      if dirty && up && !fatal && !broken {
        if ok {
          Fsync();
          dirty := false;
        } else {
          Repair(repaired);
        }
      }
    }

    /** compact: the meta line, then one line per open intent. */
    method Compact(io: CompactIo)
      modifies this
      ensures View() == Compacted(codec, old(View()), io)
      ensures open == old(open) && next == old(next)
      ensures old(up && !fatal && !broken) && io.Done? ==>
                file.data == Frame(codec, Compaction(Mem(open, next))) && file.synced == |file.data| && !dirty && !broken
      ensures old(up && !fatal && !broken) && io.Broke? ==> broken && (io.renamed ==> other == Some(old(file)))
      ensures !old(up && !fatal && !broken) || io.NotDue? || io.Skipped? ==> View() == old(View())
    {
      if !up || fatal || broken || io.NotDue? || io.Skipped? { return; }
      if io.Broke? && !io.renamed {
        broken := true;
        return;
      }
      var records := Compaction(Mem(open, next));
      var lines: seq<Byte> := [];
      var i := 0;
      while i < |records|
        invariant 0 <= i <= |records| && lines == Frame(codec, records[..i])
        invariant View() == old(View())
      {
        FrameOneMore(codec, records[..i], records[i]);
        assert records[..i + 1] == records[..i] + [records[i]];
        lines := lines + Line(codec, records[i]);
        i := i + 1;
      }
      assert records[..i] == records;
      if io.Broke? {
        other, broken := Some(file), true;
      } else {
        dirty := false;
      }
      file := File(lines, |lines|);
    }
  }
}
