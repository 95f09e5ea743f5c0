/** The sync_state row and the outbox of a local store, updated in place by
    the replicator, the operator and the compares. Each method is one local
    transaction; its contract is the step of the replicator's state machine. */
module SyncStore {
  import opened Rows
  import opened Outbox
  import opened Replicator

  datatype Refusal = NotHalted | NeedsEpoch | NeedsAttempt | NotRegistered | TooOld | PastAcks

  class SyncTables {
    var outbox: seq<OutRow>
    var next: nat
    var acked: nat
    var consumed: nat
    var expected: Option<int>
    var inflight: Option<Marker>
    var halted: Option<Halt>
    var allow: Option<Attempt>
    var runs: map<nat, real>
    ghost var heads: map<nat, nat>

    ghost function View(): Sync
      reads this
    {
      Sync(acked, consumed, expected, inflight, halted, allow, runs, heads)
    }

    /** install_sync: an empty outbox, nothing acked. */
    constructor (epoch: int)
      ensures View() == Sync(0, 0, Some(epoch), None, None, None, map[], map[])
      ensures outbox == [] && next == 1
    {
      outbox, next, acked, consumed := [], 1, 0, 0;
      expected, inflight, halted, allow, runs, heads := Some(epoch), None, None, None, map[], map[];
    }

    /** The triggers of one write. */
    method Enqueue(keys: seq<Key>, now: real)
      modifies this`outbox, this`next
      ensures outbox == old(outbox) + Numbered(keys, old(next), now) && next == old(next) + |keys|
    {
      var i := 0;
      var n := next;
      while i < |keys|
        invariant 0 <= i <= |keys| && next == n + i && n == old(next)
        invariant outbox == old(outbox) + Numbered(keys, n, now)[..i]
      {
        outbox := outbox + [OutRow(next, keys[i], now)];
        next := next + 1;
        i := i + 1;
      }
    }

    method MarkInflight(lo: nat, hi: nat, epochBefore: int)
      modifies this`inflight
      ensures View() == old(View()).(inflight := Some(Marker(lo, hi, epochBefore)))
    {
      inflight := Some(Marker(lo, hi, epochBefore));
    }

    method ClearMarker()
      modifies this`inflight
      ensures View() == old(View()).(inflight := None)
    {
      inflight := None;
    }

    /** Ack and prune in one transaction. */
    method Ack(hi: nat, postEpoch: int, now: real)
      modifies this
      ensures View() == AckedSync(old(View()), hi, postEpoch)
      ensures View() == old(View()).(acked := hi, expected := Some(postEpoch), inflight := None, allow := None)
      ensures outbox == Prune(old(outbox), hi, old(View()), now) && next == old(next)
      ensures forall e :: e in old(outbox) ==>
                (e !in outbox <==>
                   && e.seq_ <= hi && e.seq_ <= old(consumed) && e.created < now - 1.0
                   && forall id :: id in old(runs) && old(runs)[id] > now - 1.0 ==> e.created < old(runs)[id])
    {
      acked, expected, inflight, allow := hi, Some(postEpoch), None, None;
      var i, kept := 0, [];
      var all := outbox;
      ghost var was := old(View());
      assert Prune(all[..0], hi, was, now) == [];
      while i < |all|
        invariant 0 <= i <= |all| && all == old(outbox) && next == old(next)
        invariant View() == AckedSync(was, hi, postEpoch)
        invariant kept == Prune(all[..i], hi, was, now)
      {
        var e := all[i];
        var gone := e.seq_ <= hi && e.seq_ <= consumed && e.created < now - KEEP_AGE
                    && forall id :: id in runs && runs[id] > now - RUN_STALE ==> e.created < runs[id];
        assert gone == Prunable(e, hi, was, now);
        assert all[..i + 1] == all[..i] + [e];
        PruneAppend(all[..i], e, hi, was, now);
        if !gone { kept := kept + [e]; }
        i := i + 1;
      }
      assert all[..i] == all;
      outbox := kept;
    }

    method HaltStore(why: Halt)
      modifies this`halted
      ensures View() == old(View()).(halted := Some(why))
    {
      halted := Some(why);
    }

    /** resume: a foreign-writer halt needs an epoch, a delete-guard halt the
        halted attempt. */
    method ResumeStore(acceptEpoch: Option<int>, allowDeletes: Option<Attempt>) returns (r: Result<Halt, Refusal>)
      modifies this`halted, this`expected, this`allow
      ensures View() == Resumed(old(View()), acceptEpoch, allowDeletes)
      ensures r.Ok? <==> old(halted).Some? && halted.None?
      ensures r.Ok? <==>
                match old(halted)
                case None => false
                case Some(ForeignWriter) => acceptEpoch.Some?
                case Some(DeleteGuard(attempt)) => allowDeletes == Some(attempt)
                case Some(_) => true
      ensures r.Ok? ==> expected == if old(halted) == Some(ForeignWriter) then acceptEpoch else old(expected)
      ensures r.Ok? ==> allow == if old(halted).value.DeleteGuard? then allowDeletes else old(allow)
      ensures r.Ok? ==> old(halted) == Some(r.value)
      ensures r.Ok? && r.value == ForeignWriter ==> acceptEpoch.Some? && expected == acceptEpoch
      ensures r.Ok? && r.value.DeleteGuard? ==> allowDeletes == Some(r.value.attempt) && allow == allowDeletes
      ensures r.Err? ==> View() == old(View())
    {
      match halted
      case None => r := Err(NotHalted);
      case Some(why) =>
        if why.ForeignWriter? {
          if acceptEpoch.None? { return Err(NeedsEpoch); }
          expected := acceptEpoch;
        } else if why.DeleteGuard? {
          if allowDeletes != Some(why.attempt) { return Err(NeedsAttempt); }
          allow := allowDeletes;
        }
        halted := None;
        r := Ok(why);
    }

    /** begin_compare: drop the runs a day old, register the new one. */
    method BeginCompare(id: nat, now: real)
      modifies this`runs, this`heads
      ensures View() == Begun(old(View()), next, now, id)
      ensures id in runs && runs[id] == now
      ensures forall r :: r != id ==> (r in runs <==> r in old(runs) && now - old(runs)[r] <= 1.0)
      ensures forall r :: r != id && r in runs ==> runs[r] == old(runs)[r]
    {
      runs := map r | r in runs && now - runs[r] <= RUN_STALE :: runs[r];
      runs := runs[id := now];
      heads := heads[id := next];
    }

    method AbortCompare(id: nat)
      modifies this`runs
      ensures View() == Aborted(old(View()), id) && runs == old(runs) - {id}
    {
      runs := runs - {id};
    }

    /** record_compare of a report whose file and identity checks passed. */
    method RecordCompare(id: nat, clean: bool, head: nat, now: real) returns (r: Result<nat, Refusal>)
      modifies this`runs, this`consumed
      ensures View() == Recorded(old(View()), now, id, clean, head)
      ensures r.Ok? <==> MayRecord(old(View()), now, id) && (clean ==> head <= acked)
      ensures r.Ok? <==> id in old(runs) && now - old(runs)[id] <= 0.5 && (clean ==> head <= acked)
      ensures r.Ok? ==> r.value == consumed && runs == old(runs) - {id}
      ensures r.Ok? ==> consumed == if clean && head > old(consumed) then head else old(consumed)
      ensures r.Err? ==> View() == old(View())
    {
      if id !in runs { return Err(NotRegistered); }
      if now - runs[id] > RUN_MAX { return Err(TooOld); }
      if clean {
        if head > acked { return Err(PastAcks); }
        if head > consumed { consumed := head; }
      }
      runs := runs - {id};
      r := Ok(consumed);
    }
  }

  lemma {:induction false} PruneAppend(rows: seq<OutRow>, e: OutRow, hi: nat, sync: Sync, now: real)
    ensures Prune(rows + [e], hi, sync, now)
            == Prune(rows, hi, sync, now) + if Prunable(e, hi, sync, now) then [] else [e]
  {
    if rows == [] {
      assert [] + [e] == [e] && [e][1..] == [];
    } else {
      assert (rows + [e])[1..] == rows[1..] + [e];
      PruneAppend(rows[1..], e, hi, sync, now);
    }
  }
}
