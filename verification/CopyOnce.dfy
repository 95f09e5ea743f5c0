/** The copy between stores: at most one memory_create per source row, over any
    number of runs that die anywhere and of requests that complete late. */
module CopyOnce {
  import opened Rows
  import opened Identifiers

  /** The write-ahead record of a create. */
  datatype Attempt = Sent | Done(destId: nat)

  datatype Reply = Uncertain | Answer(id: Option<nat>) | ErrorReply | Raised

  /** What happens at one point where the run touches the world: sent requests
      that complete then, whether the run survives, and the server's answer. */
  datatype Turn = Turn(lands: set<nat>, alive: bool, reply: Reply)

  datatype Stats = Stats(created: nat, reconciled: nat)

  datatype Refusal = Duplicate | DoneAbsent | Ambiguous | UnknownOutcome | BadAnswer | Mismatch | Died

  /** The copies of a source row the destination lists: its landed requests. */
  function MarkersUpTo(sent: seq<int>, landed: set<nat>, id: int, n: nat): (r: seq<nat>)
    requires n <= |sent|
  {
    if n == 0 then []
    else MarkersUpTo(sent, landed, id, n - 1) + if sent[n - 1] == id && n - 1 in landed then [n - 1] else []
  }

  function Markers(sent: seq<int>, landed: set<nat>, id: int): seq<nat> {
    MarkersUpTo(sent, landed, id, |sent|)
  }

  lemma {:induction false} MarkersExact(sent: seq<int>, landed: set<nat>, id: int, n: nat)
    requires n <= |sent|
    ensures forall i :: i in MarkersUpTo(sent, landed, id, n) <==> 0 <= i < n && i in landed && sent[i] == id
    ensures Distinct(sent) ==> |MarkersUpTo(sent, landed, id, n)| <= 1
  {
    if n > 0 {
      MarkersExact(sent, landed, id, n - 1);
      var before := MarkersUpTo(sent, landed, id, n - 1);
      if Distinct(sent) && before != [] { assert before[0] in before && sent[before[0]] == id; }
    }
  }

  /** A listed copy stays listed while more requests are sent and land. */
  lemma MarkersStay(sent: seq<int>, landed: set<nat>, sent': seq<int>, landed': set<nat>, id: int)
    requires sent <= sent' && landed <= landed' && Markers(sent, landed, id) != []
    ensures Markers(sent', landed', id) != []
  {
    MarkersExact(sent, landed, id, |sent|);
    MarkersExact(sent', landed', id, |sent'|);
    var i := Markers(sent, landed, id)[0];
    assert i in Markers(sent, landed, id);
    assert i in Markers(sent', landed', id);
  }

  /** The rows recorded as done. */
  function DoneIds(durable: map<int, Attempt>): set<int> {
    set id | id in durable && durable[id].Done?
  }

  lemma OneMoreDone(durable: map<int, Attempt>, id: int, destId: nat)
    requires id !in DoneIds(durable)
    ensures |DoneIds(durable[id := Done(destId)])| == |DoneIds(durable)| + 1
    ensures DoneIds(durable[id := Sent]) == DoneIds(durable)
  {
    assert DoneIds(durable[id := Done(destId)]) == DoneIds(durable) + {id};
  }

  /** What happens at the n-th point of a schedule; past its end nothing lands
      and every answer is lost. */
  function TurnAt(schedule: seq<Turn>, n: nat): Turn {
    if n < |schedule| then schedule[n] else Turn({}, true, Uncertain)
  }

  /** The requests completed after points from to from + n - 1. */
  function LandedAfter(schedule: seq<Turn>, landed: set<nat>, from: nat, n: nat): set<nat> {
    if n == 0 then landed else LandedAfter(schedule, landed, from, n - 1) + TurnAt(schedule, from + n - 1).lands
  }

  /** The state file, the requests, and how far the world has come. */
  datatype St = St(durable: map<int, Attempt>, sent: seq<int>, landed: set<nat>, turn: nat)

  /** Whether the run survives the point n from here. */
  predicate Alive(schedule: seq<Turn>, s: St, n: nat) { TurnAt(schedule, s.turn + n).alive }

  /** The world once the first n points from here have passed. */
  function Past(schedule: seq<Turn>, s: St, n: nat): St {
    s.(landed := LandedAfter(schedule, s.landed, s.turn, n), turn := s.turn + n)
  }

  /** The copies listed at the point n from here. */
  function Listed(schedule: seq<Turn>, s: St, id: int, n: nat): seq<nat> {
    Markers(s.sent, LandedAfter(schedule, s.landed, s.turn, n + 1), id)
  }

  /** The first n looks find the run alive and no copy. */
  ghost predicate Silent(schedule: seq<Turn>, s: St, id: int, n: nat) {
    forall i :: 0 <= i < n ==> Alive(schedule, s, i) && Listed(schedule, s, id, i) == []
  }

  /** Look k is the first to find a copy, and the run lives to save it. */
  ghost predicate Appears(schedule: seq<Turn>, s: St, id: int, k: nat) {
    && Silent(schedule, s, id, k) && Alive(schedule, s, k) && Listed(schedule, s, id, k) != []
    && Alive(schedule, s, k + 1)
  }

  /** How a create ends, answered or not, once its request has left: asked is the
      state just before the answer. */
  ghost predicate AnswerEnds(schedule: seq<Turn>, asked: St, id: int, polls: nat, durable: map<int, Attempt>,
                             r: Result<Stats, Refusal>)
  {
    var s := Past(schedule, asked, 1);
    && (r.Err? ==> durable == asked.durable)
    && (!Alive(schedule, asked, 0) ==> r == Err(Died))
    && (Alive(schedule, asked, 0) ==>
          match TurnAt(schedule, asked.turn).reply
          case Raised => r == Err(Died)
          case ErrorReply => r == Err(BadAnswer)
          case Answer(None) => r == Err(BadAnswer)
          case Answer(Some(d)) =>
            if !Alive(schedule, s, 0) then r == Err(Died)
            else if Listed(schedule, s, id, 0) != [d] then r == Err(Mismatch)
            else if !Alive(schedule, s, 1) then r == Err(Died)
            else r == Ok(Stats(1, 0)) && durable == asked.durable[id := Done(d)]
          case Uncertain =>
            && (r == Err(UnknownOutcome) <==> Silent(schedule, s, id, polls + 1))
            && (r.Ok? <==> exists k :: 0 <= k <= polls && Appears(schedule, s, id, k))
            && (r.Ok? ==> r.value == Stats(0, 1) && id in durable && durable[id].Done?
                          && durable == asked.durable[id := durable[id]])
            && (r.Err? ==> r.error in {UnknownOutcome, Died}))
  }

  /** The whole create: the record is saved, then the request leaves. */
  ghost predicate CreateEnds(schedule: seq<Turn>, s: St, id: int, polls: nat, t: St, r: Result<Stats, Refusal>) {
    if !Alive(schedule, s, 0) then r == Err(Died) && t.durable == s.durable && t.sent == s.sent
    else if !Alive(schedule, s, 1) then r == Err(Died) && t.durable == s.durable[id := Sent] && t.sent == s.sent
    else
      && t.sent == s.sent + [id]
      && AnswerEnds(schedule, Past(schedule, s, 2).(durable := s.durable[id := Sent], sent := t.sent), id, polls, t.durable, r)
  }

  /** One row: nothing new for a listed copy but its record, else the create. */
  ghost predicate RowEnds(schedule: seq<Turn>, s: St, id: int, polls: nat, t: St, r: Result<Stats, Refusal>) {
    var ids := Listed(schedule, s, id, 0);
    if !Alive(schedule, s, 0) then r == Err(Died) && t.durable == s.durable && t.sent == s.sent
    else if |ids| > 1 then r == Err(Duplicate) && t.durable == s.durable && t.sent == s.sent
    else if ids == [] then CreateEnds(schedule, Past(schedule, s, 1), id, polls, t, r)
    else if id !in s.durable || s.durable[id].Done?
    then r == Ok(Stats(0, 0)) && t.durable == s.durable && t.sent == s.sent
    else
      && t.sent == s.sent
      && if Alive(schedule, s, 1) then r == Ok(Stats(0, 1)) && t.durable == s.durable[id := Done(ids[0])]
         else r == Err(Died) && t.durable == s.durable
  }

  /** The first look lists a recorded row twice. */
  ghost predicate Crowded(schedule: seq<Turn>, s: St) {
    exists k :: k in s.durable && |Listed(schedule, s, k, 0)| > 1
  }

  /** The first look misses a recorded row: one recorded as done, or as sent. */
  ghost predicate Absent(schedule: seq<Turn>, s: St, done: bool) {
    exists k :: k in s.durable && s.durable[k].Done? == done && Listed(schedule, s, k, 0) == []
  }

  /** A copy appears at look n or not at all, once n looks were silent and look n
      was not, or the run died there. */
  lemma OnlyOnce(schedule: seq<Turn>, s: St, id: int, n: nat)
    requires Silent(schedule, s, id, n) && (!Alive(schedule, s, n) || Listed(schedule, s, id, n) != [])
    ensures forall k: nat :: Appears(schedule, s, id, k) ==> k == n
    ensures forall m: nat :: Silent(schedule, s, id, m) ==> m <= n
  {
    forall k: nat | Appears(schedule, s, id, k) ensures k == n {
      assert k < n ==> Listed(schedule, s, id, k) == [];
    }
  }

  lemma NeverAppears(schedule: seq<Turn>, s: St, id: int, n: nat)
    requires Silent(schedule, s, id, n)
    ensures forall k: nat :: Appears(schedule, s, id, k) ==> n <= k
  {
    forall k: nat | Appears(schedule, s, id, k) ensures n <= k {
      assert k < n ==> Listed(schedule, s, id, k) == [];
    }
  }

  lemma LandedOne(schedule: seq<Turn>, landed: set<nat>, from: nat)
    ensures LandedAfter(schedule, landed, from, 1) == landed + TurnAt(schedule, from).lands
  {
    assert LandedAfter(schedule, landed, from, 0) == landed;
  }

  /** One point more. */
  lemma PastMore(schedule: seq<Turn>, s: St, n: nat)
    ensures Past(schedule, Past(schedule, s, n), 1) == Past(schedule, s, n + 1)
  {
    LandedOne(schedule, Past(schedule, s, n).landed, s.turn + n);
  }

  class Copy {
    var durable: map<int, Attempt> // the state file
    var sent: seq<int>             // the memory_create requests, in order
    var landed: set<nat>           // those that have completed
    var schedule: seq<Turn>
    var turn: nat

    /** No source row was ever sent twice, and every request was recorded
        before it left. */
    ghost predicate Valid()
      reads this
    {
      Distinct(sent) && forall i :: 0 <= i < |sent| ==> sent[i] in durable
    }

    constructor (turns: seq<Turn>)
      ensures Valid() && durable == map[] && sent == []
    {
      durable, sent, landed, schedule, turn := map[], [], {}, turns, 0;
    }

    function MarkersOf(id: int): seq<nat>
      reads this
    {
      Markers(sent, landed, id)
    }

    /** These source rows have their copy in the destination. */
    ghost predicate Visible(ids: set<int>)
      reads this
    {
      forall k :: k in ids ==> MarkersOf(k) != []
    }

    ghost function View(): St
      reads this
    {
      St(durable, sent, landed, turn)
    }

    method Next(ghost seen: set<int>) returns (t: Turn)
      requires Visible(seen)
      modifies `landed, `turn
      ensures Visible(seen)
      ensures t == TurnAt(schedule, old(turn)) && View() == Past(schedule, old(View()), 1)
    {
      LandedOne(schedule, landed, turn);
      t := TurnAt(schedule, turn);
      turn := turn + 1;
      landed := landed + t.lands;
      forall k | k in seen ensures MarkersOf(k) != [] {
        MarkersStay(sent, old(landed), sent, landed, k);
      }
    }

    /** _await_marker: it looks polls + 1 times, and stops at a death, at one
        marker or at several. */
    method AwaitMarker(id: int, polls: nat, ghost seen: set<int>) returns (found: Option<nat>, ok: bool)
      requires Visible(seen)
      modifies `landed, `turn
      ensures Visible(seen)
      ensures ok && found.Some? ==> MarkersOf(id) == [found.value]
      ensures old(turn) < turn <= old(turn) + polls + 1
      ensures var n := turn - old(turn) - 1;
              && View() == Past(schedule, old(View()), n + 1) && Silent(schedule, old(View()), id, n)
              && (ok <==> Alive(schedule, old(View()), n) && |MarkersOf(id)| <= 1)
              && (ok && found.None? <==> Silent(schedule, old(View()), id, polls + 1))
    {
      var i := 0;
      while i <= polls
        invariant Visible(seen) && i <= polls + 1
        invariant View() == Past(schedule, old(View()), i) && Silent(schedule, old(View()), id, i)
      {
        PastMore(schedule, old(View()), i);
        var t := Next(seen);
        assert t.alive == Alive(schedule, old(View()), i);
        if !t.alive { return None, false; }
        var ids := MarkersOf(id);
        assert Listed(schedule, old(View()), id, i) == ids;
        if |ids| > 1 { return None, false; }
        if |ids| == 1 { return Some(ids[0]), true; }
        i := i + 1;
      }
      assert Alive(schedule, old(View()), polls) && Listed(schedule, old(View()), id, polls) == [];
      return None, true;
    }

    /** The record of a finished create is saved. */
    method Settle(id: int, destId: nat, created: bool, ghost seen: set<int>) returns (r: Result<Stats, Refusal>)
      requires Valid() && Visible(seen + {id}) && durable.Keys <= seen + {id}
      modifies `durable, `landed, `turn
      ensures Valid() && durable.Keys <= seen + {id}
      ensures r.Ok? ==> Visible(seen + {id}) && durable == old(durable)[id := Done(destId)]
      ensures r.Ok? ==> r.value == if created then Stats(1, 0) else Stats(0, 1)
      ensures r.Err? ==> r.error == Died && durable == old(durable)
      ensures r.Ok? <==> Alive(schedule, old(View()), 0)
    {
      var t := Next(seen + {id});
      if !t.alive { return Err(Died); } // before the save
      durable := durable[id := Done(destId)];
      return Ok(if created then Stats(1, 0) else Stats(0, 1));
    }

    /** The record is saved, the request leaves, and the row is settled only on
        an answer its marker confirms. */
    method Create(id: int, polls: nat, ghost seen: set<int>) returns (r: Result<Stats, Refusal>)
      requires Valid() && Visible(seen) && durable.Keys <= seen && id !in durable
      modifies `durable, `sent, `landed, `turn
      ensures Valid() && old(sent) <= sent <= old(sent) + [id]
      ensures r.Ok? ==> Visible(seen + {id}) && durable.Keys <= seen + {id}
      ensures CreateEnds(schedule, old(View()), id, polls, View(), r)
      ensures r.Ok? ==> sent == old(sent) + [id] && r.value in {Stats(1, 0), Stats(0, 1)}
      ensures r.Ok? ==> |DoneIds(durable)| == |DoneIds(old(durable))| + 1
      ensures r.Err? ==> r.error != Ambiguous && r.error != DoneAbsent
    {
      OneMoreDone(durable, id, 0);
      var t := Next(seen);
      if !t.alive { return Err(Died); } // before the save
      durable := durable[id := Sent];
      ghost var saved := durable;
      t := Next(seen);
      if !t.alive { return Err(Died); } // saved, not sent
      Send(id, seen);
      PastMore(schedule, old(View()), 1);
      assert View() == Past(schedule, old(View()), 2).(durable := saved, sent := old(sent) + [id]);
      r := Confirm(id, polls, seen);
      if r.Ok? {
        OneMoreDone(saved, id, durable[id].destId);
      }
    }

    method Confirm(id: int, polls: nat, ghost seen: set<int>) returns (r: Result<Stats, Refusal>)
      requires Valid() && Visible(seen) && durable.Keys <= seen + {id} && id in durable
      modifies `durable, `landed, `turn
      ensures Valid() && AnswerEnds(schedule, old(View()), id, polls, durable, r)
      ensures r.Ok? ==> Visible(seen + {id}) && durable.Keys <= seen + {id} && r.value in {Stats(1, 0), Stats(0, 1)}
      ensures r.Ok? ==> id in durable && durable[id].Done? && durable == old(durable)[id := durable[id]]
      ensures r.Err? ==> r.error in {Died, BadAnswer, UnknownOutcome, Mismatch}
    {
      var t := Next(seen);
      if !t.alive { return Err(Died); } // sent, not answered
      match t.reply {
        case Raised => return Err(Died);
        case ErrorReply => return Err(BadAnswer);
        case Uncertain =>
          r := ConfirmLate(id, polls, seen);
        case Answer(newId) =>
          if newId.None? { return Err(BadAnswer); }
          t := Next(seen);
          if !t.alive { return Err(Died); }
          if MarkersOf(id) != [newId.value] { return Err(Mismatch); }
          r := Settle(id, newId.value, true, seen);
      }
    }

    /** After an uncertain answer. */
    method ConfirmLate(id: int, polls: nat, ghost seen: set<int>) returns (r: Result<Stats, Refusal>)
      requires Valid() && Visible(seen) && durable.Keys <= seen + {id} && id in durable
      modifies `durable, `landed, `turn
      ensures Valid() && (r.Err? ==> durable == old(durable))
      ensures r.Ok? ==> Visible(seen + {id}) && durable.Keys <= seen + {id} && r.value == Stats(0, 1)
      ensures r.Ok? ==> id in durable && durable[id].Done? && durable == old(durable)[id := durable[id]]
      ensures r == Err(UnknownOutcome) <==> Silent(schedule, old(View()), id, polls + 1)
      ensures r.Ok? <==> exists k :: 0 <= k <= polls && Appears(schedule, old(View()), id, k)
      ensures r.Err? ==> r.error in {UnknownOutcome, Died}
    {
      ghost var from := turn;
      var found, ok := AwaitMarker(id, polls, seen);
      OneListed(id);
      ghost var n := turn - from - 1;
      if ok && found.None? {
        NeverAppears(schedule, old(View()), id, polls + 1);
        return Err(UnknownOutcome);
      }
      OnlyOnce(schedule, old(View()), id, n);
      if !ok { return Err(Died); }
      ghost var seenIt := View();
      r := Settle(id, found.value, false, seen);
      assert Listed(schedule, old(View()), id, n) == [found.value];
      assert Alive(schedule, seenIt, 0) == Alive(schedule, old(View()), n + 1);
      if r.Ok? { assert Appears(schedule, old(View()), id, n); }
    }

    /** One row: skip or reconcile what is there, or create it. */
    method CreateRow(id: int, polls: nat, ghost seen: set<int>) returns (r: Result<Stats, Refusal>)
      requires Valid() && Visible(seen) && durable.Keys <= seen
      modifies `durable, `sent, `landed, `turn
      ensures Valid() && old(sent) <= sent <= old(sent) + [id]
      ensures r.Ok? ==> Visible(seen + {id}) && durable.Keys <= seen + {id}
      ensures RowEnds(schedule, old(View()), id, polls, View(), r)
      ensures r.Ok? ==> r.value.created <= |sent| - |old(sent)| <= r.value.created + r.value.reconciled
      ensures r.Ok? ==> |DoneIds(durable)| == |DoneIds(old(durable))| + r.value.created + r.value.reconciled
      ensures r.Err? ==> r.error != Ambiguous && r.error != DoneAbsent
    {
      var t := Next(seen);
      if !t.alive { return Err(Died); }
      var ids := MarkersOf(id);
      if |ids| > 1 { return Err(Duplicate); }
      if |ids| == 1 {
        if id in durable && durable[id].Sent? {
          OneMoreDone(durable, id, ids[0]);
          r := Settle(id, ids[0], false, seen);
        } else {
          r := Ok(Stats(0, 0));
        }
      } else {
        // every recorded attempt is visible and this row is not: none was sent
        r := Create(id, polls, seen);
      }
    }

    lemma OneListed(id: int)
      requires Valid()
      ensures |MarkersOf(id)| <= 1
    {
      MarkersExact(sent, landed, id, |sent|);
    }

    /** The request leaves. */
    method Send(id: int, ghost seen: set<int>)
      requires id !in sent && Visible(seen)
      modifies `sent
      ensures sent == old(sent) + [id] && Visible(seen)
    {
      sent := sent + [id];
      forall k | k in seen ensures MarkersOf(k) != [] {
        MarkersStay(old(sent), landed, sent, landed, k);
      }
    }

    /** The first look, and what it refuses. */
    method Inspect() returns (refused: Option<Refusal>)
      requires Valid()
      modifies `landed, `turn
      ensures !Alive(schedule, old(View()), 0) ==> refused == Some(Died)
      ensures Alive(schedule, old(View()), 0) ==>
                refused == (if Crowded(schedule, old(View())) then Some(Duplicate)
                            else if Absent(schedule, old(View()), true) then Some(DoneAbsent)
                            else if Absent(schedule, old(View()), false) then Some(Ambiguous)
                            else None)
      ensures refused.None? ==> Visible(durable.Keys)
    {
      var t := Next({});
      if !t.alive { return Some(Died); }
      if exists k :: k in durable && |MarkersOf(k)| > 1 { return Some(Duplicate); }
      if exists k :: k in durable && durable[k].Done? && MarkersOf(k) == [] { return Some(DoneAbsent); }
      if exists k :: k in durable && durable[k].Sent? && MarkersOf(k) == [] { return Some(Ambiguous); }
      refused := None;
    }

    /** _create_missing: the refusals, then the rows one at a time. */
    method CreateMissing(rows: seq<int>, polls: nat) returns (r: Result<Stats, Refusal>)
      requires Valid()
      modifies `durable, `sent, `landed, `turn
      ensures Valid() && old(sent) <= sent
      ensures forall i :: |old(sent)| <= i < |sent| ==> sent[i] in rows
      ensures r == Err(Ambiguous) || r == Err(DoneAbsent) ==> sent == old(sent) && durable == old(durable)
      ensures !Alive(schedule, old(View()), 0) ==> r == Err(Died) && sent == old(sent) && durable == old(durable)
      ensures Alive(schedule, old(View()), 0) ==>
                if Crowded(schedule, old(View())) then r == Err(Duplicate)
                else
                  && (r == Err(DoneAbsent) <==> Absent(schedule, old(View()), true))
                  && (r == Err(Ambiguous) <==>
                        !Absent(schedule, old(View()), true) && Absent(schedule, old(View()), false))
      ensures r.Ok? ==> forall i :: 0 <= i < |rows| ==> |MarkersOf(rows[i])| == 1
      ensures r.Ok? ==> r.value.created <= |sent| - |old(sent)| <= r.value.created + r.value.reconciled
      ensures r.Ok? ==> |DoneIds(durable)| == |DoneIds(old(durable))| + r.value.created + r.value.reconciled
    {
      var refused := Inspect();
      if refused.Some? { return Err(refused.value); }
      var stats := Stats(0, 0);
      var i := 0;
      ghost var seen := durable.Keys;
      while i < |rows|
        invariant 0 <= i <= |rows| && Valid() && old(sent) <= sent
        invariant forall j :: |old(sent)| <= j < |sent| ==> sent[j] in rows
        invariant Visible(seen) && durable.Keys <= seen
        invariant stats.created <= |sent| - |old(sent)| <= stats.created + stats.reconciled
        invariant |DoneIds(durable)| == |DoneIds(old(durable))| + stats.created + stats.reconciled
        invariant forall j :: 0 <= j < i ==> rows[j] in seen
      {
        var one := CreateRow(rows[i], polls, seen);
        if one.Err? { return Err(one.error); }
        stats := Stats(stats.created + one.value.created, stats.reconciled + one.value.reconciled);
        seen := seen + {rows[i]};
        i := i + 1;
      }
      forall j | 0 <= j < |rows| ensures |MarkersOf(rows[j])| == 1 {
        MarkersExact(sent, landed, rows[j], |sent|);
      }
      return Ok(stats);
    }

    /** Any number of runs over any selections: no source row is sent twice and
        the destination never holds two copies of one. */
    method Runs(selections: seq<seq<int>>, polls: nat)
      requires Valid()
      modifies `durable, `sent, `landed, `turn
      ensures Valid() && forall id :: |MarkersOf(id)| <= 1
    {
      var i := 0;
      while i < |selections|
        invariant 0 <= i <= |selections| && Valid()
      {
        var r := CreateMissing(selections[i], polls);
        i := i + 1;
      }
      forall id ensures |MarkersOf(id)| <= 1 {
        MarkersExact(sent, landed, id, |sent|);
      }
    }
  }
}
