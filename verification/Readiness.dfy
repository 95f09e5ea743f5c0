/** The single-flight readiness refresh: claims, passes on executor threads,
    publication, invalidation, and the probes passes share. */
module Readiness {
  import opened Rows

  const TTL_MS := 10_000

  /** A probe of one store, and the generation of the pass that started it. */
  datatype Probe = Probe(name: string, generation: nat, running: bool)

  /** A readiness verdict: the finished probe it came from, or none in time. */
  type Verdicts = map<string, Option<nat>>

  datatype Stage =
    | Claimed
    | Probing(pending: map<string, nat>)
    | Built(verdicts: Verdicts)
    | Releasing // published, discarded or failed: on its way to free the slot
    | Finished

  datatype Pass = Pass(generation: nat, stage: Stage)

  datatype Snapshot = Snapshot(verdicts: Verdicts, pass: nat, at: int)

  datatype State = State(snapshot: Option<Snapshot>, owner: nat, seq_: nat, generation: nat,
                         passes: map<nat, Pass>, inflight: map<string, nat>, probes: seq<Probe>, now: int)

  datatype Event =
    | Request(mayRefresh: bool)
    | Refuse(id: nat)                        // the executor took no job
    | Submit(id: nat, labels: seq<string>)   // _probe_all's locked part
    | ProbeEnds(probe: nat)
    | Collect(id: nat)
    | Fail(id: nat)                          // the build raised
    | Publish(id: nat)
    | Free(id: nat)
    | Invalidate
    | Tick(ms: nat)

  predicate At(s: State, id: nat, stage: Stage) { id in s.passes && s.passes[id].stage == stage }

  function Move(s: State, id: nat, stage: Stage): State
    requires id in s.passes
  {
    s.(passes := s.passes[id := s.passes[id].(stage := stage)])
  }

  predicate NeedsRefresh(s: State) { s.snapshot.None? || s.now - s.snapshot.value.at > TTL_MS }

  /** The claim, under the lock. */
  function Claim(s: State, mayRefresh: bool): State {
    if !NeedsRefresh(s) || s.owner != 0 || !mayRefresh then s
    else
      var id := s.seq_ + 1;
      s.(seq_ := id, owner := id, passes := s.passes[id := Pass(s.generation, Claimed)])
  }

  /** The holder of the slot, of this generation. */
  predicate Current(s: State, id: nat) {
    id in s.passes && s.owner == id && s.passes[id].generation == s.generation
  }

  function Freed(s: State, id: nat): State { if Current(s, id) then s.(owner := 0) else s }

  predicate Running(s: State, name: string) {
    name in s.inflight && s.inflight[name] < |s.probes| && s.probes[s.inflight[name]].running
  }

  /** A name gets a new probe unless its last one is still running. */
  function SubmitOne(s: State, name: string, generation: nat): State {
    if Running(s, name) then s
    else s.(inflight := s.inflight[name := |s.probes|], probes := s.probes + [Probe(name, generation, true)])
  }

  function SubmitAll(s: State, labels: seq<string>, generation: nat): State
    decreases |labels|
  {
    if labels == [] then s
    else SubmitOne(SubmitAll(s, labels[..|labels| - 1], generation), labels[|labels| - 1], generation)
  }

  function PendingOf(s: State, labels: seq<string>): map<string, nat> {
    map l | l in labels && l in s.inflight :: s.inflight[l]
  }

  predicate Ended(s: State, probe: nat) { probe < |s.probes| && !s.probes[probe].running }

  /** The merge: a finished probe's name leaves the in-flight table, whatever
      probe the table has for it by now. */
  function Collected(s: State, pending: map<string, nat>): (map<string, nat>, Verdicts) {
    (s.inflight - (set l | l in pending && Ended(s, pending[l])),
     map l | l in pending :: if Ended(s, pending[l]) then Some(pending[l]) else None)
  }

  function Step(s: State, e: Event): State {
    match e
    case Request(mayRefresh) => Claim(s, mayRefresh)
    case Refuse(id) => if At(s, id, Claimed) then Move(Freed(s, id), id, Finished) else s
    case Submit(id, labels) =>
      if !At(s, id, Claimed) then s
      else
        var t := SubmitAll(s, labels, s.passes[id].generation);
        s.(inflight := t.inflight, probes := t.probes,
           passes := s.passes[id := s.passes[id].(stage := Probing(PendingOf(t, labels)))])
    case ProbeEnds(probe) =>
      if probe < |s.probes| then s.(probes := s.probes[probe := s.probes[probe].(running := false)]) else s
    case Collect(id) =>
      if id !in s.passes || !s.passes[id].stage.Probing? then s
      else
        var (inflight, verdicts) := Collected(s, s.passes[id].stage.pending);
        Move(s.(inflight := inflight), id, Built(verdicts))
    case Fail(id) =>
      if id in s.passes && (s.passes[id].stage.Claimed? || s.passes[id].stage.Probing?) then Move(s, id, Releasing) else s
    case Publish(id) =>
      if id !in s.passes || !s.passes[id].stage.Built? then s
      else
        Move(if Current(s, id) then s.(snapshot := Some(Snapshot(s.passes[id].stage.verdicts, id, s.now))) else s,
             id, Releasing)
    case Free(id) => if At(s, id, Releasing) then Move(Freed(s, id), id, Finished) else s
    case Invalidate => s.(generation := s.generation + 1, owner := 0, inflight := map[], snapshot := None)
    case Tick(ms) => s.(now := s.now + ms)
  }

  function Run(s: State, es: seq<Event>): State
    decreases |es|
  {
    if es == [] then s else Run(Step(s, es[0]), es[1..])
  }

  const START := State(None, 0, 0, 0, map[], map[], [], 0)

  // ------------------------------------------------------------ the slot

  /** An occupied slot belongs to a claimed, unfinished pass of this generation,
      and every such pass holds it; the snapshot is this generation's. */
  ghost predicate Inv(s: State) {
    && (s.owner != 0 ==> s.owner in s.passes && s.passes[s.owner].generation == s.generation && !s.passes[s.owner].stage.Finished?)
    && (forall id :: id in s.passes ==> 1 <= id <= s.seq_ && s.passes[id].generation <= s.generation)
    && (forall id :: id in s.passes && !s.passes[id].stage.Finished? && s.passes[id].generation == s.generation ==> s.owner == id)
    && OnePerGeneration(s)
    && (s.snapshot.Some? ==> s.snapshot.value.pass in s.passes && s.passes[s.snapshot.value.pass].generation == s.generation)
  }

  /** Single flight: a generation never has two unfinished passes. */
  ghost predicate OnePerGeneration(s: State) {
    forall a, b :: a in s.passes && b in s.passes && a != b
                   && !s.passes[a].stage.Finished? && !s.passes[b].stage.Finished? ==>
                     s.passes[a].generation != s.passes[b].generation
  }

  lemma SubmitKeepsRest(s: State, labels: seq<string>, generation: nat)
    ensures var t := SubmitAll(s, labels, generation);
            t.(inflight := s.inflight, probes := s.probes) == s
    decreases |labels|
  {
    if labels != [] { SubmitKeepsRest(s, labels[..|labels| - 1], generation); }
  }

  /** Moving a pass along, or to its end once the slot is not its own. */
  lemma MoveKeeps(s: State, id: nat, stage: Stage)
    requires Inv(s) && id in s.passes && !s.passes[id].stage.Finished? && (stage.Finished? ==> s.owner != id)
    ensures Inv(Move(s, id, stage))
  {
    var t := Move(s, id, stage);
    forall a, b | a in t.passes && b in t.passes && a != b && !t.passes[a].stage.Finished? && !t.passes[b].stage.Finished?
      ensures t.passes[a].generation != t.passes[b].generation
    {
      assert !s.passes[a].stage.Finished? && !s.passes[b].stage.Finished?;
    }
  }

  lemma FinishKeeps(s: State, id: nat)
    requires Inv(s) && id in s.passes && !s.passes[id].stage.Finished?
    ensures Inv(Move(Freed(s, id), id, Finished))
  {
    var t := Move(Freed(s, id), id, Finished);
    forall a, b | a in t.passes && b in t.passes && a != b && !t.passes[a].stage.Finished? && !t.passes[b].stage.Finished?
      ensures t.passes[a].generation != t.passes[b].generation
    {
      assert !s.passes[a].stage.Finished? && !s.passes[b].stage.Finished?;
    }
  }

  lemma ClaimKeeps(s: State, mayRefresh: bool)
    requires Inv(s)
    ensures Inv(Claim(s, mayRefresh))
  {}

  lemma SubmitKeeps(s: State, id: nat, labels: seq<string>)
    requires Inv(s) && At(s, id, Claimed)
    ensures Inv(Step(s, Submit(id, labels)))
  {
    var t := SubmitAll(s, labels, s.passes[id].generation);
    MoveKeeps(s.(inflight := t.inflight, probes := t.probes), id, Probing(PendingOf(t, labels)));
  }

  lemma CollectKeeps(s: State, id: nat)
    requires Inv(s) && id in s.passes && s.passes[id].stage.Probing?
    ensures Inv(Step(s, Collect(id)))
  {
    var (inflight, verdicts) := Collected(s, s.passes[id].stage.pending);
    MoveKeeps(s.(inflight := inflight), id, Built(verdicts));
  }

  lemma PublishKeeps(s: State, id: nat)
    requires Inv(s) && id in s.passes && s.passes[id].stage.Built?
    ensures Inv(Step(s, Publish(id)))
  {
    MoveKeeps(if Current(s, id) then s.(snapshot := Some(Snapshot(s.passes[id].stage.verdicts, id, s.now))) else s,
              id, Releasing);
  }

  lemma InvalidateKeeps(s: State)
    requires Inv(s)
    ensures Inv(Step(s, Invalidate))
  {}

  lemma StepKeepsInv(s: State, e: Event)
    requires Inv(s)
    ensures Inv(Step(s, e))
  {
    match e
    case Request(mayRefresh) => ClaimKeeps(s, mayRefresh);
    case Refuse(id) => if At(s, id, Claimed) { FinishKeeps(s, id); }
    case Submit(id, labels) => if At(s, id, Claimed) { SubmitKeeps(s, id, labels); }
    case Collect(id) => if id in s.passes && s.passes[id].stage.Probing? { CollectKeeps(s, id); }
    case Fail(id) =>
      if id in s.passes && (s.passes[id].stage.Claimed? || s.passes[id].stage.Probing?) { MoveKeeps(s, id, Releasing); }
    case Publish(id) => if id in s.passes && s.passes[id].stage.Built? { PublishKeeps(s, id); }
    case Free(id) => if At(s, id, Releasing) { FinishKeeps(s, id); }
    case Invalidate => InvalidateKeeps(s);
    case ProbeEnds(_) =>
    case Tick(_) =>
  }

  lemma {:induction false} RunKeepsInv(s: State, es: seq<Event>)
    requires Inv(s)
    ensures Inv(Run(s, es))
    decreases |es|
  {
    if es != [] {
      StepKeepsInv(s, es[0]);
      RunKeepsInv(Step(s, es[0]), es[1..]);
    }
  }

  /** In every reachable state: the slot is never orphaned, no generation has
      two passes in flight, and what is served was published by a pass of the
      generation that serves it. */
  lemma SlotBelongsToLivePass(es: seq<Event>)
    ensures var s := Run(START, es);
            && (s.owner != 0 ==> s.owner in s.passes && !s.passes[s.owner].stage.Finished?
                                 && s.passes[s.owner].generation == s.generation)
            && OnePerGeneration(s)
            && (s.snapshot.Some? ==> s.snapshot.value.pass in s.passes
                                     && s.passes[s.snapshot.value.pass].generation == s.generation)
  {
    RunKeepsInv(START, es);
  }

  /** A pass that an invalidation retired. */
  ghost predicate Retired(s: State, id: nat) {
    id in s.passes && id <= s.seq_ && s.passes[id].generation < s.generation
  }

  lemma RetiredStep(s: State, e: Event, id: nat)
    requires Retired(s, id)
    ensures Retired(Step(s, e), id)
  {}

  lemma {:induction false} RetiredForever(s: State, es: seq<Event>, id: nat)
    requires Retired(s, id)
    ensures Retired(Run(s, es), id)
    decreases |es|
  {
    if es != [] {
      RetiredStep(s, es[0], id);
      RetiredForever(Step(s, es[0]), es[1..], id);
    }
  }

  predicate By(e: Event, id: nat) {
    (e.Refuse? || e.Submit? || e.Collect? || e.Fail? || e.Publish? || e.Free?) && e.id == id
  }

  /** Nothing a retired pass does, ever after, changes the snapshot or a later
      owner's slot. */
  lemma RetiredPassIsInert(s: State, es: seq<Event>, e: Event, id: nat)
    requires Retired(s, id) && By(e, id)
    ensures var t := Run(s, es); Step(t, e).snapshot == t.snapshot && Step(t, e).owner == t.owner
  {
    RetiredForever(s, es, id);
  }

  // ------------------------------------------------------------ the probes

  /** What the invalidation is for: no probe of an older generation is in the
      table. */
  ghost predicate FreshProbes(s: State) {
    forall l :: l in s.inflight ==> s.inflight[l] < |s.probes| && s.probes[s.inflight[l]].generation == s.generation
  }

  lemma {:induction false} SubmitFresh(s: State, labels: seq<string>, generation: nat)
    requires FreshProbes(s) && generation == s.generation
    ensures FreshProbes(SubmitAll(s, labels, generation))
    decreases |labels|
  {
    SubmitKeepsRest(s, labels, generation);
    if labels != [] {
      SubmitKeepsRest(s, labels[..|labels| - 1], generation);
      SubmitFresh(s, labels[..|labels| - 1], generation);
    }
  }

  lemma {:induction false} SubmitNothing(s: State, labels: seq<string>, generation: nat)
    requires forall l :: l in labels ==> Running(s, l)
    ensures SubmitAll(s, labels, generation) == s
    decreases |labels|
  {
    if labels != [] { SubmitNothing(s, labels[..|labels| - 1], generation); }
  }

  ghost predicate Bounded(s: State) {
    forall l :: l in s.inflight ==> s.inflight[l] < |s.probes|
  }

  lemma {:induction false} SubmitStale(s: State, labels: seq<string>, generation: nat, l: string)
    requires Bounded(s) && generation != s.generation && l in labels && !Running(s, l)
    ensures var t := SubmitAll(s, labels, generation);
            l in t.inflight && t.inflight[l] < |t.probes| && t.probes[t.inflight[l]].running
            && t.probes[t.inflight[l]].generation == generation
    decreases |labels|
  {
    var front, last := labels[..|labels| - 1], labels[|labels| - 1];
    if l in front {
      SubmitStale(s, front, generation, l);
    } else {
      assert l == last;
      SubmitOthers(s, front, generation, l);
    }
  }

  lemma {:induction false} SubmitOthers(s: State, labels: seq<string>, generation: nat, l: string)
    requires l !in labels && Bounded(s)
    ensures Running(SubmitAll(s, labels, generation), l) ==> Running(s, l)
    ensures var t := SubmitAll(s, labels, generation);
            s.probes <= t.probes && Get(t.inflight, l) == Get(s.inflight, l)
            && forall i :: |s.probes| <= i < |t.probes| ==> t.probes[i].name in labels
    decreases |labels|
  {
    if labels != [] {
      var front := labels[..|labels| - 1];
      SubmitOthers(s, front, generation, l);
    }
  }

  /** The fence has a hole, and exactly one: submitting keeps the table fresh
      unless the pass is retired and starts some probe. A retired pass that had
      not submitted yet when its generation ended puts old probes into the new
      generation's table, where a new pass takes their verdicts for its own. */
  lemma SubmissionStaysFresh(s: State, id: nat, labels: seq<string>)
    requires FreshProbes(s) && At(s, id, Claimed)
    ensures FreshProbes(Step(s, Submit(id, labels))) <==>
              s.passes[id].generation == s.generation || forall l :: l in labels ==> Running(s, l)
  {
    var generation := s.passes[id].generation;
    var t := SubmitAll(s, labels, generation);
    SubmitKeepsRest(s, labels, generation);
    if generation == s.generation {
      SubmitFresh(s, labels, generation);
    } else if forall l :: l in labels ==> Running(s, l) {
      SubmitNothing(s, labels, generation);
    } else {
      var l :| l in labels && !Running(s, l);
      SubmitStale(s, labels, generation, l);
      assert l in Step(s, Submit(id, labels)).inflight;
    }
  }

  /** No retired pass submits in this run. */
  ghost predicate NoLateSubmission(s: State, es: seq<Event>)
    decreases |es|
  {
    es == [] || ((es[0].Submit? && At(s, es[0].id, Claimed) ==> s.passes[es[0].id].generation == s.generation)
                 && NoLateSubmission(Step(s, es[0]), es[1..]))
  }

  lemma StepKeepsFresh(s: State, e: Event)
    requires FreshProbes(s) && (e.Submit? && At(s, e.id, Claimed) ==> s.passes[e.id].generation == s.generation)
    ensures FreshProbes(Step(s, e))
  {
    if e.Submit? && At(s, e.id, Claimed) { SubmissionStaysFresh(s, e.id, e.labels); }
  }

  /** Without such a submission, every run keeps the table fresh. */
  lemma {:induction false} RunKeepsFresh(s: State, es: seq<Event>)
    requires FreshProbes(s) && NoLateSubmission(s, es)
    ensures FreshProbes(Run(s, es))
    decreases |es|
  {
    if es != [] {
      StepKeepsFresh(s, es[0]);
      RunKeepsFresh(Step(s, es[0]), es[1..]);
    }
  }

  lemma RunCons(s: State, e: Event, es: seq<Event>)
    ensures Run(s, [e] + es) == Run(Step(s, e), es)
  {
    assert ([e] + es)[1..] == es;
  }

  /** The retired pass submits before the new one does. */
  lemma LateSubmission() returns (s: State)
    ensures s == Run(START, [Request(true), Invalidate, Request(true), Submit(1, ["alpha"])])
    ensures s == State(None, 2, 2, 1, map[1 := Pass(0, Probing(map["alpha" := 0])), 2 := Pass(1, Claimed)],
                       map["alpha" := 0], [Probe("alpha", 0, true)], 0)
  {
    var names := ["alpha"];
    var s1 := Step(START, Request(true));
    var s2 := Step(s1, Invalidate);
    var s3 := Step(s2, Request(true));
    assert names[..0] == [];
    var t := SubmitAll(s3, names, 0);
    assert t.inflight == map["alpha" := 0] && t.probes == [Probe("alpha", 0, true)];
    assert PendingOf(t, names) == map["alpha" := 0];
    s := Step(s3, Submit(1, names));
    RunCons(s3, Submit(1, names), []);
    RunCons(s2, Request(true), [Submit(1, names)]);
    RunCons(s1, Invalidate, [Request(true), Submit(1, names)]);
    RunCons(START, Request(true), [Invalidate, Request(true), Submit(1, names)]);
    assert [Request(true)] + [Invalidate, Request(true), Submit(1, names)]
           == [Request(true), Invalidate, Request(true), Submit(1, names)];
    assert [Invalidate] + [Request(true), Submit(1, names)] == [Invalidate, Request(true), Submit(1, names)];
    assert [Request(true)] + [Submit(1, names)] == [Request(true), Submit(1, names)];
    assert [Submit(1, names)] + [] == [Submit(1, names)];
  }

  /** It happens: the new pass finds the old probe in the table and publishes
      its verdict as its own generation's. */
  lemma RetiredProbeIsServed() returns (s: State, es: seq<Event>)
    ensures s == Run(START, [Request(true), Invalidate, Request(true), Submit(1, ["alpha"])] + es)
    ensures s.generation == 1 && s.snapshot == Some(Snapshot(map["alpha" := Some(0)], 2, 0))
    ensures |s.probes| == 1 && s.probes[0].generation == 0 && 2 in s.passes && s.passes[2].generation == 1
  {
    var names := ["alpha"];
    var s4 := LateSubmission();
    assert names[..0] == [];
    assert SubmitAll(s4, names, 1) == s4;
    assert PendingOf(s4, names) == map["alpha" := 0];
    var s5 := Step(s4, Submit(2, names));
    var s6 := Step(s5, ProbeEnds(0));
    var s7 := Step(s6, Collect(2));
    assert s7.passes[2].stage == Built(map["alpha" := Some(0)]);
    s := Step(s7, Publish(2));
    es := [Submit(2, names)] + ([ProbeEnds(0)] + ([Collect(2)] + ([Publish(2)] + [])));
    RunCons(s7, Publish(2), []);
    RunCons(s6, Collect(2), [Publish(2)] + []);
    RunCons(s5, ProbeEnds(0), [Collect(2)] + ([Publish(2)] + []));
    RunCons(s4, Submit(2, names), [ProbeEnds(0)] + ([Collect(2)] + ([Publish(2)] + [])));
    RunSplit(START, [Request(true), Invalidate, Request(true), Submit(1, names)], es);
  }

  lemma {:induction false} RunSplit(s: State, a: seq<Event>, b: seq<Event>)
    ensures Run(s, a + b) == Run(Run(s, a), b)
    decreases |a|
  {
    if a == [] {
      assert a + b == b;
    } else {
      assert (a + b)[0] == a[0] && (a + b)[1..] == a[1..] + b;
      RunSplit(Step(s, a[0]), a[1..], b);
    }
  }

  // ------------------------------------------------------------ what is served

  /** Passes keep their generation; probes keep their name and generation and
      do not start again. */
  ghost predicate Grown(s: State, s': State) {
    && (forall id :: id in s.passes ==> id in s'.passes && s'.passes[id].generation == s.passes[id].generation)
    && |s.probes| <= |s'.probes|
    && forall i :: 0 <= i < |s.probes| ==>
         && s'.probes[i].name == s.probes[i].name && s'.probes[i].generation == s.probes[i].generation
         && (s'.probes[i].running ==> s.probes[i].running)
  }

  lemma {:induction false} SubmitGrows(s: State, labels: seq<string>, generation: nat)
    ensures s.probes <= SubmitAll(s, labels, generation).probes
    decreases |labels|
  {
    if labels != [] { SubmitGrows(s, labels[..|labels| - 1], generation); }
  }

  lemma StepGrows(s: State, e: Event)
    requires Inv(s)
    ensures Grown(s, Step(s, e))
  {
    if e.Submit? && At(s, e.id, Claimed) { SubmitGrows(s, e.labels, s.passes[e.id].generation); }
  }

  /** The table's entry for a name is a probe of that name. */
  ghost predicate Tabled(s: State) {
    forall l :: l in s.inflight ==> s.inflight[l] < |s.probes| && s.probes[s.inflight[l]].name == l
  }

  lemma {:induction false} SubmitTabled(s: State, labels: seq<string>, generation: nat)
    requires Tabled(s)
    ensures Tabled(SubmitAll(s, labels, generation))
    decreases |labels|
  {
    if labels != [] { SubmitTabled(s, labels[..|labels| - 1], generation); }
  }

  lemma StepTabled(s: State, e: Event)
    requires Tabled(s)
    ensures Tabled(Step(s, e))
  {
    if e.Submit? && At(s, e.id, Claimed) { SubmitTabled(s, e.labels, s.passes[e.id].generation); }
  }

  /** The probe a submission gets for one of its names: the running one, or a
      new one of its own generation. */
  predicate Gets(s: State, t: State, l: string, generation: nat) {
    && l in t.inflight && t.inflight[l] < |t.probes|
    && if Running(s, l) then t.inflight[l] == s.inflight[l]
       else t.probes[t.inflight[l]] == Probe(l, generation, true)
  }

  lemma {:induction false} SubmitGets(s: State, labels: seq<string>, generation: nat, l: string)
    requires Tabled(s) && l in labels
    ensures Gets(s, SubmitAll(s, labels, generation), l, generation)
    decreases |labels|
  {
    var front, last := labels[..|labels| - 1], labels[|labels| - 1];
    SubmitGrows(s, front, generation);
    if l in front {
      SubmitGets(s, front, generation, l);
    } else {
      assert l == last;
      SubmitOthers(s, front, generation, l);
    }
  }

  /** The pass's submission, n events into the run, met a running probe of
      another generation under this name. */
  ghost predicate MetStale(es: seq<Event>, n: nat, id: nat, l: string)
    requires n < |es|
  {
    var s := Run(START, es[..n]);
    && id in s.passes && Running(s, l) && s.probes[s.inflight[l]].generation != s.passes[id].generation
  }

  ghost predicate SubmitsAt(es: seq<Event>, n: nat, id: nat, l: string)
    requires n < |es|
  {
    es[n].Submit? && es[n].id == id && l in es[n].labels && At(Run(START, es[..n]), id, Claimed)
  }

  ghost predicate Stale(s: State, id: nat, p: nat)
    requires id in s.passes && p < |s.probes|
  {
    s.probes[p].generation != s.passes[id].generation
  }

  /** A probe p a pass has for a name: it is of another generation exactly when
      the pass's submission met such a probe running. */
  ghost predicate Origin(es: seq<Event>, s: State, id: nat, l: string, p: nat) {
    && id in s.passes && p < |s.probes| && s.probes[p].name == l
    && exists n: nat :: n < |es| && SubmitsAt(es, n, id, l) && (Stale(s, id, p) <==> MetStale(es, n, id, l))
  }

  ghost predicate VerdictsFrom(es: seq<Event>, s: State, id: nat, verdicts: Verdicts) {
    forall l :: l in verdicts && verdicts[l].Some? ==>
      Origin(es, s, id, l, verdicts[l].value) && Ended(s, verdicts[l].value)
  }

  ghost predicate PendingFrom(es: seq<Event>, s: State, id: nat, pending: map<string, nat>) {
    forall l :: l in pending ==> Origin(es, s, id, l, pending[l])
  }

  ghost predicate StageFrom(es: seq<Event>, s: State, id: nat, stage: Stage) {
    match stage
    case Probing(pending) => PendingFrom(es, s, id, pending)
    case Built(verdicts) => VerdictsFrom(es, s, id, verdicts)
    case _ => true
  }

  ghost predicate Traced(es: seq<Event>, s: State) {
    && Inv(s) && Tabled(s)
    && (forall id :: id in s.passes ==> StageFrom(es, s, id, s.passes[id].stage))
    && (s.snapshot.Some? ==> VerdictsFrom(es, s, s.snapshot.value.pass, s.snapshot.value.verdicts))
  }

  lemma OriginKept(es: seq<Event>, e: Event, s: State, s': State, id: nat, l: string, p: nat)
    requires Origin(es, s, id, l, p) && Grown(s, s')
    ensures Origin(es + [e], s', id, l, p)
  {
    var n: nat :| n < |es| && SubmitsAt(es, n, id, l) && (Stale(s, id, p) <==> MetStale(es, n, id, l));
    assert (es + [e])[..n] == es[..n];
    assert SubmitsAt(es + [e], n, id, l) && (MetStale(es + [e], n, id, l) <==> MetStale(es, n, id, l));
  }

  lemma VerdictsKept(es: seq<Event>, e: Event, s: State, s': State, id: nat, verdicts: Verdicts)
    requires VerdictsFrom(es, s, id, verdicts) && Grown(s, s')
    ensures VerdictsFrom(es + [e], s', id, verdicts)
  {
    forall l | l in verdicts && verdicts[l].Some?
      ensures Origin(es + [e], s', id, l, verdicts[l].value) && Ended(s', verdicts[l].value)
    {
      OriginKept(es, e, s, s', id, l, verdicts[l].value);
    }
  }

  lemma StageKept(es: seq<Event>, e: Event, s: State, s': State, id: nat, stage: Stage)
    requires StageFrom(es, s, id, stage) && Grown(s, s')
    ensures StageFrom(es + [e], s', id, stage)
  {
    match stage
    case Probing(pending) =>
      forall l | l in pending ensures Origin(es + [e], s', id, l, pending[l]) {
        OriginKept(es, e, s, s', id, l, pending[l]);
      }
    case Built(verdicts) => VerdictsKept(es, e, s, s', id, verdicts);
    case _ =>
  }

  /** The submission itself. */
  lemma SubmitFrom(es: seq<Event>, s: State, id: nat, labels: seq<string>)
    requires s == Run(START, es) && Inv(s) && Tabled(s) && At(s, id, Claimed)
    ensures var t := Step(s, Submit(id, labels));
            StageFrom(es + [Submit(id, labels)], t, id, t.passes[id].stage)
  {
    var e := Submit(id, labels);
    var generation := s.passes[id].generation;
    var t := SubmitAll(s, labels, generation);
    SubmitKeepsRest(s, labels, generation);
    SubmitTabled(s, labels, generation);
    SubmitGrows(s, labels, generation);
    forall l | l in labels && l in t.inflight ensures Origin(es + [e], Step(s, e), id, l, t.inflight[l]) {
      SubmitGets(s, labels, generation, l);
      assert (es + [e])[..|es|] == es;
      assert SubmitsAt(es + [e], |es|, id, l);
      assert Stale(Step(s, e), id, t.inflight[l]) <==> MetStale(es + [e], |es|, id, l);
    }
  }

  /** The merge takes the ended ones of the probes the pass has. */
  lemma CollectFrom(es: seq<Event>, s: State, id: nat)
    requires Traced(es, s) && id in s.passes && s.passes[id].stage.Probing?
    ensures var t := Step(s, Collect(id)); StageFrom(es + [Collect(id)], t, id, t.passes[id].stage)
  {
    var pending := s.passes[id].stage.pending;
    StepGrows(s, Collect(id));
    assert StageFrom(es, s, id, Probing(pending));
    forall l | l in pending && Ended(s, pending[l])
      ensures Origin(es + [Collect(id)], Step(s, Collect(id)), id, l, pending[l])
    {
      OriginKept(es, Collect(id), s, Step(s, Collect(id)), id, l, pending[l]);
    }
  }

  lemma StepStages(es: seq<Event>, s: State, e: Event, id: nat)
    requires s == Run(START, es) && Traced(es, s) && id in Step(s, e).passes
    ensures StageFrom(es + [e], Step(s, e), id, Step(s, e).passes[id].stage)
  {
    var t := Step(s, e);
    StepGrows(s, e);
    if e.Submit? && e.id == id && At(s, id, Claimed) {
      SubmitFrom(es, s, id, e.labels);
    } else if e.Collect? && e.id == id && s.passes[id].stage.Probing? {
      CollectFrom(es, s, id);
    } else if id in s.passes && t.passes[id].stage == s.passes[id].stage {
      StageKept(es, e, s, t, id, s.passes[id].stage);
    }
  }

  lemma StepTraced(es: seq<Event>, s: State, e: Event)
    requires s == Run(START, es) && Traced(es, s)
    ensures Traced(es + [e], Step(s, e))
  {
    var t := Step(s, e);
    StepKeepsInv(s, e);
    StepTabled(s, e);
    StepGrows(s, e);
    forall id | id in t.passes ensures StageFrom(es + [e], t, id, t.passes[id].stage) {
      StepStages(es, s, e, id);
    }
    if t.snapshot.Some? {
      if t.snapshot == s.snapshot {
        VerdictsKept(es, e, s, t, s.snapshot.value.pass, s.snapshot.value.verdicts);
      } else {
        assert StageFrom(es, s, e.id, s.passes[e.id].stage);
        VerdictsKept(es, e, s, t, e.id, s.passes[e.id].stage.verdicts);
      }
    }
  }

  lemma {:induction false} RunTraced(es: seq<Event>)
    ensures Traced(es, Run(START, es))
    decreases |es|
  {
    if es != [] {
      var front, e := es[..|es| - 1], es[|es| - 1];
      RunTraced(front);
      StepTraced(front, Run(START, front), e);
      assert es == front + [e];
      RunSplit(START, front, [e]);
      assert [e][1..] == [];
    }
  }

  /** Every verdict served, in every reachable state, is of a probe of its own
      store that has ended; and it is another generation's exactly when the
      pass that published it met that generation's probe still running under
      this name when it submitted its probes. */
  lemma ServedVerdict(es: seq<Event>, l: string, p: nat)
    requires var s := Run(START, es);
             s.snapshot.Some? && l in s.snapshot.value.verdicts && s.snapshot.value.verdicts[l] == Some(p)
    ensures var s := Run(START, es);
            && p < |s.probes| && s.probes[p].name == l && !s.probes[p].running
            && exists n: nat :: n < |es| && SubmitsAt(es, n, s.snapshot.value.pass, l)
                                && (s.probes[p].generation != s.generation <==> MetStale(es, n, s.snapshot.value.pass, l))
  {
    RunTraced(es);
    var s := Run(START, es);
    var id := s.snapshot.value.pass;
    assert Origin(es, s, id, l, p);
    var n: nat :| n < |es| && SubmitsAt(es, n, id, l) && (Stale(s, id, p) <==> MetStale(es, n, id, l));
    assert s.passes[id].generation == s.generation;
  }

  lemma {:induction false} NotClaimedAgain(s: State, es: seq<Event>, id: nat)
    requires Inv(s) && id in s.passes && !s.passes[id].stage.Claimed?
    ensures id in Run(s, es).passes && !Run(s, es).passes[id].stage.Claimed?
    decreases |es|
  {
    if es != [] {
      StepKeepsInv(s, es[0]);
      StepNotClaimed(s, es[0], id);
      NotClaimedAgain(Step(s, es[0]), es[1..], id);
    }
  }

  lemma StepNotClaimed(s: State, e: Event, id: nat)
    requires Inv(s) && id in s.passes && !s.passes[id].stage.Claimed?
    ensures id in Step(s, e).passes && !Step(s, e).passes[id].stage.Claimed?
  {}

  /** A pass submits once. */
  lemma SubmitsOnce(es: seq<Event>, n: nat, m: nat, id: nat, l: string)
    requires n < m < |es| && SubmitsAt(es, n, id, l)
    ensures !At(Run(START, es[..m]), id, Claimed)
  {
    var s := Run(START, es[..n]);
    RunKeepsInv(START, es[..n]);
    StepKeepsInv(s, es[n]);
    NotClaimedAgain(Step(s, es[n]), es[n + 1..m], id);
    RunCons(s, es[n], es[n + 1..m]);
    RunSplit(START, es[..n], [es[n]] + es[n + 1..m]);
    assert es[..m] == es[..n] + ([es[n]] + es[n + 1..m]);
  }

  lemma {:induction false} NoLatePrefix(s: State, es: seq<Event>, n: nat)
    requires n < |es| && NoLateSubmission(s, es)
    ensures NoLateSubmission(s, es[..n])
    ensures var t := Run(s, es[..n]);
            es[n].Submit? && At(t, es[n].id, Claimed) ==> t.passes[es[n].id].generation == t.generation
    decreases n
  {
    if n == 0 {
      assert es[..0] == [];
    } else {
      NoLatePrefix(Step(s, es[0]), es[1..], n - 1);
      assert es[..n][1..] == es[1..][..n - 1];
    }
  }

  /** When no retired pass submits, everything served, in every reachable state,
      is of probes this generation started. */
  lemma ServedIsFresh(es: seq<Event>, l: string, p: nat)
    requires NoLateSubmission(START, es)
    requires var s := Run(START, es);
             s.snapshot.Some? && l in s.snapshot.value.verdicts && s.snapshot.value.verdicts[l] == Some(p)
    ensures var s := Run(START, es); p < |s.probes| && s.probes[p].generation == s.generation
  {
    ServedVerdict(es, l, p);
    var s := Run(START, es);
    var id := s.snapshot.value.pass;
    var n: nat :| n < |es| && SubmitsAt(es, n, id, l) && (s.probes[p].generation != s.generation <==> MetStale(es, n, id, l));
    NoLatePrefix(START, es, n);
    RunKeepsFresh(START, es[..n]);
  }

  // ------------------------------------------------------------ a refresh ends, and is served

  /** However it ends - not started, built or not - the owner's pass gives the
      slot back, and only a publication changes what is served. */
  lemma SlotIsGivenBack(s: State, id: nat)
    requires Current(s, id) && s.owner != 0
    ensures s.passes[id].stage.Claimed? ==>
              var t := Step(s, Refuse(id)); t.owner == 0 && t.snapshot == s.snapshot && At(t, id, Finished)
    ensures s.passes[id].stage.Claimed? || s.passes[id].stage.Probing? ==>
              var t := Step(Step(s, Fail(id)), Free(id)); t.owner == 0 && t.snapshot == s.snapshot && At(t, id, Finished)
    ensures s.passes[id].stage.Built? ==>
              var t := Step(Step(s, Publish(id)), Free(id));
              && t.owner == 0 && At(t, id, Finished)
              && t.snapshot == Some(Snapshot(s.passes[id].stage.verdicts, id, s.now))
  {}

  /** A free slot is claimed again exactly when the snapshot is more than ten
      seconds old or there is none. */
  lemma ServedForTenSeconds(s: State, ms: nat)
    requires s.owner == 0
    ensures var t := Step(s, Tick(ms));
            Step(t, Request(true)).owner != 0 <==> s.snapshot.None? || s.now + ms - s.snapshot.value.at > 10_000
    ensures Step(s, Request(false)) == s
  {}

  // ------------------------------------------------------------ the module's globals

  class Refresher {
    var snapshot: Option<Snapshot>
    var owner: nat
    var seq_: nat
    var generation: nat
    var passes: map<nat, Pass>
    var inflight: map<string, nat>
    var probes: seq<Probe>
    var now: int

    ghost function View(): State
      reads this
    {
      State(snapshot, owner, seq_, generation, passes, inflight, probes, now)
    }

    constructor ()
      ensures View() == START
    {
      snapshot, owner, seq_, generation := None, 0, 0, 0;
      passes, inflight, probes, now := map[], map[], [], 0;
    }

    /** The claim of readiness_payload_async: the pass to start, if any. */
    method TryClaim(mayRefresh: bool) returns (id: nat)
      modifies this
      ensures View() == Claim(old(View()), mayRefresh)
      ensures id != 0 <==> mayRefresh && old(owner) == 0
                           && (old(snapshot).None? || old(now) - old(snapshot).value.at > 10_000)
      ensures id != 0 ==> id == old(seq_) + 1 == seq_ == owner && passes == old(passes)[id := Pass(old(generation), Claimed)]
      ensures id == 0 ==> View() == old(View())
    {
      id := 0;
      var need := snapshot.None? || now - snapshot.value.at > TTL_MS;
      if need && owner == 0 && mayRefresh {
        seq_ := seq_ + 1;
        owner := seq_;
        passes := passes[owner := Pass(generation, Claimed)];
        id := owner;
      }
    }

    /** _probe_all's first locked section. */
    method SubmitProbes(id: nat, labels: seq<string>)
      requires id in passes && passes[id].stage == Claimed
      modifies this
      ensures View() == Step(old(View()), Submit(id, labels))
    {
      var i := 0;
      while i < |labels|
        invariant 0 <= i <= |labels|
        invariant View() == SubmitAll(old(View()), labels[..i], old(passes)[id].generation)
        invariant passes == old(passes)
      {
        assert labels[..i + 1][..i] == labels[..i];
        SubmitKeepsRest(old(View()), labels[..i + 1], old(passes)[id].generation);
        var l := labels[i];
        if !(l in inflight && inflight[l] < |probes| && probes[inflight[l]].running) {
          inflight, probes := inflight[l := |probes|], probes + [Probe(l, passes[id].generation, true)];
        }
        i := i + 1;
      }
      assert labels[..i] == labels;
      SubmitKeepsRest(old(View()), labels, old(passes)[id].generation);
      passes := passes[id := passes[id].(stage := Probing(map l | l in labels && l in inflight :: inflight[l]))];
    }

    /** Only the owner of the current generation publishes. */
    method PublishBuilt(id: nat)
      requires id in passes && passes[id].stage.Built?
      modifies this
      ensures View() == Step(old(View()), Publish(id))
      ensures passes == old(passes)[id := old(passes)[id].(stage := Releasing)]
      ensures snapshot == if old(owner) == id && old(passes)[id].generation == old(generation)
                          then Some(Snapshot(old(passes)[id].stage.verdicts, id, old(now))) else old(snapshot)
    {
      if id == owner && passes[id].generation == generation {
        snapshot := Some(Snapshot(passes[id].stage.verdicts, id, now));
      }
      passes := passes[id := passes[id].(stage := Releasing)];
    }

    /** Only the owner of the current generation frees the slot. */
    method Release(id: nat)
      requires id in passes && passes[id].stage == Releasing
      modifies this
      ensures View() == Step(old(View()), Free(id))
      ensures passes == old(passes)[id := old(passes)[id].(stage := Finished)]
      ensures owner == if old(owner) == id && old(passes)[id].generation == old(generation) then 0 else old(owner)
    {
      if owner == id && passes[id].generation == generation { owner := 0; }
      passes := passes[id := passes[id].(stage := Finished)];
    }

    /** _invalidate_locked. */
    method Retire()
      modifies this
      ensures View() == Step(old(View()), Invalidate)
      ensures generation == old(generation) + 1 && owner == 0 && inflight == map[] && snapshot == None
      ensures passes == old(passes) && probes == old(probes) && seq_ == old(seq_) && now == old(now)
    {
      generation := generation + 1;
      owner, inflight, snapshot := 0, map[], None;
    }
  }
}
