/** Absorb is exactly-once: any interleaving of runners, lease expiries,
    takeovers, rollbacks, crashes and lost acknowledgements. */
module AbsorbOnce {
  import opened Rows
  import opened IdempotencyClaims

  datatype Reply = Reply(code: nat, body: string)

  const KEY_CONFLICT := "key_conflict"
  const IN_PROGRESS := "in_progress"

  /** Where one execute() stands. Its token is its number. */
  datatype Phase =
    | Begun
    | Working(fence: nat)  // claimed: classification, embeddings, then the absorb transaction
    | Failing(fence: nat)  // an exception came out of the absorb
    | Cleaning(fence: nat) // the claim was read and is not done
    | Answered(reply: Reply)
    | Raised

  datatype Runner = Runner(key: string, sha: string, phase: Phase)

  /** A committed absorb transaction with effects. */
  datatype Effect = Effect(key: string, runner: nat, body: string)

  datatype World = World(db: Claims, runners: map<nat, Runner>, used: nat, effects: seq<Effect>, now: int)

  datatype Event =
    | Start(key: string, sha: string)
    | TakeClaim(id: nat)
    | Commit(id: nat, body: string, ack: bool)   // effects and fenced done in one transaction
    | Skip(id: nat, body: string, ack: bool)     // no effects: fenced done alone
    | Fail(id: nat)                              // before any commit
    | ReadClaim(id: nat, readable: bool)
    | MarkFailed(id: nat, writable: bool)
    | Die(id: nat)
    | Tick(ms: nat)

  function At(w: World, id: nat, phase: Phase): World
    requires id in w.runners
  {
    w.(runners := w.runners[id := w.runners[id].(phase := phase)])
  }

  function ClaimAt(w: World, id: nat): World {
    if id !in w.runners || w.runners[id].phase != Begun then w
    else
      var r := w.runners[id];
      var (db, out) := ClaimStep(w.db, r.key, r.sha, id, w.now);
      At(w.(db := db), id,
         match out
         case Claimed(fence) => Working(fence)
         case Stored(body) => Answered(Reply(200, body))
         case Conflict => Answered(Reply(409, KEY_CONFLICT))
         case Busy => Answered(Reply(409, IN_PROGRESS)))
  }

  function CommitAt(w: World, id: nat, body: string, ack: bool): World {
    if id !in w.runners || !w.runners[id].phase.Working? then w
    else
      var r := w.runners[id];
      var db := FencedDone(w.db, r.key, id, r.phase.fence, body);
      if db.None? then At(w, id, Failing(r.phase.fence)) // rolled back
      else
        At(w.(db := db.value, effects := w.effects + [Effect(r.key, id, body)]), id,
           if ack then Answered(Reply(200, body)) else Failing(r.phase.fence))
  }

  function SkipAt(w: World, id: nat, body: string, ack: bool): World {
    if id !in w.runners || !w.runners[id].phase.Working? then w
    else
      var r := w.runners[id];
      var db := FencedDone(w.db, r.key, id, r.phase.fence, body);
      if db.None? then At(w, id, Raised)
      else At(w.(db := db.value), id, if ack then Answered(Reply(200, body)) else Raised)
  }

  function ReadAt(w: World, id: nat, readable: bool): World {
    if id !in w.runners || !w.runners[id].phase.Failing? then w
    else
      var r := w.runners[id];
      if !readable || r.key !in w.db then At(w, id, Raised)
      else if w.db[r.key].status == Done then At(w, id, Answered(Reply(200, BodyOf(w.db[r.key]))))
      else At(w, id, Cleaning(r.phase.fence))
  }

  function MarkAt(w: World, id: nat, writable: bool): World {
    if id !in w.runners || !w.runners[id].phase.Cleaning? then w
    else
      var r := w.runners[id];
      At(if writable then w.(db := MarkedFailed(w.db, r.key, id, r.phase.fence)) else w, id, Raised)
  }

  function Step(w: World, e: Event): World {
    match e
    case Start(key, sha) => w.(runners := w.runners[w.used := Runner(key, sha, Begun)], used := w.used + 1)
    case TakeClaim(id) => ClaimAt(w, id)
    case Commit(id, body, ack) => CommitAt(w, id, body, ack)
    case Skip(id, body, ack) => SkipAt(w, id, body, ack)
    case Fail(id) =>
      if id in w.runners && w.runners[id].phase.Working? then At(w, id, Failing(w.runners[id].phase.fence)) else w
    case ReadClaim(id, readable) => ReadAt(w, id, readable)
    case MarkFailed(id, writable) => MarkAt(w, id, writable)
    case Die(id) => w.(runners := w.runners - {id})
    case Tick(ms) => w.(now := w.now + ms)
  }

  function Run(w: World, es: seq<Event>): World
    decreases |es|
  {
    if es == [] then w else Run(Step(w, es[0]), es[1..])
  }

  const EMPTY := World(map[], map[], 0, [], 0)

  // ------------------------------------------------------------ the invariant

  predicate HasFence(p: Phase) { p.Working? || p.Failing? || p.Cleaning? }

  /** A runner's fence is never ahead of the row's; level with it, the row is
      the runner's own, and while it works the row is in progress. */
  ghost predicate RunnerOk(db: Claims, id: nat, r: Runner) {
    && (HasFence(r.phase) ==>
          && r.key in db && db[r.key].sha == r.sha && r.phase.fence <= db[r.key].fence
          && (r.phase.fence == db[r.key].fence ==> db[r.key].owner == id))
    && (r.phase.Working? && r.phase.fence == db[r.key].fence ==> db[r.key].status == InProgress)
    && (r.phase.Answered? && r.phase.reply.code == 200 ==>
          r.key in db && db[r.key].sha == r.sha && db[r.key].status == Done && db[r.key].response == Some(r.phase.reply.body))
  }

  ghost predicate Inv(w: World) {
    && (forall id :: id in w.runners ==> id < w.used && RunnerOk(w.db, id, w.runners[id]))
    && (forall k :: k in w.db ==> w.db[k].owner < w.used && (w.db[k].status == Done ==> w.db[k].response.Some?))
    && (forall i :: 0 <= i < |w.effects| ==>
          var f := w.effects[i];
          f.key in w.db && w.db[f.key].status == Done && w.db[f.key].owner == f.runner && w.db[f.key].response == Some(f.body))
    && (forall i, j :: 0 <= i < j < |w.effects| ==> w.effects[i].key != w.effects[j].key)
  }

  /** The runner works under the claim the row names. */
  predicate HoldsClaim(w: World, id: nat) {
    && id in w.runners && w.runners[id].phase.Working?
    && Holds(w.db, w.runners[id].key, id, w.runners[id].phase.fence)
  }

  lemma ClaimKeeps(w: World, id: nat)
    requires Inv(w)
    ensures Inv(ClaimAt(w, id))
  {}

  /** A claim that matches its fence is in progress; completing it disturbs no
      other runner. */
  lemma CompletionKeeps(w: World, id: nat, body: string)
    requires Inv(w) && HoldsClaim(w, id)
    ensures w.db[w.runners[id].key].status == InProgress
    ensures var k := w.runners[id].key;
            forall o :: o in w.runners && o != id ==>
              RunnerOk(w.db[k := w.db[k].(status := Done, response := Some(body))], o, w.runners[o])
  {
    var k := w.runners[id].key;
    assert RunnerOk(w.db, id, w.runners[id]);
    forall o | o in w.runners && o != id
      ensures RunnerOk(w.db[k := w.db[k].(status := Done, response := Some(body))], o, w.runners[o])
    {
      assert RunnerOk(w.db, o, w.runners[o]);
    }
  }

  lemma CommitKeeps(w: World, id: nat, body: string, ack: bool)
    requires Inv(w)
    ensures Inv(CommitAt(w, id, body, ack))
  {
    if HoldsClaim(w, id) { CompletionKeeps(w, id, body); }
  }

  lemma SkipKeeps(w: World, id: nat, body: string, ack: bool)
    requires Inv(w)
    ensures Inv(SkipAt(w, id, body, ack))
  {
    if HoldsClaim(w, id) { CompletionKeeps(w, id, body); }
  }

  lemma ReadKeeps(w: World, id: nat, readable: bool)
    requires Inv(w)
    ensures Inv(ReadAt(w, id, readable))
  {
    if id in w.runners { assert RunnerOk(w.db, id, w.runners[id]); }
  }

  lemma MarkKeeps(w: World, id: nat, writable: bool)
    requires Inv(w)
    ensures Inv(MarkAt(w, id, writable))
  {
    if id in w.runners { assert RunnerOk(w.db, id, w.runners[id]); }
  }

  lemma StepKeepsInv(w: World, e: Event)
    requires Inv(w)
    ensures Inv(Step(w, e))
  {
    match e
    case TakeClaim(id) => ClaimKeeps(w, id);
    case Commit(id, body, ack) => CommitKeeps(w, id, body, ack);
    case Skip(id, body, ack) => SkipKeeps(w, id, body, ack);
    case ReadClaim(id, readable) => ReadKeeps(w, id, readable);
    case MarkFailed(id, writable) => MarkKeeps(w, id, writable);
    case _ =>
  }

  lemma {:induction false} RunKeepsInv(w: World, es: seq<Event>)
    requires Inv(w)
    ensures Inv(Run(w, es))
    decreases |es|
  {
    if es != [] {
      StepKeepsInv(w, es[0]);
      RunKeepsInv(Step(w, es[0]), es[1..]);
    }
  }

  // ------------------------------------------------------------ the theorems

  /** At most one transaction with effects ever commits for a key, and it is
      the one whose done row the key has. */
  lemma EffectsCommitOnce(es: seq<Event>)
    ensures var w := Run(EMPTY, es);
            && (forall i, j :: 0 <= i < j < |w.effects| ==> w.effects[i].key != w.effects[j].key)
            && forall i :: 0 <= i < |w.effects| ==>
                 var f := w.effects[i];
                 f.key in w.db && w.db[f.key].status == Done && w.db[f.key].owner == f.runner
                 && w.db[f.key].response == Some(f.body)
  {
    RunKeepsInv(EMPTY, es);
  }

  lemma {:induction false} RunSplit(w: World, a: seq<Event>, b: seq<Event>)
    ensures Run(w, a + b) == Run(Run(w, a), b)
    decreases |a|
  {
    if a == [] {
      assert a + b == b;
    } else {
      assert (a + b)[0] == a[0] && (a + b)[1..] == a[1..] + b;
      RunSplit(Step(w, a[0]), a[1..], b);
    }
  }

  /** A done row never changes again, and its key's effects never grow. */
  lemma DoneStays(w: World, e: Event, k: string)
    requires Inv(w) && k in w.db && w.db[k].status == Done
    ensures k in Step(w, e).db && Step(w, e).db[k] == w.db[k]
    ensures forall i :: |w.effects| <= i < |Step(w, e).effects| ==> Step(w, e).effects[i].key != k
    ensures w.effects <= Step(w, e).effects
  {
    if (e.Commit? || e.Skip?) && e.id in w.runners { assert RunnerOk(w.db, e.id, w.runners[e.id]); }
  }

  lemma {:induction false} DoneStaysOverRuns(w: World, es: seq<Event>, k: string)
    requires Inv(w) && k in w.db && w.db[k].status == Done
    ensures k in Run(w, es).db && Run(w, es).db[k] == w.db[k] && w.effects <= Run(w, es).effects
    ensures forall i :: |w.effects| <= i < |Run(w, es).effects| ==> Run(w, es).effects[i].key != k
    decreases |es|
  {
    if es != [] {
      var w' := Step(w, es[0]);
      DoneStays(w, es[0], k);
      StepKeepsInv(w, es[0]);
      DoneStaysOverRuns(w', es[1..], k);
      var end := Run(w, es);
      forall i | |w.effects| <= i < |end.effects| ensures end.effects[i].key != k {
        if i < |w'.effects| { assert end.effects[i] == w'.effects[i]; }
      }
    }
  }

  /** Every 200 for a key carries the one stored body, however late it is given
      and by whichever runner; a replay of the same request gets it, a
      different request gets the conflict, and neither changes anything. */
  lemma RepliesAgree(es: seq<Event>, later: seq<Event>, id: nat, id': nat)
    ensures var w := Run(EMPTY, es); var w' := Run(EMPTY, es + later);
            (id in w.runners && w.runners[id].phase.Answered? && w.runners[id].phase.reply.code == 200
             && id' in w'.runners && w'.runners[id'].key == w.runners[id].key) ==>
              && (w'.runners[id'].phase.Answered? && w'.runners[id'].phase.reply.code == 200 ==>
                    w'.runners[id'].phase.reply == w.runners[id].phase.reply)
              && (w'.runners[id'].phase == Begun ==>
                    var c := ClaimAt(w', id');
                    c.db == w'.db && c.runners[id'].phase
                      == Answered(if w'.runners[id'].sha == w.runners[id].sha then w.runners[id].phase.reply
                                  else Reply(409, KEY_CONFLICT)))
  {
    var w := Run(EMPTY, es);
    RunKeepsInv(EMPTY, es);
    RunKeepsInv(EMPTY, es + later);
    RunSplit(EMPTY, es, later);
    if id in w.runners && w.runners[id].phase.Answered? && w.runners[id].phase.reply.code == 200 {
      assert RunnerOk(w.db, id, w.runners[id]);
      DoneStaysOverRuns(w, later, w.runners[id].key);
      var w' := Run(EMPTY, es + later);
      if id' in w'.runners { assert RunnerOk(w'.db, id', w'.runners[id']); }
    }
  }

  /** A runner that lost its claim commits nothing: a takeover leaves the fence
      behind for good, and only the fence's holder can complete the key. */
  lemma LostClaimCommitsNothing(es: seq<Event>, later: seq<Event>, id: nat, body: string, ack: bool)
    ensures var w := Run(EMPTY, es); var w' := Run(EMPTY, es + later);
            (id in w.runners && w.runners[id].phase.Working? && !HoldsClaim(w, id)
             && id in w'.runners && w'.runners[id].phase.Working?) ==>
              && CommitAt(w', id, body, ack).db == w'.db && CommitAt(w', id, body, ack).effects == w'.effects
              && SkipAt(w', id, body, ack).db == w'.db
  {
    var w := Run(EMPTY, es);
    RunKeepsInv(EMPTY, es);
    RunSplit(EMPTY, es, later);
    if id in w.runners && w.runners[id].phase.Working? && !HoldsClaim(w, id) {
      assert RunnerOk(w.db, id, w.runners[id]);
      BehindStays(w, later, id, w.runners[id].key, w.runners[id].phase.fence);
    }
  }

  ghost predicate Behind(w: World, id: nat, key: string, fence: nat) {
    && id < w.used && key in w.db && fence < w.db[key].fence
    && (id in w.runners ==> w.runners[id].key == key && (HasFence(w.runners[id].phase) ==> w.runners[id].phase.fence == fence)
                            && w.runners[id].phase != Begun)
  }

  lemma {:induction false} BehindStays(w: World, es: seq<Event>, id: nat, key: string, fence: nat)
    requires Behind(w, id, key, fence)
    ensures Behind(Run(w, es), id, key, fence)
    decreases |es|
  {
    if es != [] {
      BehindStep(w, es[0], id, key, fence);
      BehindStays(Step(w, es[0]), es[1..], id, key, fence);
    }
  }

  lemma BehindStep(w: World, e: Event, id: nat, key: string, fence: nat)
    requires Behind(w, id, key, fence)
    ensures Behind(Step(w, e), id, key, fence)
  {}

  /** The converse of a lost claim: the holder of the fence completes the key,
      with its own body, and the answer is what any replay will get. */
  lemma HolderCommits(es: seq<Event>, id: nat, body: string, ack: bool)
    ensures var w := Run(EMPTY, es);
            HoldsClaim(w, id) ==>
              var w' := CommitAt(w, id, body, ack); var k := w.runners[id].key;
              && w'.effects == w.effects + [Effect(k, id, body)]
              && (forall i :: 0 <= i < |w.effects| ==> w.effects[i].key != k)
              && w'.db[k].status == Done && w'.db[k].response == Some(body)
              && (!ack ==> ReadAt(w', id, true).runners[id].phase == Answered(Reply(200, body)))
  {
    RunKeepsInv(EMPTY, es);
    var w := Run(EMPTY, es);
    if id in w.runners { assert RunnerOk(w.db, id, w.runners[id]); }
  }

  // ------------------------------------------------------------ no key is blocked for good

  /** A claim's lease ends at most ten minutes from now. */
  ghost predicate LeasesEnd(w: World) {
    forall k :: k in w.db ==> w.db[k].lease <= w.now + 600_000
  }

  lemma {:induction false} RunKeepsLeases(w: World, es: seq<Event>)
    requires LeasesEnd(w)
    ensures LeasesEnd(Run(w, es))
    decreases |es|
  {
    if es != [] {
      StepKeepsLeases(w, es[0]);
      RunKeepsLeases(Step(w, es[0]), es[1..]);
    }
  }

  lemma StepKeepsLeases(w: World, e: Event)
    requires LeasesEnd(w)
    ensures LeasesEnd(Step(w, e))
  {}

  /** The request may have the key: nobody has used it, or the same request has
      and is not done. */
  predicate MayRun(w: World, key: string, sha: string) {
    key in w.db ==> w.db[key].sha == sha && w.db[key].status != Done
  }

  /** A row the claim can take: none, failed, or with its lease run out. */
  predicate Open(w: World, key: string) {
    key in w.db && w.db[key].status == InProgress ==> w.db[key].lease <= w.now
  }

  lemma RunTwo(w: World, a: Event, b: Event)
    ensures Run(w, [a, b]) == Step(Step(w, a), b)
  {
    assert [a, b][1..] == [b] && [b][1..] == [];
    assert Run(Step(w, a), [b]) == Step(Step(w, a), b);
  }

  lemma RunThree(w: World, a: Event, b: Event, c: Event)
    ensures Run(w, [a, b, c]) == Step(Step(Step(w, a), b), c)
  {
    assert [a, b, c][1..] == [b, c];
    RunTwo(Step(w, a), b, c);
  }

  /** A new runner on an open key completes it: the effects commit once, or the
      absorb had none, and the answer is the body it stored. */
  lemma OpenKeyCompletes(w: World, key: string, sha: string, body: string)
    requires w.used !in w.runners && MayRun(w, key, sha) && Open(w, key)
    ensures var t := Run(w, [Start(key, sha), TakeClaim(w.used), Commit(w.used, body, true)]);
            && t.effects == w.effects + [Effect(key, w.used, body)]
            && key in t.db && t.db[key].status == Done && t.db[key].response == Some(body)
            && w.used in t.runners && t.runners[w.used].phase == Answered(Reply(200, body))
    ensures var t := Run(w, [Start(key, sha), TakeClaim(w.used), Skip(w.used, body, true)]);
            && t.effects == w.effects
            && key in t.db && t.db[key].status == Done && t.db[key].response == Some(body)
            && w.used in t.runners && t.runners[w.used].phase == Answered(Reply(200, body))
  {
    RunThree(w, Start(key, sha), TakeClaim(w.used), Commit(w.used, body, true));
    RunThree(w, Start(key, sha), TakeClaim(w.used), Skip(w.used, body, true));
  }

  /** Whatever has happened to its runners, ten minutes on the same request goes
      through. */
  lemma KeyIsNeverStuck(es: seq<Event>, key: string, sha: string, body: string)
    requires MayRun(Run(EMPTY, es), key, sha)
    ensures var w := Run(EMPTY, es + [Tick(600_000)]);
            var t := Run(w, [Start(key, sha), TakeClaim(w.used), Commit(w.used, body, true)]);
            t.effects == w.effects + [Effect(key, w.used, body)]
            && w.used in t.runners && t.runners[w.used].phase == Answered(Reply(200, body))
  {
    var was := Run(EMPTY, es);
    RunKeepsLeases(EMPTY, es);
    RunKeepsInv(EMPTY, es + [Tick(600_000)]);
    RunSplit(EMPTY, es, [Tick(600_000)]);
    assert [Tick(600_000)][1..] == [];
    var w := Run(EMPTY, es + [Tick(600_000)]);
    assert w == was.(now := was.now + 600_000);
    OpenKeyCompletes(w, key, sha, body);
  }

  /** A failure that the runner could record frees the key at once; one it could
      not leaves the key to its lease. */
  lemma RecordedFailureFreesKey(es: seq<Event>, id: nat, writable: bool)
    requires HoldsClaim(Run(EMPTY, es), id)
    ensures var w := Run(EMPTY, es); var key := w.runners[id].key;
            var t := Run(w, [Fail(id), ReadClaim(id, true), MarkFailed(id, writable)]);
            && key in t.db && t.effects == w.effects && id in t.runners && t.runners[id].phase == Raised
            && (writable ==> MayRun(t, key, w.runners[id].sha) && Open(t, key))
            && (!writable ==> t.db == w.db)
  {
    var w := Run(EMPTY, es);
    RunKeepsInv(EMPTY, es);
    assert RunnerOk(w.db, id, w.runners[id]);
    RunThree(w, Fail(id), ReadClaim(id, true), MarkFailed(id, writable));
  }

  /** While a claim is live every other runner of its key is turned away, with
      the reason, and changes nothing. */
  lemma LiveClaimTurnsAway(w: World, key: string, sha: string)
    requires key in w.db && w.db[key].status == InProgress && w.db[key].lease > w.now
    ensures var t := Run(w, [Start(key, sha), TakeClaim(w.used)]);
            && t.db == w.db && t.effects == w.effects && w.used in t.runners
            && t.runners[w.used].phase
               == Answered(Reply(409, if sha == w.db[key].sha then "in_progress" else "key_conflict"))
  {
    RunTwo(w, Start(key, sha), TakeClaim(w.used));
  }

  /** A lost acknowledgement is not an answer: the runner reads its claim and
      answers then, or raises when it had no effects or cannot read. */
  lemma LostAcknowledgement(w: World, id: nat, body: string)
    requires HoldsClaim(w, id)
    ensures var t := Run(w, [Commit(id, body, false), ReadClaim(id, true)]);
            id in t.runners && t.runners[id].phase == Answered(Reply(200, body))
            && t.effects == w.effects + [Effect(w.runners[id].key, id, body)]
    ensures var t := Run(w, [Commit(id, body, false), ReadClaim(id, false)]);
            id in t.runners && t.runners[id].phase == Raised
    ensures var t := Step(w, Skip(id, body, false)); id in t.runners && t.runners[id].phase == Raised
  {
    RunTwo(w, Commit(id, body, false), ReadClaim(id, true));
    RunTwo(w, Commit(id, body, false), ReadClaim(id, false));
  }

  /** A dead process does nothing more. */
  lemma DeadDoesNothing(w: World, id: nat, e: Event)
    requires !e.Start? && !e.Tick? && e.id == id
    ensures Step(Step(w, Die(id)), e) == Step(w, Die(id))
  {
    assert w.runners - {id} - {id} == w.runners - {id};
  }
}
