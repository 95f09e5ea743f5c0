/** One local store's reader-writer lock and the writer connections it counts:
    the atomic sections of any number of threads, and each operation as the
    thread that runs it sees it. */
module StoreLock {
  import opened Rows

  /** The lock and the connections. conns: the counted writer connections and
      whether each is still open. */
  datatype World = World(readers: map<int, nat>, writer: bool, owner: int, waiting: set<int>,
                         openWriters: int, deferred: seq<int>, draining: bool, conns: map<int, bool>, next: int)

  /** One atomic section of thread t. */
  datatype Action =
    | Acquire(t: int)
    | Release(t: int, holder: int)          // any thread may close another's reader
    | Wait(t: int)                          // exclusive: from here readers are held back
    | Grant(t: int)
    | GiveUp(t: int)
    | TryTake(t: int, ignoreWaiting: bool)
    | Free(t: int)
    | Open(t: int)
    | Close(t: int, conn: int, ok: bool)    // ok: the underlying close succeeded
    | Defer(t: int, conn: int)
    | Pop(t: int)
    | SetDraining(t: int, on: bool)

  predicate Owned(w: World, t: int) { w.writer && w.owner == t }

  predicate Free_(w: World) { !w.writer && w.readers == map[] }

  function Step(w: World, a: Action): World {
    match a
    case Acquire(t) =>
      if t in w.readers then w.(readers := w.readers[t := w.readers[t] + 1])
      else if w.writer || w.waiting != {} then w
      else w.(readers := w.readers[t := 1])
    case Release(_, holder) =>
      if holder !in w.readers then w
      else if w.readers[holder] <= 1 then w.(readers := w.readers - {holder})
      else w.(readers := w.readers[holder := w.readers[holder] - 1])
    case Wait(t) => if t in w.readers then w else w.(waiting := w.waiting + {t})
    case Grant(t) =>
      if t in w.waiting && Free_(w) then w.(waiting := w.waiting - {t}, writer := true, owner := t) else w
    case GiveUp(t) => w.(waiting := w.waiting - {t})
    case TryTake(t, ignoreWaiting) =>
      if !Free_(w) || (w.waiting != {} && !ignoreWaiting) then w else w.(writer := true, owner := t)
    case Free(t) => if Owned(w, t) then w.(writer := false) else w
    case Open(t) =>
      if !Owned(w, t) then w
      else w.(conns := w.conns[w.next := true], next := w.next + 1, openWriters := w.openWriters + 1)
    case Close(t, conn, ok) =>
      if !Owned(w, t) || conn !in w.conns || !w.conns[conn] || !ok then w
      else w.(conns := w.conns[conn := false], openWriters := w.openWriters - 1)
    case Defer(_, conn) => w.(deferred := w.deferred + [conn])
    case Pop(t) => if Owned(w, t) && w.deferred != [] then w.(deferred := w.deferred[1..]) else w
    case SetDraining(_, on) => w.(draining := on)
  }

  function Run(w: World, acts: seq<Action>): World
    decreases |acts|
  {
    if acts == [] then w else Run(Step(w, acts[0]), acts[1..])
  }

  const IDLE := World(map[], false, 0, {}, 0, [], false, map[], 0)

  function OpenConns(w: World): set<int> {
    set c | c in w.conns && w.conns[c]
  }

  /** Never a reader beside an exclusive holder, no reader waits to be one, and
      open_writers counts the writer connections opened and not yet closed. */
  ghost predicate Inv(w: World) {
    && (w.writer ==> w.readers == map[])
    && (forall t :: t in w.readers ==> w.readers[t] >= 1 && t !in w.waiting)
    && w.openWriters == |OpenConns(w)|
    && (forall c :: c in w.conns ==> c < w.next)
  }

  lemma OpenCounts(w: World, t: int)
    requires Inv(w) && Owned(w, t)
    ensures Inv(Step(w, Open(t)))
  {
    assert OpenConns(Step(w, Open(t))) == OpenConns(w) + {w.next};
  }

  lemma CloseCounts(w: World, t: int, conn: int)
    requires Inv(w) && Owned(w, t) && conn in w.conns && w.conns[conn]
    ensures Inv(Step(w, Close(t, conn, true)))
  {
    assert OpenConns(Step(w, Close(t, conn, true))) == OpenConns(w) - {conn};
  }

  lemma SameConns(w: World, w': World)
    requires Inv(w) && w'.conns == w.conns && w'.openWriters == w.openWriters && w'.next == w.next
    requires w'.writer ==> w'.readers == map[]
    requires forall t :: t in w'.readers ==> w'.readers[t] >= 1 && t !in w'.waiting
    ensures Inv(w')
  {
    assert OpenConns(w') == OpenConns(w);
  }

  lemma StepKeepsInv(w: World, a: Action)
    requires Inv(w)
    ensures Inv(Step(w, a))
  {
    if a.Open? && Owned(w, a.t) {
      OpenCounts(w, a.t);
    } else if a.Close? && Step(w, a) != w {
      CloseCounts(w, a.t, a.conn);
    } else {
      SameConns(w, Step(w, a));
    }
  }

  lemma {:induction false} RunKeepsInv(w: World, acts: seq<Action>)
    requires Inv(w)
    ensures Inv(Run(w, acts))
    decreases |acts|
  {
    if acts != [] {
      StepKeepsInv(w, acts[0]);
      RunKeepsInv(Step(w, acts[0]), acts[1..]);
    }
  }

  /** In every reachable state. */
  lemma NoReaderBesideWriter(acts: seq<Action>)
    ensures var w := Run(IDLE, acts);
            && !(w.writer && w.readers != map[])
            && (forall t :: t in w.readers ==> t !in w.waiting)
            && w.openWriters == |set c | c in w.conns && w.conns[c]|
  {
    assert OpenConns(IDLE) == {};
    RunKeepsInv(IDLE, acts);
  }

  /** open_writers and the connections change only under the exclusive side. */
  lemma ChangesOnlyUnderExclusive(w: World, a: Action)
    ensures (Step(w, a).openWriters != w.openWriters || Step(w, a).conns != w.conns) ==> Owned(w, a.t)
  {}

  // ------------------------------------------------------------ holds are counted

  /** The acquire that takes one more hold of t: a re-entry, or a first one with
      no exclusive holder and nobody waiting to be one. */
  predicate Enters(w: World, a: Action, t: int) {
    a.Acquire? && a.t == t && (t in w.readers || (!w.writer && w.waiting == {}))
  }

  /** The release that gives one hold of t back. */
  predicate Leaves(w: World, a: Action, t: int) {
    a.Release? && a.holder == t && t in w.readers
  }

  function HoldsOf(w: World, t: int): nat { if t in w.readers then w.readers[t] else 0 }

  /** The holds of t taken in a run less those given back. */
  function Net(w: World, acts: seq<Action>, t: int): int
    decreases |acts|
  {
    if acts == [] then 0
    else
      (if Enters(w, acts[0], t) then 1 else if Leaves(w, acts[0], t) then -1 else 0) + Net(Step(w, acts[0]), acts[1..], t)
  }

  lemma StepHolds(w: World, a: Action, t: int)
    requires Inv(w)
    ensures HoldsOf(Step(w, a), t) == HoldsOf(w, t) + if Enters(w, a, t) then 1 else if Leaves(w, a, t) then -1 else 0
  {}

  /** A thread's holds are the ones it took less the ones given back, and it is
      a reader exactly while that is more than none. */
  lemma {:induction false} HoldsCounted(w: World, acts: seq<Action>, t: int)
    requires Inv(w)
    ensures HoldsOf(Run(w, acts), t) == HoldsOf(w, t) + Net(w, acts, t)
    ensures t in Run(w, acts).readers <==> HoldsOf(w, t) + Net(w, acts, t) > 0
    decreases |acts|
  {
    if acts != [] {
      StepHolds(w, acts[0], t);
      StepKeepsInv(w, acts[0]);
      HoldsCounted(Step(w, acts[0]), acts[1..], t);
    }
  }

  /** While a thread waits for the exclusive side no other becomes a reader. */
  lemma NoNewReaderBesideWaiter(w: World, a: Action, t: int)
    requires w.waiting != {} && t !in w.readers
    ensures t !in Step(w, a).readers
  {}

  // ------------------------------------------------------------ during a read

  /** The thread is a reader in every state of the run. */
  ghost predicate ReadsThroughout(w: World, acts: seq<Action>, t: int)
    decreases |acts|
  {
    t in w.readers && (acts == [] || ReadsThroughout(Step(w, acts[0]), acts[1..], t))
  }

  lemma {:induction false} ReaderSeesNoChange(w: World, acts: seq<Action>, t: int)
    requires Inv(w) && ReadsThroughout(w, acts, t)
    ensures Run(w, acts).conns == w.conns && Run(w, acts).openWriters == w.openWriters
    decreases |acts|
  {
    if acts != [] {
      ChangesOnlyUnderExclusive(w, acts[0]);
      StepKeepsInv(w, acts[0]);
      ReaderSeesNoChange(Step(w, acts[0]), acts[1..], t);
    }
  }

  /** At every point of the run t has had fewer holds given back than it has
      taken, with one taken before. */
  ghost predicate NotGivenBack(w: World, acts: seq<Action>, t: int, held: int) {
    forall n :: 0 <= n <= |acts| ==> held + Net(w, acts[..n], t) > 0
  }

  lemma {:induction false} CountsMeanReading(w: World, acts: seq<Action>, t: int, held: int)
    requires Inv(w) && NotGivenBack(w, acts, t, held) && held <= HoldsOf(w, t)
    ensures ReadsThroughout(w, acts, t)
    decreases |acts|
  {
    assert acts[..0] == [] && held + Net(w, acts[..0], t) > 0;
    if acts != [] {
      var d := if Enters(w, acts[0], t) then 1 else if Leaves(w, acts[0], t) then -1 else 0;
      StepHolds(w, acts[0], t);
      StepKeepsInv(w, acts[0]);
      forall n | 0 <= n <= |acts[1..]| ensures held + d + Net(Step(w, acts[0]), acts[1..][..n], t) > 0 {
        assert acts[..n + 1][1..] == acts[1..][..n];
        assert held + Net(w, acts[..n + 1], t) > 0;
      }
      CountsMeanReading(Step(w, acts[0]), acts[1..], t, held + d);
    }
  }

  /** From a read's opening until as many holds of its thread are given back as
      it has taken since, no writer connection of the process is opened or
      closed, by its owner, by the GC or by a deferred close. */
  lemma ReadSeesNoWriterChange(w: World, acts: seq<Action>, t: int)
    requires Inv(w) && Enters(w, Acquire(t), t) && NotGivenBack(Step(w, Acquire(t)), acts, t, 1)
    ensures var r := Run(Step(w, Acquire(t)), acts); r.conns == w.conns && r.openWriters == w.openWriters
  {
    var read := Step(w, Acquire(t));
    StepKeepsInv(w, Acquire(t));
    StepHolds(w, Acquire(t), t);
    CountsMeanReading(read, acts, t, 1);
    ReaderSeesNoChange(read, acts, t);
  }

  /** A read opened immutable has no open writer beside it until then. */
  lemma ImmutableReadSeesNoWriter(w: World, acts: seq<Action>, t: int)
    requires Inv(w) && Enters(w, Acquire(t), t) && NotGivenBack(Step(w, Acquire(t)), acts, t, 1) && w.openWriters == 0
    ensures var r := Run(Step(w, Acquire(t)), acts); forall c :: c in r.conns ==> !r.conns[c]
  {
    ReadSeesNoWriterChange(w, acts, t);
    assert OpenConns(w) == {};
    forall c | c in w.conns ensures !w.conns[c] {
      assert c !in OpenConns(w);
    }
  }

  predicate NotBy(acts: seq<Action>, me: int) {
    forall i :: 0 <= i < |acts| ==> acts[i].t != me
  }

  /** Connections are only ever added, and never reopened. */
  ghost predicate Grown(w: World, w': World) {
    w.next <= w'.next && forall c :: c in w.conns ==> c in w'.conns && (!w.conns[c] ==> !w'.conns[c])
  }

  /** What a thread may rely on while others run. */
  ghost predicate Relied(w: World, w': World, me: int) {
    && (Owned(w, me) ==> Owned(w', me) && w'.conns == w.conns && w'.openWriters == w.openWriters)
    && (!Owned(w, me) ==> !Owned(w', me))
    && (me in w.waiting <==> me in w'.waiting)
    && (me !in w.readers ==> me !in w'.readers)
    && Grown(w, w')
  }

  lemma {:induction false} OthersRely(w: World, acts: seq<Action>, me: int)
    requires Inv(w) && NotBy(acts, me)
    ensures Inv(Run(w, acts)) && Relied(w, Run(w, acts), me)
    decreases |acts|
  {
    if acts != [] {
      StepKeepsInv(w, acts[0]);
      OthersStep(w, acts[0], me);
      OthersRely(Step(w, acts[0]), acts[1..], me);
    }
  }

  lemma OthersStep(w: World, a: Action, me: int)
    requires Inv(w) && a.t != me
    ensures Relied(w, Step(w, a), me)
  {}

  /** Between the two states only other threads have run. */
  ghost predicate Others(w: World, w': World, me: int) {
    exists acts: seq<Action> :: NotBy(acts, me) && w' == Run(w, acts)
  }

  lemma OthersThenOthers(w: World, v: World, u: World, me: int)
    requires Others(w, v, me) && Others(v, u, me)
    ensures Others(w, u, me)
  {
    var a: seq<Action> :| NotBy(a, me) && v == Run(w, a);
    var b: seq<Action> :| NotBy(b, me) && u == Run(v, b);
    RunSplit(w, a, b);
    assert NotBy(a + b, me);
  }

  // ------------------------------------------------------------ the operations

  /** What others do before my next atomic section, and whether an underlying
      close succeeds there. */
  datatype Turn = Turn(acts: seq<Action>, closes: bool)

  ghost predicate OthersOnly(schedule: seq<Turn>, me: int) {
    forall i :: 0 <= i < |schedule| ==> NotBy(schedule[i].acts, me)
  }

  function ActsAt(schedule: seq<Turn>, turn: nat): seq<Action> {
    if turn < |schedule| then schedule[turn].acts else []
  }

  function Turned(w: World, schedule: seq<Turn>, turn: nat): World { Run(w, ActsAt(schedule, turn)) }

  function Next(schedule: seq<Turn>, turn: nat): nat { if turn < |schedule| then turn + 1 else turn }

  predicate ClosesAt(schedule: seq<Turn>, turn: nat) { turn < |schedule| ==> schedule[turn].closes }

  lemma TurnIsOthers(w: World, schedule: seq<Turn>, turn: nat, me: int)
    requires OthersOnly(schedule, me)
    ensures Others(w, Turned(w, schedule, turn), me)
  {
    assert NotBy(ActsAt(schedule, turn), me);
  }

  /** One of these closes fails. */
  ghost predicate CloseFails(schedule: seq<Turn>, turn: nat) {
    exists i :: turn <= i < |schedule| && !schedule[i].closes
  }

  /** How a drain stands: going while it has closed one more connection; raised
      when its pop found nothing. */
  datatype Round = Round(world: World, turn: nat, going: bool, raised: bool)

  /** The round's part under the exclusive side: pop, close, release. */
  function HeldRound(taken: World, schedule: seq<Turn>, turn: nat, me: int): Round {
    var popping, t := Turned(taken, schedule, turn), Next(schedule, turn);
    if popping.deferred == [] then Round(Step(popping, Free(me)), t, false, true)
    else
      var closing := Turned(Step(popping, Pop(me)), schedule, t);
      Round(Step(Step(closing, Close(me, popping.deferred[0], ClosesAt(schedule, t))), Free(me)), Next(schedule, t),
            true, false)
  }

  /** One round of _drain_deferred: look, take the exclusive side, pop, close. */
  function OneRound(w: World, schedule: seq<Turn>, turn: nat, me: int): Round {
    var seen, t1 := Turned(w, schedule, turn), Next(schedule, turn);
    if seen.deferred == [] then Round(seen, t1, false, false)
    else
      var taken, t2 := Step(Turned(seen, schedule, t1), TryTake(me, true)), Next(schedule, t1);
      if !Owned(taken, me) then Round(taken, t2, false, false)
      else HeldRound(taken, schedule, t2, me)
  }

  lemma RoundShrinks(w: World, schedule: seq<Turn>, turn: nat, me: int)
    ensures var r := OneRound(w, schedule, turn, me);
            r.turn >= turn && (r.turn == turn ==> turn >= |schedule| && (r.going ==> |r.world.deferred| < |w.deferred|))
  {}

  /** The rounds until the list is empty, the exclusive side is busy, or a pop
      finds nothing. */
  function Rounds(w: World, schedule: seq<Turn>, turn: nat, me: int): Round
    decreases |schedule| - turn, |w.deferred|
  {
    var r := OneRound(w, schedule, turn, me);
    RoundShrinks(w, schedule, turn, me);
    if r.going then Rounds(r.world, schedule, r.turn, me) else r
  }

  /** _drain_deferred. */
  function Drained(w: World, schedule: seq<Turn>, turn: nat, me: int): Round {
    var seen, t := Turned(w, schedule, turn), Next(schedule, turn);
    if seen.draining || seen.deferred == [] then Round(seen, t, false, false)
    else
      var r := Rounds(Step(seen, SetDraining(me, true)), schedule, t, me);
      r.(world := Step(r.world, SetDraining(me, false)))
  }

  /** How a read is opened. */
  datatype ReadMode = NotOpened | ReadOnly | Immutable

  /** What the read finds on disk. */
  datatype Files = Files(present: bool, wal: bool, hasWal: bool, hasShm: bool, usable: bool)

  datatype Entry = Taken | Nested | Refused | Blocked

  /** What becomes of a connection the GC finalizes. */
  datatype Finalized = Closed | HandedOver | Raised

  /** w is the store as this thread's read begins. */
  ghost predicate Reading(before: World, w: World, me: int) {
    exists v :: Others(before, v, me) && Enters(v, Acquire(me), me) && w == Step(v, Acquire(me))
  }

  /** A drain of this thread raises somewhere; RaisesExactly says when. */
  ghost predicate DrainRaises(schedule: seq<Turn>, me: int) {
    exists w: World, turn: nat :: Drained(w, schedule, turn, me).raised
  }

  /** The others had, or waited for, the lock since. */
  ghost predicate FoundBusy(before: World, me: int) {
    exists w :: Others(before, w, me) && (!Free_(w) || w.waiting != {})
  }

  lemma BusyLater(w: World, v: World, me: int)
    requires Others(w, v, me) && FoundBusy(v, me)
    ensures FoundBusy(w, me)
  {
    var u :| Others(v, u, me) && (!Free_(u) || u.waiting != {});
    OthersThenOthers(w, v, u, me);
  }

  /** The shared side is not for the taking. */
  predicate HeldBack(w: World, me: int) { me !in w.readers && (w.writer || w.waiting != {}) }

  class Lock {
    var world: World
    var schedule: seq<Turn>
    var turn: nat

    ghost predicate Valid(me: int)
      reads this
    {
      Inv(world) && turn <= |schedule| && OthersOnly(schedule, me)
    }

    constructor (turns: seq<Turn>, ghost me: int)
      requires OthersOnly(turns, me)
      ensures Valid(me) && world == IDLE
    {
      world, schedule, turn := IDLE, turns, 0;
      assert OpenConns(IDLE) == {};
    }

    method Yield(ghost me: int) returns (closes: bool)
      requires Valid(me)
      modifies `world, `turn
      ensures Valid(me) && Relied(old(world), world, me)
      ensures world == Turned(old(world), schedule, old(turn)) && turn == Next(schedule, old(turn))
      ensures closes == ClosesAt(schedule, old(turn)) && Others(old(world), world, me)
    {
      TurnIsOthers(world, schedule, turn, me);
      closes := true;
      if turn < |schedule| {
        OthersRely(world, schedule[turn].acts, me);
        world, closes := Run(world, schedule[turn].acts), schedule[turn].closes;
        turn := turn + 1;
      }
    }

    method Act(ghost me: int, a: Action)
      requires Valid(me)
      modifies `world
      ensures Valid(me) && world == Step(old(world), a) && Grown(old(world), world)
    {
      StepKeepsInv(world, a);
      world := Step(world, a);
    }

    /** acquire_shared: false when the lock did not come free in time. */
    method AcquireShared(me: int) returns (ok: bool)
      requires Valid(me)
      modifies `world, `turn
      ensures Valid(me) && (ok ==> me in world.readers && !world.writer)
      ensures !old(Owned(world, me)) ==> !Owned(world, me)
      ensures ok ==> Reading(old(world), world, me)
      ensures !ok ==> turn == |schedule| && Others(old(world), world, me)
      ensures !ok ==> me !in world.readers && (world.writer || world.waiting != {})
    {
      var closes := Yield(me);
      while me !in world.readers && (world.writer || world.waiting != {})
        invariant Valid(me) && (!old(Owned(world, me)) ==> !Owned(world, me)) && Others(old(world), world, me)
        decreases |schedule| - turn
      {
        if turn == |schedule| { return false; }
        ghost var before := world;
        closes := Yield(me);
        OthersThenOthers(old(world), before, world, me);
      }
      Act(me, Acquire(me));
      ok := true;
    }

    /** _memora_close_locked: only ever reached under the exclusive side. */
    method CloseLocked(me: int, conn: int) returns (ok: bool)
      requires Valid(me) && Owned(world, me)
      modifies `world, `turn
      ensures Valid(me) && Owned(world, me) && Grown(old(world), world)
      ensures me !in old(world).waiting ==> me !in world.waiting
      ensures ok && conn in old(world).conns ==> !world.conns[conn]
      ensures ok == ClosesAt(schedule, old(turn)) && turn == Next(schedule, old(turn))
      ensures !ok ==> CloseFails(schedule, old(turn))
      ensures world == Step(Turned(old(world), schedule, old(turn)), Close(me, conn, ok))
    {
      ok := Yield(me);
      Act(me, Close(me, conn, ok));
    }

    /** _drain_locked. */
    method DrainLocked(me: int)
      requires Valid(me) && Owned(world, me)
      modifies `world, `turn
      ensures Valid(me) && Owned(world, me) && Grown(old(world), world) && world.deferred == []
      ensures old(turn) <= turn && (me !in old(world).waiting ==> me !in world.waiting)
    {
      while world.deferred != []
        invariant old(turn) <= turn && Valid(me) && Owned(world, me) && Grown(old(world), world)
        invariant me !in old(world).waiting ==> me !in world.waiting
        decreases |schedule| - turn, |world.deferred|
      {
        var conn := world.deferred[0];
        Act(me, Pop(me));
        var ok := CloseLocked(me, conn); // a failed close is logged
      }
    }

    /** The entry of exclusive(). */
    method EnterExclusive(me: int) returns (entry: Entry)
      requires Valid(me) && me !in world.waiting
      modifies `world, `turn
      ensures Valid(me) && me !in world.waiting && Grown(old(world), world) && old(turn) <= turn
      ensures entry.Taken? ==> !old(Owned(world, me)) && Owned(world, me) && world.deferred == []
      ensures entry.Nested? <==> old(Owned(world, me))
      ensures entry.Nested? ==> Owned(world, me)
      ensures entry.Refused? || entry.Blocked? ==> !Owned(world, me)
      ensures entry.Refused? <==> !old(Owned(world, me)) && me in Turned(old(world), schedule, old(turn)).readers
      ensures entry.Refused? || entry.Nested? ==> world == Turned(old(world), schedule, old(turn))
      ensures entry.Blocked? ==> turn == |schedule| && (world.writer || world.readers != map[])
    {
      var closes := Yield(me);
      if Owned(world, me) { return Nested; }
      if me in world.readers { return Refused; }
      Act(me, Wait(me));
      var free := AwaitFree(me);
      if !free { return Blocked; }
      Act(me, Grant(me));
      DrainLocked(me);
      entry := Taken;
    }

    method AwaitFree(me: int) returns (free: bool)
      requires Valid(me) && me in world.waiting && !Owned(world, me)
      modifies `world, `turn
      ensures Valid(me) && !Owned(world, me) && Grown(old(world), world) && old(turn) <= turn
      ensures if free then Free_(world) && me in world.waiting
              else turn == |schedule| && !Free_(world) && me !in world.waiting
    {
      var closes := Yield(me);
      while !Free_(world)
        invariant Valid(me) && me in world.waiting && !Owned(world, me) && Grown(old(world), world) && old(turn) <= turn
        decreases |schedule| - turn
      {
        if turn == |schedule| {
          Act(me, GiveUp(me));
          return false;
        }
        closes := Yield(me);
      }
      free := true;
    }

    method LeaveExclusive(me: int, entry: Entry)
      requires Valid(me) && me !in world.waiting && Owned(world, me) && (entry.Taken? || entry.Nested?)
      modifies `world, `turn
      ensures Valid(me) && me !in world.waiting && Grown(old(world), world)
      ensures entry.Taken? <==> !Owned(world, me)
      ensures if entry.Taken? then world.deferred == [] else world == old(world)
    {
      if entry.Taken? {
        DrainLocked(me);
        Act(me, Free(me));
      }
    }

    /** _open_writer: a new counted connection, or none when this thread reads
        the store. */
    method OpenWriter(me: int) returns (conn: Option<int>)
      requires Valid(me) && me !in world.waiting
      modifies `world, `turn
      ensures Valid(me) && me !in world.waiting && Grown(old(world), world)
      ensures Owned(world, me) <==> old(Owned(world, me))
      ensures conn.Some? ==> conn.value !in old(world).conns && conn.value in world.conns
      ensures conn.None? ==>
                !old(Owned(world, me))
                && (me in Turned(old(world), schedule, old(turn)).readers || (turn == |schedule| && !Free_(world)))
    {
      var entry := EnterExclusive(me);
      if entry.Refused? || entry.Blocked? { return None; }
      conn := Some(world.next);
      Act(me, Open(me));
      LeaveExclusive(me, entry);
    }

    /** close(): a close that raises leaves the connection open and counted. */
    method CloseWriter(me: int, conn: int) returns (ok: bool)
      requires Valid(me) && me !in world.waiting
      modifies `world, `turn
      ensures Valid(me) && me !in world.waiting && Grown(old(world), world)
      ensures Owned(world, me) <==> old(Owned(world, me))
      ensures ok && conn in old(world).conns ==> !world.conns[conn]
      ensures !ok ==>
                || (!old(Owned(world, me)) && me in Turned(old(world), schedule, old(turn)).readers)
                || (turn == |schedule| && !Free_(world)) || CloseFails(schedule, old(turn))
    {
      var entry := EnterExclusive(me);
      if entry.Refused? || entry.Blocked? { return false; }
      ok := CloseLocked(me, conn);
      LeaveExclusive(me, entry);
    }

    method ReleaseShared(me: int, holder: int) returns (raised: bool)
      requires Valid(me) && !Owned(world, me)
      modifies `world, `turn
      ensures Valid(me) && !Owned(world, me) && Grown(old(world), world)
      ensures var released := Step(Turned(old(world), schedule, old(turn)), Release(me, holder));
              Drained(released, schedule, Next(schedule, old(turn)), me) == Round(world, turn, false, raised)
    {
      var closes := Yield(me);
      Act(me, Release(me, holder));
      raised := DrainDeferred(me);
    }

    /** connect_read_only's choice, under the shared side. */
    method OpenReader(me: int, files: Files, livePrimary: bool) returns (mode: ReadMode)
      requires Valid(me) && !Owned(world, me)
      modifies `world, `turn
      ensures Valid(me) && !Owned(world, me)
      ensures mode.Immutable? ==>
                && me in world.readers && world.openWriters == 0
                && files.present && files.wal && !files.hasWal && !files.hasShm && !livePrimary
      ensures mode.ReadOnly? ==>
                me in world.readers && files.present && (files.wal ==> files.hasWal && files.hasShm && files.usable)
      ensures mode.NotOpened? ==>
                || !files.present
                || (files.wal && !(files.hasWal && files.hasShm && files.usable)
                    && (files.hasWal || files.hasShm || livePrimary || exists w :: Reading(old(world), w, me) && w.openWriters > 0))
                || (exists w :: Others(old(world), w, me) && HeldBack(w, me) && turn == |schedule|)
    {
      var ok := AcquireShared(me);
      if !ok { return NotOpened; }
      if files.present {
        if !files.wal { return ReadOnly; }
        var none := !files.hasWal && !files.hasShm;
        if world.openWriters == 0 && none {
          if !livePrimary { return Immutable; }
        } else if files.hasWal && files.hasShm && files.usable {
          return ReadOnly;
        }
      }
      var raised := ReleaseShared(me, me); // refused
      mode := NotOpened;
    }

    /** close_from_gc: close now under the exclusive side, or hand over; it
        never waits. It raises when the close does, or the drain after it. */
    method CloseFromGc(me: int, conn: int) returns (r: Finalized)
      requires Valid(me)
      modifies `world, `turn
      ensures Valid(me) && Grown(old(world), world)
      ensures Owned(world, me) <==> old(Owned(world, me))
      ensures r.Closed? && conn in old(world).conns ==> !world.conns[conn]
      ensures r.Raised? ==> CloseFails(schedule, old(turn)) || DrainRaises(schedule, me)
      ensures r.HandedOver? ==> !old(Owned(world, me)) && world.deferred != [] && world.deferred[|world.deferred| - 1] == conn
      ensures r.HandedOver? ==> FoundBusy(old(world), me)
    {
      var ok := Yield(me);
      if Owned(world, me) {
        ok := CloseLocked(me, conn);
        return if ok then Closed else Raised;
      }
      ghost var before := world;
      var took, done, raised := CloseIfFree(me, conn);
      if took { return if done && !raised then Closed else Raised; }
      BusyLater(old(world), before, me);
      HandOver(me, conn);
      r := HandedOver;
    }

    method HandOver(me: int, conn: int)
      requires Valid(me)
      modifies `world, `turn
      ensures Valid(me) && Relied(old(world), world, me)
      ensures world.deferred != [] && world.deferred[|world.deferred| - 1] == conn
    {
      var ok := Yield(me);
      Act(me, Defer(me, conn));
    }

    /** Its part under the exclusive side, if that is free now. */
    method CloseIfFree(me: int, conn: int) returns (took: bool, ok: bool, raised: bool)
      requires Valid(me) && !Owned(world, me)
      modifies `world, `turn
      ensures Valid(me) && Grown(old(world), world) && !Owned(world, me)
      ensures took && ok && conn in old(world).conns ==> !world.conns[conn]
      ensures took && (!ok || raised) ==> CloseFails(schedule, old(turn)) || DrainRaises(schedule, me)
      ensures took <==> Owned(Step(Turned(old(world), schedule, old(turn)), TryTake(me, false)), me)
      ensures !took ==> world == Turned(old(world), schedule, old(turn)) && FoundBusy(old(world), me)
      ensures !took ==> Others(old(world), world, me)
    {
      ok := Yield(me);
      Act(me, TryTake(me, false));
      if !Owned(world, me) { return false, false, false; }
      took := true;
      ok, raised := CloseAndDrain(me, conn);
    }

    /** The close, the exclusive side given back, and only then the drain. */
    method CloseAndDrain(me: int, conn: int) returns (ok: bool, raised: bool)
      requires Valid(me) && Owned(world, me)
      modifies `world, `turn
      ensures Valid(me) && Grown(old(world), world) && !Owned(world, me)
      ensures ok && conn in old(world).conns ==> !world.conns[conn]
      ensures !ok ==> CloseFails(schedule, old(turn))
      ensures raised ==> DrainRaises(schedule, me)
      ensures ok == ClosesAt(schedule, old(turn))
      ensures var closed := Step(Turned(old(world), schedule, old(turn)), Close(me, conn, ok));
              var end := Round(world, turn, false, raised);
              end == if ok then Drained(Step(closed, Free(me)), schedule, Next(schedule, old(turn)), me)
                     else Round(Step(closed, Free(me)), Next(schedule, old(turn)), false, false)
    {
      ok := CloseLocked(me, conn);
      Act(me, Free(me));
      raised := false;
      if ok { raised := DrainDeferred(me); }
    }

    /** The round's part under the exclusive side. It raises when another
        holder drained the list between the look and the pop. */
    method PopAndClose(me: int) returns (going: bool, raised: bool)
      requires Valid(me) && Owned(world, me)
      modifies `world, `turn
      ensures Valid(me) && !Owned(world, me) && Grown(old(world), world)
      ensures HeldRound(old(world), schedule, old(turn), me) == Round(world, turn, going, raised)
    {
      var closes := Yield(me);
      if world.deferred == [] {
        Act(me, Free(me));
        return false, true;
      }
      var conn := world.deferred[0];
      Act(me, Pop(me));
      var ok := CloseLocked(me, conn);
      Act(me, Free(me));
      return true, false;
    }

    /** One round of _drain_deferred: a short exclusive section for the first
        deferred connection. */
    method DrainOne(me: int) returns (going: bool, raised: bool)
      requires Valid(me) && !Owned(world, me)
      modifies `world, `turn
      ensures Valid(me) && !Owned(world, me) && Grown(old(world), world)
      ensures OneRound(old(world), schedule, old(turn), me) == Round(world, turn, going, raised)
    {
      going, raised := false, false;
      var closes := Yield(me);
      if world.deferred == [] { return; }
      closes := Yield(me);
      Act(me, TryTake(me, true));
      if !Owned(world, me) { return; }
      going, raised := PopAndClose(me);
    }

    method DrainDeferred(me: int) returns (raised: bool)
      requires Valid(me) && !Owned(world, me)
      modifies `world, `turn
      ensures Valid(me) && !Owned(world, me) && Grown(old(world), world)
      ensures Drained(old(world), schedule, old(turn), me) == Round(world, turn, false, raised)
    {
      raised := false;
      var closes := Yield(me);
      if world.draining || world.deferred == [] { return; }
      Act(me, SetDraining(me, true));
      var going := true;
      ghost var start := Rounds(world, schedule, turn, me);
      while going
        invariant Valid(me) && !Owned(world, me) && Grown(old(world), world)
        invariant start == if going then Rounds(world, schedule, turn, me) else Round(world, turn, false, raised)
        decreases |schedule| - turn, |world.deferred|, going
      {
        RoundShrinks(world, schedule, turn, me);
        going, raised := DrainOne(me);
      }
      Act(me, SetDraining(me, false));
    }
  }

  // ------------------------------------------------------------ when the drain raises

  function HandedBy(a: Action): seq<int> { if a.Defer? then [a.conn] else [] }

  function PopsBy(w: World, a: Action): nat { if a.Pop? && Owned(w, a.t) && w.deferred != [] then 1 else 0 }

  /** The connections handed over in a run. */
  function Handed(acts: seq<Action>): seq<int>
    decreases |acts|
  {
    if acts == [] then [] else HandedBy(acts[0]) + Handed(acts[1..])
  }

  /** The pops of a run that take a connection off the list. */
  function Pops(w: World, acts: seq<Action>): nat
    decreases |acts|
  {
    if acts == [] then 0 else PopsBy(w, acts[0]) + Pops(Step(w, acts[0]), acts[1..])
  }

  lemma StepList(w: World, a: Action)
    ensures PopsBy(w, a) <= |w.deferred|
    ensures Step(w, a).deferred == w.deferred[PopsBy(w, a)..] + HandedBy(a)
  {}

  lemma DropLater(list: seq<int>, p: nat, h: seq<int>, next: seq<int>, rest: seq<int>, n: nat)
    requires p <= |list| && next == list[p..] + h && n <= |next| + |rest|
    ensures p + n <= |list| + |h + rest| && (next + rest)[n..] == (list + (h + rest))[p + n..]
  {
    assert next + rest == (list + (h + rest))[p..];
  }

  /** The list is first in, first out, and loses nothing but by pops. */
  lemma {:induction false} ListConserved(w: World, acts: seq<Action>)
    ensures Pops(w, acts) <= |w.deferred| + |Handed(acts)|
    ensures Run(w, acts).deferred == (w.deferred + Handed(acts))[Pops(w, acts)..]
    decreases |acts|
  {
    if acts == [] {
      assert w.deferred + [] == w.deferred;
    } else {
      var w1, rest := Step(w, acts[0]), Handed(acts[1..]);
      StepList(w, acts[0]);
      ListConserved(w1, acts[1..]);
      DropLater(w.deferred, PopsBy(w, acts[0]), HandedBy(acts[0]), w1.deferred, rest, Pops(w1, acts[1..]));
      assert Handed(acts) == HandedBy(acts[0]) + rest;
      assert Pops(w, acts) == PopsBy(w, acts[0]) + Pops(w1, acts[1..]);
    }
  }

  /** While I hold the exclusive side nobody else pops. */
  lemma {:induction false} OwnerAlonePops(w: World, acts: seq<Action>, me: int)
    requires Inv(w) && Owned(w, me) && NotBy(acts, me)
    ensures Pops(w, acts) == 0
    decreases |acts|
  {
    if acts != [] {
      StepKeepsInv(w, acts[0]);
      OthersStep(w, acts[0], me);
      OwnerAlonePops(Step(w, acts[0]), acts[1..], me);
    }
  }

  /** When a drain that saw a deferred connection finds the list empty at its
      pop, gap being what others do between its look and its take and held what
      they do before its pop: exactly when they popped all it saw and all they
      handed over since. */
  lemma FindsNothingExactly(seen: World, gap: seq<Action>, held: seq<Action>, me: int)
    requires Inv(seen) && NotBy(gap, me) && NotBy(held, me) && Owned(Step(Run(seen, gap), TryTake(me, true)), me)
    ensures Run(Step(Run(seen, gap), TryTake(me, true)), held).deferred == []
            <==> Pops(seen, gap) == |seen.deferred| + |Handed(gap)| + |Handed(held)|
  {
    RunKeepsInv(seen, gap);
    var taken := Step(Run(seen, gap), TryTake(me, true));
    StepKeepsInv(Run(seen, gap), TryTake(me, true));
    ListConserved(seen, gap);
    ListConserved(taken, held);
    OwnerAlonePops(taken, held, me);
  }

  /** A round raises exactly when it saw a deferred connection, took the
      exclusive side, and the others had popped all there was. */
  lemma RaisesExactly(w: World, schedule: seq<Turn>, turn: nat, me: int)
    requires Inv(w) && OthersOnly(schedule, me)
    ensures var t1 := Next(schedule, turn);
            var seen, gap, held := Turned(w, schedule, turn), ActsAt(schedule, t1), ActsAt(schedule, Next(schedule, t1));
            OneRound(w, schedule, turn, me).raised
            <==> seen.deferred != [] && Owned(Step(Run(seen, gap), TryTake(me, true)), me)
                 && Pops(seen, gap) == |seen.deferred| + |Handed(gap)| + |Handed(held)|
  {
    var t1 := Next(schedule, turn);
    var seen, gap, held := Turned(w, schedule, turn), ActsAt(schedule, t1), ActsAt(schedule, Next(schedule, t1));
    RunKeepsInv(w, ActsAt(schedule, turn));
    if seen.deferred != [] && Owned(Step(Run(seen, gap), TryTake(me, true)), me) {
      FindsNothingExactly(seen, gap, held, me);
    }
  }

  /** No thread holds the exclusive side at any time of the run. */
  ghost predicate NobodyHolds(w: World, acts: seq<Action>)
    decreases |acts|
  {
    !w.writer && (acts == [] || NobodyHolds(Step(w, acts[0]), acts[1..]))
  }

  lemma {:induction false} NobodyPops(w: World, acts: seq<Action>)
    requires NobodyHolds(w, acts)
    ensures Pops(w, acts) == 0
    decreases |acts|
  {
    if acts != [] { NobodyPops(Step(w, acts[0]), acts[1..]); }
  }

  /** So it cannot raise unless another thread had the exclusive side between
      its look and its take. */
  lemma RaisingNeedsAnotherHolder(w: World, schedule: seq<Turn>, turn: nat, me: int)
    requires Inv(w) && OthersOnly(schedule, me)
    requires NobodyHolds(Turned(w, schedule, turn), ActsAt(schedule, Next(schedule, turn)))
    ensures !OneRound(w, schedule, turn, me).raised
  {
    RaisesExactly(w, schedule, turn, me);
    NobodyPops(Turned(w, schedule, turn), ActsAt(schedule, Next(schedule, turn)));
  }

  ghost predicate PopFree(acts: seq<Action>) {
    forall i :: 0 <= i < |acts| ==> !acts[i].Pop?
  }

  lemma {:induction false} PopFreePops(w: World, acts: seq<Action>)
    requires PopFree(acts)
    ensures Pops(w, acts) == 0
    decreases |acts|
  {
    if acts != [] {
      assert !acts[0].Pop? && PopFree(acts[1..]);
      PopFreePops(Step(w, acts[0]), acts[1..]);
    }
  }

  lemma RoundKeeps(w: World, schedule: seq<Turn>, turn: nat, me: int)
    requires Inv(w) && OthersOnly(schedule, me)
    ensures OneRound(w, schedule, turn, me).going ==> Inv(OneRound(w, schedule, turn, me).world)
  {
    var seen, t1 := Turned(w, schedule, turn), Next(schedule, turn);
    RunKeepsInv(w, ActsAt(schedule, turn));
    RunKeepsInv(seen, ActsAt(schedule, t1));
    var free, t2 := Turned(seen, schedule, t1), Next(schedule, t1);
    StepKeepsInv(free, TryTake(me, true));
    var taken := Step(free, TryTake(me, true));
    RunKeepsInv(taken, ActsAt(schedule, t2));
    var popping, t3 := Turned(taken, schedule, t2), Next(schedule, t2);
    if OneRound(w, schedule, turn, me).going { ClosingKeeps(popping, schedule, t3, me, popping.deferred[0]); }
  }

  lemma ClosingKeeps(w: World, schedule: seq<Turn>, turn: nat, me: int, conn: int)
    requires Inv(w)
    ensures var closing := Turned(Step(w, Pop(me)), schedule, turn);
            Inv(Step(Step(closing, Close(me, conn, ClosesAt(schedule, turn))), Free(me)))
  {
    StepKeepsInv(w, Pop(me));
    RunKeepsInv(Step(w, Pop(me)), ActsAt(schedule, turn));
    var closing := Turned(Step(w, Pop(me)), schedule, turn);
    StepKeepsInv(closing, Close(me, conn, ClosesAt(schedule, turn)));
    StepKeepsInv(Step(closing, Close(me, conn, ClosesAt(schedule, turn))), Free(me));
  }

  /** A whole drain raises only if another thread drains too. */
  lemma {:induction false} RoundsNeverRaise(w: World, schedule: seq<Turn>, turn: nat, me: int)
    requires Inv(w) && OthersOnly(schedule, me) && forall i :: 0 <= i < |schedule| ==> PopFree(schedule[i].acts)
    ensures !Rounds(w, schedule, turn, me).raised
    decreases |schedule| - turn, |w.deferred|
  {
    RaisesExactly(w, schedule, turn, me);
    PopFreePops(Turned(w, schedule, turn), ActsAt(schedule, Next(schedule, turn)));
    RoundShrinks(w, schedule, turn, me);
    RoundKeeps(w, schedule, turn, me);
    var r := OneRound(w, schedule, turn, me);
    if r.going { RoundsNeverRaise(r.world, schedule, r.turn, me); }
  }

  lemma OnlyADrainMakesItRaise(w: World, schedule: seq<Turn>, turn: nat, me: int)
    requires Inv(w) && OthersOnly(schedule, me) && forall i :: 0 <= i < |schedule| ==> PopFree(schedule[i].acts)
    ensures !Drained(w, schedule, turn, me).raised
  {
    var seen := Turned(w, schedule, turn);
    RunKeepsInv(w, ActsAt(schedule, turn));
    StepKeepsInv(seen, SetDraining(me, true));
    RoundsNeverRaise(Step(seen, SetDraining(me, true)), schedule, Next(schedule, turn), me);
  }

  lemma {:induction false} RunSplit(w: World, a: seq<Action>, b: seq<Action>)
    ensures Run(w, a + b) == Run(Run(w, a), b)
    decreases |a|
  {
    if a == [] {
      assert a + b == b;
    } else {
      assert (a + b)[0] == a[0] && (a + b)[1..] == a[1..] + b;
      RunSplit(Step(w, a[0]), a[1..], b);
    }
  }

  /** With no other thread about and the lock free, a drain closes everything
      that was deferred. */
  lemma {:induction false} AloneDrainsAll(w: World, schedule: seq<Turn>, turn: nat, me: int)
    requires Inv(w) && turn >= |schedule| && Free_(w)
    ensures var r := Rounds(w, schedule, turn, me);
            !r.raised && r.world.deferred == [] && Free_(r.world) && Grown(w, r.world) && AllClosed(w.deferred, w, r.world)
    decreases |w.deferred|
  {
    if w.deferred != [] {
      var next := OneRound(w, schedule, turn, me).world;
      AloneRound(w, schedule, turn, me);
      AloneDrainsAll(next, schedule, turn, me);
      FirstAndRest(w.deferred, w, next, Rounds(w, schedule, turn, me).world);
    }
  }

  predicate IsClosed(w: World, conn: int) { conn in w.conns && !w.conns[conn] }

  /** Of these connections of w none is open in w'. */
  ghost predicate AllClosed(list: seq<int>, w: World, w': World) {
    forall i :: 0 <= i < |list| && list[i] in w.conns ==> IsClosed(w', list[i])
  }

  lemma FirstAndRest(list: seq<int>, w: World, next: World, w': World)
    requires list != [] && Grown(w, next) && Grown(next, w') && AllClosed(list[1..], next, w')
    requires list[0] in w.conns ==> IsClosed(next, list[0])
    ensures AllClosed(list, w, w')
  {
    forall i | 0 <= i < |list| && list[i] in w.conns ensures IsClosed(w', list[i]) {
      if i > 0 { assert list[1..][i - 1] == list[i]; } else { assert IsClosed(next, list[0]); }
    }
  }

  lemma AloneRound(w: World, schedule: seq<Turn>, turn: nat, me: int)
    requires Inv(w) && turn >= |schedule| && Free_(w) && w.deferred != []
    ensures var r := OneRound(w, schedule, turn, me);
            && r.going && !r.raised && r.turn == turn && r.world.deferred == w.deferred[1..]
            && Inv(r.world) && Free_(r.world) && Grown(w, r.world)
            && (w.deferred[0] in w.conns ==> IsClosed(r.world, w.deferred[0]))
  {
    var taken := Step(w, TryTake(me, true));
    var popped := Step(taken, Pop(me));
    var closed := Step(popped, Close(me, w.deferred[0], true));
    StepKeepsInv(w, TryTake(me, true));
    StepKeepsInv(taken, Pop(me));
    StepKeepsInv(popped, Close(me, w.deferred[0], true));
    StepKeepsInv(closed, Free(me));
    assert OneRound(w, schedule, turn, me) == Round(Step(closed, Free(me)), turn, true, false);
  }

  lemma RunCons(w: World, a: Action, acts: seq<Action>)
    ensures Run(w, [a] + acts) == Run(Step(w, a), acts)
  {
    assert ([a] + acts)[1..] == acts;
  }

  lemma RunFour(w: World, a: Action, b: Action, c: Action, d: Action)
    ensures Run(w, [a, b, c, d]) == Step(Step(Step(Step(w, a), b), c), d)
  {
    assert [a, b, c, d] == [a] + ([b] + ([c] + ([d] + [])));
    RunCons(w, a, [b] + ([c] + ([d] + [])));
    RunCons(Step(w, a), b, [c] + ([d] + []));
    RunCons(Step(Step(w, a), b), c, [d] + []);
    RunCons(Step(Step(Step(w, a), b), c), d, []);
  }

  const OPENED := World(map[1 := 1], false, 3, {}, 1, [], false, map[0 := true], 1)
  const SEEN := World(map[], false, 3, {2}, 1, [0], true, map[0 := true], 1)
  const GAP := [Grant(2), Pop(2), Close(2, 0, true), Free(2)]

  /** Thread 3 opens a writer and thread 1 reads; the GC hands the connection
      over, thread 1 releases and starts to drain, thread 2 waits to open. */
  lemma SeenReached() returns (acts0: seq<Action>)
    ensures Run(IDLE, acts0) == SEEN
  {
    var open := [TryTake(3, false), Open(3), Free(3), Acquire(1)];
    var hand := [Defer(5, 0), Release(1, 1), SetDraining(1, true), Wait(2)];
    acts0 := open + hand;
    RunSplit(IDLE, open, hand);
    RunFour(IDLE, TryTake(3, false), Open(3), Free(3), Acquire(1));
    HandedOver();
  }

  lemma HandedOver()
    ensures Run(OPENED, [Defer(5, 0), Release(1, 1), SetDraining(1, true), Wait(2)]) == SEEN
  {
    RunFour(OPENED, Defer(5, 0), Release(1, 1), SetDraining(1, true), Wait(2));
    assert map[1 := 1] - {1} == map[];
  }

  lemma GapEmpties()
    ensures Run(SEEN, GAP).deferred == [] && Free_(Run(SEEN, GAP))
  {
    RunFour(SEEN, Grant(2), Pop(2), Close(2, 0, true), Free(2));
  }

  /** It happens: thread 1 looks, thread 2's exclusive section drains the list
      and ends, and thread 1's exclusive side finds nothing to pop. */
  lemma DrainCanFindNothing() returns (acts0: seq<Action>, schedule: seq<Turn>)
    ensures OthersOnly(schedule, 1) && OneRound(Run(IDLE, acts0), schedule, 0, 1).raised
  {
    acts0 := SeenReached();
    schedule := [Turn([], true), Turn(GAP, true)];
    GapEmpties();
    assert Turned(SEEN, schedule, 0) == SEEN;
    assert Turned(SEEN, schedule, 1) == Run(SEEN, GAP);
  }

  const HANDED := World(map[1 := 1], false, 3, {2}, 1, [0], false, map[0 := true], 1)

  lemma HandedReached() returns (acts0: seq<Action>)
    ensures Run(IDLE, acts0) == HANDED
  {
    var open, hand := [TryTake(3, false), Open(3), Free(3), Acquire(1)], [Defer(5, 0), Wait(2)];
    acts0 := open + hand;
    RunSplit(IDLE, open, hand);
    RunFour(IDLE, TryTake(3, false), Open(3), Free(3), Acquire(1));
    assert hand == [Defer(5, 0)] + ([Wait(2)] + []);
    RunCons(OPENED, Defer(5, 0), [Wait(2)] + []);
    RunCons(Step(OPENED, Defer(5, 0)), Wait(2), []);
  }

  lemma ReleasedIsSeen()
    ensures Step(Step(HANDED, Release(1, 1)), SetDraining(1, true)) == SEEN
  {
    assert map[1 := 1] - {1} == map[];
  }

  /** Where a caller meets it: thread 1 releases its read, and the drain inside
      that release raises. */
  lemma ReleaseCanRaise() returns (acts0: seq<Action>, schedule: seq<Turn>)
    ensures OthersOnly(schedule, 1) && 1 in Run(IDLE, acts0).readers
    ensures var released := Step(Turned(Run(IDLE, acts0), schedule, 0), Release(1, 1));
            Drained(released, schedule, Next(schedule, 0), 1).raised
  {
    acts0 := HandedReached();
    var still := Turn([], true);
    schedule := [still, still, still, Turn(GAP, true)];
    ReleasedIsSeen();
    GapEmpties();
    var released := Step(HANDED, Release(1, 1));
    assert Turned(HANDED, schedule, 0) == HANDED && Turned(released, schedule, 1) == released;
    assert Turned(SEEN, schedule, 2) == SEEN && Turned(SEEN, schedule, 3) == Run(SEEN, GAP);
    assert OneRound(SEEN, schedule, 2, 1).raised;
  }
}
