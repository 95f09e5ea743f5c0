/** store_write on a local writer connection: programs of nested blocks, inner
    commits, caught rollbacks and exceptions, and what reaches the store. */
module StoreWrite {
  import opened Rows

  /** What a caller's code does on the connection. */
  datatype Op =
    | Write(row: int, fails: bool)
    | Commit
    | Rollback
    | With(body: seq<Op>)                                        // with conn:
    | Block(body: seq<Op>, beginFails: bool, commitFails: bool)  // with store_write(conn):
    | After(callback: int)                                       // after_store_write
    | Raise
    | Try(body: seq<Op>)                                         // an exception caught and dropped

  /** The connection, the thread's callback stack, and history: every write
      that succeeded, every callback asked for, every rollback() inside a
      block. */
  datatype State = State(store: seq<int>, tx: Option<seq<int>>, depth: nat, poisoned: bool,
                         tls: nat, stack: seq<seq<int>>, ran: seq<int>,
                         wrote: seq<int>, asked: seq<int>, rollbacks: nat)

  function Open(s: State): seq<int> { if s.tx.Some? then s.tx.value else [] }

  function CommitNow(s: State): State { s.(store := s.store + Open(s), tx := None) }

  function RollbackNow(s: State): State { s.(tx := None) }

  /** The outermost block's entry, up to its yield. */
  function Begin(s: State): State {
    CommitNow(s).(tx := Some([]), poisoned := false, depth := 1, tls := s.tls + 1, stack := s.stack + [[]])
  }

  /** Its exit: roll back on an exception or a poisoned transaction, else
      commit; then the stacks, and the callbacks of a commit. */
  function End(s: State, raised: bool, commitFails: bool): (State, bool)
    requires s.tls > 0 && s.stack != []
  {
    var left := s.(depth := 0, tls := s.tls - 1, stack := s.stack[..|s.stack| - 1]);
    if raised then (RollbackNow(left), true)
    else if s.poisoned then (RollbackNow(left).(poisoned := false), true)
    else if commitFails then (RollbackNow(left), true)
    else (CommitNow(left).(ran := s.ran + s.stack[|s.stack| - 1]), false)
  }

  /** One operation: the state after it and whether it raised. */
  function Exec(s: State, op: Op): (State, bool)
    decreases op
  {
    match op
    case Write(row, fails) =>
      if fails then (s, true) else (s.(tx := Some(Open(s) + [row]), wrote := s.wrote + [row]), false)
    case Commit => (if s.depth > 0 then s else CommitNow(s), false)
    case Rollback =>
      if s.depth > 0 then (s.(poisoned := true, rollbacks := s.rollbacks + 1), true) else (RollbackNow(s), false)
    case With(body) =>
      var (t, raised) := ExecAll(s, body);
      (if t.depth > 0 then t else if raised then RollbackNow(t) else CommitNow(t), raised)
    case After(callback) =>
      if s.stack == [] then (s, true)
      else
        var top := |s.stack| - 1;
        (s.(stack := s.stack[top := s.stack[top] + [callback]], asked := s.asked + [callback]), false)
    case Raise => (s, true)
    case Try(body) => (ExecAll(s, body).0, false)
    case Block(body, beginFails, commitFails) =>
      if s.depth > 0 then
        var (t, raised) := ExecAll(s.(depth := s.depth + 1), body);
        (t.(depth := if t.depth > 0 then t.depth - 1 else 0), raised)
      else if beginFails then (CommitNow(s), true)
      else
        var (t, raised) := ExecAll(Begin(s), body);
        if t.tls > 0 && t.stack != [] then End(t, raised, commitFails) else (t, raised) // always the first
  }

  /** Code stops at the first exception. */
  function ExecAll(s: State, ops: seq<Op>): (State, bool)
    decreases ops
  {
    if ops == [] then (s, false)
    else
      var (t, raised) := Exec(s, ops[0]);
      if raised then (t, true) else ExecAll(t, ops[1..])
  }

  // ------------------------------------------------------------ inside a block

  ghost predicate Inside(s: State) { s.depth > 0 && s.tx.Some? && s.stack != [] && s.tls > 0 }

  /** From inside a block to inside the same block: nothing committed and no
      callback run; the transaction, the history and the block's callbacks grew
      together; a rollback() leaves the transaction poisoned. */
  ghost predicate Kept(s: State, t: State) {
    && Inside(s) && Inside(t) && t.depth == s.depth && t.tls == s.tls && t.store == s.store && t.ran == s.ran
    && s.wrote <= t.wrote && t.tx.value == s.tx.value + t.wrote[|s.wrote|..]
    && |t.stack| == |s.stack| && t.stack[..|s.stack| - 1] == s.stack[..|s.stack| - 1]
    && s.asked <= t.asked && t.stack[|s.stack| - 1] == s.stack[|s.stack| - 1] + t.asked[|s.asked|..]
    && s.rollbacks <= t.rollbacks && (t.poisoned <==> s.poisoned || t.rollbacks > s.rollbacks)
  }

  lemma KeptChain(s: State, t: State, u: State)
    requires Inside(s) && Kept(s, t) && Kept(t, u)
    ensures Kept(s, u)
  {
    assert u.wrote[|s.wrote|..] == t.wrote[|s.wrote|..] + u.wrote[|t.wrote|..];
    assert u.asked[|s.asked|..] == t.asked[|s.asked|..] + u.asked[|t.asked|..];
  }

  lemma KeptSame(s: State)
    requires Inside(s)
    ensures Kept(s, s)
  {
    assert s.wrote[|s.wrote|..] == [] && s.asked[|s.asked|..] == [];
  }

  lemma {:induction false} InsideOne(s: State, op: Op)
    requires Inside(s)
    ensures Kept(s, Exec(s, op).0)
    decreases op
  {
    KeptSame(s);
    match op
    case Write(row, fails) =>
      if !fails { assert (s.wrote + [row])[|s.wrote|..] == [row]; }
    case Commit =>
    case Rollback =>
    case With(body) => InsideAll(s, body);
    case After(callback) =>
      assert (s.asked + [callback])[|s.asked|..] == [callback];
    case Raise =>
    case Try(body) => InsideAll(s, body);
    case Block(body, _, _) => InsideAll(s.(depth := s.depth + 1), body);
  }

  lemma {:induction false} InsideAll(s: State, ops: seq<Op>)
    requires Inside(s)
    ensures Kept(s, ExecAll(s, ops).0)
    decreases ops
  {
    KeptSame(s);
    if ops != [] {
      InsideOne(s, ops[0]);
      var (t, raised) := Exec(s, ops[0]);
      if !raised {
        InsideAll(t, ops[1..]);
        KeptChain(s, t, ExecAll(t, ops[1..]).0);
      }
    }
  }

  // ------------------------------------------------------------ the outermost block

  /** Between blocks the connection is idle. */
  ghost predicate Outside(s: State) { s.depth == 0 }

  /** The block commits exactly when it began, no exception left it, no
      rollback() happened anywhere inside it (caught or not), and the commit
      itself succeeded. */
  predicate Commits(s: State, op: Op)
    requires op.Block?
  {
    var (t, raised) := ExecAll(Begin(s), op.body);
    !op.beginFails && !raised && t.rollbacks == s.rollbacks && !op.commitFails
  }

  /** All or none: the store ends with what was there, what the caller had
      pending before the block, and either every write made inside the block,
      in order, or none of them. Its callbacks run exactly when it commits,
      and the depth and both stacks are as they were. */
  lemma AllOrNone(s: State, op: Op)
    requires Outside(s) && op.Block?
    ensures var (t, raised) := Exec(s, op);
            && raised == !Commits(s, op)
            && s.wrote <= t.wrote && s.asked <= t.asked
            && t.store == s.store + Open(s) + (if raised then [] else t.wrote[|s.wrote|..])
            && t.ran == s.ran + (if raised then [] else t.asked[|s.asked|..])
            && t.tx == None && t.depth == 0 && t.tls == s.tls && t.stack == s.stack
  {
    if !op.beginFails {
      var b := Begin(s);
      InsideAll(b, op.body);
      var (t, raised) := ExecAll(b, op.body);
      assert t.stack[..|t.stack| - 1] == b.stack[..|b.stack| - 1] == s.stack;
      assert b.stack[|b.stack| - 1] == [];
      assert b.tx.value + t.wrote[|s.wrote|..] == t.wrote[|s.wrote|..];
      assert [] + t.asked[|s.asked|..] == t.asked[|s.asked|..];
    }
  }

  /** Whatever the code, and however it ends, depth and stacks are restored. */
  ghost predicate Restored(s: State, t: State) {
    t.depth == s.depth && t.tls == s.tls && |t.stack| == |s.stack|
  }

  lemma {:induction false} AlwaysRestored(s: State, op: Op)
    requires s.depth > 0 ==> Inside(s)
    ensures Restored(s, Exec(s, op).0) && (s.depth > 0 ==> Inside(Exec(s, op).0))
    decreases op
  {
    if s.depth > 0 {
      InsideOne(s, op);
    } else {
      match op
      case With(body) => AlwaysRestoredAll(s, body);
      case Try(body) => AlwaysRestoredAll(s, body);
      case Block(_, _, _) => AllOrNone(s, op);
      case _ =>
    }
  }

  lemma {:induction false} AlwaysRestoredAll(s: State, ops: seq<Op>)
    requires s.depth > 0 ==> Inside(s)
    ensures Restored(s, ExecAll(s, ops).0) && (s.depth > 0 ==> Inside(ExecAll(s, ops).0))
    decreases ops
  {
    if ops != [] {
      AlwaysRestored(s, ops[0]);
      var (t, raised) := Exec(s, ops[0]);
      if !raised { AlwaysRestoredAll(t, ops[1..]); }
    }
  }

  /** A rollback() inside a block cannot be caught away: the block raises and
      the store has none of its writes. */
  lemma CaughtRollbackStillAborts(s: State, before: seq<Op>, after: seq<Op>, commitFails: bool)
    requires Outside(s) && !ExecAll(Begin(s), before).1
    ensures var op := Block(before + [Try([Rollback])] + after, false, commitFails);
            Exec(s, op).1 && Exec(s, op).0.store == s.store + Open(s)
  {
    var b := Begin(s);
    var body := before + [Try([Rollback])] + after;
    var op := Block(body, false, commitFails);
    var t := ExecAll(b, before).0;
    InsideAll(b, before);
    assert body == before + ([Try([Rollback])] + after);
    ExecAllSplit(b, before, [Try([Rollback])] + after);
    var u := Exec(t, Try([Rollback])).0;
    assert [Rollback][1..] == [];
    assert u.rollbacks == t.rollbacks + 1;
    assert ([Try([Rollback])] + after)[1..] == after;
    InsideOne(t, Try([Rollback]));
    InsideAll(u, after);
    AllOrNone(s, op);
  }

  lemma {:induction false} ExecAllSplit(s: State, a: seq<Op>, b: seq<Op>)
    ensures ExecAll(s, a + b) == if ExecAll(s, a).1 then ExecAll(s, a) else ExecAll(ExecAll(s, a).0, b)
    decreases |a|
  {
    if a == [] {
      assert a + b == b;
    } else {
      assert (a + b)[0] == a[0] && (a + b)[1..] == a[1..] + b;
      var (t, raised) := Exec(s, a[0]);
      if !raised { ExecAllSplit(t, a[1..], b); }
    }
  }

  // ------------------------------------------------------------ outside a block

  function Writes(rows: seq<int>): seq<Op> {
    if rows == [] then [] else [Write(rows[0], false)] + Writes(rows[1..])
  }

  function Pending(s: State, rows: seq<int>): State {
    if rows == [] then s else s.(tx := Some(Open(s) + rows), wrote := s.wrote + rows)
  }

  lemma {:induction false} WritesPend(s: State, rows: seq<int>)
    ensures ExecAll(s, Writes(rows)) == (Pending(s, rows), false)
    decreases |rows|
  {
    if rows != [] {
      var t := Exec(s, Write(rows[0], false)).0;
      WritesPend(t, rows[1..]);
      assert Writes(rows)[1..] == Writes(rows[1..]);
      OneMore(s, t, rows);
    }
  }

  lemma OneMore(s: State, t: State, rows: seq<int>)
    requires rows != [] && t == s.(tx := Some(Open(s) + [rows[0]]), wrote := s.wrote + [rows[0]])
    ensures Pending(t, rows[1..]) == Pending(s, rows)
  {
    assert rows == [rows[0]] + rows[1..];
    assert Open(s) + [rows[0]] + rows[1..] == Open(s) + rows;
    assert s.wrote + [rows[0]] + rows[1..] == s.wrote + rows;
    if |rows| == 1 { assert rows == [rows[0]]; }
  }

  lemma WritesThen(s: State, rows: seq<int>, op: Op)
    requires Outside(s)
    ensures ExecAll(s, Writes(rows) + [op]) == Exec(ExecAll(s, Writes(rows)).0, op)
  {
    var t := ExecAll(s, Writes(rows)).0;
    WritesPend(s, rows);
    ExecAllSplit(s, Writes(rows), [op]);
    assert [op][1..] == [];
    assert ExecAll(Exec(t, op).0, []) == (Exec(t, op).0, false);
  }

  /** Outside a block: what was written and not committed is gone after a
      rollback(), and after a `with conn:` that an exception left ... */
  lemma PendingIsDropped(s: State, rows: seq<int>)
    requires Outside(s)
    ensures var t := ExecAll(s, Writes(rows) + [Rollback]).0; t.store == s.store && t.tx == None
    ensures var (t, raised) := Exec(s, With(Writes(rows) + [Raise])); raised && t.store == s.store && t.tx == None
  {
    WritesPend(s, rows);
    WritesThen(s, rows, Rollback);
    WritesThen(s, rows, Raise);
  }

  /** ... and is in the store, after what was pending before, once committed in
      either way. */
  lemma PendingIsKept(s: State, rows: seq<int>)
    requires Outside(s)
    ensures var t := ExecAll(s, Writes(rows) + [Commit]).0; t.store == s.store + (Open(s) + rows) && t.tx == None
    ensures var (t, raised) := Exec(s, With(Writes(rows)));
            !raised && t.store == s.store + (Open(s) + rows) && t.tx == None
  {
    assert Open(s) + [] == Open(s);
    WritesPend(s, rows);
    WritesThen(s, rows, Commit);
  }

  // ------------------------------------------------------------ the connection

  class WriterConnection {
    var state: State

    constructor (start: State)
      ensures state == start
    {
      state := start;
    }

    method Commit()
      modifies this
      ensures state == Exec(old(state), Op.Commit).0
      ensures old(state).depth > 0 ==> state == old(state)
    {
      if state.depth > 0 { return; } // deferred to store_write
      state := state.(store := state.store + Open(state), tx := None);
    }

    method Rollback() returns (raised: bool)
      modifies this
      ensures (state, raised) == Exec(old(state), Op.Rollback)
      ensures old(state).depth > 0 ==> raised && state.poisoned && state.tx == old(state).tx
    {
      if state.depth > 0 {
        state := state.(poisoned := true, rollbacks := state.rollbacks + 1);
        return true;
      }
      state := state.(tx := None);
      raised := false;
    }

    /** __exit__ of `with conn:`. */
    method Exit(raised: bool)
      modifies this
      ensures state == if old(state).depth > 0 then old(state)
                       else if raised then RollbackNow(old(state)) else CommitNow(old(state))
    {
      if state.depth > 0 { return; }
      if raised {
        state := state.(tx := None);
      } else {
        state := state.(store := state.store + Open(state), tx := None);
      }
    }

    /** The end of the outermost block. */
    method Finish(raised: bool, commitFails: bool) returns (out: bool)
      requires state.tls > 0 && state.stack != []
      modifies this
      ensures (state, out) == End(old(state), raised, commitFails)
    {
      var callbacks := state.stack[|state.stack| - 1];
      var committed := false;
      state := state.(depth := 0);
      if raised {
        state := state.(tx := None);
      } else if state.poisoned {
        state := state.(poisoned := false, tx := None);
      } else if commitFails {
        state := state.(tx := None);
      } else {
        state := state.(store := state.store + Open(state), tx := None);
        committed := true;
      }
      state := state.(stack := state.stack[..|state.stack| - 1], tls := state.tls - 1);
      if committed {
        state := state.(ran := state.ran + callbacks);
      }
      out := !committed;
    }

    /** A caller's code on this connection. */
    method Do(op: Op) returns (raised: bool)
      requires state.depth > 0 ==> Inside(state)
      modifies this
      ensures (state, raised) == Exec(old(state), op)
      ensures state.depth > 0 ==> Inside(state)
      decreases op, 1
    {
      AlwaysRestored(state, op);
      raised := false;
      match op {
        case Write(row, fails) =>
          if fails { return true; }
          state := state.(tx := Some(Open(state) + [row]), wrote := state.wrote + [row]);
        case Commit => Commit();
        case Rollback => raised := Rollback();
        case With(body) =>
          raised := DoAll(body);
          Exit(raised);
        case After(callback) =>
          if state.stack == [] { return true; }
          var top := |state.stack| - 1;
          state := state.(stack := state.stack[top := state.stack[top] + [callback]],
                          asked := state.asked + [callback]);
        case Raise => raised := true;
        case Try(body) => var dropped := DoAll(body);
        case Block(_, _, _) => raised := DoBlock(op);
      }
    }

    /** store_write. */
    method DoBlock(op: Op) returns (raised: bool)
      requires op.Block? && (state.depth > 0 ==> Inside(state))
      modifies this
      ensures (state, raised) == Exec(old(state), op)
      decreases op, 0
    {
      if state.depth > 0 {
        state := state.(depth := state.depth + 1);
        InsideAll(state, op.body);
        raised := DoAll(op.body);
        state := state.(depth := state.depth - 1);
        return;
      }
      state := state.(store := state.store + Open(state), tx := None);
      if op.beginFails { return true; }
      state := state.(tx := Some([]), poisoned := false, depth := 1, tls := state.tls + 1, stack := state.stack + [[]]);
      InsideAll(state, op.body);
      raised := DoAll(op.body);
      raised := Finish(raised, op.commitFails);
    }

    method DoAll(ops: seq<Op>) returns (raised: bool)
      requires state.depth > 0 ==> Inside(state)
      modifies this
      ensures (state, raised) == ExecAll(old(state), ops)
      ensures state.depth > 0 ==> Inside(state)
      decreases ops, 2
    {
      if ops == [] { return false; }
      raised := Do(ops[0]);
      if !raised { raised := DoAll(ops[1..]); }
    }
  }
}
