/** The intent journal's file: one record a line, and the replay that reads it
    back after any crash. */
module IntentRecords {
  import opened Rows

  type Byte = bv8

  const NEWLINE: Byte := 10

  datatype Request = Request(sql: string, params: string, target: string)

  datatype Record = Meta(nextId: int) | Intent(id: int, request: Request) | Resolved(id: int, outcome: string)

  predicate ValidRecord(r: Record) {
    match r
    case Meta(n) => n >= 1
    case Intent(id, _) => id >= 1
    case Resolved(id, _) => id >= 1
  }

  /** JSON as the journal uses it. */
  datatype Codec = Codec(enc: Record -> seq<Byte>, dec: seq<Byte> -> Option<Record>)

  /** Encoded records read back and hold no raw newline (section 7 of RFC 8259:
      control characters are escaped). */
  ghost predicate Framing(c: Codec) {
    forall r :: c.dec(c.enc(r)) == Some(r) && NEWLINE !in c.enc(r)
  }

  function Line(c: Codec, r: Record): seq<Byte> { c.enc(r) + [NEWLINE] }

  /** The complete lines of a list of records. */
  function Frame(c: Codec, rs: seq<Record>): seq<Byte> {
    if rs == [] then [] else Line(c, rs[0]) + Frame(c, rs[1..])
  }

  // ------------------------------------------------------------ what records mean

  /** The open set, in insertion order, and the next id. */
  datatype Mem = Mem(open: seq<Record>, next: int)

  const FRESH: Mem := Mem([], 1)

  function Find(open: seq<Record>, id: int): Option<Record> {
    if open == [] then None
    else if open[0].Intent? && open[0].id == id then Some(open[0])
    else Find(open[1..], id)
  }

  /** open[id] = r: a known id keeps its place. */
  function Put(open: seq<Record>, r: Record): seq<Record>
    requires r.Intent?
  {
    if open == [] then [r]
    else if open[0].Intent? && open[0].id == r.id then [r] + open[1..]
    else [open[0]] + Put(open[1..], r)
  }

  function Drop(open: seq<Record>, id: int): seq<Record> {
    if open == [] then []
    else if open[0].Intent? && open[0].id == id then Drop(open[1..], id)
    else [open[0]] + Drop(open[1..], id)
  }

  function Max(a: int, b: int): int { if a < b then b else a }

  function Apply(m: Mem, r: Record): Mem {
    match r
    case Meta(n) => Mem(m.open, Max(m.next, n))
    case Intent(id, _) => Mem(Put(m.open, r), Max(m.next, id + 1))
    case Resolved(id, _) => Mem(Drop(m.open, id), m.next)
  }

  function ApplyAll(m: Mem, rs: seq<Record>): Mem
    decreases |rs|
  {
    if rs == [] then m else ApplyAll(Apply(m, rs[0]), rs[1..])
  }

  lemma {:induction false} ApplyAllSplit(m: Mem, a: seq<Record>, b: seq<Record>)
    ensures ApplyAll(m, a + b) == ApplyAll(ApplyAll(m, a), b)
    decreases |a|
  {
    if a == [] {
      assert a + b == b;
    } else {
      assert (a + b)[0] == a[0] && (a + b)[1..] == a[1..] + b;
      ApplyAllSplit(Apply(m, a[0]), a[1..], b);
    }
  }

  lemma ApplyOneMore(m: Mem, a: seq<Record>, r: Record)
    ensures ApplyAll(m, a + [r]) == Apply(ApplyAll(m, a), r)
  {
    ApplyAllSplit(m, a, [r]);
    assert [r][1..] == [];
  }

  lemma {:induction false} FindPut(open: seq<Record>, r: Record, id: int)
    requires r.Intent?
    ensures Find(Put(open, r), id) == if id == r.id then Some(r) else Find(open, id)
  {
    if open != [] && !(open[0].Intent? && open[0].id == r.id) {
      FindPut(open[1..], r, id);
    }
  }

  lemma {:induction false} FindDrop(open: seq<Record>, gone: int, id: int)
    ensures Find(Drop(open, gone), id) == if id == gone then None else Find(open, id)
  {
    if open != [] { FindDrop(open[1..], gone, id); }
  }

  // ------------------------------------------------------------ compaction

  /** A dictionary of intents with ids below the next one. */
  ghost predicate OpenOk(m: Mem) {
    && m.next >= 1
    && (forall i :: 0 <= i < |m.open| ==> m.open[i].Intent? && 1 <= m.open[i].id < m.next)
    && forall i, j :: 0 <= i < j < |m.open| ==> m.open[i].id != m.open[j].id
  }

  function Compaction(m: Mem): seq<Record> { [Record.Meta(m.next)] + m.open }

  lemma {:induction false} PutNew(open: seq<Record>, r: Record)
    requires r.Intent? && forall i :: 0 <= i < |open| ==> open[i].Intent? ==> open[i].id != r.id
    ensures Put(open, r) == open + [r]
  {
    if open != [] {
      PutNew(open[1..], r);
      assert open == [open[0]] + open[1..];
    }
  }

  lemma {:induction false} ReplayOpen(m: Mem, n: nat)
    requires OpenOk(m) && n <= |m.open|
    ensures ApplyAll(Mem([], m.next), m.open[..n]) == Mem(m.open[..n], m.next)
  {
    if n > 0 {
      ReplayOpen(m, n - 1);
      assert m.open[..n] == m.open[..n - 1] + [m.open[n - 1]];
      ApplyOneMore(Mem([], m.next), m.open[..n - 1], m.open[n - 1]);
      PutNew(m.open[..n - 1], m.open[n - 1]);
    }
  }

  /** A compacted journal replays to exactly the memory it was written from:
      the open set in its order, and the next id though its intents are gone. */
  lemma CompactionReplays(m: Mem)
    requires OpenOk(m)
    ensures ApplyAll(FRESH, Compaction(m)) == m
    ensures forall i :: 0 <= i < |Compaction(m)| ==> ValidRecord(Compaction(m)[i])
  {
    assert Compaction(m)[1..] == m.open;
    ReplayOpen(m, |m.open|);
    assert m.open[..|m.open|] == m.open;
  }

  lemma {:induction false} PutKeeps(open: seq<Record>, r: Record, next: int)
    requires r.Intent? && OpenOk(Mem(open, next)) && 1 <= r.id < next
    ensures OpenOk(Mem(Put(open, r), next))
    ensures forall x :: x in Put(open, r) ==> x in open || x == r
  {
    if open != [] {
      assert OpenOk(Mem(open[1..], next));
      if open[0].id == r.id {
        assert forall i :: 0 < i < |open| ==> open[i].id != open[0].id;
      } else {
        PutKeeps(open[1..], r, next);
        var p := Put(open[1..], r);
        forall i | 0 <= i < |p| ensures p[i].id != open[0].id {
          assert p[i] in p;
          if p[i] in open[1..] { var j :| 0 <= j < |open[1..]| && open[1..][j] == p[i]; assert open[j + 1] == p[i]; }
        }
      }
    }
  }

  lemma {:induction false} DropKeeps(open: seq<Record>, id: int, next: int)
    requires OpenOk(Mem(open, next))
    ensures OpenOk(Mem(Drop(open, id), next))
    ensures forall x :: x in Drop(open, id) ==> x in open
  {
    if open != [] {
      assert OpenOk(Mem(open[1..], next));
      DropKeeps(open[1..], id, next);
      var p := Drop(open[1..], id);
      forall i | 0 <= i < |p| ensures p[i].id != open[0].id {
        assert p[i] in p && p[i] in open[1..];
        var j :| 0 <= j < |open[1..]| && open[1..][j] == p[i];
        assert open[j + 1] == p[i];
      }
    }
  }

  lemma ApplyKeepsOpenOk(m: Mem, r: Record)
    requires OpenOk(m) && ValidRecord(r)
    ensures OpenOk(Apply(m, r))
  {
    match r
    case Meta(n) =>
    case Intent(id, _) => {
      assert OpenOk(Mem(m.open, Max(m.next, id + 1)));
      PutKeeps(m.open, r, Max(m.next, id + 1));
    }
    case Resolved(id, _) => DropKeeps(m.open, id, m.next);
  }

  // ------------------------------------------------------------ reading bytes

  function FirstNewline(data: seq<Byte>): (i: nat)
    ensures i <= |data| && NEWLINE !in data[..i]
    ensures i < |data| ==> data[i] == NEWLINE
  {
    if data == [] || data[0] == NEWLINE then 0
    else
      var i := 1 + FirstNewline(data[1..]);
      assert data[..i] == [data[0]] + data[1..][..i - 1];
      i
  }

  /** rfind(newline) + 1: where the complete lines end. */
  function LastLine(data: seq<Byte>): (n: nat)
    ensures n <= |data| && (n > 0 ==> data[n - 1] == NEWLINE) && NEWLINE !in data[n..]
  {
    if data == [] then 0
    else if data[|data| - 1] == NEWLINE then |data|
    else
      var n := LastLine(data[..|data| - 1]);
      assert data[n..] == data[..|data| - 1][n..] + [data[|data| - 1]];
      n
  }

  /** The memory replay reaches; bad is the offset of a malformed line. */
  datatype Replayed = Replayed(mem: Mem, bad: Option<nat>)

  function ReplayFrom(c: Codec, data: seq<Byte>, offset: nat, m: Mem): Replayed
    decreases |data|
  {
    var i := FirstNewline(data);
    if i == |data| then Replayed(m, None) // a torn final line is dropped
    else
      var r := c.dec(data[..i]);
      if r.None? || !ValidRecord(r.value) then Replayed(m, Some(offset))
      else ReplayFrom(c, data[i + 1..], offset + i + 1, Apply(m, r.value))
  }

  function ReplayBytes(c: Codec, data: seq<Byte>): Replayed {
    ReplayFrom(c, data, 0, FRESH)
  }

  /** _replay's walk over the lines. */
  method Replay(c: Codec, data: seq<Byte>) returns (mem: Mem, bad: Option<nat>)
    ensures Replayed(mem, bad) == ReplayBytes(c, data)
  {
    mem, bad := FRESH, None;
    var offset := 0;
    assert data[0..] == data;
    while FirstNewline(data[offset..]) < |data| - offset
      invariant 0 <= offset <= |data|
      invariant ReplayFrom(c, data[offset..], offset, mem) == ReplayBytes(c, data)
      decreases |data| - offset
    {
      var i := FirstNewline(data[offset..]);
      var r := c.dec(data[offset..][..i]);
      if r.None? || !ValidRecord(r.value) {
        bad := Some(offset);
        return;
      }
      mem := Apply(mem, r.value);
      assert data[offset..][i + 1..] == data[offset + i + 1..];
      offset := offset + i + 1;
    }
  }

  lemma NoNewline(data: seq<Byte>, lo: nat, hi: nat)
    requires lo <= hi <= |data| && NEWLINE !in data[lo..hi]
    ensures forall k :: lo <= k < hi ==> data[k] != NEWLINE
  {
    forall k | lo <= k < hi ensures data[k] != NEWLINE { assert data[lo..hi][k - lo] == data[k]; }
  }

  lemma FirstNewlineIs(data: seq<Byte>, i: nat)
    requires i <= |data| && NEWLINE !in data[..i] && (i < |data| ==> data[i] == NEWLINE)
    ensures FirstNewline(data) == i
  {
    var n := FirstNewline(data);
    NoNewline(data, 0, i);
    NoNewline(data, 0, n);
  }

  lemma LastLineIs(data: seq<Byte>, n: nat)
    requires n <= |data| && (n > 0 ==> data[n - 1] == NEWLINE) && NEWLINE !in data[n..]
    ensures LastLine(data) == n
  {
    var l := LastLine(data);
    NoNewline(data, l, |data|);
    NoNewline(data, n, |data|);
  }

  /** Complete lines and a torn one replay to the complete records. */
  lemma {:induction false} FrameReplays(c: Codec, rs: seq<Record>, torn: seq<Byte>, offset: nat, m: Mem)
    requires Framing(c) && NEWLINE !in torn && forall i :: 0 <= i < |rs| ==> ValidRecord(rs[i])
    ensures ReplayFrom(c, Frame(c, rs) + torn, offset, m) == Replayed(ApplyAll(m, rs), None)
    decreases |rs|
  {
    var data := Frame(c, rs) + torn;
    if rs == [] {
      assert data == torn;
      assert torn[..|torn|] == torn;
      FirstNewlineIs(torn, |torn|);
    } else {
      var e := c.enc(rs[0]);
      assert data == e + [NEWLINE] + (Frame(c, rs[1..]) + torn);
      assert data[..|e|] == e && data[|e| + 1..] == Frame(c, rs[1..]) + torn;
      FirstNewlineIs(data, |e|);
      FrameReplays(c, rs[1..], torn, offset + |e| + 1, Apply(m, rs[0]));
    }
  }

  lemma {:induction false} FrameSplit(c: Codec, a: seq<Record>, b: seq<Record>)
    ensures Frame(c, a + b) == Frame(c, a) + Frame(c, b)
  {
    if a == [] {
      assert a + b == b;
    } else {
      assert (a + b)[0] == a[0] && (a + b)[1..] == a[1..] + b;
      FrameSplit(c, a[1..], b);
    }
  }

  lemma FrameOneMore(c: Codec, rs: seq<Record>, r: Record)
    ensures Frame(c, rs + [r]) == Frame(c, rs) + Line(c, r)
  {
    FrameSplit(c, rs, [r]);
    assert [r][1..] == [];
    assert Frame(c, [r]) == Line(c, r);
  }

  lemma FrameLast(c: Codec, rs: seq<Record>)
    requires rs != []
    ensures |Frame(c, rs)| > 0 && Frame(c, rs)[|Frame(c, rs)| - 1] == NEWLINE
  {
    var n := |rs| - 1;
    assert rs == rs[..n] + [rs[n]];
    FrameOneMore(c, rs[..n], rs[n]);
    var front, line := Frame(c, rs[..n]), Line(c, rs[n]);
    assert Frame(c, rs) == front + line;
    assert (front + line)[|front| + |line| - 1] == line[|line| - 1];
  }

  /** The complete lines end where the frame ends. */
  lemma FrameEnds(c: Codec, rs: seq<Record>, torn: seq<Byte>)
    requires NEWLINE !in torn
    ensures LastLine(Frame(c, rs) + torn) == |Frame(c, rs)|
  {
    var f := Frame(c, rs);
    var data := f + torn;
    if rs != [] { FrameLast(c, rs); }
    assert data[|f|..] == torn;
    assert |f| > 0 ==> data[|f| - 1] == f[|f| - 1];
    LastLineIs(data, |f|);
  }

  /** Any cut of complete lines and a torn one is complete lines and a torn
      one again, with every line that ends at or before the cut. */
  lemma {:induction false} CutFrame(c: Codec, rs: seq<Record>, torn: seq<Byte>, p: nat) returns (n: nat, rest: seq<Byte>)
    requires Framing(c) && NEWLINE !in torn && p <= |Frame(c, rs) + torn|
    ensures n <= |rs| && NEWLINE !in rest
    ensures (Frame(c, rs) + torn)[..p] == Frame(c, rs[..n]) + rest
    ensures forall k :: 0 <= k <= |rs| && |Frame(c, rs[..k])| <= p ==> k <= n
    decreases |rs|
  {
    var data := Frame(c, rs) + torn;
    if rs == [] {
      n, rest := 0, torn[..p];
      assert data == torn && rs[..0] == [];
    } else {
      var line := Line(c, rs[0]);
      var more := Frame(c, rs[1..]) + torn;
      assert data == line + more;
      if p < |line| {
        n, rest := 0, c.enc(rs[0])[..p];
        assert data[..p] == rest && rs[..0] == [];
        forall k | 0 < k <= |rs| ensures |Frame(c, rs[..k])| > p {
          assert rs[..k][0] == rs[0];
        }
      } else {
        n, rest := CutFrame(c, rs[1..], torn, p - |line|);
        CutTail(c, rs, n, p);
        n := n + 1;
        assert data[..p] == line + more[..p - |line|];
        assert rs[..n][0] == rs[0] && rs[..n][1..] == rs[1..][..n - 1];
        assert Frame(c, rs[..n]) + rest == line + (Frame(c, rs[1..][..n - 1]) + rest);
      }
    }
  }

  lemma CutTail(c: Codec, rs: seq<Record>, n: nat, p: nat)
    requires rs != [] && p >= |Line(c, rs[0])|
    requires forall k :: 0 <= k <= |rs| - 1 && |Frame(c, rs[1..][..k])| <= p - |Line(c, rs[0])| ==> k <= n
    ensures forall k :: 0 <= k <= |rs| && |Frame(c, rs[..k])| <= p ==> k <= n + 1
  {
    forall k | 0 <= k <= |rs| && |Frame(c, rs[..k])| <= p ensures k <= n + 1 {
      if k > 0 {
        assert rs[..k][0] == rs[0] && rs[..k][1..] == rs[1..][..k - 1];
      }
    }
  }

  /** Replay refuses a file exactly when some complete line is no valid record:
      later bytes are never discarded over it. */
  ghost predicate LinesValid(c: Codec, data: seq<Byte>)
    decreases |data|
  {
    var i := FirstNewline(data);
    i < |data| ==>
      && c.dec(data[..i]).Some? && ValidRecord(c.dec(data[..i]).value)
      && LinesValid(c, data[i + 1..])
  }

  lemma {:induction false} RefusesExactly(c: Codec, data: seq<Byte>, offset: nat, m: Mem)
    ensures ReplayFrom(c, data, offset, m).bad.None? <==> LinesValid(c, data)
    decreases |data|
  {
    var i := FirstNewline(data);
    if i < |data| {
      var r := c.dec(data[..i]);
      if r.Some? && ValidRecord(r.value) {
        RefusesExactly(c, data[i + 1..], offset + i + 1, Apply(m, r.value));
      }
    }
  }
}
