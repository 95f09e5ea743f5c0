/** The texts of the replicator's statements: printing them, and the regular
    expressions of the checker as parsers that undo the printing. */
module StatementGrammar {
  import opened Rows
  import opened Identifiers

  // ------------------------------------------------------------ lists of items

  function Join(xs: seq<string>, sep: string): string {
    if |xs| == 0 then "" else if |xs| == 1 then xs[0] else xs[0] + (sep + Join(xs[1..], sep))
  }

  /** A kind of list element: its text, which values it allows, its parser. */
  datatype Item<!T> = Item(render: T -> string, ok: T -> bool, parse: string -> Option<(T, string)>)

  function Texts<T>(it: Item<T>, xs: seq<T>): (r: seq<string>)
    ensures |r| == |xs|
  {
    if xs == [] then [] else [it.render(xs[0])] + Texts(it, xs[1..])
  }

  function RenderList<T>(it: Item<T>, sep: string, xs: seq<T>): string {
    Join(Texts(it, xs), sep)
  }

  predicate AllOk<T>(it: Item<T>, xs: seq<T>) {
    |xs| > 0 && forall i :: 0 <= i < |xs| ==> it.ok(xs[i])
  }

  /** Text that cannot be taken for more of an identifier. */
  predicate Stops(rest: string) { rest == "" || !IdentChar(rest[0]) }

  /** The parser reads back exactly what was printed, and only that. */
  ghost predicate Lawful<T(!new)>(it: Item<T>) {
    && (forall x, rest :: it.ok(x) && Stops(rest) ==> it.parse(it.render(x) + rest) == Some((x, rest)))
    && forall s :: it.parse(s).Some? ==> it.ok(it.parse(s).value.0) && s == it.render(it.parse(s).value.0) + it.parse(s).value.1
  }

  /** item(?:sep item)*: greedy, and what follows a list never starts with its
      separator. */
  function ParseList<T>(it: Item<T>, sep: string, s: string): Option<(seq<T>, string)>
    requires |sep| > 0
    decreases |s|
  {
    var head := it.parse(s);
    if head.None? then None
    else
      var (x, rest) := head.value;
      if |rest| > |s| then None
      else if sep <= rest then
        var tail := ParseList(it, sep, rest[|sep|..]);
        if tail.None? then None else Some(([x] + tail.value.0, tail.value.1))
      else Some(([x], rest))
  }

  lemma RenderCons<T>(it: Item<T>, sep: string, xs: seq<T>)
    requires |xs| > 1
    ensures RenderList(it, sep, xs) == it.render(xs[0]) + (sep + RenderList(it, sep, xs[1..]))
  {
    assert Texts(it, xs)[1..] == Texts(it, xs[1..]);
  }

  lemma RenderOne<T>(it: Item<T>, sep: string, x: T)
    ensures RenderList(it, sep, [x]) == it.render(x)
  {
    assert Texts(it, [x]) == [it.render(x)];
  }

  lemma {:induction false} ParseListReads<T(!new)>(it: Item<T>, sep: string, xs: seq<T>, rest: string)
    requires Lawful(it) && |sep| > 0 && Stops(sep) && AllOk(it, xs)
    requires Stops(rest) && !(sep <= rest)
    ensures ParseList(it, sep, RenderList(it, sep, xs) + rest) == Some((xs, rest))
    decreases |xs|
  {
    var s := RenderList(it, sep, xs) + rest;
    if |xs| == 1 {
      RenderOne(it, sep, xs[0]);
      assert xs == [xs[0]];
      assert s == it.render(xs[0]) + rest;
    } else {
      var more := RenderList(it, sep, xs[1..]) + rest;
      RenderCons(it, sep, xs);
      assert s == it.render(xs[0]) + (sep + more);
      assert it.parse(s) == Some((xs[0], sep + more));
      assert (sep + more)[|sep|..] == more;
      ParseListReads(it, sep, xs[1..], rest);
      assert xs == [xs[0]] + xs[1..];
    }
  }

  lemma {:induction false} ParseListSound<T(!new)>(it: Item<T>, sep: string, s: string)
    requires Lawful(it) && |sep| > 0 && ParseList(it, sep, s).Some?
    ensures var (xs, rest) := ParseList(it, sep, s).value;
            AllOk(it, xs) && s == RenderList(it, sep, xs) + rest
    decreases |s|
  {
    var (x, rest) := it.parse(s).value;
    if sep <= rest {
      ParseListSound(it, sep, rest[|sep|..]);
      var (xs, end) := ParseList(it, sep, rest[|sep|..]).value;
      RenderCons(it, sep, [x] + xs);
      assert ([x] + xs)[1..] == xs;
      assert rest == sep + rest[|sep|..];
    } else {
      RenderOne(it, sep, x);
    }
  }

  // ------------------------------------------------------------ the items

  function IdentLen(s: string): (n: nat)
    ensures n <= |s| && (forall i :: 0 <= i < n ==> IdentChar(s[i])) && (n < |s| ==> !IdentChar(s[n]))
  {
    if s == "" || !IdentChar(s[0]) then 0 else 1 + IdentLen(s[1..])
  }

  function TakeIdent(s: string): Option<(string, string)> {
    var n := IdentLen(s);
    if n == 0 || !IdentStart(s[0]) then None else Some((s[..n], s[n..]))
  }

  /** The rest after a literal. */
  function Eat(s: string, lit: string): Option<string> {
    if lit <= s then Some(s[|lit|..]) else None
  }

  function TakeMark(s: string): Option<(string, string)> {
    var r := Eat(s, "?");
    if r.None? then None else Some(("?", r.value))
  }

  function TakeAssign(s: string): Option<((string, string), string)> {
    var a := TakeIdent(s);
    if a.None? then None
    else
      var r := Eat(a.value.1, " = excluded.");
      if r.None? then None
      else
        var b := TakeIdent(r.value);
        if b.None? then None else Some(((a.value.0, b.value.0), b.value.1))
  }

  function TakeMatch(s: string): Option<(string, string)> {
    var a := TakeIdent(s);
    if a.None? then None
    else
      var r := Eat(a.value.1, " = ?");
      if r.None? then None else Some((a.value.0, r.value))
  }

  const IDENT: Item<string> := Item((x: string) => x, (x: string) => IsIdent(x), (s: string) => TakeIdent(s))
  const MARK: Item<string> := Item((x: string) => x, (x: string) => x == "?", (s: string) => TakeMark(s))
  const ASSIGN: Item<(string, string)> :=
    Item((x: (string, string)) => x.0 + (" = excluded." + x.1), (x: (string, string)) => IsIdent(x.0) && IsIdent(x.1),
         (s: string) => TakeAssign(s))
  const MATCH: Item<string> := Item((x: string) => x + " = ?", (x: string) => IsIdent(x), (s: string) => TakeMatch(s))

  lemma EatReads(lit: string, rest: string)
    ensures Eat(lit + rest, lit) == Some(rest)
  {
    assert (lit + rest)[|lit|..] == rest;
  }

  lemma EatSound(s: string, lit: string)
    requires Eat(s, lit).Some?
    ensures s == lit + Eat(s, lit).value
  {}

  lemma TakeIdentReads(id: string, rest: string)
    requires IsIdent(id) && Stops(rest)
    ensures TakeIdent(id + rest) == Some((id, rest))
  {
    var s, n := id + rest, IdentLen(id + rest);
    assert s[0] == id[0];
    assert forall i :: 0 <= i < |id| ==> s[i] == id[i];
    assert n >= |id|;
    assert |rest| > 0 ==> s[|id|] == rest[0];
    assert s[..|id|] == id && s[|id|..] == rest;
  }

  lemma TakeIdentSound(s: string)
    requires TakeIdent(s).Some?
    ensures IsIdent(TakeIdent(s).value.0) && s == TakeIdent(s).value.0 + TakeIdent(s).value.1
  {}

  lemma IdentLawful()
    ensures Lawful(IDENT)
  {
    forall x, rest | IsIdent(x) && Stops(rest) ensures IDENT.parse(IDENT.render(x) + rest) == Some((x, rest)) {
      TakeIdentReads(x, rest);
    }
  }

  lemma MarkLawful()
    ensures Lawful(MARK)
  {
    forall x, rest | x == "?" && Stops(rest) ensures MARK.parse(MARK.render(x) + rest) == Some((x, rest)) {
      EatReads("?", rest);
    }
  }

  lemma AssignReads(x: (string, string), rest: string)
    requires ASSIGN.ok(x) && Stops(rest)
    ensures ASSIGN.parse(ASSIGN.render(x) + rest) == Some((x, rest))
  {
    var lit := " = excluded.";
    assert x.0 + (lit + x.1) + rest == x.0 + (lit + (x.1 + rest));
    TakeIdentReads(x.0, lit + (x.1 + rest));
    EatReads(lit, x.1 + rest);
    TakeIdentReads(x.1, rest);
    assert (x.0, x.1) == x;
  }

  lemma AssignSound(s: string)
    requires ASSIGN.parse(s).Some?
    ensures ASSIGN.ok(ASSIGN.parse(s).value.0) && s == ASSIGN.render(ASSIGN.parse(s).value.0) + ASSIGN.parse(s).value.1
  {
    var lit := " = excluded.";
    var (a, r) := TakeIdent(s).value;
    EatSound(r, lit);
    var (b, end) := TakeIdent(Eat(r, lit).value).value;
    assert a + (lit + (b + end)) == a + (lit + b) + end;
  }

  lemma AssignLawful()
    ensures Lawful(ASSIGN)
  {
    forall x: (string, string), rest | ASSIGN.ok(x) && Stops(rest)
      ensures ASSIGN.parse(ASSIGN.render(x) + rest) == Some((x, rest))
    {
      AssignReads(x, rest);
    }
    forall s | ASSIGN.parse(s).Some?
      ensures ASSIGN.ok(ASSIGN.parse(s).value.0) && s == ASSIGN.render(ASSIGN.parse(s).value.0) + ASSIGN.parse(s).value.1
    {
      AssignSound(s);
    }
  }

  lemma MatchLawful()
    ensures Lawful(MATCH)
  {
    forall x, rest | MATCH.ok(x) && Stops(rest) ensures MATCH.parse(MATCH.render(x) + rest) == Some((x, rest)) {
      assert x + " = ?" + rest == x + (" = ?" + rest);
      TakeIdentReads(x, " = ?" + rest);
      EatReads(" = ?", rest);
    }
    forall s | MATCH.parse(s).Some?
      ensures MATCH.ok(MATCH.parse(s).value.0) && s == MATCH.render(MATCH.parse(s).value.0) + MATCH.parse(s).value.1
    {
      var (a, r) := TakeIdent(s).value;
      EatSound(r, " = ?");
      assert a + (" = ?" + Eat(r, " = ?").value) == a + " = ?" + Eat(r, " = ?").value;
    }
  }

  // ------------------------------------------------------------ the lists

  function Idents(s: string): Option<(seq<string>, string)> { ParseList(IDENT, ", ", s) }

  function Marks(s: string): Option<(seq<string>, string)> { ParseList(MARK, ", ", s) }

  function Assigns(s: string): Option<(seq<(string, string)>, string)> { ParseList(ASSIGN, ", ", s) }

  function Matches(s: string): Option<(seq<string>, string)> { ParseList(MATCH, " AND ", s) }

  lemma IdentsRead(xs: seq<string>, rest: string)
    requires AllOk(IDENT, xs) && rest != "" && rest[0] == ')'
    ensures Idents(RenderList(IDENT, ", ", xs) + rest) == Some((xs, rest))
  {
    IdentLawful();
    ParseListReads(IDENT, ", ", xs, rest);
  }

  lemma MarksRead(xs: seq<string>, rest: string)
    requires AllOk(MARK, xs) && rest != "" && rest[0] == ')'
    ensures Marks(RenderList(MARK, ", ", xs) + rest) == Some((xs, rest))
  {
    MarkLawful();
    ParseListReads(MARK, ", ", xs, rest);
  }

  lemma AssignsRead(xs: seq<(string, string)>)
    requires AllOk(ASSIGN, xs)
    ensures Assigns(RenderList(ASSIGN, ", ", xs)) == Some((xs, ""))
  {
    AssignLawful();
    ParseListReads(ASSIGN, ", ", xs, "");
    assert RenderList(ASSIGN, ", ", xs) + "" == RenderList(ASSIGN, ", ", xs);
  }

  lemma MatchesRead(xs: seq<string>)
    requires AllOk(MATCH, xs)
    ensures Matches(RenderList(MATCH, " AND ", xs)) == Some((xs, ""))
  {
    MatchLawful();
    ParseListReads(MATCH, " AND ", xs, "");
    assert RenderList(MATCH, " AND ", xs) + "" == RenderList(MATCH, " AND ", xs);
  }

  lemma IdentsSound(s: string)
    requires Idents(s).Some?
    ensures AllOk(IDENT, Idents(s).value.0) && s == RenderList(IDENT, ", ", Idents(s).value.0) + Idents(s).value.1
  {
    IdentLawful();
    ParseListSound(IDENT, ", ", s);
  }

  lemma MarksSound(s: string)
    requires Marks(s).Some?
    ensures AllOk(MARK, Marks(s).value.0) && s == RenderList(MARK, ", ", Marks(s).value.0) + Marks(s).value.1
  {
    MarkLawful();
    ParseListSound(MARK, ", ", s);
  }

  lemma AssignsSound(s: string)
    requires Assigns(s).Some? && Assigns(s).value.1 == ""
    ensures AllOk(ASSIGN, Assigns(s).value.0) && s == RenderList(ASSIGN, ", ", Assigns(s).value.0)
  {
    AssignLawful();
    ParseListSound(ASSIGN, ", ", s);
    assert RenderList(ASSIGN, ", ", Assigns(s).value.0) + "" == RenderList(ASSIGN, ", ", Assigns(s).value.0);
  }

  lemma MatchesSound(s: string)
    requires Matches(s).Some? && Matches(s).value.1 == ""
    ensures AllOk(MATCH, Matches(s).value.0) && s == RenderList(MATCH, " AND ", Matches(s).value.0)
  {
    MatchLawful();
    ParseListSound(MATCH, " AND ", s);
    assert RenderList(MATCH, " AND ", Matches(s).value.0) + "" == RenderList(MATCH, " AND ", Matches(s).value.0);
  }

  // ------------------------------------------------------------ the statements

  /** A literal, an identifier and what follows it. */
  function RenderNamed(lit: string, id: string, rest: string): string { lit + (id + rest) }

  function ParseNamed(lit: string, s: string): Option<(string, string)> {
    var a := Eat(s, lit);
    if a.None? then None else TakeIdent(a.value)
  }

  lemma ParseNamedReads(lit: string, id: string, rest: string)
    requires IsIdent(id) && Stops(rest)
    ensures ParseNamed(lit, RenderNamed(lit, id, rest)) == Some((id, rest))
  {
    EatReads(lit, id + rest);
    TakeIdentReads(id, rest);
  }

  lemma ParseNamedSound(lit: string, s: string)
    requires ParseNamed(lit, s).Some?
    ensures IsIdent(ParseNamed(lit, s).value.0)
    ensures s == RenderNamed(lit, ParseNamed(lit, s).value.0, ParseNamed(lit, s).value.1)
  {
    EatSound(s, lit);
    TakeIdentSound(Eat(s, lit).value);
  }

  /** (cols) VALUES (marks). */
  function RenderRow(cols: seq<string>, marks: seq<string>, rest: string): string {
    " (" + (RenderList(IDENT, ", ", cols) + (") VALUES (" + (RenderList(MARK, ", ", marks) + (")" + rest))))
  }

  function ParseRow(s: string): Option<(seq<string>, seq<string>, string)> {
    var a := Eat(s, " (");
    if a.None? then None
    else
      var cols := Idents(a.value);
      if cols.None? then None
      else
        var values := ParseValues(cols.value.1);
        if values.None? then None else Some((cols.value.0, values.value.0, values.value.1))
  }

  function RenderValues(marks: seq<string>, rest: string): string {
    ") VALUES (" + (RenderList(MARK, ", ", marks) + (")" + rest))
  }

  function ParseValues(s: string): Option<(seq<string>, string)> {
    var a := Eat(s, ") VALUES (");
    if a.None? then None
    else
      var marks := Marks(a.value);
      if marks.None? then None
      else
        var b := Eat(marks.value.1, ")");
        if b.None? then None else Some((marks.value.0, b.value))
  }

  lemma ParseValuesReads(marks: seq<string>, rest: string)
    requires AllOk(MARK, marks)
    ensures ParseValues(RenderValues(marks, rest)) == Some((marks, rest))
  {
    var end := ")" + rest;
    EatReads(") VALUES (", RenderList(MARK, ", ", marks) + end);
    MarksRead(marks, end);
    EatReads(")", rest);
  }

  lemma ParseValuesSound(s: string)
    requires ParseValues(s).Some?
    ensures AllOk(MARK, ParseValues(s).value.0) && s == RenderValues(ParseValues(s).value.0, ParseValues(s).value.1)
  {
    EatSound(s, ") VALUES (");
    var a := Eat(s, ") VALUES (").value;
    MarksSound(a);
    EatSound(Marks(a).value.1, ")");
  }

  lemma ParseRowReads(cols: seq<string>, marks: seq<string>, rest: string)
    requires AllOk(IDENT, cols) && AllOk(MARK, marks)
    ensures ParseRow(RenderRow(cols, marks, rest)) == Some((cols, marks, rest))
  {
    var values := RenderValues(marks, rest);
    EatReads(" (", RenderList(IDENT, ", ", cols) + values);
    IdentsRead(cols, values);
    ParseValuesReads(marks, rest);
  }

  lemma ParseRowSound(s: string)
    requires ParseRow(s).Some?
    ensures var (cols, marks, rest) := ParseRow(s).value;
            AllOk(IDENT, cols) && AllOk(MARK, marks) && s == RenderRow(cols, marks, rest)
  {
    EatSound(s, " (");
    var a := Eat(s, " (").value;
    IdentsSound(a);
    ParseValuesSound(Idents(a).value.1);
  }

  /** INSERT INTO t (cols) VALUES (marks). */
  datatype Into = Into(t: string, cols: seq<string>, marks: seq<string>)

  predicate IntoOk(i: Into) { IsIdent(i.t) && AllOk(IDENT, i.cols) && AllOk(MARK, i.marks) }

  function RenderInto(i: Into, rest: string): string {
    RenderNamed("INSERT INTO ", i.t, RenderRow(i.cols, i.marks, rest))
  }

  function ParseInto(s: string): Option<(Into, string)> {
    var t := ParseNamed("INSERT INTO ", s);
    if t.None? then None
    else
      var row := ParseRow(t.value.1);
      if row.None? then None else Some((Into(t.value.0, row.value.0, row.value.1), row.value.2))
  }

  lemma ParseIntoReads(i: Into, rest: string)
    requires IntoOk(i)
    ensures ParseInto(RenderInto(i, rest)) == Some((i, rest))
  {
    ParseNamedReads("INSERT INTO ", i.t, RenderRow(i.cols, i.marks, rest));
    ParseRowReads(i.cols, i.marks, rest);
  }

  lemma ParseIntoSound(s: string)
    requires ParseInto(s).Some?
    ensures IntoOk(ParseInto(s).value.0) && s == RenderInto(ParseInto(s).value.0, ParseInto(s).value.1)
  {
    ParseNamedSound("INSERT INTO ", s);
    ParseRowSound(ParseNamed("INSERT INTO ", s).value.1);
  }

  /** The tail that makes an INSERT an UPSERT. */
  datatype Conflict = Conflict(pk: seq<string>, sets: seq<(string, string)>)

  predicate ConflictOk(c: Conflict) { AllOk(IDENT, c.pk) && AllOk(ASSIGN, c.sets) }

  function RenderUpdate(sets: seq<(string, string)>): string { ") DO UPDATE SET " + RenderList(ASSIGN, ", ", sets) }

  function ParseUpdate(s: string): Option<seq<(string, string)>> {
    var a := Eat(s, ") DO UPDATE SET ");
    if a.None? then None
    else
      var sets := Assigns(a.value);
      if sets.None? || sets.value.1 != "" then None else Some(sets.value.0)
  }

  function RenderConflict(c: Conflict): string {
    " ON CONFLICT(" + (RenderList(IDENT, ", ", c.pk) + RenderUpdate(c.sets))
  }

  function ParseConflict(s: string): Option<Conflict> {
    var a := Eat(s, " ON CONFLICT(");
    if a.None? then None
    else
      var pk := Idents(a.value);
      if pk.None? then None
      else
        var sets := ParseUpdate(pk.value.1);
        if sets.None? then None else Some(Conflict(pk.value.0, sets.value))
  }

  lemma ParseUpdateExact(s: string, sets: seq<(string, string)>)
    ensures ParseUpdate(s) == Some(sets) <==> AllOk(ASSIGN, sets) && s == RenderUpdate(sets)
  {
    if AllOk(ASSIGN, sets) && s == RenderUpdate(sets) {
      EatReads(") DO UPDATE SET ", RenderList(ASSIGN, ", ", sets));
      AssignsRead(sets);
    }
    if ParseUpdate(s) == Some(sets) {
      EatSound(s, ") DO UPDATE SET ");
      AssignsSound(Eat(s, ") DO UPDATE SET ").value);
    }
  }

  lemma ParseConflictReads(c: Conflict)
    requires ConflictOk(c)
    ensures ParseConflict(RenderConflict(c)) == Some(c)
  {
    var update := RenderUpdate(c.sets);
    EatReads(" ON CONFLICT(", RenderList(IDENT, ", ", c.pk) + update);
    IdentsRead(c.pk, update);
    ParseUpdateExact(update, c.sets);
  }

  lemma ParseConflictSound(s: string)
    requires ParseConflict(s).Some?
    ensures ConflictOk(ParseConflict(s).value) && s == RenderConflict(ParseConflict(s).value)
  {
    EatSound(s, " ON CONFLICT(");
    var a := Eat(s, " ON CONFLICT(").value;
    IdentsSound(a);
    ParseUpdateExact(Idents(a).value.1, ParseUpdate(Idents(a).value.1).value);
  }

  /** head t WHERE c = ? AND ...: the DELETE and the read-back. */
  datatype Where = Where(t: string, cols: seq<string>)

  predicate WhereOk(w: Where) { IsIdent(w.t) && AllOk(MATCH, w.cols) }

  function RenderWhere(head: string, w: Where): string {
    RenderNamed(head, w.t, " WHERE " + RenderList(MATCH, " AND ", w.cols))
  }

  function ParseCondition(s: string): Option<seq<string>> {
    var a := Eat(s, " WHERE ");
    if a.None? then None
    else
      var cols := Matches(a.value);
      if cols.None? || cols.value.1 != "" then None else Some(cols.value.0)
  }

  function ParseWhere(head: string, s: string): Option<Where> {
    var t := ParseNamed(head, s);
    if t.None? then None
    else
      var cols := ParseCondition(t.value.1);
      if cols.None? then None else Some(Where(t.value.0, cols.value))
  }

  lemma ParseConditionExact(s: string, cols: seq<string>)
    ensures ParseCondition(s) == Some(cols) <==> AllOk(MATCH, cols) && s == " WHERE " + RenderList(MATCH, " AND ", cols)
  {
    if AllOk(MATCH, cols) && s == " WHERE " + RenderList(MATCH, " AND ", cols) {
      EatReads(" WHERE ", RenderList(MATCH, " AND ", cols));
      MatchesRead(cols);
    }
    if ParseCondition(s) == Some(cols) {
      EatSound(s, " WHERE ");
      MatchesSound(Eat(s, " WHERE ").value);
    }
  }

  /** Printing and parsing undo each other, for every text. */
  lemma ParseWhereExact(head: string, s: string, w: Where)
    ensures ParseWhere(head, s) == Some(w) <==> WhereOk(w) && s == RenderWhere(head, w)
  {
    if WhereOk(w) && s == RenderWhere(head, w) {
      var condition := " WHERE " + RenderList(MATCH, " AND ", w.cols);
      ParseNamedReads(head, w.t, condition);
      ParseConditionExact(condition, w.cols);
    }
    if ParseWhere(head, s) == Some(w) {
      ParseNamedSound(head, s);
      ParseConditionExact(ParseNamed(head, s).value.1, w.cols);
    }
  }

  function ParseInsert(s: string): Option<Into> {
    var i := ParseInto(s);
    if i.None? || i.value.1 != "" then None else Some(i.value.0)
  }

  lemma ParseInsertExact(s: string, i: Into)
    ensures ParseInsert(s) == Some(i) <==> IntoOk(i) && s == RenderInto(i, "")
  {
    if IntoOk(i) && s == RenderInto(i, "") { ParseIntoReads(i, ""); }
    if ParseInsert(s) == Some(i) { ParseIntoSound(s); }
  }

  function ParseUpsert(s: string): Option<(Into, Conflict)> {
    var i := ParseInto(s);
    if i.None? then None
    else
      var c := ParseConflict(i.value.1);
      if c.None? then None else Some((i.value.0, c.value))
  }

  lemma ParseUpsertExact(s: string, i: Into, c: Conflict)
    ensures ParseUpsert(s) == Some((i, c)) <==> IntoOk(i) && ConflictOk(c) && s == RenderInto(i, RenderConflict(c))
  {
    if IntoOk(i) && ConflictOk(c) && s == RenderInto(i, RenderConflict(c)) {
      ParseIntoReads(i, RenderConflict(c));
      ParseConflictReads(c);
    }
    if ParseUpsert(s) == Some((i, c)) {
      ParseIntoSound(s);
      ParseConflictSound(ParseInto(s).value.1);
    }
  }
}
