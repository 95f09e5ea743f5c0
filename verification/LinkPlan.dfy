/** The link plan of a copy: the stored edges among the selected rows as
    memory_link calls, and what those calls produce. */
module LinkPlan {
  import opened Identifiers

  datatype EdgeType =
    | References | Implements | Supersedes | Extends | Contradicts | RelatedTo
    | ReferencedBy | ImplementedBy | SupersededBy | ExtendedBy
    | Other(name: string)

  datatype Edge = Edge(src: int, dst: int, t: EdgeType)

  datatype Related = Related(id: int, edgeType: EdgeType, unit: bool) // unit: its score is 1 or none

  datatype Row = Row(id: int, related: seq<Related>)

  predicate Forward(t: EdgeType) {
    t in {References, Implements, Supersedes, Extends, Contradicts, RelatedTo}
  }

  function Reciprocal(t: EdgeType): EdgeType
    requires Forward(t)
  {
    match t
    case References => ReferencedBy
    case Implements => ImplementedBy
    case Supersedes => SupersededBy
    case Extends => ExtendedBy
    case _ => t
  }

  predicate IsReverse(t: EdgeType) {
    t in {ReferencedBy, ImplementedBy, SupersededBy, ExtendedBy}
  }

  function ReverseOf(t: EdgeType): EdgeType
    requires IsReverse(t)
  {
    match t
    case ReferencedBy => References
    case ImplementedBy => Implements
    case SupersededBy => Supersedes
    case _ => Extends
  }

  predicate Symmetric(t: EdgeType) { t == Contradicts || t == RelatedTo }

  function Selected(rows: seq<Row>): set<int> {
    set i | 0 <= i < |rows| :: rows[i].id
  }

  /** The stored edges with both ends selected. */
  function StoredEdges(rows: seq<Row>): set<Edge> {
    set i, j | 0 <= i < |rows| && 0 <= j < |rows[i].related| && rows[i].related[j].id in Selected(rows)
      :: Edge(rows[i].id, rows[i].related[j].id, rows[i].related[j].edgeType)
  }

  // ------------------------------------------------------------ the classification

  datatype Kind = Paired | Only | Skipped | Paid | Bad // Paid: the reciprocal of a stored forward edge

  function KindOf(stored: set<Edge>, e: Edge): Kind {
    if Forward(e.t) then
      if Symmetric(e.t) && e.src > e.dst && Edge(e.dst, e.src, e.t) in stored then Skipped
      else if Edge(e.dst, e.src, Reciprocal(e.t)) in stored then Paired
      else Only
    else if IsReverse(e.t) then
      if Edge(e.dst, e.src, ReverseOf(e.t)) in stored then Paid else Bad
    else Bad
  }

  /** The plan's lists: each stored edge of a kind, once. */
  ghost predicate Lists(stored: set<Edge>, kind: Kind, list: seq<Edge>) {
    Distinct(list) && forall e :: e in list <==> e in stored && KindOf(stored, e) == kind
  }

  /** An edge out of the selection, or one inside it whose score is not one. */
  predicate Counts(rows: seq<Row>, r: Related, scored: bool) {
    if scored then r.id in Selected(rows) && !r.unit else r.id !in Selected(rows)
  }

  /** Where such edges are, up to the j-th of row i. */
  ghost function Places(rows: seq<Row>, i: nat, j: nat, scored: bool): set<(int, int)> {
    set k, m | 0 <= k < |rows| && 0 <= m < |rows[k].related| && IsPlace(rows, k, m, i, j, scored) :: (k, m)
  }

  predicate IsPlace(rows: seq<Row>, k: nat, m: nat, i: nat, j: nat, scored: bool)
    requires k < |rows| && m < |rows[k].related|
  {
    (k < i || (k == i && m < j)) && Counts(rows, rows[k].related[m], scored)
  }

  lemma NextPlace(rows: seq<Row>, i: nat, j: nat, scored: bool)
    requires i < |rows| && j < |rows[i].related|
    ensures |Places(rows, i, j + 1, scored)|
            == |Places(rows, i, j, scored)| + if Counts(rows, rows[i].related[j], scored) then 1 else 0
  {
    var was, now := Places(rows, i, j, scored), Places(rows, i, j + 1, scored);
    assert (i, j) !in was;
    var more := if Counts(rows, rows[i].related[j], scored) then {(i, j)} else {};
    forall p ensures p in now <==> p in was + more {
      if 0 <= p.0 < |rows| && 0 <= p.1 < |rows[p.0].related| {
        assert IsPlace(rows, p.0, p.1, i, j + 1, scored) <==> IsPlace(rows, p.0, p.1, i, j, scored) || p in more;
      }
    }
    assert now == was + more;
  }

  lemma NextRow(rows: seq<Row>, i: nat, scored: bool)
    requires i < |rows|
    ensures Places(rows, i + 1, 0, scored) == Places(rows, i, |rows[i].related|, scored)
  {}

  /** The loops over the rows and their related edges; every edge out of the
      selection, and every score to be made one, is counted. */
  method CollectEdges(rows: seq<Row>) returns (stored: set<Edge>, external: nat, scored: nat)
    ensures stored == StoredEdges(rows)
    ensures external == |Places(rows, |rows|, 0, false)| && scored == |Places(rows, |rows|, 0, true)|
  {
    stored, external, scored := {}, 0, 0;
    assert Places(rows, 0, 0, false) == {} && Places(rows, 0, 0, true) == {};
    var selected := Selected(rows);
    var i := 0;
    while i < |rows|
      invariant 0 <= i <= |rows|
      invariant external == |Places(rows, i, 0, false)| && scored == |Places(rows, i, 0, true)|
      invariant forall e :: e in stored <==>
                  exists k, j :: 0 <= k < i && 0 <= j < |rows[k].related| && rows[k].related[j].id in selected
                                 && e == Edge(rows[k].id, rows[k].related[j].id, rows[k].related[j].edgeType)
    {
      var j := 0;
      while j < |rows[i].related|
        invariant 0 <= j <= |rows[i].related|
        invariant external == |Places(rows, i, j, false)| && scored == |Places(rows, i, j, true)|
        invariant forall e :: e in stored <==>
                    || (exists k, m :: 0 <= k < i && 0 <= m < |rows[k].related| && rows[k].related[m].id in selected
                                       && e == Edge(rows[k].id, rows[k].related[m].id, rows[k].related[m].edgeType))
                    || exists m :: 0 <= m < j && rows[i].related[m].id in selected
                                   && e == Edge(rows[i].id, rows[i].related[m].id, rows[i].related[m].edgeType)
      {
        var r := rows[i].related[j];
        NextPlace(rows, i, j, false);
        NextPlace(rows, i, j, true);
        if r.id !in selected {
          external := external + 1;
        } else {
          stored := stored + {Edge(rows[i].id, r.id, r.edgeType)};
          if !r.unit { scored := scored + 1; }
        }
        j := j + 1;
      }
      NextRow(rows, i, false);
      NextRow(rows, i, true);
      i := i + 1;
    }
  }

  lemma DistinctMore(es: seq<Edge>, e: Edge)
    requires Distinct(es) && e !in es
    ensures Distinct(es + [e])
  {}

  /** The pass over the stored edges. */
  method Classify(stored: set<Edge>) returns (paired: seq<Edge>, only: seq<Edge>, bad: seq<Edge>)
    ensures Lists(stored, Paired, paired) && Lists(stored, Only, only) && Lists(stored, Bad, bad)
  {
    paired, only, bad := [], [], [];
    var rest := stored;
    while rest != {}
      invariant rest <= stored && Distinct(paired) && Distinct(only) && Distinct(bad)
      invariant forall e :: e in paired <==> e in stored - rest && KindOf(stored, e) == Paired
      invariant forall e :: e in only <==> e in stored - rest && KindOf(stored, e) == Only
      invariant forall e :: e in bad <==> e in stored - rest && KindOf(stored, e) == Bad
      decreases |rest|
    {
      var e :| e in rest;
      DistinctMore(paired, e);
      DistinctMore(only, e);
      DistinctMore(bad, e);
      if Forward(e.t) {
        if Symmetric(e.t) && e.src > e.dst && Edge(e.dst, e.src, e.t) in stored {
          // created once, from the lower id
        } else if Edge(e.dst, e.src, Reciprocal(e.t)) in stored {
          paired := paired + [e];
        } else {
          only := only + [e];
        }
      } else if IsReverse(e.t) {
        if Edge(e.dst, e.src, ReverseOf(e.t)) !in stored { bad := bad + [e]; }
      } else {
        bad := bad + [e];
      }
      rest := rest - {e};
    }
  }

  // ------------------------------------------------------------ what the calls produce

  function Back(e: Edge): Edge
    requires Forward(e.t)
  {
    Edge(e.dst, e.src, Reciprocal(e.t))
  }

  ghost predicate AllForward(es: seq<Edge>) { forall i :: 0 <= i < |es| ==> Forward(es[i].t) }

  /** memory_link, bidirectional: the edge and its reciprocal, for each call. */
  function PairedEdges(calls: seq<Edge>): (r: seq<Edge>)
    requires AllForward(calls)
  {
    if calls == [] then [] else [calls[0], Back(calls[0])] + PairedEdges(calls[1..])
  }

  function Produced(paired: seq<Edge>, only: seq<Edge>): seq<Edge>
    requires AllForward(paired)
  {
    PairedEdges(paired) + only
  }

  function Backs(calls: seq<Edge>): (r: seq<Edge>)
    requires AllForward(calls)
    ensures |r| == |calls| && forall i :: 0 <= i < |calls| ==> r[i] == Back(calls[i])
  {
    seq(|calls|, i requires 0 <= i < |calls| && Forward(calls[i].t) => Back(calls[i]))
  }

  /** How often an edge is produced. */
  function Times(es: seq<Edge>, e: Edge): nat {
    if es == [] then 0 else (if es[0] == e then 1 else 0) + Times(es[1..], e)
  }

  lemma {:induction false} TimesAppend(a: seq<Edge>, b: seq<Edge>, e: Edge)
    ensures Times(a + b, e) == Times(a, e) + Times(b, e)
  {
    if a == [] {
      assert a + b == b;
    } else {
      assert (a + b)[0] == a[0] && (a + b)[1..] == a[1..] + b;
      TimesAppend(a[1..], b, e);
    }
  }

  lemma {:induction false} TimesMember(es: seq<Edge>, e: Edge)
    ensures e in es <==> Times(es, e) > 0
  {
    if es != [] {
      TimesMember(es[1..], e);
      assert es == [es[0]] + es[1..];
    }
  }

  lemma {:induction false} PairedTimes(calls: seq<Edge>, e: Edge)
    requires AllForward(calls)
    ensures Times(PairedEdges(calls), e) == Times(calls, e) + Times(Backs(calls), e)
  {
    if calls != [] {
      var rest, two := calls[1..], [calls[0], Back(calls[0])];
      PairedTimes(rest, e);
      TimesAppend(two, PairedEdges(rest), e);
      assert two[1..] == [Back(calls[0])] && two[1..][1..] == [];
      assert Backs(calls)[0] == Back(calls[0]) && Backs(calls)[1..] == Backs(rest);
    }
  }

  lemma {:induction false} DistinctTimes(es: seq<Edge>, e: Edge)
    requires Distinct(es)
    ensures Times(es, e) == if e in es then 1 else 0
  {
    if es != [] {
      DistinctTimes(es[1..], e);
      assert es == [es[0]] + es[1..];
      forall y | y in es[1..] ensures y != es[0] {
        var i :| 0 <= i < |es[1..]| && es[1..][i] == y;
        assert es[i + 1] == y;
      }
    }
  }

  lemma BacksDistinct(calls: seq<Edge>)
    requires AllForward(calls) && Distinct(calls)
    ensures Distinct(Backs(calls))
  {}

  lemma BacksMembers(calls: seq<Edge>, e: Edge)
    requires AllForward(calls)
    ensures e in Backs(calls) <==> (exists c :: c in calls && Back(c) == e)
  {
    if e in Backs(calls) {
      var i :| 0 <= i < |calls| && Backs(calls)[i] == e;
      assert calls[i] in calls && Back(calls[i]) == e;
    }
    if exists c :: c in calls && Back(c) == e {
      var c :| c in calls && Back(c) == e;
      var i :| 0 <= i < |calls| && calls[i] == c;
      assert Backs(calls)[i] == e;
    }
  }

  lemma ListsForward(stored: set<Edge>, list: seq<Edge>)
    requires Lists(stored, Paired, list)
    ensures AllForward(list)
  {
    forall i | 0 <= i < |list| ensures Forward(list[i].t) { assert list[i] in list; }
  }

  /** An edge memory_link can create. */
  predicate Representable(stored: set<Edge>, e: Edge) { e in stored && KindOf(stored, e) != Bad }

  predicate SymmetricLoop(e: Edge) { Symmetric(e.t) && e.src == e.dst }

  /** The call whose reciprocal an edge is. */
  lemma BackOf(stored: set<Edge>, paired: seq<Edge>, e: Edge)
    requires Lists(stored, Paired, paired) && AllForward(paired)
    ensures e in Backs(paired) <==>
              e in stored && (KindOf(stored, e) == Skipped || KindOf(stored, e) == Paid
                              || (KindOf(stored, e) == Paired && SymmetricLoop(e)))
  {
    BacksMembers(paired, e);
    if e in Backs(paired) {
      var c :| c in paired && Back(c) == e;
      assert e == Edge(c.dst, c.src, Reciprocal(c.t));
    }
    if e in stored {
      if Forward(e.t) && Symmetric(e.t) && Edge(e.dst, e.src, e.t) in stored && e.src >= e.dst {
        var c := Edge(e.dst, e.src, e.t);
        assert c in paired && Back(c) == e;
      }
      if IsReverse(e.t) && Edge(e.dst, e.src, ReverseOf(e.t)) in stored {
        var c := Edge(e.dst, e.src, ReverseOf(e.t));
        assert c in paired && Back(c) == e;
      }
    }
  }

  /** The plan is a cover without loss: the calls produce exactly the stored
      edges memory_link can create, each one once. The one exception is a
      symmetric edge from a row to itself, whose paired call writes it twice. */
  lemma LosslessCover(stored: set<Edge>, paired: seq<Edge>, only: seq<Edge>, e: Edge)
    requires Lists(stored, Paired, paired) && Lists(stored, Only, only) && AllForward(paired)
    ensures Times(Produced(paired, only), e)
            == if !Representable(stored, e) then 0 else if SymmetricLoop(e) then 2 else 1
  {
    TimesAppend(PairedEdges(paired), only, e);
    PairedTimes(paired, e);
    BacksDistinct(paired);
    DistinctTimes(paired, e);
    DistinctTimes(Backs(paired), e);
    DistinctTimes(only, e);
    BackOf(stored, paired, e);
    if e in stored && SymmetricLoop(e) { LoopsArePaired(stored, e); }
  }

  lemma LoopsArePaired(stored: set<Edge>, e: Edge)
    requires e in stored && SymmetricLoop(e)
    ensures KindOf(stored, e) == Paired
  {}

  ghost predicate HasSymmetricLoop(stored: set<Edge>) {
    exists e :: e in stored && SymmetricLoop(e)
  }

  ghost predicate NoneTwice(es: seq<Edge>) {
    forall e :: Times(es, e) <= 1
  }

  /** No edge is produced twice exactly when no selected row links to itself
      with a symmetric type. */
  lemma NothingTwice(stored: set<Edge>, paired: seq<Edge>, only: seq<Edge>)
    requires Lists(stored, Paired, paired) && Lists(stored, Only, only) && AllForward(paired)
    ensures NoneTwice(Produced(paired, only)) <==> !HasSymmetricLoop(stored)
  {
    var es := Produced(paired, only);
    if HasSymmetricLoop(stored) {
      var e :| e in stored && SymmetricLoop(e);
      LosslessCover(stored, paired, only, e);
      LoopsArePaired(stored, e);
      assert !(Times(es, e) <= 1);
    } else {
      forall e ensures Times(es, e) <= 1 {
        LosslessCover(stored, paired, only, e);
        assert !(e in stored && SymmetricLoop(e));
      }
    }
  }

  const SELF_LINK := Edge(1, 1, RelatedTo)
  const SELF_LINKED: seq<Row> := [Row(1, [Related(1, RelatedTo, true)])]

  /** One row related to itself: the plan is one paired call, which writes the
      one stored edge twice. */
  lemma SelfLinkWrittenTwice(paired: seq<Edge>, only: seq<Edge>)
    requires Lists(StoredEdges(SELF_LINKED), Paired, paired) && Lists(StoredEdges(SELF_LINKED), Only, only)
    requires AllForward(paired)
    ensures StoredEdges(SELF_LINKED) == {SELF_LINK} && SELF_LINK in paired
    ensures Times(Produced(paired, only), SELF_LINK) == 2
  {
    SelfLinkStored();
    LosslessCover(StoredEdges(SELF_LINKED), paired, only, SELF_LINK);
  }

  lemma SelfLinkStored()
    ensures StoredEdges(SELF_LINKED) == {SELF_LINK}
  {
    var rows := SELF_LINKED;
    assert rows[0].related[0].id in Selected(rows);
    assert Edge(rows[0].id, rows[0].related[0].id, rows[0].related[0].edgeType) in StoredEdges(rows);
  }

  /** analyse_links: the lists, and nothing lost between the calls, the edges
      reported as impossible and the stored edges. */
  method AnalyseLinks(rows: seq<Row>) returns (paired: seq<Edge>, only: seq<Edge>, bad: seq<Edge>)
    ensures Lists(StoredEdges(rows), Paired, paired) && Lists(StoredEdges(rows), Only, only)
    ensures Lists(StoredEdges(rows), Bad, bad) && AllForward(paired)
    ensures forall e :: e in Produced(paired, only) <==> e in StoredEdges(rows) && e !in bad
    ensures NoneTwice(Produced(paired, only)) <==> !HasSymmetricLoop(StoredEdges(rows))
  {
    var stored, external, scored := CollectEdges(rows);
    paired, only, bad := Classify(stored);
    ListsForward(stored, paired);
    forall e ensures e in Produced(paired, only) <==> e in stored && e !in bad {
      LosslessCover(stored, paired, only, e);
      TimesMember(Produced(paired, only), e);
    }
    NothingTwice(stored, paired, only);
  }
}
