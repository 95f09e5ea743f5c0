/** The reader of a batch embedding response: which vector belongs to which
    input. */
module EmbeddingResponse {
  import opened Rows
  import opened VectorKinds

  /** A float as it arrives. */
  datatype Number = Finite(r: real) | NotFinite

  datatype Entry = Entry(index: Option<int>, embedding: Option<seq<Number>>)

  predicate GoodValues(values: Option<seq<Number>>) {
    values.Some? && |values.value| > 0 && forall i :: 0 <= i < |values.value| ==> values.value[i].Finite?
  }

  /** _vector_from_list. */
  function FromList(values: seq<Number>): (v: Vec)
    requires forall i :: 0 <= i < |values| ==> values[i].Finite?
  {
    if values == [] then map[] else FromList(values[..|values| - 1])[Decimal(|values| - 1) := values[|values| - 1].r]
  }

  lemma {:induction false} FromListKeys(values: seq<Number>)
    requires forall i :: 0 <= i < |values| ==> values[i].Finite?
    ensures FromList(values).Keys == DenseKeys(|values|)
  {
    if values != [] {
      FromListKeys(values[..|values| - 1]);
      NewDenseKey(|values| - 1);
    }
  }

  /** The vector of an entry; None where reading it raises. */
  function VectorOf(e: Entry): Option<Vec> {
    if GoodValues(e.embedding) then Some(FromList(e.embedding.value)) else None
  }

  function DimensionOf(e: Entry): nat
    requires e.embedding.Some?
  {
    |e.embedding.value|
  }

  /** Such a vector is dense, of its list's length, and holds the list's values
      in order. */
  lemma {:induction false} FromListExact(values: seq<Number>)
    requires forall i :: 0 <= i < |values| ==> values[i].Finite?
    ensures |values| > 0 ==> RepresentationOf(FromList(values)) == Dense(|values|)
    ensures forall i :: 0 <= i < |values| ==> Decimal(i) in FromList(values) && FromList(values)[Decimal(i)] == values[i].r
  {
    FromListKeys(values);
    DenseExact(FromList(values), |values|);
    if values != [] {
      var n := |values| - 1;
      FromListExact(values[..n]);
      forall i | 0 <= i < |values| ensures Decimal(i) in FromList(values) && FromList(values)[Decimal(i)] == values[i].r {
        if i < n {
          if Decimal(i) == Decimal(n) { DecimalInjective(i, n); }
          assert values[..n][i] == values[i];
        }
      }
    }
  }

  predicate Fits(e: Entry, n: nat, d: nat) {
    && e.index.Some? && 0 <= e.index.value < n
    && e.embedding.Some? && |e.embedding.value| == d && 1 <= d
    && forall i :: 0 <= i < d ==> e.embedding.value[i].Finite?
  }

  /** Every entry has an index of its own below n and d > 0 finite
      values. */
  ghost predicate Exact(data: seq<Entry>, n: nat, d: nat) {
    && (forall i :: 0 <= i < |data| ==> Fits(data[i], n, d))
    && forall i, j :: 0 <= i < j < |data| ==> data[i].index != data[j].index
  }

  function Below(n: nat): (r: set<int>)
    ensures forall i :: i in r <==> 0 <= i < n
    ensures |r| == n
  {
    if n == 0 then {} else Below(n - 1) + {n - 1}
  }

  /** n distinct indices below n are all of them. */
  lemma FullRange(keys: set<int>, n: nat)
    requires keys <= Below(n) && |keys| == n
    ensures keys == Below(n)
  {
    var rest := Below(n) - keys;
    assert Below(n) == keys + rest;
    assert |Below(n)| == |keys| + |rest|;
  }

  /** What the loop has filled: the vectors by index, and their dimension. */
  datatype Filled = Filled(byIndex: map<int, Vec>, dims: Option<nat>)

  function Admit(f: Filled, e: Entry, n: nat): Option<Filled> {
    if e.index.None? || e.index.value < 0 || e.index.value >= n || e.index.value in f.byIndex
       || VectorOf(e).None? || (f.dims.Some? && DimensionOf(e) != f.dims.value) then None
    else Some(Filled(f.byIndex[e.index.value := VectorOf(e).value], Some(DimensionOf(e))))
  }

  function Fill(items: seq<Entry>, n: nat, expected: Option<nat>): Option<Filled> {
    if items == [] then Some(Filled(map[], expected))
    else
      var f := Fill(items[..|items| - 1], n, expected);
      if f.None? then None else Admit(f.value, items[|items| - 1], n)
  }

  ghost predicate ByIndex(items: seq<Entry>, m: map<int, Vec>) {
    forall i :: 0 <= i < |items| ==>
      items[i].index.Some? && items[i].index.value in m && VectorOf(items[i]) == Some(m[items[i].index.value])
  }

  lemma ExactMore(items: seq<Entry>, n: nat, d: nat, e: Entry)
    requires Exact(items, n, d) && Fits(e, n, d)
    requires forall i :: 0 <= i < |items| ==> items[i].index != e.index
    ensures Exact(items + [e], n, d)
  {}

  lemma {:induction false} FillIndexed(items: seq<Entry>, n: nat, expected: Option<nat>)
    requires Fill(items, n, expected).Some?
    ensures ByIndex(items, Fill(items, n, expected).value.byIndex)
  {
    if items != [] {
      var front, e := items[..|items| - 1], items[|items| - 1];
      FillIndexed(front, n, expected);
      var m, m' := Fill(front, n, expected).value.byIndex, Fill(items, n, expected).value.byIndex;
      assert m' == m[e.index.value := VectorOf(e).value];
      forall i | 0 <= i < |items|
        ensures items[i].index.Some? && items[i].index.value in m' && VectorOf(items[i]) == Some(m'[items[i].index.value])
      {
        if i < |front| { assert front[i] == items[i]; }
      }
    }
  }

  lemma {:induction false} FillCounts(items: seq<Entry>, n: nat, expected: Option<nat>)
    requires Fill(items, n, expected).Some?
    ensures var m := Fill(items, n, expected).value.byIndex; |m| == |items| && m.Keys <= Below(n)
  {
    if items != [] {
      var front, e := items[..|items| - 1], items[|items| - 1];
      FillCounts(front, n, expected);
      NewKeyCounts(Fill(front, n, expected).value.byIndex, e.index.value, VectorOf(e).value);
    }
  }

  /** The loop's keys are indices it has met. */
  lemma {:induction false} FillMet(items: seq<Entry>, n: nat, expected: Option<nat>, k: int)
    requires Fill(items, n, expected).Some? && k in Fill(items, n, expected).value.byIndex
    ensures exists i :: 0 <= i < |items| && items[i].index == Some(k)
  {
    var front, e := items[..|items| - 1], items[|items| - 1];
    if k in Fill(front, n, expected).value.byIndex {
      FillMet(front, n, expected, k);
      var i :| 0 <= i < |front| && front[i].index == Some(k);
      assert items[i].index == Some(k);
    } else {
      assert items[|items| - 1].index == Some(k);
    }
  }

  lemma NewKeyCounts(m: map<int, Vec>, k: int, v: Vec)
    requires k !in m
    ensures |m[k := v]| == |m| + 1 && m[k := v].Keys == m.Keys + {k}
  {
    assert m[k := v].Keys == m.Keys + {k};
    assert |m[k := v].Keys| == |m.Keys| + 1;
  }

  lemma {:induction false} FillDims(items: seq<Entry>, n: nat, expected: Option<nat>)
    requires Fill(items, n, expected).Some?
    ensures var dims := Fill(items, n, expected).value.dims;
            (expected.Some? ==> dims == expected) && (items != [] ==> dims.Some?)
  {
    if items != [] { FillDims(items[..|items| - 1], n, expected); }
  }

  lemma NewIndex(items: seq<Entry>, m: map<int, Vec>, e: Entry)
    requires ByIndex(items, m) && e.index.Some? && e.index.value !in m
    ensures forall i :: 0 <= i < |items| ==> items[i].index != e.index
  {}

  lemma {:induction false} FillFits(items: seq<Entry>, n: nat, expected: Option<nat>, d: nat)
    requires Fill(items, n, expected).Some? && Fill(items, n, expected).value.dims == Some(d)
    ensures Exact(items, n, d)
  {
    if items != [] {
      var front, e := items[..|items| - 1], items[|items| - 1];
      var f := Fill(front, n, expected).value;
      FillDims(front, n, expected);
      FillIndexed(front, n, expected);
      NewIndex(front, f.byIndex, e);
      if front != [] { FillFits(front, n, expected, d); }
      assert items == front + [e];
      ExactMore(front, n, d, e);
    }
  }

  lemma ExactFront(items: seq<Entry>, n: nat, d: nat, k: nat)
    requires Exact(items, n, d) && k < |items|
    ensures Exact(items[..k], n, d) && Fits(items[k], n, d)
    ensures forall i :: 0 <= i < k ==> items[..k][i].index != items[k].index
  {}

  lemma {:induction false} FillComplete(items: seq<Entry>, n: nat, expected: Option<nat>, d: nat)
    requires Exact(items, n, d) && (expected.None? || expected.value == d)
    ensures Fill(items, n, expected).Some? && (items != [] ==> Fill(items, n, expected).value.dims == Some(d))
  {
    if items != [] {
      var k := |items| - 1;
      ExactFront(items, n, d, k);
      FillComplete(items[..k], n, expected, d);
      var f := Fill(items[..k], n, expected).value;
      if items[k].index.value in f.byIndex { FillMet(items[..k], n, expected, items[k].index.value); }
      assert Admit(f, items[k], n).Some?;
    }
  }

  /** The loop accepts exactly the responses that cover the inputs. */
  lemma FillExact(items: seq<Entry>, n: nat, expected: Option<nat>)
    requires items != []
    ensures Fill(items, n, expected).Some? <==>
              exists d: nat :: Exact(items, n, d) && (expected.None? || expected.value == d)
  {
    if Fill(items, n, expected).Some? {
      FillDims(items, n, expected);
      FillFits(items, n, expected, Fill(items, n, expected).value.dims.value);
    }
    if exists d: nat :: Exact(items, n, d) && (expected.None? || expected.value == d) {
      var d: nat :| Exact(items, n, d) && (expected.None? || expected.value == d);
      FillComplete(items, n, expected, d);
    }
  }

  /** An entry the loop refuses spoils the whole response. */
  lemma {:induction false} FillPrefix(items: seq<Entry>, n: nat, expected: Option<nat>, i: nat)
    requires i <= |items| && Fill(items[..i], n, expected).None?
    ensures Fill(items, n, expected).None?
    decreases |items|
  {
    if i == |items| {
      assert items[..i] == items;
    } else {
      var front := items[..|items| - 1];
      assert front[..i] == items[..i];
      FillPrefix(front, n, expected, i);
    }
  }

  /** The loop over the entries. */
  method FillAll(items: seq<Entry>, n: nat, expected: Option<nat>) returns (r: Option<Filled>)
    ensures r == Fill(items, n, expected)
  {
    var f := Filled(map[], expected);
    var i := 0;
    while i < |items|
      invariant 0 <= i <= |items| && Fill(items[..i], n, expected) == Some(f)
    {
      assert items[..i + 1][..i] == items[..i];
      var next := Admit(f, items[i], n);
      if next.None? {
        FillPrefix(items, n, expected, i + 1);
        return None;
      }
      f := next.value;
      i := i + 1;
    }
    assert items[..i] == items;
    r := Some(f);
  }

  /** [by_index[i] for i in range(n)]: nothing is missing, and each entry's
      vector is at its index. */
  lemma InInputOrder(items: seq<Entry>, n: nat, m: map<int, Vec>)
    requires |items| == n && ByIndex(items, m) && |m| == n && m.Keys <= Below(n)
    ensures forall k :: 0 <= k < n ==> k in m
    ensures forall i :: 0 <= i < n ==> items[i].index.Some? && 0 <= items[i].index.value < n
                                       && VectorOf(items[i]) == Some(m[items[i].index.value])
  {
    FullRange(m.Keys, n);
  }

  function Ordered(m: map<int, Vec>, n: nat): (r: seq<Vec>)
    requires forall k :: 0 <= k < n ==> k in m
    ensures |r| == n && forall k :: 0 <= k < n ==> r[k] == m[k]
  {
    seq(n, k requires 0 <= k < n => m[k])
  }

  ghost predicate Acceptable(data: Option<seq<Entry>>, n: nat, expected: Option<nat>) {
    data.Some? && |data.value| == n
    && exists d: nat :: Exact(data.value, n, d) && (expected.None? || expected.value == d)
  }

  /** parse_openai_embeddings_response: accepted exactly when the indices cover
      the inputs once each and the vectors are finite and of one dimension,
      the expected one if there is one; then every input gets its own vector. */
  method Parse(data: Option<seq<Entry>>, n: nat, expected: Option<nat>) returns (r: Option<(seq<Vec>, nat)>)
    ensures n == 0 ==> r == Some(([], if expected.Some? then expected.value else 0))
    ensures n > 0 ==> (r.Some? <==> Acceptable(data, n, expected))
    ensures n > 0 && r.Some? ==> |r.value.0| == n && Exact(data.value, n, r.value.1)
    ensures n > 0 && r.Some? ==>
              forall i :: 0 <= i < n ==> 0 <= data.value[i].index.value < n
                                         && VectorOf(data.value[i]) == Some(r.value.0[data.value[i].index.value])
  {
    if n == 0 { return Some(([], if expected.Some? then expected.value else 0)); }
    if data.None? || |data.value| != n { return None; }
    var items := data.value;
    FillExact(items, n, expected);
    var f := FillAll(items, n, expected);
    if f.None? { return None; }
    FillIndexed(items, n, expected);
    FillCounts(items, n, expected);
    FillDims(items, n, expected);
    FillFits(items, n, expected, f.value.dims.value);
    InInputOrder(items, n, f.value.byIndex);
    r := Some((Ordered(f.value.byIndex, n), f.value.dims.value));
  }
}
