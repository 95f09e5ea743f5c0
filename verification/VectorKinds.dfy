/** What kind of vector an embedding is: the representation a rebuild certifies. */
module VectorKinds {
  import opened Rows

  /** A vector's weights by key. */
  type Vec = map<string, real>

  datatype Representation = Empty | Dense(n: nat) | Sparse

  /** Python's str of a number. */
  function Decimal(n: nat): (s: string)
    ensures |s| > 0 && forall i :: 0 <= i < |s| ==> '0' <= s[i] <= '9'
  {
    var digit := ('0' as int + n % 10) as char;
    if n < 10 then [digit] else Decimal(n / 10) + [digit]
  }

  lemma {:induction false} DecimalInjective(a: nat, b: nat)
    requires Decimal(a) == Decimal(b)
    ensures a == b
  {
    var s, t := Decimal(a), Decimal(b);
    assert s[|s| - 1] == t[|t| - 1];
    assert a % 10 == b % 10;
    if a >= 10 && b >= 10 {
      assert s[..|s| - 1] == Decimal(a / 10) && t[..|t| - 1] == Decimal(b / 10);
      DecimalInjective(a / 10, b / 10);
    }
  }

  function DenseKeys(n: nat): set<string> {
    set i | 0 <= i < n :: Decimal(i)
  }

  lemma NewDenseKey(n: nat)
    ensures Decimal(n) !in DenseKeys(n) && DenseKeys(n + 1) == DenseKeys(n) + {Decimal(n)}
  {
    if Decimal(n) in DenseKeys(n) {
      var i :| 0 <= i < n && Decimal(i) == Decimal(n);
      DecimalInjective(i, n);
    }
  }

  lemma {:induction false} DenseKeysCount(n: nat)
    ensures |DenseKeys(n)| == n
  {
    if n > 0 {
      DenseKeysCount(n - 1);
      NewDenseKey(n - 1);
    }
  }

  /** _vector_representation: dense only with exactly the keys 0..n-1. */
  function RepresentationOf(v: Vec): Representation {
    if v == map[] then Empty
    else if v.Keys == DenseKeys(|v|) then Dense(|v|)
    else Sparse
  }

  /** Dense(n) says everything about the keys: n > 0 and they are 0..n-1. */
  lemma DenseExact(v: Vec, n: nat)
    ensures RepresentationOf(v) == Dense(n) <==> n > 0 && v.Keys == DenseKeys(n)
  {
    DenseKeysCount(n);
    assert |v.Keys| == |v|;
    if n > 0 && v.Keys == DenseKeys(n) { assert v != map[]; }
    if v != map[] { assert |v| > 0; }
  }

  /** Empty is the vector without keys, Sparse any other that no n makes dense. */
  lemma EmptyExact(v: Vec)
    ensures RepresentationOf(v) == Empty <==> v == map[]
  {}

  lemma SparseExact(v: Vec)
    ensures RepresentationOf(v) == Sparse <==> v != map[] && forall n: nat :: v.Keys != DenseKeys(n)
  {
    if RepresentationOf(v) == Sparse {
      forall n: nat ensures v.Keys != DenseKeys(n) {
        DenseExact(v, n);
        assert DenseKeys(0) == {} && v.Keys != {};
      }
    } else if v != map[] {
      assert v.Keys == DenseKeys(|v|);
    }
  }

  // ------------------------------------------------------------ the decimals

  /** The number a text of digits stands for. */
  function NumberOf(s: string): int {
    if s == "" then 0 else 10 * NumberOf(s[..|s| - 1]) + (s[|s| - 1] as int - '0' as int)
  }

  /** Decimal(n) is n in digits, without a leading zero. */
  lemma {:induction false} DecimalExact(n: nat)
    ensures NumberOf(Decimal(n)) == n && (Decimal(n)[0] == '0' ==> n == 0)
  {
    var digit := ('0' as int + n % 10) as char;
    if n < 10 {
      assert Decimal(n) == [digit] && [digit][..0] == "" && NumberOf("") == 0;
    } else {
      DecimalExact(n / 10);
      assert Decimal(n) == Decimal(n / 10) + [digit];
      assert Decimal(n)[..|Decimal(n)| - 1] == Decimal(n / 10);
    }
  }

  // ------------------------------------------------------------ one kind of vector

  /** dim is what these vectors are certified as: n when there are vectors with
      keys, all of them the decimals below n; None when no vector with keys has
      the decimals below any n. */
  ghost predicate Certified(vecs: seq<Vec>, dim: Option<nat>) {
    match dim
    case Some(n) =>
      && (exists i :: 0 <= i < |vecs| && vecs[i] != map[])
      && forall i :: 0 <= i < |vecs| && vecs[i] != map[] ==> vecs[i].Keys == DenseKeys(n)
    case None =>
      forall i, n: nat :: 0 <= i < |vecs| && vecs[i] != map[] ==> vecs[i].Keys != DenseKeys(n)
  }

  lemma SameKind(vecs: seq<Vec>, dim: Option<nat>, i: nat)
    requires Certified(vecs, dim) && i < |vecs| && RepresentationOf(vecs[i]) != Empty
    ensures RepresentationOf(vecs[i]) == if dim.Some? then Dense(dim.value) else Sparse
  {
    EmptyExact(vecs[i]);
    if dim.Some? {
      DenseKeysCount(dim.value);
      DenseExact(vecs[i], dim.value);
      assert |vecs[i].Keys| == |vecs[i]|;
    } else {
      SparseExact(vecs[i]);
    }
  }

  /** Some dimension or none certifies the vectors exactly when they are uniform. */
  lemma UniformExact(vecs: seq<Vec>)
    ensures Uniform(vecs) <==> exists dim :: Certified(vecs, dim)
  {
    if exists dim :: Certified(vecs, dim) {
      var dim :| Certified(vecs, dim);
      forall i, j | 0 <= i < |vecs| && 0 <= j < |vecs|
        ensures RepresentationOf(vecs[i]) == RepresentationOf(vecs[j])
                || RepresentationOf(vecs[i]) == Empty || RepresentationOf(vecs[j]) == Empty
      {
        if RepresentationOf(vecs[i]) != Empty { SameKind(vecs, dim, i); }
        if RepresentationOf(vecs[j]) != Empty { SameKind(vecs, dim, j); }
      }
    }
    if Uniform(vecs) {
      var dim := UniformCertified(vecs);
    }
  }

  lemma UniformCertified(vecs: seq<Vec>) returns (dim: Option<nat>)
    requires Uniform(vecs)
    ensures Certified(vecs, dim)
  {
    if i :| 0 <= i < |vecs| && RepresentationOf(vecs[i]).Dense? {
      dim := Some(RepresentationOf(vecs[i]).n);
      EmptyExact(vecs[i]);
      forall j | 0 <= j < |vecs| && vecs[j] != map[] ensures vecs[j].Keys == DenseKeys(dim.value) {
        EmptyExact(vecs[j]);
        DenseExact(vecs[j], dim.value);
      }
    } else {
      dim := None;
      forall j, n: nat | 0 <= j < |vecs| && vecs[j] != map[] ensures vecs[j].Keys != DenseKeys(n) {
        EmptyExact(vecs[j]);
        SparseExact(vecs[j]);
      }
    }
  }

  ghost predicate Uniform(vectors: seq<Vec>) {
    forall i, j :: 0 <= i < |vectors| && 0 <= j < |vectors| ==>
      RepresentationOf(vectors[i]) == RepresentationOf(vectors[j])
      || RepresentationOf(vectors[i]) == Empty || RepresentationOf(vectors[j]) == Empty
  }
}
