/** Which integers the reconcile's float comparison tells apart: exactly those
    whose nearest double no other integer shares. */
module FloatCompare {
  import opened Rows

  const HALF: int := 0x10_0000_0000_0000 // 2^52

  /** Dividing by a power of two halves first. */
  lemma DivHalf(n: nat, e: nat)
    ensures Pow2(e + 1) == 2 * Pow2(e) && n / Pow2(e + 1) == n / 2 / Pow2(e)
  {
    var p := Pow2(e);
    var q, r := n / 2 / p, n / 2 % p;
    assert n / 2 == q * p + r;
    assert n == 2 * (n / 2) + n % 2;
    assert n == q * (2 * p) + (2 * r + n % 2) by { assert q * (2 * p) == 2 * (q * p); }
    Quotient(n, 2 * p, q, 2 * r + n % 2);
  }

  lemma Grows(a: int, b: int, u: nat)
    requires a <= b
    ensures a * u <= b * u
  {}

  lemma Next(q: int, u: nat)
    ensures (q + 1) * u == q * u + u
  {}

  lemma Below(u: nat, q: int, r: int, q': int, r': int)
    requires q * u + r == q' * u + r' && 0 <= r < u && 0 <= r' < u
    ensures q <= q'
  {
    Next(q', u);
    if q' < q { Grows(q' + 1, q, u); }
  }

  lemma Quotient(n: nat, u: nat, q: nat, r: nat)
    requires u > 0 && n == q * u + r && r < u
    ensures n / u == q && n % u == r
  {
    var q', r' := n / u, n % u;
    assert n == q' * u + r';
    Below(u, q, r, q', r');
    Below(u, q', r', q, r);
  }

  /** A number past 2^53 keeps 53 bits. */
  lemma {:induction false} ExcessLeaves(n: nat)
    requires n >= DOUBLE_EXACT
    ensures ExcessBits(n) >= 1 && HALF <= n / Pow2(ExcessBits(n)) < DOUBLE_EXACT
  {
    if n / 2 < DOUBLE_EXACT {
      assert ExcessBits(n / 2) == 0;
      assert Pow2(1) == 2 by { assert Pow2(0) == 1; }
    } else {
      ExcessLeaves(n / 2);
      DivHalf(n, ExcessBits(n / 2));
    }
  }

  lemma {:induction false} ExcessIs(n: nat, e: nat)
    requires e >= 1 && HALF <= n / Pow2(e) < DOUBLE_EXACT
    ensures ExcessBits(n) == e
  {
    if e == 1 {
      assert Pow2(1) == 2 by { assert Pow2(0) == 1; }
    } else {
      DivHalf(n, e - 1);
      ExcessIs(n / 2, e - 1);
      PowAtLeast(e - 1);
      assert n / 2 >= DOUBLE_EXACT by { AtLeast(n / 2, Pow2(e - 1)); }
    }
  }

  lemma AtLeast(n: nat, u: nat)
    requires u >= 2 && n / u >= HALF
    ensures n >= DOUBLE_EXACT
  {
    assert n == (n / u) * u + n % u;
    assert (n / u) * u >= HALF * u by { Grows(HALF, n / u, u); }
  }

  lemma PowAtLeast(e: nat)
    ensures e >= 1 ==> Pow2(e) >= 2
  {
    if e >= 1 { assert Pow2(e) == 2 * Pow2(e - 1); }
  }

  /** q * unit for a 53-bit q is its own nearest double, 2^53 * unit too. */
  lemma MultipleIsExact(q: nat, e: nat)
    requires e >= 1 && HALF <= q <= DOUBLE_EXACT
    ensures NearestDoubleNat(q * Pow2(e)) == q * Pow2(e)
  {
    var u := Pow2(e);
    if q < DOUBLE_EXACT {
      Quotient(q * u, u, q, 0);
      ExcessIs(q * u, e);
    } else {
      assert Pow2(e + 1) == 2 * u;
      assert q * u == HALF * (2 * u);
      Quotient(q * u, 2 * u, HALF, 0);
      ExcessIs(q * u, e + 1);
    }
  }

  /** The shape of any number past 2^53. */
  lemma Shape(n: nat) returns (e: nat, u: nat, q: nat, r: nat)
    requires n >= DOUBLE_EXACT
    ensures e >= 1 && e == ExcessBits(n) && u == Pow2(e) && u >= 2 && n == q * u + r && r < u && HALF <= q < DOUBLE_EXACT
    ensures NearestDoubleNat(n) == if 2 * r < u || (2 * r == u && q % 2 == 0) then q * u else (q + 1) * u
  {
    ExcessLeaves(n);
    e := ExcessBits(n);
    u := Pow2(e);
    PowAtLeast(e);
    q, r := n / u, n % u;
  }

  lemma UnitPast(n: nat)
    requires n >= 2 * DOUBLE_EXACT
    ensures Pow2(ExcessBits(n)) >= 4
  {
    assert Pow2(ExcessBits(n)) == 2 * Pow2(ExcessBits(n / 2));
    ExcessLeaves(n / 2);
    PowAtLeast(ExcessBits(n / 2));
  }

  lemma RoundsPast(n: nat)
    requires n >= DOUBLE_EXACT
    ensures NearestDoubleNat(n) >= DOUBLE_EXACT
    ensures n >= 2 * DOUBLE_EXACT ==> NearestDoubleNat(n) >= 2 * DOUBLE_EXACT
  {
    var e, u, q, r := Shape(n);
    Grows(HALF, q, u);
    assert (q + 1) * u == q * u + u;
    Grows(2, u, HALF);
    if n >= 2 * DOUBLE_EXACT {
      UnitPast(n);
      Grows(4, u, HALF);
    }
  }

  /** Numbers with a bit a double drops have a neighbour with their double. */
  lemma SharedByAny(n: nat) returns (b: nat)
    requires n >= DOUBLE_EXACT && !(n < 2 * DOUBLE_EXACT && n % 4 == 2)
    ensures b != n && NearestDoubleNat(b) == NearestDoubleNat(n)
    ensures b == NearestDoubleNat(n) || (n % 2 == 0 && b == n + 1)
  {
    var e, u, q, r := Shape(n);
    if r != 0 {
      b := NearestDoubleNat(n);
      if b == q * u { MultipleIsExact(q, e); } else { MultipleIsExact(q + 1, e); assert (q + 1) * u == q * u + u; }
    } else {
      EvenMultiple(n, q, e);
      NextOfMultiple(n, e, u, q);
      b := n + 1;
    }
  }

  lemma EvenMultiple(n: nat, q: nat, e: nat)
    requires e >= 1 && n == q * Pow2(e)
    ensures n % 2 == 0
  {
    var p := Pow2(e - 1);
    assert q * (2 * p) == 2 * (q * p);
  }

  lemma NextOfMultiple(n: nat, e: nat, u: nat, q: nat)
    requires e >= 1 && u == Pow2(e) && u >= 2 && n == q * u && HALF <= q < DOUBLE_EXACT
    requires !(n < 2 * DOUBLE_EXACT && n % 4 == 2)
    ensures NearestDoubleNat(n) == n && NearestDoubleNat(n + 1) == n
  {
    MultipleIsExact(q, e);
    Quotient(n + 1, u, q, 1);
    ExcessIs(n + 1, e);
    if u == 2 { SecondLevel(n, e, q); } else { assert Pow2(e) == 2 * Pow2(e - 1); }
  }

  const INT_LIMIT: int := 0x8000_0000_0000_0000 // 2^63
  const TOP_UNIT: int := 1024

  lemma TopUnit()
    ensures Pow2(10) == TOP_UNIT
  {
    assert Pow2(2) == 4 by { assert Pow2(1) == 2 by { assert Pow2(0) == 1; } }
    assert Pow2(4) == 16 by { assert Pow2(3) == 8; }
    assert Pow2(6) == 64 by { assert Pow2(5) == 32; }
    assert Pow2(8) == 256 by { assert Pow2(7) == 128; }
    assert Pow2(9) == 512;
  }

  /** The last 512 integers below 2^63 all round up to it. */
  lemma TopRoundsUp(n: nat)
    requires INT_LIMIT - 512 <= n < INT_LIMIT
    ensures NearestDoubleNat(n) == INT_LIMIT
  {
    TopUnit();
    assert n / 1024 == DOUBLE_EXACT - 1;
    ExcessIs(n, 10);
  }

  lemma LimitIsDouble()
    ensures NearestDoubleNat(INT_LIMIT) == INT_LIMIT
  {
    TopUnit();
    MultipleIsExact(DOUBLE_EXACT, 10);
  }

  /** Below the top of the 64-bit range no more than the limit is reached. */
  lemma RoundsWithin(n: nat)
    requires DOUBLE_EXACT <= n < INT_LIMIT - 512
    ensures NearestDoubleNat(n) < INT_LIMIT
  {
    var e, u, q, r := Shape(n);
    assert (q + 1) * u == q * u + u;
    if n >= INT_LIMIT / 2 {
      TopUnit();
      ExcessIs(n, 10);
    } else {
      assert q * u + u <= 2 * n by { Grows(1, q, u); }
    }
  }

  /** And there is one below 2^63, if the number is at most 2^63. */
  lemma Shared(n: nat) returns (b: nat)
    requires n >= DOUBLE_EXACT && !(n < 2 * DOUBLE_EXACT && n % 4 == 2)
    ensures b != n && NearestDoubleNat(b) == NearestDoubleNat(n) && (n <= INT_LIMIT ==> b < INT_LIMIT)
  {
    if n == INT_LIMIT {
      b := n - 1;
      LimitIsDouble();
      TopRoundsUp(b);
    } else if INT_LIMIT - 512 <= n < INT_LIMIT {
      b := if n == INT_LIMIT - 1 then n - 1 else n + 1;
      TopRoundsUp(n);
      TopRoundsUp(b);
    } else {
      b := SharedByAny(n);
      if n < INT_LIMIT - 512 { RoundsWithin(n); }
    }
  }

  /** With unit 2 the number is below 2^54, and not 2 mod 4 means an even q. */
  lemma SecondLevel(n: nat, e: nat, q: nat)
    requires e >= 1 && Pow2(e) == 2 && n == q * 2 && HALF <= q < DOUBLE_EXACT && !(n < 2 * DOUBLE_EXACT && n % 4 == 2)
    ensures q % 2 == 0
  {}

  /** Multiples of 2 but not of 4 between 2^53 and 2^54: both neighbours are
      ties that round away to a multiple of 4. */
  lemma TieAvoids(n: nat, b: nat)
    requires DOUBLE_EXACT <= n < 2 * DOUBLE_EXACT && n % 4 == 2 && NearestDoubleNat(b) == n
    ensures b == n
  {
    if b < DOUBLE_EXACT {
      NearestDoubleExact(b);
    } else if b >= 2 * DOUBLE_EXACT {
      RoundsPast(b);
    } else {
      var e, u, q, r := Shape(b);
      assert Pow2(1) == 2 by { assert Pow2(0) == 1; }
      assert b / 2 < DOUBLE_EXACT;
      assert ExcessBits(b / 2) == 0;
      assert e == 1 && u == 2;
    }
  }

  /** The integers the comparison tells from every other one. */
  predicate ToldApart(n: int) {
    -DOUBLE_EXACT < n < DOUBLE_EXACT || (-2 * DOUBLE_EXACT < n < 2 * DOUBLE_EXACT && n % 4 == 2)
  }

  lemma ToldIsDouble(n: int)
    requires ToldApart(n)
    ensures NearestDouble(n) == n
  {
    var size := Size(n);
    if size < DOUBLE_EXACT { NearestDoubleExact(size); } else { EvenIsDouble(size); }
  }

  lemma EvenIsDouble(n: nat)
    requires DOUBLE_EXACT <= n < 2 * DOUBLE_EXACT && n % 4 == 2
    ensures NearestDoubleNat(n) == n
  {
    var e, u, q, r := Shape(n);
    assert Pow2(1) == 2 by { assert Pow2(0) == 1; }
    assert ExcessBits(n / 2) == 0;
  }

  lemma UniqueNat(n: nat, b: nat)
    requires ToldApart(n) && NearestDoubleNat(b) == NearestDoubleNat(n)
    ensures b == n
  {
    if n < DOUBLE_EXACT {
      NearestDoubleExact(n);
      if b < DOUBLE_EXACT { NearestDoubleExact(b); } else { RoundsPast(b); }
    } else {
      EvenIsDouble(n);
      TieAvoids(n, b);
    }
  }

  lemma StaysPositive(n: nat)
    ensures NearestDoubleNat(n) > 0 <==> n > 0
  {
    if n >= DOUBLE_EXACT { RoundsPast(n); } else { NearestDoubleExact(n); }
  }

  lemma Size(n: int) returns (size: nat)
    ensures size == (if n < 0 then -n else n)
    ensures NearestDouble(n) == (if n < 0 then -NearestDoubleNat(size) else NearestDoubleNat(size))
    ensures ToldApart(n) <==> ToldApart(size)
  {
    size := if n < 0 then -n else n;
  }

  lemma Unique(n: int, b: int)
    requires ToldApart(n) && NearestDouble(b) == NearestDouble(n)
    ensures b == n
  {
    var size := Size(n);
    var other := Size(b);
    StaysPositive(size);
    StaysPositive(other);
    UniqueNat(size, other);
  }

  lemma Mirror(m: nat) returns (b: int)
    requires m > 0
    ensures b < 0 && b == 0 - (m as int) && NearestDouble(b) == 0 - NearestDoubleNat(m)
  {
    b := 0 - (m as int);
    assert -b == m;
  }

  /** What a SQLite integer can hold. */
  predicate Int64(n: int) { -INT_LIMIT <= n < INT_LIMIT }

  lemma Another(n: int) returns (b: int)
    requires !ToldApart(n)
    ensures b != n && NearestDouble(b) == NearestDouble(n) && (Int64(n) ==> Int64(b))
  {
    var size := Size(n);
    var other := Shared(size);
    StaysPositive(size);
    StaysPositive(other);
    if n < 0 { b := Mirror(other); } else { b := other; }
  }

  /** The comparison takes no other integer for n exactly when n is below 2^53
      in size, or below 2^54 and twice an odd number; nor does it within the 64
      bits SQLite has. */
  lemma FloatTellsApart(n: int)
    ensures (forall b: int :: SameValue(Int(n), Int(b)) ==> b == n) <==> ToldApart(n)
    ensures Int64(n) ==> ((forall b: int :: Int64(b) && SameValue(Int(n), Int(b)) ==> b == n) <==> ToldApart(n))
  {
    if ToldApart(n) {
      forall b: int | SameValue(Int(n), Int(b)) ensures b == n {
        Equal(n, b);
        Unique(n, b);
      }
    } else {
      var b := Another(n);
      Equal(n, b);
    }
  }

  lemma Equal(n: int, b: int)
    ensures SameValue(Int(n), Int(b)) <==> NearestDouble(n) == NearestDouble(b)
  {}

  // ------------------------------------------------------------ values the comparison tells apart

  predicate Told(v: Value) {
    match v
    case Int(n) => ToldApart(n)
    case Real(r) => r == r.Floor as real ==> ToldApart(r.Floor)
    case _ => true
  }

  ghost predicate AllTold(row: Row) {
    forall c :: c in row ==> Told(row[c])
  }

  lemma ToldIsExact(a: Value, b: Value)
    requires Told(a) && SameValue(a, b)
    ensures NormValue(a) == NormValue(b)
  {
    if a.Int? && b.Int? {
      Equal(a.i, b.i);
      Unique(a.i, b.i);
    } else if a.Int? && b.Real? {
      ToldIsDouble(a.i);
    } else if a.Real? && b.Int? {
      var f := NearestDouble(b.i);
      assert a.r == f as real && a.r.Floor == f;
      ToldIsDouble(f);
      Unique(f, b.i);
    }
  }

  /** A value a double can be, and a value the comparison takes only for values
      the compare calls equal: integers by FloatTellsApart, integral reals by
      the integer they are. */
  lemma ToldExactly(a: Value)
    requires a.Real? && a.r == a.r.Floor as real ==> NearestDouble(a.r.Floor) == a.r.Floor
    ensures (forall b: Value :: SameValue(a, b) ==> NormValue(a) == NormValue(b)) <==> Told(a)
  {
    if Told(a) {
      forall b: Value | SameValue(a, b) ensures NormValue(a) == NormValue(b) { ToldIsExact(a, b); }
    } else {
      var n := if a.Int? then a.i else a.r.Floor;
      var b := Another(n);
      Equal(n, b);
      assert SameValue(a, Int(b)) && NormValue(Int(b)) == Int(b) && NormValue(a) == Int(n);
    }
  }

  lemma ToldRowIsExact(l: Row, r: Row)
    requires AllTold(l) && SameRow(Some(l), Some(r)) && l.Keys == r.Keys
    ensures NormRow(l) == NormRow(r)
  {
    forall c | c in l ensures NormRow(l)[c] == NormRow(r)[c] {
      ToldIsExact(l[c], r[c]);
    }
  }
}
