/** The probe sequence of `LongHashTable`: the step grows by one each time, in a table of 2^k slots. */
module TriangularProbe {

  function Pow2(k: nat): nat { if k == 0 then 1 else 2 * Pow2(k - 1) }

  function Triangle(i: nat): nat { if i == 0 then 0 else Triangle(i - 1) + i }

  /** Slot examined after `i` steps. */
  function ProbeAt(hash: nat, cap: nat, i: nat): (slot: nat)
    requires cap > 0
    ensures slot < cap
  {
    (hash % cap + Triangle(i)) % cap
  }

  lemma AddMod(a: int, b: int, m: int)
    requires m > 0
    ensures (a % m + b) % m == (a + b) % m
  {
    var q := a / m;
    assert a == q * m + a % m;
    assert (a % m + b) + q * m == a + b;
    ModShift(a % m + b, q, m);
  }

  lemma ModShift(x: int, q: int, m: int)
    requires m > 0
    ensures (x + q * m) % m == x % m
  {
    var r, d := x % m, x / m;
    assert x + q * m == (d + q) * m + r;
    ModUnique(x + q * m, d + q, r, m);
  }

  lemma ModUnique(x: int, q: int, r: int, m: int)
    requires m > 0 && 0 <= r < m && x == q * m + r
    ensures x % m == r && x / m == q
  {
    var d, e := x / m, x % m;
    assert x == d * m + e && 0 <= e < m;
    assert (q - d) * m == e - r;
    MultipleApart(q - d, m);
  }

  /** Nonzero multiples of `m` are at least `m` away from zero. */
  lemma MultipleApart(q: int, m: int)
    requires m > 0
    ensures q == 0 || q * m >= m || q * m <= -m
  {
    if q >= 1 { assert q * m == (q - 1) * m + m; }
    if q <= -1 { assert q * m == (q + 1) * m - m; }
  }

  /** The loop's own update: add the new step, wrap around. */
  lemma {:induction false} ProbeNext(hash: nat, cap: nat, i: nat)
    requires cap > 0
    ensures ProbeAt(hash, cap, 0) == hash % cap
    ensures ProbeAt(hash, cap, i + 1) == (ProbeAt(hash, cap, i) + (i + 1)) % cap
  {
    AddMod(hash % cap + Triangle(i), i + 1, cap);
    AddMod(hash, 0, cap);
  }

  // ------------------------------------------------------------------ it is a permutation

  lemma {:induction false} TriangleDouble(i: nat)
    ensures 2 * Triangle(i) == i * (i + 1)
  {
    if i > 0 {
      TriangleDouble(i - 1);
      assert (i - 1) * i + 2 * i == i * (i + 1);
    }
  }

  /** An odd factor cannot supply a factor of two. */
  lemma {:induction false} OddFactor(k: nat, a: int, x: int, q: int) returns (r: int)
    requires a % 2 == 1 && a * x == q * Pow2(k)
    ensures x == r * Pow2(k)
  {
    if k == 0 {
      r := x;
    } else {
      var y := Halved(k, a, x, q);
      r := OddFactor(k - 1, a, y, q);
      assert r * (2 * Pow2(k - 1)) == 2 * (r * Pow2(k - 1));
    }
  }

  lemma Halved(k: nat, a: int, x: int, q: int) returns (y: int)
    requires k > 0 && a % 2 == 1 && a * x == q * Pow2(k)
    ensures x == 2 * y && a * y == q * Pow2(k - 1)
  {
    var b, h := a / 2, Pow2(k - 1);
    assert q * (2 * h) == 2 * (q * h);
    assert (2 * b + 1) * x == 2 * (b * x) + x;
    y := q * h - b * x;
    assert a * (2 * y) == 2 * (a * y);
  }

  /** Two numbers below 2^k of which one is odd do not multiply to a multiple of 2^k. */
  lemma {:induction false} NoSmallFactors(k: nat, u: nat, v: nat, q: int)
    requires 0 < u < Pow2(k) && 0 < v < Pow2(k) && (u + v) % 2 == 1
    ensures u * v != q * Pow2(k)
  {
    hide Pow2;
    if u * v == q * Pow2(k) {
      var r;
      if u % 2 == 1 { r := OddFactor(k, u, v, q); } else { r := OddFactor(k, v, u, q); }
      MultipleApart(r, Pow2(k));
    }
  }

  /** Equal remainders: the difference is a multiple. */
  lemma SameMod(a: int, b: int, m: int)
    requires m > 0 && a % m == b % m
    ensures b - a == (b / m - a / m) * m
  {
    assert a == (a / m) * m + a % m;
    assert b == (b / m) * m + b % m;
  }

  /** The difference of two triangles, doubled, factors. */
  lemma {:induction false} TriangleGap(i: nat, j: nat)
    ensures 2 * (Triangle(j) - Triangle(i)) == (j - i) * (i + j + 1)
  {
    TriangleDouble(i);
    TriangleDouble(j);
    assert j * (j + 1) - i * (i + 1) == (j - i) * (i + j + 1);
  }

  lemma PowStep(k: nat, q: int)
    ensures Pow2(k + 1) == 2 * Pow2(k) && q * Pow2(k + 1) == 2 * (q * Pow2(k))
  {
    var m := Pow2(k);
    assert q * (2 * m) == 2 * (q * m);
  }

  lemma {:induction false} GapNotMultiple(k: nat, i: nat, j: nat, q: int)
    requires i < j < Pow2(k)
    ensures Triangle(j) - Triangle(i) != q * Pow2(k)
  {
    hide Triangle, Pow2;
    PowStep(k, q);
    TriangleGap(i, j);
    NoSmallFactors(k + 1, j - i, i + j + 1, q);
  }

  /** No slot is examined twice within one cycle. */
  lemma {:induction false} ProbeInjective(hash: nat, k: nat, i: nat, j: nat)
    requires Pow2(k) > 0 && i < j < Pow2(k)
    ensures ProbeAt(hash, Pow2(k), i) != ProbeAt(hash, Pow2(k), j)
  {
    hide Pow2, Triangle;
    var m := Pow2(k);
    var a, b := hash % m + Triangle(i), hash % m + Triangle(j);
    if a % m == b % m {
      SameMod(a, b, m);
      GapNotMultiple(k, i, j, b / m - a / m);
    }
  }

  /** Slots examined in the first `n` looks. */
  function Visited(hash: nat, cap: nat, n: nat): set<nat>
    requires cap > 0
  {
    if n == 0 then {} else Visited(hash, cap, n - 1) + {ProbeAt(hash, cap, n - 1)}
  }

  lemma {:induction false} VisitedIs(hash: nat, k: nat, n: nat)
    requires Pow2(k) > 0 && n <= Pow2(k)
    ensures |Visited(hash, Pow2(k), n)| == n
    ensures forall s :: s in Visited(hash, Pow2(k), n) <==> exists i: nat :: i < n && s == ProbeAt(hash, Pow2(k), i)
  {
    if n > 0 {
      VisitedIs(hash, k, n - 1);
      var m := Pow2(k);
      var last := ProbeAt(hash, m, n - 1);
      forall i: nat | i < n - 1 ensures ProbeAt(hash, m, i) != last { ProbeInjective(hash, k, i, n - 1); }
      assert last !in Visited(hash, m, n - 1);
      hide ProbeAt, Pow2;
    }
  }

  lemma {:induction false} SubsetSize(a: set<nat>, n: nat)
    requires forall x | x in a :: x < n
    ensures |a| <= n
    ensures |a| == n ==> forall x: nat | x < n :: x in a
  {
    if n == 0 {
      assert a == {};
    } else {
      var b := a - {n - 1};
      SubsetSize(b, n - 1);
      if n - 1 in a { assert |b| == |a| - 1; } else { assert b == a; }
    }
  }

  /** One cycle of a table of 2^k slots examines every slot. */
  lemma {:induction false} ProbeSurjective(hash: nat, k: nat, slot: nat) returns (i: nat)
    requires Pow2(k) > 0 && slot < Pow2(k)
    ensures i < Pow2(k) && ProbeAt(hash, Pow2(k), i) == slot
  {
    hide ProbeAt, Pow2, Visited;
    var m := Pow2(k);
    VisitedIs(hash, k, m);
    var v := Visited(hash, m, m);
    forall x | x in v ensures x < m { var j: nat :| j < m && x == ProbeAt(hash, m, j); }
    SubsetSize(v, m);
    assert slot in v;
    i :| i < m && slot == ProbeAt(hash, m, i);
  }
}
