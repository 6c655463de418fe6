/** Finite sums of reals. */
module Sums {

  function Sum(f: int -> real, lo: int, hi: int): real
    decreases hi - lo
  {
    if hi <= lo then 0.0 else Sum(f, lo, hi - 1) + f(hi - 1)
  }

  function Delta(i: int, j: int): real { if i == j then 1.0 else 0.0 }

  lemma {:induction false} SumSame(f: int -> real, g: int -> real, lo: int, hi: int)
    requires forall k :: lo <= k < hi ==> f(k) == g(k)
    ensures Sum(f, lo, hi) == Sum(g, lo, hi)
    decreases hi - lo
  {
    if lo < hi { SumSame(f, g, lo, hi - 1); }
  }

  lemma {:induction false} SumZero(f: int -> real, lo: int, hi: int)
    requires forall k :: lo <= k < hi ==> f(k) == 0.0
    ensures Sum(f, lo, hi) == 0.0
    decreases hi - lo
  {
    if lo < hi { SumZero(f, lo, hi - 1); }
  }

  lemma {:induction false} SumSplit(f: int -> real, lo: int, mid: int, hi: int)
    requires lo <= mid <= hi
    ensures Sum(f, lo, hi) == Sum(f, lo, mid) + Sum(f, mid, hi)
    decreases hi - mid
  {
    if mid < hi { SumSplit(f, lo, mid, hi - 1); }
  }

  lemma {:induction false} SumPlus(f: int -> real, g: int -> real, h: int -> real, lo: int, hi: int)
    requires forall k :: lo <= k < hi ==> h(k) == f(k) + g(k)
    ensures Sum(h, lo, hi) == Sum(f, lo, hi) + Sum(g, lo, hi)
    decreases hi - lo
  {
    if lo < hi { SumPlus(f, g, h, lo, hi - 1); }
  }

  /** Only one summand is not zero. */
  lemma SumOne(f: int -> real, at: int, lo: int, hi: int)
    requires lo <= at < hi && forall k :: lo <= k < hi && k != at ==> f(k) == 0.0
    ensures Sum(f, lo, hi) == f(at)
  {
    SumSplit(f, lo, at, hi);
    SumSplit(f, at, at + 1, hi);
    SumZero(f, lo, at);
    SumZero(f, at + 1, hi);
    assert Sum(f, at, at) == 0.0;
  }

  /** A sum whose summands vanish behind `at`. */
  lemma SumUpTo(f: int -> real, at: int, lo: int, hi: int)
    requires lo <= at < hi && forall k :: at < k < hi ==> f(k) == 0.0
    ensures Sum(f, lo, hi) == Sum(f, lo, at) + f(at)
  {
    SumSplit(f, lo, at + 1, hi);
    SumZero(f, at + 1, hi);
  }

  lemma Distribute(a: real, b: real, c: real)
    ensures a * (b + c) == a * b + a * c && (b + c) * a == b * a + c * a
  {
  }

  lemma Regroup(a: real, b: real, c: real)
    ensures a * b * c == a * (b * c)
  {
  }

  lemma Cancel(d: real, a: real, b: real)
    requires d != 0.0 && d * a == d * b
    ensures a == b
  {
  }

  function Dot(f: int -> real, g: int -> real, lo: int, hi: int): real { Sum(k => f(k) * g(k), lo, hi) }

  lemma DotStep(f: int -> real, g: int -> real, lo: int, hi: int)
    requires lo < hi
    ensures Dot(f, g, lo, hi) == Dot(f, g, lo, hi - 1) + f(hi - 1) * g(hi - 1)
  {
  }

  lemma DotSame(f: int -> real, f2: int -> real, g: int -> real, g2: int -> real, lo: int, hi: int)
    requires forall k :: lo <= k < hi ==> f(k) == f2(k) && g(k) == g2(k)
    ensures Dot(f, g, lo, hi) == Dot(f2, g2, lo, hi)
  {
    SumSame(k => f(k) * g(k), k => f2(k) * g2(k), lo, hi);
  }

  lemma DotCommutes(f: int -> real, g: int -> real, lo: int, hi: int)
    ensures Dot(f, g, lo, hi) == Dot(g, f, lo, hi)
  {
    SumSame(k => f(k) * g(k), k => g(k) * f(k), lo, hi);
  }

  lemma {:induction false} DotLinear(w: int -> real, c: int -> real, a: real, b: int -> real, p: int -> real, lo: int,
                                     hi: int)
    requires forall m :: lo <= m < hi ==> w(m) == c(m) + a * b(m)
    ensures Dot(w, p, lo, hi) == Dot(c, p, lo, hi) + a * Dot(b, p, lo, hi)
    decreases hi - lo
  {
    if lo < hi {
      DotLinear(w, c, a, b, p, lo, hi - 1);
      var m := hi - 1;
      DotStep(w, p, lo, hi);
      DotStep(c, p, lo, hi);
      DotStep(b, p, lo, hi);
      Distribute(p(m), c(m), a * b(m));
      Distribute(a, Dot(b, p, lo, m), b(m) * p(m));
      Regroup(a, b(m), p(m));
    }
  }

  function Row(b: (int, int) -> real, k: int): int -> real { m => b(k, m) }

  function Column(b: (int, int) -> real, m: int): int -> real { k => b(k, m) }

  /** Matrix times column. */
  function Times(b: (int, int) -> real, p: int -> real, lo: int, hi: int): int -> real {
    k => Dot(Row(b, k), p, lo, hi)
  }

  /** Row times matrix. */
  function LeftTimes(a: int -> real, b: (int, int) -> real, lo: int, hi: int): int -> real {
    m => Dot(a, Column(b, m), lo, hi)
  }

  lemma LeftTimesStep(a: int -> real, b: (int, int) -> real, lo: int, hi: int)
    requires lo < hi
    ensures forall m :: LeftTimes(a, b, lo, hi)(m) == LeftTimes(a, b, lo, hi - 1)(m) + a(hi - 1) * Row(b, hi - 1)(m)
  {
    forall m ensures Dot(a, Column(b, m), lo, hi) == Dot(a, Column(b, m), lo, hi - 1) + a(hi - 1) * b(hi - 1, m) {
      DotStep(a, Column(b, m), lo, hi);
    }
  }

  /** Row times matrix times column, bracketed either way. */
  lemma {:induction false} SumAssociates(a: int -> real, b: (int, int) -> real, p: int -> real,
                                         lo: int, hi: int, lo2: int, hi2: int)
    ensures Dot(a, Times(b, p, lo2, hi2), lo, hi) == Dot(LeftTimes(a, b, lo, hi), p, lo2, hi2)
    decreases hi - lo
  {
    if hi <= lo {
      DotIsZero(LeftTimes(a, b, lo, hi), p, lo2, hi2);
    } else {
      SumAssociates(a, b, p, lo, hi - 1, lo2, hi2);
      DotStep(a, Times(b, p, lo2, hi2), lo, hi);
      LeftTimesStep(a, b, lo, hi);
      DotLinear(LeftTimes(a, b, lo, hi), LeftTimes(a, b, lo, hi - 1), a(hi - 1), Row(b, hi - 1), p, lo2, hi2);
    }
  }

  lemma DotIsZero(f: int -> real, g: int -> real, lo: int, hi: int)
    requires forall k :: lo <= k < hi ==> f(k) == 0.0
    ensures Dot(f, g, lo, hi) == 0.0
  {
    SumZero(k => f(k) * g(k), lo, hi);
  }

  lemma DotOne(f: int -> real, g: int -> real, at: int, lo: int, hi: int)
    requires lo <= at < hi && forall k :: lo <= k < hi ==> f(k) == Delta(at, k)
    ensures Dot(f, g, lo, hi) == g(at)
  {
    SumOne(k => f(k) * g(k), at, lo, hi);
  }

  lemma DotIsZeroRight(f: int -> real, g: int -> real, lo: int, hi: int)
    requires forall k :: lo <= k < hi ==> g(k) == 0.0
    ensures Dot(f, g, lo, hi) == 0.0
  {
    SumZero(k => f(k) * g(k), lo, hi);
  }

  lemma DotSplit(f: int -> real, g: int -> real, lo: int, mid: int, hi: int)
    requires lo <= mid <= hi
    ensures Dot(f, g, lo, hi) == Dot(f, g, lo, mid) + Dot(f, g, mid, hi)
  {
    SumSplit(k => f(k) * g(k), lo, mid, hi);
  }

  /** A row that ends with the column `at`. */
  lemma DotUpTo(f: int -> real, g: int -> real, at: int, lo: int, hi: int)
    requires lo <= at < hi && forall k :: at < k < hi ==> f(k) == 0.0
    ensures Dot(f, g, lo, hi) == Dot(f, g, lo, at) + f(at) * g(at)
  {
    SumUpTo(k => f(k) * g(k), at, lo, hi);
  }

  /** A row that begins with the column `at`. */
  lemma DotFrom(f: int -> real, g: int -> real, at: int, lo: int, hi: int)
    requires lo <= at < hi && forall k :: lo <= k < at ==> f(k) == 0.0
    ensures Dot(f, g, lo, hi) == f(at) * g(at) + Dot(f, g, at + 1, hi)
  {
    DotSplit(f, g, lo, at, hi);
    DotSplit(f, g, at, at + 1, hi);
    DotIsZero(f, g, lo, at);
    DotStep(f, g, at, at + 1);
  }

  lemma {:induction false} DotMinus(f: int -> real, g: int -> real, h: int -> real, lo: int, hi: int)
    requires forall k :: lo <= k < hi ==> h(k) == -g(k)
    ensures Dot(f, h, lo, hi) == -Dot(f, g, lo, hi)
    decreases hi - lo
  {
    if lo < hi {
      DotMinus(f, g, h, lo, hi - 1);
      DotStep(f, g, lo, hi);
      DotStep(f, h, lo, hi);
    }
  }

  lemma MinusProduct(x: real, d: real, y: real)
    ensures x - d * y == x + -d * y
  {
  }

  /** A row that turns a matrix into a row of the identity minus `d` times a row of that matrix. */
  lemma RowOfInverse(a: int -> real, b: (int, int) -> real, p: int -> real, d: real, r: int, s: int, e: int)
    requires s <= r < e && forall m :: s <= m < e ==> Dot(a, Column(b, m), s, r) == Delta(r, m) - d * b(r, m)
    ensures Dot(a, Times(b, p, s, e), s, r) == p(r) - d * Dot(Row(b, r), p, s, e)
  {
    SumAssociates(a, b, p, s, r, s, e);
    IdentityMinusMultiple(LeftTimes(a, b, s, r), Row(b, r), p, d, r, s, e);
  }

  /** A row of the identity minus a multiple of another row, times a column. */
  lemma IdentityMinusMultiple(w: int -> real, f: int -> real, p: int -> real, d: real, r: int, s: int, e: int)
    requires s <= r < e && forall m :: s <= m < e ==> w(m) == Delta(r, m) - d * f(m)
    ensures Dot(w, p, s, e) == p(r) - d * Dot(f, p, s, e)
  {
    var id := (m: int) => Delta(r, m);
    forall m | s <= m < e ensures w(m) == id(m) + -d * f(m) { MinusProduct(id(m), d, f(m)); }
    DotLinear(w, id, -d, f, p, s, e);
    DotOne(id, p, r, s, e);
    MinusProduct(p(r), d, Dot(f, p, s, e));
  }
}
