/** The blocked inversion of a lower triangular matrix, in place on arrays. */
module BlockInversion {
  import opened Sums
  import opened Matrices
  import opened TriangularInverse

  ghost function Snapshot(a: array2<real>): (m: Matrix)
    reads a
    ensures |m| == a.Length0 && forall i :: 0 <= i < a.Length0 ==> |m[i]| == a.Length1
    ensures forall i, j :: 0 <= i < a.Length0 && 0 <= j < a.Length1 ==> At(m, i, j) == a[i, j]
  {
    seq(a.Length0, i requires 0 <= i < a.Length0 reads a =>
      seq(a.Length1, j requires 0 <= j < a.Length1 reads a => a[i, j]))
  }

  /** Two square matrices of the same size that do not share memory. */
  ghost predicate SameShape(L: array2<real>, x: array2<real>) {
    x != L && x.Length0 == x.Length1 == L.Length0 == L.Length1
  }

  /** The entries in rows `[s, e)` and columns `[cs, ce)` are those of the inverse. */
  ghost predicate BlockHolds(l: Matrix, x: array2<real>, s: int, e: int, cs: int, ce: int)
    reads x
  {
    && 0 <= s <= e <= x.Length0 && 0 <= cs <= ce <= x.Length1
    && forall r, c :: s <= r < e && cs <= c < ce ==> x[r, c] == Inverse(l, r, c)
  }

  twostate predicate OnlyBlockChanged(x: array2<real>, s: int, e: int, cs: int, ce: int)
    reads x
  {
    forall r, c :: 0 <= r < x.Length0 && 0 <= c < x.Length1 && !(s <= r < e && cs <= c < ce) ==> x[r, c] == old(x[r, c])
  }

  /** Rows from `s` on of the matrix times the columns from `cs` on of the inverse, up to `hi`. */
  ghost predicate Accumulated(l: Matrix, off: array2<real>, s: int, cs: int, hi: int)
    reads off
  {
    forall i, j :: 0 <= i < off.Length0 && 0 <= j < off.Length1 ==> off[i, j] == Partial(l, s + i, cs + j, cs + j, hi)
  }

  /** Row `r` of `a` times column `c` of `b`; the rows of `b` are counted from `shift`. */
  method RowTimesColumn(a: array2<real>, b: array2<real>, r: nat, c: nat, shift: nat, lo: nat, hi: nat,
                        ghost f: int -> real, ghost g: int -> real)
    returns (v: real)
    requires r < a.Length0 && c < b.Length1 && shift <= lo <= hi <= a.Length1 && hi - shift <= b.Length0
    requires forall k :: lo <= k < hi ==> a[r, k] == f(k)
    requires forall k :: lo <= k < hi ==> b[k - shift, c] == g(k)
    ensures v == Dot(f, g, lo, hi)
  {
    v := 0.0;
    for k := lo to hi
      invariant v == Dot(f, g, lo, k)
    {
      DotStep(f, g, lo, k + 1);
      v := v + a[r, k] * b[k - shift, c];
    }
  }

  /** Writes a part of a row. */
  method WriteRow(x: array2<real>, r: nat, cs: nat, row: seq<real>)
    requires r < x.Length0 && cs + |row| <= x.Length1
    modifies x
    ensures forall c :: cs <= c < cs + |row| ==> x[r, c] == row[c - cs]
    ensures OnlyBlockChanged(x, r, r + 1, cs, cs + |row|)
  {
    for j := 0 to |row|
      invariant forall c :: cs <= c < cs + j ==> x[r, c] == row[c - cs]
      invariant OnlyBlockChanged(x, r, r + 1, cs, cs + j)
    {
      x[r, cs + j] := row[j];
    }
  }

  // ----- diagonal blocks -----

  lemma Quotient(a: real, d: real, b: real)
    requires d != 0.0 && d * a == b
    ensures b / d == a
  {
  }

  lemma ForwardValue(l: Matrix, s: int, r: int, c: int, known: real)
    requires s <= r && s <= c && At(l, r, r) != 0.0 && known == Partial(l, r, c, s, r)
    ensures (Delta(r, c) - known) / At(l, r, r) == Inverse(l, r, c)
  {
    InverseSolvesFrom(l, s, r, c);
    Quotient(Inverse(l, r, c), At(l, r, r), Delta(r, c) - known);
  }

  /** One step of forward substitution. */
  method ForwardEntry(L: array2<real>, x: array2<real>, s: nat, r: nat, c: nat, ghost l: Matrix) returns (v: real)
    requires SameShape(L, x) && l == Snapshot(L) && s <= r < L.Length0 && s <= c < L.Length0 && L[r, r] != 0.0
    requires x[r, c] == Delta(r, c) && BlockHolds(l, x, s, r, c, c + 1)
    ensures v == Inverse(l, r, c)
  {
    var known := RowTimesColumn(L, x, r, c, 0, s, r, Row(Entries(l), r), Column(Inverses(l), c));
    ForwardValue(l, s, r, c, known);
    v := (x[r, c] - known) / L[r, r];
  }

  method SolveRow(L: array2<real>, x: array2<real>, s: nat, e: nat, r: nat, ghost l: Matrix) returns (row: seq<real>)
    requires SameShape(L, x) && l == Snapshot(L) && s <= r < e <= L.Length0 && L[r, r] != 0.0
    requires BlockHolds(l, x, s, r, s, e) && forall c :: s <= c < e ==> x[r, c] == Delta(r, c)
    ensures |row| == e - s && forall j :: 0 <= j < |row| ==> row[j] == Inverse(l, r, s + j)
  {
    row := [];
    for c := s to e
      invariant |row| == c - s && forall j :: 0 <= j < |row| ==> row[j] == Inverse(l, r, s + j)
    {
      var v := ForwardEntry(L, x, s, r, c, l);
      row := row + [v];
    }
  }

  /** Solves with the lower triangle of a diagonal block; the identity becomes its inverse. */
  method SolveInPlace(L: array2<real>, x: array2<real>, s: nat, e: nat, ghost l: Matrix)
    requires SameShape(L, x) && l == Snapshot(L) && s <= e <= L.Length0 && NonZeroDiagonal(l, L.Length0)
    requires forall r, c :: s <= r < e && s <= c < e ==> x[r, c] == Delta(r, c)
    modifies x
    ensures BlockHolds(l, x, s, e, s, e) && OnlyBlockChanged(x, s, e, s, e)
  {
    for r := s to e
      invariant BlockHolds(l, x, s, r, s, e) && OnlyBlockChanged(x, s, r, s, e)
    {
      var row := SolveRow(L, x, s, e, r, l);
      WriteRow(x, r, s, row);
    }
  }

  // ----- blocks left of the diagonal -----

  /** One entry of the product; `lo` skips what is zero in a diagonal block. */
  method ProductEntry(L: array2<real>, x: array2<real>, r: nat, c: nat, ks: nat, lo: nat, ke: nat,
                      ghost l: Matrix) returns (v: real)
    requires SameShape(L, x) && l == Snapshot(L) && (ks <= c == lo || c <= ks == lo) && lo <= ke <= r < L.Length0
    requires BlockHolds(l, x, lo, ke, c, c + 1)
    ensures v == Partial(l, r, c, c, ke) - Partial(l, r, c, c, ks)
  {
    v := RowTimesColumn(L, x, r, c, 0, lo, ke, Row(Entries(l), r), Column(Inverses(l), c));
    PartialSplit(l, r, c, c, lo, ke);
  }

  /** Row `r` of the matrix times the columns from `cs` on of the inverse, up to `hi`. */
  ghost predicate ProductRow(l: Matrix, row: seq<real>, r: int, cs: int, hi: int) {
    forall b :: 0 <= b < |row| ==> row[b] == Partial(l, r, cs + b, cs + b, hi)
  }

  method ReadRow(off: array2<real>, i: nat) returns (row: seq<real>)
    requires i < off.Length0
    ensures |row| == off.Length1 && forall b :: 0 <= b < |row| ==> row[b] == off[i, b]
  {
    row := [];
    for j := 0 to off.Length1
      invariant |row| == j && forall b :: 0 <= b < j ==> row[b] == off[i, b]
    {
      row := row + [off[i, j]];
    }
  }

  method AddProductRow(L: array2<real>, x: array2<real>, start: seq<real>, s: nat, cs: nat, ks: nat, ke: nat, i: nat,
                       ghost l: Matrix)
    returns (row: seq<real>)
    requires SameShape(L, x) && l == Snapshot(L) && s + i < L.Length0
    requires cs <= ks < ke <= s && cs + |start| <= ke && (ks == cs || cs + |start| <= ks)
    requires BlockHolds(l, x, ks, ke, cs, cs + |start|) && ProductRow(l, start, s + i, cs, ks)
    ensures |row| == |start| && ProductRow(l, row, s + i, cs, ke)
  {
    row := [];
    for j := 0 to |start|
      invariant |row| == j && ProductRow(l, row, s + i, cs, ke)
    {
      var sum := ProductEntry(L, x, s + i, cs + j, ks, if ks == cs then cs + j else ks, ke, l);
      row := row + [start[j] + sum];
    }
  }

  /** All rows hold what was accumulated up to `hi`. */
  ghost predicate ProductRows(l: Matrix, rows: seq<seq<real>>, width: nat, s: int, cs: int, hi: int) {
    forall a :: 0 <= a < |rows| ==> |rows[a]| == width && ProductRow(l, rows[a], s + a, cs, hi)
  }

  /** The sum of the accumulated block and the product of two further blocks. */
  method SumOfProduct(L: array2<real>, x: array2<real>, off: array2<real>, s: nat, cs: nat, ks: nat, ke: nat,
                      ghost l: Matrix)
    returns (rows: seq<seq<real>>)
    requires SameShape(L, x) && l == Snapshot(L)
    requires cs <= ks < ke <= s && cs + off.Length1 <= ke && s + off.Length0 <= L.Length0
    requires ks == cs || cs + off.Length1 <= ks
    requires BlockHolds(l, x, ks, ke, cs, cs + off.Length1) && Accumulated(l, off, s, cs, ks)
    ensures |rows| == off.Length0 && ProductRows(l, rows, off.Length1, s, cs, ke)
  {
    rows := [];
    for i := 0 to off.Length0
      invariant |rows| == i && ProductRows(l, rows, off.Length1, s, cs, ke)
    {
      var before := ReadRow(off, i);
      var row := AddProductRow(L, x, before, s, cs, ks, ke, i, l);
      rows := rows + [row];
    }
  }

  method WriteRows(off: array2<real>, rows: seq<seq<real>>)
    requires |rows| == off.Length0 && forall a :: 0 <= a < |rows| ==> |rows[a]| == off.Length1
    modifies off
    ensures forall a, b :: 0 <= a < off.Length0 && 0 <= b < off.Length1 ==> off[a, b] == rows[a][b]
  {
    for i := 0 to off.Length0
      invariant forall a, b :: 0 <= a < i && 0 <= b < off.Length1 ==> off[a, b] == rows[a][b]
    {
      WriteRow(off, i, 0, rows[i]);
    }
  }

  /** Adds the product of a block of the matrix and a block of the inverse, which is evaluated first; of a
      diagonal block only the lower triangle is read. */
  method AddBlockProduct(L: array2<real>, x: array2<real>, off: array2<real>, s: nat, cs: nat, ks: nat, ke: nat,
                         ghost l: Matrix)
    requires SameShape(L, x) && l == Snapshot(L) && off != L && off != x
    requires cs <= ks < ke <= s && cs + off.Length1 <= ke && s + off.Length0 <= L.Length0
    requires ks == cs || cs + off.Length1 <= ks
    requires BlockHolds(l, x, ks, ke, cs, cs + off.Length1) && Accumulated(l, off, s, cs, ks)
    modifies off
    ensures Accumulated(l, off, s, cs, ke)
  {
    var rows := SumOfProduct(L, x, off, s, cs, ks, ke, l);
    WriteRows(off, rows);
  }

  method MinusRowTimesColumn(x: array2<real>, off: array2<real>, s: nat, e: nat, cs: nat, r: nat, j: nat,
                             ghost l: Matrix)
    returns (v: real)
    requires off != x && cs + off.Length1 <= s <= r < e <= x.Length0 == x.Length1 && off.Length0 == e - s
    requires j < off.Length1
    requires forall i :: s <= i < e ==> At(l, i, i) != 0.0
    requires BlockHolds(l, x, s, e, s, e) && Accumulated(l, off, s, cs, s)
    ensures v == Inverse(l, r, cs + j)
  {
    var sum := RowTimesColumn(x, off, r, j, s, s, e, Row(Inverses(l), r), Remainder(l, cs + j, s));
    BlockFormula(l, s, e, r, cs + j);
    v := -sum;
  }

  method NegatedProductRow(x: array2<real>, off: array2<real>, s: nat, e: nat, cs: nat, r: nat,
                           ghost l: Matrix) returns (row: seq<real>)
    requires off != x && cs + off.Length1 <= s <= r < e <= x.Length0 == x.Length1 && off.Length0 == e - s
    requires forall i :: s <= i < e ==> At(l, i, i) != 0.0
    requires BlockHolds(l, x, s, e, s, e) && Accumulated(l, off, s, cs, s)
    ensures |row| == off.Length1 && forall j :: 0 <= j < |row| ==> row[j] == Inverse(l, r, cs + j)
  {
    row := [];
    for j := 0 to off.Length1
      invariant |row| == j && forall i :: 0 <= i < j ==> row[i] == Inverse(l, r, cs + i)
    {
      var v := MinusRowTimesColumn(x, off, s, e, cs, r, j, l);
      row := row + [v];
    }
  }

  /** Fills in minus the inverted diagonal block times the accumulated block. */
  method StoreOffDiagonal(x: array2<real>, off: array2<real>, s: nat, e: nat, cs: nat, ghost l: Matrix)
    requires off != x && cs + off.Length1 <= s <= e <= x.Length0 == x.Length1 && off.Length0 == e - s
    requires forall i :: s <= i < e ==> At(l, i, i) != 0.0
    requires BlockHolds(l, x, s, e, s, e) && Accumulated(l, off, s, cs, s)
    modifies x
    ensures BlockHolds(l, x, s, e, cs, cs + off.Length1) && OnlyBlockChanged(x, s, e, cs, cs + off.Length1)
  {
    for r := s to e
      invariant BlockHolds(l, x, s, r, cs, cs + off.Length1) && OnlyBlockChanged(x, s, r, cs, cs + off.Length1)
    {
      var row := NegatedProductRow(x, off, s, e, cs, r, l);
      WriteRow(x, r, cs, row);
    }
  }

  /** The heuristic for the block size. */
  method ChooseBlockSize(n: nat) returns (blockSize: nat)
    ensures 8 <= blockSize <= 128 && (blockSize == 8 || blockSize % 16 == 0)
    ensures n < 128 ==> blockSize == 8
    ensures 128 <= n < 1024 ==> blockSize == 16 * (n / 128)
    ensures n >= 1024 ==> blockSize == 128
  {
    blockSize := n / 8;
    blockSize := (blockSize / 16) * 16;
    if blockSize < 8 { blockSize := 8; }
    if blockSize > 128 { blockSize := 128; }
  }

  method InvertLowerTriangularBlockwise(L: array2<real>) returns (x: array2<real>)
    requires L.Length0 == L.Length1 && NonZeroDiagonal(Snapshot(L), L.Length0)
    ensures fresh(x) && SameShape(L, x)
    ensures Holds(Snapshot(L), Snapshot(x), L.Length0) && LowerTriangular(Snapshot(x), L.Length0)
    ensures LowerTriangular(Snapshot(L), L.Length0) ==>
              IsInverse(Snapshot(L), Snapshot(x), L.Length0) && IsInverse(Snapshot(x), Snapshot(L), L.Length0)
  {
    var blockSize := ChooseBlockSize(L.Length0);
    x := InvertWithBlocks(L, blockSize);
    ghost var l, y := Snapshot(L), Snapshot(x);
    if LowerTriangular(l, L.Length0) {
      RightInverse(l, y, L.Length0);
      LeftInverse(l, y, L.Length0);
    }
  }

  function Min(a: int, b: int): int { if a <= b then a else b }

  /** Finished rows, followed by rows of the identity. */
  ghost predicate Processed(l: Matrix, x: array2<real>, s: int)
    reads x
  {
    && BlockHolds(l, x, 0, s, 0, x.Length1)
    && forall r, c :: s <= r < x.Length0 && 0 <= c < x.Length1 ==> x[r, c] == Delta(r, c)
  }

  /** The rows of the current block `[s, e)` with columns before `done` finished, and the other rows. */
  ghost predicate InBlock(l: Matrix, x: array2<real>, s: int, e: int, done: int)
    reads x
  {
    && BlockHolds(l, x, 0, s, 0, x.Length1)
    && BlockHolds(l, x, s, e, 0, done) && BlockHolds(l, x, s, e, s, x.Length1)
    && forall r, c :: e <= r < x.Length0 && 0 <= c < x.Length1 ==> x[r, c] == Delta(r, c)
  }

  lemma NextBlock(j: nat, i: nat, blockSize: nat, n: nat)
    requires j < i
    ensures j * blockSize <= (j + 1) * blockSize == j * blockSize + blockSize <= i * blockSize
    ensures i * blockSize <= n ==> Min(j * blockSize + blockSize, n) == (j + 1) * blockSize
  {
  }

  lemma BlocksCover(i: nat, numBlocks: nat, blockSize: nat, n: nat)
    requires blockSize > 0 && numBlocks == (n + blockSize - 1) / blockSize
    ensures i < numBlocks ==> i * blockSize < n
    ensures numBlocks * blockSize >= n
  {
    if i < numBlocks { NextBlock(i, numBlocks, blockSize, n); }
  }

  /** The block that starts at `ks` lies between the one at `cs` and the one at `s`. */
  lemma BlockOrder(j: nat, k: nat, i: nat, blockSize: nat, cs: int, ks: int, s: int)
    requires j < k < i && blockSize > 0 && cs == j * blockSize && ks == k * blockSize && s == i * blockSize
    ensures cs + blockSize <= ks < ks + blockSize <= s && ks + blockSize == (k + 1) * blockSize
  {
    NextBlock(j, k, blockSize, s);
    NextBlock(k, i, blockSize, s);
  }

  /** Adds the products with the blocks between the one on the diagonal and the current row. */
  method Accumulate(L: array2<real>, x: array2<real>, off: array2<real>, blockSize: nat, i: nat, j: nat, s: nat,
                    cs: nat,
                    ghost l: Matrix)
    requires SameShape(L, x) && l == Snapshot(L) && off != L && off != x && blockSize > 0
    requires j < i && s == i * blockSize && cs == j * blockSize && cs + blockSize <= s
    requires off.Length1 == blockSize && s + off.Length0 <= L.Length0
    requires BlockHolds(l, x, 0, s, 0, L.Length0) && Accumulated(l, off, s, cs, cs + blockSize)
    modifies off
    ensures Accumulated(l, off, s, cs, s)
  {
    var ks := cs + blockSize;
    for k := j + 1 to i
      invariant ks == k * blockSize && Accumulated(l, off, s, cs, ks)
    {
      BlockOrder(j, k, i, blockSize, cs, ks, s);
      AddBlockProduct(L, x, off, s, cs, ks, Min(ks + blockSize, L.Length0), l);
      ks := ks + blockSize;
    }
  }

  /** One block of the inverse left of the diagonal block. */
  method OffDiagonalBlock(L: array2<real>, x: array2<real>, blockSize: nat, i: nat, j: nat, e: nat, ghost l: Matrix)
    requires SameShape(L, x) && l == Snapshot(L) && NonZeroDiagonal(l, L.Length0)
    requires j < i && i * blockSize < e <= L.Length0 && blockSize > 0
    requires InBlock(l, x, i * blockSize, e, j * blockSize)
    modifies x
    ensures InBlock(l, x, i * blockSize, e, (j + 1) * blockSize)
  {
    NextBlock(j, i, blockSize, L.Length0);
    var s, cs := i * blockSize, j * blockSize;
    var ce := Min(cs + blockSize, L.Length0);
    var off := new real[e - s, ce - cs]((r, c) => 0.0);
    AddBlockProduct(L, x, off, s, cs, cs, ce, l);
    Accumulate(L, x, off, blockSize, i, j, s, cs, l);
    StoreOffDiagonal(x, off, s, e, cs, l);
  }

  method InvertWithBlocks(L: array2<real>, blockSize: nat) returns (x: array2<real>)
    requires L.Length0 == L.Length1 && NonZeroDiagonal(Snapshot(L), L.Length0) && blockSize > 0
    ensures fresh(x) && SameShape(L, x) && BlockHolds(Snapshot(L), x, 0, L.Length0, 0, L.Length0)
  {
    var n := L.Length0;
    ghost var l := Snapshot(L);
    var numBlocks := (n + blockSize - 1) / blockSize;
    x := new real[n, n]((r, c) => if r == c then 1.0 else 0.0);
    for i := 0 to numBlocks
      invariant Processed(l, x, Min(i * blockSize, n))
    {
      BlocksCover(i, numBlocks, blockSize, n);
      var s := i * blockSize;
      var e := Min(s + blockSize, n);
      SolveInPlace(L, x, s, e, l);
      for j := 0 to i
        invariant InBlock(l, x, s, e, j * blockSize)
      {
        OffDiagonalBlock(L, x, blockSize, i, j, e, l);
      }
    }
    BlocksCover(numBlocks, numBlocks, blockSize, n);
  }
}
