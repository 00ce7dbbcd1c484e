/** Dense matrices of complex numbers and the numpy/scipy operations the block
    pipeline applies to them: 2-D slicing, `@`, `.T`, `block_diag`, the spin
    reshape, `.real` and the negligibility test `abs(m).max() < 1e-10`.
    Real (float32) matrices are the ones whose entries have a zero imaginary part. */
module Matrices {
  import opened Text

  datatype Complex = Complex(re: real, im: real)

  const Zero: Complex := Complex(0.0, 0.0)
  const One: Complex := Complex(1.0, 0.0)

  function Add(a: Complex, b: Complex): Complex { Complex(a.re + b.re, a.im + b.im) }

  function Minus(a: Complex, b: Complex): Complex { Complex(a.re - b.re, a.im - b.im) }

  function Mul(a: Complex, b: Complex): Complex
  {
    Complex(a.re * b.re - a.im * b.im, a.re * b.im + a.im * b.re)
  }

  function Scale(a: Complex, k: real): Complex { Complex(a.re * k, a.im * k) }

  /** `abs(z) ** 2` */
  function Modulus2(z: Complex): real { z.re * z.re + z.im * z.im }

  /** The negligibility threshold 1e-10 of the block filter. */
  const Threshold: real := 0.0000000001

  /** `abs(z) < 1e-10`, compared on squares. */
  predicate Negligible(z: Complex) { Modulus2(z) < Threshold * Threshold }

  /** For a real entry the squared test is exactly `abs(x) < 1e-10`. */
  lemma {:induction false} NegligibleReal(x: real)
    ensures Negligible(Complex(x, 0.0)) <==> -Threshold < x < Threshold
  {
    var t := Threshold;
    assert Modulus2(Complex(x, 0.0)) == x * x;
    if x >= t {
      assert x * x >= t * x >= t * t;
    } else if x <= -t {
      assert x * x == (-x) * (-x);
      assert (-x) * (-x) >= t * (-x) >= t * t;
    } else if x >= 0.0 {
      assert x * x <= x * t;
      assert x * t < t * t;
    } else {
      var y := -x;
      assert x * x == y * y;
      assert y * y <= y * t;
      assert y * t < t * t;
    }
  }

  /** A rows × cols array of entries, row-major. */
  datatype DenseArray = Dense(rows: nat, cols: nat, e: seq<seq<Complex>>) {
    predicate Shaped() {
      |e| == rows && forall i :: 0 <= i < rows ==> |e[i]| == cols
    }
  }

  type Matrix = m: DenseArray | m.Shaped() witness Dense(0, 0, [])

  /** Two matrices with the same shape and the same entries are equal. */
  lemma {:induction false} Extensionality(a: Matrix, b: Matrix)
    requires a.rows == b.rows && a.cols == b.cols
    requires forall i, j :: 0 <= i < a.rows && 0 <= j < a.cols ==> a.e[i][j] == b.e[i][j]
    ensures a == b
  {
    forall i | 0 <= i < a.rows
      ensures a.e[i] == b.e[i]
    {
      assert forall j :: 0 <= j < a.cols ==> a.e[i][j] == b.e[i][j];
    }
    assert a.e == b.e;
  }

  /** Every entry is negligible: `abs(m).max() < 1e-10` on a non-empty `m`. */
  predicate AllNegligible(m: Matrix)
  {
    forall i, j :: 0 <= i < m.rows && 0 <= j < m.cols ==> Negligible(m.e[i][j])
  }

  function Column(m: Matrix, j: nat): (c: seq<Complex>)
    requires j < m.cols
    ensures |c| == m.rows && forall k :: 0 <= k < m.rows ==> c[k] == m.e[k][j]
  {
    seq(m.rows, k requires 0 <= k < m.rows => m.e[k][j])
  }

  function Dot(u: seq<Complex>, v: seq<Complex>): Complex
    requires |u| == |v|
  {
    if u == [] then Zero else Add(Mul(u[0], v[0]), Dot(u[1..], v[1..]))
  }

  /** `a @ b` */
  function MatMul(a: Matrix, b: Matrix): (r: Matrix)
    requires a.cols == b.rows
    ensures r.rows == a.rows && r.cols == b.cols
    ensures forall i, j :: 0 <= i < a.rows && 0 <= j < b.cols ==> r.e[i][j] == Dot(a.e[i], Column(b, j))
  {
    Dense(a.rows, b.cols, seq(a.rows, i requires 0 <= i < a.rows =>
      seq(b.cols, j requires 0 <= j < b.cols => Dot(a.e[i], Column(b, j)))))
  }

  /** `m.T` */
  function Transpose(m: Matrix): (r: Matrix)
    ensures r.rows == m.cols && r.cols == m.rows
    ensures forall i, j :: 0 <= i < m.cols && 0 <= j < m.rows ==> r.e[i][j] == m.e[j][i]
  {
    Dense(m.cols, m.rows, seq(m.cols, i requires 0 <= i < m.cols =>
      seq(m.rows, j requires 0 <= j < m.rows => m.e[j][i])))
  }

  /** `m * k` for a real scalar `k`. */
  function ScaleBy(m: Matrix, k: real): (r: Matrix)
    ensures r.rows == m.rows && r.cols == m.cols
    ensures forall i, j :: 0 <= i < m.rows && 0 <= j < m.cols ==> r.e[i][j] == Scale(m.e[i][j], k)
  {
    Dense(m.rows, m.cols, seq(m.rows, i requires 0 <= i < m.rows =>
      seq(m.cols, j requires 0 <= j < m.cols => Scale(m.e[i][j], k))))
  }

  /** `a - b` for two arrays of one shape. */
  function Difference(a: Matrix, b: Matrix): (r: Matrix)
    requires a.rows == b.rows && a.cols == b.cols
    ensures r.rows == a.rows && r.cols == a.cols
    ensures forall i, j :: 0 <= i < a.rows && 0 <= j < a.cols ==> r.e[i][j] == Minus(a.e[i][j], b.e[i][j])
  {
    Dense(a.rows, a.cols, seq(a.rows, i requires 0 <= i < a.rows =>
      seq(a.cols, j requires 0 <= j < a.cols => Minus(a.e[i][j], b.e[i][j]))))
  }

  /** `m[r0:r1, c0:c1]`, each axis bounded as Python slices are. */
  function Block(m: Matrix, r0: int, r1: int, c0: int, c1: int): (b: Matrix)
    ensures 0 <= r0 <= r1 <= m.rows && 0 <= c0 <= c1 <= m.cols ==>
              b.rows == r1 - r0 && b.cols == c1 - c0
              && forall i, j :: 0 <= i < b.rows && 0 <= j < b.cols ==> b.e[i][j] == m.e[r0 + i][c0 + j]
  {
    var top, bottom := Bound(r0, m.rows), Bound(r1, m.rows);
    var left, right := Bound(c0, m.cols), Bound(c1, m.cols);
    var nr: nat := if top <= bottom then bottom - top else 0;
    var nc: nat := if left <= right then right - left else 0;
    Dense(nr, nc, seq(nr, i requires 0 <= i < nr =>
      seq(nc, j requires 0 <= j < nc => m.e[top + i][left + j])))
  }

  lemma BlockEntries(m: Matrix, r0: int, r1: int, c0: int, c1: int)
    requires 0 <= r0 <= r1 <= m.rows && 0 <= c0 <= c1 <= m.cols
    ensures var b := Block(m, r0, r1, c0, c1);
      && b.rows == r1 - r0 && b.cols == c1 - c0
      && forall x, y :: 0 <= x < b.rows && 0 <= y < b.cols ==> b.e[x][y] == m.e[r0 + x][c0 + y]
  {
  }

  /** `m[:m.shape[0] // 2, :m.shape[1] // 2].real` */
  function RealTopLeft(m: Matrix): (r: Matrix)
    ensures r.rows == m.rows / 2 && r.cols == m.cols / 2
    ensures forall i, j :: 0 <= i < r.rows && 0 <= j < r.cols ==> r.e[i][j] == Complex(m.e[i][j].re, 0.0)
  {
    var nr, nc := m.rows / 2, m.cols / 2;
    Dense(nr, nc, seq(nr, i requires 0 <= i < nr =>
      seq(nc, j requires 0 <= j < nc => Complex(m.e[i][j].re, 0.0))))
  }

  function Identity(n: nat): (r: Matrix)
    ensures r.rows == n && r.cols == n
  {
    Dense(n, n, seq(n, i requires 0 <= i < n => UnitRow(n, i)))
  }

  function UnitRow(n: nat, i: nat): (u: seq<Complex>)
    ensures |u| == n
  {
    seq(n, k => if k == i then One else Zero)
  }

  lemma {:induction false} ZeroTerm(z: Complex, w: Complex)
    ensures Add(Mul(Zero, z), w) == w && Add(Mul(z, Zero), w) == w
  {
  }

  lemma {:induction false} DotZeroLeft(u: seq<Complex>, v: seq<Complex>)
    requires |u| == |v| && forall k :: 0 <= k < |u| ==> u[k] == Zero
    ensures Dot(u, v) == Zero
  {
    if u != [] {
      DotZeroLeft(u[1..], v[1..]);
      assert u[0] == Zero;
      ZeroTerm(v[0], Dot(u[1..], v[1..]));
    }
  }

  lemma {:induction false} DotZeroRight(u: seq<Complex>, v: seq<Complex>)
    requires |u| == |v| && forall k :: 0 <= k < |v| ==> v[k] == Zero
    ensures Dot(u, v) == Zero
  {
    if u != [] {
      DotZeroRight(u[1..], v[1..]);
      assert v[0] == Zero;
      ZeroTerm(u[0], Dot(u[1..], v[1..]));
    }
  }

  /** A unit row picks one entry of the other operand. */
  lemma {:induction false} DotUnit(v: seq<Complex>, i: nat)
    requires i < |v|
    ensures Dot(UnitRow(|v|, i), v) == v[i]
    ensures Dot(v, UnitRow(|v|, i)) == v[i]
  {
    var u := UnitRow(|v|, i);
    if i == 0 {
      DotZeroLeft(u[1..], v[1..]);
      DotZeroRight(v[1..], u[1..]);
    } else {
      assert u[1..] == UnitRow(|v| - 1, i - 1);
      DotUnit(v[1..], i - 1);
    }
  }

  lemma {:induction false} DotComm(u: seq<Complex>, v: seq<Complex>)
    requires |u| == |v|
    ensures Dot(u, v) == Dot(v, u)
  {
    if u != [] {
      DotComm(u[1..], v[1..]);
    }
  }

  lemma SliceAfterHead<T>(u: seq<T>, s: nat, n: nat)
    requires 0 < s && s + n <= |u|
    ensures u[1..][s - 1..s - 1 + n] == u[s..s + n]
  {
    var a, b := u[1..][s - 1..s - 1 + n], u[s..s + n];
    forall k | 0 <= k < n
      ensures a[k] == b[k]
    {
      assert a[k] == u[1..][s - 1 + k] == u[s + k];
    }
  }

  /** A zero head does not contribute, so the window [s, s + n) moves one step left
      on the tails. */
  lemma DotShiftStep(u: seq<Complex>, v: seq<Complex>, s: nat, n: nat)
    requires |u| == |v| && 0 < s && s + n <= |u| && u[0] == Zero
    requires Dot(u[1..], v[1..]) == Dot(u[1..][s - 1..s - 1 + n], v[1..][s - 1..s - 1 + n])
    ensures Dot(u, v) == Dot(u[s..s + n], v[s..s + n])
  {
    SliceAfterHead(u, s, n);
    SliceAfterHead(v, s, n);
    ZeroTerm(v[0], Dot(u[1..], v[1..]));
  }

  /** A window starting at 0 keeps the head and continues on the tails. */
  lemma DotTakeStep(u: seq<Complex>, v: seq<Complex>, n: nat)
    requires |u| == |v| && 0 < n <= |u|
    requires Dot(u[1..], v[1..]) == Dot(u[1..][..n - 1], v[1..][..n - 1])
    ensures Dot(u, v) == Dot(u[..n], v[..n])
  {
    assert u[..n][1..] == u[1..][..n - 1] && u[..n][0] == u[0];
    assert v[..n][1..] == v[1..][..n - 1] && v[..n][0] == v[0];
  }

  /** Only the entries of `u` inside [s, s + n) contribute to a dot product. */
  lemma {:induction false} DotSupported(u: seq<Complex>, v: seq<Complex>, s: nat, n: nat)
    requires |u| == |v| && s + n <= |u|
    requires forall k :: 0 <= k < |u| && !(s <= k < s + n) ==> u[k] == Zero
    ensures Dot(u, v) == Dot(u[s..s + n], v[s..s + n])
  {
    if s > 0 {
      DotSupported(u[1..], v[1..], s - 1, n);
      DotShiftStep(u, v, s, n);
    } else if n == 0 {
      DotZeroLeft(u, v);
    } else {
      DotSupported(u[1..], v[1..], 0, n - 1);
      DotTakeStep(u, v, n);
    }
  }

  /** A dot product with a placed row reads only the columns under the row. */
  lemma {:induction false} DotPlaced(row: seq<Complex>, offset: nat, v: seq<Complex>)
    requires offset + |row| <= |v|
    ensures Dot(Placed(row, offset, |v|), v) == Dot(row, v[offset..offset + |row|])
  {
    var u := Placed(row, offset, |v|);
    PlacedSupport(row, offset, |v|);
    DotSupported(u, v, offset, |row|);
  }

  /** A placed row is zero outside its columns and is the row within them. */
  lemma PlacedSupport(row: seq<Complex>, offset: nat, n: nat)
    requires offset + |row| <= n
    ensures forall k :: 0 <= k < n && !(offset <= k < offset + |row|) ==> Placed(row, offset, n)[k] == Zero
    ensures Placed(row, offset, n)[offset..offset + |row|] == row
  {
    var u := Placed(row, offset, n);
    assert forall k :: 0 <= k < |row| ==> u[offset + k] == row[k];
  }

  lemma {:induction false} DotPlacedRight(row: seq<Complex>, offset: nat, v: seq<Complex>)
    requires offset + |row| <= |v|
    ensures Dot(v, Placed(row, offset, |v|)) == Dot(v[offset..offset + |row|], row)
  {
    DotPlaced(row, offset, v);
    DotComm(Placed(row, offset, |v|), v);
    DotComm(row, v[offset..offset + |row|]);
  }

  /** Entry (i, j) of `a @ b.T` pairs row i of `a` with row j of `b`. */
  lemma {:induction false} MatMulTransposeEntry(a: Matrix, b: Matrix, i: nat, j: nat)
    requires a.cols == b.cols && i < a.rows && j < b.rows
    ensures MatMul(a, Transpose(b)).e[i][j] == Dot(a.e[i], b.e[j])
  {
    assert Column(Transpose(b), j) == b.e[j];
  }

  /** A row of `bl` that is row x of `fp` placed at column `oL`, times `m`, gives over
      columns [oR, oR + w) row x of `fp @ m[oL:oL + fp.cols, oR:oR + w]`. */
  lemma {:induction false} PlacedRowTimes(bl: Matrix, m: Matrix, fp: Matrix, i: nat, x: nat, oL: nat, oR: nat, w: nat)
    requires bl.cols == m.rows && i < bl.rows && x < fp.rows
    requires bl.e[i] == Placed(fp.e[x], oL, m.rows)
    requires oL + fp.cols <= m.rows && oR + w <= m.cols
    ensures MatMul(bl, m).e[i][oR..oR + w] == MatMul(fp, Block(m, oL, oL + fp.cols, oR, oR + w)).e[x]
  {
    var sub := Block(m, oL, oL + fp.cols, oR, oR + w);
    var a, b := MatMul(bl, m), MatMul(fp, sub);
    forall v | 0 <= v < w
      ensures a.e[i][oR + v] == b.e[x][v]
    {
      PlacedRowTimesEntry(bl, m, fp, i, x, oL, oR, w, v);
    }
  }

  /** Column v of the block m[r0:r1, c0:c1] is column c0 + v of `m` cut to the
      rows [r0, r1). */
  lemma ColumnOfBlock(m: Matrix, r0: nat, r1: nat, c0: nat, c1: nat, v: nat)
    requires r0 <= r1 <= m.rows && c0 + v < c1 <= m.cols
    ensures Column(Block(m, r0, r1, c0, c1), v) == Column(m, c0 + v)[r0..r1]
  {
    var b := Block(m, r0, r1, c0, c1);
    assert forall k :: 0 <= k < r1 - r0 ==> b.e[k][v] == m.e[r0 + k][c0 + v];
  }

  lemma {:induction false} PlacedRowTimesEntry(bl: Matrix, m: Matrix, fp: Matrix, i: nat, x: nat, oL: nat, oR: nat, w: nat, v: nat)
    requires bl.cols == m.rows && i < bl.rows && x < fp.rows
    requires bl.e[i] == Placed(fp.e[x], oL, m.rows)
    requires oL + fp.cols <= m.rows && oR + w <= m.cols && v < w
    ensures MatMul(bl, m).e[i][oR + v] == MatMul(fp, Block(m, oL, oL + fp.cols, oR, oR + w)).e[x][v]
  {
    PlacedRowTimesColumn(bl, m, fp.e[x], i, oL, oR + v);
    ColumnOfBlock(m, oL, oL + fp.cols, oR, oR + w, v);
  }

  /** A row placed at column `oL` meets only the rows [oL, oL + |row|) of a column. */
  lemma PlacedRowTimesColumn(bl: Matrix, m: Matrix, row: seq<Complex>, i: nat, oL: nat, j: nat)
    requires bl.cols == m.rows && i < bl.rows && j < m.cols
    requires bl.e[i] == Placed(row, oL, m.rows) && oL + |row| <= m.rows
    ensures MatMul(bl, m).e[i][j] == Dot(row, Column(m, j)[oL..oL + |row|])
  {
    DotPlaced(row, oL, Column(m, j));
  }

  /** Against a row of `br` that is row y of `fq` placed at column `oR`, a row of `a`
      meets only its entries under that placement. */
  lemma {:induction false} TimesPlacedRow(a: Matrix, br: Matrix, fq: Matrix, i: nat, j: nat, y: nat, oR: nat)
    requires a.cols == br.cols && i < a.rows && j < br.rows && y < fq.rows
    requires br.e[j] == Placed(fq.e[y], oR, br.cols)
    requires oR + fq.cols <= a.cols
    ensures MatMul(a, Transpose(br)).e[i][j] == Dot(a.e[i][oR..oR + fq.cols], fq.e[y])
  {
    MatMulTransposeEntry(a, br, i, j);
    assert |fq.e[y]| == fq.cols;
    DotPlacedRight(fq.e[y], oR, a.e[i]);
  }
  /** When row i of `a`, read over the columns [oR, oR + fq.cols) under row j of `br`
      (row y of `fq` placed at column oR), is row x of `b`, entry (i, j) of `a @ br.T`
      is entry (x, y) of `b @ fq.T`. */
  lemma {:induction false} TimesPlacedEntry(a: Matrix, br: Matrix, fq: Matrix, b: Matrix, i: nat, j: nat, x: nat, y: nat, oR: nat)
    requires a.cols == br.cols && i < a.rows && j < br.rows && y < fq.rows
    requires br.e[j] == Placed(fq.e[y], oR, br.cols)
    requires oR + fq.cols <= a.cols
    requires b.cols == fq.cols && x < b.rows && a.e[i][oR..oR + fq.cols] == b.e[x]
    ensures MatMul(a, Transpose(br)).e[i][j] == MatMul(b, Transpose(fq)).e[x][y]
  {
    TimesPlacedRow(a, br, fq, i, j, y, oR);
    MatMulTransposeEntry(b, fq, x, y);
  }

  /** Between a left operand whose row oL + x is row x of `fp` placed at column oL
      and a right operand whose row oR + y is row y of `fq` placed at column oR,
      entry (oL + x, oR + y) of `bl @ m @ br.T` is entry (x, y) of
      `fp @ m[oL:oL + fp.cols, oR:oR + fq.cols] @ fq.T`. */
  lemma BlockOfProduct(bl: Matrix, m: Matrix, br: Matrix, fp: Matrix, fq: Matrix,
                        oL: int, eL: int, oR: int, eR: int, x: int, y: int)
    requires bl.cols == m.rows && br.cols == m.cols
    requires eL == oL + fp.cols && eR == oR + fq.cols
    requires RowPlaced(bl, fp, oL, x) && RowPlaced(br, fq, oR, y)
    ensures MatMul(MatMul(bl, m), Transpose(br)).e[oL + x][oR + y]
            == MatMul(MatMul(fp, Block(m, oL, eL, oR, eR)), Transpose(fq)).e[x][y]
  {
    var a := MatMul(bl, m);
    var b := MatMul(fp, Block(m, oL, eL, oR, eR));
    PlacedRowTimes(bl, m, fp, oL + x, x, oL, oR, fq.cols);
    assert a.e[oL + x][oR..oR + fq.cols] == b.e[x];
    TimesPlacedEntry(a, br, fq, b, oL + x, oR + y, x, y, oR);
  }

  lemma {:induction false} MatMulIdentityLeft(m: Matrix)
    ensures MatMul(Identity(m.rows), m) == m
  {
    var r := MatMul(Identity(m.rows), m);
    forall i, j | 0 <= i < m.rows && 0 <= j < m.cols
      ensures r.e[i][j] == m.e[i][j]
    {
      DotUnit(Column(m, j), i);
    }
    Extensionality(r, m);
  }

  lemma {:induction false} MatMulIdentityRight(m: Matrix)
    ensures MatMul(m, Transpose(Identity(m.cols))) == m
  {
    var t := Transpose(Identity(m.cols));
    assert t == Identity(m.cols) by {
      Extensionality(t, Identity(m.cols));
    }
    var r := MatMul(m, t);
    forall i, j | 0 <= i < m.rows && 0 <= j < m.cols
      ensures r.e[i][j] == m.e[i][j]
    {
      assert Column(t, j) == UnitRow(m.cols, j);
      DotUnit(m.e[i], j);
    }
    Extensionality(r, m);
  }

  function RowsBefore(fs: seq<Matrix>, k: nat): nat
    requires k <= |fs|
  {
    if k == 0 then 0 else fs[0].rows + RowsBefore(fs[1..], k - 1)
  }

  function ColsBefore(fs: seq<Matrix>, k: nat): nat
    requires k <= |fs|
  {
    if k == 0 then 0 else fs[0].cols + ColsBefore(fs[1..], k - 1)
  }

  /** Entry (i, j) of the factors laid along the diagonal: the first factor
      top-left, the others below and to the right of it, zeros elsewhere. */
  function DiagEntry(fs: seq<Matrix>, i: nat, j: nat): Complex
  {
    if fs == [] then Zero
    else if i < fs[0].rows && j < fs[0].cols then fs[0].e[i][j]
    else if i >= fs[0].rows && j >= fs[0].cols then DiagEntry(fs[1..], i - fs[0].rows, j - fs[0].cols)
    else Zero
  }

  /** The factors laid along the diagonal, top-left first. */
  function Stack(fs: seq<Matrix>): (r: Matrix)
    ensures r.rows == RowsBefore(fs, |fs|) && r.cols == ColsBefore(fs, |fs|)
    ensures forall i, j :: 0 <= i < r.rows && 0 <= j < r.cols ==> r.e[i][j] == DiagEntry(fs, i, j)
  {
    var nr, nc := RowsBefore(fs, |fs|), ColsBefore(fs, |fs|);
    Dense(nr, nc, seq(nr, i requires 0 <= i < nr => seq(nc, j requires 0 <= j < nc => DiagEntry(fs, i, j))))
  }

  /** `scipy.linalg.block_diag(*fs)`; with no factor scipy returns a 1 × 0 array. */
  function BlockDiag(fs: seq<Matrix>): Matrix
  {
    if fs == [] then Dense(1, 0, [[]]) else Stack(fs)
  }

  lemma {:induction false} RowsBeforeGrows(fs: seq<Matrix>, k: nat, x: nat)
    requires k < |fs| && x < fs[k].rows
    ensures RowsBefore(fs, k) + x < RowsBefore(fs, |fs|)
  {
    if k > 0 {
      RowsBeforeGrows(fs[1..], k - 1, x);
    } else if |fs| > 1 {
      assert RowsBefore(fs, |fs|) == fs[0].rows + RowsBefore(fs[1..], |fs| - 1);
    }
  }

  lemma {:induction false} ColsBeforeGrows(fs: seq<Matrix>, k: nat, y: nat)
    requires k < |fs| && y < fs[k].cols
    ensures ColsBefore(fs, k) + y < ColsBefore(fs, |fs|)
  {
    if k > 0 {
      ColsBeforeGrows(fs[1..], k - 1, y);
    } else if |fs| > 1 {
      assert ColsBefore(fs, |fs|) == fs[0].cols + ColsBefore(fs[1..], |fs| - 1);
    }
  }

  /** Row x of factor p runs through the diagonal at the offsets of the factors
      before it; the rest of that row is zero. */
  lemma {:induction false} DiagRow(fs: seq<Matrix>, p: nat, x: nat, c: nat)
    requires p < |fs| && x < fs[p].rows
    ensures DiagEntry(fs, RowsBefore(fs, p) + x, c)
            == if ColsBefore(fs, p) <= c < ColsBefore(fs, p) + fs[p].cols
               then fs[p].e[x][c - ColsBefore(fs, p)] else Zero
  {
    if p > 0 {
      assert fs[1..][p - 1] == fs[p];
      if c >= fs[0].cols {
        DiagRow(fs[1..], p - 1, x, c - fs[0].cols);
      }
    }
  }

  /** `row` placed at column `offset` of an otherwise zero row of length `n`. */
  function Placed(row: seq<Complex>, offset: nat, n: nat): (r: seq<Complex>)
    ensures |r| == n
  {
    seq(n, c requires 0 <= c < n => if offset <= c < offset + |row| then row[c - offset] else Zero)
  }

  /** Row o + x of `big` is row x of `small` placed at column o, and the columns of
      `small` fit inside those of `big`. */
  ghost predicate RowPlaced(big: Matrix, small: Matrix, o: int, x: int)
  {
    0 <= x < small.rows && 0 <= o && o + x < big.rows && o + small.cols <= big.cols
    && big.e[o + x] == Placed(small.e[x], o, big.cols)
  }

  /** `block_diag(*fs)`: row x of factor p is zero except for the columns of
      factor p, where it is row x of that factor. */
  lemma {:induction false} StackRow(fs: seq<Matrix>, p: nat, x: nat)
    requires p < |fs| && x < fs[p].rows
    ensures RowsBefore(fs, p) + x < Stack(fs).rows
    ensures ColsBefore(fs, p) + fs[p].cols <= Stack(fs).cols
    ensures Stack(fs).e[RowsBefore(fs, p) + x] == Placed(fs[p].e[x], ColsBefore(fs, p), Stack(fs).cols)
  {
    RowsBeforeGrows(fs, p, x);
    ColsBeforeBound(fs, p);
    var row := Stack(fs).e[RowsBefore(fs, p) + x];
    forall c | 0 <= c < |row|
      ensures row[c] == Placed(fs[p].e[x], ColsBefore(fs, p), Stack(fs).cols)[c]
    {
      DiagRow(fs, p, x, c);
    }
  }

  lemma {:induction false} ColsBeforeBound(fs: seq<Matrix>, p: nat)
    requires p < |fs|
    ensures ColsBefore(fs, p) + fs[p].cols <= ColsBefore(fs, |fs|)
  {
    if p > 0 {
      assert fs[1..][p - 1] == fs[p];
      ColsBeforeBound(fs[1..], p - 1);
    } else if |fs| > 1 {
      assert ColsBefore(fs, |fs|) == fs[0].cols + ColsBefore(fs[1..], |fs| - 1);
    }
  }

  lemma {:induction false} DiagOfUnits(fs: seq<Matrix>, i: nat, j: nat)
    requires forall k :: 0 <= k < |fs| ==> fs[k] == Identity(1)
    requires i < |fs| && j < |fs|
    ensures RowsBefore(fs, |fs|) == |fs| && ColsBefore(fs, |fs|) == |fs|
    ensures DiagEntry(fs, i, j) == if i == j then One else Zero
  {
    assert fs[0].rows == 1 && fs[0].cols == 1;
    if |fs| > 1 {
      DiagOfUnits(fs[1..], if i == 0 then 0 else i - 1, if j == 0 then 0 else j - 1);
    }
    if i == 0 && j == 0 {
      assert fs[0].e[0] == UnitRow(1, 0);
    }
  }

  /** `block_diag` of n copies of the 1 × 1 identity is the n × n identity. */
  lemma {:induction false} StackOfUnits(fs: seq<Matrix>)
    requires forall k :: 0 <= k < |fs| ==> fs[k] == Identity(1)
    ensures Stack(fs) == Identity(|fs|)
  {
    var s, n := Stack(fs), |fs|;
    if n > 0 {
      DiagOfUnits(fs, 0, 0);
      forall i, j | 0 <= i < n && 0 <= j < n
        ensures s.e[i][j] == Identity(n).e[i][j]
      {
        DiagOfUnits(fs, i, j);
        assert Identity(n).e[i] == UnitRow(n, i);
      }
      Extensionality(s, Identity(n));
    }
  }

  /** Entry `f` of the array read in C order. */
  function Flat(m: Matrix, f: nat): Complex
    requires f < m.rows * m.cols
  {
    FlatIndexInRange(m.rows, m.cols, f);
    m.e[f / m.cols][f % m.cols]
  }

  lemma {:induction false} MulLowerBound(k: int, d: nat)
    ensures k >= 1 ==> k * d >= d
  {
    if k >= 1 {
      assert k * d == (k - 1) * d + d;
    }
  }

  lemma {:induction false} MulMonotone(a: nat, b: nat, c: nat)
    requires a <= b
    ensures a * c <= b * c
  {
    assert b * c == a * c + (b - a) * c;
  }

  lemma {:induction false} FlatIndexInRange(rows: nat, cols: nat, f: nat)
    requires f < rows * cols
    ensures cols > 0 && f / cols < rows && f % cols < cols
  {
    assert cols == 0 ==> rows * cols == 0;
    var q := f / cols;
    assert q * cols <= f;
    if q >= rows {
      MulMonotone(rows, q, cols);
    }
  }

  /** `(q * d + r) / d == q` and `(q * d + r) % d == r` for `0 <= r < d`. */
  lemma {:induction false} DivModOf(q: nat, d: nat, r: nat)
    requires r < d
    ensures (q * d + r) / d == q && (q * d + r) % d == r
  {
    var x := q * d + r;
    var q', r' := x / d, x % d;
    assert x == q' * d + r';
    var k := q' - q;
    assert k * d == q' * d - q * d;
    assert k * d == r - r';
    MulLowerBound(k, d);
    MulLowerBound(-k, d);
    assert (-k) * d == -(k * d);
  }

  /** An index below 2n splits into a half (0 or 1) and an offset below n. */
  lemma {:induction false} HalfIndex(x: nat, n: nat)
    requires x < 2 * n
    ensures n > 0 && x / n < 2 && x % n < n && x == (x / n) * n + x % n
  {
    var h := x / n;
    MulLowerBound(h - 1, n);
    assert h * n == (h - 1) * n + n;
  }

  lemma {:induction false} SpinIndexInRange(a: nat, s: nat, b: nat, t: nat, ni: nat, nj: nat)
    requires a < ni && s < 2 && b < nj && t < 2
    ensures (2 * a + s) * (2 * nj) + 2 * b + t < 4 * ni * nj
  {
    MulMonotone(2 * a + s + 1, 2 * ni, 2 * nj);
    assert (2 * a + s + 1) * (2 * nj) == (2 * a + s) * (2 * nj) + 2 * nj;
    assert (2 * ni) * (2 * nj) == 4 * ni * nj;
  }

  /** Where entry (x, y) of the spin-major array comes from in the C-order
      reading of the orbital-major one. */
  function SpinSource(x: nat, y: nat, ni: nat, nj: nat): (f: nat)
    requires x < 2 * ni && y < 2 * nj
    ensures f < 4 * ni * nj
  {
    HalfIndex(x, ni);
    HalfIndex(y, nj);
    SpinIndexInRange(x % ni, x / ni, y % nj, y / nj, ni, nj);
    (2 * (x % ni) + x / ni) * (2 * nj) + 2 * (y % nj) + y / nj
  }

  /** `m.reshape((ni, 2, nj, 2)).transpose((1, 0, 3, 2)).reshape((2 * ni, 2 * nj))`:
      orbital-major, spin-minor indices become spin-major, orbital-minor. */
  function SpinMajor(m: Matrix, ni: nat, nj: nat): (r: Matrix)
    requires m.rows * m.cols == 4 * ni * nj
    ensures r.rows == 2 * ni && r.cols == 2 * nj
    ensures forall x, y :: 0 <= x < 2 * ni && 0 <= y < 2 * nj ==> r.e[x][y] == Flat(m, SpinSource(x, y, ni, nj))
  {
    Dense(2 * ni, 2 * nj, seq(2 * ni, x requires 0 <= x < 2 * ni =>
      seq(2 * nj, y requires 0 <= y < 2 * nj => Flat(m, SpinSource(x, y, ni, nj)))))
  }

  /** Entry (q, r) of `m` is entry `q * cols + r` of its C-order reading. */
  lemma {:induction false} FlatAt(m: Matrix, q: nat, r: nat)
    requires q < m.rows && r < m.cols
    ensures q * m.cols + r < m.rows * m.cols
    ensures Flat(m, q * m.cols + r) == m.e[q][r]
  {
    MulMonotone(q + 1, m.rows, m.cols);
    DivModOf(q, m.cols, r);
  }

  lemma {:induction false} SpinSourceAt(ni: nat, nj: nat, a: nat, s: nat, b: nat, t: nat)
    requires a < ni && s < 2 && b < nj && t < 2
    ensures s * ni + a < 2 * ni && t * nj + b < 2 * nj
    ensures SpinSource(s * ni + a, t * nj + b, ni, nj) == (2 * a + s) * (2 * nj) + (2 * b + t)
  {
    MulMonotone(s, 1, ni);
    MulMonotone(t, 1, nj);
    DivModOf(s, ni, a);
    DivModOf(t, nj, b);
  }

  /** Raw entry (2a + s, 2b + t) moves to (s·ni + a, t·nj + b). */
  lemma {:induction false} SpinMajorAt(m: Matrix, ni: nat, nj: nat, a: nat, s: nat, b: nat, t: nat)
    requires m.rows == 2 * ni && m.cols == 2 * nj
    requires a < ni && s < 2 && b < nj && t < 2
    ensures s * ni + a < 2 * ni && t * nj + b < 2 * nj
    ensures SpinMajor(m, ni, nj).e[s * ni + a][t * nj + b] == m.e[2 * a + s][2 * b + t]
  {
    assert (2 * ni) * (2 * nj) == 4 * ni * nj;
    SpinSourceAt(ni, nj, a, s, b, t);
    FlatAt(m, 2 * a + s, 2 * b + t);
  }
}
