/** The orbital transform of one block: the block is multiplied on the left by the
    block-diagonal matrix of the per-angular-momentum factors of its row orbitals,
    and on the right by the transpose of the one of its column orbitals. */
module OrbitalTransform {
  import opened Outcomes
  import opened Matrices

  /** The shape of the conversion table: one (2l + 1) × (2l + 1) factor for each
      angular momentum l = 0 (s) … 5 (h), and nothing else. */
  ghost predicate IsFactorTable(f: map<int, Matrix>)
  {
    (forall l :: l in f <==> 0 <= l <= 5)
    && forall l :: l in f ==> f[l].rows == 2 * l + 1 && f[l].cols == 2 * l + 1
  }

  /** `max(*xs)` for at least one number. */
  function Max(xs: seq<int>): (m: int)
    requires xs != []
    ensures forall k :: 0 <= k < |xs| ==> xs[k] <= m
    ensures exists k :: 0 <= k < |xs| && xs[k] == m
  {
    if |xs| == 1 then xs[0]
    else
      var r := Max(xs[1..]);
      if xs[0] >= r then xs[0] else r
  }

  /** `[f[l] for l in ls]`, failing on the first angular momentum missing from `f`. */
  function Factors(ls: seq<int>, f: map<int, Matrix>): (r: Result<seq<Matrix>>)
    ensures r.Ok? <==> forall k :: 0 <= k < |ls| ==> ls[k] in f
    ensures r.Err? ==> r.failure == KeyError
    ensures r.Ok? ==> |r.value| == |ls| && forall k :: 0 <= k < |ls| ==> r.value[k] == f[ls[k]]
  {
    if ls == [] then Ok([])
    else if ls[0] !in f then Err(KeyError)
    else
      var rest :- Factors(ls[1..], f);
      Ok([f[ls[0]]] + rest)
  }

  /** The number of orbitals Σ (2l + 1) of a list of angular momenta. */
  function Width(ls: seq<int>): int
  {
    if ls == [] then 0 else 2 * ls[0] + 1 + Width(ls[1..])
  }

  /** Where the orbitals of entry p of `ls` start. */
  function Offset(ls: seq<int>, p: nat): int
    requires p <= |ls|
  {
    Width(ls[..p])
  }

  predicate InTable(ls: seq<int>)
  {
    forall k :: 0 <= k < |ls| ==> 0 <= ls[k] <= 5
  }

  /** `transform(mat, l_lefts, l_rights)`: reject l > 5, look the factors up, form
      both block diagonals and return `block_lefts @ mat @ block_rights.T`. */
  function Transform(m: Matrix, lefts: seq<int>, rights: seq<int>, f: map<int, Matrix>): (r: Result<Matrix>)
    ensures |lefts| + |rights| < 2 ==> r == Err(TypeError)
    ensures |lefts| + |rights| >= 2 && (exists k :: 0 <= k < |lefts + rights| && (lefts + rights)[k] > 5)
            ==> r == Err(NotImplemented)
    ensures r.Ok? ==> forall k :: 0 <= k < |lefts + rights| ==> (lefts + rights)[k] <= 5 && (lefts + rights)[k] in f
  {
    var all := lefts + rights;
    if |all| < 2 then Err(TypeError)
    else if Max(all) > 5 then Err(NotImplemented)
    else
      var fl :- Factors(lefts, f);
      var fr :- Factors(rights, f);
      var bl, br := BlockDiag(fl), BlockDiag(fr);
      if bl.cols != m.rows then Err(ValueError)
      else if m.cols != br.cols then Err(ValueError)
      else Ok(MatMul(MatMul(bl, m), Transpose(br)))
  }

  /** Looked up in a well-formed table, the factors of `ls` lie along the diagonal at
      the orbital offsets of `ls`. */
  lemma {:induction false} FactorOffsets(ls: seq<int>, fs: seq<Matrix>, f: map<int, Matrix>, k: nat)
    requires IsFactorTable(f) && InTable(ls)
    requires |fs| == |ls| && forall i :: 0 <= i < |ls| ==> fs[i] == f[ls[i]]
    requires k <= |ls|
    ensures RowsBefore(fs, k) == Offset(ls, k) && ColsBefore(fs, k) == Offset(ls, k)
  {
    if k > 0 {
      assert ls[..k][1..] == ls[1..][..k - 1];
      FactorOffsets(ls[1..], fs[1..], f, k - 1);
    }
  }

  lemma {:induction false} OffsetStep(ls: seq<int>, p: nat)
    requires p < |ls|
    ensures Offset(ls, p + 1) == Offset(ls, p) + 2 * ls[p] + 1
  {
    if p > 0 {
      assert ls[..p + 1][1..] == ls[1..][..p];
      assert ls[..p][1..] == ls[1..][..p - 1];
      OffsetStep(ls[1..], p - 1);
    } else {
      assert ls[..1][1..] == [];
    }
  }

  /** With every l at most 5 and a well-formed table, a negative l is a missing key. */
  lemma {:induction false} TransformMissingKey(m: Matrix, lefts: seq<int>, rights: seq<int>, f: map<int, Matrix>, k: nat)
    requires IsFactorTable(f)
    requires |lefts| + |rights| >= 2 && forall i :: 0 <= i < |lefts + rights| ==> (lefts + rights)[i] <= 5
    requires k < |lefts + rights| && (lefts + rights)[k] < 0
    ensures Transform(m, lefts, rights, f) == Err(KeyError)
  {
    var all := lefts + rights;
    assert Max(all) <= 5;
    if k < |lefts| {
      assert lefts[k] !in f;
    } else {
      assert rights[k - |lefts|] !in f;
    }
  }

  /** With a well-formed table and every l in 0..5, `transform` succeeds exactly when
      the orbital counts of the two lists match the shape of the block; the result
      then has the shape of the block (a list that is empty contributes scipy's 1 × 0
      block diagonal, hence one row or column). */
  lemma {:induction false} TransformShape(m: Matrix, lefts: seq<int>, rights: seq<int>, f: map<int, Matrix>)
    requires IsFactorTable(f) && InTable(lefts) && InTable(rights) && |lefts| + |rights| >= 2
    ensures var r := Transform(m, lefts, rights, f);
      && (r.Ok? <==> Width(lefts) == m.rows && Width(rights) == m.cols)
      && (r.Err? ==> r == Err(ValueError))
      && (r.Ok? ==> r.value.rows == (if lefts == [] then 1 else m.rows)
                    && r.value.cols == (if rights == [] then 1 else m.cols))
  {
    var all := lefts + rights;
    assert forall k :: 0 <= k < |all| ==> all[k] <= 5;
    assert Max(all) <= 5;
    var fl, fr := Factors(lefts, f).value, Factors(rights, f).value;
    FactorOffsets(lefts, fl, f, |lefts|);
    FactorOffsets(rights, fr, f, |rights|);
    assert lefts[..|lefts|] == lefts && rights[..|rights|] == rights;
  }

  /** The orbital block (p, q) of `m`: the rows of entry p of `lefts` against the
      columns of entry q of `rights`. */
  function OrbitalBlock(m: Matrix, lefts: seq<int>, rights: seq<int>, p: nat, q: nat): Matrix
    requires p < |lefts| && q < |rights|
  {
    Block(m, Offset(lefts, p), Offset(lefts, p + 1), Offset(rights, q), Offset(rights, q + 1))
  }

  /** The left operand `block_diag(*[f[l] for l in ls])` of a successful transform. */
  function Diag(ls: seq<int>, f: map<int, Matrix>): Matrix
  {
    var fs := Factors(ls, f);
    if fs.Ok? then BlockDiag(fs.value) else BlockDiag([])
  }

  /** A successful transform is the product of the two block diagonals around `m`. */
  lemma {:induction false} TransformProduct(m: Matrix, lefts: seq<int>, rights: seq<int>, f: map<int, Matrix>, r: Matrix)
    requires IsFactorTable(f) && Transform(m, lefts, rights, f) == Ok(r)
    ensures InTable(lefts) && InTable(rights)
    ensures Diag(lefts, f).cols == m.rows && Diag(rights, f).cols == m.cols
    ensures r == MatMul(MatMul(Diag(lefts, f), m), Transpose(Diag(rights, f)))
  {
    var all := lefts + rights;
    assert forall k :: 0 <= k < |lefts| ==> lefts[k] == all[k];
    assert forall k :: 0 <= k < |rights| ==> rights[k] == all[|lefts| + k];
  }

  /** Row x of the orbitals of entry p of `ls` in the block diagonal is row x of
      its factor, placed at the orbital offset of entry p. */
  lemma FactorRow(ls: seq<int>, f: map<int, Matrix>, p: nat, x: nat)
    requires IsFactorTable(f) && InTable(ls)
    requires p < |ls| && x < 2 * ls[p] + 1
    ensures f[ls[p]].rows == 2 * ls[p] + 1 && f[ls[p]].cols == 2 * ls[p] + 1
    ensures Offset(ls, p + 1) == Offset(ls, p) + 2 * ls[p] + 1
    ensures RowPlaced(Diag(ls, f), f[ls[p]], Offset(ls, p), x)
  {
    var fs := Factors(ls, f).value;
    assert fs != [] && Diag(ls, f) == Stack(fs) && fs[p] == f[ls[p]];
    FactorOffsets(ls, fs, f, p);
    StackRow(fs, p, x);
    OffsetStep(ls, p);
  }

  /** Orbital block (p, q) of `Diag(lefts) @ m @ Diag(rights).T` is
      F[l_p] · (orbital block (p, q) of `m`) · F[l_q]ᵀ. */
  lemma DiagProductBlocks(m: Matrix, lefts: seq<int>, rights: seq<int>, f: map<int, Matrix>,
                          p: nat, q: nat, x: nat, y: nat)
    requires IsFactorTable(f) && InTable(lefts) && InTable(rights)
    requires Diag(lefts, f).cols == m.rows && Diag(rights, f).cols == m.cols
    requires p < |lefts| && q < |rights| && x < 2 * lefts[p] + 1 && y < 2 * rights[q] + 1
    requires OrbitalBlock(m, lefts, rights, p, q).rows == 2 * lefts[p] + 1
    requires OrbitalBlock(m, lefts, rights, p, q).cols == 2 * rights[q] + 1
    requires 0 <= Offset(lefts, p) && Offset(lefts, p) + x < Diag(lefts, f).rows
    requires 0 <= Offset(rights, q) && Offset(rights, q) + y < Diag(rights, f).rows
    ensures MatMul(MatMul(Diag(lefts, f), m), Transpose(Diag(rights, f))).e[Offset(lefts, p) + x][Offset(rights, q) + y]
            == MatMul(MatMul(f[lefts[p]], OrbitalBlock(m, lefts, rights, p, q)), Transpose(f[rights[q]])).e[x][y]
  {
    FactorRow(lefts, f, p, x);
    FactorRow(rights, f, q, y);
    BlockOfProduct(Diag(lefts, f), m, Diag(rights, f), f[lefts[p]], f[rights[q]],
                   Offset(lefts, p), Offset(lefts, p + 1), Offset(rights, q), Offset(rights, q + 1), x, y);
  }

  /** `transform` acts block by block: orbital block (p, q) of the result is
      F[l_p] · (orbital block (p, q) of `m`) · F[l_q]ᵀ. */
  lemma {:induction false} TransformBlocks(m: Matrix, lefts: seq<int>, rights: seq<int>, f: map<int, Matrix>,
                                           r: Matrix, p: nat, q: nat, x: nat, y: nat)
    requires IsFactorTable(f) && Transform(m, lefts, rights, f) == Ok(r)
    requires p < |lefts| && q < |rights| && x < 2 * lefts[p] + 1 && y < 2 * rights[q] + 1
    ensures OrbitalBlock(m, lefts, rights, p, q).rows == 2 * lefts[p] + 1
    ensures OrbitalBlock(m, lefts, rights, p, q).cols == 2 * rights[q] + 1
    ensures 0 <= Offset(lefts, p) && Offset(lefts, p) + x < r.rows
    ensures 0 <= Offset(rights, q) && Offset(rights, q) + y < r.cols
    ensures r.e[Offset(lefts, p) + x][Offset(rights, q) + y]
            == MatMul(MatMul(f[lefts[p]], OrbitalBlock(m, lefts, rights, p, q)), Transpose(f[rights[q]])).e[x][y]
  {
    TransformProduct(m, lefts, rights, f, r);
    FactorRow(lefts, f, p, x);
    FactorRow(rights, f, q, y);
    DiagProductBlocks(m, lefts, rights, f, p, q, x, y);
  }

  /** For s orbitals alone, with the 1 × 1 identity as the s factor, `transform`
      returns its block unchanged. */
  lemma {:induction false} TransformOfScalars(m: Matrix, lefts: seq<int>, rights: seq<int>, f: map<int, Matrix>)
    requires 0 in f && f[0] == Identity(1)
    requires lefts != [] && rights != [] && |lefts| == m.rows && |rights| == m.cols
    requires forall k :: 0 <= k < |lefts| ==> lefts[k] == 0
    requires forall k :: 0 <= k < |rights| ==> rights[k] == 0
    ensures Transform(m, lefts, rights, f) == Ok(m)
  {
    var all := lefts + rights;
    assert forall k :: 0 <= k < |all| ==> all[k] == 0;
    assert Max(all) <= 5;
    var fl, fr := Factors(lefts, f).value, Factors(rights, f).value;
    StackOfUnits(fl);
    StackOfUnits(fr);
    MatMulIdentityLeft(m);
    MatMulIdentityRight(m);
  }
}
