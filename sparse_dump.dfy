/** `parse_matrix`: the decoder of ABACUS's `data-*R-sparse_SPIN0.csr` dumps. A
    header carries the matrix dimension; each record `Rx Ry Rz nnz` with nnz > 0 is
    followed by the three CSR lines (values, column indices, row pointers) of the
    matrix of lattice vector R, which is cut into one block per pair of sites. */
module SparseDump {
  import opened Outcomes
  import opened Text
  import opened TextFiles
  import opened Matrices
  import opened CsrArrays
  import opened AbacusLog
  import OrbitalTransform

  const DimensionMarker := "Matrix Dimension of"

  /** How value tokens read as numbers: numpy's float32 and complex64 conversions of
      a string, left abstract. */
  datatype NumberSyntax = NumberSyntax(float: string -> Option<real>, complex: string -> Option<Complex>)

  /** A lattice vector R. */
  type Cell = (int, int, int)

  /** What one record line does to the decoding: end it, contribute nothing, or
      contribute the blocks of its matrix. */
  datatype Step = Stop | Skip | Stored(blocks: map<string, Matrix>)

  /** The matrix of one record and its lattice vector. */
  datatype Record = Record(dense: Matrix, cell: Cell)

  /** The site arrays `parse_matrix` receives have one entry per site. */
  predicate Consistent(lay: Layout)
  {
    |lay.element| == |lay.siteNorbits|
  }

  // ---------------------------------------------------------------- tokens

  /** The rewriting of a spinful value token, `(a,b)` into `a+bj`, before the
      complex conversion. */
  function SpinLiteral(t: string): string
  {
    ReplaceAll(ReplaceAll(ReplaceAll(ReplaceAll(t, "(", ""), ")", "j"), ",", "+"), "+-", "-")
  }

  /** `int(token)` for every token, failing on the first that is not an integer. */
  function ReadInts(tokens: seq<string>): (r: Result<seq<int>>)
    ensures r.Ok? <==> forall k :: 0 <= k < |tokens| ==> ParseInt(tokens[k]).Some?
    ensures r.Err? ==> r.failure == ValueError
    ensures r.Ok? ==> |r.value| == |tokens| && forall k :: 0 <= k < |tokens| ==> ParseInt(tokens[k]) == Some(r.value[k])
  {
    if tokens == [] then Ok([])
    else
      var x :- IntOf(tokens[0]);
      var rest :- ReadInts(tokens[1..]);
      Ok([x] + rest)
  }

  function ReadValue(t: string, spinful: bool, nums: NumberSyntax): Result<Complex>
  {
    if !spinful then
      match nums.float(t)
      case None => Err(ValueError)
      case Some(x) => Ok(Complex(x, 0.0))
    else
      match nums.complex(SpinLiteral(t))
      case None => Err(ValueError)
      case Some(z) => Ok(z)
  }

  function ReadValueList(tokens: seq<string>, spinful: bool, nums: NumberSyntax): (r: Result<seq<Complex>>)
    ensures r.Ok? <==> forall k :: 0 <= k < |tokens| ==> ReadValue(tokens[k], spinful, nums).Ok?
    ensures r.Ok? ==> |r.value| == |tokens| && forall k :: 0 <= k < |tokens| ==> ReadValue(tokens[k], spinful, nums) == Ok(r.value[k])
  {
    if tokens == [] then Ok([])
    else
      var x :- ReadValue(tokens[0], spinful, nums);
      var rest :- ReadValueList(tokens[1..], spinful, nums);
      Ok([x] + rest)
  }

  /** The values line as numbers: float32 ones, or complex64 ones of the rewritten
      tokens when spinful. numpy's string replacement refuses the empty (float)
      array with TypeError. */
  function ReadValues(tokens: seq<string>, spinful: bool, nums: NumberSyntax): Result<seq<Complex>>
  {
    if spinful && tokens == [] then Err(TypeError) else ReadValueList(tokens, spinful, nums)
  }

  /** `np.array(line1[:3]).astype(int)` */
  function CellOf(tokens: seq<string>): Result<Cell>
    requires |tokens| >= 3
  {
    var c :- ReadInts(tokens[..3]);
    Ok((c[0], c[1], c[2]))
  }

  /** The dense matrix of the three CSR lines of a record. */
  function Expand(values: string, columns: string, pointers: string, n: int, spinful: bool, nums: NumberSyntax)
    : Result<Matrix>
  {
    var data :- ReadValues(Split(values), spinful, nums);
    var indices :- ReadInts(Split(columns));
    var indptr :- ReadInts(Split(pointers));
    ToDense(Csr(data, indices, indptr), n)
  }

  // ---------------------------------------------------------------- blocks

  /** The orbitals of the sites before site i: `ns[0] + ... + ns[i - 1]`. */
  function Before(ns: seq<int>, i: nat): int
    requires i <= |ns|
  {
    if i == 0 then 0 else Before(ns, i - 1) + ns[i - 1]
  }

  /** `np.sum(ns)` */
  function Sum(ns: seq<int>): int
  {
    Before(ns, |ns|)
  }

  /** `np.cumsum(ns)[i]` */
  function Cum(ns: seq<int>, i: nat): int
    requires i < |ns|
  {
    Before(ns, i + 1)
  }

  /** The part of the record's matrix that couples site i to site j: rows
      [(cum_i - n_i)(1 + s), cum_i (1 + s)) and columns likewise for j. */
  function SiteSlice(dense: Matrix, lay: Layout, i: nat, j: nat): Matrix
    requires i < |lay.siteNorbits| && j < |lay.siteNorbits|
  {
    var sp := lay.spinful;
    var ni, nj := lay.siteNorbits[i], lay.siteNorbits[j];
    var ci, cj := Cum(lay.siteNorbits, i), Cum(lay.siteNorbits, j);
    Block(dense, Spun(ci - ni, sp), Spun(ci, sp), Spun(cj - nj, sp), Spun(cj, sp))
  }

  /** A count of orbitals times (1 + s): each orbital has two spin components when
      the calculation is spinful. */
  function Spun(n: int, spinful: bool): int
  {
    if spinful then 2 * n else n
  }

  /** A block of the matrix in the orbital order of the model: transformed with the
      orbital lists of both sites; when spinful, first brought to spin-major order
      and transformed with each list taken twice. */
  function Oriented(mat: Matrix, lay: Layout, f: map<int, Matrix>, i: nat, j: nat): Result<Matrix>
    requires Consistent(lay) && i < |lay.siteNorbits| && j < |lay.siteNorbits|
  {
    var ei, ej := lay.element[i], lay.element[j];
    if !lay.spinful then
      if ei !in lay.orbitalTypes || ej !in lay.orbitalTypes then Err(KeyError)
      else OrbitalTransform.Transform(mat, lay.orbitalTypes[ei], lay.orbitalTypes[ej], f)
    else
      var ni, nj := lay.siteNorbits[i], lay.siteNorbits[j];
      if ni < 0 || nj < 0 || mat.rows * mat.cols != 4 * ni * nj then Err(ValueError)
      else if ei !in lay.orbitalTypes || ej !in lay.orbitalTypes then Err(KeyError)
      else
        var li, lj := lay.orbitalTypes[ei], lay.orbitalTypes[ej];
        OrbitalTransform.Transform(SpinMajor(mat, ni, nj), li + li, lj + lj, f)
  }

  /** The block stored for sites (i, j), or None when every entry is below 1e-10 in
      magnitude; `max` of an empty block raises ValueError. */
  function PairBlock(rec: Record, lay: Layout, factor: real, f: map<int, Matrix>, i: nat, j: nat)
    : Result<Option<Matrix>>
    requires Consistent(lay) && i < |lay.siteNorbits| && j < |lay.siteNorbits|
  {
    var mat := SiteSlice(rec.dense, lay, i, j);
    if mat.rows == 0 || mat.cols == 0 then Err(ValueError)
    else if AllNegligible(mat) then Ok(None)
    else
      var t :- Oriented(mat, lay, f, i, j);
      Ok(Some(ScaleBy(t, factor)))
  }

  /** `"_".join(str(x) for x in parts)` */
  function Joined(parts: seq<string>): string
    requires parts != []
  {
    if |parts| == 1 then parts[0] else parts[0] + "_" + Joined(parts[1..])
  }

  /** `f"{i}_{j}_{Rx}_{Ry}_{Rz}"` */
  function Key(i: int, j: int, cell: Cell): string
  {
    Joined([IntToString(i), IntToString(j), IntToString(cell.0), IntToString(cell.1), IntToString(cell.2)])
  }

  /** Pair (p, q) comes at or after (i, j) in the row-major order of the site loops. */
  predicate FromOn(p: nat, q: nat, i: nat, j: nat)
  {
    p > i || (p == i && q >= j)
  }

  /** What the site loops compute for each pair (p, q) of sites. */
  function PairBlocks(rec: Record, lay: Layout, factor: real, f: map<int, Matrix>): (nat, nat) -> Result<Option<Matrix>>
    requires Consistent(lay)
  {
    (p: nat, q: nat) =>
      if p < |lay.siteNorbits| && q < |lay.siteNorbits| then PairBlock(rec, lay, factor, f, p, q) else Ok(None)
  }

  /** The site loops over n sites from pair (i, j) on, with the blocks stored so far
      in `acc`: pair (p, q) stores `block(p, q)` under its key, if there is one. */
  function Pairs(n: nat, cell: Cell, block: (nat, nat) -> Result<Option<Matrix>>, acc: map<string, Matrix>,
                 i: nat, j: nat): Result<map<string, Matrix>>
    requires i <= n && j <= n
    decreases n - i, n - j
  {
    if i == n then Ok(acc)
    else if j == n then Pairs(n, cell, block, acc, i + 1, 0)
    else
      var b :- block(i, j);
      Pairs(n, cell, block, if b.Some? then acc[Key(i, j, cell) := b.value] else acc, i, j + 1)
  }

  /** The site loops of one record. */
  method StoreBlocks(rec: Record, lay: Layout, factor: real, f: map<int, Matrix>) returns (r: Result<map<string, Matrix>>)
    requires Consistent(lay)
    ensures r == Pairs(|lay.siteNorbits|, rec.cell, PairBlocks(rec, lay, factor, f), map[], 0, 0)
  {
    var n := |lay.siteNorbits|;
    ghost var block := PairBlocks(rec, lay, factor, f);
    var blocks: map<string, Matrix> := map[];
    for i := 0 to n
      invariant Pairs(n, rec.cell, block, map[], 0, 0) == Pairs(n, rec.cell, block, blocks, i, 0)
    {
      for j := 0 to n
        invariant Pairs(n, rec.cell, block, map[], 0, 0) == Pairs(n, rec.cell, block, blocks, i, j)
      {
        var b := PairBlock(rec, lay, factor, f, i, j);
        assert b == block(i, j);
        if b.Err? {
          return Err(b.failure);
        }
        if b.value.Some? {
          blocks := blocks[Key(i, j, rec.cell) := b.value.value];
        }
      }
    }
    return Ok(blocks);
  }

  // ---------------------------------------------------------------- records

  /** The blocks of a record whose three CSR lines have been read. */
  function StoredBlocks(values: string, columns: string, pointers: string, cell: Cell, n: int,
                        lay: Layout, factor: real, f: map<int, Matrix>, nums: NumberSyntax)
    : Result<map<string, Matrix>>
    requires Consistent(lay)
  {
    var dense :- Expand(values, columns, pointers, n, lay.spinful, nums);
    var rec := Record(dense, cell);
    Pairs(|lay.siteNorbits|, cell, PairBlocks(rec, lay, factor, f), map[], 0, 0)
  }

  /** One pass of `for line in f`: the record line at `pos`, and for a non-empty
      record the three lines read after it. */
  function RecordAt(lines: seq<string>, pos: nat, n: int, lay: Layout, factor: real, f: map<int, Matrix>,
                    nums: NumberSyntax): (r: Scan<Step>)
    requires pos < |lines| && Consistent(lay)
    ensures pos < r.pos <= |lines|
  {
    var tokens := Split(lines[pos]);
    if |tokens| == 0 || |tokens| == 2 then Scan(Ok(Stop), pos + 1)
    else if |tokens| < 4 then Scan(Err(IndexError), pos + 1)
    else
      match IntOf(tokens[3])
      case Err(e) => Scan(Err(e), pos + 1)
      case Ok(count) =>
        if count == 0 then Scan(Ok(Skip), pos + 1)
        else
          match CellOf(tokens)
          case Err(e) => Scan(Err(e), pos + 1)
          case Ok(cell) => BlocksAt(lines, pos + 1, cell, n, lay, factor, f, nums)
  }

  /** The three CSR lines read with `readline` from `pos`, and the blocks they give. */
  function BlocksAt(lines: seq<string>, pos: nat, cell: Cell, n: int, lay: Layout, factor: real,
                    f: map<int, Matrix>, nums: NumberSyntax): (r: Scan<Step>)
    requires pos <= |lines| && Consistent(lay)
    ensures pos <= r.pos <= |lines|
  {
    var (values, p2) := ReadAt(lines, pos);
    var (columns, p3) := ReadAt(lines, p2);
    var (pointers, p4) := ReadAt(lines, p3);
    match StoredBlocks(values, columns, pointers, cell, n, lay, factor, f, nums)
    case Err(e) => Scan(Err(e), p4)
    case Ok(blocks) => Scan(Ok(Stored(blocks)), p4)
  }

  method ReadBlocks(file: TextFile, cell: Cell, n: int, lay: Layout, factor: real, f: map<int, Matrix>,
                    nums: NumberSyntax) returns (r: Result<Step>)
    requires file.Valid() && Consistent(lay)
    modifies file
    ensures file.Valid()
    ensures Scan(r, file.pos) == BlocksAt(file.lines, old(file.pos), cell, n, lay, factor, f, nums)
  {
    var values := file.ReadLine();
    var columns := file.ReadLine();
    var pointers := file.ReadLine();
    var dense := Expand(values, columns, pointers, n, lay.spinful, nums);
    if dense.Err? {
      return Err(dense.failure);
    }
    var blocks := StoreBlocks(Record(dense.value, cell), lay, factor, f);
    if blocks.Err? {
      return Err(blocks.failure);
    }
    return Ok(Stored(blocks.value));
  }

  method ReadRecord(file: TextFile, n: int, lay: Layout, factor: real, f: map<int, Matrix>, nums: NumberSyntax)
    returns (r: Result<Step>)
    requires file.Valid() && file.pos < |file.lines| && Consistent(lay)
    modifies file
    ensures file.Valid()
    ensures Scan(r, file.pos) == RecordAt(file.lines, old(file.pos), n, lay, factor, f, nums)
  {
    var line := file.ReadLine();
    var tokens := Split(line);
    if |tokens| == 0 || |tokens| == 2 {
      r := Ok(Stop);
    } else if |tokens| < 4 {
      r := Err(IndexError);
    } else {
      var count := IntOf(tokens[3]);
      if count.Err? {
        r := Err(count.failure);
      } else if count.value == 0 {
        r := Ok(Skip);
      } else {
        var cell := CellOf(tokens);
        if cell.Err? {
          r := Err(cell.failure);
        } else {
          r := ReadBlocks(file, cell.value, n, lay, factor, f, nums);
        }
      }
    }
  }

  /** The record loop from `pos` on, with the blocks stored so far in `acc`; a later
      record's block replaces an earlier one under the same key. */
  function Decode(lines: seq<string>, pos: nat, n: int, lay: Layout, factor: real, f: map<int, Matrix>,
                  nums: NumberSyntax, acc: map<string, Matrix>): Result<map<string, Matrix>>
    requires pos <= |lines| && Consistent(lay)
    decreases |lines| - pos
  {
    if pos == |lines| then Ok(acc)
    else
      var r := RecordAt(lines, pos, n, lay, factor, f, nums);
      match r.result
      case Err(e) => Err(e)
      case Ok(Stop) => Ok(acc)
      case Ok(Skip) => Decode(lines, r.pos, n, lay, factor, f, nums, acc)
      case Ok(Stored(b)) => Decode(lines, r.pos, n, lay, factor, f, nums, acc + b)
  }

  /** The header: the dimension line is the first line, or else the second (ABACUS
      3.0 and later); the line after it is skipped; the dimension is its last token. */
  function Header(lines: seq<string>): (r: Scan<int>)
    ensures r.pos <= |lines|
  {
    var (first, p1) := ReadAt(lines, 0);
    var (line, p2) := if Contains(first, DimensionMarker) then (first, p1) else ReadAt(lines, p1);
    if !Contains(line, DimensionMarker) then Scan(Err(AssertionFailed), p2)
    else
      var (_, p3) := ReadAt(lines, p2);
      match LastToken(line)
      case Err(e) => Scan(Err(e), p3)
      case Ok(token) => Scan(IntOf(token), p3)
  }

  /** `parse_matrix`: the blocks by key and the declared dimension. */
  function Decoded(lines: seq<string>, lay: Layout, factor: real, f: map<int, Matrix>, nums: NumberSyntax)
    : Result<(map<string, Matrix>, int)>
    requires Consistent(lay)
  {
    var h := Header(lines);
    var n :- h.result;
    var blocks :- Decode(lines, h.pos, n, lay, factor, f, nums, map[]);
    Ok((blocks, n))
  }

  method ParseMatrix(lines: seq<string>, lay: Layout, factor: real, f: map<int, Matrix>, nums: NumberSyntax)
    returns (r: Result<(map<string, Matrix>, int)>)
    requires Consistent(lay)
    ensures r == Decoded(lines, lay, factor, f, nums)
  {
    var file := new TextFile(lines);
    var line := file.ReadLine();
    if !Contains(line, DimensionMarker) {
      line := file.ReadLine();
      if !Contains(line, DimensionMarker) {
        return Err(AssertionFailed);
      }
    }
    var _ := file.ReadLine();
    var token := LastToken(line);
    if token.Err? {
      return Err(token.failure);
    }
    var dim := IntOf(token.value);
    if dim.Err? {
      return Err(dim.failure);
    }
    var n := dim.value;
    ghost var start := file.pos;
    assert Header(lines) == Scan(Ok(n), start);
    var blocks: map<string, Matrix> := map[];
    while file.pos < |file.lines|
      invariant file.Valid() && file.lines == lines
      invariant Decode(lines, start, n, lay, factor, f, nums, map[]) == Decode(lines, file.pos, n, lay, factor, f, nums, blocks)
      decreases |lines| - file.pos
    {
      var step := ReadRecord(file, n, lay, factor, f, nums);
      match step {
        case Err(e) =>
          return Err(e);
        case Ok(Stop) =>
          return Ok((blocks, n));
        case Ok(Skip) =>
        case Ok(Stored(b)) =>
          blocks := blocks + b;
      }
    }
    return Ok((blocks, n));
  }
  // ---------------------------------------------------------------- properties

  /** The record stream: an empty or two-token line ends decoding; a record with no
      stored value reads no further line and adds nothing; any other record reads
      exactly the next three lines, and its blocks replace earlier ones with the
      same key. */
  lemma RecordStream(lines: seq<string>, pos: nat, n: int, lay: Layout, factor: real, f: map<int, Matrix>,
                     nums: NumberSyntax, acc: map<string, Matrix>)
    requires pos < |lines| && Consistent(lay)
    ensures var tokens := Split(lines[pos]);
      && ((|tokens| == 0 || |tokens| == 2) ==> Decode(lines, pos, n, lay, factor, f, nums, acc) == Ok(acc))
      && (|tokens| >= 4 && IntOf(tokens[3]) == Ok(0) ==>
            Decode(lines, pos, n, lay, factor, f, nums, acc) == Decode(lines, pos + 1, n, lay, factor, f, nums, acc))
      && (|tokens| >= 4 && IntOf(tokens[3]).Ok? && IntOf(tokens[3]).value != 0 && CellOf(tokens).Ok? && pos + 3 < |lines| ==>
            var b := StoredBlocks(lines[pos + 1], lines[pos + 2], lines[pos + 3], CellOf(tokens).value, n, lay, factor, f, nums);
            Decode(lines, pos, n, lay, factor, f, nums, acc)
            == if b.Ok? then Decode(lines, pos + 4, n, lay, factor, f, nums, acc + b.value) else Err(b.failure))
  {
  }

  /** The dimension returned is the integer ending the header's dimension line. */
  lemma DeclaredDimension(lines: seq<string>, lay: Layout, factor: real, f: map<int, Matrix>, nums: NumberSyntax,
                          blocks: map<string, Matrix>, n: int)
    requires Consistent(lay) && Decoded(lines, lay, factor, f, nums) == Ok((blocks, n))
    ensures |lines| > 0
    ensures var k := if Contains(lines[0], DimensionMarker) then 0 else 1;
      && k < |lines| && Contains(lines[k], DimensionMarker)
      && LastToken(lines[k]).Ok? && ParseInt(LastToken(lines[k]).value) == Some(n)
  {
  }

  /** A spinful value token `(a,b)` becomes the Python literal `a+bj`, or `a-cj` when
      b is `-c`. */
  lemma ComplexLiteral(a: string, b: string)
    requires '(' !in a && ')' !in a && ',' !in a && !Contains(a, "+-")
    requires '(' !in b && ')' !in b && ',' !in b && !Contains(b, "+-")
    ensures SpinLiteral("(" + a + "," + b + ")")
            == if b != [] && b[0] == '-' then a + ("-" + b[1..] + "j") else a + ("+" + b + "j")
  {
    OpenParen(a, b);
    CloseParen(a, b);
    Comma(a, b);
    PlusMinus(a, b);
  }

  lemma OpenParen(a: string, b: string)
    requires '(' !in a && '(' !in b
    ensures ReplaceAll("(" + a + "," + b + ")", "(", "") == a + "," + b + ")"
  {
    var y := a + "," + b + ")";
    Regroup("(", a, ",", b, ")");
    ReplaceOnce([], y, '(', "");
  }

  lemma CloseParen(a: string, b: string)
    requires ')' !in a && ')' !in b
    ensures ReplaceAll(a + "," + b + ")", ")", "j") == a + "," + b + "j"
  {
    ReplaceLast(a + "," + b, ')', "j");
  }

  lemma Comma(a: string, b: string)
    requires ',' !in a && ',' !in b
    ensures ReplaceAll(a + "," + b + "j", ",", "+") == a + ("+" + b + "j")
  {
    Assoc(a + ",", b, "j");
    ReplaceOnce(a, b + "j", ',', "+");
    Assoc(a + "+", b, "j");
    Assoc(a, "+", b);
    Assoc(a, "+" + b, "j");
  }

  lemma PlusMinus(a: string, b: string)
    requires !Contains(a, "+-") && !Contains(b, "+-")
    ensures ReplaceAll(a + ("+" + b + "j"), "+-", "-")
            == if b != [] && b[0] == '-' then a + ("-" + b[1..] + "j") else a + ("+" + b + "j")
  {
    KeepPrefix(a, "+" + b + "j");
    PlusMinusTail(b);
  }

  lemma {:induction false} KeepPrefix(a: string, rest: string)
    requires !Contains(a, "+-") && rest != [] && rest[0] == '+'
    ensures ReplaceAll(a + rest, "+-", "-") == a + ReplaceAll(rest, "+-", "-")
  {
    if a == [] {
      assert a + rest == rest;
    } else {
      PlusMinusStep(a, rest);
      assert !Contains(a[1..], "+-");
      KeepPrefix(a[1..], rest);
      assert [a[0]] + (a[1..] + ReplaceAll(rest, "+-", "-")) == a + ReplaceAll(rest, "+-", "-");
    }
  }

  lemma PlusMinusPrefix(s: string)
    ensures "+-" <= s <==> |s| >= 2 && s[0] == '+' && s[1] == '-'
  {
    if |s| >= 2 && s[0] == '+' && s[1] == '-' {
      assert s[..2] == "+-";
    }
  }

  lemma PlusMinusStep(a: string, rest: string)
    requires a != [] && !Contains(a, "+-") && rest != [] && rest[0] == '+'
    ensures ReplaceAll(a + rest, "+-", "-") == [a[0]] + ReplaceAll(a[1..] + rest, "+-", "-")
  {
    NoPlusMinusAtJoin(a, rest);
    ConsAppend(a, rest);
    ReplaceKeeps(a + rest, "+-", "-");
  }

  lemma NoPlusMinusAtJoin(a: string, rest: string)
    requires a != [] && !Contains(a, "+-") && rest != [] && rest[0] == '+'
    ensures !("+-" <= a + rest)
  {
    PlusMinusPrefix(a);
    PlusMinusPrefix(a + rest);
    if |a| == 1 {
      assert (a + rest)[1] == '+';
    } else {
      assert (a + rest)[1] == a[1];
    }
  }

  lemma PlusMinusTail(b: string)
    requires !Contains(b, "+-")
    ensures ReplaceAll("+" + b + "j", "+-", "-")
            == if b != [] && b[0] == '-' then "-" + b[1..] + "j" else "+" + b + "j"
  {
    if b != [] && b[0] == '-' {
      TailNegative(b);
    } else {
      TailPositive(b);
    }
  }

  lemma TailNegative(b: string)
    requires !Contains(b, "+-") && b != [] && b[0] == '-'
    ensures ReplaceAll("+" + b + "j", "+-", "-") == "-" + b[1..] + "j"
  {
    var rest := "+" + b + "j";
    var tail := b[1..] + "j";
    assert "+-" <= rest && rest[2..] == tail;
    ReplaceHere(rest, "+-", "-");
    assert !Contains(b[1..], "+-");
    NoPlusMinusBeforeJ(b[1..]);
    ReplaceAbsent(tail, "+-", "-");
  }

  lemma TailPositive(b: string)
    requires !Contains(b, "+-") && !(b != [] && b[0] == '-')
    ensures ReplaceAll("+" + b + "j", "+-", "-") == "+" + b + "j"
  {
    var rest := "+" + b + "j";
    var tail := b + "j";
    PlusMinusPrefix(rest);
    assert rest != [] && rest[0] == '+' && rest[1..] == tail;
    ReplaceKeeps(rest, "+-", "-");
    NoPlusMinusBeforeJ(b);
    ReplaceAbsent(tail, "+-", "-");
  }

  lemma {:induction false} NoPlusMinusBeforeJ(b: string)
    requires !Contains(b, "+-")
    ensures !Contains(b + "j", "+-")
  {
    var s := b + "j";
    PlusMinusPrefix(s);
    PlusMinusPrefix(b);
    if b == [] {
      assert !Contains(s[1..], "+-");
    } else {
      assert s[1] == if |b| >= 2 then b[1] else 'j';
      assert s[1..] == b[1..] + "j";
      NoPlusMinusBeforeJ(b[1..]);
    }
  }

  lemma {:induction false} NoUnderscore(i: int)
    ensures '_' !in IntToString(i)
  {
    var s := IntToString(i);
    if i < 0 {
      assert s == "-" + NatToString(-i);
      assert AllDigits(NatToString(-i));
    } else {
      assert AllDigits(s);
    }
  }

  lemma SplitAtUnderscore(a: string, b: string, c: string, d: string)
    requires '_' !in a && '_' !in c && a + "_" + b == c + "_" + d
    ensures a == c && b == d
  {
    var x, y := a + "_" + b, c + "_" + d;
    FirstUnderscore(a, b);
    FirstUnderscore(c, d);
    assert |a| == |c|;
    assert a == x[..|a|] && c == y[..|c|];
    assert b == x[|a| + 1..] && d == y[|c| + 1..];
  }

  lemma FirstUnderscore(a: string, b: string)
    requires '_' !in a
    ensures (a + "_" + b)[|a|] == '_'
    ensures forall k :: 0 <= k < |a| ==> (a + "_" + b)[k] != '_'
  {
    forall k | 0 <= k < |a|
      ensures (a + "_" + b)[k] != '_'
    {
      assert (a + "_" + b)[k] == a[k];
    }
  }

  lemma {:induction false} JoinedInjective(ps: seq<string>, qs: seq<string>)
    requires ps != [] && |ps| == |qs| && Joined(ps) == Joined(qs)
    requires forall k :: 0 <= k < |ps| ==> '_' !in ps[k] && '_' !in qs[k]
    ensures ps == qs
  {
    if |ps| > 1 {
      SplitAtUnderscore(ps[0], Joined(ps[1..]), qs[0], Joined(qs[1..]));
      JoinedInjective(ps[1..], qs[1..]);
      assert ps == [ps[0]] + ps[1..] && qs == [qs[0]] + qs[1..];
    }
  }

  /** Distinct site pairs or lattice vectors are stored under distinct keys. */
  lemma KeyInjective(i: int, j: int, c: Cell, p: int, q: int, d: Cell)
    requires Key(i, j, c) == Key(p, q, d)
    ensures i == p && j == q && c == d
  {
    var ps := [IntToString(i), IntToString(j), IntToString(c.0), IntToString(c.1), IntToString(c.2)];
    var qs := [IntToString(p), IntToString(q), IntToString(d.0), IntToString(d.1), IntToString(d.2)];
    NoUnderscore(i); NoUnderscore(j); NoUnderscore(c.0); NoUnderscore(c.1); NoUnderscore(c.2);
    NoUnderscore(p); NoUnderscore(q); NoUnderscore(d.0); NoUnderscore(d.1); NoUnderscore(d.2);
    JoinedInjective(ps, qs);
    assert ps[0] == qs[0] && ps[1] == qs[1] && ps[2] == qs[2] && ps[3] == qs[3] && ps[4] == qs[4];
    IntToStringInjective(i, p);
    IntToStringInjective(j, q);
    IntToStringInjective(c.0, d.0);
    IntToStringInjective(c.1, d.1);
    IntToStringInjective(c.2, d.2);
  }

  /** A key that no remaining pair produces keeps its value through the loops. */
  lemma {:induction false} PairsKeepsOther(n: nat, cell: Cell, block: (nat, nat) -> Result<Option<Matrix>>,
                                           acc: map<string, Matrix>, i: nat, j: nat, k: string)
    requires i <= n && j <= n && Pairs(n, cell, block, acc, i, j).Ok?
    requires forall p: nat, q: nat :: p < n && q < n && FromOn(p, q, i, j) ==> Key(p, q, cell) != k
    ensures var d := Pairs(n, cell, block, acc, i, j).value;
      (k in d <==> k in acc) && (k in acc ==> d[k] == acc[k])
    decreases n - i, n - j
  {
    if i < n {
      if j == n {
        PairsKeepsOther(n, cell, block, acc, i + 1, 0, k);
      } else {
        var b := block(i, j).value;
        var acc' := if b.Some? then acc[Key(i, j, cell) := b.value] else acc;
        PairsKeepsOther(n, cell, block, acc', i, j + 1, k);
      }
    }
  }

  /** Every remaining pair is processed without failure, and what it decides about
      its key is what the loops return. */
  lemma {:induction false} PairsReach(n: nat, cell: Cell, block: (nat, nat) -> Result<Option<Matrix>>,
                                      acc: map<string, Matrix>, i: nat, j: nat, p: nat, q: nat)
    requires i <= n && j <= n && p < n && q < n && FromOn(p, q, i, j)
    requires Pairs(n, cell, block, acc, i, j).Ok?
    ensures block(p, q).Ok?
    ensures var d, b, key := Pairs(n, cell, block, acc, i, j).value, block(p, q).value, Key(p, q, cell);
      && (b.Some? ==> key in d && d[key] == b.value)
      && (b.None? ==> (key in d <==> key in acc))
    decreases n - i, n - j
  {
    var key := Key(p, q, cell);
    if j == n {
      PairsReach(n, cell, block, acc, i + 1, 0, p, q);
    } else {
      var b := block(i, j).value;
      var acc' := if b.Some? then acc[Key(i, j, cell) := b.value] else acc;
      if i == p && j == q {
        forall p': nat, q': nat | p' < n && q' < n && FromOn(p', q', i, j + 1)
          ensures Key(p', q', cell) != key
        {
          if Key(p', q', cell) == key {
            KeyInjective(p', q', cell, p, q, cell);
          }
        }
        PairsKeepsOther(n, cell, block, acc', i, j + 1, key);
      } else {
        PairsReach(n, cell, block, acc', i, j + 1, p, q);
        if Key(i, j, cell) == key {
          KeyInjective(i, j, cell, p, q, cell);
        }
      }
    }
  }

  /** The loops store no key but those of the remaining pairs. */
  lemma {:induction false} PairsOnly(n: nat, cell: Cell, block: (nat, nat) -> Result<Option<Matrix>>,
                                     acc: map<string, Matrix>, i: nat, j: nat, k: string)
    requires i <= n && j <= n && Pairs(n, cell, block, acc, i, j).Ok?
    requires k in Pairs(n, cell, block, acc, i, j).value && k !in acc
    ensures exists p: nat, q: nat :: p < n && q < n && FromOn(p, q, i, j) && k == Key(p, q, cell)
    decreases n - i, n - j
  {
    if j == n {
      PairsOnly(n, cell, block, acc, i + 1, 0, k);
      var p: nat, q: nat :| p < n && q < n && FromOn(p, q, i + 1, 0) && k == Key(p, q, cell);
      assert FromOn(p, q, i, j);
    } else {
      var b := block(i, j).value;
      var acc' := if b.Some? then acc[Key(i, j, cell) := b.value] else acc;
      if k == Key(i, j, cell) {
        assert FromOn(i, j, i, j);
      } else {
        PairsOnly(n, cell, block, acc', i, j + 1, k);
        var p: nat, q: nat :| p < n && q < n && FromOn(p, q, i, j + 1) && k == Key(p, q, cell);
        assert FromOn(p, q, i, j);
      }
    }
  }

  /** The blocks of one record: the pair (p, q) of sites is stored, under its key,
      exactly when some entry of its slice reaches 1e-10 in magnitude, and then as
      its transformed slice times `factor`. */
  lemma RecordBlocks(rec: Record, lay: Layout, factor: real, f: map<int, Matrix>, blocks: map<string, Matrix>,
                     p: nat, q: nat)
    requires Consistent(lay) && Pairs(|lay.siteNorbits|, rec.cell, PairBlocks(rec, lay, factor, f), map[], 0, 0) == Ok(blocks)
    requires p < |lay.siteNorbits| && q < |lay.siteNorbits|
    ensures var mat := SiteSlice(rec.dense, lay, p, q);
      && mat.rows > 0 && mat.cols > 0
      && (Key(p, q, rec.cell) in blocks <==> !AllNegligible(mat))
      && (Key(p, q, rec.cell) in blocks ==>
            Oriented(mat, lay, f, p, q).Ok? && blocks[Key(p, q, rec.cell)] == ScaleBy(Oriented(mat, lay, f, p, q).value, factor))
  {
    var block := PairBlocks(rec, lay, factor, f);
    PairsReach(|lay.siteNorbits|, rec.cell, block, map[], 0, 0, p, q);
    assert block(p, q) == PairBlock(rec, lay, factor, f, p, q);
    PairBlockStored(rec, lay, factor, f, p, q);
  }

  /** What a pair that does not fail decides: nothing for a negligible slice, the
      scaled transform of the slice otherwise. */
  lemma PairBlockStored(rec: Record, lay: Layout, factor: real, f: map<int, Matrix>, p: nat, q: nat)
    requires Consistent(lay) && p < |lay.siteNorbits| && q < |lay.siteNorbits|
    requires PairBlock(rec, lay, factor, f, p, q).Ok?
    ensures var mat, b := SiteSlice(rec.dense, lay, p, q), PairBlock(rec, lay, factor, f, p, q).value;
      && mat.rows > 0 && mat.cols > 0
      && (b.Some? <==> !AllNegligible(mat))
      && (b.Some? ==> Oriented(mat, lay, f, p, q).Ok? && b.value == ScaleBy(Oriented(mat, lay, f, p, q).value, factor))
  {
  }

  /** No key is stored but those of the pairs of sites. */
  lemma RecordKeys(rec: Record, lay: Layout, factor: real, f: map<int, Matrix>, blocks: map<string, Matrix>, k: string)
    requires Consistent(lay) && Pairs(|lay.siteNorbits|, rec.cell, PairBlocks(rec, lay, factor, f), map[], 0, 0) == Ok(blocks)
    requires k in blocks
    ensures exists p: nat, q: nat :: p < |lay.siteNorbits| && q < |lay.siteNorbits| && k == Key(p, q, rec.cell)
  {
    PairsOnly(|lay.siteNorbits|, rec.cell, PairBlocks(rec, lay, factor, f), map[], 0, 0, k);
  }

  /** Every key a stored record contributes names a pair of sites and a cell. */
  lemma StepKeys(lines: seq<string>, pos: nat, n: int, lay: Layout, factor: real, f: map<int, Matrix>,
                 nums: NumberSyntax, b: map<string, Matrix>, k: string)
    requires pos < |lines| && Consistent(lay)
    requires RecordAt(lines, pos, n, lay, factor, f, nums).result == Ok(Stored(b)) && k in b
    ensures exists p: nat, q: nat, c: Cell :: p < |lay.siteNorbits| && q < |lay.siteNorbits| && k == Key(p, q, c)
  {
    var cell := CellOf(Split(lines[pos])).value;
    var (values, p2) := ReadAt(lines, pos + 1);
    var (columns, p3) := ReadAt(lines, p2);
    var (pointers, p4) := ReadAt(lines, p3);
    var dense := Expand(values, columns, pointers, n, lay.spinful, nums).value;
    RecordKeys(Record(dense, cell), lay, factor, f, b, k);
    var p: nat, q: nat :| p < |lay.siteNorbits| && q < |lay.siteNorbits| && k == Key(p, q, cell);
  }

  /** Every key of a decoded file is `i_j_Rx_Ry_Rz` for two sites i, j of the
      structure and some cell R. */
  lemma {:induction false} DecodeKeys(lines: seq<string>, pos: nat, n: int, lay: Layout, factor: real,
                                      f: map<int, Matrix>, nums: NumberSyntax, acc: map<string, Matrix>,
                                      d: map<string, Matrix>, k: string)
    requires pos <= |lines| && Consistent(lay)
    requires Decode(lines, pos, n, lay, factor, f, nums, acc) == Ok(d) && k in d && k !in acc
    ensures exists p: nat, q: nat, c: Cell :: p < |lay.siteNorbits| && q < |lay.siteNorbits| && k == Key(p, q, c)
    decreases |lines| - pos
  {
    var r := RecordAt(lines, pos, n, lay, factor, f, nums);
    match r.result
    case Ok(Skip) =>
      DecodeKeys(lines, r.pos, n, lay, factor, f, nums, acc, d, k);
    case Ok(Stored(b)) =>
      if k in b {
        StepKeys(lines, pos, n, lay, factor, f, nums, b, k);
      } else {
        DecodeKeys(lines, r.pos, n, lay, factor, f, nums, acc + b, d, k);
      }
  }

  /** With non-negative counts, the orbitals before a site grow with the site. */
  lemma {:induction false} BeforeMonotone(ns: seq<int>, i: nat, k: nat)
    requires i <= k <= |ns| && forall t :: 0 <= t < |ns| ==> ns[t] >= 0
    ensures 0 <= Before(ns, i) <= Before(ns, k)
    decreases k
  {
    if i < k {
      BeforeMonotone(ns, i, k - 1);
    } else if i > 0 {
      BeforeMonotone(ns, i - 1, i - 1);
    }
  }

  lemma SpunMonotone(a: int, b: int, c: int, sp: bool)
    requires 0 <= a <= b <= c
    ensures 0 <= Spun(a, sp) <= Spun(b, sp) <= Spun(c, sp)
    ensures Spun(b, sp) - Spun(a, sp) == Spun(b - a, sp)
  {
  }

  /** With non-negative orbital counts, the orbitals of site i, taken 1 + s times,
      lie within a matrix of the announced dimension. */
  lemma SiteBounds(ns: seq<int>, sp: bool, i: nat)
    requires i < |ns| && forall t :: 0 <= t < |ns| ==> ns[t] >= 0
    ensures 0 <= Spun(Before(ns, i), sp) <= Spun(Before(ns, i + 1), sp) <= Spun(Sum(ns), sp)
    ensures Spun(Before(ns, i + 1), sp) - Spun(Before(ns, i), sp) == Spun(ns[i], sp)
  {
    BeforeMonotone(ns, i, i + 1);
    BeforeMonotone(ns, i + 1, |ns|);
    SpunMonotone(Before(ns, i), Before(ns, i + 1), Sum(ns), sp);
  }

  /** With non-negative orbital counts and a matrix of the announced dimension,
      the slice of sites (i, j) has n_i (1 + s) rows and n_j (1 + s) columns,
      starting after the orbitals of the sites before each. */
  lemma SiteSliceShape(dense: Matrix, lay: Layout, i: nat, j: nat)
    requires i < |lay.siteNorbits| && j < |lay.siteNorbits|
    requires forall t :: 0 <= t < |lay.siteNorbits| ==> lay.siteNorbits[t] >= 0
    requires dense.rows == dense.cols == Spun(Sum(lay.siteNorbits), lay.spinful)
    ensures var sp, ns, m := lay.spinful, lay.siteNorbits, SiteSlice(dense, lay, i, j);
      && m.rows == Spun(ns[i], sp) && m.cols == Spun(ns[j], sp)
      && 0 <= Spun(Before(ns, i), sp) && Spun(Before(ns, i), sp) + m.rows <= dense.rows
      && 0 <= Spun(Before(ns, j), sp) && Spun(Before(ns, j), sp) + m.cols <= dense.cols
      && forall x, y :: 0 <= x < m.rows && 0 <= y < m.cols ==>
           m.e[x][y] == dense.e[Spun(Before(ns, i), sp) + x][Spun(Before(ns, j), sp) + y]
  {
    var sp, ns := lay.spinful, lay.siteNorbits;
    SiteSliceBlock(dense, lay, i, j);
    BlockEntries(dense, Spun(Before(ns, i), sp), Spun(Before(ns, i + 1), sp), Spun(Before(ns, j), sp), Spun(Before(ns, j + 1), sp));
  }

  /** The slice of sites (i, j) is a block inside the matrix. */
  lemma SiteSliceBlock(dense: Matrix, lay: Layout, i: nat, j: nat)
    requires i < |lay.siteNorbits| && j < |lay.siteNorbits|
    requires forall t :: 0 <= t < |lay.siteNorbits| ==> lay.siteNorbits[t] >= 0
    requires dense.rows == dense.cols == Spun(Sum(lay.siteNorbits), lay.spinful)
    ensures var sp, ns := lay.spinful, lay.siteNorbits;
      && SiteSlice(dense, lay, i, j)
         == Block(dense, Spun(Before(ns, i), sp), Spun(Before(ns, i + 1), sp), Spun(Before(ns, j), sp), Spun(Before(ns, j + 1), sp))
      && 0 <= Spun(Before(ns, i), sp) <= Spun(Before(ns, i + 1), sp) <= dense.rows
      && 0 <= Spun(Before(ns, j), sp) <= Spun(Before(ns, j + 1), sp) <= dense.cols
      && Spun(Before(ns, i + 1), sp) - Spun(Before(ns, i), sp) == Spun(ns[i], sp)
      && Spun(Before(ns, j + 1), sp) - Spun(Before(ns, j), sp) == Spun(ns[j], sp)
  {
    SiteBounds(lay.siteNorbits, lay.spinful, i);
    SiteBounds(lay.siteNorbits, lay.spinful, j);
    SiteSliceIsBlock(dense, lay, i, j);
  }

  lemma SiteSliceIsBlock(dense: Matrix, lay: Layout, i: nat, j: nat)
    requires i < |lay.siteNorbits| && j < |lay.siteNorbits|
    ensures var ns, sp := lay.siteNorbits, lay.spinful;
      SiteSlice(dense, lay, i, j)
      == Block(dense, Spun(Before(ns, i), sp), Spun(Before(ns, i + 1), sp), Spun(Before(ns, j), sp), Spun(Before(ns, j + 1), sp))
  {
    var ns := lay.siteNorbits;
    assert Cum(ns, i) - ns[i] == Before(ns, i);
    assert Cum(ns, j) - ns[j] == Before(ns, j);
  }
}
