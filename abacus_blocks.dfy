/** The frame assembly of `get_blocks`: after the log scan, the sparse matrix files
    of the run are parsed, one per requested quantity for an `scf`/`nscf` run and
    one per frame for an `md` run, and each declared dimension is checked against
    the orbital counts of the log.

    The directory `OUT.ABACUS` of one run is a map from paths relative to it to the
    lines of the file; a path missing from the map is a file that does not exist. */
module AbacusBlocks {
  import opened Outcomes
  import opened Text
  import opened Matrices
  import opened AbacusLog
  import opened SparseDump

  /** Rydberg to electron-volt, the factor applied to Hamiltonian blocks. */
  const RydbergToEv: real := 13.605698

  type Files = map<string, seq<string>>

  /** The blocks of one file, by key `i_j_Rx_Ry_Rz`. */
  type Frame = map<string, Matrix>

  datatype Quantity = Hamiltonian | Overlap | DensityMatrix

  /** The three outputs of `get_blocks`; `None` for a quantity not requested. */
  datatype Blocks = Blocks(hamiltonian: Option<seq<Frame>>, overlap: Option<seq<Frame>>,
                           densityMatrix: Option<seq<Frame>>)

  function Tag(q: Quantity): string
  {
    match q
    case Hamiltonian => "H"
    case Overlap => "S"
    case DensityMatrix => "DM"
  }

  function Factor(q: Quantity): real
  {
    if q == Hamiltonian then RydbergToEv else 1.0
  }

  /** The file of quantity q: `data-HR-sparse_SPIN0.csr` and its kin for a single
      frame, `matrix/<i>_data-HR-sparse_SPIN0.csr` for frame i of a trajectory. */
  function MatrixPath(q: Quantity, frame: Option<nat>): string
  {
    match frame
    case None => MatrixName(q)
    case Some(i) => "matrix/" + IntToString(i) + "_" + MatrixName(q)
  }

  function MatrixName(q: Quantity): string
  {
    "data-" + Tag(q) + "R-sparse_SPIN0.csr"
  }

  function LogPath(mode: string): string
  {
    "running_" + mode + ".log"
  }

  /** `{k: v[:v.shape[0] // 2, :v.shape[1] // 2].real for k, v in d.items()}`: the
      overlap of a spinful run keeps its spin-up block, made real. */
  function Spinless(d: Frame): (r: Frame)
    ensures r.Keys == d.Keys
    ensures forall k :: k in r ==> r[k].rows == d[k].rows / 2 && r[k].cols == d[k].cols / 2
    ensures forall k :: k in r ==>
      forall i, j :: 0 <= i < r[k].rows && 0 <= j < r[k].cols ==> r[k].e[i][j] == Complex(d[k].e[i][j].re, 0.0)
  {
    map k | k in d :: RealTopLeft(d[k])
  }

  /** The loop building the spinless overlap. */
  method DropSpin(d: Frame) returns (r: Frame)
    ensures r == Spinless(d)
  {
    r := map[];
    var todo := d.Keys;
    while todo != {}
      invariant todo <= d.Keys
      invariant r == map k | k in d.Keys - todo :: RealTopLeft(d[k])
      decreases |todo|
    {
      var k :| k in todo;
      r := r[k := RealTopLeft(d[k])];
      todo := todo - {k};
    }
  }

  /** One call of `parse_matrix` with the dimension assertion after it, and for a
      spinful overlap the reduction to its spinless part. */
  function Loaded(files: Files, path: string, lay: Layout, q: Quantity, f: map<int, Matrix>, nums: NumberSyntax)
    : Result<Frame>
    requires Consistent(lay)
  {
    if path !in files then Err(FileNotFound)
    else
      var parsed :- Decoded(files[path], lay, Factor(q), f, nums);
      var (blocks, n) := parsed;
      if n != Spun(Sum(lay.siteNorbits), lay.spinful) then Err(AssertionFailed)
      else if q == Overlap && lay.spinful then Ok(Spinless(blocks))
      else Ok(blocks)
  }

  method LoadMatrix(files: Files, path: string, lay: Layout, q: Quantity, f: map<int, Matrix>, nums: NumberSyntax)
    returns (r: Result<Frame>)
    requires Consistent(lay)
    ensures r == Loaded(files, path, lay, q, f, nums)
  {
    if path !in files {
      return Err(FileNotFound);
    }
    var parsed := ParseMatrix(files[path], lay, Factor(q), f, nums);
    if parsed.Err? {
      return Err(parsed.failure);
    }
    var (blocks, n) := parsed.value;
    if n != Spun(Sum(lay.siteNorbits), lay.spinful) {
      return Err(AssertionFailed);
    }
    if q == Overlap && lay.spinful {
      blocks := DropSpin(blocks);
    }
    return Ok(blocks);
  }

  /** Frame k of a trajectory of quantity q, read from `matrix/<k>_...`. */
  function FrameLoader(files: Files, q: Quantity, lay: Layout, f: map<int, Matrix>, nums: NumberSyntax)
    : nat -> Result<Frame>
    requires Consistent(lay)
  {
    (k: nat) => Loaded(files, MatrixPath(q, Some(k)), lay, q, f, nums)
  }

  /** The frame loop of an `md` run from frame i on, with the frames read so far in
      `acc`; frame k is `load(k)`. */
  function Trajectory(load: nat -> Result<Frame>, nframes: nat, i: nat, acc: seq<Frame>): Result<seq<Frame>>
    decreases nframes - i
  {
    if i >= nframes then Ok(acc)
    else
      var frame :- load(i);
      Trajectory(load, nframes, i + 1, acc + [frame])
  }

  /** The list of frames of quantity q: one file for `scf`/`nscf`, `nframes` files for `md`. */
  function Collected(files: Files, q: Quantity, mode: string, nframes: nat, lay: Layout, f: map<int, Matrix>,
                     nums: NumberSyntax): Result<seq<Frame>>
    requires Consistent(lay)
  {
    if mode == "md" then Trajectory(FrameLoader(files, q, lay, f, nums), nframes, 0, [])
    else
      var frame :- Loaded(files, MatrixPath(q, None), lay, q, f, nums);
      Ok([frame])
  }

  method CollectFrames(files: Files, q: Quantity, mode: string, nframes: nat, lay: Layout, f: map<int, Matrix>,
                       nums: NumberSyntax) returns (r: Result<seq<Frame>>)
    requires Consistent(lay)
    ensures r == Collected(files, q, mode, nframes, lay, f, nums)
  {
    if mode != "md" {
      var frame := LoadMatrix(files, MatrixPath(q, None), lay, q, f, nums);
      if frame.Err? {
        return Err(frame.failure);
      }
      return Ok([frame.value]);
    }
    ghost var load := FrameLoader(files, q, lay, f, nums);
    var frames: seq<Frame> := [];
    for i := 0 to nframes
      invariant Trajectory(load, nframes, 0, []) == Trajectory(load, nframes, i, frames)
    {
      var frame := LoadMatrix(files, MatrixPath(q, Some(i)), lay, q, f, nums);
      assert frame == load(i);
      if frame.Err? {
        return Err(frame.failure);
      }
      frames := frames + [frame.value];
    }
    return Ok(frames);
  }

  function Requested(wanted: bool, files: Files, q: Quantity, mode: string, nframes: nat, lay: Layout,
                     f: map<int, Matrix>, nums: NumberSyntax): Result<Option<seq<Frame>>>
    requires Consistent(lay)
  {
    if !wanted then Ok(None)
    else
      var frames :- Collected(files, q, mode, nframes, lay, f, nums);
      Ok(Some(frames))
  }

  predicate KnownMode(mode: string)
  {
    mode == "scf" || mode == "nscf" || mode == "md"
  }

  /** `get_blocks`, given the run mode, the number of element types and of sites and
      the frame count of the structure, and the periodic table. */
  function BlocksOf(files: Files, mode: string, ntypes: nat, nsites: nat, nframes: nat, table: map<string, int>,
                    hamiltonian: bool, overlap: bool, densityMatrix: bool, f: map<int, Matrix>, nums: NumberSyntax)
    : Result<Blocks>
  {
    if LogPath(mode) !in files then Err(FileNotFound)
    else
      var lay :- LogLayout(files[LogPath(mode)], ntypes, nsites, table, hamiltonian, overlap);
      LayoutSites(files[LogPath(mode)], ntypes, nsites, table, hamiltonian, overlap, lay);
      if !KnownMode(mode) then Err(NotImplemented)
      else
        var h :- Requested(hamiltonian, files, Hamiltonian, mode, nframes, lay, f, nums);
        var s :- Requested(overlap, files, Overlap, mode, nframes, lay, f, nums);
        var d :- Requested(densityMatrix, files, DensityMatrix, mode, nframes, lay, f, nums);
        Ok(Blocks(h, s, d))
  }

  method GetBlocks(files: Files, mode: string, ntypes: nat, nsites: nat, nframes: nat, table: map<string, int>,
                   hamiltonian: bool, overlap: bool, densityMatrix: bool, f: map<int, Matrix>, nums: NumberSyntax)
    returns (r: Result<Blocks>)
    ensures r == BlocksOf(files, mode, ntypes, nsites, nframes, table, hamiltonian, overlap, densityMatrix, f, nums)
  {
    var log := LogPath(mode);
    if log !in files {
      return Err(FileNotFound);
    }
    var layout := ReadLayout(files[log], ntypes, nsites, table, hamiltonian, overlap);
    if layout.Err? {
      return Err(layout.failure);
    }
    var lay := layout.value;
    LayoutSites(files[log], ntypes, nsites, table, hamiltonian, overlap, lay);
    if !KnownMode(mode) {
      return Err(NotImplemented);
    }
    var h, s, d: Option<seq<Frame>> := None, None, None;
    if hamiltonian {
      var frames := CollectFrames(files, Hamiltonian, mode, nframes, lay, f, nums);
      if frames.Err? {
        return Err(frames.failure);
      }
      h := Some(frames.value);
    }
    if overlap {
      var frames := CollectFrames(files, Overlap, mode, nframes, lay, f, nums);
      if frames.Err? {
        return Err(frames.failure);
      }
      s := Some(frames.value);
    }
    if densityMatrix {
      var frames := CollectFrames(files, DensityMatrix, mode, nframes, lay, f, nums);
      if frames.Err? {
        return Err(frames.failure);
      }
      d := Some(frames.value);
    }
    return Ok(Blocks(h, s, d));
  }

  // ---------------------------------------------------------------- properties

  /** The frame loop returns one frame per index from i up to `nframes`, frame k
      being `load(k)`, after the frames already read. */
  lemma {:induction false} TrajectoryFrames(load: nat -> Result<Frame>, nframes: nat, i: nat, acc: seq<Frame>,
                                            fs: seq<Frame>)
    requires i <= nframes && Trajectory(load, nframes, i, acc) == Ok(fs)
    ensures |fs| == |acc| + nframes - i && fs[..|acc|] == acc
    ensures forall k :: i <= k < nframes ==> load(k) == Ok(fs[|acc| + k - i])
    decreases nframes - i
  {
    if i < nframes {
      var frame := load(i).value;
      TrajectoryFrames(load, nframes, i + 1, acc + [frame], fs);
      assert fs[..|acc|] == fs[..|acc| + 1][..|acc|];
    }
  }

  /** The frame loop fails with the error of the first frame that fails to load. */
  lemma {:induction false} TrajectoryFails(load: nat -> Result<Frame>, nframes: nat, i: nat, acc: seq<Frame>,
                                           e: Failure)
    requires Trajectory(load, nframes, i, acc) == Err(e)
    ensures exists k :: i <= k < nframes && load(k) == Err(e) && (forall m :: i <= m < k ==> load(m).Ok?)
    decreases nframes - i
  {
    if load(i).Ok? {
      TrajectoryFails(load, nframes, i + 1, acc + [load(i).value], e);
      var k :| i + 1 <= k < nframes && load(k) == Err(e) && (forall m :: i + 1 <= m < k ==> load(m).Ok?);
      assert forall m :: i <= m < k ==> load(m).Ok?;
    }
  }

  /** An `scf`/`nscf` run gives one frame, read from the plain file name; an `md` run
      gives `nframes` frames, frame k read from `matrix/<k>_...`. */
  lemma CollectedFrames(files: Files, q: Quantity, mode: string, nframes: nat, lay: Layout, f: map<int, Matrix>,
                        nums: NumberSyntax, fs: seq<Frame>)
    requires Consistent(lay) && Collected(files, q, mode, nframes, lay, f, nums) == Ok(fs)
    ensures |fs| == if mode == "md" then nframes else 1
    ensures mode != "md" ==> Loaded(files, MatrixPath(q, None), lay, q, f, nums) == Ok(fs[0])
    ensures mode == "md" ==> forall k :: 0 <= k < nframes ==> Loaded(files, MatrixPath(q, Some(k)), lay, q, f, nums) == Ok(fs[k])
  {
    if mode == "md" {
      TrajectoryLoaded(files, q, nframes, lay, f, nums, fs);
    }
  }

  lemma TrajectoryLoaded(files: Files, q: Quantity, nframes: nat, lay: Layout, f: map<int, Matrix>,
                         nums: NumberSyntax, fs: seq<Frame>)
    requires Consistent(lay) && Trajectory(FrameLoader(files, q, lay, f, nums), nframes, 0, []) == Ok(fs)
    ensures |fs| == nframes
    ensures forall k :: 0 <= k < nframes ==> Loaded(files, MatrixPath(q, Some(k)), lay, q, f, nums) == Ok(fs[k])
  {
    var load := FrameLoader(files, q, lay, f, nums);
    TrajectoryFrames(load, nframes, 0, [], fs);
    forall k | 0 <= k < nframes
      ensures Loaded(files, MatrixPath(q, Some(k)), lay, q, f, nums) == Ok(fs[k])
    {
      LoaderAt(files, q, lay, f, nums, k);
      assert load(k) == Ok(fs[k]);
    }
  }

  lemma LoaderAt(files: Files, q: Quantity, lay: Layout, f: map<int, Matrix>, nums: NumberSyntax, k: nat)
    requires Consistent(lay)
    ensures FrameLoader(files, q, lay, f, nums)(k) == Loaded(files, MatrixPath(q, Some(k)), lay, q, f, nums)
  {
  }

  /** Distinct frames and quantities are read from distinct files. */
  lemma MatrixPathsDistinct(q: Quantity, i: nat, r: Quantity, j: nat)
    requires MatrixPath(q, Some(i)) == MatrixPath(r, Some(j))
    ensures q == r && i == j
  {
    var a, b := MatrixName(q), MatrixName(r);
    var x, y := IntToString(i), IntToString(j);
    Assoc("matrix/", x, "_");
    Assoc("matrix/", x + "_", a);
    Assoc("matrix/", y, "_");
    Assoc("matrix/", y + "_", b);
    CancelPrefix("matrix/", x + "_" + a, y + "_" + b);
    NoUnderscore(i);
    NoUnderscore(j);
    SplitAtUnderscore(x, a, y, b);
    IntToStringInjective(i, j);
    MatrixNameInjective(q, r);
  }

  lemma MatrixNameInjective(q: Quantity, r: Quantity)
    requires MatrixName(q) == MatrixName(r)
    ensures q == r
  {
    assert MatrixName(q)[5] == Tag(q)[0];
    assert MatrixName(r)[5] == Tag(r)[0];
  }

  /** On success, exactly the requested quantities are present, each as the frames
      collected with the layout of the log, whose spin flag is always off. */
  lemma BlocksRequested(files: Files, mode: string, ntypes: nat, nsites: nat, nframes: nat, table: map<string, int>,
                        hamiltonian: bool, overlap: bool, densityMatrix: bool, f: map<int, Matrix>, nums: NumberSyntax,
                        b: Blocks)
    requires BlocksOf(files, mode, ntypes, nsites, nframes, table, hamiltonian, overlap, densityMatrix, f, nums) == Ok(b)
    ensures LogPath(mode) in files && KnownMode(mode)
    ensures var lay := LogLayout(files[LogPath(mode)], ntypes, nsites, table, hamiltonian, overlap);
      && lay.Ok? && Consistent(lay.value) && !lay.value.spinful && |lay.value.siteNorbits| == nsites
      && (b.hamiltonian.Some? <==> hamiltonian)
      && (b.overlap.Some? <==> overlap)
      && (b.densityMatrix.Some? <==> densityMatrix)
      && (hamiltonian ==> Collected(files, Hamiltonian, mode, nframes, lay.value, f, nums) == Ok(b.hamiltonian.value))
      && (overlap ==> Collected(files, Overlap, mode, nframes, lay.value, f, nums) == Ok(b.overlap.value))
      && (densityMatrix ==> Collected(files, DensityMatrix, mode, nframes, lay.value, f, nums) == Ok(b.densityMatrix.value))
  {
    var log := files[LogPath(mode)];
    LayoutSites(log, ntypes, nsites, table, hamiltonian, overlap,
                LogLayout(log, ntypes, nsites, table, hamiltonian, overlap).value);
  }

  /** With the log read, a run mode other than `scf`, `nscf` and `md` is refused. */
  lemma UnknownModeRefused(files: Files, mode: string, ntypes: nat, nsites: nat, nframes: nat, table: map<string, int>,
                           hamiltonian: bool, overlap: bool, densityMatrix: bool, f: map<int, Matrix>, nums: NumberSyntax)
    requires LogPath(mode) in files && !KnownMode(mode)
    requires LogLayout(files[LogPath(mode)], ntypes, nsites, table, hamiltonian, overlap).Ok?
    ensures BlocksOf(files, mode, ntypes, nsites, nframes, table, hamiltonian, overlap, densityMatrix, f, nums)
            == Err(NotImplemented)
  {
  }

  /** Every key of a loaded frame is `i_j_Rx_Ry_Rz` for two sites of the structure. */
  lemma LoadedKeys(files: Files, path: string, lay: Layout, q: Quantity, f: map<int, Matrix>, nums: NumberSyntax,
                   fr: Frame, k: string)
    requires Consistent(lay) && Loaded(files, path, lay, q, f, nums) == Ok(fr) && k in fr
    ensures exists p: nat, r: nat, c: Cell :: p < |lay.siteNorbits| && r < |lay.siteNorbits| && k == Key(p, r, c)
  {
    var lines := files[path];
    var h := Header(lines);
    var d := Decode(lines, h.pos, h.result.value, lay, Factor(q), f, nums, map[]).value;
    assert k in d;
    DecodeKeys(lines, h.pos, h.result.value, lay, Factor(q), f, nums, map[], d, k);
  }

  /** The frames of a spinless run keep their blocks at the declared dimension: an
      overlap frame is never reduced, and a frame is loaded only when the file
      declares exactly the orbital count of the log. */
  lemma LoadedDimension(files: Files, path: string, lay: Layout, q: Quantity, f: map<int, Matrix>, nums: NumberSyntax,
                        fr: Frame)
    requires Consistent(lay) && !lay.spinful && Loaded(files, path, lay, q, f, nums) == Ok(fr)
    ensures path in files && Decoded(files[path], lay, Factor(q), f, nums) == Ok((fr, Sum(lay.siteNorbits)))
  {
  }
}
