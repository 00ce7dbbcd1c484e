# dftio parsers: ABACUS blocks and basis, VASP eigenvalues

This project models in Dafny the parsing core of dftio, the package that turns the output of
density-functional codes into training data.

**The ABACUS parser** (`dftio/io/abacus/abacus_parser.py`):

- **The log scan.** `running_<mode>.log` is read for each element's `READING ATOM TYPE` section. From the section come the element's symbol, its atomic number and its list of radial orbitals, one angular momentum each, read from the `number of zeta` lines. Then the `COORDINATES` table gives each site's element and orbital count, and the `nspin` line is read.
- **`get_basis`.** Each element gets a basis string such as `2s2p1d`.
- **`parse_matrix`.** This is the decoder of the `data-*R-sparse_SPIN0.csr` dumps:
  - A header gives the matrix dimension.
  - Each record `Rx Ry Rz nnz` carries a CSR matrix.
  - The matrix is expanded as scipy does and cut into one block per pair of sites.
  - Each block's orbitals are transformed into dftio's convention (`transform`).
  - A block is stored scaled under the key `i_j_Rx_Ry_Rz`, unless every entry is below 1e-10.
- **The frame assembly of `get_blocks`.** It reads one file per requested quantity for `scf`/`nscf` runs, and one per frame for `md` runs. Each declared dimension is checked against the orbital counts.
- **`get_abs_h0_folders` and `add_h0_delta_h`.** They pair every structure with the reference (H0) run of the same folder name. For each pair, a copy of the stored record goes to a new database, its Hamiltonian replaced by the difference from the reference Hamiltonian. Records are written in batches of 50, under consecutive 4-byte big-endian keys.

**The VASP parser** (`dftio/io/vasp/vasp_parser.py`): `read_EIGENVAL` takes the band count from line 6 of an `EIGENVAL` file. It then collects the k-points, and sorted rows of band energies, one row per k-point.

Modules:

- `Outcomes`: Option, Result, and Python's exceptions as `Failure` values.
- `Text`: tokens, `str.split`, `int`/`str`, `str.replace`, and path leaves.
- `TextFiles`: a file read line by line with a cursor.
- `OrderedDicts`: insertion-ordered `dict`.
- `Matrices`: complex matrices, products, blocks, `block_diag`, and the spin reorder.
- `CsrArrays`: scipy's CSR expansion.
- `OrbitalTransform`: `transform`.
- `AbacusLog`: the log scan.
- `AbacusBasis`: `get_basis`.
- `SparseDump`: `parse_matrix`.
- `AbacusBlocks`: the frame assembly.
- `AbacusDelta`: the H0 pairing and delta database.
- `VaspEigenval`: `read_EIGENVAL`.

How the source is represented:

- Each loop of the source is a method with a loop whose `ensures` ties it to a recursive specification function. The properties are lemmas about that function.
- A Python exception is an `Err` naming its class. An `assert` becomes `AssertionFailed`.
- Files are sequences of lines. A file read with `readline` is the `TextFiles.TextFile` class, whose cursor the methods advance.

Where the intended behaviour and the code disagree, the model follows the code. The intent is that `NSPIN == 4` marks a spinful run, but the log scan never reports a spinful run (`abacus_parser.py:192` tests a non-empty string literal, which is always true). So spin-orbit runs are decoded as spinless, and the spinful branches of `parse_matrix` and of the frame assembly are modelled but unreachable from `get_blocks`.

## Model

| member | source | states |
|---|---|---|
| TextFiles.TextFile.ReadLine | dftio/io/abacus/abacus_parser.py:105 | `readline` returns the line under the cursor and advances it; at end of file it returns "" and the cursor stays |
| TextFiles.TextFile.FindTargetLine | dftio/io/abacus/abacus_parser.py:99 | `find_target_line` returns the first line from the cursor that contains the target, leaving the cursor after it; with no such line it returns None at end of file, and no line skipped contained the target |
| TextFiles.FindFromFirst | dftio/io/abacus/abacus_parser.py:143 | when line k is the first line from the cursor to contain the target, `find_target_line` returns exactly that line |
| Text.SplitTokens | dftio/io/abacus/abacus_parser.py:161 | `str.split()` returns non-empty tokens free of white space that, joined, are the line without its white space |
| Text.ParseIntRoundTrip | dftio/io/abacus/abacus_parser.py:145 | `int(str(i)) == i` for every integer |
| Text.IntToStringInjective | dftio/io/abacus/abacus_parser.py:145 | distinct type indices have distinct decimal strings, so the index check accepts only index k+1 |
| Text.LettersOnly | dftio/io/abacus/abacus_parser.py:152 | the `[A-Za-z]` filter of a label keeps letters only |
| Text.LeafShape | dftio/io/abacus/abacus_parser.py:376 | `os.path.split(p)[-1]` contains no '/', is a suffix of p, and is the whole path or follows a '/' |
| OrderedDicts.AssignIsUpdate | dftio/io/abacus/abacus_parser.py:121 | assigning `d[k] = v` to an insertion-ordered dict keeps the keys distinct and changes the contents exactly as a map update |
| OrderedDicts.AssignAt | dftio/io/abacus/abacus_parser.py:121 | assigning to a present key replaces its entry in place, keeping its position |
| OrderedDicts.NotPresentAppends | dftio/io/abacus/abacus_parser.py:121 | assigning to a new key appends the pair at the end |
| AbacusLog.Repeat | dftio/io/abacus/abacus_parser.py:118 | `[L] * num_L` has max(num_L, 0) copies of L |
| AbacusLog.ReadZetaRun | dftio/io/abacus/abacus_parser.py:111-120 | the zeta loop reads the same orbitals, stops at the same line and fails the same way as the specification `ZetaRun` |
| AbacusLog.ZetaRunEnds | dftio/io/abacus/abacus_parser.py:119-120 | a first line without "number of zeta" ends the run with no orbitals, consuming that line |
| AbacusLog.ZetaRunFails | dftio/io/abacus/abacus_parser.py:115-117 | a zeta line whose L or count does not parse raises that error after consuming the line |
| AbacusLog.ZetaRunTakes | dftio/io/abacus/abacus_parser.py:114-118 | a zeta line `Lx: n` prepends n copies of L and (2L+1)·n orbitals to the rest of the run |
| AbacusLog.ZetaRunContinues | dftio/io/abacus/abacus_parser.py:112-118 | a successful run that starts on a zeta line continues from the next line and stops where that run stops |
| AbacusLog.ZetaRunStops | dftio/io/abacus/abacus_parser.py:112-120 | a successful run consumed only zeta lines, then either reached end of file or consumed the first line without the marker |
| AbacusLog.WidthRepeat | dftio/io/abacus/abacus_parser.py:164 | n orbitals of angular momentum L span (2L+1)·n rows |
| AbacusLog.WidthAppend | dftio/io/abacus/abacus_parser.py:164-165 | the widths of two orbital lists add up |
| AbacusLog.ZetaRunWidth | dftio/io/abacus/abacus_parser.py:156-165 | for non-negative zeta counts, the orbital count accumulated in the loop equals the width of the orbital list built beside it |
| AbacusLog.ReadTypeSection | dftio/io/abacus/abacus_parser.py:143-167 | one type section is read as the specification `SectionAt` says: marker found, index equal to k+1, label line present, symbol in the periodic table, then the zeta run |
| AbacusLog.ReadTypeSections | dftio/io/abacus/abacus_parser.py:142-169 | the loop over the element types reads the sections one after the other, as `Sections` says |
| AbacusLog.SectionLabelled | dftio/io/abacus/abacus_parser.py:143-154 | a section that reads successfully found a type marker with index k+1 followed by a label line; its symbol is the letters of the label's last token, is in the periodic table and carries that atomic number |
| AbacusLog.SectionAtOk | dftio/io/abacus/abacus_parser.py:143-153 | given the line of the type marker, the symbol read is the letters of the next line's last token |
| AbacusLog.SectionWrongIndex | dftio/io/abacus/abacus_parser.py:145 | a type marker whose last token is not k+1 makes the section fail |
| AbacusLog.SectionsLabelled | dftio/io/abacus/abacus_parser.py:142-154 | a successful scan yields exactly one section per type, each with a letters-only symbol from the periodic table and its atomic number |
| AbacusLog.SectionsCounted | dftio/io/abacus/abacus_parser.py:156-165 | for logs whose zeta counts are non-negative, in every section read the orbital count is the width of the orbital list |
| AbacusLog.KeysAgree | dftio/io/abacus/abacus_parser.py:168-169 | `site_norbits_dict` and `orbital_types_dict` have the same atomic numbers |
| AbacusLog.DictsAgree | dftio/io/abacus/abacus_parser.py:168-169 | each element's orbital count in one dict is the width of its orbital list in the other, the later section winning in both |
| AbacusLog.ReadSites | dftio/io/abacus/abacus_parser.py:176-183 | the coordinates loop reads the elements and orbital counts of the n sites as `Sites` says |
| AbacusLog.SitesAll | dftio/io/abacus/abacus_parser.py:176-183 | n well-formed site lines give their elements and counts in order, consuming n lines |
| AbacusLog.SitesFailAt | dftio/io/abacus/abacus_parser.py:177-181 | the first malformed site line raises its error and stops the scan after it |
| AbacusLog.SitesFromSections | dftio/io/abacus/abacus_parser.py:180-183 | every site's element is an atomic number of the periodic table with an entry in the orbital-count dict, and its orbital count is that entry |
| AbacusLog.SiteTableSites | dftio/io/abacus/abacus_parser.py:172-197 | the coordinates table and spin line give one element and one count per site, the orbital lists of the sections, and a spinless run |
| AbacusLog.SiteTableWidths | dftio/io/abacus/abacus_parser.py:156-183 | each site's orbital count is the width of its element's orbital list |
| AbacusLog.NspinRequired | dftio/io/abacus/abacus_parser.py:185-191 | when the Hamiltonian is requested or the overlap is not, the spin check succeeds exactly when some later line contains "nspin" |
| AbacusLog.ReadLayout | dftio/io/abacus/abacus_parser.py:139-197 | the whole log scan of `get_blocks` computes the specification `LogLayout` |
| AbacusLog.LayoutSites | dftio/io/abacus/abacus_parser.py:174-197 | a successful scan gives one element and one orbital count per site, every element has an orbital list, and the run is never spinful |
| AbacusLog.LayoutWidths | dftio/io/abacus/abacus_parser.py:156-183 | in a successful scan, each site's orbital count is the width of its element's orbital list |
| AbacusBasis.PresentExact | dftio/io/abacus/abacus_parser.py:125 | the angular momenta listed are exactly those from 0 to the maximum that occur in the element's orbitals |
| AbacusBasis.PresentAscending | dftio/io/abacus/abacus_parser.py:125 | they are listed in strictly increasing order |
| AbacusBasis.PresentCounts | dftio/io/abacus/abacus_parser.py:124-125 | the counts of the listed momenta add up to the number of orbitals in the range |
| AbacusBasis.BasisAccountsForAll | dftio/io/abacus/abacus_parser.py:124-126 | for non-negative angular momenta, the counts written in a basis string add up to the element's number of radial orbitals |
| AbacusBasis.RenderOk | dftio/io/abacus/abacus_parser.py:125 | rendering succeeds exactly when every listed momentum has a letter in `orbitalId`, and raises KeyError otherwise |
| AbacusBasis.BasisStringOutcome | dftio/io/abacus/abacus_parser.py:124-126 | an element with no orbitals raises ValueError (`max` of nothing); otherwise the string is rendered exactly when every momentum present has a letter, and KeyError is raised otherwise |
| AbacusBasis.CollectSymbols | dftio/io/abacus/abacus_parser.py:121 | the loop fills `orbital_types_dict` by symbol, as the specification `SymbolTypes` says |
| AbacusBasis.SymbolTypesDistinct | dftio/io/abacus/abacus_parser.py:121 | `orbital_types_dict` has each symbol once |
| AbacusBasis.SymbolTypesLastWins | dftio/io/abacus/abacus_parser.py:121 | for a symbol read in several sections, the dict holds the orbitals of the last one |
| AbacusBasis.SymbolTypesKeys | dftio/io/abacus/abacus_parser.py:121 | every symbol in the dict came from a section |
| AbacusBasis.RenderBasis | dftio/io/abacus/abacus_parser.py:122-127 | the rendering loop computes `RenderAll` over the dict |
| AbacusBasis.RenderAllStops | dftio/io/abacus/abacus_parser.py:122-127 | the first element whose string fails fixes the error raised |
| AbacusBasis.SymbolTypesOrder | dftio/io/abacus/abacus_parser.py:98-121 | `orbital_types_dict` lists each symbol once, in the order of its first type section in the log |
| AbacusBasis.RenderAllEntries | dftio/io/abacus/abacus_parser.py:122-127 | the ordered dict `basis` has the same keys as `orbital_types_dict`, in the same order, and each value is that element's basis string |
| AbacusBasis.GetBasis | dftio/io/abacus/abacus_parser.py:91-128 | `get_basis` computes the specification `Basis` of the run's files: FileNotFoundError when `running_<mode>.log` is missing, else the ordered `basis` dict of the log |
| AbacusBasis.BasisInLogOrder | dftio/io/abacus/abacus_parser.py:96-128 | a successful `basis` has one key per symbol of the log, in the order of its first type section |
| AbacusBasis.BasisOfLastSection | dftio/io/abacus/abacus_parser.py:98-127 | an element's basis string is rendered from the orbitals of its last section in the log |
| AbacusBasis.BasisKeysFromLog | dftio/io/abacus/abacus_parser.py:98-127 | every element of the basis was announced by a type section of the log |
| Matrices.Stack | dftio/io/abacus/abacus_parser.py:361-362 | `block_diag` has as many rows and columns as its factors together, with each factor on the diagonal and zeros elsewhere |
| Matrices.StackRow | dftio/io/abacus/abacus_parser.py:361-362 | row x of factor p in `block_diag` is that factor's row placed at the factor's column offset, zero elsewhere |
| Matrices.StackOfUnits | dftio/io/abacus/abacus_parser.py:361-362 | `block_diag` of 1×1 identities is the identity |
| Matrices.BlockOfProduct | dftio/io/abacus/abacus_parser.py:364 | under block-diagonal left and right operands, an entry of `bl @ m @ br.T` is the entry of one factor times the matching sub-block of m times the other factor transposed |
| Matrices.MatMulIdentityLeft | dftio/io/abacus/abacus_parser.py:364 | the identity on the left leaves a matrix unchanged |
| Matrices.MatMulIdentityRight | dftio/io/abacus/abacus_parser.py:364 | the transposed identity on the right leaves a matrix unchanged |
| Matrices.SpinMajorAt | dftio/io/abacus/abacus_parser.py:349-351 | the reshape–transpose–reshape moves entry (2a+s, 2b+t) of a spinful block to (s·ni+a, t·nj+b) |
| OrbitalTransform.Max | dftio/io/abacus/abacus_parser.py:359 | `max(*xs)` is an element of xs and bounds all of them |
| OrbitalTransform.Factors | dftio/io/abacus/abacus_parser.py:361-362 | the factor list succeeds exactly when every angular momentum is in `ABACUS2DFTIO`, and holds their factors in order; otherwise KeyError |
| OrbitalTransform.Transform | dftio/io/abacus/abacus_parser.py:357-364 | fewer than two momenta in all raise TypeError (from `max`); a momentum above 5 raises NotImplementedError; a result means every momentum is at most 5 and in the table |
| OrbitalTransform.TransformMissingKey | dftio/io/abacus/abacus_parser.py:361 | a negative angular momentum passes the `> 5` check and raises KeyError at the table lookup |
| OrbitalTransform.TransformShape | dftio/io/abacus/abacus_parser.py:357-364 | the product succeeds exactly when the widths of the row and column orbitals match the block's shape, raises ValueError otherwise, and has the block's shape (1 along a side with no orbitals) |
| OrbitalTransform.TransformProduct | dftio/io/abacus/abacus_parser.py:361-364 | the result is `block_diag(lefts) @ m @ block_diag(rights).T` |
| OrbitalTransform.FactorOffsets | dftio/io/abacus/abacus_parser.py:361 | factor k of `block_diag` starts at row and column offset Σ(2l+1) over the earlier momenta |
| OrbitalTransform.FactorRow | dftio/io/abacus/abacus_parser.py:361 | each row of a factor sits at its offset in `block_diag`, zero elsewhere |
| OrbitalTransform.DiagProductBlocks | dftio/io/abacus/abacus_parser.py:361-364 | the entry of the triple product at the offsets of orbitals p and q is the corresponding entry of the factors' product with the (p, q) orbital sub-block |
| OrbitalTransform.TransformBlocks | dftio/io/abacus/abacus_parser.py:357-364 | each (p, q) orbital sub-block of the result is `F[l_p] @ block @ F[l_q].T`, so orbitals are converted one by one and never mixed |
| OrbitalTransform.TransformOfScalars | dftio/io/abacus/abacus_parser.py:357-364 | with only s orbitals and the 1×1 identity for s, the transform returns the block unchanged |
| CsrArrays.DenseShape | dftio/io/abacus/abacus_parser.py:326-327 | the expansion succeeds exactly when the arrays pass scipy's checks and its row pointers and column indices are in range; it is n×n; shape and length errors are ValueError |
| CsrArrays.DenseStored | dftio/io/abacus/abacus_parser.py:326-327 | a value stored once in row r at column c is entry (r, c) of the dense matrix |
| CsrArrays.DenseUnstored | dftio/io/abacus/abacus_parser.py:326-327 | an entry with no stored value is zero |
| CsrArrays.EntrySumNone | dftio/io/abacus/abacus_parser.py:326-327 | a column with no stored value sums to zero |
| CsrArrays.EntrySumOne | dftio/io/abacus/abacus_parser.py:326-327 | a column stored once sums to its value |
| CsrArrays.NonZeros | dftio/io/abacus/abacus_parser.py:326-327 | a row's stored pairs are its non-zero entries, in increasing column order |
| CsrArrays.NonZerosComplete | dftio/io/abacus/abacus_parser.py:326-327 | every non-zero entry of a row is stored |
| CsrArrays.RowStored | dftio/io/abacus/abacus_parser.py:326-327 | row r's non-zeros sit, in order, between row pointers r and r+1 |
| CsrArrays.RowSum | dftio/io/abacus/abacus_parser.py:326-327 | expanding a row's stored pairs gives back each of its entries |
| CsrArrays.EncodeChecks | dftio/io/abacus/abacus_parser.py:326-327 | the arrays ABACUS writes for a square matrix pass all of scipy's checks |
| CsrArrays.EncodedEntry | dftio/io/abacus/abacus_parser.py:326-327 | expanding those arrays gives back every entry |
| CsrArrays.EncodeRoundTrip | dftio/io/abacus/abacus_parser.py:326-327 | expanding the CSR arrays of a square matrix gives back the matrix |
| SparseDump.ReadInts | dftio/io/abacus/abacus_parser.py:326-327 | `astype(int)` succeeds exactly when every token is an integer, and keeps their order |
| SparseDump.ReadValueList | dftio/io/abacus/abacus_parser.py:326-334 | the value line converts exactly when each token does, and keeps their order |
| SparseDump.ComplexLiteral | dftio/io/abacus/abacus_parser.py:329-332 | the four replacements turn `(a,b)` into `a+bj`, or `a-cj` when b is `-c` |
| SparseDump.OpenParen | dftio/io/abacus/abacus_parser.py:329 | removing '(' from `(a,b)` gives `a,b)` |
| SparseDump.CloseParen | dftio/io/abacus/abacus_parser.py:330 | replacing ')' by 'j' gives `a,bj` |
| SparseDump.Comma | dftio/io/abacus/abacus_parser.py:331 | replacing ',' by '+' gives `a+bj` |
| SparseDump.PlusMinus | dftio/io/abacus/abacus_parser.py:332 | replacing "+-" by "-" turns `a+-cj` into `a-cj` and leaves other literals alone |
| SparseDump.KeyInjective | dftio/io/abacus/abacus_parser.py:337 | distinct site pairs or lattice vectors get distinct keys `i_j_Rx_Ry_Rz` |
| SparseDump.SiteBounds | dftio/io/abacus/abacus_parser.py:338-342 | for non-negative orbital counts, the slice bounds of site i are ordered, within the matrix, and (1+spinful)·norbits(i) apart |
| SparseDump.SiteSliceBlock | dftio/io/abacus/abacus_parser.py:338-342 | for non-negative orbital counts and a dense matrix of the announced dimension, the slice of sites (i, j) is the block between the cumulative-sum bounds, and those bounds fit the matrix |
| SparseDump.SiteSliceShape | dftio/io/abacus/abacus_parser.py:338-342 | for non-negative orbital counts and a dense matrix of the announced dimension, the slice of sites (i, j) has (1+spinful)·norbits rows and columns, and each entry is the dense entry at the sites' offsets |
| SparseDump.SiteSliceIsBlock | dftio/io/abacus/abacus_parser.py:338-342 | for any orbital counts, the slice is the block between the cumulative bounds |
| SparseDump.StoreBlocks | dftio/io/abacus/abacus_parser.py:335-354 | the double site loop of one record computes the specification `Pairs` |
| SparseDump.PairsReach | dftio/io/abacus/abacus_parser.py:335-354 | every site pair is visited: its block is stored under its key, or its key is left as it was |
| SparseDump.PairsKeepsOther | dftio/io/abacus/abacus_parser.py:335-354 | keys of no site pair visited are left as they were |
| SparseDump.PairsOnly | dftio/io/abacus/abacus_parser.py:335-354 | every new key belongs to a site pair of the loop |
| SparseDump.PairBlockStored | dftio/io/abacus/abacus_parser.py:338-354 | a pair's block is stored exactly when some entry reaches 1e-10, and is the transformed slice times the factor |
| SparseDump.RecordBlocks | dftio/io/abacus/abacus_parser.py:335-354 | for one record, the key of sites (p, q) is present exactly when their slice is not negligible, and holds the transformed slice times the factor |
| SparseDump.RecordKeys | dftio/io/abacus/abacus_parser.py:337 | every key of a record's blocks names two sites of the structure and the record's lattice vector |
| SparseDump.ReadBlocks | dftio/io/abacus/abacus_parser.py:321-334 | reading the three CSR lines of a record and cutting its blocks computes `BlocksAt` |
| SparseDump.ReadRecord | dftio/io/abacus/abacus_parser.py:315-334 | one record line and its CSR lines are read as `RecordAt` says |
| SparseDump.RecordStream | dftio/io/abacus/abacus_parser.py:315-324 | an empty or two-token line ends the file; a record with nnz = 0 is skipped; otherwise the record's blocks are added and decoding resumes four lines on, or its error is raised |
| SparseDump.StepKeys | dftio/io/abacus/abacus_parser.py:337 | every key one record stores names two sites and some lattice vector |
| SparseDump.DecodeKeys | dftio/io/abacus/abacus_parser.py:315-354 | every key the decoder adds names two sites and some lattice vector |
| SparseDump.DeclaredDimension | dftio/io/abacus/abacus_parser.py:309-314 | the dimension returned is the last token of the first line containing "Matrix Dimension of", which is line 1 or line 2 |
| SparseDump.ParseMatrix | dftio/io/abacus/abacus_parser.py:304-355 | `parse_matrix` computes the specification `Decoded` of the file |
| AbacusBlocks.Spinless | dftio/io/abacus/abacus_parser.py:225-229 | the spinless overlap keeps the keys and the real part of each block's top-left half |
| AbacusBlocks.DropSpin | dftio/io/abacus/abacus_parser.py:226-228 | the loop builds `Spinless` |
| AbacusBlocks.LoadMatrix | dftio/io/abacus/abacus_parser.py:201-231 | one `parse_matrix` call and the dimension assertion after it compute `Loaded` |
| AbacusBlocks.LoadedDimension | dftio/io/abacus/abacus_parser.py:210 | a loaded frame's file exists and declares the dimension Σ norbits of the sites |
| AbacusBlocks.LoadedKeys | dftio/io/abacus/abacus_parser.py:337 | every key of a loaded frame names two sites of the structure |
| AbacusBlocks.CollectFrames | dftio/io/abacus/abacus_parser.py:199-298 | the frames of one quantity are read as `Collected` says |
| AbacusBlocks.TrajectoryFrames | dftio/io/abacus/abacus_parser.py:250-261 | the md loop returns one frame per index, frame k being the file of frame k, after the frames already read |
| AbacusBlocks.TrajectoryFails | dftio/io/abacus/abacus_parser.py:250-261 | a failing md loop fails with the error of its first failing frame |
| AbacusBlocks.CollectedFrames | dftio/io/abacus/abacus_parser.py:199-298 | an md run gives one frame per structure frame, read from `matrix/<k>_...`; any other run gives one frame, read from the single file |
| AbacusBlocks.MatrixPathsDistinct | dftio/io/abacus/abacus_parser.py:252 | different quantities or frames are read from different files |
| AbacusBlocks.MatrixNameInjective | dftio/io/abacus/abacus_parser.py:202 | the three quantities have different file names |
| AbacusBlocks.GetBlocks | dftio/io/abacus/abacus_parser.py:131-302 | `get_blocks` computes the specification `BlocksOf` |
| AbacusBlocks.BlocksRequested | dftio/io/abacus/abacus_parser.py:131-302 | a successful call read a known mode's log, found one orbital count per site and a spinless run, and returns exactly the requested quantities, each as its frames say |
| AbacusBlocks.UnknownModeRefused | dftio/io/abacus/abacus_parser.py:299-300 | a mode other than scf, nscf or md raises NotImplementedError once its log is scanned |
| AbacusDelta.BigEndianRoundTrip | dftio/io/abacus/abacus_parser.py:435 | `to_bytes(4, 'big')` of a number below 2^32 reads back as that number |
| AbacusDelta.FromBigEndianRoundTrip | dftio/io/abacus/abacus_parser.py:413 | every 4-byte key is the encoding of the number it reads as |
| AbacusDelta.KeyRoundTrip | dftio/io/abacus/abacus_parser.py:413 | `to_bytes(length=4)` overflows exactly from 2^32 on; below that it gives 4 bytes that read back as the number |
| AbacusDelta.KeysDistinct | dftio/io/abacus/abacus_parser.py:435 | different counters are written under different keys |
| AbacusDelta.Broadcast | dftio/io/abacus/abacus_parser.py:424 | numpy's broadcast difference has the broadcast shape and subtracts the stretched entries |
| AbacusDelta.SubtractShapes | dftio/io/abacus/abacus_parser.py:424 | the difference exists exactly when each axis matches or has length 1, and for equal shapes it is the entrywise difference |
| AbacusDelta.DeltaBlocks | dftio/io/abacus/abacus_parser.py:422-425 | the delta loop computes `Deltas` |
| AbacusDelta.DeltasSucceed | dftio/io/abacus/abacus_parser.py:423-425 | the delta loop succeeds exactly when every stored block has a reference block of compatible shape |
| AbacusDelta.DeltaEntries | dftio/io/abacus/abacus_parser.py:422-425 | the delta dict has the stored keys in order, each holding the stored block minus its reference block |
| AbacusDelta.UpdatedFields | dftio/io/abacus/abacus_parser.py:427-431 | the updated record holds the delta under `hamiltonian`, plus `hamiltonian_full` and `hamiltonian_0` unless only the delta is kept, and keeps distinct keys |
| AbacusDelta.ProcessRecord | dftio/io/abacus/abacus_parser.py:409-431 | the body of the inner loop computes `Processed` for one structure |
| AbacusDelta.BatchEnd | dftio/io/abacus/abacus_parser.py:401 | a batch ends no earlier than it starts and no later than the list |
| AbacusDelta.WriteOne | dftio/io/abacus/abacus_parser.py:409-436 | one pass of the inner loop is one step of `Run`, or raises its error |
| AbacusDelta.WriteBatch | dftio/io/abacus/abacus_parser.py:408-436 | one batch's transaction computes `Run` over its positions |
| AbacusDelta.PresentMembers | dftio/io/abacus/abacus_parser.py:409-411 | the structures written are exactly the non-None entries of the index list |
| AbacusDelta.RunCount | dftio/io/abacus/abacus_parser.py:409-436 | the counter advances by one per structure written and never past 2^32 |
| AbacusDelta.RunKeys | dftio/io/abacus/abacus_parser.py:409-436 | a run adds exactly the keys of the counters it used and leaves every other key as it was |
| AbacusDelta.RunRecords | dftio/io/abacus/abacus_parser.py:409-436 | the t-th structure written is stored under key t |
| AbacusDelta.RunCompose | dftio/io/abacus/abacus_parser.py:400-402 | running two consecutive stretches of positions is running their union |
| AbacusDelta.BatchesRun | dftio/io/abacus/abacus_parser.py:400-440 | when no batch fails, the batches write what one pass over all positions writes, and otherwise raise its error |
| AbacusDelta.BatchesCommitted | dftio/io/abacus/abacus_parser.py:400-440 | after a failure, the database holds exactly the batches before the failing one, which starts at a multiple of 50 |
| AbacusDelta.BatchesWrite | dftio/io/abacus/abacus_parser.py:400-440 | a successful run writes each paired structure under consecutive keys from 0 and leaves the other keys alone |
| AbacusDelta.FolderMapLast | dftio/io/abacus/abacus_parser.py:368-371 | the folder map holds every directory name walked, with the path of its last visit |
| AbacusDelta.LocatedEntries | dftio/io/abacus/abacus_parser.py:373-388 | each folder whose leaf name was walked gets that path and its own index; any other folder gets None twice |
| AbacusDelta.LocatedFails | dftio/io/abacus/abacus_parser.py:375-376 | the pairing fails, with TypeError, exactly when some folder is None (left by an earlier call) |
| AbacusDelta.AbacusParser.AbsH0Folders | dftio/io/abacus/abacus_parser.py:366-388 | `get_abs_h0_folders` computes `Located` from the walk and the parser's folders |
| AbacusDelta.AbacusParser.AddH0DeltaH | dftio/io/abacus/abacus_parser.py:390-444 | `add_h0_delta_h` leaves the folders, the two databases and the count that `DeltaRun` specifies |
| AbacusDelta.DeltaRunWrites | dftio/io/abacus/abacus_parser.py:390-444 | after success, the folders are the reference folders, and the t-th paired structure's updated record is under key t. No other key changes. The old database is emptied unless kept |
| AbacusDelta.DeltaRunFails | dftio/io/abacus/abacus_parser.py:390-444 | after a failure, the old database is kept, and the new one holds the batches committed before the failing batch |
| VaspEigenval.BandCountOfHeader | dftio/io/vasp/vasp_parser.py:49 | a line 6 holding the three numbers `nelect nkpts nbands`, separated by non-empty gaps and padded by possibly empty gaps that hold no digits (VASP's blank padding), gives the third number as the band count |
| VaspEigenval.HeaderCount | dftio/io/vasp/vasp_parser.py:49 | the third digit run of `s0 e s1 k s2 b s3`, with digit strings e, k, b and gaps s0–s3 free of digits (s1, s2 non-empty), is b |
| VaspEigenval.FindAllRuns | dftio/io/vasp/vasp_parser.py:55 | `re.findall` of a character class returns non-empty runs of that class which, joined, are its characters in order |
| VaspEigenval.FindAllRun | dftio/io/vasp/vasp_parser.py:55 | a maximal run followed by a character outside the class is the first match |
| VaspEigenval.ReadEigenval | dftio/io/vasp/vasp_parser.py:44-71 | the loop over the lines computes the specification `Eigenvalues` |
| VaspEigenval.StepKPoint | dftio/io/vasp/vasp_parser.py:58-60 | a four-number line appends its k-point and only that |
| VaspEigenval.StepGroups | dftio/io/vasp/vasp_parser.py:61-67 | each energy line extends the pending row, which is sorted and emitted when it reaches NBND energies |
| VaspEigenval.ScanKPoints | dftio/io/vasp/vasp_parser.py:54-60 | the k-points read are those of the four-number lines, in order |
| VaspEigenval.ScanGroups | dftio/io/vasp/vasp_parser.py:54-67 | the rows read are the energies in file order, cut into groups of NBND each sorted; the leftover energies are pending |
| VaspEigenval.ScanNoBands | dftio/io/vasp/vasp_parser.py:64 | with NBND = 0 no row is ever emitted |
| VaspEigenval.InsertPerm | dftio/io/vasp/vasp_parser.py:65 | inserting into a list adds exactly that element |
| VaspEigenval.SortPerm | dftio/io/vasp/vasp_parser.py:65 | `sorted` returns a permutation of its input |
| VaspEigenval.SortAscending | dftio/io/vasp/vasp_parser.py:65 | `sorted` returns an ascending list |
| VaspEigenval.GroupsRows | dftio/io/vasp/vasp_parser.py:64-65 | every row has NBND energies and is ascending |
| VaspEigenval.GroupsPermutation | dftio/io/vasp/vasp_parser.py:62-67 | the rows and the leftover energies together are a permutation of the energies read |
| VaspEigenval.EigenvaluesRows | dftio/io/vasp/vasp_parser.py:44-71 | a successful read has a positive band count, the k-points of the file, and at least one row; each row holds NBND ascending energies; rows and leftovers are a permutation of the energies |

## Left out

- Everything outside `get_basis`, `get_blocks`, `parse_matrix`, `transform`, `get_abs_h0_folders`, `add_h0_delta_h` and `read_EIGENVAL` is not part of this model. That includes the other parser methods, dftio's command line and the plots.
- `find_target_line` lives in `dftio/io/parse.py`, which is not part of this model. It is modelled as returning the first line from the cursor that contains the target, or None at end of file.
- `get_mode`, `raw_sys`, the periodic table (`ase.data.atomic_numbers`), `orbitalId` and `ABACUS2DFTIO` are parameters. The table `ABACUS2DFTIO` is assumed to hold one (2l+1)×(2l+1) factor for each l from 0 to 5.
- Floating-point parsing (`astype(np.float32)`, `astype(np.complex64)`, `float()`) is an abstract parameter. Values are real numbers: float32/complex64 rounding is not modelled.
- Spin detection is not a branch of the model: as written (`abacus_parser.py:192`), a run is always spinless. The spinful decoding path (complex literals, spin reordering, spinless overlap) is modelled for `parse_matrix` but cannot be reached from `get_blocks`.
- The extraction of `hscsr.tgz` with `tar` is left out. The run's files are a map from paths to lines, already extracted.
- `os.walk` is the list of (directory name, path) pairs it visits, in visiting order.
- The lmdb databases are maps from keys to unpickled records, and pickling is the identity.
- Environment open/close and `makedirs` are left out. `shutil.rmtree` of the old database is modelled as emptying it.
- A batch transaction that raises is dropped, as lmdb aborts it. Earlier committed batches stay.
- `get_blocks` inside `add_h0_delta_h` is the `reference` parameter.
- Python's exceptions are `Failure` values, with no message text.
- `read_EIGENVAL`'s `Nhse` is the constant 0. The leading `[1, nk, nbands]` axis of numpy's array is dropped: the model returns the list of rows.
- CsrArrays.DenseShape: decreasing row pointers or out-of-range column indices in a CSR record are not validated by scipy. Its expansion then skips rows, re-reads entries, writes into other rows, or indexes outside its arrays. The model reports all of these as `Unchecked` instead of the matrix scipy may produce.
- The int32 cast of the row pointers is not modelled.
- A lattice vector that appears in two records overwrites the earlier blocks, as the source's dict does; no lemma states more about it.
- Dictionary order is kept only where the output is an ordered dict the source returns or stores (`orbital_types_dict` and the returned `basis` dict of `get_basis`, the delta blocks and the updated records); the block maps of `parse_matrix` are unordered maps.
- AbacusLog.LayoutWidths, AbacusLog.ZetaRunWidth, AbacusLog.SectionsCounted: stated for logs whose zeta counts are non-negative. A negative count `n` adds (2L+1)·n to the site's orbital count, but `[L] * n` adds no orbital to its list, so the two disagree there.
- AbacusBasis.BasisAccountsForAll: stated for elements whose angular momenta are non-negative. A negative L is never listed by `range(max(...) + 1)`, so its orbitals are missing from the string.
- SparseDump.SiteBounds, SparseDump.SiteSliceBlock, SparseDump.SiteSliceShape: stated for non-negative orbital counts, and the last two also for a dense matrix of the announced dimension. SparseDump.SiteSliceIsBlock states the Python slicing for any counts.
- Text.ParseInt: `int()` also accepts underscores between digits (`"1_0"`) and non-ASCII decimal digits. The model accepts only an optional sign followed by ASCII digits, and answers ValueError for the rest.
- SparseDump.Oriented: a negative orbital count in the spin reshape (`abacus_parser.py:349-351`) is reported as ValueError. numpy reads a length of -1 as an axis to infer, and some numpy versions do the same for other negative lengths, so the source may return a block there. Only logs with negative zeta counts reach this, and only on the spin branch that `get_blocks` never takes.
