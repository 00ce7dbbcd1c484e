/** `VASPParser.read_EIGENVAL`: the band count from the sixth line of an `EIGENVAL`
    file, then from the eighth line on each line is a k-point (four numbers), an
    energy (its second number) or blank; every NBND energies make one sorted row.

    The file is the list of its lines; `float()` of a token is the `float`
    parameter, `None` where Python raises `ValueError`. */
module VaspEigenval {
  import opened Outcomes
  import opened Text

  /** The line index the scan starts at: 7 + (NBND + 2) * Nhse with Nhse = 0. */
  const FirstDataLine: nat := 7

  type KPoint = (real, real, real)

  /** What the scan has read so far: the k-points, the full band rows, and the
      energies of the row being filled (`kb_temp`). */
  datatype State = State(kpoints: seq<KPoint>, bands: seq<seq<real>>, pending: seq<real>)

  /** The characters of `[0-9\-\.\+E]`. */
  predicate NumberChar(c: char)
  {
    IsDigit(c) || c == '-' || c == '.' || c == '+' || c == 'E'
  }

  /** Length of the leading run of characters of the class. */
  function RunLength(s: string, inClass: char -> bool): (n: nat)
    ensures n <= |s|
  {
    if s == [] || !inClass(s[0]) then 0 else 1 + RunLength(s[1..], inClass)
  }

  /** `re.findall` of a one-character class with `+`: the maximal runs of
      characters of the class, left to right. */
  function FindAll(s: string, inClass: char -> bool): seq<string>
    decreases |s|
  {
    if s == [] then []
    else if !inClass(s[0]) then FindAll(s[1..], inClass)
    else
      var n := RunLength(s, inClass);
      [s[..n]] + FindAll(s[n..], inClass)
  }

  /** The characters of `s` in the class, in order. */
  function InClass(s: string, inClass: char -> bool): string
  {
    if s == [] then [] else (if inClass(s[0]) then [s[0]] else []) + InClass(s[1..], inClass)
  }

  /** `int(re.findall('[0-9]+', data[5])[2])`: the third run of digits of line 6. */
  function BandCount(lines: seq<string>): Result<nat>
  {
    if |lines| < 6 then Err(IndexError)
    else
      var runs := FindAll(lines[5], IsDigit);
      if |runs| < 3 then Err(IndexError)
      else
        FindAllRuns(lines[5], IsDigit);
        Ok(DigitsValue(runs[2]))
  }

  function FloatOf(t: string, float: string -> Option<real>): Result<real>
  {
    match float(t)
    case None => Err(ValueError)
    case Some(x) => Ok(x)
  }

  function KPointOf(tokens: seq<string>, float: string -> Option<real>): Result<KPoint>
    requires |tokens| >= 3
  {
    var x :- FloatOf(tokens[0], float);
    var y :- FloatOf(tokens[1], float);
    var z :- FloatOf(tokens[2], float);
    Ok((x, y, z))
  }

  /** `sorted(xs)`: insertion into an ascending list. */
  function Insert(x: real, xs: seq<real>): seq<real>
  {
    if xs == [] || x <= xs[0] then [x] + xs else [xs[0]] + Insert(x, xs[1..])
  }

  function Sort(xs: seq<real>): seq<real>
  {
    if xs == [] then [] else Insert(xs[0], Sort(xs[1..]))
  }

  predicate Ascending(xs: seq<real>)
  {
    forall i, j :: 0 <= i < j < |xs| ==> xs[i] <= xs[j]
  }

  /** One pass of the line loop over a line whose numbers are `tokens`. */
  function StepOn(tokens: seq<string>, nbnd: nat, float: string -> Option<real>, st: State): Result<State>
  {
    if tokens == [] then Ok(st)
    else if |tokens| == 4 then
      var k :- KPointOf(tokens, float);
      Ok(st.(kpoints := st.kpoints + [k]))
    else if |tokens| < 2 then Err(IndexError)
    else
      var e :- FloatOf(tokens[1], float);
      var pending := st.pending + [e];
      if |pending| == nbnd then Ok(st.(bands := st.bands + [Sort(pending)], pending := []))
      else Ok(st.(pending := pending))
  }

  /** The line loop from line i on. */
  function Scanned(lines: seq<string>, nbnd: nat, float: string -> Option<real>, i: nat, st: State): Result<State>
    decreases |lines| - i
  {
    if i >= |lines| then Ok(st)
    else
      var next :- StepOn(FindAll(lines[i], NumberChar), nbnd, float, st);
      Scanned(lines, nbnd, float, i + 1, next)
  }

  /** `read_EIGENVAL`: the k-points and the band rows. A file with no full row fails
      where numpy indexes the empty band array with three axes. */
  function Eigenvalues(lines: seq<string>, float: string -> Option<real>): Result<(seq<KPoint>, seq<seq<real>>)>
  {
    var nbnd :- BandCount(lines);
    var st :- Scanned(lines, nbnd, float, FirstDataLine, State([], [], []));
    if st.bands == [] then Err(IndexError) else Ok((st.kpoints, st.bands))
  }

  method ReadEigenval(lines: seq<string>, float: string -> Option<real>) returns (r: Result<(seq<KPoint>, seq<seq<real>>)>)
    ensures r == Eigenvalues(lines, float)
  {
    var nbnd := BandCount(lines);
    if nbnd.Err? {
      return Err(nbnd.failure);
    }
    var kList: seq<KPoint> := [];
    var kBands: seq<seq<real>> := [];
    var kbTemp: seq<real> := [];
    var kbCount := 0;
    var i := FirstDataLine;
    while i < |lines|
      invariant kbCount == |kbTemp|
      invariant Scanned(lines, nbnd.value, float, FirstDataLine, State([], [], []))
                == Scanned(lines, nbnd.value, float, i, State(kList, kBands, kbTemp))
      decreases |lines| - i
    {
      var temp := FindAll(lines[i], NumberChar);
      if |temp| == 4 {
        var k := KPointOf(temp, float);
        if k.Err? {
          return Err(k.failure);
        }
        kList := kList + [k.value];
      } else if temp != [] {
        if |temp| < 2 {
          return Err(IndexError);
        }
        var e := FloatOf(temp[1], float);
        if e.Err? {
          return Err(e.failure);
        }
        kbTemp := kbTemp + [e.value];
        kbCount := kbCount + 1;
        if kbCount == nbnd.value {
          kBands := kBands + [Sort(kbTemp)];
          kbTemp := [];
          kbCount := 0;
        }
      }
      i := i + 1;
    }
    if kBands == [] {
      return Err(IndexError);
    }
    return Ok((kList, kBands));
  }

  // ---------------------------------------------------------------- reference definitions

  /** The energy a line holds: the second number of a line with some numbers, not
      four of them, and at least two. */
  function LineEnergy(tokens: seq<string>, float: string -> Option<real>): seq<real>
  {
    if tokens != [] && |tokens| != 4 && |tokens| >= 2 && float(tokens[1]).Some? then [float(tokens[1]).value] else []
  }

  /** The k-point a line holds: the first three of exactly four numbers. */
  function LineKPoint(tokens: seq<string>, float: string -> Option<real>): seq<KPoint>
  {
    if |tokens| == 4 && KPointOf(tokens, float).Ok? then [KPointOf(tokens, float).value] else []
  }

  /** The energies of the lines from i on, in file order. */
  function Energies(lines: seq<string>, float: string -> Option<real>, i: nat): seq<real>
    decreases |lines| - i
  {
    if i >= |lines| then [] else LineEnergy(FindAll(lines[i], NumberChar), float) + Energies(lines, float, i + 1)
  }

  /** The k-points of the lines from i on, in file order. */
  function KPoints(lines: seq<string>, float: string -> Option<real>, i: nat): seq<KPoint>
    decreases |lines| - i
  {
    if i >= |lines| then [] else LineKPoint(FindAll(lines[i], NumberChar), float) + KPoints(lines, float, i + 1)
  }

  /** The full groups of n consecutive energies, each sorted. */
  function Groups(es: seq<real>, n: nat): seq<seq<real>>
    requires n > 0
    decreases |es|
  {
    if |es| < n then [] else [Sort(es[..n])] + Groups(es[n..], n)
  }

  /** The energies after the last full group. */
  function Rest(es: seq<real>, n: nat): seq<real>
    requires n > 0
    decreases |es|
  {
    if |es| < n then es else Rest(es[n..], n)
  }

  function Concat(rows: seq<seq<real>>): seq<real>
  {
    if rows == [] then [] else rows[0] + Concat(rows[1..])
  }

  // ---------------------------------------------------------------- properties

  /** The runs found are non-empty, made of characters of the class, and together
      are exactly the characters of the class in the line. */
  lemma {:induction false} FindAllRuns(s: string, inClass: char -> bool)
    ensures forall k :: 0 <= k < |FindAll(s, inClass)| ==>
      FindAll(s, inClass)[k] != [] && forall c :: c in FindAll(s, inClass)[k] ==> inClass(c)
    ensures Flatten(FindAll(s, inClass)) == InClass(s, inClass)
    decreases |s|
  {
    if s == [] {
    } else if !inClass(s[0]) {
      FindAllRuns(s[1..], inClass);
    } else {
      var n := RunLength(s, inClass);
      RunIsInClass(s, inClass);
      FindAllRuns(s[n..], inClass);
      assert s == s[..n] + s[n..];
      InClassAppend(s[..n], s[n..], inClass);
      InClassRun(s[..n], inClass);
      var r := FindAll(s, inClass);
      assert r == [s[..n]] + FindAll(s[n..], inClass);
      assert r[1..] == FindAll(s[n..], inClass);
    }
  }

  lemma {:induction false} RunIsInClass(s: string, inClass: char -> bool)
    ensures forall k :: 0 <= k < RunLength(s, inClass) ==> inClass(s[k])
  {
    if s != [] && inClass(s[0]) {
      RunIsInClass(s[1..], inClass);
    }
  }

  lemma {:induction false} InClassAppend(a: string, b: string, inClass: char -> bool)
    ensures InClass(a + b, inClass) == InClass(a, inClass) + InClass(b, inClass)
  {
    if a != [] {
      assert (a + b)[1..] == a[1..] + b;
      InClassAppend(a[1..], b, inClass);
    } else {
      assert a + b == b;
    }
  }

  lemma {:induction false} InClassRun(s: string, inClass: char -> bool)
    requires forall k :: 0 <= k < |s| ==> inClass(s[k])
    ensures InClass(s, inClass) == s
  {
    if s != [] {
      InClassRun(s[1..], inClass);
    }
  }

  /** Insertion adds exactly one element. */
  lemma {:induction false} InsertPerm(x: real, xs: seq<real>)
    ensures multiset(Insert(x, xs)) == multiset(xs) + multiset{x}
  {
    if xs != [] && x > xs[0] {
      InsertPerm(x, xs[1..]);
      assert xs == [xs[0]] + xs[1..];
    }
  }

  /** A bound below `x` and every element stays below every element after insertion. */
  lemma {:induction false} InsertBounded(x: real, xs: seq<real>, b: real)
    requires b <= x && forall k :: 0 <= k < |xs| ==> b <= xs[k]
    ensures forall k :: 0 <= k < |Insert(x, xs)| ==> b <= Insert(x, xs)[k]
  {
    if xs != [] && x > xs[0] {
      InsertBounded(x, xs[1..], b);
      assert Insert(x, xs) == [xs[0]] + Insert(x, xs[1..]);
    }
  }

  lemma AscendingCons(h: real, r: seq<real>)
    requires Ascending(r) && forall k :: 0 <= k < |r| ==> h <= r[k]
    ensures Ascending([h] + r)
  {
    var s := [h] + r;
    forall i, j | 0 <= i < j < |s|
      ensures s[i] <= s[j]
    {
      assert s[j] == r[j - 1];
      if i > 0 {
        assert s[i] == r[i - 1];
      }
    }
  }

  lemma AscendingTail(xs: seq<real>)
    requires Ascending(xs) && xs != []
    ensures Ascending(xs[1..]) && forall k :: 0 <= k < |xs[1..]| ==> xs[0] <= xs[1..][k]
  {
    var tail := xs[1..];
    forall i, j | 0 <= i < j < |tail| ensures tail[i] <= tail[j] {
      assert tail[i] == xs[i + 1] && tail[j] == xs[j + 1];
    }
    forall k | 0 <= k < |tail| ensures xs[0] <= tail[k] {
      assert tail[k] == xs[k + 1];
    }
  }

  /** Insertion keeps a list ascending. */
  lemma {:induction false} InsertAscending(x: real, xs: seq<real>)
    requires Ascending(xs)
    ensures Ascending(Insert(x, xs))
  {
    if xs != [] && x > xs[0] {
      AscendingTail(xs);
      InsertAscending(x, xs[1..]);
      InsertBounded(x, xs[1..], xs[0]);
      AscendingCons(xs[0], Insert(x, xs[1..]));
    }
  }

  /** `sorted` returns a permutation of its argument. */
  lemma {:induction false} SortPerm(xs: seq<real>)
    ensures multiset(Sort(xs)) == multiset(xs)
  {
    if xs != [] {
      SortPerm(xs[1..]);
      InsertPerm(xs[0], Sort(xs[1..]));
      assert xs == [xs[0]] + xs[1..];
    }
  }

  /** `sorted` returns an ascending list. */
  lemma {:induction false} SortAscending(xs: seq<real>)
    ensures Ascending(Sort(xs))
  {
    if xs != [] {
      SortAscending(xs[1..]);
      InsertAscending(xs[0], Sort(xs[1..]));
    }
  }

  /** Every group holds n energies in ascending order. */
  lemma {:induction false} GroupsRows(es: seq<real>, n: nat)
    requires n > 0
    ensures forall j :: 0 <= j < |Groups(es, n)| ==> |Groups(es, n)[j]| == n && Ascending(Groups(es, n)[j])
    decreases |es|
  {
    if |es| >= n {
      var head, tail := es[..n], es[n..];
      GroupsRows(tail, n);
      SortPerm(head);
      SortAscending(head);
      var g := Groups(es, n);
      assert g == [Sort(head)] + Groups(tail, n);
      assert |Sort(head)| == n by {
        assert |multiset(Sort(head))| == |multiset(head)|;
      }
      forall j | 0 <= j < |g|
        ensures |g[j]| == n && Ascending(g[j])
      {
        if j > 0 {
          assert g[j] == Groups(tail, n)[j - 1];
        }
      }
    }
  }

  /** Fewer than n energies are left over. */
  lemma {:induction false} RestShort(es: seq<real>, n: nat)
    requires n > 0
    ensures |Rest(es, n)| < n
    decreases |es|
  {
    if |es| >= n {
      RestShort(es[n..], n);
    }
  }

  lemma GroupsUnfold(es: seq<real>, n: nat)
    requires n > 0 && |es| >= n
    ensures Concat(Groups(es, n)) == Sort(es[..n]) + Concat(Groups(es[n..], n))
    ensures Rest(es, n) == Rest(es[n..], n)
  {
    var g := Groups(es, n);
    assert g[0] == Sort(es[..n]) && g[1..] == Groups(es[n..], n);
  }

  lemma PermutationStep(es: seq<real>, n: nat)
    requires n > 0 && |es| >= n
    requires multiset(Concat(Groups(es[n..], n))) + multiset(Rest(es[n..], n)) == multiset(es[n..])
    ensures multiset(Concat(Groups(es, n))) + multiset(Rest(es, n)) == multiset(es)
  {
    SortPerm(es[..n]);
    GroupsUnfold(es, n);
    JoinPermutations(es, n, Sort(es[..n]), Concat(Groups(es[n..], n)), Rest(es[n..], n));
  }

  lemma JoinPermutations(es: seq<real>, n: nat, sorted: seq<real>, rows: seq<real>, rest: seq<real>)
    requires n <= |es|
    requires multiset(sorted) == multiset(es[..n])
    requires multiset(rows) + multiset(rest) == multiset(es[n..])
    ensures multiset(sorted + rows) + multiset(rest) == multiset(es)
  {
    assert es == es[..n] + es[n..];
  }

  /** The groups and the rest together are a permutation of the energies. */
  lemma {:induction false} GroupsPermutation(es: seq<real>, n: nat)
    requires n > 0
    ensures multiset(Concat(Groups(es, n))) + multiset(Rest(es, n)) == multiset(es)
    decreases |es|
  {
    if |es| >= n {
      GroupsPermutation(es[n..], n);
      PermutationStep(es, n);
    } else {
      assert Concat(Groups(es, n)) == [];
    }
  }

  /** A full group is the sorted first n energies, and the rest starts over. */
  lemma GroupsStep(p: seq<real>, es: seq<real>, n: nat)
    requires n > 0 && |p| == n
    ensures Groups(p + es, n) == [Sort(p)] + Groups(es, n) && Rest(p + es, n) == Rest(es, n)
  {
    assert (p + es)[..n] == p && (p + es)[n..] == es;
  }

  /** An energy that completes a group closes it. */
  lemma PushFull(bands: seq<seq<real>>, pending: seq<real>, e: real, es: seq<real>, n: nat)
    requires n > 0 && |pending| + 1 == n
    ensures bands + Groups(pending + ([e] + es), n) == (bands + [Sort(pending + [e])]) + Groups([] + es, n)
    ensures Rest(pending + ([e] + es), n) == Rest([] + es, n)
  {
    var p := pending + [e];
    assert pending + ([e] + es) == p + es;
    assert [] + es == es;
    GroupsStep(p, es, n);
  }

  /** One line moves its energy from the reference list into the state. */
  lemma StepGroups(tokens: seq<string>, nbnd: nat, float: string -> Option<real>, st: State, next: State, es: seq<real>)
    requires nbnd > 0 && |st.pending| < nbnd
    requires StepOn(tokens, nbnd, float, st) == Ok(next)
    ensures |next.pending| < nbnd
    ensures st.bands + Groups(st.pending + (LineEnergy(tokens, float) + es), nbnd) == next.bands + Groups(next.pending + es, nbnd)
    ensures Rest(st.pending + (LineEnergy(tokens, float) + es), nbnd) == Rest(next.pending + es, nbnd)
  {
    if tokens == [] || |tokens| == 4 {
      assert LineEnergy(tokens, float) == [];
      assert [] + es == es;
    } else {
      var e := float(tokens[1]).value;
      assert LineEnergy(tokens, float) == [e];
      if |st.pending| + 1 == nbnd {
        PushFull(st.bands, st.pending, e, es, nbnd);
      } else {
        // an energy that does not complete a group joins the pending ones
        assert st.pending + ([e] + es) == (st.pending + [e]) + es;
      }
    }
  }

  /** One line adds its k-point, if it holds one. */
  lemma StepKPoint(tokens: seq<string>, nbnd: nat, float: string -> Option<real>, st: State, next: State)
    requires StepOn(tokens, nbnd, float, st) == Ok(next)
    ensures next.kpoints == st.kpoints + LineKPoint(tokens, float)
  {
    if |tokens| != 4 {
      assert st.kpoints + LineKPoint(tokens, float) == st.kpoints;
    }
  }

  /** The scan from line i on adds the k-points of the lines, in order. */
  lemma {:induction false} ScanKPoints(lines: seq<string>, nbnd: nat, float: string -> Option<real>, i: nat,
                                       st: State, st2: State)
    requires Scanned(lines, nbnd, float, i, st) == Ok(st2)
    ensures st2.kpoints == st.kpoints + KPoints(lines, float, i)
    decreases |lines| - i
  {
    if i < |lines| {
      var tokens := FindAll(lines[i], NumberChar);
      var next := StepOn(tokens, nbnd, float, st).value;
      var ks := KPoints(lines, float, i + 1);
      StepKPoint(tokens, nbnd, float, st, next);
      ScanKPoints(lines, nbnd, float, i + 1, next, st2);
      assert KPoints(lines, float, i) == LineKPoint(tokens, float) + ks;
      assert st.kpoints + (LineKPoint(tokens, float) + ks) == (st.kpoints + LineKPoint(tokens, float)) + ks;
    } else {
      assert st.kpoints + [] == st.kpoints;
    }
  }

  /** The scan from line i on, started with fewer than NBND pending energies, adds
      the full sorted groups of the pending and later energies and leaves the rest
      pending. */
  lemma {:induction false} ScanGroups(lines: seq<string>, nbnd: nat, float: string -> Option<real>, i: nat,
                                      st: State, st2: State)
    requires nbnd > 0 && |st.pending| < nbnd
    requires Scanned(lines, nbnd, float, i, st) == Ok(st2)
    ensures st2.bands == st.bands + Groups(st.pending + Energies(lines, float, i), nbnd)
    ensures st2.pending == Rest(st.pending + Energies(lines, float, i), nbnd)
    decreases |lines| - i
  {
    if i < |lines| {
      var tokens := FindAll(lines[i], NumberChar);
      var next := StepOn(tokens, nbnd, float, st).value;
      var es := Energies(lines, float, i + 1);
      StepGroups(tokens, nbnd, float, st, next, es);
      ScanGroups(lines, nbnd, float, i + 1, next, st2);
      assert Energies(lines, float, i) == LineEnergy(tokens, float) + es;
    } else {
      assert st.pending + [] == st.pending;
      assert Groups(st.pending, nbnd) == [];
    }
  }

  /** A run of the class ended by the end of the string or a character outside it
      is read whole. */
  lemma {:induction false} RunLengthOf(d: string, rest: string, inClass: char -> bool)
    requires forall k :: 0 <= k < |d| ==> inClass(d[k])
    requires rest == [] || !inClass(rest[0])
    ensures RunLength(d + rest, inClass) == |d|
    decreases |d|
  {
    if d != [] {
      assert (d + rest)[1..] == d[1..] + rest;
      RunLengthOf(d[1..], rest, inClass);
    } else {
      assert d + rest == rest;
    }
  }

  lemma FindAllRun(d: string, rest: string, inClass: char -> bool)
    requires d != [] && forall k :: 0 <= k < |d| ==> inClass(d[k])
    requires rest == [] || !inClass(rest[0])
    ensures FindAll(d + rest, inClass) == [d] + FindAll(rest, inClass)
  {
    RunLengthOf(d, rest, inClass);
    assert (d + rest)[..|d|] == d && (d + rest)[|d|..] == rest;
  }

  predicate NoDigits(s: string) { forall k :: 0 <= k < |s| ==> !IsDigit(s[k]) }

  /** The header line VASP writes, `nelect nkpts nbands` as decimal numbers padded
      with any blanks or other characters that are not digits, reads back its band
      count. */
  lemma BandCountOfHeader(lines: seq<string>, electrons: nat, kpoints: nat, bands: nat,
                          s0: string, s1: string, s2: string, s3: string)
    requires |lines| >= 6
    requires NoDigits(s0) && NoDigits(s1) && NoDigits(s2) && NoDigits(s3) && s1 != [] && s2 != []
    requires lines[5] == s0 + NatToString(electrons) + s1 + NatToString(kpoints) + s2 + NatToString(bands) + s3
    ensures BandCount(lines) == Ok(bands)
  {
    HeaderCount(lines, NatToString(electrons), NatToString(kpoints), NatToString(bands), s0, s1, s2, s3);
    NatToStringValue(bands);
  }

  lemma HeaderCount(lines: seq<string>, e: string, k: string, b: string, s0: string, s1: string, s2: string, s3: string)
    requires |lines| >= 6
    requires e != [] && k != [] && b != [] && AllDigits(e) && AllDigits(k) && AllDigits(b)
    requires NoDigits(s0) && NoDigits(s1) && NoDigits(s2) && NoDigits(s3) && s1 != [] && s2 != []
    requires lines[5] == s0 + e + s1 + k + s2 + b + s3
    ensures BandCount(lines) == Ok(DigitsValue(b))
  {
    assert lines[5] == s0 + (e + (s1 + (k + (s2 + (b + s3)))));
    HeaderRuns(e, k, b, s0, s1, s2, s3);
  }

  lemma HeaderRuns(e: string, k: string, b: string, s0: string, s1: string, s2: string, s3: string)
    requires e != [] && k != [] && b != [] && AllDigits(e) && AllDigits(k) && AllDigits(b)
    requires NoDigits(s0) && NoDigits(s1) && NoDigits(s2) && NoDigits(s3) && s1 != [] && s2 != []
    ensures FindAll(s0 + (e + (s1 + (k + (s2 + (b + s3))))), IsDigit) == [e, k, b]
  {
    var t3 := s2 + (b + s3);
    var t2 := s1 + (k + t3);
    SkipGap(s3, []);
    assert s3 + [] == s3;
    FindAllRun(b, s3, IsDigit);
    SkipGap(s2, b + s3);
    FindAllRun(k, t3, IsDigit);
    SkipGap(s1, k + t3);
    FindAllRun(e, t2, IsDigit);
    SkipGap(s0, e + t2);
  }

  /** Characters that are not digits are passed over. */
  lemma {:induction false} SkipGap(g: string, x: string)
    requires NoDigits(g)
    ensures FindAll(g + x, IsDigit) == FindAll(x, IsDigit)
  {
    if g != [] {
      assert (g + x)[1..] == g[1..] + x;
      SkipGap(g[1..], x);
    } else {
      assert g + x == x;
    }
  }

  /** With NBND = 0 no row is ever complete. */
  lemma {:induction false} ScanNoBands(lines: seq<string>, float: string -> Option<real>, i: nat, st: State, st2: State)
    requires Scanned(lines, 0, float, i, st) == Ok(st2)
    ensures st2.bands == st.bands
    decreases |lines| - i
  {
    if i < |lines| {
      ScanNoBands(lines, float, i + 1, StepOn(FindAll(lines[i], NumberChar), 0, float, st).value, st2);
    }
  }

  /** What `read_EIGENVAL` returns: NBND > 0, the k-points of the data lines in
      order, and the full groups of NBND consecutive energies, at least one, each
      sorted ascending; energies after the last full group are dropped. */
  lemma EigenvaluesRows(lines: seq<string>, float: string -> Option<real>, ks: seq<KPoint>, bs: seq<seq<real>>)
    requires Eigenvalues(lines, float) == Ok((ks, bs))
    ensures BandCount(lines).Ok? && BandCount(lines).value > 0
    ensures ks == KPoints(lines, float, FirstDataLine)
    ensures bs == Groups(Energies(lines, float, FirstDataLine), BandCount(lines).value)
    ensures bs != []
    ensures forall j :: 0 <= j < |bs| ==> |bs[j]| == BandCount(lines).value && Ascending(bs[j])
    ensures |Rest(Energies(lines, float, FirstDataLine), BandCount(lines).value)| < BandCount(lines).value
    ensures multiset(Concat(bs)) + multiset(Rest(Energies(lines, float, FirstDataLine), BandCount(lines).value))
         == multiset(Energies(lines, float, FirstDataLine))
  {
    var n := BandCount(lines).value;
    var st0 := State([], [], []);
    var st := Scanned(lines, n, float, FirstDataLine, st0).value;
    if n == 0 {
      ScanNoBands(lines, float, FirstDataLine, st0, st);
      assert false;
    }
    ScanKPoints(lines, n, float, FirstDataLine, st0, st);
    ScanGroups(lines, n, float, FirstDataLine, st0, st);
    var es := Energies(lines, float, FirstDataLine);
    assert st0.pending + es == es;
    GroupsRows(es, n);
    RestShort(es, n);
    GroupsPermutation(es, n);
  }
}
