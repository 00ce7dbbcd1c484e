/** The ABACUS log reader: the per-element orbital lists announced in
    `running_<mode>.log` (`get_basis`, and the log scan at the start of `get_blocks`). */
module AbacusLog {
  import opened Outcomes
  import opened Text
  import opened TextFiles
  import opened OrderedDicts
  import OrbitalTransform

  const TypeMarker := "READING ATOM TYPE"
  const LabelMarker := "atom label ="
  const ZetaMarker := "number of zeta"
  const CoordinatesMarker := " COORDINATES"

  /** A value read from a file together with the cursor after reading it. */
  datatype Scan<T> = Scan(result: Result<T>, pos: nat)

  /** The orbitals of one element: the angular momentum of every radial function,
      in log order, and the number of orbitals the log announces. */
  datatype Orbitals = Orbitals(types: seq<int>, count: int)

  /** One `READING ATOM TYPE` section: the element's symbol, its atomic number and orbitals. */
  datatype TypeSection = TypeSection(symbol: string, number: int, orbitals: Orbitals)

  /** What the log scan of `get_blocks` gathers. */
  datatype Layout = Layout(element: seq<int>, siteNorbits: seq<int>, orbitalTypes: map<int, seq<int>>, spinful: bool)

  /** `[l] * n` */
  function Repeat(l: int, n: int): (r: seq<int>)
    ensures |r| == (if n > 0 then n else 0)
    ensures forall k :: 0 <= k < |r| ==> r[k] == l
    decreases n
  {
    if n <= 0 then [] else [l] + Repeat(l, n - 1)
  }

  /** `tokens[0]` */
  function First(tokens: seq<string>): Result<string>
  {
    if tokens == [] then Err(IndexError) else Ok(tokens[0])
  }

  /** `tokens[-1]` */
  function Last(tokens: seq<string>): Result<string>
  {
    if tokens == [] then Err(IndexError) else Ok(tokens[|tokens| - 1])
  }

  /** `line.split()[-1]` */
  function LastToken(line: string): Result<string>
  {
    Last(Split(line))
  }

  /** `int(token)` */
  function IntOf(token: string): Result<int>
  {
    match ParseInt(token)
    case None => Err(ValueError)
    case Some(i) => Ok(i)
  }

  /** A `number of zeta` line: L is read from the first token without its first two
      and its last character (`L=1,`), the count from the last token. */
  function ZetaEntry(line: string): Result<(int, int)>
  {
    ZetaOf(Split(line))
  }

  function ZetaOf(tokens: seq<string>): Result<(int, int)>
  {
    var first :- First(tokens);
    var l :- IntOf(Slice(first, 2, -1));
    var last :- Last(tokens);
    var n :- IntOf(last);
    Ok((l, n))
  }

  /** The run of `number of zeta` lines read with `readline` from `pos`; the first
      line without the phrase ends it and is consumed. */
  function ZetaRun(lines: seq<string>, pos: nat): (r: Scan<Orbitals>)
    requires pos <= |lines|
    ensures pos <= r.pos <= |lines|
    decreases |lines| - pos
  {
    var (line, next) := ReadAt(lines, pos);
    if !Contains(line, ZetaMarker) then Scan(Ok(Orbitals([], 0)), next)
    else
      match ZetaEntry(line)
      case Err(e) => Scan(Err(e), next)
      case Ok((l, n)) =>
        var rest := ZetaRun(lines, next);
        Prefixed(Repeat(l, n), (2 * l + 1) * n, rest)
  }

  /** The orbitals of `s`, preceded by `types` and `count` more orbitals. */
  function Prefixed(types: seq<int>, count: int, s: Scan<Orbitals>): Scan<Orbitals>
  {
    match s.result
    case Err(_) => s
    case Ok(o) => Scan(Ok(Orbitals(types + o.types, count + o.count)), s.pos)
  }

  lemma PrefixedNothing(s: Scan<Orbitals>)
    ensures Prefixed([], 0, s) == s
  {
    if s.result.Ok? {
      assert [] + s.result.value.types == s.result.value.types;
    }
  }

  lemma PrefixedTwice(a: seq<int>, c: int, b: seq<int>, d: int, s: Scan<Orbitals>)
    ensures Prefixed(a, c, Prefixed(b, d, s)) == Prefixed(a + b, c + d, s)
  {
    if s.result.Ok? {
      assert a + (b + s.result.value.types) == (a + b) + s.result.value.types;
    }
  }

  /** The `current_site_norbits` / `current_orbital_types` loop. */
  method ReadZetaRun(f: TextFile) returns (r: Result<Orbitals>)
    requires f.Valid()
    modifies f
    ensures f.Valid()
    ensures Scan(r, f.pos) == ZetaRun(f.lines, old(f.pos))
  {
    var types: seq<int> := [];
    var count := 0;
    PrefixedNothing(ZetaRun(f.lines, f.pos));
    while true
      invariant f.Valid() && old(f.pos) <= f.pos
      invariant ZetaRun(f.lines, old(f.pos)) == Prefixed(types, count, ZetaRun(f.lines, f.pos))
      decreases |f.lines| - f.pos
    {
      ghost var before := f.pos;
      var line := f.ReadLine();
      if !Contains(line, ZetaMarker) {
        ZetaRunEnds(f.lines, before);
        assert types + [] == types;
        return Ok(Orbitals(types, count));
      }
      var entry := ZetaEntry(line);
      if entry.Err? {
        ZetaRunFails(f.lines, before);
        return Err(entry.failure);
      }
      var (l, n) := entry.value;
      ZetaRunTakes(f.lines, before, l, n);
      PrefixedTwice(types, count, Repeat(l, n), (2 * l + 1) * n, ZetaRun(f.lines, f.pos));
      count := count + (2 * l + 1) * n;
      types := types + Repeat(l, n);
    }
  }

  /** The run ends at a line without the phrase. */
  lemma ZetaRunEnds(lines: seq<string>, pos: nat)
    requires pos <= |lines| && !Contains(ReadAt(lines, pos).0, ZetaMarker)
    ensures ZetaRun(lines, pos) == Scan(Ok(Orbitals([], 0)), ReadAt(lines, pos).1)
  {
  }

  /** A zeta line that does not parse ends the run with its error. */
  lemma ZetaRunFails(lines: seq<string>, pos: nat)
    requires pos <= |lines| && Contains(ReadAt(lines, pos).0, ZetaMarker)
    requires ZetaEntry(ReadAt(lines, pos).0).Err?
    ensures pos < |lines|
    ensures ZetaRun(lines, pos) == Scan(Err(ZetaEntry(lines[pos]).failure), pos + 1)
  {
    ContainsEmpty(ZetaMarker);
  }

  /** A zeta line contributes `[l] * n` and (2l+1)·n orbitals ahead of the rest of the run. */
  lemma ZetaRunTakes(lines: seq<string>, pos: nat, l: int, n: int)
    requires pos <= |lines| && Contains(ReadAt(lines, pos).0, ZetaMarker)
    requires ZetaEntry(ReadAt(lines, pos).0) == Ok((l, n))
    ensures pos < |lines|
    ensures ZetaRun(lines, pos) == Prefixed(Repeat(l, n), (2 * l + 1) * n, ZetaRun(lines, pos + 1))
  {
    ContainsEmpty(ZetaMarker);
  }

  /** A successful run ends at the first line from `pos` without `number of zeta`
      (consumed), or at the end of the file; every line before it is a zeta line. */
  lemma ZetaRunStops(lines: seq<string>, pos: nat)
    requires pos <= |lines| && ZetaRun(lines, pos).result.Ok?
    ensures var stop := ZetaRun(lines, pos).pos;
      pos < stop ==> ZetaLines(lines, pos, stop - 1)
    ensures var stop := ZetaRun(lines, pos).pos;
      (stop == |lines| && ZetaLines(lines, pos, |lines|))
      || (pos < stop && !Contains(lines[stop - 1], ZetaMarker))
  {
    ZetaRunReadsZeta(lines, pos);
    ZetaRunEndsAt(lines, pos);
  }

  lemma {:induction false} ZetaRunReadsZeta(lines: seq<string>, pos: nat)
    requires pos <= |lines| && ZetaRun(lines, pos).result.Ok?
    ensures var stop := ZetaRun(lines, pos).pos;
      pos < stop ==> ZetaLines(lines, pos, stop - 1)
    decreases |lines| - pos
  {
    if Contains(ReadAt(lines, pos).0, ZetaMarker) {
      ZetaRunContinues(lines, pos);
      ZetaRunReadsZeta(lines, pos + 1);
      var stop := ZetaRun(lines, pos).pos;
      if pos + 1 < stop {
        ZetaLinesCons(lines, pos, stop - 1);
      }
    }
  }

  lemma {:induction false} ZetaRunEndsAt(lines: seq<string>, pos: nat)
    requires pos <= |lines| && ZetaRun(lines, pos).result.Ok?
    ensures var stop := ZetaRun(lines, pos).pos;
      (stop == |lines| && ZetaLines(lines, pos, |lines|))
      || (pos < stop && !Contains(lines[stop - 1], ZetaMarker))
    decreases |lines| - pos
  {
    if Contains(ReadAt(lines, pos).0, ZetaMarker) {
      ZetaRunContinues(lines, pos);
      ZetaRunEndsAt(lines, pos + 1);
      if ZetaRun(lines, pos).pos == |lines| && ZetaLines(lines, pos + 1, |lines|) {
        ZetaLinesCons(lines, pos, |lines|);
      }
    } else {
      ZetaRunEnds(lines, pos);
    }
  }

  /** Lines lo up to hi (excluded) are all zeta lines. */
  predicate ZetaLines(lines: seq<string>, lo: nat, hi: nat)
    requires lo <= hi <= |lines|
  {
    forall k :: lo <= k < hi ==> ZetaLine(lines[k])
  }

  lemma ZetaLinesCons(lines: seq<string>, lo: nat, hi: nat)
    requires lo < hi <= |lines| && ZetaLine(lines[lo]) && ZetaLines(lines, lo + 1, hi)
    ensures ZetaLines(lines, lo, hi)
  {
  }

  /** A line of the run: it carries the phrase and its two numbers parse. */
  predicate ZetaLine(line: string)
  {
    Contains(line, ZetaMarker) && ZetaEntry(line).Ok?
  }

  /** A successful run that reads a zeta line goes on successfully from the next line. */
  lemma ZetaRunContinues(lines: seq<string>, pos: nat)
    requires pos <= |lines| && ZetaRun(lines, pos).result.Ok?
    requires Contains(ReadAt(lines, pos).0, ZetaMarker)
    ensures pos < |lines| && ZetaLine(lines[pos])
    ensures ZetaRun(lines, pos + 1).result.Ok? && ZetaRun(lines, pos + 1).pos == ZetaRun(lines, pos).pos
  {
    ContainsEmpty(ZetaMarker);
  }

  /** Sum of (2L+1) over the orbital list, as `transform` sizes it. */
  lemma {:induction false} WidthAppend(a: seq<int>, b: seq<int>)
    ensures OrbitalTransform.Width(a + b) == OrbitalTransform.Width(a) + OrbitalTransform.Width(b)
  {
    if a != [] {
      assert (a + b)[1..] == a[1..] + b;
      WidthAppend(a[1..], b);
    } else {
      assert a + b == b;
    }
  }

  lemma {:induction false} WidthRepeat(l: int, n: int)
    requires n >= 0
    ensures OrbitalTransform.Width(Repeat(l, n)) == (2 * l + 1) * n
    decreases n
  {
    if n > 0 {
      WidthRepeat(l, n - 1);
    }
  }

  /** Every `number of zeta` count in the file is non-negative. */
  predicate CountsNonNegative(lines: seq<string>)
  {
    forall k :: 0 <= k < |lines| && ZetaEntry(lines[k]).Ok? ==> ZetaEntry(lines[k]).value.1 >= 0
  }

  /** With non-negative counts, the announced orbital count Σ(2L+1)·num_L is the
      width Σ(2L+1) of the orbital list that `transform` is given. */
  lemma {:induction false} ZetaRunWidth(lines: seq<string>, pos: nat)
    requires pos <= |lines| && CountsNonNegative(lines)
    requires ZetaRun(lines, pos).result.Ok?
    ensures var o := ZetaRun(lines, pos).result.value; o.count == OrbitalTransform.Width(o.types)
    decreases |lines| - pos
  {
    var (line, next) := ReadAt(lines, pos);
    if Contains(line, ZetaMarker) {
      var (l, n) := ZetaEntry(line).value;
      ZetaRunWidth(lines, next);
      WidthRepeat(l, n);
      WidthAppend(Repeat(l, n), ZetaRun(lines, next).result.value.types);
    }
  }

  /** One `READING ATOM TYPE` section for type index k (0-based). */
  function SectionAt(lines: seq<string>, pos: nat, k: nat, table: map<string, int>): (r: Scan<TypeSection>)
    requires pos <= |lines|
    ensures pos <= r.pos <= |lines|
  {
    var (marker, p1) := FindFrom(lines, pos, TypeMarker);
    if marker.None? then Scan(Err(AssertionFailed), p1)
    else
      match LastToken(marker.value)
      case Err(e) => Scan(Err(e), p1)
      case Ok(index) =>
        if index != IntToString(k + 1) then Scan(Err(AssertionFailed), p1)
        else
          var (line, p2) := ReadAt(lines, p1);
          if !Contains(line, LabelMarker) then Scan(Err(AssertionFailed), p2)
          else
            match LastToken(line)
            case Err(e) => Scan(Err(e), p2)
            case Ok(token) =>
              var symbol := Letters(token);
              if symbol !in table then Scan(Err(AssertionFailed), p2)
              else
                var run := ZetaRun(lines, p2);
                match run.result
                case Err(e) => Scan(Err(e), run.pos)
                case Ok(o) => Scan(Ok(TypeSection(symbol, table[symbol], o)), run.pos)
  }

  /** The sections for type indices k, k+1, ..., n-1, read one after the other. */
  function Sections(lines: seq<string>, pos: nat, k: nat, n: nat, table: map<string, int>): (r: Scan<seq<TypeSection>>)
    requires pos <= |lines|
    ensures pos <= r.pos <= |lines|
    decreases n - k
  {
    if k >= n then Scan(Ok([]), pos)
    else
      var s := SectionAt(lines, pos, k, table);
      match s.result
      case Err(e) => Scan(Err(e), s.pos)
      case Ok(section) => Consed(section, Sections(lines, s.pos, k + 1, n, table))
  }

  function Consed(section: TypeSection, s: Scan<seq<TypeSection>>): Scan<seq<TypeSection>>
  {
    match s.result
    case Err(_) => s
    case Ok(rest) => Scan(Ok([section] + rest), s.pos)
  }

  /** The body of the `for index_type` loop. */
  method ReadTypeSection(f: TextFile, k: nat, table: map<string, int>) returns (r: Result<TypeSection>)
    requires f.Valid()
    modifies f
    ensures f.Valid()
    ensures Scan(r, f.pos) == SectionAt(f.lines, old(f.pos), k, table)
  {
    var marker := f.FindTargetLine(TypeMarker);
    if marker.None? {
      return Err(AssertionFailed);
    }
    var index := LastToken(marker.value);
    if index.Err? {
      return Err(index.failure);
    }
    if index.value != IntToString(k + 1) {
      return Err(AssertionFailed);
    }
    var line := f.ReadLine();
    if !Contains(line, LabelMarker) {
      return Err(AssertionFailed);
    }
    var token := LastToken(line);
    if token.Err? {
      return Err(token.failure);
    }
    var symbol := Letters(token.value);
    if symbol !in table {
      return Err(AssertionFailed);
    }
    var run := ReadZetaRun(f);
    if run.Err? {
      return Err(run.failure);
    }
    return Ok(TypeSection(symbol, table[symbol], run.value));
  }

  /** The `for index_type in range(len(atom_numbs))` loop. */
  method ReadTypeSections(f: TextFile, n: nat, table: map<string, int>) returns (r: Result<seq<TypeSection>>)
    requires f.Valid()
    modifies f
    ensures f.Valid()
    ensures Scan(r, f.pos) == Sections(f.lines, old(f.pos), 0, n, table)
  {
    var sections: seq<TypeSection> := [];
    var all := Sections(f.lines, f.pos, 0, n, table);
    if all.result.Ok? {
      assert [] + all.result.value == all.result.value;
    }
    for k := 0 to n
      invariant f.Valid() && |sections| == k
      invariant Sections(f.lines, old(f.pos), 0, n, table) == Prepended(sections, Sections(f.lines, f.pos, k, n, table))
    {
      var section := ReadTypeSection(f, k, table);
      if section.Err? {
        return Err(section.failure);
      }
      PrependedCons(sections, section.value, Sections(f.lines, f.pos, k + 1, n, table));
      sections := sections + [section.value];
    }
    assert sections + [] == sections;
    return Ok(sections);
  }

  function Prepended(done: seq<TypeSection>, s: Scan<seq<TypeSection>>): Scan<seq<TypeSection>>
  {
    match s.result
    case Err(_) => s
    case Ok(rest) => Scan(Ok(done + rest), s.pos)
  }

  lemma PrependedCons(done: seq<TypeSection>, section: TypeSection, s: Scan<seq<TypeSection>>)
    ensures Prepended(done, Consed(section, s)) == Prepended(done + [section], s)
  {
    if s.result.Ok? {
      assert done + ([section] + s.result.value) == (done + [section]) + s.result.value;
    }
  }

  /** A successful scan yields one section per type index, each labelled by letters
      only, with the atomic number the periodic table gives that symbol. */
  lemma {:induction false} SectionsLabelled(lines: seq<string>, pos: nat, k: nat, n: nat, table: map<string, int>)
    requires pos <= |lines| && k <= n
    requires Sections(lines, pos, k, n, table).result.Ok?
    ensures var ss := Sections(lines, pos, k, n, table).result.value;
      |ss| == n - k &&
      forall i :: 0 <= i < |ss| ==>
        (ss[i].symbol in table && ss[i].number == table[ss[i].symbol]
         && forall c :: c in ss[i].symbol ==> IsLetter(c))
    decreases n - k
  {
    if k < n {
      var s := SectionAt(lines, pos, k, table);
      SectionLabelled(lines, pos, k, table);
      SectionsLabelled(lines, s.pos, k + 1, n, table);
    }
  }

  /** A section is read only after a marker line whose last token is the 1-based type
      index, followed directly by the `atom label =` line naming an element. */
  lemma SectionLabelled(lines: seq<string>, pos: nat, k: nat, table: map<string, int>)
    requires pos <= |lines| && SectionAt(lines, pos, k, table).result.Ok?
    ensures var s := SectionAt(lines, pos, k, table).result.value;
      s.symbol in table && s.number == table[s.symbol] && forall c :: c in s.symbol ==> IsLetter(c)
    ensures exists j :: (pos <= j && j + 1 < |lines| && Contains(lines[j], TypeMarker)
      && LastToken(lines[j]) == Ok(IntToString(k + 1))
      && Contains(lines[j + 1], LabelMarker)
      && LastToken(lines[j + 1]).Ok?
      && Letters(LastToken(lines[j + 1]).value) == SectionAt(lines, pos, k, table).result.value.symbol)
  {
    var found := FindFrom(lines, pos, TypeMarker);
    var p1 := found.1;
    var next := ReadAt(lines, p1);
    assert found.0.Some?;
    assert next.0 != "";
    var token := LastToken(next.0).value;
    LettersOnly(token);
    SectionAtOk(lines, pos, k, table, p1 - 1, token);
  }

  lemma SectionAtOk(lines: seq<string>, pos: nat, k: nat, table: map<string, int>, j: nat, token: string)
    requires pos <= |lines| && SectionAt(lines, pos, k, table).result.Ok?
    requires FindFrom(lines, pos, TypeMarker).1 == j + 1 && j + 1 < |lines|
    requires token == LastToken(lines[j + 1]).value
    ensures var s := SectionAt(lines, pos, k, table).result.value;
      s.symbol == Letters(token) && s.symbol in table && s.number == table[s.symbol]
    ensures Contains(lines[j], TypeMarker) && LastToken(lines[j]) == Ok(IntToString(k + 1))
      && Contains(lines[j + 1], LabelMarker)
  {
    var found := FindFrom(lines, pos, TypeMarker);
    assert found == (Some(lines[j]), j + 1);
    assert ReadAt(lines, j + 1) == (lines[j + 1], j + 2);
    var index := LastToken(lines[j]);
    assert index.Ok? && index.value == IntToString(k + 1);
    assert Contains(lines[j + 1], LabelMarker);
    assert LastToken(lines[j + 1]).Ok?;
  }

  /** A type marker whose index is not k+1 stops the scan. */
  lemma SectionWrongIndex(lines: seq<string>, pos: nat, k: nat, table: map<string, int>, j: nat)
    requires pos <= j < |lines| && Contains(lines[j], TypeMarker)
    requires forall i :: pos <= i < j ==> !Contains(lines[i], TypeMarker)
    requires LastToken(lines[j]) != Ok(IntToString(k + 1))
    ensures SectionAt(lines, pos, k, table).result.Err?
  {
    FindFromFirst(lines, pos, TypeMarker, j);
  }

  /** `site_norbits_dict`: atomic number to orbital count, later sections overwriting. */
  function NorbitsOf(ss: seq<TypeSection>): map<int, int>
  {
    if ss == [] then map[] else NorbitsOf(ss[..|ss| - 1])[ss[|ss| - 1].number := ss[|ss| - 1].orbitals.count]
  }

  /** `orbital_types_dict` of `get_blocks`: atomic number to orbital list. */
  function TypesOf(ss: seq<TypeSection>): map<int, seq<int>>
  {
    if ss == [] then map[] else TypesOf(ss[..|ss| - 1])[ss[|ss| - 1].number := ss[|ss| - 1].orbitals.types]
  }

  /** Both dictionaries have the same keys, and each count is the width of the list
      stored under the same number when the counts come from such lists. */
  lemma {:induction false} DictsAgree(ss: seq<TypeSection>)
    requires forall i :: 0 <= i < |ss| ==> ss[i].orbitals.count == OrbitalTransform.Width(ss[i].orbitals.types)
    ensures NorbitsOf(ss).Keys == TypesOf(ss).Keys
    ensures forall z :: z in NorbitsOf(ss) ==> NorbitsOf(ss)[z] == OrbitalTransform.Width(TypesOf(ss)[z])
  {
    if ss != [] {
      DictsAgree(ss[..|ss| - 1]);
    }
  }

  /** One line of the coordinates table: the atomic number of the site and its
      orbital count. The first token must contain `tau`; the symbol is the letters of
      that token after its first five characters. */
  function SiteAt(line: string, table: map<string, int>, norbitsOf: map<int, int>): Result<(int, int)>
  {
    SiteOf(Split(line), table, norbitsOf)
  }

  function SiteOf(tokens: seq<string>, table: map<string, int>, norbitsOf: map<int, int>): Result<(int, int)>
  {
    if tokens == [] then Err(IndexError)
    else if !Contains(tokens[0], "tau") then Err(AssertionFailed)
    else
      var symbol := Letters(Slice(tokens[0], 5, |tokens[0]|));
      if symbol !in table then Err(AssertionFailed)
      else if table[symbol] !in norbitsOf then Err(KeyError)
      else Ok((table[symbol], norbitsOf[table[symbol]]))
  }

  /** The next n site lines: the atomic numbers and the orbital counts. */
  function Sites(lines: seq<string>, pos: nat, n: nat, table: map<string, int>, norbitsOf: map<int, int>)
    : (r: Scan<(seq<int>, seq<int>)>)
    requires pos <= |lines|
    ensures pos <= r.pos <= |lines|
    ensures r.result.Ok? ==> |r.result.value.0| == n && |r.result.value.1| == n
    decreases n
  {
    if n == 0 then Scan(Ok(([], [])), pos)
    else
      var (line, next) := ReadAt(lines, pos);
      match SiteAt(line, table, norbitsOf)
      case Err(e) => Scan(Err(e), next)
      case Ok((z, c)) => SitesConsed(z, c, Sites(lines, next, n - 1, table, norbitsOf))
  }

  function SitesConsed(z: int, c: int, s: Scan<(seq<int>, seq<int>)>): Scan<(seq<int>, seq<int>)>
  {
    match s.result
    case Err(_) => s
    case Ok((zs, cs)) => Scan(Ok(([z] + zs, [c] + cs)), s.pos)
  }

  function SitesPrepended(zs: seq<int>, cs: seq<int>, s: Scan<(seq<int>, seq<int>)>): Scan<(seq<int>, seq<int>)>
  {
    match s.result
    case Err(_) => s
    case Ok((z2, c2)) => Scan(Ok((zs + z2, cs + c2)), s.pos)
  }

  /** The `for index_site in range(nsites)` loop filling `element` and `site_norbits`. */
  method ReadSites(f: TextFile, n: nat, table: map<string, int>, norbitsOf: map<int, int>)
    returns (r: Result<(seq<int>, seq<int>)>)
    requires f.Valid()
    modifies f
    ensures f.Valid()
    ensures Scan(r, f.pos) == Sites(f.lines, old(f.pos), n, table, norbitsOf)
  {
    var element := new int[n];
    var siteNorbits := new int[n];
    for i := 0 to n
      invariant f.Valid() && f.pos == old(f.pos) + i
      invariant forall k :: 0 <= k < i ==> SiteAt(f.lines[old(f.pos) + k], table, norbitsOf) == Ok((element[k], siteNorbits[k]))
    {
      var line := f.ReadLine();
      var site := SiteAt(line, table, norbitsOf);
      if site.Err? {
        SitesFailAt(f.lines, old(f.pos), n, table, norbitsOf, element[..i], siteNorbits[..i]);
        return Err(site.failure);
      }
      element[i] := site.value.0;
      siteNorbits[i] := site.value.1;
    }
    SitesAll(f.lines, old(f.pos), n, table, norbitsOf, element[..], siteNorbits[..]);
    return Ok((element[..], siteNorbits[..]));
  }

  /** n site lines that all parse give their values in order. */
  lemma {:induction false} SitesAll(lines: seq<string>, start: nat, n: nat, table: map<string, int>,
                                    norbitsOf: map<int, int>, zs: seq<int>, cs: seq<int>)
    requires start + n <= |lines| && |zs| == n && |cs| == n
    requires forall k :: 0 <= k < n ==> SiteAt(lines[start + k], table, norbitsOf) == Ok((zs[k], cs[k]))
    ensures Sites(lines, start, n, table, norbitsOf) == Scan(Ok((zs, cs)), start + n)
    decreases n
  {
    if n > 0 {
      SitesAll(lines, start + 1, n - 1, table, norbitsOf, zs[1..], cs[1..]);
      assert zs == [zs[0]] + zs[1..] && cs == [cs[0]] + cs[1..];
    }
  }

  /** The first site line that does not parse stops the loop with its error. */
  lemma {:induction false} SitesFailAt(lines: seq<string>, start: nat, n: nat, table: map<string, int>,
                                       norbitsOf: map<int, int>, zs: seq<int>, cs: seq<int>)
    requires start + |zs| <= |lines| && |zs| == |cs| < n
    requires forall k :: 0 <= k < |zs| ==> SiteAt(lines[start + k], table, norbitsOf) == Ok((zs[k], cs[k]))
    requires SiteAt(ReadAt(lines, start + |zs|).0, table, norbitsOf).Err?
    ensures Sites(lines, start, n, table, norbitsOf)
      == Scan(Err(SiteAt(ReadAt(lines, start + |zs|).0, table, norbitsOf).failure), ReadAt(lines, start + |zs|).1)
    decreases |zs|
  {
    if |zs| > 0 {
      assert SiteAt(ReadAt(lines, start).0, table, norbitsOf) == Ok((zs[0], cs[0]));
      assert start + 1 + |zs[1..]| == start + |zs|;
      SitesFailAt(lines, start + 1, n - 1, table, norbitsOf, zs[1..], cs[1..]);
    }
  }

  /** Every site read names an element that has a section, with that section's count. */
  lemma {:induction false} SitesFromSections(lines: seq<string>, pos: nat, n: nat, table: map<string, int>, norbitsOf: map<int, int>)
    requires pos <= |lines| && Sites(lines, pos, n, table, norbitsOf).result.Ok?
    ensures var (zs, cs) := Sites(lines, pos, n, table, norbitsOf).result.value;
      forall i :: 0 <= i < n ==> zs[i] in norbitsOf && cs[i] == norbitsOf[zs[i]] && zs[i] in table.Values
    decreases n
  {
    if n > 0 {
      var (line, next) := ReadAt(lines, pos);
      SitesFromSections(lines, next, n - 1, table, norbitsOf);
    }
  }

  /** The spin flag as written: with `hamiltonian=False, overlap=True` it is False without
      reading; otherwise an `nspin` line must be found (the `NSPIN` retry reads on from
      where the failed search left the cursor), and the flag is then False whatever
      the line says, because the first operand of the `or` is a non-empty literal. */
  function SpinFlag(lines: seq<string>, pos: nat, hamiltonian: bool, overlap: bool): Result<bool>
    requires pos <= |lines|
  {
    if !hamiltonian && overlap then Ok(false)
    else
      var (line, p) := FindFrom(lines, pos, "nspin");
      var (retry, _) := if line.None? then FindFrom(lines, p, "NSPIN") else (line, p);
      if retry.None? then Err(AssertionFailed) else Ok(false)
  }

  /** The log scan of `get_blocks`, on the lines of `running_<mode>.log`. */
  function LogLayout(lines: seq<string>, ntypes: nat, nsites: nat, table: map<string, int>,
                     hamiltonian: bool, overlap: bool): Result<Layout>
  {
    var s := Sections(lines, 0, 0, ntypes, table);
    match s.result
    case Err(e) => Err(e)
    case Ok(ss) => SiteTable(lines, s.pos, ss, nsites, table, hamiltonian, overlap)
  }

  /** The part of the scan after the type sections: the coordinates table and the spin flag. */
  function SiteTable(lines: seq<string>, pos: nat, ss: seq<TypeSection>, nsites: nat, table: map<string, int>,
                     hamiltonian: bool, overlap: bool): Result<Layout>
    requires pos <= |lines|
  {
    var (_, p1) := FindFrom(lines, pos, CoordinatesMarker);
    var (header, p2) := ReadAt(lines, p1);
    if !Contains(header, "atom") then Err(AssertionFailed)
    else
      var sites := Sites(lines, p2, nsites, table, NorbitsOf(ss));
      match sites.result
      case Err(e) => Err(e)
      case Ok((zs, cs)) =>
        var spinful :- SpinFlag(lines, sites.pos, hamiltonian, overlap);
        Ok(Layout(zs, cs, TypesOf(ss), spinful))
  }

  lemma SiteTableSites(lines: seq<string>, pos: nat, ss: seq<TypeSection>, nsites: nat, table: map<string, int>,
                       hamiltonian: bool, overlap: bool)
    requires pos <= |lines| && SiteTable(lines, pos, ss, nsites, table, hamiltonian, overlap).Ok?
    ensures var lay := SiteTable(lines, pos, ss, nsites, table, hamiltonian, overlap).value;
      |lay.element| == nsites && |lay.siteNorbits| == nsites && !lay.spinful && lay.orbitalTypes == TypesOf(ss)
      && forall i :: 0 <= i < nsites ==> lay.element[i] in NorbitsOf(ss) && lay.siteNorbits[i] == NorbitsOf(ss)[lay.element[i]]
  {
    var (_, p1) := FindFrom(lines, pos, CoordinatesMarker);
    var (header, p2) := ReadAt(lines, p1);
    SitesFromSections(lines, p2, nsites, table, NorbitsOf(ss));
  }

  method ReadLayout(lines: seq<string>, ntypes: nat, nsites: nat, table: map<string, int>,
                    hamiltonian: bool, overlap: bool) returns (r: Result<Layout>)
    ensures r == LogLayout(lines, ntypes, nsites, table, hamiltonian, overlap)
  {
    var f := new TextFile(lines);
    var sections := ReadTypeSections(f, ntypes, table);
    if sections.Err? {
      return Err(sections.failure);
    }
    var norbitsOf: map<int, int> := map[];
    var typesOf: map<int, seq<int>> := map[];
    for k := 0 to |sections.value|
      invariant norbitsOf == NorbitsOf(sections.value[..k]) && typesOf == TypesOf(sections.value[..k])
    {
      var s := sections.value[k];
      assert sections.value[..k + 1][..k] == sections.value[..k];
      norbitsOf := norbitsOf[s.number := s.orbitals.count];
      typesOf := typesOf[s.number := s.orbitals.types];
    }
    assert sections.value[..|sections.value|] == sections.value;
    var _ := f.FindTargetLine(CoordinatesMarker);
    var header := f.ReadLine();
    if !Contains(header, "atom") {
      return Err(AssertionFailed);
    }
    var sites := ReadSites(f, nsites, table, norbitsOf);
    if sites.Err? {
      return Err(sites.failure);
    }
    var spinful := false;
    if !(!hamiltonian && overlap) {
      var line := f.FindTargetLine("nspin");
      if line.None? {
        line := f.FindTargetLine("NSPIN");
      }
      if line.None? {
        return Err(AssertionFailed);
      }
    }
    return Ok(Layout(sites.value.0, sites.value.1, typesOf, spinful));
  }

  /** What a successful log scan promises `get_blocks`: one atomic number and one
      orbital count per site, the count being the one announced for that element, an
      orbital list for every element present, and the spin flag False. */
  lemma LayoutSites(lines: seq<string>, ntypes: nat, nsites: nat, table: map<string, int>,
                    hamiltonian: bool, overlap: bool, lay: Layout)
    requires LogLayout(lines, ntypes, nsites, table, hamiltonian, overlap) == Ok(lay)
    ensures |lay.element| == nsites && |lay.siteNorbits| == nsites && !lay.spinful
    ensures forall i :: 0 <= i < nsites ==> lay.element[i] in lay.orbitalTypes
  {
    var s := Sections(lines, 0, 0, ntypes, table);
    var ss := s.result.value;
    SiteTableSites(lines, s.pos, ss, nsites, table, hamiltonian, overlap);
    KeysAgree(ss);
  }

  /** With non-negative zeta counts, each site's orbital count is the width
      Σ(2L+1) of its element's orbital list, the size `transform` expects. */
  lemma LayoutWidths(lines: seq<string>, ntypes: nat, nsites: nat, table: map<string, int>,
                     hamiltonian: bool, overlap: bool, lay: Layout)
    requires LogLayout(lines, ntypes, nsites, table, hamiltonian, overlap) == Ok(lay)
    requires CountsNonNegative(lines)
    ensures |lay.element| == nsites && |lay.siteNorbits| == nsites
    ensures forall i :: 0 <= i < nsites ==>
      lay.element[i] in lay.orbitalTypes && lay.siteNorbits[i] == OrbitalTransform.Width(lay.orbitalTypes[lay.element[i]])
  {
    var s := Sections(lines, 0, 0, ntypes, table);
    var ss := s.result.value;
    SectionsCounted(lines, 0, 0, ntypes, table);
    SiteTableWidths(lines, s.pos, ss, nsites, table, hamiltonian, overlap, lay);
  }

  lemma SiteTableWidths(lines: seq<string>, pos: nat, ss: seq<TypeSection>, nsites: nat, table: map<string, int>,
                        hamiltonian: bool, overlap: bool, lay: Layout)
    requires pos <= |lines| && SiteTable(lines, pos, ss, nsites, table, hamiltonian, overlap) == Ok(lay)
    requires forall i :: 0 <= i < |ss| ==> ss[i].orbitals.count == OrbitalTransform.Width(ss[i].orbitals.types)
    ensures |lay.element| == nsites && |lay.siteNorbits| == nsites
    ensures forall i :: 0 <= i < nsites ==>
      lay.element[i] in lay.orbitalTypes && lay.siteNorbits[i] == OrbitalTransform.Width(lay.orbitalTypes[lay.element[i]])
  {
    SiteTableSites(lines, pos, ss, nsites, table, hamiltonian, overlap);
    DictsAgree(ss);
    forall i | 0 <= i < nsites
      ensures lay.element[i] in lay.orbitalTypes
      ensures lay.siteNorbits[i] == OrbitalTransform.Width(lay.orbitalTypes[lay.element[i]])
    {
      var z := lay.element[i];
      assert z in NorbitsOf(ss);
      assert lay.siteNorbits[i] == NorbitsOf(ss)[z];
    }
  }

  lemma {:induction false} KeysAgree(ss: seq<TypeSection>)
    ensures NorbitsOf(ss).Keys == TypesOf(ss).Keys
  {
    if ss != [] {
      KeysAgree(ss[..|ss| - 1]);
    }
  }

  lemma {:induction false} SectionsCounted(lines: seq<string>, pos: nat, k: nat, n: nat, table: map<string, int>)
    requires pos <= |lines| && CountsNonNegative(lines)
    requires Sections(lines, pos, k, n, table).result.Ok?
    ensures var ss := Sections(lines, pos, k, n, table).result.value;
      forall i :: 0 <= i < |ss| ==> ss[i].orbitals.count == OrbitalTransform.Width(ss[i].orbitals.types)
    decreases n - k
  {
    if k < n {
      var s := SectionAt(lines, pos, k, table);
      var (marker, p1) := FindFrom(lines, pos, TypeMarker);
      var (line, p2) := ReadAt(lines, p1);
      ZetaRunWidth(lines, p2);
      SectionsCounted(lines, s.pos, k + 1, n, table);
    }
  }

  /** With the Hamiltonian requested, the scan succeeds only if some line after the
      site table contains the lower-case `nspin`: the upper-case retry starts where
      the failed search stopped, at the end of the file. */
  lemma NspinRequired(lines: seq<string>, pos: nat, hamiltonian: bool, overlap: bool)
    requires pos <= |lines| && (hamiltonian || !overlap)
    ensures SpinFlag(lines, pos, hamiltonian, overlap).Ok?
      <==> exists k :: pos <= k < |lines| && Contains(lines[k], "nspin")
  {
    var (line, p) := FindFrom(lines, pos, "nspin");
    if line.Some? {
      assert Contains(lines[p - 1], "nspin");
    }
  }
}
