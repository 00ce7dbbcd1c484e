/** `get_basis`: the basis string of every element, such as "2s2p1d", from the
    orbital lists in the ABACUS log. */
module AbacusBasis {
  import opened Outcomes
  import opened Text
  import opened TextFiles
  import opened OrderedDicts
  import opened AbacusLog
  import OrbitalTransform
  import opened AbacusBlocks

  /** `Counter(types)[l]` */
  function Count(types: seq<int>, l: int): nat
  {
    multiset(types)[l]
  }

  /** `[l for l in range(lo, top + 1) if counter.get(l, 0) > 0]` */
  function Present(types: seq<int>, lo: int, top: int): seq<int>
    decreases top - lo + 1
  {
    if lo > top then [] else (if Count(types, lo) > 0 then [lo] else []) + Present(types, lo + 1, top)
  }

  /** `"".join(str(counter[l]) + orbitalId[l] for l in ls)`; a letter missing from
      `orbitalId` raises KeyError. */
  function Render(types: seq<int>, ls: seq<int>, orbitalId: map<int, string>): Result<string>
  {
    if ls == [] then Ok("")
    else if ls[0] !in orbitalId then Err(KeyError)
    else
      var rest :- Render(types, ls[1..], orbitalId);
      Ok(IntToString(Count(types, ls[0])) + orbitalId[ls[0]] + rest)
  }

  /** The basis string of one element: its counts per angular momentum l, from 0 up
      to the largest l, each followed by the letter of l. An element without
      orbitals makes `max` of an empty sequence raise ValueError. */
  function BasisString(types: seq<int>, orbitalId: map<int, string>): Result<string>
  {
    if types == [] then Err(ValueError)
    else Render(types, Present(types, 0, OrbitalTransform.Max(types)), orbitalId)
  }

  /** Exactly the angular momenta in [lo, top] that occur. */
  lemma {:induction false} PresentExact(types: seq<int>, lo: int, top: int)
    ensures forall l :: l in Present(types, lo, top) <==> lo <= l <= top && l in types
    decreases top - lo + 1
  {
    if lo <= top {
      PresentExact(types, lo + 1, top);
      assert Count(types, lo) > 0 <==> lo in types;
    }
  }

  /** ... listed in strictly ascending order. */
  lemma {:induction false} PresentAscending(types: seq<int>, lo: int, top: int)
    ensures forall i :: 0 <= i < |Present(types, lo, top)| ==> lo <= Present(types, lo, top)[i]
    ensures forall i, j :: 0 <= i < j < |Present(types, lo, top)| ==> Present(types, lo, top)[i] < Present(types, lo, top)[j]
    decreases top - lo + 1
  {
    if lo <= top {
      var rest := Present(types, lo + 1, top);
      PresentAscending(types, lo + 1, top);
      if Count(types, lo) > 0 {
        var ps := [lo] + rest;
        assert Present(types, lo, top) == ps;
        forall i, j | 0 <= i < j < |ps|
          ensures ps[i] < ps[j]
        {
          assert ps[j] == rest[j - 1];
          if i > 0 {
            assert ps[i] == rest[i - 1];
          }
        }
      } else {
        assert Present(types, lo, top) == rest;
      }
    }
  }

  /** The rendering succeeds exactly when every angular momentum listed has a letter. */
  lemma {:induction false} RenderOk(types: seq<int>, ls: seq<int>, orbitalId: map<int, string>)
    ensures Render(types, ls, orbitalId).Ok? <==> forall i :: 0 <= i < |ls| ==> ls[i] in orbitalId
    ensures Render(types, ls, orbitalId).Err? ==> Render(types, ls, orbitalId).failure == KeyError
  {
    if ls != [] {
      RenderOk(types, ls[1..], orbitalId);
    }
  }

  /** `get_basis` fails on an element without orbitals (ValueError), and otherwise
      exactly when some non-negative angular momentum of the element has no letter
      (KeyError); negative ones are never listed. */
  lemma BasisStringOutcome(types: seq<int>, orbitalId: map<int, string>)
    ensures types == [] ==> BasisString(types, orbitalId) == Err(ValueError)
    ensures types != [] ==>
      (BasisString(types, orbitalId).Ok? <==> forall i :: 0 <= i < |types| && types[i] >= 0 ==> types[i] in orbitalId)
    ensures types != [] && BasisString(types, orbitalId).Err? ==> BasisString(types, orbitalId).failure == KeyError
  {
    if types != [] {
      var top := OrbitalTransform.Max(types);
      var ls := Present(types, 0, top);
      PresentExact(types, 0, top);
      RenderOk(types, ls, orbitalId);
      if forall i :: 0 <= i < |types| && types[i] >= 0 ==> types[i] in orbitalId {
        forall i | 0 <= i < |ls|
          ensures ls[i] in orbitalId
        {
          assert ls[i] in ls;
          var j :| 0 <= j < |types| && types[j] == ls[i];
        }
      } else {
        var i :| 0 <= i < |types| && types[i] >= 0 && types[i] !in orbitalId;
        assert types[i] in ls;
      }
    }
  }

  /** How many entries of `types` lie in [lo, top]. */
  function NumIn(types: seq<int>, lo: int, top: int): nat
  {
    if types == [] then 0 else (if lo <= types[0] <= top then 1 else 0) + NumIn(types[1..], lo, top)
  }

  function SumCounts(types: seq<int>, ls: seq<int>): nat
  {
    if ls == [] then 0 else Count(types, ls[0]) + SumCounts(types, ls[1..])
  }

  lemma {:induction false} NumInSplit(types: seq<int>, lo: int, top: int)
    requires lo <= top
    ensures NumIn(types, lo, top) == Count(types, lo) + NumIn(types, lo + 1, top)
  {
    if types != [] {
      NumInSplit(types[1..], lo, top);
      assert types == [types[0]] + types[1..];
      assert multiset(types) == multiset{types[0]} + multiset(types[1..]);
    }
  }

  lemma {:induction false} SumCountsAppend(types: seq<int>, a: seq<int>, b: seq<int>)
    ensures SumCounts(types, a + b) == SumCounts(types, a) + SumCounts(types, b)
  {
    if a != [] {
      assert (a + b)[1..] == a[1..] + b;
      SumCountsAppend(types, a[1..], b);
    } else {
      assert a + b == b;
    }
  }

  /** The counts listed for [lo, top] add up to the number of entries in that range. */
  lemma {:induction false} PresentCounts(types: seq<int>, lo: int, top: int)
    ensures SumCounts(types, Present(types, lo, top)) == NumIn(types, lo, top)
    decreases top - lo + 1
  {
    if lo > top {
      NumInEmpty(types, lo, top);
    } else {
      PresentCounts(types, lo + 1, top);
      NumInSplit(types, lo, top);
      var head: seq<int> := if Count(types, lo) > 0 then [lo] else [];
      SumCountsAppend(types, head, Present(types, lo + 1, top));
    }
  }

  lemma {:induction false} NumInEmpty(types: seq<int>, lo: int, top: int)
    requires lo > top
    ensures NumIn(types, lo, top) == 0
  {
    if types != [] {
      NumInEmpty(types[1..], lo, top);
    }
  }

  lemma {:induction false} NumInAll(types: seq<int>, lo: int, top: int)
    requires forall i :: 0 <= i < |types| ==> lo <= types[i] <= top
    ensures NumIn(types, lo, top) == |types|
  {
    if types != [] {
      NumInAll(types[1..], lo, top);
    }
  }

  /** With no negative angular momentum, the counts in a basis string add up to the
      number of radial functions of the element: none is lost or counted twice. */
  lemma BasisAccountsForAll(types: seq<int>)
    requires types != [] && forall i :: 0 <= i < |types| ==> types[i] >= 0
    ensures SumCounts(types, Present(types, 0, OrbitalTransform.Max(types))) == |types|
  {
    var top := OrbitalTransform.Max(types);
    PresentCounts(types, 0, top);
    NumInAll(types, 0, top);
  }

  /** `orbital_types_dict` of `get_basis`, keyed by element symbol: a symbol seen
      again keeps its first position and takes the later list. */
  function SymbolTypes(ss: seq<TypeSection>): seq<(string, seq<int>)>
  {
    if ss == [] then []
    else Assign(SymbolTypes(ss[..|ss| - 1]), ss[|ss| - 1].symbol, ss[|ss| - 1].orbitals.types)
  }

  /** The symbols of the sections without repeats, in the order they first appear. */
  function FirstSeen(ss: seq<TypeSection>): seq<string>
  {
    if ss == [] then []
    else
      var seen := FirstSeen(ss[..|ss| - 1]);
      if ss[|ss| - 1].symbol in seen then seen else seen + [ss[|ss| - 1].symbol]
  }

  /** The `for k, v in orbital_types_dict.items()` loop, in insertion order, filling the
      dict `basis`; the first element whose string cannot be rendered stops it. */
  function RenderAll(d: seq<(string, seq<int>)>, orbitalId: map<int, string>): Result<seq<(string, string)>>
  {
    if d == [] then Ok([])
    else
      var basis :- RenderAll(d[..|d| - 1], orbitalId);
      var s :- BasisString(d[|d| - 1].1, orbitalId);
      Ok(Assign(basis, d[|d| - 1].0, s))
  }

  /** `get_basis` on the lines of the log, for `ntypes` element types. */
  function BasisOfLog(lines: seq<string>, ntypes: nat, table: map<string, int>, orbitalId: map<int, string>)
    : Result<seq<(string, string)>>
  {
    var ss :- Sections(lines, 0, 0, ntypes, table).result;
    RenderAll(SymbolTypes(ss), orbitalId)
  }

  /** `get_basis` on the files of the run: opening a missing `running_<mode>.log` raises
      FileNotFoundError. */
  function Basis(files: Files, mode: string, ntypes: nat, table: map<string, int>, orbitalId: map<int, string>)
    : Result<seq<(string, string)>>
  {
    if LogPath(mode) !in files then Err(FileNotFound)
    else BasisOfLog(files[LogPath(mode)], ntypes, table, orbitalId)
  }

  method GetBasis(files: Files, mode: string, ntypes: nat, table: map<string, int>, orbitalId: map<int, string>)
    returns (r: Result<seq<(string, string)>>)
    ensures r == Basis(files, mode, ntypes, table, orbitalId)
  {
    var log := LogPath(mode);
    if log !in files {
      return Err(FileNotFound);
    }
    var f := new TextFile(files[log]);
    var sections := ReadTypeSections(f, ntypes, table);
    if sections.Err? {
      return Err(sections.failure);
    }
    var bySymbol := CollectSymbols(sections.value);
    r := RenderBasis(bySymbol, orbitalId);
  }

  /** The first loop of `get_basis`: `orbital_types_dict[atom_label] = ...` per section. */
  method CollectSymbols(ss: seq<TypeSection>) returns (bySymbol: seq<(string, seq<int>)>)
    ensures bySymbol == SymbolTypes(ss)
  {
    bySymbol := [];
    for k := 0 to |ss|
      invariant bySymbol == SymbolTypes(ss[..k])
    {
      assert ss[..k + 1][..k] == ss[..k];
      bySymbol := Assign(bySymbol, ss[k].symbol, ss[k].orbitals.types);
    }
    assert ss[..|ss|] == ss;
  }

  /** The second loop of `get_basis`: one basis string per element, in dictionary order. */
  method RenderBasis(bySymbol: seq<(string, seq<int>)>, orbitalId: map<int, string>)
    returns (r: Result<seq<(string, string)>>)
    ensures r == RenderAll(bySymbol, orbitalId)
  {
    var basis: seq<(string, string)> := [];
    for k := 0 to |bySymbol|
      invariant RenderAll(bySymbol[..k], orbitalId) == Ok(basis)
    {
      assert bySymbol[..k + 1][..k] == bySymbol[..k];
      var s := BasisString(bySymbol[k].1, orbitalId);
      if s.Err? {
        RenderAllStops(bySymbol, orbitalId, k + 1);
        return Err(s.failure);
      }
      basis := Assign(basis, bySymbol[k].0, s.value);
    }
    assert bySymbol[..|bySymbol|] == bySymbol;
    return Ok(basis);
  }

  /** A failure on a prefix of the dictionary is the failure of the whole loop. */
  lemma {:induction false} RenderAllStops(d: seq<(string, seq<int>)>, orbitalId: map<int, string>, k: nat)
    requires k <= |d| && RenderAll(d[..k], orbitalId).Err?
    ensures RenderAll(d, orbitalId) == RenderAll(d[..k], orbitalId)
    decreases |d| - k
  {
    if k < |d| {
      assert d[..|d| - 1][..k] == d[..k];
      RenderAllStops(d[..|d| - 1], orbitalId, k);
    } else {
      assert d[..k] == d;
    }
  }

  lemma {:induction false} SymbolTypesDistinct(ss: seq<TypeSection>)
    ensures DistinctKeys(SymbolTypes(ss))
  {
    if ss != [] {
      SymbolTypesDistinct(ss[..|ss| - 1]);
      AssignIsUpdate(SymbolTypes(ss[..|ss| - 1]), ss[|ss| - 1].symbol, ss[|ss| - 1].orbitals.types);
    }
  }

  /** The last section carrying a symbol decides its orbital list. */
  lemma {:induction false} SymbolTypesLastWins(ss: seq<TypeSection>, j: nat)
    requires j < |ss| && forall i :: j < i < |ss| ==> ss[i].symbol != ss[j].symbol
    ensures ss[j].symbol in AsMap(SymbolTypes(ss)) && AsMap(SymbolTypes(ss))[ss[j].symbol] == ss[j].orbitals.types
  {
    var p := ss[..|ss| - 1];
    SymbolTypesDistinct(p);
    AssignIsUpdate(SymbolTypes(p), ss[|ss| - 1].symbol, ss[|ss| - 1].orbitals.types);
    if j < |ss| - 1 {
      assert p[j] == ss[j];
      SymbolTypesLastWins(p, j);
    }
  }

  /** Every symbol in the dictionary comes from some section. */
  lemma {:induction false} SymbolTypesKeys(ss: seq<TypeSection>, s: string)
    requires s in AsMap(SymbolTypes(ss))
    ensures exists j :: 0 <= j < |ss| && ss[j].symbol == s
  {
    var p := ss[..|ss| - 1];
    SymbolTypesDistinct(p);
    AssignIsUpdate(SymbolTypes(p), ss[|ss| - 1].symbol, ss[|ss| - 1].orbitals.types);
    if s != ss[|ss| - 1].symbol {
      SymbolTypesKeys(p, s);
      var j :| 0 <= j < |p| && p[j].symbol == s;
      assert ss[j].symbol == s;
    }
  }

  /** `orbital_types_dict` lists each symbol once, at the position of its first section. */
  lemma {:induction false} SymbolTypesOrder(ss: seq<TypeSection>)
    ensures |SymbolTypes(ss)| == |FirstSeen(ss)|
    ensures forall i :: 0 <= i < |FirstSeen(ss)| ==> SymbolTypes(ss)[i].0 == FirstSeen(ss)[i]
  {
    if ss != [] {
      var p := ss[..|ss| - 1];
      var k := ss[|ss| - 1].symbol;
      var v := ss[|ss| - 1].orbitals.types;
      var d := SymbolTypes(p);
      SymbolTypesOrder(p);
      if k in FirstSeen(p) {
        var j :| 0 <= j < |FirstSeen(p)| && FirstSeen(p)[j] == k;
        SymbolTypesDistinct(p);
        AssignAt(d, k, v, j);
      } else {
        assert forall j :: 0 <= j < |d| ==> d[j].0 != k by {
          forall j | 0 <= j < |d|
            ensures d[j].0 != k
          {
            assert FirstSeen(p)[j] in FirstSeen(p);
          }
        }
        NotPresentAppends(d, k, v);
      }
    }
  }

  /** A successful loop over a dict with distinct keys fills `basis` with the same keys
      in the same order, each holding its element's basis string. */
  lemma {:induction false} RenderAllEntries(d: seq<(string, seq<int>)>, orbitalId: map<int, string>)
    requires DistinctKeys(d) && RenderAll(d, orbitalId).Ok?
    ensures |RenderAll(d, orbitalId).value| == |d|
    ensures forall i :: 0 <= i < |d| ==> RenderAll(d, orbitalId).value[i].0 == d[i].0
    ensures forall i :: 0 <= i < |d| ==> Ok(RenderAll(d, orbitalId).value[i].1) == BasisString(d[i].1, orbitalId)
  {
    if d != [] {
      var p := d[..|d| - 1];
      DistinctPrefix(d);
      RenderAllEntries(p, orbitalId);
      var prev := RenderAllAppends(d, orbitalId);
      var r := RenderAll(d, orbitalId).value;
      forall i | 0 <= i < |d|
        ensures r[i].0 == d[i].0 && Ok(r[i].1) == BasisString(d[i].1, orbitalId)
      {
        if i < |p| {
          assert r[i] == prev[i] && p[i] == d[i];
        }
      }
    }
  }

  lemma DistinctPrefix<V>(d: seq<(string, V)>)
    requires DistinctKeys(d) && d != []
    ensures DistinctKeys(d[..|d| - 1])
  {
    var p := d[..|d| - 1];
    forall i, j | 0 <= i < j < |p|
      ensures p[i].0 != p[j].0
    {
      assert p[i] == d[i] && p[j] == d[j];
    }
  }

  /** Once the earlier keys are rendered in their positions, the last key, being new,
      is appended. */
  lemma RenderAllAppends(d: seq<(string, seq<int>)>, orbitalId: map<int, string>) returns (prev: seq<(string, string)>)
    requires DistinctKeys(d) && d != [] && RenderAll(d, orbitalId).Ok?
    requires var p := d[..|d| - 1];
      |RenderAll(p, orbitalId).value| == |p| && forall i :: 0 <= i < |p| ==> RenderAll(p, orbitalId).value[i].0 == p[i].0
    ensures prev == RenderAll(d[..|d| - 1], orbitalId).value
    ensures RenderAll(d, orbitalId).value == prev + [(d[|d| - 1].0, BasisString(d[|d| - 1].1, orbitalId).value)]
  {
    var p := d[..|d| - 1];
    var k := d[|d| - 1].0;
    prev := RenderAll(p, orbitalId).value;
    var s := BasisString(d[|d| - 1].1, orbitalId).value;
    forall j | 0 <= j < |prev|
      ensures prev[j].0 != k
    {
      assert p[j] == d[j];
    }
    NotPresentAppends(prev, k, s);
  }

  /** The keys of a successful `basis` are the symbols of the log, each once, in the
      order of their first type section. */
  lemma BasisInLogOrder(files: Files, mode: string, ntypes: nat, table: map<string, int>, orbitalId: map<int, string>,
                        basis: seq<(string, string)>)
    requires Basis(files, mode, ntypes, table, orbitalId) == Ok(basis)
    ensures LogPath(mode) in files && Sections(files[LogPath(mode)], 0, 0, ntypes, table).result.Ok?
    ensures var ss := Sections(files[LogPath(mode)], 0, 0, ntypes, table).result.value;
      |basis| == |FirstSeen(ss)| && forall i :: 0 <= i < |basis| ==> basis[i].0 == FirstSeen(ss)[i]
  {
    var ss := Sections(files[LogPath(mode)], 0, 0, ntypes, table).result.value;
    SymbolTypesDistinct(ss);
    RenderAllEntries(SymbolTypes(ss), orbitalId);
    SymbolTypesOrder(ss);
  }

  /** What `get_basis` returns: one basis string per element symbol met in the log,
      rendered from the orbital list of the last section with that symbol. */
  lemma BasisOfLastSection(files: Files, mode: string, ntypes: nat, table: map<string, int>, orbitalId: map<int, string>,
                           basis: seq<(string, string)>, j: nat)
    requires Basis(files, mode, ntypes, table, orbitalId) == Ok(basis)
    requires LogPath(mode) in files && Sections(files[LogPath(mode)], 0, 0, ntypes, table).result.Ok?
    requires var ss := Sections(files[LogPath(mode)], 0, 0, ntypes, table).result.value;
      j < |ss| && forall i :: j < i < |ss| ==> ss[i].symbol != ss[j].symbol
    ensures var ss := Sections(files[LogPath(mode)], 0, 0, ntypes, table).result.value;
      ss[j].symbol in AsMap(basis) && Ok(AsMap(basis)[ss[j].symbol]) == BasisString(ss[j].orbitals.types, orbitalId)
  {
    var ss := Sections(files[LogPath(mode)], 0, 0, ntypes, table).result.value;
    var d := SymbolTypes(ss);
    var sym := ss[j].symbol;
    SymbolTypesDistinct(ss);
    RenderAllEntries(d, orbitalId);
    SymbolTypesLastWins(ss, j);
    AsMapHas(d, sym);
    var i :| 0 <= i < |d| && d[i].0 == sym;
    AsMapAt(d, i);
    BasisDistinct(d, basis);
    AsMapAt(basis, i);
  }

  /** `basis` has the keys of the dict it was rendered from, so they stay distinct. */
  lemma BasisDistinct(d: seq<(string, seq<int>)>, basis: seq<(string, string)>)
    requires DistinctKeys(d) && |basis| == |d| && forall i :: 0 <= i < |d| ==> basis[i].0 == d[i].0
    ensures DistinctKeys(basis)
  {
  }

  /** ... and no other key. */
  lemma BasisKeysFromLog(files: Files, mode: string, ntypes: nat, table: map<string, int>, orbitalId: map<int, string>,
                         basis: seq<(string, string)>, s: string)
    requires Basis(files, mode, ntypes, table, orbitalId) == Ok(basis) && s in AsMap(basis)
    ensures LogPath(mode) in files && Sections(files[LogPath(mode)], 0, 0, ntypes, table).result.Ok?
    ensures var ss := Sections(files[LogPath(mode)], 0, 0, ntypes, table).result.value;
      exists j :: 0 <= j < |ss| && ss[j].symbol == s
  {
    var ss := Sections(files[LogPath(mode)], 0, 0, ntypes, table).result.value;
    var d := SymbolTypes(ss);
    SymbolTypesDistinct(ss);
    RenderAllEntries(d, orbitalId);
    AsMapHas(basis, s);
    var i :| 0 <= i < |basis| && basis[i].0 == s;
    AsMapHas(d, s);
    SymbolTypesKeys(ss, s);
  }
}
