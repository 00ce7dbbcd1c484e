/** `get_abs_h0_folders` and `add_h0_delta_h`: every structure of a finished dataset
    is paired with the run of the same name under a reference (H0) tree, and the
    stored Hamiltonian of each paired structure is replaced by its difference from
    the reference Hamiltonian.

    The two lmdb databases are maps from 4-byte keys to records, a record being the
    unpickled dictionary. `os.walk` of the reference tree is the list of
    (directory name, path) pairs it visits, in visiting order. `get_blocks` on a
    reference run is the `reference` function: the list of Hamiltonian frames read
    from that folder, each an insertion-ordered dictionary of blocks. */
module AbacusDelta {
  import opened Outcomes
  import opened Matrices
  import opened OrderedDicts
  import opened Text

  /** The number of structures handled per pair of transactions. */
  const BatchSize: nat := 50

  /** The first key that `int.to_bytes(length=4)` cannot encode. */
  const KeyLimit: nat := 0x1_0000_0000

  newtype byte = x: int | 0 <= x < 256

  type Key = seq<byte>

  /** An insertion-ordered dictionary of blocks. */
  type Blocks = seq<(string, Matrix)>

  /** A field of a stored record: a dictionary of blocks, or anything else. */
  datatype Value = BlockDict(entries: Blocks) | Other(code: int)

  type Record = seq<(string, Value)>

  type Store = map<Key, Record>

  // ---------------------------------------------------------------- record keys

  /** `n.to_bytes(length=len, byteorder='big')` for n below 256^len. */
  function BigEndian(n: nat, len: nat): (r: seq<byte>)
    ensures |r| == len
  {
    if len == 0 then [] else BigEndian(n / 256, len - 1) + [(n % 256) as byte]
  }

  /** `int.from_bytes(bs, byteorder='big')`. */
  function FromBigEndian(bs: seq<byte>): nat
  {
    if bs == [] then 0 else FromBigEndian(bs[..|bs| - 1]) * 256 + bs[|bs| - 1] as nat
  }

  function Pow256(len: nat): nat
  {
    if len == 0 then 1 else 256 * Pow256(len - 1)
  }

  /** `n.to_bytes(length=4, byteorder='big')`, which overflows from 2^32 on. */
  function KeyOf(n: nat): Result<Key>
  {
    if n >= KeyLimit then Err(Overflow) else Ok(BigEndian(n, 4))
  }

  // ---------------------------------------------------------------- subtraction

  /** The length numpy broadcasting gives to one axis, if the two lengths agree. */
  function Axis(a: nat, b: nat): Option<nat>
  {
    if a == b then Some(a) else if a == 1 then Some(b) else if b == 1 then Some(a) else None
  }

  /** The index into an axis of length n that broadcasts to index i. */
  function Pick(n: nat, i: nat): nat
  {
    if n == 1 then 0 else i
  }

  /** `a - b` for numpy arrays: axes of length 1 are stretched; any other mismatch
      raises `ValueError`. */
  function Subtract(a: Matrix, b: Matrix): Result<Matrix>
  {
    match (Axis(a.rows, b.rows), Axis(a.cols, b.cols))
    case (Some(rows), Some(cols)) => Ok(Broadcast(a, b, rows, cols))
    case _ => Err(ValueError)
  }

  function Broadcast(a: Matrix, b: Matrix, rows: nat, cols: nat): (r: Matrix)
    requires Axis(a.rows, b.rows) == Some(rows) && Axis(a.cols, b.cols) == Some(cols)
    ensures r.rows == rows && r.cols == cols
    ensures forall i, j :: 0 <= i < rows && 0 <= j < cols ==>
      r.e[i][j] == Minus(a.e[Pick(a.rows, i)][Pick(a.cols, j)], b.e[Pick(b.rows, i)][Pick(b.cols, j)])
  {
    var e := seq(rows, i requires 0 <= i < rows =>
      seq(cols, j requires 0 <= j < cols => Minus(a.e[Pick(a.rows, i)][Pick(a.cols, j)], b.e[Pick(b.rows, i)][Pick(b.cols, j)])));
    assert forall i :: 0 <= i < rows ==> |e[i]| == cols;
    Dense(rows, cols, e)
  }

  // ---------------------------------------------------------------- delta blocks

  /** The loop over the stored blocks from position i on, with the differences
      found so far in `acc`: each stored block minus the reference block of its key. */
  function Deltas(stored: Blocks, h0: map<string, Matrix>, i: nat, acc: Blocks): Result<Blocks>
    requires i <= |stored|
    decreases |stored| - i
  {
    if i == |stored| then Ok(acc)
    else
      var (k, m) := stored[i];
      if k !in h0 then Err(KeyError)
      else
        var d :- Subtract(m, h0[k]);
        Deltas(stored, h0, i + 1, Assign(acc, k, d))
  }

  method DeltaBlocks(stored: Blocks, h0: map<string, Matrix>) returns (r: Result<Blocks>)
    ensures r == Deltas(stored, h0, 0, [])
  {
    var delta: Blocks := [];
    for i := 0 to |stored|
      invariant Deltas(stored, h0, 0, []) == Deltas(stored, h0, i, delta)
    {
      var (k, m) := stored[i];
      if k !in h0 {
        return Err(KeyError);
      }
      var d := Subtract(m, h0[k]);
      if d.Err? {
        return Err(d.failure);
      }
      delta := Assign(delta, k, d.value);
    }
    return Ok(delta);
  }

  // ---------------------------------------------------------------- one structure

  /** The record after the update: `hamiltonian` holds the differences and, unless
      only the differences are kept, `hamiltonian_full` and `hamiltonian_0` hold
      the stored and the reference blocks. */
  function Updated(rec: Record, h0: Blocks, keepDeltaOnly: bool): Result<Record>
  {
    var fields := AsMap(rec);
    if "hamiltonian" !in fields then Err(KeyError)
    else
      match fields["hamiltonian"]
      case Other(_) => Err(AttributeError)
      case BlockDict(stored) =>
        var delta :- Deltas(stored, AsMap(h0), 0, []);
        var withDelta := Assign(rec, "hamiltonian", BlockDict(delta));
        if keepDeltaOnly then Ok(withDelta)
        else Ok(Assign(Assign(withDelta, "hamiltonian_full", BlockDict(stored)), "hamiltonian_0", BlockDict(h0)))
  }

  /** The body of the inner loop for structure `idx`: its record is read from the old
      store under its own index and its reference frames from `folders[idx]`. */
  function Processed(oldStore: Store, folders: seq<Option<string>>, reference: (nat, string) -> Result<seq<Blocks>>,
                     keepDeltaOnly: bool, idx: nat): Result<Record>
  {
    var key :- KeyOf(idx);
    if key !in oldStore then Err(TypeError)
    else if idx >= |folders| then Err(IndexError)
    else if folders[idx].None? then Err(TypeError)
    else
      var frames :- reference(idx, folders[idx].value);
      if |frames| == 0 then Err(IndexError)
      else Updated(oldStore[key], frames[0], keepDeltaOnly)
  }

  function Process(oldStore: Store, folders: seq<Option<string>>, reference: (nat, string) -> Result<seq<Blocks>>,
                   keepDeltaOnly: bool): nat -> Result<Record>
  {
    (idx: nat) => Processed(oldStore, folders, reference, keepDeltaOnly, idx)
  }

  method ProcessRecord(oldStore: Store, folders: seq<Option<string>>, reference: (nat, string) -> Result<seq<Blocks>>,
                       keepDeltaOnly: bool, idx: nat) returns (r: Result<Record>)
    ensures r == Processed(oldStore, folders, reference, keepDeltaOnly, idx)
  {
    var key := KeyOf(idx);
    if key.Err? {
      return Err(key.failure);
    }
    if key.value !in oldStore {
      return Err(TypeError);
    }
    var rec := oldStore[key.value];
    if idx >= |folders| {
      return Err(IndexError);
    }
    if folders[idx].None? {
      return Err(TypeError);
    }
    var frames := reference(idx, folders[idx].value);
    if frames.Err? {
      return Err(frames.failure);
    }
    if |frames.value| == 0 {
      return Err(IndexError);
    }
    var h0 := frames.value[0];
    var fields := AsMap(rec);
    if "hamiltonian" !in fields {
      return Err(KeyError);
    }
    var stored := fields["hamiltonian"];
    if stored.Other? {
      return Err(AttributeError);
    }
    var delta := DeltaBlocks(stored.entries, AsMap(h0));
    if delta.Err? {
      return Err(delta.failure);
    }
    rec := Assign(rec, "hamiltonian", BlockDict(delta.value));
    if !keepDeltaOnly {
      rec := Assign(rec, "hamiltonian_full", stored);
      rec := Assign(rec, "hamiltonian_0", BlockDict(h0));
    }
    return Ok(rec);
  }

  // ---------------------------------------------------------------- batches

  /** The inner loop over positions k up to `end` of the index list: a `None` is
      skipped, any other index is processed and written under the next key. */
  function Run(process: nat -> Result<Record>, valid: seq<Option<nat>>, k: nat, end: nat, counter: nat,
               store: Store): Result<(nat, Store)>
    requires k <= end <= |valid|
    decreases end - k
  {
    if k == end then Ok((counter, store))
    else
      match valid[k]
      case None => Run(process, valid, k + 1, end, counter, store)
      case Some(idx) =>
        var rec :- process(idx);
        var key :- KeyOf(counter);
        Run(process, valid, k + 1, end, counter + 1, store[key := rec])
  }

  /** The indices the positions k up to `end` of the index list hold, in order,
      skipping the `None`s. */
  function Present(valid: seq<Option<nat>>, k: nat, end: nat): seq<nat>
    requires k <= end <= |valid|
    decreases end - k
  {
    if k == end then []
    else if valid[k].None? then Present(valid, k + 1, end)
    else [valid[k].value] + Present(valid, k + 1, end)
  }

  function BatchEnd(start: nat, n: nat): (end: nat)
    requires start <= n
    ensures start <= end <= n
  {
    if start + BatchSize < n then start + BatchSize else n
  }

  /** The batch loop from position `start` on: each batch runs in one write
      transaction, committed when the batch ends and dropped when it raises. The
      result is the committed store and the count of records written, or the error. */
  function Batches(process: nat -> Result<Record>, valid: seq<Option<nat>>, start: nat, counter: nat,
                   store: Store): (Store, Result<nat>)
    requires start <= |valid|
    decreases |valid| - start
  {
    if start == |valid| then (store, Ok(counter))
    else
      var end := BatchEnd(start, |valid|);
      match Run(process, valid, start, end, counter, store)
      case Err(e) => (store, Err(e))
      case Ok((c, s)) => Batches(process, valid, end, c, s)
  }

  // ---------------------------------------------------------------- folders

  /** The map from directory name to path built over the walk from entry i on; a
      later directory of the same name replaces an earlier one. */
  function FolderMapFrom(walk: seq<(string, string)>, i: nat, acc: map<string, string>): map<string, string>
    requires i <= |walk|
    decreases |walk| - i
  {
    if i == |walk| then acc else FolderMapFrom(walk, i + 1, acc[walk[i].0 := walk[i].1])
  }

  function FolderMap(walk: seq<(string, string)>): map<string, string>
  {
    FolderMapFrom(walk, 0, map[])
  }

  /** The lookup loop from folder k on, with the two lists built so far. */
  function LocatedFrom(names: map<string, string>, raws: seq<Option<string>>, k: nat,
                       folders: seq<Option<string>>, valid: seq<Option<nat>>)
    : Result<(seq<Option<string>>, seq<Option<nat>>)>
    requires k <= |raws|
    decreases |raws| - k
  {
    if k == |raws| then Ok((folders, valid))
    else if raws[k].None? then Err(TypeError)
    else
      var leaf := Leaf(raws[k].value);
      if leaf in names then LocatedFrom(names, raws, k + 1, folders + [Some(names[leaf])], valid + [Some(k)])
      else LocatedFrom(names, raws, k + 1, folders + [None], valid + [None])
  }

  function Located(walk: seq<(string, string)>, raws: seq<Option<string>>)
    : Result<(seq<Option<string>>, seq<Option<nat>>)>
  {
    LocatedFrom(FolderMap(walk), raws, 0, [], [])
  }

  /** What `add_h0_delta_h` leaves behind: the parser's folders, the old and the new
      store, and the count of records written or the error raised. */
  datatype Outcome = Outcome(rawDatas: seq<Option<string>>, oldStore: Store, newStore: Store, result: Result<nat>)

  function DeltaRun(raws: seq<Option<string>>, walk: seq<(string, string)>, oldStore: Store, newStore: Store,
                    reference: (nat, string) -> Result<seq<Blocks>>, keepOld: bool, keepDeltaOnly: bool): Outcome
  {
    match Located(walk, raws)
    case Err(e) => Outcome(raws, oldStore, newStore, Err(e))
    case Ok((folders, valid)) =>
      var (store, result) := Batches(Process(oldStore, folders, reference, keepDeltaOnly), valid, 0, 0, newStore);
      Outcome(folders, if result.Ok? && !keepOld then map[] else oldStore, store, result)
  }

  /** One batch, positions `start` to `end` of the index list, written in one
      transaction over the committed store. */
  method WriteBatch(oldStore: Store, folders: seq<Option<string>>, reference: (nat, string) -> Result<seq<Blocks>>,
                    keepDeltaOnly: bool, valid: seq<Option<nat>>, start: nat, end: nat, counter: nat, store: Store)
    returns (r: Result<(nat, Store)>)
    requires start <= end <= |valid|
    ensures r == Run(Process(oldStore, folders, reference, keepDeltaOnly), valid, start, end, counter, store)
  {
    ghost var process := Process(oldStore, folders, reference, keepDeltaOnly);
    var txn, c := store, counter;
    for k := start to end
      invariant Run(process, valid, start, end, counter, store) == Run(process, valid, k, end, c, txn)
    {
      var step := WriteOne(oldStore, folders, reference, keepDeltaOnly, valid, k, end, c, txn);
      if step.Err? {
        return Err(step.failure);
      }
      c, txn := step.value.0, step.value.1;
    }
    return Ok((c, txn));
  }

  /** One pass of the inner loop, at position k of the index list. */
  method WriteOne(oldStore: Store, folders: seq<Option<string>>, reference: (nat, string) -> Result<seq<Blocks>>,
                  keepDeltaOnly: bool, valid: seq<Option<nat>>, k: nat, end: nat, counter: nat, store: Store)
    returns (r: Result<(nat, Store)>)
    requires k < end <= |valid|
    ensures var process := Process(oldStore, folders, reference, keepDeltaOnly);
      && (r.Err? ==> Run(process, valid, k, end, counter, store) == Err(r.failure))
      && (r.Ok? ==> Run(process, valid, k, end, counter, store) == Run(process, valid, k + 1, end, r.value.0, r.value.1))
  {
    if valid[k].None? {
      return Ok((counter, store));
    }
    var rec := ProcessRecord(oldStore, folders, reference, keepDeltaOnly, valid[k].value);
    if rec.Err? {
      return Err(rec.failure);
    }
    var key := KeyOf(counter);
    if key.Err? {
      return Err(key.failure);
    }
    return Ok((counter + 1, store[key.value := rec.value]));
  }

  /** The parser, as far as these two operations use it: its list of run folders. A
      folder is `None` once `add_h0_delta_h` found no reference run for it. */
  class AbacusParser {
    var rawDatas: seq<Option<string>>

    constructor (folders: seq<string>)
      ensures |rawDatas| == |folders| && forall k :: 0 <= k < |folders| ==> rawDatas[k] == Some(folders[k])
    {
      rawDatas := seq(|folders|, k requires 0 <= k < |folders| => Some(folders[k]));
    }

    /** `get_abs_h0_folders`: for each run folder, the reference folder of the same
        leaf name and the run's index, or `None` twice. */
    method AbsH0Folders(walk: seq<(string, string)>) returns (r: Result<(seq<Option<string>>, seq<Option<nat>>)>)
      ensures r == Located(walk, rawDatas)
    {
      var names: map<string, string> := map[];
      for i := 0 to |walk|
        invariant FolderMap(walk) == FolderMapFrom(walk, i, names)
      {
        var (dirname, path) := walk[i];
        names := names[dirname := path];
      }
      var folders: seq<Option<string>> := [];
      var valid: seq<Option<nat>> := [];
      for k := 0 to |rawDatas|
        invariant Located(walk, rawDatas) == LocatedFrom(names, rawDatas, k, folders, valid)
      {
        if rawDatas[k].None? {
          return Err(TypeError);
        }
        var leaf := Leaf(rawDatas[k].value);
        if leaf in names {
          folders := folders + [Some(names[leaf])];
          valid := valid + [Some(k)];
        } else {
          folders := folders + [None];
          valid := valid + [None];
        }
      }
      return Ok((folders, valid));
    }

    /** `add_h0_delta_h`: the parser's folders become the reference folders, and each
        paired structure is written to the new store, under consecutive keys from 0,
        with its Hamiltonian replaced by the difference. The old store is removed at
        the end unless it is to be kept. */
    method AddH0DeltaH(walk: seq<(string, string)>, oldStore: Store, newStore: Store,
                       reference: (nat, string) -> Result<seq<Blocks>>, keepOld: bool, keepDeltaOnly: bool)
      returns (oldAfter: Store, newAfter: Store, r: Result<nat>)
      modifies this
      ensures Outcome(rawDatas, oldAfter, newAfter, r)
              == DeltaRun(old(rawDatas), walk, oldStore, newStore, reference, keepOld, keepDeltaOnly)
    {
      var located := AbsH0Folders(walk);
      if located.Err? {
        return oldStore, newStore, Err(located.failure);
      }
      var (folders, valid) := located.value;
      assert Located(walk, old(rawDatas)) == Ok((folders, valid));
      rawDatas := folders;
      ghost var process := Process(oldStore, folders, reference, keepDeltaOnly);
      assert process == Process(oldStore, folders, reference, keepDeltaOnly);
      var counter := 0;
      var committed := newStore;
      var start := 0;
      while start < |valid|
        invariant start <= |valid| && rawDatas == folders
        invariant Batches(process, valid, 0, 0, newStore) == Batches(process, valid, start, counter, committed)
        decreases |valid| - start
      {
        var end := BatchEnd(start, |valid|);
        var batch := WriteBatch(oldStore, folders, reference, keepDeltaOnly, valid, start, end, counter, committed);
        if batch.Err? {
          return oldStore, committed, Err(batch.failure);
        }
        committed, counter, start := batch.value.1, batch.value.0, end;
      }
      assert Batches(process, valid, 0, 0, newStore) == (committed, Ok(counter));
      oldAfter := if keepOld then oldStore else map[];
      return oldAfter, committed, Ok(counter);
    }
  }

  // ---------------------------------------------------------------- properties

  /** Big-endian bytes read back give the number they encode. */
  lemma {:induction false} BigEndianRoundTrip(n: nat, len: nat)
    requires n < Pow256(len)
    ensures FromBigEndian(BigEndian(n, len)) == n
  {
    if len > 0 {
      var b := BigEndian(n / 256, len - 1);
      assert n / 256 < Pow256(len - 1);
      BigEndianRoundTrip(n / 256, len - 1);
      assert (b + [(n % 256) as byte])[..|b|] == b;
    }
  }

  /** Bytes decoded and encoded again at their own length are the same bytes. */
  lemma {:induction false} FromBigEndianRoundTrip(bs: seq<byte>)
    ensures FromBigEndian(bs) < Pow256(|bs|)
    ensures BigEndian(FromBigEndian(bs), |bs|) == bs
  {
    if bs != [] {
      var p, x := bs[..|bs| - 1], bs[|bs| - 1];
      FromBigEndianRoundTrip(p);
      var n := FromBigEndian(bs);
      assert n == FromBigEndian(p) * 256 + x as nat;
      assert n / 256 == FromBigEndian(p) && n % 256 == x as nat;
      assert bs == p + [x];
    }
  }

  /** Every record index below 2^32 has a 4-byte key that decodes back to it, so
      distinct indices have distinct keys; from 2^32 on the encoding overflows. */
  lemma KeyRoundTrip(n: nat)
    ensures KeyOf(n).Err? <==> n >= KeyLimit
    ensures KeyOf(n).Ok? ==> |KeyOf(n).value| == 4 && FromBigEndian(KeyOf(n).value) == n
  {
    if n < KeyLimit {
      assert Pow256(4) == KeyLimit;
      BigEndianRoundTrip(n, 4);
    }
  }

  lemma KeysDistinct(a: nat, b: nat)
    requires KeyOf(a).Ok? && KeyOf(a) == KeyOf(b)
    ensures a == b
  {
    KeyRoundTrip(a);
    KeyRoundTrip(b);
  }

  /** Subtraction fails exactly when an axis cannot be broadcast, and on arrays of
      one shape it is the entrywise difference. */
  lemma SubtractShapes(a: Matrix, b: Matrix)
    ensures Subtract(a, b).Ok? <==> Axis(a.rows, b.rows).Some? && Axis(a.cols, b.cols).Some?
    ensures a.rows == b.rows && a.cols == b.cols ==> Subtract(a, b) == Ok(Difference(a, b))
  {
    if a.rows == b.rows && a.cols == b.cols {
      Extensionality(Subtract(a, b).value, Difference(a, b));
    }
  }

  /** The difference loop succeeds exactly when every stored key has a reference
      block of a compatible shape. */
  lemma {:induction false} DeltasSucceed(stored: Blocks, h0: map<string, Matrix>, i: nat, acc: Blocks)
    requires i <= |stored|
    ensures Deltas(stored, h0, i, acc).Ok?
            <==> forall t :: i <= t < |stored| ==> stored[t].0 in h0 && Subtract(stored[t].1, h0[stored[t].0]).Ok?
    decreases |stored| - i
  {
    if i < |stored| && stored[i].0 in h0 && Subtract(stored[i].1, h0[stored[i].0]).Ok? {
      DeltasSucceed(stored, h0, i + 1, Assign(acc, stored[i].0, Subtract(stored[i].1, h0[stored[i].0]).value));
    }
  }

  /** With the stored keys distinct, the differences have the stored keys in the
      stored order, each with the stored block minus the reference block. */
  lemma {:induction false} DeltaEntries(stored: Blocks, h0: map<string, Matrix>, i: nat, acc: Blocks, d: Blocks)
    requires DistinctKeys(stored) && i <= |stored| && |acc| == i
    requires forall t :: 0 <= t < i ==> acc[t].0 == stored[t].0
    requires Deltas(stored, h0, i, acc) == Ok(d)
    ensures |d| == |stored| && d[..i] == acc
    ensures forall t :: i <= t < |stored| ==>
      d[t].0 == stored[t].0 && stored[t].0 in h0 && Subtract(stored[t].1, h0[stored[t].0]) == Ok(d[t].1)
    decreases |stored| - i
  {
    if i < |stored| {
      var (k, m) := stored[i];
      var x := Subtract(m, h0[k]).value;
      NotPresentAppends(acc, k, x);
      DeltaEntries(stored, h0, i + 1, acc + [(k, x)], d);
      assert d[..i] == d[..i + 1][..i];
    }
  }

  /** The updated record: `hamiltonian` now holds the differences from the first
      reference frame and, unless only they are kept, `hamiltonian_full` and
      `hamiltonian_0` the stored and reference blocks; every other field is kept. */
  lemma UpdatedFields(rec: Record, h0: Blocks, keepDeltaOnly: bool, r: Record)
    requires DistinctKeys(rec) && Updated(rec, h0, keepDeltaOnly) == Ok(r)
    ensures "hamiltonian" in AsMap(rec) && AsMap(rec)["hamiltonian"].BlockDict?
    ensures var stored := AsMap(rec)["hamiltonian"].entries;
      && Deltas(stored, AsMap(h0), 0, []).Ok?
      && var delta := AsMap(rec)["hamiltonian" := BlockDict(Deltas(stored, AsMap(h0), 0, []).value)];
         AsMap(r) == if keepDeltaOnly then delta
                     else delta["hamiltonian_full" := BlockDict(stored)]["hamiltonian_0" := BlockDict(h0)]
    ensures DistinctKeys(r)
  {
    var stored := AsMap(rec)["hamiltonian"].entries;
    var d := Deltas(stored, AsMap(h0), 0, []).value;
    var r1 := Assign(rec, "hamiltonian", BlockDict(d));
    AssignIsUpdate(rec, "hamiltonian", BlockDict(d));
    if !keepDeltaOnly {
      var r2 := Assign(r1, "hamiltonian_full", BlockDict(stored));
      AssignIsUpdate(r1, "hamiltonian_full", BlockDict(stored));
      AssignIsUpdate(r2, "hamiltonian_0", BlockDict(h0));
    }
  }

  /** The inner loop writes one record per index it meets, under keys that all fit
      in 4 bytes. */
  lemma {:induction false} RunCount(process: nat -> Result<Record>, valid: seq<Option<nat>>, k: nat, end: nat,
                                    c: nat, s: Store, c2: nat, s2: Store)
    requires k <= end <= |valid| && Run(process, valid, k, end, c, s) == Ok((c2, s2))
    ensures c2 == c + |Present(valid, k, end)|
    ensures c < c2 ==> c2 <= KeyLimit
    decreases end - k
  {
    if k < end {
      if valid[k].None? {
        RunCount(process, valid, k + 1, end, c, s, c2, s2);
      } else {
        RunCount(process, valid, k + 1, end, c + 1, s[BigEndian(c, 4) := process(valid[k].value).value], c2, s2);
      }
    }
  }

  /** The inner loop adds the keys of the counter values it uses, the 4-byte keys
      that decode into `counter` up to `c2`, and no other key; it leaves every other
      record of the store as it was. */
  lemma {:induction false} RunKeys(process: nat -> Result<Record>, valid: seq<Option<nat>>, k: nat, end: nat,
                                   c: nat, s: Store, c2: nat, s2: Store)
    requires k <= end <= |valid| && Run(process, valid, k, end, c, s) == Ok((c2, s2))
    ensures forall key :: key in s2 <==> key in s || Counted(key, c, c2)
    ensures forall key :: key in s && !Counted(key, c, c2) ==> s2[key] == s[key]
    decreases end - k
  {
    if k < end {
      if valid[k].None? {
        RunKeys(process, valid, k + 1, end, c, s, c2, s2);
      } else {
        var key := BigEndian(c, 4);
        KeyRoundTrip(c);
        RunCount(process, valid, k + 1, end, c + 1, s[key := process(valid[k].value).value], c2, s2);
        RunKeys(process, valid, k + 1, end, c + 1, s[key := process(valid[k].value).value], c2, s2);
        assert KeyOf(c) == Ok(key) && Counted(key, c, c2);
        forall x | Counted(x, c, c2)
          ensures x == key || Counted(x, c + 1, c2)
        {
          FromBigEndianRoundTrip(x);
        }
      }
    }
  }

  /** A 4-byte key that decodes into the range [c, c2). */
  predicate Counted(key: Key, c: nat, c2: nat)
  {
    |key| == 4 && c <= FromBigEndian(key) < c2
  }

  /** The inner loop writes the record of the t-th index it meets under key
      `counter + t`. */
  lemma {:induction false} RunRecords(process: nat -> Result<Record>, valid: seq<Option<nat>>, k: nat, end: nat,
                                      c: nat, s: Store, c2: nat, s2: Store)
    requires k <= end <= |valid| && Run(process, valid, k, end, c, s) == Ok((c2, s2))
    ensures c2 == c + |Present(valid, k, end)|
    ensures forall t :: c <= t < c2 ==>
      BigEndian(t, 4) in s2 && process(Present(valid, k, end)[t - c]) == Ok(s2[BigEndian(t, 4)])
    decreases end - k
  {
    RunCount(process, valid, k, end, c, s, c2, s2);
    if k < end {
      if valid[k].None? {
        RunRecords(process, valid, k + 1, end, c, s, c2, s2);
      } else {
        var rec := process(valid[k].value).value;
        var key := BigEndian(c, 4);
        var s1 := s[key := rec];
        RunRecords(process, valid, k + 1, end, c + 1, s1, c2, s2);
        RunCount(process, valid, k + 1, end, c + 1, s1, c2, s2);
        RunKeys(process, valid, k + 1, end, c + 1, s1, c2, s2);
        KeyRoundTrip(c);
        assert !Counted(key, c + 1, c2);
        var ps := Present(valid, k, end);
        assert ps == [valid[k].value] + Present(valid, k + 1, end);
      }
    }
  }

  /** The inner loop up to `end` is the loop up to m followed by the loop from m. */
  lemma {:induction false} RunCompose(process: nat -> Result<Record>, valid: seq<Option<nat>>, k: nat, m: nat,
                                      end: nat, c: nat, s: Store)
    requires k <= m <= end <= |valid|
    ensures Run(process, valid, k, end, c, s)
            == match Run(process, valid, k, m, c, s)
               case Err(e) => Err(e)
               case Ok((c1, s1)) => Run(process, valid, m, end, c1, s1)
    decreases m - k
  {
    if k < m {
      match valid[k]
      case None =>
        RunCompose(process, valid, k + 1, m, end, c, s);
      case Some(idx) =>
        if process(idx).Ok? && KeyOf(c).Ok? {
          RunCompose(process, valid, k + 1, m, end, c + 1, s[KeyOf(c).value := process(idx).value]);
        }
    }
  }

  /** Batching does not change the outcome: the batches succeed exactly when the
      whole index list would in one loop, with the same count and store, and fail
      with the same error. */
  lemma {:induction false} BatchesRun(process: nat -> Result<Record>, valid: seq<Option<nat>>, start: nat, c: nat,
                                      s: Store)
    requires start <= |valid|
    ensures var (store, res) := Batches(process, valid, start, c, s);
      && (res.Ok? ==> Run(process, valid, start, |valid|, c, s) == Ok((res.value, store)))
      && (res.Err? ==> Run(process, valid, start, |valid|, c, s) == Err(res.failure))
    decreases |valid| - start
  {
    if start < |valid| {
      var end := BatchEnd(start, |valid|);
      RunCompose(process, valid, start, end, |valid|, c, s);
      var r := Run(process, valid, start, end, c, s);
      if r.Ok? {
        BatchesRun(process, valid, end, r.value.0, r.value.1);
      }
    }
  }

  /** After a failure the new store holds exactly what the batches before the failing
      one committed: the failing batch starts a multiple of 50 positions in, the
      loop up to it succeeds with the committed store, and the batch itself fails. */
  lemma {:induction false} BatchesCommitted(process: nat -> Result<Record>, valid: seq<Option<nat>>, start: nat,
                                            c: nat, s: Store)
    requires start <= |valid| && Batches(process, valid, start, c, s).1.Err?
    ensures var store := Batches(process, valid, start, c, s).0;
      exists b :: start <= b < |valid| && (b - start) % BatchSize == 0
        && Run(process, valid, start, b, c, s).Ok? && Run(process, valid, start, b, c, s).value.1 == store
        && Run(process, valid, b, BatchEnd(b, |valid|), Run(process, valid, start, b, c, s).value.0, store)
           == Err(Batches(process, valid, start, c, s).1.failure)
    decreases |valid| - start
  {
    var store := Batches(process, valid, start, c, s).0;
    var end := BatchEnd(start, |valid|);
    var r := Run(process, valid, start, end, c, s);
    if r.Err? {
      assert Run(process, valid, start, start, c, s) == Ok((c, s));
    } else {
      BatchesCommitted(process, valid, end, r.value.0, r.value.1);
      var b :| end <= b < |valid| && (b - end) % BatchSize == 0
        && Run(process, valid, end, b, r.value.0, r.value.1).Ok? && Run(process, valid, end, b, r.value.0, r.value.1).value.1 == store
        && Run(process, valid, b, BatchEnd(b, |valid|), Run(process, valid, end, b, r.value.0, r.value.1).value.0, store)
           == Err(Batches(process, valid, start, c, s).1.failure);
      RunCompose(process, valid, start, end, b, c, s);
      assert (b - start) % BatchSize == 0 by {
        assert b - start == (b - end) + BatchSize;
      }
    }
  }

  /** The indices met are those of the positions holding one, in order. */
  lemma {:induction false} PresentMembers(valid: seq<Option<nat>>, k: nat, end: nat)
    requires k <= end <= |valid|
    ensures forall x :: x in Present(valid, k, end) <==> exists t :: k <= t < end && valid[t] == Some(x)
    decreases end - k
  {
    if k < end {
      PresentMembers(valid, k + 1, end);
      if valid[k].Some? {
        assert Present(valid, k, end) == [valid[k].value] + Present(valid, k + 1, end);
      }
    }
  }

  /** The walked map knows every directory name the walk met, with the path of the
      last directory of that name. */
  lemma {:induction false} FolderMapLast(walk: seq<(string, string)>, i: nat, acc: map<string, string>, d: string)
    requires i <= |walk|
    ensures d in FolderMapFrom(walk, i, acc) <==> d in acc || exists k :: i <= k < |walk| && walk[k].0 == d
    ensures forall k :: i <= k < |walk| && walk[k].0 == d && (forall l :: k < l < |walk| ==> walk[l].0 != d) ==>
      FolderMapFrom(walk, i, acc)[d] == walk[k].1
    ensures (forall k :: i <= k < |walk| ==> walk[k].0 != d) && d in acc ==> FolderMapFrom(walk, i, acc)[d] == acc[d]
    decreases |walk| - i
  {
    if i < |walk| {
      FolderMapLast(walk, i + 1, acc[walk[i].0 := walk[i].1], d);
    }
  }

  /** Folder k is paired, with index k, exactly when its leaf name is a directory
      of the reference tree; the two lists are as long as the parser's. */
  lemma {:induction false} LocatedEntries(names: map<string, string>, raws: seq<Option<string>>, k: nat,
                                          folders: seq<Option<string>>, valid: seq<Option<nat>>,
                                          fs: seq<Option<string>>, vs: seq<Option<nat>>)
    requires k <= |raws| && |folders| == k && |valid| == k
    requires LocatedFrom(names, raws, k, folders, valid) == Ok((fs, vs))
    ensures |fs| == |raws| && |vs| == |raws| && fs[..k] == folders && vs[..k] == valid
    ensures forall t :: k <= t < |raws| ==>
      && raws[t].Some?
      && (Leaf(raws[t].value) in names ==> fs[t] == Some(names[Leaf(raws[t].value)]) && vs[t] == Some(t))
      && (Leaf(raws[t].value) !in names ==> fs[t] == None && vs[t] == None)
    decreases |raws| - k
  {
    if k < |raws| {
      var leaf := Leaf(raws[k].value);
      var f := if leaf in names then Some(names[leaf]) else None;
      var v := if leaf in names then Some(k) else None;
      LocatedEntries(names, raws, k + 1, folders + [f], valid + [v], fs, vs);
      assert fs[..k] == fs[..k + 1][..k];
      assert vs[..k] == vs[..k + 1][..k];
    }
  }

  /** The lookup fails, with `TypeError`, exactly when a folder is already `None`. */
  lemma {:induction false} LocatedFails(names: map<string, string>, raws: seq<Option<string>>, k: nat,
                                        folders: seq<Option<string>>, valid: seq<Option<nat>>)
    requires k <= |raws|
    ensures LocatedFrom(names, raws, k, folders, valid).Err?
            <==> exists t :: k <= t < |raws| && raws[t].None?
    ensures LocatedFrom(names, raws, k, folders, valid).Err? ==> LocatedFrom(names, raws, k, folders, valid).failure == TypeError
    decreases |raws| - k
  {
    if k < |raws| && raws[k].Some? {
      var leaf := Leaf(raws[k].value);
      if leaf in names {
        LocatedFails(names, raws, k + 1, folders + [Some(names[leaf])], valid + [Some(k)]);
      } else {
        LocatedFails(names, raws, k + 1, folders + [None], valid + [None]);
      }
    }
  }

  /** A run that completes: the parser's folders become the reference folders; the
      t-th paired structure, in folder order, is written under key t, for t from 0
      up to the count returned; no other key of the new store changes; and the old
      store is removed unless it is to be kept. */
  lemma DeltaRunWrites(raws: seq<Option<string>>, walk: seq<(string, string)>, oldStore: Store, newStore: Store,
                       reference: (nat, string) -> Result<seq<Blocks>>, keepOld: bool, keepDeltaOnly: bool)
    requires DeltaRun(raws, walk, oldStore, newStore, reference, keepOld, keepDeltaOnly).result.Ok?
    ensures Located(walk, raws).Ok?
    ensures var (folders, valid) := Located(walk, raws).value;
      var o := DeltaRun(raws, walk, oldStore, newStore, reference, keepOld, keepDeltaOnly);
      var written := Present(valid, 0, |valid|);
      && o.rawDatas == folders
      && o.result.value == |written|
      && (forall t :: 0 <= t < |written| ==>
            BigEndian(t, 4) in o.newStore
            && Processed(oldStore, folders, reference, keepDeltaOnly, written[t]) == Ok(o.newStore[BigEndian(t, 4)]))
      && (forall key :: key in o.newStore <==> key in newStore || Counted(key, 0, |written|))
      && (forall key :: key in newStore && !Counted(key, 0, |written|) ==> o.newStore[key] == newStore[key])
      && o.oldStore == if keepOld then oldStore else map[]
  {
    var (folders, valid) := Located(walk, raws).value;
    var process := Process(oldStore, folders, reference, keepDeltaOnly);
    BatchesWrite(process, valid, newStore);
  }

  /** The batches, run to completion, write the record of the t-th index met under
      key t and touch no other key. */
  lemma BatchesWrite(process: nat -> Result<Record>, valid: seq<Option<nat>>, s: Store)
    requires Batches(process, valid, 0, 0, s).1.Ok?
    ensures var (store, result) := Batches(process, valid, 0, 0, s);
      var written := Present(valid, 0, |valid|);
      && result.value == |written|
      && (forall t :: 0 <= t < |written| ==> BigEndian(t, 4) in store && process(written[t]) == Ok(store[BigEndian(t, 4)]))
      && (forall key :: key in store <==> key in s || Counted(key, 0, |written|))
      && (forall key :: key in s && !Counted(key, 0, |written|) ==> store[key] == s[key])
  {
    var (store, result) := Batches(process, valid, 0, 0, s);
    BatchesRun(process, valid, 0, 0, s);
    RunRecords(process, valid, 0, |valid|, 0, s, result.value, store);
    RunKeys(process, valid, 0, |valid|, 0, s, result.value, store);
  }

  /** A run that raises keeps the old store; a folder lookup that fails changes
      nothing; otherwise the error is the one the unbatched loop would raise, and
      the new store holds what the whole batches before the failing one wrote. */
  lemma DeltaRunFails(raws: seq<Option<string>>, walk: seq<(string, string)>, oldStore: Store, newStore: Store,
                      reference: (nat, string) -> Result<seq<Blocks>>, keepOld: bool, keepDeltaOnly: bool)
    requires DeltaRun(raws, walk, oldStore, newStore, reference, keepOld, keepDeltaOnly).result.Err?
    ensures var o := DeltaRun(raws, walk, oldStore, newStore, reference, keepOld, keepDeltaOnly);
      && o.oldStore == oldStore
      && (Located(walk, raws).Err? ==> o.rawDatas == raws && o.newStore == newStore)
      && (Located(walk, raws).Ok? ==>
            var (folders, valid) := Located(walk, raws).value;
            var process := Process(oldStore, folders, reference, keepDeltaOnly);
            && o.rawDatas == folders
            && Run(process, valid, 0, |valid|, 0, newStore) == Err(o.result.failure)
            && exists b :: 0 <= b < |valid| && b % BatchSize == 0
                 && Run(process, valid, 0, b, 0, newStore).Ok? && Run(process, valid, 0, b, 0, newStore).value.1 == o.newStore)
  {
    if Located(walk, raws).Ok? {
      var (folders, valid) := Located(walk, raws).value;
      var process := Process(oldStore, folders, reference, keepDeltaOnly);
      BatchesRun(process, valid, 0, 0, newStore);
      BatchesCommitted(process, valid, 0, 0, newStore);
    }
  }
}
