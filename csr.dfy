/** scipy's `csr_matrix((data, indices, indptr), shape=(n, n)).toarray()`: the
    format checks done at construction and the dense expansion of the three arrays. */
module CsrArrays {
  import opened Outcomes
  import opened Matrices

  /** The three arrays of a compressed-sparse-row matrix: the values, their column
      indices, and the row pointers (row r owns positions indptr[r] .. indptr[r+1]). */
  datatype Csr = Csr(data: seq<Complex>, indices: seq<int>, indptr: seq<int>)

  /** The arrays of an n × n matrix that passed scipy's format checks. */
  predicate Formatted(c: Csr, n: nat)
  {
    |c.indptr| == n + 1 && c.indptr[0] == 0 && |c.indices| == |c.data| && c.indptr[n] <= |c.indices|
  }

  /** What the checks leave to the caller: the row pointers never decrease and every
      stored column index is a column of the matrix. Otherwise scipy's expansion skips
      rows, re-reads entries, writes into other rows or indexes outside its arrays. */
  predicate Expandable(c: Csr, n: nat)
    requires Formatted(c, n)
  {
    (forall r, s :: 0 <= r <= s <= n ==> c.indptr[r] <= c.indptr[s])
    && forall k :: 0 <= k < c.indptr[n] ==> 0 <= c.indices[k] < n
  }

  /** The sum of the stored values at positions lo .. hi whose column is `col`;
      duplicates add up, as in scipy's expansion. */
  function EntrySum(data: seq<Complex>, indices: seq<int>, lo: int, hi: int, col: int): Complex
    requires 0 <= lo && hi <= |data| == |indices|
    decreases hi - lo
  {
    if lo >= hi then Zero
    else Add(if indices[lo] == col then data[lo] else Zero, EntrySum(data, indices, lo + 1, hi, col))
  }

  /** `csr_matrix((data, indices, indptr), shape=(n, n)).toarray()`: a negative shape,
      a row-pointer array of the wrong length, one not starting at 0, index and value
      arrays of different lengths, or a last row pointer past their end are refused
      with ValueError, in that order. */
  function ToDense(c: Csr, n: int): Result<Matrix>
  {
    if n < 0 then Err(ValueError)
    else if |c.indptr| != n + 1 then Err(ValueError)
    else if c.indptr[0] != 0 then Err(ValueError)
    else if |c.indices| != |c.data| then Err(ValueError)
    else if c.indptr[n] > |c.indices| then Err(ValueError)
    else if !Expandable(c, n) then Err(Unchecked)
    else
      var e := seq(n, r requires 0 <= r < n =>
        seq(n, col => EntrySum(c.data, c.indices, c.indptr[r], c.indptr[r + 1], col)));
      assert forall r :: 0 <= r < n ==> |e[r]| == n;
      Ok(Dense(n, n, e))
  }

  lemma {:induction false} EntrySumNone(data: seq<Complex>, indices: seq<int>, lo: int, hi: int, col: int)
    requires 0 <= lo && hi <= |data| == |indices|
    requires forall k :: lo <= k < hi ==> indices[k] != col
    ensures EntrySum(data, indices, lo, hi, col) == Zero
    decreases hi - lo
  {
    if lo < hi {
      EntrySumNone(data, indices, lo + 1, hi, col);
    }
  }

  lemma {:induction false} EntrySumOne(data: seq<Complex>, indices: seq<int>, lo: int, hi: int, col: int, k: int)
    requires 0 <= lo <= k < hi <= |data| == |indices|
    requires indices[k] == col && forall j :: lo <= j < hi && j != k ==> indices[j] != col
    ensures EntrySum(data, indices, lo, hi, col) == data[k]
    decreases hi - lo
  {
    if lo < k {
      EntrySumOne(data, indices, lo + 1, hi, col, k);
    } else {
      EntrySumNone(data, indices, lo + 1, hi, col);
    }
  }

  /** A value stored once in its row lands at (row, its column index). */
  lemma DenseStored(c: Csr, n: int, m: Matrix, r: nat, k: int)
    requires ToDense(c, n) == Ok(m)
    requires r < n && c.indptr[r] <= k < c.indptr[r + 1]
    requires forall j :: c.indptr[r] <= j < c.indptr[r + 1] && j != k ==> c.indices[j] != c.indices[k]
    ensures 0 <= c.indices[k] < n && m.e[r][c.indices[k]] == c.data[k]
  {
    assert c.indptr[r + 1] <= c.indptr[n];
    EntrySumOne(c.data, c.indices, c.indptr[r], c.indptr[r + 1], c.indices[k], k);
  }

  /** Every entry that no stored value names is zero. */
  lemma DenseUnstored(c: Csr, n: int, m: Matrix, r: nat, col: nat)
    requires ToDense(c, n) == Ok(m)
    requires r < n && col < n
    requires forall j :: c.indptr[r] <= j < c.indptr[r + 1] ==> c.indices[j] != col
    ensures m.e[r][col] == Zero
  {
    assert 0 <= c.indptr[r] && c.indptr[r + 1] <= c.indptr[n];
    EntrySumNone(c.data, c.indices, c.indptr[r], c.indptr[r + 1], col);
  }

  /** The expansion has the declared shape exactly when every check passes. */
  lemma DenseShape(c: Csr, n: int)
    ensures ToDense(c, n).Ok? <==> n >= 0 && Formatted(c, n) && Expandable(c, n)
    ensures ToDense(c, n).Ok? ==> ToDense(c, n).value.rows == n && ToDense(c, n).value.cols == n
    ensures ToDense(c, n).Err? && (n < 0 || !Formatted(c, n)) ==> ToDense(c, n).failure == ValueError
  {
  }

  /** The stored (column, value) pairs of `row` from column `from` on: its non-zero
      entries, left to right. */
  function NonZeros(row: seq<Complex>, from: nat): (r: seq<(int, Complex)>)
    requires from <= |row|
    ensures forall t :: 0 <= t < |r| ==> from <= r[t].0 < |row| && r[t].1 == row[r[t].0] && r[t].1 != Zero
    ensures forall t, u :: 0 <= t < u < |r| ==> r[t].0 < r[u].0
    decreases |row| - from
  {
    if from == |row| then []
    else if row[from] == Zero then NonZeros(row, from + 1)
    else [(from, row[from])] + NonZeros(row, from + 1)
  }

  /** No non-zero entry is left out. */
  lemma {:induction false} NonZerosComplete(row: seq<Complex>, from: nat, col: nat)
    requires from <= col < |row| && row[col] != Zero
    ensures exists t :: 0 <= t < |NonZeros(row, from)| && NonZeros(row, from)[t].0 == col
    decreases |row| - from
  {
    var r, r1 := NonZeros(row, from), NonZeros(row, from + 1);
    if from < col {
      NonZerosComplete(row, from + 1, col);
      var t :| 0 <= t < |r1| && r1[t].0 == col;
      if row[from] != Zero {
        assert r == [(from, row[from])] + r1;
        assert r[t + 1] == r1[t];
      } else {
        assert r == r1;
      }
    } else {
      assert r == [(from, row[from])] + r1;
      assert r[0].0 == col;
    }
  }

  /** The stored pairs of all rows, row after row. */
  function Entries(rows: seq<seq<Complex>>): seq<(int, Complex)>
  {
    if rows == [] then [] else Entries(rows[..|rows| - 1]) + NonZeros(rows[|rows| - 1], 0)
  }

  function StoredValues(es: seq<(int, Complex)>): (r: seq<Complex>)
    ensures |r| == |es| && forall k :: 0 <= k < |es| ==> r[k] == es[k].1
  {
    seq(|es|, k requires 0 <= k < |es| => es[k].1)
  }

  function StoredColumns(es: seq<(int, Complex)>): (r: seq<int>)
    ensures |r| == |es| && forall k :: 0 <= k < |es| ==> r[k] == es[k].0
  {
    seq(|es|, k requires 0 <= k < |es| => es[k].0)
  }

  /** After row r, the number of pairs stored so far. */
  function Pointers(rows: seq<seq<Complex>>): (p: seq<int>)
    ensures |p| == |rows| + 1 && forall r :: 0 <= r <= |rows| ==> p[r] == |Entries(rows[..r])|
  {
    seq(|rows| + 1, r requires 0 <= r <= |rows| => |Entries(rows[..r])|)
  }

  /** The CSR arrays ABACUS writes for a square matrix: the non-zero entries row by
      row, and the row pointers. */
  function Encode(m: Matrix): Csr
  {
    Csr(StoredValues(Entries(m.e)), StoredColumns(Entries(m.e)), Pointers(m.e))
  }

  lemma {:induction false} EntriesGrow(rows: seq<seq<Complex>>, r: nat, s: nat)
    requires r <= s <= |rows|
    ensures |Entries(rows[..r])| <= |Entries(rows[..s])|
    ensures Entries(rows[..s])[..|Entries(rows[..r])|] == Entries(rows[..r])
    decreases s - r
  {
    if r < s {
      EntriesGrow(rows, r, s - 1);
      EntriesRow(rows, s - 1);
    }
  }

  lemma {:induction false} EntriesColumns(rows: seq<seq<Complex>>, n: nat)
    requires forall r :: 0 <= r < |rows| ==> |rows[r]| == n
    ensures forall k :: 0 <= k < |Entries(rows)| ==> 0 <= Entries(rows)[k].0 < n
  {
    if rows != [] {
      EntriesColumns(rows[..|rows| - 1], n);
    }
  }

  /** Row r of `rows` is stored at positions |Entries(rows[..r])| onwards. */
  lemma {:induction false} EntriesRow(rows: seq<seq<Complex>>, r: nat)
    requires r < |rows|
    ensures Entries(rows[..r + 1]) == Entries(rows[..r]) + NonZeros(rows[r], 0)
  {
    assert rows[..r + 1][..r] == rows[..r];
  }

  /** Row r is stored, in order, between its two row pointers. */
  lemma {:induction false} RowStored(rows: seq<seq<Complex>>, r: nat)
    requires r < |rows|
    ensures var lo, nz := |Entries(rows[..r])|, NonZeros(rows[r], 0);
      && lo + |nz| == |Entries(rows[..r + 1])| <= |Entries(rows)|
      && forall t :: 0 <= t < |nz| ==> Entries(rows)[lo + t] == nz[t]
  {
    var lo, nz := |Entries(rows[..r])|, NonZeros(rows[r], 0);
    var p := Entries(rows[..r + 1]);
    EntriesRow(rows, r);
    EntriesGrow(rows, r + 1, |rows|);
    assert rows[..|rows|] == rows;
    var es := Entries(rows);
    assert es[..|p|] == p;
    forall t | 0 <= t < |nz|
      ensures es[lo + t] == nz[t]
    {
      assert es[lo + t] == es[..|p|][lo + t];
    }
  }

  /** Summing over the stored pairs of a row gives back each of its entries. */
  lemma {:induction false} RowSum(data: seq<Complex>, indices: seq<int>, lo: nat, row: seq<Complex>, col: nat)
    requires lo + |NonZeros(row, 0)| <= |data| == |indices| && col < |row|
    requires forall t :: 0 <= t < |NonZeros(row, 0)| ==>
      indices[lo + t] == NonZeros(row, 0)[t].0 && data[lo + t] == NonZeros(row, 0)[t].1
    ensures EntrySum(data, indices, lo, lo + |NonZeros(row, 0)|, col) == row[col]
  {
    var nz := NonZeros(row, 0);
    var hi := lo + |nz|;
    assert forall k :: lo <= k < hi ==> indices[k] == nz[k - lo].0;
    if row[col] == Zero {
      EntrySumNone(data, indices, lo, hi, col);
    } else {
      NonZerosComplete(row, 0, col);
      var t :| 0 <= t < |nz| && nz[t].0 == col;
      EntrySumOne(data, indices, lo, hi, col, lo + t);
    }
  }

  lemma EncodeChecks(m: Matrix)
    requires m.rows == m.cols
    ensures Formatted(Encode(m), m.rows) && Expandable(Encode(m), m.rows)
  {
    var c, n := Encode(m), m.rows;
    assert m.e[..n] == m.e;
    forall r, s | 0 <= r <= s <= n
      ensures c.indptr[r] <= c.indptr[s]
    {
      EntriesGrow(m.e, r, s);
    }
    EntriesColumns(m.e, n);
  }

  lemma EncodedEntry(m: Matrix, r: nat, col: nat)
    requires r < m.rows && col < m.cols
    ensures var c := Encode(m);
      && 0 <= c.indptr[r] && c.indptr[r + 1] <= |c.data| == |c.indices|
      && EntrySum(c.data, c.indices, c.indptr[r], c.indptr[r + 1], col) == m.e[r][col]
  {
    var c := Encode(m);
    var es := Entries(m.e);
    var lo, nz := |Entries(m.e[..r])|, NonZeros(m.e[r], 0);
    RowStored(m.e, r);
    assert c.indptr[r] == lo && c.indptr[r + 1] == lo + |nz|;
    assert forall t :: 0 <= t < |nz| ==> c.indices[lo + t] == nz[t].0 && c.data[lo + t] == nz[t].1 by {
      forall t | 0 <= t < |nz|
        ensures c.indices[lo + t] == nz[t].0 && c.data[lo + t] == nz[t].1
      {
        assert es[lo + t] == nz[t];
      }
    }
    RowSum(c.data, c.indices, lo, m.e[r], col);
  }

  /** Expanding the arrays written for a square matrix gives the matrix back. */
  lemma EncodeRoundTrip(m: Matrix)
    requires m.rows == m.cols
    ensures ToDense(Encode(m), m.rows) == Ok(m)
  {
    var c, n := Encode(m), m.rows;
    EncodeChecks(m);
    var d := ToDense(c, n).value;
    forall r, col | 0 <= r < n && 0 <= col < n
      ensures d.e[r][col] == m.e[r][col]
    {
      EncodedEntry(m, r, col);
    }
    Extensionality(d, m);
  }
}
