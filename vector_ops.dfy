/**
 * The u32 vector test program: element-wise add, dot product, and the
 * n x n row-major matrix product, together with its three unit tests.
 * Every u32 `+` and `*` must stay within range, since a debug build panics
 * on overflow.
 */
module VectorOps {
  import opened MachineInts

  /** `vector_add`: writes a[i] + b[i] into c[i] for every i < a.len() and touches nothing else. */
  method VectorAdd(a: seq<u32>, b: seq<u32>, c: array<u32>)
    requires |b| >= |a| && c.Length >= |a|
    requires forall i :: 0 <= i < |a| ==> a[i] + b[i] <= U32_MAX
    modifies c
    ensures forall i :: 0 <= i < |a| ==> c[i] == a[i] + b[i]
    ensures forall i :: |a| <= i < c.Length ==> c[i] == old(c[i])
  {
    for i := 0 to |a|
      invariant forall k :: 0 <= k < i ==> c[k] == a[k] + b[k]
      invariant forall k :: i <= k < c.Length ==> c[k] == old(c[k])
    {
      c[i] := a[i] + b[i];
    }
  }

  /**
   * `vector_dot`: Σ_{i < a.len()} a[i] * b[i], 0 for an empty `a`. The
   * operands are non-negative, so no partial sum or product exceeds the
   * total: requiring the total to fit u32 is exactly "no step overflows".
   */
  method VectorDot(a: seq<u32>, b: seq<u32>) returns (sum: u32)
    requires |b| >= |a|
    requires DotPrefix(a, b, |a|) <= U32_MAX
    ensures sum == DotPrefix(a, b, |a|)
  {
    sum := 0;
    for i := 0 to |a|
      invariant sum == DotPrefix(a, b, i)
    {
      DotPrefixNonnegGrows(a, b, i, |a|);
      DotPrefixNonnegGrows(a, b, i + 1, |a|);
      sum := sum + a[i] * b[i];
    }
  }

  /**
   * i * n, the flat index at which row i of a row-major matrix with rows of
   * n entries starts, written as repeated addition so that the index
   * arithmetic below stays linear for the solver (RowStartIsProduct relates
   * it to the product).
   */
  function RowStart(i: nat, n: nat): nat {
    if i == 0 then 0 else RowStart(i - 1, n) + n
  }

  lemma {:induction false} RowStartIsProduct(i: nat, n: nat)
    ensures RowStart(i, n) == i * n
  {
    if i > 0 {
      RowStartIsProduct(i - 1, n);
    }
  }

  /** Rows are laid out one after another: a later row starts at or after the end of an earlier one. */
  lemma {:induction false} RowStartMonotone(i1: nat, i2: nat, n: nat)
    requires i1 < i2
    ensures RowStart(i1, n) + n <= RowStart(i2, n)
    decreases i2
  {
    if i1 < i2 - 1 {
      RowStartMonotone(i1, i2 - 1, n);
    }
  }

  /**
   * The row-major flat index i*n + j of entry (i, j). Callers see it only
   * through its contract, which keeps the loops' index arithmetic linear.
   */
  function FlatIndex(i: nat, j: nat, n: nat): (r: nat)
    ensures r == RowStart(i, n) + j
  {
    RowStartIsProduct(i, n);
    i * n + j
  }

  /** Every one of the first m rows ends at or before the start of row m. */
  lemma RowsFit(n: nat, m: nat)
    ensures forall t :: 0 <= t < m ==> RowStart(t, n) + n <= RowStart(m, n)
  {
    forall t | 0 <= t < m
      ensures RowStart(t, n) + n <= RowStart(m, n)
    {
      RowStartMonotone(t, m, n);
    }
  }

  /** Every entry of the first m rows lies before the start of row m. */
  lemma RowsBelow(n: nat, m: nat)
    ensures forall t, j :: 0 <= t < m && 0 <= j < n ==> FlatIndex(t, j, n) < RowStart(m, n)
  {
    forall t, j | 0 <= t < m && 0 <= j < n
      ensures FlatIndex(t, j, n) < RowStart(m, n)
    {
      RowStartMonotone(t, m, n);
    }
  }

  /** Row i of a matrix with rows of n entries stored row-major in `a`. */
  function Row(a: seq<u32>, n: nat, i: nat): (r: seq<u32>)
    requires RowStart(i, n) + n <= |a|
    ensures |r| == n && forall t :: 0 <= t < n ==> r[t] == a[RowStart(i, n) + t]
  {
    a[RowStart(i, n) .. RowStart(i, n) + n]
  }

  /** Column j of an n x n matrix stored row-major in `b`. */
  function Column(b: seq<u32>, n: nat, j: nat): (r: seq<u32>)
    requires j < n && RowStart(n, n) <= |b|
    ensures |r| == n && forall t :: 0 <= t < n ==> RowStart(t, n) + j < |b| && r[t] == b[RowStart(t, n) + j]
  {
    RowsFit(n, n);
    seq(n, t requires 0 <= t < n => b[RowStart(t, n) + j])
  }

  /** Entry (i, j) of the product: the dot product of row i of `a` and column j of `b`. */
  function ProductEntry(a: seq<u32>, b: seq<u32>, n: nat, i: nat, j: nat): int
    requires i < n && j < n && RowStart(n, n) <= |a| && RowStart(n, n) <= |b|
  {
    RowStartMonotone(i, n, n);
    DotPrefix(Row(a, n, i), Column(b, n, j), n)
  }

  /**
   * The running sum Σ_{k' < k} a[i*n+k'] * b[k'*n+j] that the innermost loop
   * of `matrix_mult` holds after k steps.
   */
  function EntrySum(a: seq<u32>, b: seq<u32>, n: nat, i: nat, j: nat, k: nat): int
    requires i < n && j < n && k <= n && RowStart(n, n) <= |a| && RowStart(n, n) <= |b|
  {
    if k == 0 then 0
    else
      RowStartMonotone(i, n, n);
      RowStartMonotone(k - 1, n, n);
      EntrySum(a, b, n, i, j, k - 1) + (a[FlatIndex(i, k - 1, n)] as int) * (b[FlatIndex(k - 1, j, n)] as int)
  }

  /** The flat-index running sum is the dot product of row i and column j, taken k terms at a time. */
  lemma {:induction false} EntrySumIsRowDotColumn(a: seq<u32>, b: seq<u32>, n: nat, i: nat, j: nat, k: nat)
    requires i < n && j < n && k <= n && RowStart(n, n) <= |a| && RowStart(n, n) <= |b|
    requires RowStart(i, n) + n <= |a|
    ensures EntrySum(a, b, n, i, j, k) == DotPrefix(Row(a, n, i), Column(b, n, j), k)
  {
    if k > 0 {
      EntrySumIsRowDotColumn(a, b, n, i, j, k - 1);
      RowStartMonotone(k - 1, n, n);
      var row, col := Row(a, n, i), Column(b, n, j);
      assert row[k - 1] == a[FlatIndex(i, k - 1, n)];
      assert col[k - 1] == b[FlatIndex(k - 1, j, n)];
    }
  }

  /** The finished running sum is the product entry. */
  lemma EntrySumIsProductEntry(a: seq<u32>, b: seq<u32>, n: nat, i: nat, j: nat)
    requires i < n && j < n && RowStart(n, n) <= |a| && RowStart(n, n) <= |b|
    ensures EntrySum(a, b, n, i, j, n) == ProductEntry(a, b, n, i, j)
  {
    RowStartMonotone(i, n, n);
    EntrySumIsRowDotColumn(a, b, n, i, j, n);
  }

  /**
   * With u32 operands the running sum never decreases: every partial sum is
   * at most any later one, so if the finished entry fits u32 no step overflows.
   */
  lemma {:induction false} EntrySumMonotone(a: seq<u32>, b: seq<u32>, n: nat, i: nat, j: nat, k: nat, m: nat)
    requires i < n && j < n && k <= m <= n && RowStart(n, n) <= |a| && RowStart(n, n) <= |b|
    ensures 0 <= EntrySum(a, b, n, i, j, k) <= EntrySum(a, b, n, i, j, m)
    decreases m, k
  {
    if k < m {
      EntrySumMonotone(a, b, n, i, j, k, m - 1);
      RowStartMonotone(i, n, n);
      RowStartMonotone(m - 1, n, n);
      MulLe(0, a[FlatIndex(i, m - 1, n)], b[FlatIndex(m - 1, j, n)]);
    } else if k > 0 {
      EntrySumMonotone(a, b, n, i, j, 0, m);
    }
  }

  /**
   * `matrix_mult`: c[i*n+j] receives entry (i, j) of the product for all
   * i, j < n; entries of c at index n*n and beyond are untouched. The
   * source's three nested loops are split over MatrixMult (rows),
   * MatrixRow (columns) and RowColumnDot (the running sum).
   */
  method MatrixMult(a: seq<u32>, b: seq<u32>, c: array<u32>, n: nat)
    requires RowStart(n, n) <= |a| && RowStart(n, n) <= |b| && RowStart(n, n) <= c.Length
    requires forall i, j :: 0 <= i < n && 0 <= j < n ==> ProductEntry(a, b, n, i, j) <= U32_MAX
    modifies c
    ensures forall i, j :: 0 <= i < n && 0 <= j < n ==>
      FlatIndex(i, j, n) < c.Length && c[FlatIndex(i, j, n)] == ProductEntry(a, b, n, i, j)
    ensures forall p :: RowStart(n, n) <= p < c.Length ==> c[p] == old(c[p])
  {
    RowsBelow(n, n);
    for i := 0 to n
      invariant forall p :: RowStart(i, n) <= p < c.Length ==> c[p] == old(c[p])
      invariant forall i', j' :: 0 <= i' < i && 0 <= j' < n ==> c[FlatIndex(i', j', n)] == ProductEntry(a, b, n, i', j')
    {
      RowsBelow(n, i);
      MatrixRow(a, b, c, n, i);
    }
  }

  /** The `for j` loop of `matrix_mult` for row i: fills c[i*n .. i*n+n] and nothing else. */
  method MatrixRow(a: seq<u32>, b: seq<u32>, c: array<u32>, n: nat, i: nat)
    requires i < n && RowStart(n, n) <= |a| && RowStart(n, n) <= |b| && RowStart(n, n) <= c.Length
    requires forall j :: 0 <= j < n ==> ProductEntry(a, b, n, i, j) <= U32_MAX
    modifies c
    ensures forall j :: 0 <= j < n ==> FlatIndex(i, j, n) < c.Length && c[FlatIndex(i, j, n)] == ProductEntry(a, b, n, i, j)
    ensures forall p :: 0 <= p < c.Length && (p < RowStart(i, n) || RowStart(i, n) + n <= p) ==> c[p] == old(c[p])
  {
    RowStartMonotone(i, n, n);
    for j := 0 to n
      invariant forall p :: 0 <= p < c.Length && (p < RowStart(i, n) || RowStart(i, n) + j <= p) ==> c[p] == old(c[p])
      invariant forall j' :: 0 <= j' < j ==> c[FlatIndex(i, j', n)] == ProductEntry(a, b, n, i, j')
    {
      var sum := RowColumnDot(a, b, n, i, j);
      c[FlatIndex(i, j, n)] := sum;
    }
  }

  /** The innermost loop of `matrix_mult`: Σ_{k < n} a[i*n+k] * b[k*n+j] in u32. */
  method RowColumnDot(a: seq<u32>, b: seq<u32>, n: nat, i: nat, j: nat) returns (sum: u32)
    requires i < n && j < n && RowStart(n, n) <= |a| && RowStart(n, n) <= |b|
    requires ProductEntry(a, b, n, i, j) <= U32_MAX
    ensures sum == ProductEntry(a, b, n, i, j)
  {
    RowStartMonotone(i, n, n);
    EntrySumIsProductEntry(a, b, n, i, j);
    sum := 0;
    for k := 0 to n
      invariant sum == EntrySum(a, b, n, i, j, k)
    {
      RowStartMonotone(k, n, n);
      EntrySumMonotone(a, b, n, i, j, k, k + 1);
      EntrySumMonotone(a, b, n, i, j, k + 1, n);
      sum := sum + a[FlatIndex(i, k, n)] * b[FlatIndex(k, j, n)];
    }
  }

  // ----- the program's unit tests, as contracts -----

  /** `test_vector_add`: [1,2,3,4] + [5,6,7,8] is [6,8,10,12]. */
  method TestVectorAdd() returns (c: seq<u32>)
    ensures c == [6, 8, 10, 12]
  {
    var out := new u32[4](_ => 0);
    VectorAdd([1, 2, 3, 4], [5, 6, 7, 8], out);
    c := out[..];
  }

  /** `test_vector_dot`: 1*5 + 2*6 + 3*7 + 4*8 is 70. */
  method TestVectorDot() returns (r: u32)
    ensures r == 70
  {
    var a: seq<u32>, b: seq<u32> := [1, 2, 3, 4], [5, 6, 7, 8];
    assert DotPrefix(a, b, 2) == 17;
    assert DotPrefix(a, b, 4) == 70;
    r := VectorDot(a, b);
  }

  /** The four entries of [[1,2],[3,4]] times [[5,6],[7,8]]. */
  lemma ExampleProductEntries()
    ensures ProductEntry([1, 2, 3, 4], [5, 6, 7, 8], 2, 0, 0) == 19
    ensures ProductEntry([1, 2, 3, 4], [5, 6, 7, 8], 2, 0, 1) == 22
    ensures ProductEntry([1, 2, 3, 4], [5, 6, 7, 8], 2, 1, 0) == 43
    ensures ProductEntry([1, 2, 3, 4], [5, 6, 7, 8], 2, 1, 1) == 50
  {
    var a: seq<u32>, b: seq<u32> := [1, 2, 3, 4], [5, 6, 7, 8];
    assert RowStart(1, 2) == 2 && RowStart(2, 2) == 4;
    assert Row(a, 2, 0) == [1, 2] && Row(a, 2, 1) == [3, 4];
    assert Column(b, 2, 0) == [5, 7] && Column(b, 2, 1) == [6, 8];
  }

  /** `test_matrix_mult`: [[1,2],[3,4]] times [[5,6],[7,8]] is [[19,22],[43,50]]. */
  method TestMatrixMult() returns (c: seq<u32>)
    ensures c == [19, 22, 43, 50]
  {
    ExampleProductEntries();
    assert RowStart(2, 2) == 4;
    var out := new u32[4](_ => 0);
    MatrixMult([1, 2, 3, 4], [5, 6, 7, 8], out, 2);
    assert FlatIndex(0, 0, 2) == 0 && FlatIndex(0, 1, 2) == 1 && FlatIndex(1, 0, 2) == 2 && FlatIndex(1, 1, 2) == 3;
    c := out[..];
  }
}
