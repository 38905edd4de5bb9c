/**
 * Square real matrices, finite sums, and the upper-triangle ("triu") encoding
 * of a symmetric matrix shared by the feature encoder and the graph sampler.
 * Reals stand for the numpy float64 values of the source.
 */
module Matrices {
  import opened Wrappers

  type Matrix = seq<seq<real>>

  predicate IsSquare(m: Matrix, n: nat) {
    |m| == n && forall i :: 0 <= i < n ==> |m[i]| == n
  }

  predicate IsSymmetric(m: Matrix, n: nat)
    requires IsSquare(m, n)
  {
    forall i, j :: 0 <= i < n && 0 <= j < n ==> m[i][j] == m[j][i]
  }

  /** The all-zero n-by-n matrix (np.zeros((n, n))). */
  function Zeros(n: nat): (z: Matrix)
    ensures IsSquare(z, n)
    ensures forall i, j :: 0 <= i < n && 0 <= j < n ==> z[i][j] == 0.0
  {
    seq(n, i => seq(n, j => 0.0))
  }

  /** Two n-by-n matrices that agree entry by entry are equal. */
  lemma MatrixExt(a: Matrix, b: Matrix, n: nat)
    requires IsSquare(a, n) && IsSquare(b, n)
    requires forall i, j :: 0 <= i < n && 0 <= j < n ==> a[i][j] == b[i][j]
    ensures a == b
  {
    assert forall i :: 0 <= i < n ==> a[i] == b[i];
  }

  /** The main diagonal, np.diag(m). */
  function Diag(m: Matrix, n: nat): (d: seq<real>)
    requires IsSquare(m, n)
    ensures |d| == n && forall i :: 0 <= i < n ==> d[i] == m[i][i]
  {
    seq(n, i requires 0 <= i < n => m[i][i])
  }

  // ---------------------------------------------------------------------------
  // Finite sums
  // ---------------------------------------------------------------------------

  /** The sum of a sequence of reals (np.sum over one axis). */
  function Sum(s: seq<real>): real
  {
    if s == [] then 0.0 else Sum(s[..|s| - 1]) + s[|s| - 1]
  }

  /** Column j of a square matrix. */
  function Column(m: Matrix, n: nat, j: nat): (c: seq<real>)
    requires IsSquare(m, n) && j < n
    ensures |c| == n && forall i :: 0 <= i < n ==> c[i] == m[i][j]
  {
    seq(n, i requires 0 <= i < n => m[i][j])
  }

  /** Column j summed over the rows (np.sum(m, 0)[j]). */
  function ColumnSum(m: Matrix, n: nat, j: nat): real
    requires IsSquare(m, n) && j < n
  {
    Sum(Column(m, n, j))
  }

  lemma {:induction false} SumZero(s: seq<real>)
    requires forall i :: 0 <= i < |s| ==> s[i] == 0.0
    ensures Sum(s) == 0.0
  {
    if s != [] {
      SumZero(s[..|s| - 1]);
    }
  }

  /** A sum whose terms vanish everywhere except at k is its k-th term. */
  lemma {:induction false} SumSingle(s: seq<real>, k: nat)
    requires k < |s|
    requires forall i :: 0 <= i < |s| && i != k ==> s[i] == 0.0
    ensures Sum(s) == s[k]
  {
    var p := s[..|s| - 1];
    if k == |s| - 1 {
      SumZero(p);
    } else {
      SumSingle(p, k);
    }
  }

  lemma {:induction false} SumScale(a: seq<real>, b: seq<real>, c: real)
    requires |a| == |b|
    requires forall i :: 0 <= i < |a| ==> b[i] == c * a[i]
    ensures Sum(b) == c * Sum(a)
  {
    if a != [] {
      SumScale(a[..|a| - 1], b[..|b| - 1], c);
    }
  }

  lemma {:induction false} SumAdd(a: seq<real>, b: seq<real>, s: seq<real>)
    requires |a| == |b| == |s|
    requires forall i :: 0 <= i < |s| ==> s[i] == a[i] + b[i]
    ensures Sum(s) == Sum(a) + Sum(b)
  {
    if s != [] {
      SumAdd(a[..|a| - 1], b[..|b| - 1], s[..|s| - 1]);
    }
  }

  lemma {:induction false} SumBounds(s: seq<real>, lo: real, hi: real)
    requires forall i :: 0 <= i < |s| ==> lo <= s[i] <= hi
    ensures |s| as real * lo <= Sum(s) <= |s| as real * hi
  {
    if s != [] {
      SumBounds(s[..|s| - 1], lo, hi);
    }
  }

  lemma {:induction false} SumMonotone(a: seq<real>, b: seq<real>)
    requires |a| == |b|
    requires forall i :: 0 <= i < |a| ==> a[i] <= b[i]
    ensures Sum(a) <= Sum(b)
  {
    if a != [] {
      SumMonotone(a[..|a| - 1], b[..|b| - 1]);
    }
  }

  lemma {:induction false} SumAppend(a: seq<real>, b: seq<real>)
    ensures Sum(a + b) == Sum(a) + Sum(b)
    decreases |b|
  {
    if b != [] {
      var b' := b[..|b| - 1];
      assert (a + b)[..|a + b| - 1] == a + b';
      assert (a + b)[|a + b| - 1] == b[|b| - 1];
      SumAppend(a, b');
      assert Sum(a + b) == Sum(a + b') + b[|b| - 1];
    } else {
      assert a + b == a;
    }
  }

  /** The sum of the row sums of a rectangular table equals the sum of its column sums. */
  lemma {:induction false} SumSwap(t: seq<seq<real>>, w: nat)
    requires forall i :: 0 <= i < |t| ==> |t[i]| == w
    ensures Sum(seq(|t|, i requires 0 <= i < |t| => Sum(t[i])))
         == Sum(seq(w, j requires 0 <= j < w => Sum(seq(|t|, i requires 0 <= i < |t| => t[i][j]))))
  {
    var rows := seq(|t|, i requires 0 <= i < |t| => Sum(t[i]));
    var cols := seq(w, j requires 0 <= j < w => Sum(seq(|t|, i requires 0 <= i < |t| => t[i][j])));
    if t == [] {
      SumZero(cols);
    } else {
      var m := |t| - 1;
      var t' := t[..m];
      SumSwap(t', w);
      var rows' := seq(m, i requires 0 <= i < m => Sum(t'[i]));
      var cols' := seq(w, j requires 0 <= j < w => Sum(seq(m, i requires 0 <= i < m => t'[i][j])));
      assert rows[..m] == rows';
      forall j | 0 <= j < w
        ensures cols[j] == cols'[j] + t[m][j]
      {
        var col := seq(|t|, i requires 0 <= i < |t| => t[i][j]);
        assert col[..m] == seq(m, i requires 0 <= i < m => t'[i][j]);
      }
      SumAdd(cols', t[m], cols);
    }
  }

  /** Number of selected positions. */
  function MaskCount(mask: seq<bool>): nat
  {
    if mask == [] then 0 else MaskCount(mask[..|mask| - 1]) + (if mask[|mask| - 1] then 1 else 0)
  }

  /** Sum of the values at the selected positions. */
  function MaskedSum(mask: seq<bool>, vals: seq<real>): real
    requires |mask| == |vals|
  {
    Sum(Selected(mask, vals))
  }

  /** The values at the selected positions, and 0 elsewhere. */
  function Selected(mask: seq<bool>, vals: seq<real>): (s: seq<real>)
    requires |mask| == |vals|
    ensures |s| == |vals| && forall i :: 0 <= i < |s| ==> s[i] == if mask[i] then vals[i] else 0.0
  {
    seq(|vals|, i requires 0 <= i < |vals| => if mask[i] then vals[i] else 0.0)
  }

  /** c at the selected positions, and 0 elsewhere. */
  function Flagged(mask: seq<bool>, c: real): (s: seq<real>)
    ensures |s| == |mask| && forall i :: 0 <= i < |s| ==> s[i] == if mask[i] then c else 0.0
  {
    seq(|mask|, i requires 0 <= i < |mask| => if mask[i] then c else 0.0)
  }

  /** Mean of the values at the selected positions, and 0 when nothing is selected. */
  function Mean(mask: seq<bool>, vals: seq<real>): real
    requires |mask| == |vals|
  {
    if MaskCount(mask) == 0 then 0.0 else MaskedSum(mask, vals) / MaskCount(mask) as real
  }

  /** Summing 0/1 indicators counts the selected positions. */
  lemma {:induction false} SumIndicators(mask: seq<bool>, t: seq<real>)
    requires |t| == |mask|
    requires forall i :: 0 <= i < |t| ==> t[i] == if mask[i] then 1.0 else 0.0
    ensures Sum(t) == MaskCount(mask) as real
  {
    if t != [] {
      SumIndicators(mask[..|mask| - 1], t[..|t| - 1]);
    }
  }

  lemma {:induction false} MaskCountZero(mask: seq<bool>)
    ensures MaskCount(mask) == 0 <==> forall i :: 0 <= i < |mask| ==> !mask[i]
  {
    if mask != [] {
      MaskCountZero(mask[..|mask| - 1]);
      if MaskCount(mask) == 0 {
        forall i | 0 <= i < |mask| ensures !mask[i] {
          assert i < |mask| - 1 ==> mask[i] == mask[..|mask| - 1][i];
        }
      }
    }
  }

  /** Pointwise product of two equally long vectors. */
  function Weighted(t: seq<real>, w: seq<real>): (p: seq<real>)
    requires |t| == |w|
    ensures |p| == |t| && forall j :: 0 <= j < |t| ==> p[j] == t[j] * w[j]
  {
    seq(|t|, j requires 0 <= j < |t| => t[j] * w[j])
  }

  /** The reciprocal numpy writes over a nonzero count; a zero count stays 0. */
  function Inv(x: real): real {
    if x != 0.0 then 1.0 / x else 0.0
  }

  /**
   * The pattern of every neighbourhood block of the encoder: a row of 0/1 indicators t,
   * its sum inverted where nonzero, times the indicator-weighted sum of w, is the mean of
   * the values selected by the mask, and 0 when the mask selects nothing.
   */
  lemma {:induction false} MeanOfIndicators(mask: seq<bool>, t: seq<real>, w: seq<real>, vals: seq<real>)
    requires |t| == |mask| == |w| == |vals|
    requires forall j :: 0 <= j < |t| ==> t[j] == if mask[j] then 1.0 else 0.0
    requires forall j :: 0 <= j < |t| && mask[j] ==> w[j] == vals[j]
    ensures Normalised(Sum(t), Sum(Weighted(t, w))) == Mean(mask, vals)
  {
    SumIndicators(mask, t);
    IndicatorWeights(mask, t, w, vals);
    MeanAsInv(mask, vals, Sum(t), Sum(Weighted(t, w)));
  }

  lemma MeanAsInv(mask: seq<bool>, vals: seq<real>, c: real, s: real)
    requires |mask| == |vals|
    requires c == MaskCount(mask) as real && s == MaskedSum(mask, vals)
    ensures Normalised(c, s) == Mean(mask, vals)
  {
    InvTimes(c, s);
  }

  /** Weighting by 0/1 indicators keeps the selected values and zeroes the rest. */
  lemma IndicatorWeights(mask: seq<bool>, t: seq<real>, w: seq<real>, vals: seq<real>)
    requires |t| == |mask| == |w| == |vals|
    requires forall j :: 0 <= j < |t| ==> t[j] == if mask[j] then 1.0 else 0.0
    requires forall j :: 0 <= j < |t| && mask[j] ==> w[j] == vals[j]
    ensures Sum(Weighted(t, w)) == MaskedSum(mask, vals)
  {
    var sel := Selected(mask, vals);
    forall j | 0 <= j < |t| ensures Weighted(t, w)[j] == sel[j] {
      if mask[j] {
        assert t[j] * w[j] == vals[j];
      }
    }
    assert Weighted(t, w) == sel;
  }

  /** A total scaled by the reciprocal of a count, where the count is nonzero. */
  function Normalised(count: real, total: real): real {
    Inv(count) * total
  }

  lemma InvTimes(c: real, s: real)
    ensures Inv(c) * s == if c == 0.0 then 0.0 else s / c
  {
  }

  /** A mean over an empty selection is 0. */
  lemma MeanEmpty(mask: seq<bool>, vals: seq<real>)
    requires |mask| == |vals|
    requires forall j :: 0 <= j < |mask| ==> !mask[j]
    ensures Mean(mask, vals) == 0.0
  {
    MaskCountZero(mask);
  }

  /** When every selected value is w, the mean of a non-empty selection is w. */
  lemma MeanConstant(mask: seq<bool>, vals: seq<real>, w: real)
    requires |mask| == |vals| && MaskCount(mask) > 0
    requires forall j :: 0 <= j < |mask| && mask[j] ==> vals[j] == w
    ensures Mean(mask, vals) == w
  {
    var ind, sel := Flagged(mask, 1.0), Selected(mask, vals);
    var c := MaskCount(mask) as real;
    SumIndicators(mask, ind);
    SumScale(ind, sel, w);
    calc {
      MaskedSum(mask, vals);
      Sum(sel);
      w * Sum(ind);
      { assert Sum(ind) == c; }
      w * c;
    }
    DivideBounds(MaskedSum(mask, vals), c, w, w);
  }

  /** The mean of a selection lies between bounds that every selected value respects. */
  lemma MeanBounds(mask: seq<bool>, vals: seq<real>, lo: real, hi: real)
    requires |mask| == |vals| && MaskCount(mask) > 0
    requires forall j :: 0 <= j < |mask| && mask[j] ==> lo <= vals[j] <= hi
    ensures lo <= Mean(mask, vals) <= hi
  {
    var c := MaskCount(mask) as real;
    MaskedSumBounds(mask, vals, lo, hi);
    DivideBounds(MaskedSum(mask, vals), c, lo, hi);
  }

  lemma MaskedSumBounds(mask: seq<bool>, vals: seq<real>, lo: real, hi: real)
    requires |mask| == |vals|
    requires forall j :: 0 <= j < |mask| && mask[j] ==> lo <= vals[j] <= hi
    ensures MaskCount(mask) as real * lo <= MaskedSum(mask, vals) <= MaskCount(mask) as real * hi
  {
    MaskedSumAtLeast(mask, vals, lo);
    MaskedSumAtMost(mask, vals, hi);
  }

  lemma MaskedSumAtLeast(mask: seq<bool>, vals: seq<real>, lo: real)
    requires |mask| == |vals|
    requires forall j :: 0 <= j < |mask| && mask[j] ==> lo <= vals[j]
    ensures MaskCount(mask) as real * lo <= MaskedSum(mask, vals)
  {
    SumFlagged(mask, lo);
    SumMonotone(Flagged(mask, lo), Selected(mask, vals));
  }

  lemma MaskedSumAtMost(mask: seq<bool>, vals: seq<real>, hi: real)
    requires |mask| == |vals|
    requires forall j :: 0 <= j < |mask| && mask[j] ==> vals[j] <= hi
    ensures MaskedSum(mask, vals) <= MaskCount(mask) as real * hi
  {
    SumFlagged(mask, hi);
    SumMonotone(Selected(mask, vals), Flagged(mask, hi));
  }

  /** c at each of the selected positions adds up to c times their number. */
  lemma {:induction false} SumFlagged(mask: seq<bool>, c: real)
    ensures Sum(Flagged(mask, c)) == MaskCount(mask) as real * c
  {
    if mask != [] {
      var p := mask[..|mask| - 1];
      SumFlagged(p, c);
      assert Flagged(mask, c)[..|mask| - 1] == Flagged(p, c);
      if mask[|mask| - 1] {
        assert (MaskCount(p) + 1) as real * c == MaskCount(p) as real * c + c;
      }
    }
  }

  lemma DivideBounds(s: real, c: real, lo: real, hi: real)
    requires c > 0.0 && c * lo <= s <= c * hi
    ensures lo <= s / c <= hi
  {
  }

  // ---------------------------------------------------------------------------
  // Upper-triangle encoding, row-major with the diagonal (np.triu_indices(n, 0))
  // ---------------------------------------------------------------------------

  /** Position in the triu vector of the first entry of row i, which is (i, i). */
  function RowStart(n: nat, i: nat): nat
    requires i <= n
  {
    if i == 0 then 0 else RowStart(n, i - 1) + (n - (i - 1))
  }

  /** Length of the triu vector of an n-by-n matrix. */
  function TriuLen(n: nat): nat {
    RowStart(n, n)
  }

  /** Position in the triu vector of the entry (i, j), i <= j. */
  function TriuIndex(n: nat, i: nat, j: nat): (k: nat)
    requires i <= j < n
    ensures RowStart(n, i) <= k < RowStart(n, i + 1) <= TriuLen(n)
  {
    RowStartMonotone(n, i + 1, n);
    RowStart(n, i) + (j - i)
  }

  lemma {:induction false} RowStartClosedForm(n: nat, i: nat)
    requires i <= n
    ensures 2 * RowStart(n, i) == i * (2 * n - i + 1)
  {
    if i > 0 {
      RowStartClosedForm(n, i - 1);
      assert (i - 1) * (2 * n - i + 2) + 2 * (n - i + 1) == i * (2 * n - i + 1);
    }
  }

  /** The triu vector of an n-by-n matrix has n(n+1)/2 entries. */
  lemma TriuLenClosedForm(n: nat)
    ensures 2 * TriuLen(n) == n * (n + 1)
  {
    RowStartClosedForm(n, n);
  }

  lemma {:induction false} RowStartMonotone(n: nat, i: nat, k: nat)
    requires i <= k <= n
    ensures RowStart(n, i) + (k - i) <= RowStart(n, k)
    decreases k - i
  {
    if i < k {
      RowStartMonotone(n, i, k - 1);
    }
  }

  /** The triu vector may be assigned with numpy semantics: it fits exactly, or one value broadcasts. */
  predicate Assignable(n: nat, t: seq<real>) {
    |t| == TriuLen(n) || |t| == 1
  }

  /** The value that numpy writes at triu position k (a length-1 vector broadcasts). */
  function TriuValue(n: nat, t: seq<real>, k: nat): real
    requires Assignable(n, t) && k < TriuLen(n)
  {
    if |t| == 1 then t[0] else t[k]
  }

  /** The symmetric matrix whose upper triangle, read row-major, is t. */
  function FromTriu(n: nat, t: seq<real>): (m: Matrix)
    requires Assignable(n, t)
    ensures IsSquare(m, n)
  {
    seq(n, i requires 0 <= i < n =>
      seq(n, j requires 0 <= j < n =>
        if i <= j then TriuValue(n, t, TriuIndex(n, i, j)) else TriuValue(n, t, TriuIndex(n, j, i))))
  }

  /** Rows i.. of the upper triangle, each from its diagonal entry onwards. */
  function TriuRows(m: Matrix, n: nat, i: nat): seq<real>
    requires IsSquare(m, n) && i <= n
    decreases n - i
  {
    if i == n then [] else m[i][i..] + TriuRows(m, n, i + 1)
  }

  /** m[np.triu_indices(n, 0)]: the upper triangle with the diagonal, row-major. */
  function ToTriu(m: Matrix, n: nat): seq<real>
    requires IsSquare(m, n)
  {
    TriuRows(m, n, 0)
  }

  lemma {:induction false} TriuRowsLength(m: Matrix, n: nat, i: nat)
    requires IsSquare(m, n) && i <= n
    ensures |TriuRows(m, n, i)| == TriuLen(n) - RowStart(n, i)
    decreases n - i
  {
    RowStartMonotone(n, i, n);
    if i < n {
      TriuRowsLength(m, n, i + 1);
    }
  }

  lemma {:induction false} TriuRowsAt(m: Matrix, n: nat, i: nat, r: nat, c: nat)
    requires IsSquare(m, n) && i <= r <= c < n
    ensures RowStart(n, i) <= TriuIndex(n, r, c) &&
            TriuIndex(n, r, c) - RowStart(n, i) < |TriuRows(m, n, i)| &&
            TriuRows(m, n, i)[TriuIndex(n, r, c) - RowStart(n, i)] == m[r][c]
    decreases n - i
  {
    TriuRowsLength(m, n, i);
    RowStartMonotone(n, i, r);
    if r > i {
      TriuRowsAt(m, n, i + 1, r, c);
      RowStartMonotone(n, i + 1, r);
      TriuRowsLength(m, n, i + 1);
      assert |m[i][i..]| == RowStart(n, i + 1) - RowStart(n, i);
    }
  }

  /** The triu vector has n(n+1)/2 entries and (i, j), i <= j, sits at TriuIndex(n, i, j). */
  lemma ToTriuAt(m: Matrix, n: nat)
    requires IsSquare(m, n)
    ensures |ToTriu(m, n)| == TriuLen(n)
    ensures forall r, c :: 0 <= r <= c < n ==>
      TriuIndex(n, r, c) < TriuLen(n) && ToTriu(m, n)[TriuIndex(n, r, c)] == m[r][c]
  {
    TriuRowsLength(m, n, 0);
    forall r, c | 0 <= r <= c < n
      ensures TriuIndex(n, r, c) < TriuLen(n) && ToTriu(m, n)[TriuIndex(n, r, c)] == m[r][c]
    {
      TriuRowsAt(m, n, 0, r, c);
    }
  }

  lemma {:induction false} FromTriuRows(n: nat, t: seq<real>, i: nat)
    requires |t| == TriuLen(n) && i <= n
    ensures RowStart(n, i) <= |t| && TriuRows(FromTriu(n, t), n, i) == t[RowStart(n, i)..]
    decreases n - i
  {
    RowStartMonotone(n, i, n);
    if i < n {
      var m := FromTriu(n, t);
      var s, e := RowStart(n, i), RowStart(n, i + 1);
      FromTriuRows(n, t, i + 1);
      RowStartMonotone(n, i + 1, n);
      assert e == s + (n - i);
      forall c | i <= c < n
        ensures m[i][c] == t[s + (c - i)]
      {
        assert TriuIndex(n, i, c) == s + (c - i);
      }
      assert m[i][i..] == t[s..e];
      assert t[s..] == t[s..e] + t[e..];
    }
  }

  /** Every matrix built from a triu vector is symmetric. */
  lemma FromTriuSymmetric(n: nat, t: seq<real>)
    requires Assignable(n, t)
    ensures IsSymmetric(FromTriu(n, t), n)
  {
  }

  /** Re-extracting the upper triangle gives the triu vector back. */
  lemma TriuRoundTrip(n: nat, t: seq<real>)
    requires |t| == TriuLen(n)
    ensures ToTriu(FromTriu(n, t), n) == t
  {
    FromTriuRows(n, t, 0);
  }

  /** A symmetric matrix is rebuilt exactly from its upper triangle. */
  lemma MatrixRoundTrip(m: Matrix, n: nat)
    requires IsSquare(m, n) && IsSymmetric(m, n)
    ensures Assignable(n, ToTriu(m, n)) && FromTriu(n, ToTriu(m, n)) == m
  {
    ToTriuAt(m, n);
    var r := FromTriu(n, ToTriu(m, n));
    forall i, j | 0 <= i < n && 0 <= j < n
      ensures r[i][j] == m[i][j]
    {
      if i <= j {
        assert r[i][j] == ToTriu(m, n)[TriuIndex(n, i, j)];
      } else {
        assert r[i][j] == ToTriu(m, n)[TriuIndex(n, j, i)];
      }
    }
    MatrixExt(r, m, n);
  }

  /**
   * Fills a zero n-by-n array in place: the upper triangle row by row from the triu
   * vector, then the transpose's upper triangle from the same vector, as numpy does
   * with two fancy-index assignments. A length that neither fits nor broadcasts is a
   * ValueError.
   */
  method TriuToMatrix(n: nat, t: seq<real>) returns (r: Result<Matrix>)
    ensures r.Ok? <==> Assignable(n, t)
    ensures r.Ok? ==> r.value == FromTriu(n, t)
  {
    if !Assignable(n, t) {
      return Err(ValueError);
    }
    var a := new real[n, n]((i, j) => 0.0);
    WriteUpper(a, n, t);
    WriteLower(a, n, t);
    var m := seq(n, x requires 0 <= x < n reads a => seq(n, y requires 0 <= y < n reads a => a[x, y]));
    assert forall x, y :: 0 <= x < n && 0 <= y < n ==> m[x][y] == FromTriu(n, t)[x][y];
    MatrixExt(m, FromTriu(n, t), n);
    return Ok(m);
  }

  /** matrix[np.triu_indices(n, 0)] = triu, on a matrix of zeros. */
  method WriteUpper(a: array2<real>, n: nat, t: seq<real>)
    requires a.Length0 == n && a.Length1 == n && Assignable(n, t)
    requires forall x, y :: 0 <= x < n && 0 <= y < n ==> a[x, y] == 0.0
    modifies a
    ensures forall x, y :: 0 <= x < n && 0 <= y < n ==>
      a[x, y] == if x <= y then TriuValue(n, t, TriuIndex(n, x, y)) else 0.0
  {
    var i, k := 0, 0;
    while i < n
      invariant 0 <= i <= n && k == RowStart(n, i)
      invariant forall x, y :: 0 <= x < n && 0 <= y < n ==>
        a[x, y] == if x < i && x <= y then TriuValue(n, t, TriuIndex(n, x, y)) else 0.0
    {
      var j := i;
      while j < n
        invariant i <= j <= n && k == RowStart(n, i) + (j - i)
        invariant forall x, y :: 0 <= x < n && 0 <= y < n ==>
          a[x, y] == if (x < i && x <= y) || (x == i && i <= y < j)
                     then TriuValue(n, t, TriuIndex(n, x, y)) else 0.0
      {
        assert k == TriuIndex(n, i, j);
        a[i, j] := TriuValue(n, t, k);
        j, k := j + 1, k + 1;
      }
      i := i + 1;
    }
  }

  /** matrix.T[np.triu_indices(n, 0)] = triu, after the upper triangle is written. */
  method WriteLower(a: array2<real>, n: nat, t: seq<real>)
    requires a.Length0 == n && a.Length1 == n && Assignable(n, t)
    requires forall x, y :: 0 <= x < n && 0 <= y < n ==>
      a[x, y] == if x <= y then TriuValue(n, t, TriuIndex(n, x, y)) else 0.0
    modifies a
    ensures forall x, y :: 0 <= x < n && 0 <= y < n ==>
      a[x, y] == if x <= y then TriuValue(n, t, TriuIndex(n, x, y)) else TriuValue(n, t, TriuIndex(n, y, x))
  {
    var i, k := 0, 0;
    while i < n
      invariant 0 <= i <= n && k == RowStart(n, i)
      invariant forall x, y :: 0 <= x < n && 0 <= y < n ==>
        a[x, y] == if x <= y then TriuValue(n, t, TriuIndex(n, x, y))
                   else if y < i then TriuValue(n, t, TriuIndex(n, y, x)) else 0.0
    {
      var j := i;
      while j < n
        invariant i <= j <= n && k == RowStart(n, i) + (j - i)
        invariant forall x, y :: 0 <= x < n && 0 <= y < n ==>
          a[x, y] == if x <= y then TriuValue(n, t, TriuIndex(n, x, y))
                     else if y < i || (y == i && x < j) then TriuValue(n, t, TriuIndex(n, y, x)) else 0.0
      {
        assert k == TriuIndex(n, i, j);
        a[j, i] := TriuValue(n, t, k);
        j, k := j + 1, k + 1;
      }
      i := i + 1;
    }
  }
}
