/**
 * The feature encoder of the graph-learning pipeline (the `Preprocessor` of gqcml).
 *
 * A graph with n vertices is an n-by-n weight matrix: the diagonal holds the self-loop
 * weights, a nonzero off-diagonal entry is an edge. The encoder derives binary
 * connectivity, rewrites diagonals, computes vertex degrees and their one-hot classes,
 * and averages neighbourhood weights per degree class (or per degree-pair class).
 * numpy floats are idealised as reals; the graph dimension is the parameter n.
 */
module Preprocessor {
  import opened Wrappers
  import opened Matrices

  /** The `diagonal` keyword of adjacency_matrix: None keeps the diagonal, "ones", "zeros". */
  datatype DiagonalPolicy = Keep | Ones | Zeros

  /** The `weight_method` keyword of vdegree_weighted_nf; any other word is OtherMethod. */
  datatype WeightMethod = Average | LinearCombination | OtherMethod

  /** A numpy float that is either finite or NaN (an isolated vertex's average edge weight). */
  datatype Float = Fin(r: real) | NaN

  /** An n-by-n-by-w array of reals. */
  type Tensor = seq<seq<seq<real>>>

  // ---------------------------------------------------------------------------
  // Binarisation and diagonal rewriting
  // ---------------------------------------------------------------------------

  /** np.where(m != 0, 1, m), followed by a zeroed diagonal unless `diagonal` holds. */
  function Binary(m: Matrix, n: nat, diagonal: bool): (b: Matrix)
    requires IsSquare(m, n)
    ensures IsSquare(b, n)
  {
    seq(n, i requires 0 <= i < n =>
      seq(n, j requires 0 <= j < n =>
        if !diagonal && i == j then 0.0 else if m[i][j] != 0.0 then 1.0 else m[i][j]))
  }

  /** The 0/1 connectivity of m: an entry is 1 exactly where m is nonzero (and, without
    * `diagonal`, off the diagonal). The diagonal is overwritten in place, one entry at a time. */
  method BinarizeMatrix(m: Matrix, n: nat, diagonal: bool) returns (b: Matrix)
    requires IsSquare(m, n)
    ensures b == Binary(m, n, diagonal)
    ensures IsSquare(b, n)
    ensures forall i, j :: 0 <= i < n && 0 <= j < n ==>
      b[i][j] == if m[i][j] != 0.0 && (diagonal || i != j) then 1.0 else 0.0
  {
    b := seq(n, i requires 0 <= i < n =>
      seq(n, j requires 0 <= j < n => if m[i][j] != 0.0 then 1.0 else m[i][j]));
    if !diagonal {
      var k := 0;
      while k < n
        invariant 0 <= k <= n
        invariant IsSquare(b, n)
        invariant forall i, j :: 0 <= i < n && 0 <= j < n ==>
          b[i][j] == if i == j && i < k then 0.0 else if m[i][j] != 0.0 then 1.0 else m[i][j]
      {
        b := b[k := b[k][k := 0.0]];
        k := k + 1;
      }
    }
    assert IsSquare(b, n);
    forall i | 0 <= i < n ensures b[i] == Binary(m, n, diagonal)[i] {
    }
  }

  /** The adjacency matrix with the diagonal chosen by `policy` (the normalize=False path). */
  function WithDiagonal(m: Matrix, n: nat, policy: DiagonalPolicy): (a: Matrix)
    requires IsSquare(m, n)
    ensures IsSquare(a, n)
  {
    seq(n, i requires 0 <= i < n =>
      seq(n, j requires 0 <= j < n =>
        if i != j then m[i][j]
        else match policy
          case Keep => m[i][i]
          case Ones => 1.0
          case Zeros => 0.0))
  }

  /** adjacency_matrix without normalisation: a copy of m whose diagonal is 1 for "ones",
    * 0 for "zeros" and unchanged otherwise; every off-diagonal entry is m's. */
  method AdjacencyMatrix(m: Matrix, n: nat, policy: DiagonalPolicy) returns (a: Matrix)
    requires IsSquare(m, n)
    ensures a == WithDiagonal(m, n, policy)
    ensures IsSquare(a, n)
    ensures forall i, j :: 0 <= i < n && 0 <= j < n && i != j ==> a[i][j] == m[i][j]
    ensures forall i :: 0 <= i < n ==>
      a[i][i] == match policy case Keep => m[i][i] case Ones => 1.0 case Zeros => 0.0
  {
    a := m;
    if policy != Keep {
      var value := if policy == Ones then 1.0 else 0.0;
      var k := 0;
      while k < n
        invariant 0 <= k <= n
        invariant IsSquare(a, n)
        invariant forall i, j :: 0 <= i < n && 0 <= j < n ==>
          a[i][j] == if i == j && i < k then value else m[i][j]
      {
        a := a[k := a[k][k := value]];
        k := k + 1;
      }
    }
    forall i | 0 <= i < n ensures a[i] == WithDiagonal(m, n, policy)[i] {
    }
  }

  /** __off_diagonal_format: a copy of m with its diagonal set to zero. */
  function OffDiagonalFormat(m: Matrix, n: nat): (e: Matrix)
    requires IsSquare(m, n)
    ensures IsSquare(e, n)
    ensures forall i :: 0 <= i < n ==> e[i][i] == 0.0
    ensures forall i, j :: 0 <= i < n && 0 <= j < n && i != j ==> e[i][j] == m[i][j]
  {
    WithDiagonal(m, n, Zeros)
  }

  /** __diagonal_to_matrix: along a row, entry (i, j) is b[i][j] times the self-loop weight of
    * j; along a column, b[i][j] times the self-loop weight of i. */
  function DiagonalToMatrix(m: Matrix, b: Matrix, n: nat, alongRow: bool): (v: Matrix)
    requires IsSquare(m, n) && IsSquare(b, n)
    ensures IsSquare(v, n)
  {
    seq(n, i requires 0 <= i < n =>
      seq(n, j requires 0 <= j < n => b[i][j] * (if alongRow then m[j][j] else m[i][i])))
  }

  /** With the off-diagonal connectivity of m, the row form holds the self-loop weight of the
    * neighbour on every edge and 0 elsewhere; the column form that of the centre. */
  lemma {:induction false} DiagonalToMatrixOnEdges(m: Matrix, n: nat, i: nat, j: nat)
    requires IsSquare(m, n) && i < n && j < n
    ensures DiagonalToMatrix(m, Binary(m, n, false), n, true)[i][j]
      == if i != j && m[i][j] != 0.0 then m[j][j] else 0.0
    ensures DiagonalToMatrix(m, Binary(m, n, false), n, false)[i][j]
      == if i != j && m[i][j] != 0.0 then m[i][i] else 0.0
  {
  }

  /** __categorical_matrix: entry (i, j) is the class vector of i, masked by b[i][j]. */
  function CategoricalMatrix(cat: Matrix, b: Matrix, n: nat, w: nat): (c: Tensor)
    requires |cat| == n && (forall i :: 0 <= i < n ==> |cat[i]| == w) && IsSquare(b, n)
    ensures IsTensor(c, n, w)
  {
    seq(n, i requires 0 <= i < n =>
      seq(n, j requires 0 <= j < n =>
        seq(w, k requires 0 <= k < w => b[i][j] * cat[i][k])))
  }

  // ---------------------------------------------------------------------------
  // Neighbourhoods
  // ---------------------------------------------------------------------------

  /** The neighbours of i along row i: j != i with m[i][j] nonzero. */
  function RowMask(m: Matrix, n: nat, i: nat): (mask: seq<bool>)
    requires IsSquare(m, n) && i < n
    ensures |mask| == n
  {
    seq(n, j requires 0 <= j < n => j != i && m[i][j] != 0.0)
  }

  /** The neighbours of j along column j: i != j with m[i][j] nonzero. */
  function ColMask(m: Matrix, n: nat, j: nat): (mask: seq<bool>)
    requires IsSquare(m, n) && j < n
    ensures |mask| == n
  {
    seq(n, i requires 0 <= i < n => i != j && m[i][j] != 0.0)
  }

  // ---------------------------------------------------------------------------
  // weights_nf
  // ---------------------------------------------------------------------------

  /** Column 1 of weights_nf: the column sum of the zero-diagonal matrix times the reciprocal
    * of the off-diagonal nonzero count. numpy's 1/0 is inf and inf*0 is NaN, and a column
    * without neighbours also sums to 0, so such a vertex gets NaN. */
  function AverageEdgeWeight(m: Matrix, n: nat, j: nat): Float
    requires IsSquare(m, n) && j < n
  {
    var c := ColumnSum(Binary(m, n, false), n, j);
    if c == 0.0 then NaN else Fin((1.0 / c) * ColumnSum(WithDiagonal(m, n, Zeros), n, j))
  }

  /** weights_nf: one row per vertex, its self-loop weight and, with `edgeWeights`, its
    * average edge weight. */
  function WeightsNF(m: Matrix, n: nat, edgeWeights: bool): (f: seq<seq<Float>>)
    requires IsSquare(m, n)
    ensures |f| == n && forall j :: 0 <= j < n ==> |f[j]| == if edgeWeights then 2 else 1
  {
    seq(n, j requires 0 <= j < n =>
      [Fin(m[j][j])] + if edgeWeights then [AverageEdgeWeight(m, n, j)] else [])
  }

  /** Column 0 of weights_nf is the diagonal; column 1 is the mean of the nonzero
    * off-diagonal entries of the vertex's column, and NaN for a vertex with no neighbour. */
  lemma {:induction false} WeightsNFMeaning(m: Matrix, n: nat, j: nat)
    requires IsSquare(m, n) && j < n
    ensures WeightsNF(m, n, false)[j] == [Fin(m[j][j])]
    ensures WeightsNF(m, n, true)[j][0] == Fin(m[j][j])
    ensures WeightsNF(m, n, true)[j][1]
      == if MaskCount(ColMask(m, n, j)) == 0 then NaN else Fin(Mean(ColMask(m, n, j), Column(m, n, j)))
  {
    var mask := ColMask(m, n, j);
    var t := Column(Binary(m, n, false), n, j);
    var e := Column(WithDiagonal(m, n, Zeros), n, j);
    SumIndicators(mask, t);
    assert e == seq(n, i requires 0 <= i < n => if mask[i] then Column(m, n, j)[i] else 0.0);
  }

  /** When every edge of vertex j weighs w, its average edge weight is w. */
  lemma {:induction false} WeightsNFHomogeneous(m: Matrix, n: nat, j: nat, w: real)
    requires IsSquare(m, n) && j < n
    requires exists i :: 0 <= i < n && i != j && m[i][j] != 0.0
    requires forall i :: 0 <= i < n && i != j && m[i][j] != 0.0 ==> m[i][j] == w
    ensures WeightsNF(m, n, true)[j][1] == Fin(w)
  {
    var mask := ColMask(m, n, j);
    var i :| 0 <= i < n && i != j && m[i][j] != 0.0;
    assert mask[i];
    MaskCountZero(mask);
    WeightsNFMeaning(m, n, j);
    MeanConstant(mask, Column(m, n, j), w);
  }

  // ---------------------------------------------------------------------------
  // Vertex degree and its class
  // ---------------------------------------------------------------------------

  /** vdegree_nf without categories: the nonzero entries of column j, diagonal included, minus 1. */
  function Degree(m: Matrix, n: nat, j: nat): int
    requires IsSquare(m, n) && j < n
  {
    MaskCount(seq(n, i requires 0 <= i < n => m[i][j] != 0.0)) - 1
  }

  /** The degree is what numpy computes: the column sum of the binary matrix, minus 1. */
  lemma {:induction false} DegreeIsBinaryColumnSum(m: Matrix, n: nat, j: nat)
    requires IsSquare(m, n) && j < n
    ensures ColumnSum(Binary(m, n, true), n, j) - 1.0 == Degree(m, n, j) as real
  {
    SumIndicators(seq(n, i requires 0 <= i < n => m[i][j] != 0.0), Column(Binary(m, n, true), n, j));
  }

  /** Two selections that differ only at k, where the first selects and the second does not. */
  lemma {:induction false} MaskCountOneMore(a: seq<bool>, b: seq<bool>, k: nat)
    requires |a| == |b| && k < |a| && a[k] && !b[k]
    requires forall i :: 0 <= i < |a| && i != k ==> a[i] == b[i]
    ensures MaskCount(a) == MaskCount(b) + 1
  {
    var last := |a| - 1;
    if k == last {
      assert a[..last] == b[..last];
    } else {
      MaskCountOneMore(a[..last], b[..last], k);
    }
  }

  /** With a nonzero self-loop, the degree is the number of neighbours of j. */
  lemma {:induction false} DegreeCountsNeighbours(m: Matrix, n: nat, j: nat)
    requires IsSquare(m, n) && j < n && m[j][j] != 0.0
    ensures Degree(m, n, j) == MaskCount(ColMask(m, n, j))
  {
    MaskCountOneMore(seq(n, i requires 0 <= i < n => m[i][j] != 0.0), ColMask(m, n, j), j);
  }

  /** Row k of np.eye(w). */
  function OneHot(k: int, w: nat): (v: seq<real>)
    ensures |v| == w
  {
    seq(w, c => if c == k then 1.0 else 0.0)
  }

  /** The class of vertex j: the row of np.eye(nd) that Python selects with degree - 1. */
  function ClassOf(m: Matrix, n: nat, j: nat, nd: nat): Option<nat>
    requires IsSquare(m, n) && j < n
  {
    PyIndex(Degree(m, n, j) - 1, nd)
  }

  /** Every vertex has a class. */
  predicate HasClasses(m: Matrix, n: nat, nd: nat)
    requires IsSquare(m, n)
  {
    forall j :: 0 <= j < n ==> ClassOf(m, n, j, nd).Some?
  }

  /** The class vectors of all vertices. */
  function Categories(m: Matrix, n: nat, nd: nat): (cat: Matrix)
    requires IsSquare(m, n) && HasClasses(m, n, nd)
    ensures |cat| == n && forall j :: 0 <= j < n ==> |cat[j]| == nd
  {
    seq(n, j requires 0 <= j < n => OneHot(ClassOf(m, n, j, nd).value, nd))
  }

  /** vdegree_nf: the degree of every vertex, as one number or as a one-hot class row. */
  function VDegreeNF(m: Matrix, n: nat, categorical: bool, nd: nat): (r: Result<Matrix>)
    requires IsSquare(m, n)
    ensures r.Err? <==> categorical && !HasClasses(m, n, nd)
    ensures r.Err? ==> r.error == IndexError
    ensures r.Ok? ==> |r.value| == n
    ensures r.Ok? ==> forall j :: 0 <= j < n ==> |r.value[j]| == if categorical then nd else 1
  {
    if !categorical then Ok(seq(n, j requires 0 <= j < n => [Degree(m, n, j) as real]))
    else if HasClasses(m, n, nd) then Ok(Categories(m, n, nd))
    else Err(IndexError)
  }

  /** The class row of a degree between 1 and nd has its single 1 at degree - 1; degree 0
    * selects row -1, the last class; a degree above nd raises IndexError. */
  lemma {:induction false} VDegreeClasses(m: Matrix, n: nat, j: nat, nd: nat)
    requires IsSquare(m, n) && j < n
    ensures 1 <= Degree(m, n, j) <= nd ==> ClassOf(m, n, j, nd) == Some(Degree(m, n, j) - 1)
    ensures Degree(m, n, j) == 0 && nd > 0 ==> ClassOf(m, n, j, nd) == Some(nd - 1)
    ensures Degree(m, n, j) > nd ==> ClassOf(m, n, j, nd) == None
    ensures nd >= 2 ==> (ClassOf(m, n, j, nd) == None <==> Degree(m, n, j) > nd)
  {
  }

  /** With at least two classes the categorical encoding fails exactly when some degree
    * exceeds nd; otherwise row j is one-hot at the class of j. */
  lemma {:induction false} VDegreeNFCategorical(m: Matrix, n: nat, nd: nat)
    requires IsSquare(m, n) && nd >= 2
    ensures VDegreeNF(m, n, true, nd).Err? <==> exists j :: 0 <= j < n && Degree(m, n, j) > nd
    ensures VDegreeNF(m, n, true, nd).Ok? ==> forall j, k :: 0 <= j < n && 0 <= k < nd ==>
      VDegreeNF(m, n, true, nd).value[j][k] == if k == ClassOf(m, n, j, nd).value then 1.0 else 0.0
  {
    forall j | 0 <= j < n {
      VDegreeClasses(m, n, j, nd);
    }
  }

  // ---------------------------------------------------------------------------
  // Aggregation over one axis of a class tensor
  // ---------------------------------------------------------------------------

  /** An n-by-w grid of reals. */
  predicate IsGrid(a: Matrix, n: nat, w: nat) {
    |a| == n && forall i :: 0 <= i < n ==> |a[i]| == w
  }

  /** An n-by-n-by-w tensor. */
  predicate IsTensor(t: Tensor, n: nat, w: nat) {
    && |t| == n
    && (forall i :: 0 <= i < n ==> |t[i]| == n)
    && (forall i, j :: 0 <= i < n && 0 <= j < n ==> |t[i][j]| == w)
  }

  /** Entries t[i][j][k] for fixed i and k. */
  function RowFiber(t: Tensor, n: nat, w: nat, i: nat, k: nat): (f: seq<real>)
    requires IsTensor(t, n, w) && i < n && k < w
    ensures |f| == n && forall j :: 0 <= j < n ==> f[j] == t[i][j][k]
  {
    seq(n, j requires 0 <= j < n => t[i][j][k])
  }

  /** Entries t[i][j][k] for fixed j and k. */
  function ColFiber(t: Tensor, n: nat, w: nat, j: nat, k: nat): (f: seq<real>)
    requires IsTensor(t, n, w) && j < n && k < w
    ensures |f| == n && forall i :: 0 <= i < n ==> f[i] == t[i][j][k]
  {
    seq(n, i requires 0 <= i < n => t[i][j][k])
  }

  /** np.sum(t, 1). */
  function RowCount(t: Tensor, n: nat, w: nat): (c: Matrix)
    requires IsTensor(t, n, w)
    ensures IsGrid(c, n, w)
  {
    seq(n, i requires 0 <= i < n => seq(w, k requires 0 <= k < w => Sum(RowFiber(t, n, w, i, k))))
  }

  /** np.sum(t * W, 1). */
  function RowAggregate(t: Tensor, W: Matrix, n: nat, w: nat): (s: Matrix)
    requires IsTensor(t, n, w) && IsSquare(W, n)
    ensures IsGrid(s, n, w)
  {
    seq(n, i requires 0 <= i < n =>
      seq(w, k requires 0 <= k < w => Sum(Weighted(RowFiber(t, n, w, i, k), W[i]))))
  }

  /** np.sum(t, 0). */
  function ColCount(t: Tensor, n: nat, w: nat): (c: Matrix)
    requires IsTensor(t, n, w)
    ensures IsGrid(c, n, w)
  {
    seq(n, j requires 0 <= j < n => seq(w, k requires 0 <= k < w => Sum(ColFiber(t, n, w, j, k))))
  }

  /** np.sum(t * W, 0). */
  function ColAggregate(t: Tensor, W: Matrix, n: nat, w: nat): (s: Matrix)
    requires IsTensor(t, n, w) && IsSquare(W, n)
    ensures IsGrid(s, n, w)
  {
    seq(n, j requires 0 <= j < n =>
      seq(w, k requires 0 <= k < w => Sum(Weighted(ColFiber(t, n, w, j, k), Column(W, n, j)))))
  }

  /** The loops over np.nonzero(count): every nonzero count is replaced by its reciprocal,
    * zero counts stay 0, so an empty class never divides by zero. */
  method InvertNonzero(c: Matrix, n: nat, w: nat) returns (r: Matrix)
    requires IsGrid(c, n, w)
    ensures IsGrid(r, n, w)
    ensures forall i, k :: 0 <= i < n && 0 <= k < w ==> r[i][k] == Inv(c[i][k])
    ensures forall i, k :: 0 <= i < n && 0 <= k < w ==>
      if c[i][k] == 0.0 then r[i][k] == 0.0 else r[i][k] * c[i][k] == 1.0
  {
    r := c;
    var i := 0;
    while i < n
      invariant 0 <= i <= n && IsGrid(r, n, w)
      invariant forall a, k :: 0 <= a < n && 0 <= k < w ==>
        r[a][k] == if a < i then Inv(c[a][k]) else c[a][k]
    {
      var k := 0;
      while k < w
        invariant 0 <= k <= w && IsGrid(r, n, w)
        invariant forall a, kk :: 0 <= a < n && 0 <= kk < w ==>
          r[a][kk] == if a < i || (a == i && kk < k) then Inv(c[a][kk]) else c[a][kk]
      {
        if r[i][k] != 0.0 {
          r := r[i := r[i][k := 1.0 / r[i][k]]];
        }
        k := k + 1;
      }
      i := i + 1;
    }
  }

  /** A class-indicator fiber, inverted count times weighted sum, is the mean of the values
    * the indicator selects (summing over axis 1). */
  lemma {:induction false} RowBlockMean(t: Tensor, W: Matrix, n: nat, w: nat, i: nat, k: nat, mask: seq<bool>, vals: seq<real>)
    requires IsTensor(t, n, w) && IsSquare(W, n) && i < n && k < w && |mask| == n && |vals| == n
    requires forall j :: 0 <= j < n ==> t[i][j][k] == if mask[j] then 1.0 else 0.0
    requires forall j :: 0 <= j < n && mask[j] ==> W[i][j] == vals[j]
    ensures Normalised(RowCount(t, n, w)[i][k], RowAggregate(t, W, n, w)[i][k]) == Mean(mask, vals)
  {
    MeanOfIndicators(mask, RowFiber(t, n, w, i, k), W[i], vals);
  }

  /** The same over axis 0. */
  lemma {:induction false} ColBlockMean(t: Tensor, W: Matrix, n: nat, w: nat, j: nat, k: nat, mask: seq<bool>, vals: seq<real>)
    requires IsTensor(t, n, w) && IsSquare(W, n) && j < n && k < w && |mask| == n && |vals| == n
    requires forall i :: 0 <= i < n ==> t[i][j][k] == if mask[i] then 1.0 else 0.0
    requires forall i :: 0 <= i < n && mask[i] ==> W[i][j] == vals[i]
    ensures Normalised(ColCount(t, n, w)[j][k], ColAggregate(t, W, n, w)[j][k]) == Mean(mask, vals)
  {
    MeanOfIndicators(mask, ColFiber(t, n, w, j, k), Column(W, n, j), vals);
  }

  /** Entry-wise product of two n-by-w grids. */
  function Scaled(a: Matrix, b: Matrix, n: nat, w: nat): (p: Matrix)
    requires IsGrid(a, n, w) && IsGrid(b, n, w)
    ensures IsGrid(p, n, w)
  {
    seq(n, i requires 0 <= i < n => seq(w, k requires 0 <= k < w => a[i][k] * b[i][k]))
  }

  /** np.concatenate of three blocks along axis 1. */
  function Blocks(a: Matrix, b: Matrix, c: Matrix, n: nat): (r: Matrix)
    requires |a| == n && |b| == n && |c| == n
    ensures |r| == n && forall i :: 0 <= i < n ==> r[i] == a[i] + b[i] + c[i]
  {
    seq(n, i requires 0 <= i < n => a[i] + b[i] + c[i])
  }

  /** The first block of both weighted encoders: the class row of each vertex times its
    * self-loop weight. */
  function SelfLoopBlock(m: Matrix, n: nat): (s: Matrix)
    requires IsSquare(m, n) && HasClasses(m, n, 3)
    ensures IsGrid(s, n, 3)
    ensures forall i, k :: 0 <= i < n && 0 <= k < 3 ==>
      s[i][k] == m[i][i] * OneHot(ClassOf(m, n, i, 3).value, 3)[k]
  {
    var cat := Categories(m, n, 3);
    seq(n, i requires 0 <= i < n => seq(3, k requires 0 <= k < 3 => m[i][i] * cat[i][k]))
  }

  // ---------------------------------------------------------------------------
  // vdegree_weighted_nf
  // ---------------------------------------------------------------------------

  /** The edges of row i, kept only in the column of i's own class. */
  function AverageMask(m: Matrix, n: nat, i: nat, k: nat): (mask: seq<bool>)
    requires IsSquare(m, n) && i < n
    ensures |mask| == n
  {
    seq(n, j requires 0 <= j < n => j != i && m[i][j] != 0.0 && ClassOf(m, n, i, 3) == Some(k))
  }

  /** The neighbours i of j (along column j) whose class is k. */
  function ClassMask(m: Matrix, n: nat, j: nat, k: nat): (mask: seq<bool>)
    requires IsSquare(m, n) && j < n
    ensures |mask| == n
  {
    seq(n, i requires 0 <= i < n => i != j && m[i][j] != 0.0 && ClassOf(m, n, i, 3) == Some(k))
  }

  /** The categorical tensor of both vdegree_weighted_nf modes: the class row of i on every
    * edge (i, j), zero elsewhere. */
  function ClassTensor(m: Matrix, n: nat): (c: Tensor)
    requires IsSquare(m, n) && HasClasses(m, n, 3)
    ensures IsTensor(c, n, 3)
  {
    CategoricalMatrix(Categories(m, n, 3), Binary(m, n, false), n, 3)
  }

  /** Entry (i, j, k) of the class tensor is 1 exactly on an edge (i, j) whose centre i has
    * class k. */
  lemma {:induction false} ClassTensorIndicator(m: Matrix, n: nat, i: nat, j: nat, k: nat)
    requires IsSquare(m, n) && HasClasses(m, n, 3) && i < n && j < n && k < 3
    ensures ClassTensor(m, n)[i][j][k]
      == if j != i && m[i][j] != 0.0 && ClassOf(m, n, i, 3) == Some(k) then 1.0 else 0.0
  {
  }

  /** The selection of row i's edges reduces to its neighbours in i's own class and to
    * nothing in every other class. */
  lemma {:induction false} AverageMaskCases(m: Matrix, n: nat, i: nat, k: nat, vals: seq<real>)
    requires IsSquare(m, n) && i < n && |vals| == n
    ensures Mean(AverageMask(m, n, i, k), vals)
      == if ClassOf(m, n, i, 3) == Some(k) then Mean(RowMask(m, n, i), vals) else 0.0
  {
    if ClassOf(m, n, i, 3) == Some(k) {
      assert AverageMask(m, n, i, k) == RowMask(m, n, i);
    } else {
      MeanEmpty(AverageMask(m, n, i, k), vals);
    }
  }

  /** "average", second block: row i holds, in the column of its own class, the mean
    * self-loop weight of its neighbours; every other class column is 0. */
  lemma {:induction false} AverageNeighbourBlock(m: Matrix, n: nat, i: nat, k: nat)
    requires IsSquare(m, n) && HasClasses(m, n, 3) && i < n && k < 3
    ensures Normalised(RowCount(ClassTensor(m, n), n, 3)[i][k],
        RowAggregate(ClassTensor(m, n), DiagonalToMatrix(m, Binary(m, n, false), n, true), n, 3)[i][k])
      == if ClassOf(m, n, i, 3) == Some(k) then Mean(RowMask(m, n, i), Diag(m, n)) else 0.0
  {
    var c := ClassTensor(m, n);
    var mask := AverageMask(m, n, i, k);
    forall j | 0 <= j < n ensures c[i][j][k] == if mask[j] then 1.0 else 0.0 {
      ClassTensorIndicator(m, n, i, j, k);
    }
    var v := DiagonalToMatrix(m, Binary(m, n, false), n, true);
    forall j | 0 <= j < n && mask[j] ensures v[i][j] == Diag(m, n)[j] {
      DiagonalToMatrixOnEdges(m, n, i, j);
    }
    RowBlockMean(c, v, n, 3, i, k, mask, Diag(m, n));
    AverageMaskCases(m, n, i, k, Diag(m, n));
  }

  /** "average", third block: row i holds, in the column of its own class, the mean weight of
    * its edges; every other class column is 0. */
  lemma {:induction false} AverageEdgeBlock(m: Matrix, n: nat, i: nat, k: nat)
    requires IsSquare(m, n) && HasClasses(m, n, 3) && i < n && k < 3
    ensures Normalised(RowCount(ClassTensor(m, n), n, 3)[i][k],
        RowAggregate(ClassTensor(m, n), OffDiagonalFormat(m, n), n, 3)[i][k])
      == if ClassOf(m, n, i, 3) == Some(k) then Mean(RowMask(m, n, i), m[i]) else 0.0
  {
    var c := ClassTensor(m, n);
    var mask := AverageMask(m, n, i, k);
    forall j | 0 <= j < n ensures c[i][j][k] == if mask[j] then 1.0 else 0.0 {
      ClassTensorIndicator(m, n, i, j, k);
    }
    var e := OffDiagonalFormat(m, n);
    forall j | 0 <= j < n && mask[j] ensures e[i][j] == m[i][j] {
    }
    RowBlockMean(c, e, n, 3, i, k, mask, m[i]);
    AverageMaskCases(m, n, i, k, m[i]);
  }

  /** "linear combination", second block: entry (j, k) is the mean self-loop weight of the
    * neighbours of j whose class is k, and 0 when there are none. */
  lemma {:induction false} LinearNeighbourBlock(m: Matrix, n: nat, j: nat, k: nat)
    requires IsSquare(m, n) && HasClasses(m, n, 3) && j < n && k < 3
    ensures Normalised(ColCount(ClassTensor(m, n), n, 3)[j][k],
        ColAggregate(ClassTensor(m, n), DiagonalToMatrix(m, Binary(m, n, false), n, false), n, 3)[j][k])
      == Mean(ClassMask(m, n, j, k), Diag(m, n))
  {
    var c := ClassTensor(m, n);
    var mask := ClassMask(m, n, j, k);
    forall i | 0 <= i < n ensures c[i][j][k] == if mask[i] then 1.0 else 0.0 {
      ClassTensorIndicator(m, n, i, j, k);
    }
    var v := DiagonalToMatrix(m, Binary(m, n, false), n, false);
    forall i | 0 <= i < n && mask[i] ensures v[i][j] == Diag(m, n)[i] {
      DiagonalToMatrixOnEdges(m, n, i, j);
    }
    ColBlockMean(c, v, n, 3, j, k, mask, Diag(m, n));
  }

  /** "linear combination", third block: entry (j, k) is the mean weight of the edges from
    * the neighbours of j whose class is k, and 0 when there are none. */
  lemma {:induction false} LinearEdgeBlock(m: Matrix, n: nat, j: nat, k: nat)
    requires IsSquare(m, n) && HasClasses(m, n, 3) && j < n && k < 3
    ensures Normalised(ColCount(ClassTensor(m, n), n, 3)[j][k],
        ColAggregate(ClassTensor(m, n), OffDiagonalFormat(m, n), n, 3)[j][k])
      == Mean(ClassMask(m, n, j, k), Column(m, n, j))
  {
    var c := ClassTensor(m, n);
    var mask := ClassMask(m, n, j, k);
    forall i | 0 <= i < n ensures c[i][j][k] == if mask[i] then 1.0 else 0.0 {
      ClassTensorIndicator(m, n, i, j, k);
    }
    var e := OffDiagonalFormat(m, n);
    forall i | 0 <= i < n && mask[i] ensures e[i][j] == Column(m, n, j)[i] {
    }
    ColBlockMean(c, e, n, 3, j, k, mask, Column(m, n, j));
  }

  /** The second and third blocks of a row: the inverted count times each aggregate. */
  lemma {:induction false} ScaledBlocks(a: Matrix, count: Matrix, v: Matrix, e: Matrix, n: nat, w: nat, i: nat, k: nat, x: real)
    requires IsGrid(a, n, 3) && IsGrid(count, n, w) && IsGrid(v, n, w) && IsGrid(e, n, w)
    requires i < n && k < w && count[i][k] == Inv(x)
    ensures Blocks(a, Scaled(count, v, n, w), Scaled(count, e, n, w), n)[i][3 + k] == Normalised(x, v[i][k])
    ensures Blocks(a, Scaled(count, v, n, w), Scaled(count, e, n, w), n)[i][3 + w + k] == Normalised(x, e[i][k])
  {
  }

  /** The first block: the class row of each vertex times its self-loop weight. */
  lemma {:induction false} SelfLoopColumns(m: Matrix, n: nat, b: Matrix, c: Matrix, w: nat)
    requires IsSquare(m, n) && HasClasses(m, n, 3) && IsGrid(b, n, w) && IsGrid(c, n, w)
    ensures var r := Blocks(SelfLoopBlock(m, n), b, c, n);
      IsGrid(r, n, 3 + 2 * w) &&
      forall i, k :: 0 <= i < n && 0 <= k < 3 ==>
        r[i][k] == m[i][i] * OneHot(ClassOf(m, n, i, 3).value, 3)[k]
  {
  }

  /** The output of the "average" mode, given the inverted row counts. */
  lemma {:induction false} AverageOutput(m: Matrix, n: nat, count: Matrix, r: Matrix)
    requires IsSquare(m, n) && HasClasses(m, n, 3) && IsGrid(count, n, 3)
    requires forall i, k :: 0 <= i < n && 0 <= k < 3 ==>
      count[i][k] == Inv(RowCount(ClassTensor(m, n), n, 3)[i][k])
    requires r == Blocks(SelfLoopBlock(m, n),
      Scaled(count, RowAggregate(ClassTensor(m, n), DiagonalToMatrix(m, Binary(m, n, false), n, true), n, 3), n, 3),
      Scaled(count, RowAggregate(ClassTensor(m, n), OffDiagonalFormat(m, n), n, 3), n, 3), n)
    ensures forall i, k :: 0 <= i < n && 0 <= k < 3 ==>
      r[i][3 + k] == (if ClassOf(m, n, i, 3) == Some(k) then Mean(RowMask(m, n, i), Diag(m, n)) else 0.0) &&
      r[i][6 + k] == (if ClassOf(m, n, i, 3) == Some(k) then Mean(RowMask(m, n, i), m[i]) else 0.0)
  {
    forall i, k | 0 <= i < n && 0 <= k < 3
      ensures r[i][3 + k] == if ClassOf(m, n, i, 3) == Some(k) then Mean(RowMask(m, n, i), Diag(m, n)) else 0.0
      ensures r[i][6 + k] == if ClassOf(m, n, i, 3) == Some(k) then Mean(RowMask(m, n, i), m[i]) else 0.0
    {
      var c := ClassTensor(m, n);
      var vs := RowAggregate(c, DiagonalToMatrix(m, Binary(m, n, false), n, true), n, 3);
      var es := RowAggregate(c, OffDiagonalFormat(m, n), n, 3);
      ScaledBlocks(SelfLoopBlock(m, n), count, vs, es, n, 3, i, k, RowCount(c, n, 3)[i][k]);
      AverageNeighbourBlock(m, n, i, k);
      AverageEdgeBlock(m, n, i, k);
    }
  }

  /** The output of the "linear combination" mode, given the inverted column counts. */
  lemma {:induction false} LinearCombinationOutput(m: Matrix, n: nat, count: Matrix, r: Matrix)
    requires IsSquare(m, n) && HasClasses(m, n, 3) && IsGrid(count, n, 3)
    requires forall j, k :: 0 <= j < n && 0 <= k < 3 ==>
      count[j][k] == Inv(ColCount(ClassTensor(m, n), n, 3)[j][k])
    requires r == Blocks(SelfLoopBlock(m, n),
      Scaled(count, ColAggregate(ClassTensor(m, n), DiagonalToMatrix(m, Binary(m, n, false), n, false), n, 3), n, 3),
      Scaled(count, ColAggregate(ClassTensor(m, n), OffDiagonalFormat(m, n), n, 3), n, 3), n)
    ensures forall j, k :: 0 <= j < n && 0 <= k < 3 ==>
      r[j][3 + k] == Mean(ClassMask(m, n, j, k), Diag(m, n)) &&
      r[j][6 + k] == Mean(ClassMask(m, n, j, k), Column(m, n, j))
  {
    forall j, k | 0 <= j < n && 0 <= k < 3
      ensures r[j][3 + k] == Mean(ClassMask(m, n, j, k), Diag(m, n))
      ensures r[j][6 + k] == Mean(ClassMask(m, n, j, k), Column(m, n, j))
    {
      var c := ClassTensor(m, n);
      var vs := ColAggregate(c, DiagonalToMatrix(m, Binary(m, n, false), n, false), n, 3);
      var es := ColAggregate(c, OffDiagonalFormat(m, n), n, 3);
      ScaledBlocks(SelfLoopBlock(m, n), count, vs, es, n, 3, j, k, ColCount(c, n, 3)[j][k]);
      LinearNeighbourBlock(m, n, j, k);
      LinearEdgeBlock(m, n, j, k);
    }
  }

  /** vdegree_weighted_nf: the self-loop-weighted class rows and, with `neighbourhood` and a
    * known weight method, two more 3-column blocks of per-class neighbourhood means. */
  method VDegreeWeightedNF(m: Matrix, n: nat, neighbourhood: bool, weightMethod: WeightMethod)
    returns (r: Result<Matrix>)
    requires IsSquare(m, n)
    ensures r.Err? <==> !HasClasses(m, n, 3)
    ensures r.Err? ==> r.error == IndexError
    ensures r.Ok? ==> IsGrid(r.value, n, if neighbourhood && weightMethod != OtherMethod then 9 else 3)
    ensures r.Ok? ==> forall i, k :: 0 <= i < n && 0 <= k < 3 ==>
      r.value[i][k] == m[i][i] * OneHot(ClassOf(m, n, i, 3).value, 3)[k]
    ensures r.Ok? && neighbourhood && weightMethod == Average ==>
      forall i, k :: 0 <= i < n && 0 <= k < 3 ==>
        r.value[i][3 + k] == (if ClassOf(m, n, i, 3) == Some(k) then Mean(RowMask(m, n, i), Diag(m, n)) else 0.0) &&
        r.value[i][6 + k] == (if ClassOf(m, n, i, 3) == Some(k) then Mean(RowMask(m, n, i), m[i]) else 0.0)
    ensures r.Ok? && neighbourhood && weightMethod == LinearCombination ==>
      forall j, k :: 0 <= j < n && 0 <= k < 3 ==>
        r.value[j][3 + k] == Mean(ClassMask(m, n, j, k), Diag(m, n)) &&
        r.value[j][6 + k] == Mean(ClassMask(m, n, j, k), Column(m, n, j))
  {
    var cat := VDegreeNF(m, n, true, 3);
    if cat.Err? {
      return Err(cat.error);
    }
    var sl := SelfLoopBlock(m, n);
    if !neighbourhood || weightMethod == OtherMethod {
      return Ok(sl);
    }
    assert cat.value == Categories(m, n, 3);
    var out;
    if weightMethod == Average {
      out := AverageBlocks(m, n, sl, cat.value);
    } else {
      out := LinearCombinationBlocks(m, n, sl, cat.value);
    }
    r := Ok(out);
  }

  /** The "average" mode of vdegree_weighted_nf: class rows, then the per-class means of
    * the neighbours' self-loop weights and of the edge weights, over each row. */
  method AverageBlocks(m: Matrix, n: nat, sl: Matrix, cat: Matrix) returns (out: Matrix)
    requires IsSquare(m, n) && HasClasses(m, n, 3)
    requires sl == SelfLoopBlock(m, n) && cat == Categories(m, n, 3)
    ensures IsGrid(out, n, 9)
    ensures forall i, k :: 0 <= i < n && 0 <= k < 3 ==>
      out[i][k] == m[i][i] * OneHot(ClassOf(m, n, i, 3).value, 3)[k]
    ensures forall i, k :: 0 <= i < n && 0 <= k < 3 ==>
      out[i][3 + k] == (if ClassOf(m, n, i, 3) == Some(k) then Mean(RowMask(m, n, i), Diag(m, n)) else 0.0) &&
      out[i][6 + k] == (if ClassOf(m, n, i, 3) == Some(k) then Mean(RowMask(m, n, i), m[i]) else 0.0)
  {
    var b := BinarizeMatrix(m, n, false);
    var e := OffDiagonalFormat(m, n);
    var c := CategoricalMatrix(cat, b, n, 3);
    assert c == ClassTensor(m, n);
    var v := DiagonalToMatrix(m, b, n, true);
    var count := InvertNonzero(RowCount(c, n, 3), n, 3);
    var vs := Scaled(count, RowAggregate(c, v, n, 3), n, 3);
    var es := Scaled(count, RowAggregate(c, e, n, 3), n, 3);
    out := Blocks(sl, vs, es, n);
    SelfLoopColumns(m, n, vs, es, 3);
    AverageOutput(m, n, count, out);
  }

  /** The "linear_combination" mode of vdegree_weighted_nf: class rows, then for each vertex
    * the means over the class-k vertices adjacent to it (by columns). */
  method LinearCombinationBlocks(m: Matrix, n: nat, sl: Matrix, cat: Matrix)
    returns (out: Matrix)
    requires IsSquare(m, n) && HasClasses(m, n, 3)
    requires sl == SelfLoopBlock(m, n) && cat == Categories(m, n, 3)
    ensures IsGrid(out, n, 9)
    ensures forall i, k :: 0 <= i < n && 0 <= k < 3 ==>
      out[i][k] == m[i][i] * OneHot(ClassOf(m, n, i, 3).value, 3)[k]
    ensures forall j, k :: 0 <= j < n && 0 <= k < 3 ==>
      out[j][3 + k] == Mean(ClassMask(m, n, j, k), Diag(m, n)) &&
      out[j][6 + k] == Mean(ClassMask(m, n, j, k), Column(m, n, j))
  {
    var b := BinarizeMatrix(m, n, false);
    var e := OffDiagonalFormat(m, n);
    var c := CategoricalMatrix(cat, b, n, 3);
    assert c == ClassTensor(m, n);
    var v := DiagonalToMatrix(m, b, n, false);
    var count := InvertNonzero(ColCount(c, n, 3), n, 3);
    var vs := Scaled(count, ColAggregate(c, v, n, 3), n, 3);
    var es := Scaled(count, ColAggregate(c, e, n, 3), n, 3);
    out := Blocks(sl, vs, es, n);
    SelfLoopColumns(m, n, vs, es, 3);
    LinearCombinationOutput(m, n, count, out);
  }

  // ---------------------------------------------------------------------------
  // pdegree_weighted_nf
  // ---------------------------------------------------------------------------

  /** The 1-based class of the degree pair (c, d): its position when the pairs are listed
    * row by row for c, d in 1..nd. */
  function PairClass(c: int, d: int, nd: nat): int {
    (c - 1) * nd + d
  }

  /** Every pair of degrees in 1..nd gets a class in 1..nd*nd. */
  lemma {:induction false} PairClassRange(c: int, d: int, nd: nat)
    requires 1 <= c <= nd && 1 <= d <= nd
    ensures 1 <= PairClass(c, d, nd) <= nd * nd
  {
    assert (c - 1) * nd <= (nd - 1) * nd by {
      assert (nd - 1) * nd - (c - 1) * nd == (nd - c) * nd;
    }
  }

  lemma {:induction false} MulAtLeast(k: int, nd: nat)
    requires k >= 1
    ensures k * nd >= nd
    decreases k
  {
    if k > 1 {
      MulAtLeast(k - 1, nd);
      assert k * nd == (k - 1) * nd + nd;
    }
  }

  /** Distinct degree pairs get distinct classes. */
  lemma {:induction false} PairClassInjective(c: int, d: int, c2: int, d2: int, nd: nat)
    requires 1 <= c <= nd && 1 <= d <= nd && 1 <= c2 <= nd && 1 <= d2 <= nd
    requires PairClass(c, d, nd) == PairClass(c2, d2, nd)
    ensures c == c2 && d == d2
  {
    if c < c2 {
      MulAtLeast(c2 - c, nd);
    } else if c2 < c {
      MulAtLeast(c - c2, nd);
    }
  }

  /** degree_pairs and degree_dict: the pairs (c, d) for c, d in 1..nd, listed row by row,
    * and the dictionary from each pair to its 1-based position. */
  method DegreePairClasses(nd: nat) returns (pairs: seq<(int, int)>, dict: map<(int, int), int>)
    ensures |pairs| == nd * nd
    ensures forall t :: 0 <= t < |pairs| ==> pairs[t] in dict && dict[pairs[t]] == t + 1
    ensures forall c, d :: (c, d) in dict <==> 1 <= c <= nd && 1 <= d <= nd
    ensures forall c, d :: (c, d) in dict ==> dict[(c, d)] == PairClass(c, d, nd)
  {
    pairs := DegreePairs(nd);
    dict := map[];
    var t := 0;
    while t < |pairs|
      invariant 0 <= t <= |pairs|
      invariant forall s :: 0 <= s < t ==> pairs[s] in dict && dict[pairs[s]] == s + 1
      invariant forall c, d :: (c, d) in dict ==>
        1 <= c <= nd && 1 <= d <= nd && dict[(c, d)] == PairClass(c, d, nd)
    {
      dict := dict[pairs[t] := t + 1];
      t := t + 1;
    }
  }

  /** degree_pairs: the pairs (c, d) for c, d in 1..nd, row by row, so that the pair at
    * position t has class t + 1. */
  method DegreePairs(nd: nat) returns (pairs: seq<(int, int)>)
    ensures |pairs| == nd * nd
    ensures forall t :: 0 <= t < |pairs| ==>
      1 <= pairs[t].0 <= nd && 1 <= pairs[t].1 <= nd && PairClass(pairs[t].0, pairs[t].1, nd) == t + 1
    ensures forall c, d :: 1 <= c <= nd && 1 <= d <= nd ==> (c, d) in pairs
  {
    pairs := [];
    var c := 1;
    while c <= nd
      invariant 1 <= c <= nd + 1
      invariant |pairs| == (c - 1) * nd
      invariant forall t :: 0 <= t < |pairs| ==>
        1 <= pairs[t].0 <= nd && 1 <= pairs[t].1 <= nd && PairClass(pairs[t].0, pairs[t].1, nd) == t + 1
      invariant forall c', d' :: 1 <= c' < c && 1 <= d' <= nd ==> (c', d') in pairs
    {
      pairs := AppendRow(pairs, c, nd);
      c := c + 1;
    }
  }

  /** One row of degree_pairs: (c, 1) .. (c, nd) appended after the rows before c. */
  method AppendRow(prefix: seq<(int, int)>, c: int, nd: nat) returns (pairs: seq<(int, int)>)
    requires 1 <= c <= nd && |prefix| == (c - 1) * nd
    requires forall t :: 0 <= t < |prefix| ==>
      1 <= prefix[t].0 <= nd && 1 <= prefix[t].1 <= nd && PairClass(prefix[t].0, prefix[t].1, nd) == t + 1
    requires forall c', d' :: 1 <= c' < c && 1 <= d' <= nd ==> (c', d') in prefix
    ensures |pairs| == c * nd
    ensures forall t :: 0 <= t < |pairs| ==>
      1 <= pairs[t].0 <= nd && 1 <= pairs[t].1 <= nd && PairClass(pairs[t].0, pairs[t].1, nd) == t + 1
    ensures forall c', d' :: 1 <= c' <= c && 1 <= d' <= nd ==> (c', d') in pairs
  {
    pairs := prefix;
    var d := 1;
    while d <= nd
      invariant 1 <= d <= nd + 1
      invariant |pairs| == (c - 1) * nd + (d - 1)
      invariant forall t :: 0 <= t < |pairs| ==>
        1 <= pairs[t].0 <= nd && 1 <= pairs[t].1 <= nd && PairClass(pairs[t].0, pairs[t].1, nd) == t + 1
      invariant forall c', d' :: 1 <= d' <= nd && (1 <= c' < c || (c' == c && d' < d)) ==> (c', d') in pairs
    {
      pairs := pairs + [(c, d)];
      d := d + 1;
    }
  }

  /** Every vertex degree lies in 1..nd. */
  predicate DegreesWithin(m: Matrix, n: nat, nd: nat)
    requires IsSquare(m, n)
  {
    forall j :: 0 <= j < n ==> 1 <= Degree(m, n, j) <= nd
  }

  /** (i, j) is an edge whose degree pair (deg i, deg j) has class p + 1. */
  predicate PairEdge(m: Matrix, n: nat, nd: nat, i: nat, j: nat, p: nat)
    requires IsSquare(m, n) && i < n && j < n
  {
    j != i && m[i][j] != 0.0 && PairClass(Degree(m, n, i), Degree(m, n, j), nd) == p + 1
  }

  /** The edges of row i whose degree pair has class p + 1. */
  function PairMask(m: Matrix, n: nat, nd: nat, i: nat, p: nat): (mask: seq<bool>)
    requires IsSquare(m, n) && i < n
    ensures |mask| == n && forall j :: 0 <= j < n ==> mask[j] == PairEdge(m, n, nd, i, j, p)
  {
    seq(n, j requires 0 <= j < n => PairEdge(m, n, nd, i, j, p))
  }

  /** An entry of pair_matrix: 0 off the edges, the pair class (at least 1) on an edge. */
  lemma {:induction false} PairMatrixEntry(m: Matrix, n: nat, nd: nat, i: nat, j: nat)
    requires IsSquare(m, n) && DegreesWithin(m, n, nd) && i < n && j < n
    ensures var x := Binary(m, n, false)[i][j] * PairClass(Degree(m, n, i), Degree(m, n, j), nd) as real;
      (x == 0.0 <==> !(j != i && m[i][j] != 0.0)) &&
      (x != 0.0 ==> x.Floor == PairClass(Degree(m, n, i), Degree(m, n, j), nd))
  {
    PairClassRange(Degree(m, n, i), Degree(m, n, j), nd);
  }

  /** A row of w zeros ([0]*w). */
  function ZeroVector(w: nat): (v: seq<real>)
    ensures |v| == w
  {
    seq(w, _ => 0.0)
  }

  /** cat_pair_matrix: for every entry of pair_matrix, in row-major order, a zero vector for
    * 0 and otherwise row int(el) - 1 of np.eye(w). */
  method PairVectors(pm: Matrix, n: nat, w: nat) returns (cp: Tensor)
    requires IsSquare(pm, n)
    ensures IsTensor(cp, n, w)
    ensures forall a, j :: 0 <= a < n && 0 <= j < n ==>
      cp[a][j] == if pm[a][j] == 0.0 then ZeroVector(w) else OneHot(pm[a][j].Floor - 1, w)
  {
    cp := [];
    var i := 0;
    while i < n
      invariant 0 <= i <= n && |cp| == i
      invariant forall a :: 0 <= a < i ==> |cp[a]| == n
      invariant forall a, j :: 0 <= a < i && 0 <= j < n ==>
        cp[a][j] == if pm[a][j] == 0.0 then ZeroVector(w) else OneHot(pm[a][j].Floor - 1, w)
    {
      var row: seq<seq<real>> := [];
      var j := 0;
      while j < n
        invariant 0 <= j <= n && |row| == j
        invariant forall c :: 0 <= c < j ==>
          row[c] == if pm[i][c] == 0.0 then ZeroVector(w) else OneHot(pm[i][c].Floor - 1, w)
      {
        var el := pm[i][j];
        if el == 0.0 {
          row := row + [ZeroVector(w)];
        } else {
          row := row + [OneHot(el.Floor - 1, w)];
        }
        j := j + 1;
      }
      cp := cp + [row];
      i := i + 1;
    }
  }

  /** cat_pair_matrix built from pair_matrix, the binary adjacency weighted by the class of
    * each entry's degree pair: entry (i, j) is the indicator vector of the class of its edge. */
  method PairTensor(m: Matrix, n: nat, nd: nat, dict: map<(int, int), int>) returns (cp: Tensor)
    requires IsSquare(m, n) && DegreesWithin(m, n, nd)
    requires forall c, d :: (c, d) in dict <==> 1 <= c <= nd && 1 <= d <= nd
    requires forall c, d :: (c, d) in dict ==> dict[(c, d)] == PairClass(c, d, nd)
    ensures IsTensor(cp, n, nd * nd)
    ensures forall a, j, q :: 0 <= a < n && 0 <= j < n && 0 <= q < nd * nd ==>
      cp[a][j][q] == if PairEdge(m, n, nd, a, j, q) then 1.0 else 0.0
  {
    var b := BinarizeMatrix(m, n, false);
    var pm := seq(n, i requires 0 <= i < n =>
      seq(n, j requires 0 <= j < n => b[i][j] * dict[(Degree(m, n, i), Degree(m, n, j))] as real));
    cp := PairVectors(pm, n, nd * nd);
    forall a, j | 0 <= a < n && 0 <= j < n
      ensures forall q :: 0 <= q < nd * nd ==> cp[a][j][q] == if PairEdge(m, n, nd, a, j, q) then 1.0 else 0.0
    {
      var cls := PairClass(Degree(m, n, a), Degree(m, n, j), nd);
      assert dict[(Degree(m, n, a), Degree(m, n, j))] == cls;
      assert pm[a][j] == b[a][j] * cls as real;
      PairVector(m, n, nd, a, j, pm[a][j], cp[a][j]);
    }
  }

  /** The vector appended for entry (i, j) of pair_matrix is the indicator of its class. */
  lemma {:induction false} PairVector(m: Matrix, n: nat, nd: nat, i: nat, j: nat, el: real, vec: seq<real>)
    requires IsSquare(m, n) && DegreesWithin(m, n, nd) && i < n && j < n
    requires el == Binary(m, n, false)[i][j] * PairClass(Degree(m, n, i), Degree(m, n, j), nd) as real
    requires vec == if el == 0.0 then ZeroVector(nd * nd) else OneHot(el.Floor - 1, nd * nd)
    ensures |vec| == nd * nd
    ensures forall p :: 0 <= p < nd * nd ==> vec[p] == if PairEdge(m, n, nd, i, j, p) then 1.0 else 0.0
  {
    PairMatrixEntry(m, n, nd, i, j);
  }

  /** The second block of pdegree_weighted_nf at (i, p): the mean self-loop weight of the
    * neighbours j of i whose degree pair has class p + 1. */
  lemma {:induction false} PairNeighbourBlock(m: Matrix, n: nat, nd: nat, cp: Tensor, i: nat, p: nat)
    requires IsSquare(m, n) && IsTensor(cp, n, nd * nd) && i < n && p < nd * nd
    requires forall j :: 0 <= j < n ==> cp[i][j][p] == if PairEdge(m, n, nd, i, j, p) then 1.0 else 0.0
    ensures Normalised(RowCount(cp, n, nd * nd)[i][p],
        RowAggregate(cp, DiagonalToMatrix(m, Binary(m, n, false), n, true), n, nd * nd)[i][p])
      == Mean(PairMask(m, n, nd, i, p), Diag(m, n))
  {
    var mask := PairMask(m, n, nd, i, p);
    var v := DiagonalToMatrix(m, Binary(m, n, false), n, true);
    forall j | 0 <= j < n && mask[j] ensures v[i][j] == Diag(m, n)[j] {
      DiagonalToMatrixOnEdges(m, n, i, j);
    }
    RowBlockMean(cp, v, n, nd * nd, i, p, mask, Diag(m, n));
  }

  /** The third block of pdegree_weighted_nf at (i, p): the mean weight of the edges of i
    * whose degree pair has class p + 1. */
  lemma {:induction false} PairEdgeBlock(m: Matrix, n: nat, nd: nat, cp: Tensor, i: nat, p: nat)
    requires IsSquare(m, n) && IsTensor(cp, n, nd * nd) && i < n && p < nd * nd
    requires forall j :: 0 <= j < n ==> cp[i][j][p] == if PairEdge(m, n, nd, i, j, p) then 1.0 else 0.0
    ensures Normalised(RowCount(cp, n, nd * nd)[i][p], RowAggregate(cp, OffDiagonalFormat(m, n), n, nd * nd)[i][p])
      == Mean(PairMask(m, n, nd, i, p), m[i])
  {
    var mask := PairMask(m, n, nd, i, p);
    var e := OffDiagonalFormat(m, n);
    forall j | 0 <= j < n && mask[j] ensures e[i][j] == m[i][j] {
    }
    RowBlockMean(cp, e, n, nd * nd, i, p, mask, m[i]);
  }

  /** The output of pdegree_weighted_nf, given the pair tensor and its inverted counts. */
  lemma {:induction false} PairOutput(m: Matrix, n: nat, nd: nat, cp: Tensor, count: Matrix, r: Matrix)
    requires IsSquare(m, n) && HasClasses(m, n, 3) && IsTensor(cp, n, nd * nd) && IsGrid(count, n, nd * nd)
    requires forall i, j, p :: 0 <= i < n && 0 <= j < n && 0 <= p < nd * nd ==>
      cp[i][j][p] == if PairEdge(m, n, nd, i, j, p) then 1.0 else 0.0
    requires forall i, p :: 0 <= i < n && 0 <= p < nd * nd ==>
      count[i][p] == Inv(RowCount(cp, n, nd * nd)[i][p])
    requires r == Blocks(SelfLoopBlock(m, n),
      Scaled(count, RowAggregate(cp, DiagonalToMatrix(m, Binary(m, n, false), n, true), n, nd * nd), n, nd * nd),
      Scaled(count, RowAggregate(cp, OffDiagonalFormat(m, n), n, nd * nd), n, nd * nd), n)
    ensures forall i, p :: 0 <= i < n && 0 <= p < nd * nd ==>
      r[i][3 + p] == Mean(PairMask(m, n, nd, i, p), Diag(m, n)) &&
      r[i][3 + nd * nd + p] == Mean(PairMask(m, n, nd, i, p), m[i])
  {
    var w := nd * nd;
    forall i, p | 0 <= i < n && 0 <= p < w
      ensures r[i][3 + p] == Mean(PairMask(m, n, nd, i, p), Diag(m, n))
      ensures r[i][3 + w + p] == Mean(PairMask(m, n, nd, i, p), m[i])
    {
      var vs := RowAggregate(cp, DiagonalToMatrix(m, Binary(m, n, false), n, true), n, w);
      var es := RowAggregate(cp, OffDiagonalFormat(m, n), n, w);
      ScaledBlocks(SelfLoopBlock(m, n), count, vs, es, n, w, i, p, RowCount(cp, n, w)[i][p]);
      PairNeighbourBlock(m, n, nd, cp, i, p);
      PairEdgeBlock(m, n, nd, cp, i, p);
    }
  }

  /** pdegree_weighted_nf: the self-loop-weighted class rows, then for every degree-pair
    * class the mean self-loop weight of, and the mean edge weight towards, the neighbours in
    * that class. A degree above 3 fails the class rows with IndexError; otherwise any degree
    * outside 1..nd fails the dictionary lookup with KeyError, edge or not. */
  method PDegreeWeightedNF(m: Matrix, n: nat, nd: nat) returns (r: Result<Matrix>)
    requires IsSquare(m, n)
    ensures r.Err? <==> !HasClasses(m, n, 3) || !DegreesWithin(m, n, nd)
    ensures r.Err? ==> r.error == if HasClasses(m, n, 3) then KeyError else IndexError
    ensures r.Ok? ==> IsGrid(r.value, n, 3 + 2 * (nd * nd))
    ensures r.Ok? ==> forall i, k :: 0 <= i < n && 0 <= k < 3 ==>
      r.value[i][k] == m[i][i] * OneHot(ClassOf(m, n, i, 3).value, 3)[k]
    ensures r.Ok? ==> forall i, p :: 0 <= i < n && 0 <= p < nd * nd ==>
      r.value[i][3 + p] == Mean(PairMask(m, n, nd, i, p), Diag(m, n)) &&
      r.value[i][3 + nd * nd + p] == Mean(PairMask(m, n, nd, i, p), m[i])
  {
    var cat := VDegreeNF(m, n, true, 3);
    if cat.Err? {
      return Err(cat.error);
    }
    var sl := SelfLoopBlock(m, n);
    var pairs, dict := DegreePairClasses(nd);
    var w := |pairs|;
    // The lookups of every pair (deg i, deg j), edge or not.
    if !(forall i, j :: 0 <= i < n && 0 <= j < n ==> (Degree(m, n, i), Degree(m, n, j)) in dict) {
      assert !DegreesWithin(m, n, nd);
      return Err(KeyError);
    }
    assert DegreesWithin(m, n, nd) by {
      forall j | 0 <= j < n ensures 1 <= Degree(m, n, j) <= nd {
        assert (Degree(m, n, j), Degree(m, n, j)) in dict;
      }
    }
    var cp := PairTensor(m, n, nd, dict);
    var b := Binary(m, n, false);
    var v := DiagonalToMatrix(m, b, n, true);
    var e := OffDiagonalFormat(m, n);
    var count := InvertNonzero(RowCount(cp, n, w), n, w);
    var vs := Scaled(count, RowAggregate(cp, v, n, w), n, w);
    var es := Scaled(count, RowAggregate(cp, e, n, w), n, w);
    r := Ok(Blocks(sl, vs, es, n));
    SelfLoopColumns(m, n, vs, es, w);
    PairOutput(m, n, nd, cp, count, r.value);
  }
}
