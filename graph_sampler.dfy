/**
 * The graph sampler of the data generators: the vertex-type label vectors of a
 * structure, simultaneous row/column permutations of a matrix, and the sampling of
 * weights onto a 0/1 connectivity template given as an upper-triangle ("triu")
 * vector. The sampler's only state, its number of sites, is the parameter n; the
 * draws of np.random.uniform are parameters.
 */
module GraphSampler {
  import opened Wrappers
  import opened Matrices

  // ---------------------------------------------------------------------------
  // generate_diagonal_vector
  // ---------------------------------------------------------------------------

  /** A type count as a multiplicity: [v] * k is empty when k is not positive. */
  function Clamp(k: int): nat {
    if k > 0 then k else 0
  }

  /** [v] * k in Python. */
  function Repeat(v: int, k: int): (s: seq<int>)
    ensures |s| == Clamp(k)
    decreases Clamp(k)
  {
    if k <= 0 then [] else Repeat(v, k - 1) + [v]
  }

  lemma {:induction false} RepeatMultiset(v: int, k: int)
    ensures multiset(Repeat(v, k)) == multiset{}[v := Clamp(k)]
    decreases Clamp(k)
  {
    if k > 0 {
      RepeatMultiset(v, k - 1);
      assert Repeat(v, k) == Repeat(v, k - 1) + [v];
    }
  }

  /** The labels of the starting diagonal: type idx + 1 occurs counts[idx] times. */
  function LabelMultiset(counts: seq<int>): multiset<int>
  {
    if counts == [] then multiset{}
    else LabelMultiset(counts[..|counts| - 1])[|counts| := Clamp(counts[|counts| - 1])]
  }

  /**
   * Label v occurs counts[v - 1] times, or not at all when that count is zero or
   * negative; no other value occurs.
   */
  lemma {:induction false} LabelMultisetAt(counts: seq<int>, v: int)
    ensures LabelMultiset(counts)[v] == if 1 <= v <= |counts| then Clamp(counts[v - 1]) else 0
  {
    if counts != [] {
      var init := counts[..|counts| - 1];
      LabelMultisetAt(init, v);
      if v != |counts| && 1 <= v <= |counts| {
        assert counts[v - 1] == init[v - 1];
      }
    }
  }

  /** Every distinct arrangement of the multiset m as a list. */
  function Rearrangements(m: multiset<int>): set<seq<int>>
    decreases |m|
  {
    if m == multiset{} then {[]}
    else set x, p | x in m && p in Rearrangements(m - multiset{x}) :: [x] + p
  }

  /** A non-empty multiset is arranged by one of its elements followed by an arrangement of the rest. */
  lemma RearrangementsHead(m: multiset<int>, p: seq<int>)
    requires m != multiset{} && p in Rearrangements(m)
    ensures p != [] && p[0] in m && p[1..] in Rearrangements(m - multiset{p[0]})
  {
    var x, q :| x in m && q in Rearrangements(m - multiset{x}) && p == [x] + q;
    assert p[0] == x && p[1..] == q;
  }

  /** Every arrangement holds the elements of m with their multiplicities. */
  lemma {:induction false} RearrangementMultiset(m: multiset<int>, p: seq<int>)
    requires p in Rearrangements(m)
    ensures multiset(p) == m
    decreases |p|
  {
    if m != multiset{} {
      RearrangementsHead(m, p);
      var x, q := p[0], p[1..];
      RearrangementMultiset(m - multiset{x}, q);
      assert p == [x] + q;
      assert multiset(p) == multiset{x} + multiset(q);
    }
  }

  /** Every list holding the elements of m with their multiplicities is an arrangement. */
  lemma {:induction false} RearrangementComplete(m: multiset<int>, p: seq<int>)
    requires multiset(p) == m
    ensures p in Rearrangements(m)
    decreases |p|
  {
    assert |multiset(p)| == |p|;
    if p != [] {
      var x, q := p[0], p[1..];
      assert p == [x] + q;
      assert multiset(p) == multiset{x} + multiset(q);
      assert x in m;
      RearrangementComplete(m - multiset{x}, q);
    }
  }

  /** The arrangements are exactly the lists whose elements, with multiplicity, are m. */
  lemma RearrangementsExact(m: multiset<int>)
    ensures forall p :: p in Rearrangements(m) <==> multiset(p) == m
  {
    forall p
      ensures p in Rearrangements(m) <==> multiset(p) == m
    {
      if p in Rearrangements(m) {
        RearrangementMultiset(m, p);
      }
      if multiset(p) == m {
        RearrangementComplete(m, p);
      }
    }
  }

  /**
   * Lays out the starting diagonal [1] * counts[0] + [2] * counts[1] + ... and returns
   * the set of its distinct permutations. A set has no duplicates and no order, as the
   * Python set the lists come from.
   */
  method GenerateDiagonalVector(counts: seq<int>) returns (diagonals: set<seq<int>>)
    ensures forall p :: p in diagonals <==> multiset(p) == LabelMultiset(counts)
  {
    var labels: seq<int> := [];
    var idx := 0;
    while idx < |counts|
      invariant 0 <= idx <= |counts|
      invariant multiset(labels) == LabelMultiset(counts[..idx])
    {
      LabelMultisetAt(counts[..idx], idx + 1);
      RepeatMultiset(idx + 1, counts[idx]);
      assert counts[..idx + 1][..idx] == counts[..idx];
      labels := labels + Repeat(idx + 1, counts[idx]);
      idx := idx + 1;
    }
    assert counts[..idx] == counts;
    diagonals := Rearrangements(multiset(labels));
    RearrangementsExact(multiset(labels));
  }

  /** A list holding 1, 1, 2, 2 is one of their six orders. */
  lemma FourLabels(p: seq<int>)
    requires multiset(p) == multiset{1, 1, 2, 2}
    ensures p in {[1, 1, 2, 2], [1, 2, 1, 2], [1, 2, 2, 1], [2, 1, 1, 2], [2, 1, 2, 1], [2, 2, 1, 1]}
  {
    assert |multiset(p)| == |p| == 4;
    assert p == [p[0], p[1], p[2], p[3]];
    assert p[0] in multiset(p) && p[1] in multiset(p) && p[2] in multiset(p) && p[3] in multiset(p);
    assert multiset(p) == multiset{p[0], p[1], p[2], p[3]};
  }

  /** Two types of two vertices each give the six arrangements of [1, 1, 2, 2]. */
  lemma TwoTypesOfTwo()
    ensures Rearrangements(LabelMultiset([2, 2])) ==
      {[1, 1, 2, 2], [1, 2, 1, 2], [1, 2, 2, 1], [2, 1, 1, 2], [2, 1, 2, 1], [2, 2, 1, 1]}
    ensures |Rearrangements(LabelMultiset([2, 2]))| == 6
  {
    var m := LabelMultiset([2, 2]);
    assert m == multiset{1, 1, 2, 2} by {
      forall v ensures m[v] == multiset{1, 1, 2, 2}[v] {
        LabelMultisetAt([2, 2], v);
      }
    }
    ArrangementsOf1122(m);
    SixDistinct();
  }

  lemma ArrangementsOf1122(m: multiset<int>)
    requires m == multiset{1, 1, 2, 2}
    ensures Rearrangements(m) ==
      {[1, 1, 2, 2], [1, 2, 1, 2], [1, 2, 2, 1], [2, 1, 1, 2], [2, 1, 2, 1], [2, 2, 1, 1]}
  {
    ArrangementsWithin(m);
    ArrangementsCover(m);
  }

  lemma ArrangementsWithin(m: multiset<int>)
    requires m == multiset{1, 1, 2, 2}
    ensures forall p :: p in Rearrangements(m) ==>
      p in {[1, 1, 2, 2], [1, 2, 1, 2], [1, 2, 2, 1], [2, 1, 1, 2], [2, 1, 2, 1], [2, 2, 1, 1]}
  {
    forall p | p in Rearrangements(m)
      ensures p in {[1, 1, 2, 2], [1, 2, 1, 2], [1, 2, 2, 1], [2, 1, 1, 2], [2, 1, 2, 1], [2, 2, 1, 1]}
    {
      RearrangementMultiset(m, p);
      FourLabels(p);
    }
  }

  lemma ArrangementsCover(m: multiset<int>)
    requires m == multiset{1, 1, 2, 2}
    ensures [1, 1, 2, 2] in Rearrangements(m) && [1, 2, 1, 2] in Rearrangements(m)
    ensures [1, 2, 2, 1] in Rearrangements(m) && [2, 1, 1, 2] in Rearrangements(m)
    ensures [2, 1, 2, 1] in Rearrangements(m) && [2, 2, 1, 1] in Rearrangements(m)
  {
    SixOrders(m);
    RearrangementComplete(m, [1, 1, 2, 2]);
    RearrangementComplete(m, [1, 2, 1, 2]);
    RearrangementComplete(m, [1, 2, 2, 1]);
    RearrangementComplete(m, [2, 1, 1, 2]);
    RearrangementComplete(m, [2, 1, 2, 1]);
    RearrangementComplete(m, [2, 2, 1, 1]);
  }

  /** Each of the six orders holds 1, 1, 2, 2. */
  lemma SixOrders(m: multiset<int>)
    requires m == multiset{1, 1, 2, 2}
    ensures multiset([1, 1, 2, 2]) == m && multiset([1, 2, 1, 2]) == m && multiset([1, 2, 2, 1]) == m
    ensures multiset([2, 1, 1, 2]) == m && multiset([2, 1, 2, 1]) == m && multiset([2, 2, 1, 1]) == m
  {
    SixDisplays(m);
    MultisetOfFour(1, 1, 2, 2);
    MultisetOfFour(1, 2, 1, 2);
    MultisetOfFour(1, 2, 2, 1);
    MultisetOfFour(2, 1, 1, 2);
    MultisetOfFour(2, 1, 2, 1);
    MultisetOfFour(2, 2, 1, 1);
  }

  lemma SixDisplays(m: multiset<int>)
    requires m == multiset{1, 1, 2, 2}
    ensures multiset{1, 1, 2, 2} == m && multiset{1, 2, 1, 2} == m && multiset{1, 2, 2, 1} == m
    ensures multiset{2, 1, 1, 2} == m && multiset{2, 1, 2, 1} == m && multiset{2, 2, 1, 1} == m
  {
  }

  lemma MultisetOfFour(a: int, b: int, c: int, d: int)
    ensures multiset([a, b, c, d]) == multiset{a, b, c, d}
  {
  }

  lemma SixDistinct()
    ensures |{[1, 1, 2, 2], [1, 2, 1, 2], [1, 2, 2, 1], [2, 1, 1, 2], [2, 1, 2, 1], [2, 2, 1, 1]}| == 6
  {
    var a, b, c, d, e, f := [1, 1, 2, 2], [1, 2, 1, 2], [1, 2, 2, 1], [2, 1, 1, 2], [2, 1, 2, 1], [2, 2, 1, 1];
    assert a[1] != b[1] && a[1] != c[1] && a[0] != d[0] && a[0] != e[0] && a[0] != f[0];
    assert b[2] != c[2] && b[0] != d[0] && b[0] != e[0] && b[0] != f[0];
    assert c[0] != d[0] && c[0] != e[0] && c[0] != f[0];
    assert d[2] != e[2] && d[1] != f[1];
    assert e[2] != f[2];
    assert |{a}| == 1;
    assert |{a, b}| == 2;
    assert |{a, b, c}| == 3;
    assert |{a, b, c, d}| == 4;
    assert |{a, b, c, d, e}| == 5;
  }

  // ---------------------------------------------------------------------------
  // convert_triu_to_mat
  // ---------------------------------------------------------------------------

  /**
   * The symmetric n-by-n matrix of a triu vector; a vector that numpy cannot assign
   * to the n(n+1)/2 upper-triangle positions is a ValueError.
   */
  method ConvertTriuToMat(n: nat, t: seq<real>) returns (r: Result<Matrix>)
    ensures r.Ok? <==> Assignable(n, t)
    ensures r.Err? ==> r.error == ValueError
    ensures r.Ok? ==> IsSquare(r.value, n) && IsSymmetric(r.value, n)
    ensures r.Ok? ==> forall i, j :: 0 <= i <= j < n ==>
      r.value[i][j] == TriuValue(n, t, TriuIndex(n, i, j))
    ensures r.Ok? && |t| == TriuLen(n) ==> ToTriu(r.value, n) == t
  {
    r := TriuToMatrix(n, t);
    if r.Ok? {
      FromTriuSymmetric(n, t);
      if |t| == TriuLen(n) {
        TriuRoundTrip(n, t);
      }
    } else {
      r := Err(ValueError);
    }
  }

  // ---------------------------------------------------------------------------
  // permutate_matrix
  // ---------------------------------------------------------------------------

  /** A numpy array: every row has c entries. */
  predicate IsRect(m: Matrix, c: nat) {
    forall i :: 0 <= i < |m| ==> |m[i]| == c
  }

  /** np.take accepts every index of p along an axis of length len. */
  predicate ValidIndices(p: seq<int>, len: nat) {
    forall a :: 0 <= a < |p| ==> PyIndex(p[a], len).Some?
  }

  /** np.take(np.take(m, p, axis=0), p, axis=1). */
  function Permuted(m: Matrix, c: nat, p: seq<int>): (out: Matrix)
    requires IsRect(m, c) && ValidIndices(p, |m|) && ValidIndices(p, c)
    ensures IsSquare(out, |p|)
    ensures forall a, b :: 0 <= a < |p| && 0 <= b < |p| ==>
      out[a][b] == m[PyIndex(p[a], |m|).value][PyIndex(p[b], c).value]
  {
    seq(|p|, a requires 0 <= a < |p| =>
      seq(|p|, b requires 0 <= b < |p| => m[PyIndex(p[a], |m|).value][PyIndex(p[b], c).value]))
  }

  /**
   * One permuted matrix per permutation, in order. An index outside the matrix raises
   * IndexError (negative indices count from the end, as np.take does).
   */
  method PermutateMatrix(m: Matrix, c: nat, perms: seq<seq<int>>) returns (r: Result<seq<Matrix>>)
    requires IsRect(m, c)
    ensures r.Ok? <==> forall k :: 0 <= k < |perms| ==> ValidIndices(perms[k], |m|) && ValidIndices(perms[k], c)
    ensures r.Err? ==> r.error == IndexError
    ensures r.Ok? ==> |r.value| == |perms|
    ensures r.Ok? ==> forall k :: 0 <= k < |perms| ==> r.value[k] == Permuted(m, c, perms[k])
  {
    var out: seq<Matrix> := [];
    for k := 0 to |perms|
      invariant |out| == k
      invariant forall l :: 0 <= l < k ==>
        ValidIndices(perms[l], |m|) && ValidIndices(perms[l], c) && out[l] == Permuted(m, c, perms[l])
    {
      if !(ValidIndices(perms[k], |m|) && ValidIndices(perms[k], c)) {
        return Err(IndexError);
      }
      out := out + [Permuted(m, c, perms[k])];
    }
    return Ok(out);
  }

  /** Permuting rows and columns alike keeps a symmetric matrix symmetric. */
  lemma PermutedSymmetric(m: Matrix, n: nat, p: seq<int>)
    requires IsSquare(m, n) && IsSymmetric(m, n) && ValidIndices(p, n)
    ensures IsSymmetric(Permuted(m, n, p), |p|)
  {
  }

  /** The identity permutation returns the matrix unchanged. */
  lemma PermutedIdentity(m: Matrix, n: nat)
    requires IsSquare(m, n)
    ensures ValidIndices(seq(n, i => i), n) && Permuted(m, n, seq(n, i => i)) == m
  {
    var id := seq(n, i => i);
    assert ValidIndices(id, n);
    MatrixExt(Permuted(m, n, id), m, n);
  }

  /** p after q: the index that q picks out of the result of p, as an index of m. */
  function Compose(p: seq<int>, q: seq<int>): (pq: seq<int>)
    requires ValidIndices(q, |p|)
    ensures |pq| == |q|
  {
    seq(|q|, b requires 0 <= b < |q| => p[PyIndex(q[b], |p|).value])
  }

  /** Permuting by p and then by q is permuting once by the composed index list. */
  lemma {:induction false} PermutedCompose(m: Matrix, n: nat, p: seq<int>, q: seq<int>)
    requires IsSquare(m, n) && ValidIndices(p, n) && ValidIndices(q, |p|)
    ensures ValidIndices(Compose(p, q), n)
    ensures Permuted(Permuted(m, n, p), |p|, q) == Permuted(m, n, Compose(p, q))
  {
    var pq := Compose(p, q);
    assert ValidIndices(pq, n) by {
      forall b | 0 <= b < |q|
        ensures PyIndex(pq[b], n).Some?
      {
        assert pq[b] == p[PyIndex(q[b], |p|).value];
      }
    }
    var lhs := Permuted(Permuted(m, n, p), |p|, q);
    var rhs := Permuted(m, n, pq);
    forall a, b | 0 <= a < |q| && 0 <= b < |q|
      ensures lhs[a][b] == rhs[a][b]
    {
      assert pq[a] == p[PyIndex(q[a], |p|).value];
      assert pq[b] == p[PyIndex(q[b], |p|).value];
    }
    MatrixExt(lhs, rhs, |q|);
  }

  /** Permuting by p and then by its inverse q gives the original matrix back. */
  lemma {:induction false} PermutedInverse(m: Matrix, n: nat, p: seq<int>, q: seq<int>)
    requires IsSquare(m, n) && |p| == n && |q| == n
    requires forall a :: 0 <= a < n ==> 0 <= p[a] < n && 0 <= q[a] < n
    requires forall b :: 0 <= b < n ==> p[q[b]] == b
    ensures ValidIndices(p, n) && ValidIndices(q, n)
    ensures Permuted(Permuted(m, n, p), n, q) == m
  {
    assert ValidIndices(p, n) && ValidIndices(q, n);
    PermutedCompose(m, n, p, q);
    var pq := Compose(p, q);
    assert pq == seq(n, i => i) by {
      forall b | 0 <= b < n
        ensures pq[b] == b
      {
      }
    }
    PermutedIdentity(m, n);
  }

  // ---------------------------------------------------------------------------
  // Shared steps of both samplers
  // ---------------------------------------------------------------------------

  /** np.where(m == x, v, m): every entry equal to x becomes v. */
  function Where(m: Matrix, n: nat, x: real, v: real): (w: Matrix)
    requires IsSquare(m, n)
    ensures IsSquare(w, n)
  {
    seq(n, i requires 0 <= i < n => seq(n, j requires 0 <= j < n => if m[i][j] == x then v else m[i][j]))
  }

  /** The matrix m with its diagonal replaced by vals. */
  function DiagonalSet(m: Matrix, n: nat, vals: seq<real>): (s: Matrix)
    requires IsSquare(m, n) && |vals| == n
    ensures IsSquare(s, n)
  {
    seq(n, i requires 0 <= i < n => seq(n, j requires 0 <= j < n => if i == j then vals[i] else m[i][j]))
  }

  /** m[np.diag_indices(n)] = vals, written entry by entry on a copy of m. */
  method FillDiagonal(m: Matrix, n: nat, vals: seq<real>) returns (s: Matrix)
    requires IsSquare(m, n) && |vals| == n
    ensures s == DiagonalSet(m, n, vals)
  {
    s := m;
    for i := 0 to n
      invariant IsSquare(s, n)
      invariant forall x, y :: 0 <= x < n && 0 <= y < n ==>
        s[x][y] == if x == y && x < i then vals[x] else m[x][y]
    {
      s := s[i := s[i][i := vals[i]]];
    }
    MatrixExt(s, DiagonalSet(m, n, vals), n);
  }

  /** The constant vector [v] * n. */
  function Constant(n: nat, v: real): (c: seq<real>)
    ensures |c| == n
  {
    seq(n, _ => v)
  }

  // ---------------------------------------------------------------------------
  // sample_homogeneous_matrix
  // ---------------------------------------------------------------------------

  /** One homogeneous sample: template ones become o, then the diagonal becomes d. */
  function HomogeneousSample(a: Matrix, n: nat, d: real, o: real): (s: Matrix)
    requires IsSquare(a, n)
    ensures IsSquare(s, n)
  {
    DiagonalSet(Where(a, n, 1.0, o), n, Constant(n, d))
  }

  /**
   * Sample k pairs the k-th diagonal draw with the k-th off-diagonal draw and yields
   * a triu vector. A negative number of samples (a negative draw shape) and a template
   * that does not fit n sites are ValueErrors.
   */
  method SampleHomogeneousMatrix(n: nat, t: seq<real>, samples: int, diagDraws: seq<real>, offDraws: seq<real>)
    returns (r: Result<seq<seq<real>>>)
    requires |diagDraws| == |offDraws| && (samples >= 0 ==> |diagDraws| == samples)
    ensures r.Ok? <==> samples >= 0 && Assignable(n, t)
    ensures r.Err? ==> r.error == ValueError
    ensures r.Ok? ==> |r.value| == |diagDraws|
    ensures r.Ok? ==> forall k :: 0 <= k < |diagDraws| ==>
      r.value[k] == ToTriu(HomogeneousSample(FromTriu(n, t), n, diagDraws[k], offDraws[k]), n)
  {
    if samples < 0 {
      return Err(ValueError);
    }
    var adjacency := ConvertTriuToMat(n, t);
    if adjacency.Err? {
      return Err(ValueError);
    }
    var a := adjacency.value;
    assert a == FromTriu(n, t) by {
      MatrixExt(a, FromTriu(n, t), n);
    }
    var samples: seq<seq<real>> := [];
    for k := 0 to |diagDraws|
      invariant |samples| == k
      invariant forall l :: 0 <= l < k ==>
        samples[l] == ToTriu(HomogeneousSample(a, n, diagDraws[l], offDraws[l]), n)
    {
      var s := Where(a, n, 1.0, offDraws[k]);
      s := FillDiagonal(s, n, Constant(n, diagDraws[k]));
      samples := samples + [ToTriu(s, n)];
    }
    return Ok(samples);
  }

  /**
   * Read in the triu vector, a homogeneous sample holds d on every diagonal position
   * and o on every off-diagonal position where the template holds 1; every other
   * template value is kept.
   */
  lemma HomogeneousTriu(n: nat, t: seq<real>, d: real, o: real)
    requires Assignable(n, t)
    ensures |ToTriu(HomogeneousSample(FromTriu(n, t), n, d, o), n)| == TriuLen(n)
    ensures forall i, j :: 0 <= i <= j < n ==>
      ToTriu(HomogeneousSample(FromTriu(n, t), n, d, o), n)[TriuIndex(n, i, j)] ==
        if i == j then d
        else if TriuValue(n, t, TriuIndex(n, i, j)) == 1.0 then o
        else TriuValue(n, t, TriuIndex(n, i, j))
  {
    ToTriuAt(HomogeneousSample(FromTriu(n, t), n, d, o), n);
  }

  // ---------------------------------------------------------------------------
  // sample_inhomogeneous_matrix
  // ---------------------------------------------------------------------------

  /** max(labels). */
  function MaxLabel(labels: seq<int>): int
    requires |labels| > 0
  {
    if |labels| == 1 then labels[0]
    else
      var k := MaxLabel(labels[..|labels| - 1]);
      if labels[|labels| - 1] > k then labels[|labels| - 1] else k
  }

  /** MaxLabel bounds every label and is one of them. */
  lemma {:induction false} MaxLabelIsMax(labels: seq<int>)
    requires |labels| > 0
    ensures forall i :: 0 <= i < |labels| ==> labels[i] <= MaxLabel(labels)
    ensures exists i :: 0 <= i < |labels| && labels[i] == MaxLabel(labels)
  {
    if |labels| == 1 {
      assert labels[0] == MaxLabel(labels);
    } else {
      var init := labels[..|labels| - 1];
      MaxLabelIsMax(init);
      assert forall i :: 0 <= i < |init| ==> init[i] == labels[i];
      if labels[|labels| - 1] <= MaxLabel(init) {
        var w :| 0 <= w < |init| && init[w] == MaxLabel(init);
        assert labels[w] == MaxLabel(labels);
      } else {
        assert labels[|labels| - 1] == MaxLabel(labels);
      }
    }
  }

  /**
   * The substitutions np.where(x == idx + 1, draw[idx][s], x) for idx = 0 .. k - 1,
   * applied in turn to one entry; draw(idx, s) is the draw of type idx + 1 in sample s.
   */
  function Substitute(x: real, k: nat, draw: (nat, nat) -> real, s: nat): real
  {
    if k == 0 then x
    else
      var y := Substitute(x, k - 1, draw, s);
      if y == k as real then draw(k - 1, s) else y
  }

  /** x is one of the label values 1 .. k. */
  predicate IsLabel(x: real, k: int) {
    1.0 <= x <= k as real && x.Floor as real == x
  }

  /** No draw of sample s is itself a label value 1 .. k. */
  predicate DrawsAvoidLabels(draw: (nat, nat) -> real, k: int, s: nat) {
    forall idx: nat :: idx < k ==> !IsLabel(draw(idx, s), k)
  }

  /**
   * When no draw equals a label value, the substitutions replace a label l by the
   * draw of type l and leave every other value alone.
   */
  lemma {:induction false} SubstituteLabel(x: real, k: nat, K: nat, draw: (nat, nat) -> real, s: nat)
    requires k <= K && DrawsAvoidLabels(draw, K, s)
    ensures Substitute(x, k, draw, s) == if IsLabel(x, k) then draw(x.Floor - 1, s) else x
  {
    if k > 0 {
      SubstituteLabel(x, k - 1, K, draw, s);
      var y := Substitute(x, k - 1, draw, s);
      if IsLabel(x, k - 1) {
        assert y == draw(x.Floor - 1, s);
        assert !IsLabel(y, K);
        assert y != k as real;
      } else if x == k as real {
        assert y == x && IsLabel(x, k) && x.Floor == k;
      } else {
        assert y == x && !IsLabel(x, k);
      }
    }
  }

  /** np.multiply(adjacency, row_matrix): entry (i, j) is weighted by the label of j. */
  function LabelledTemplate(a: Matrix, n: nat, labels: seq<int>): (l: Matrix)
    requires IsSquare(a, n) && |labels| == n
    ensures IsSquare(l, n)
  {
    seq(n, i requires 0 <= i < n => seq(n, j requires 0 <= j < n => a[i][j] * labels[j] as real))
  }

  /** Every entry after the first k substitutions of sample s. */
  function Substituted(m: Matrix, n: nat, k: nat, draw: (nat, nat) -> real, s: nat): (w: Matrix)
    requires IsSquare(m, n)
    ensures IsSquare(w, n)
  {
    seq(n, i requires 0 <= i < n => seq(n, j requires 0 <= j < n => Substitute(m[i][j], k, draw, s)))
  }

  /** Every label after the first k substitutions of sample s. */
  function SubstitutedLabels(labels: seq<int>, k: nat, draw: (nat, nat) -> real, s: nat): (v: seq<real>)
    ensures |v| == |labels|
  {
    seq(|labels|, i requires 0 <= i < |labels| => Substitute(labels[i] as real, k, draw, s))
  }

  /** 0.5 * (m + m.T). */
  function Symmetrised(m: Matrix, n: nat): (w: Matrix)
    requires IsSquare(m, n)
    ensures IsSquare(w, n)
  {
    seq(n, i requires 0 <= i < n => seq(n, j requires 0 <= j < n => 0.5 * (m[i][j] + m[j][i])))
  }

  /** Sample s of the inhomogeneous sampler with K weight types, as a full matrix. */
  function InhomogeneousSample(a: Matrix, n: nat, labels: seq<int>, K: nat,
                               off: (nat, nat) -> real, diag: (nat, nat) -> real, s: nat): (w: Matrix)
    requires IsSquare(a, n) && |labels| == n
    ensures IsSquare(w, n)
  {
    DiagonalSet(Symmetrised(Substituted(LabelledTemplate(a, n, labels), n, K, off, s), n), n,
                SubstitutedLabels(labels, K, diag, s))
  }

  /** The matrix loop of one sample: substitute the K types in turn, then symmetrise. */
  method SampleOffDiagonal(row: Matrix, n: nat, K: nat, off: (nat, nat) -> real, s: nat) returns (w: Matrix)
    requires IsSquare(row, n)
    ensures w == Symmetrised(Substituted(row, n, K, off, s), n)
  {
    var m := row;
    assert m == Substituted(row, n, 0, off, s) by {
      MatrixExt(m, Substituted(row, n, 0, off, s), n);
    }
    for idx := 0 to K
      invariant m == Substituted(row, n, idx, off, s)
    {
      m := Where(m, n, (idx + 1) as real, off(idx, s));
      MatrixExt(m, Substituted(row, n, idx + 1, off, s), n);
    }
    w := Symmetrised(m, n);
  }

  /** The diagonal loop of one sample: substitute the K types in turn in the labels. */
  method SampleDiagonal(labels: seq<int>, K: nat, diag: (nat, nat) -> real, s: nat) returns (v: seq<real>)
    ensures v == SubstitutedLabels(labels, K, diag, s)
  {
    v := seq(|labels|, i requires 0 <= i < |labels| => labels[i] as real);
    for idx := 0 to K
      invariant v == SubstitutedLabels(labels, idx, diag, s)
    {
      v := seq(|v|, i requires 0 <= i < |v| => if v[i] == (idx + 1) as real then diag(idx, s) else v[i]);
    }
  }

  /**
   * np.multiply(adjacency, row_matrix) and the diagonal assignment accept a label vector
   * of length n, or of length 1, which numpy broadcasts to every vertex. When n is 1 the
   * product broadcasts any length, and the diagonal assignment that would then fail is
   * never reached without samples.
   */
  predicate LabelsFit(count: nat, n: nat, samples: int) {
    count == n || count == 1 || (n == 1 && samples == 0)
  }

  /** The labels as numpy broadcasts them to n vertices: one label goes to every vertex. */
  function Broadcast(labels: seq<int>, n: nat): (b: seq<int>)
    requires |labels| == n || |labels| == 1
    ensures |b| == n
  {
    if |labels| == n then labels else seq(n, _ => labels[0])
  }

  /** Broadcasting keeps max(labels), so the number of weight types is the same. */
  lemma BroadcastMax(labels: seq<int>, n: nat)
    requires (|labels| == n || |labels| == 1) && n > 0
    ensures forall i :: 0 <= i < n ==> Broadcast(labels, n)[i] == labels[if |labels| == n then i else 0]
    ensures MaxLabel(Broadcast(labels, n)) == MaxLabel(labels)
  {
    var b := Broadcast(labels, n);
    if |labels| != n {
      MaxLabelIsMax(b);
      var w :| 0 <= w < n && b[w] == MaxLabel(b);
    }
  }

  /**
   * Samples weights for a typed structure. labels gives each vertex its type; K =
   * max(labels) independent types are drawn, off(idx, s) and diag(idx, s) being the
   * off-diagonal and diagonal draws of type idx + 1 in sample s. A negative number of
   * samples, an unassignable template, labels that do not broadcast to n vertices, an
   * empty label vector and a negative maximum (a negative draw shape) are ValueErrors.
   */
  method SampleInhomogeneousMatrix(n: nat, labels: seq<int>, t: seq<real>, samples: int,
                                   off: (nat, nat) -> real, diag: (nat, nat) -> real)
    returns (r: Result<seq<seq<real>>>)
    ensures r.Ok? <==> samples >= 0 && Assignable(n, t) && |labels| > 0 && LabelsFit(|labels|, n, samples) &&
                       MaxLabel(labels) >= 0
    ensures r.Err? ==> r.error == ValueError
    ensures r.Ok? ==> |r.value| == samples
    ensures r.Ok? ==> forall s :: 0 <= s < samples ==>
      r.value[s] == ToTriu(InhomogeneousSample(FromTriu(n, t), n, Broadcast(labels, n), MaxLabel(labels), off, diag, s), n)
  {
    if samples < 0 {
      return Err(ValueError);
    }
    var adjacency := ConvertTriuToMat(n, t);
    if adjacency.Err? || |labels| == 0 || !LabelsFit(|labels|, n, samples) {
      return Err(ValueError);
    }
    var a := adjacency.value;
    MatrixExt(a, FromTriu(n, t), n);
    var maxLabel := MaxLabel(labels);
    if maxLabel < 0 {
      return Err(ValueError);
    }
    if samples == 0 {
      return Ok([]);
    }
    var types := Broadcast(labels, n);
    var row := LabelledTemplate(a, n, types);
    var K: nat := maxLabel;
    var matrices: seq<Matrix> := [];
    for s := 0 to samples
      invariant |matrices| == s
      invariant forall l :: 0 <= l < s ==>
        matrices[l] == Symmetrised(Substituted(row, n, K, off, l), n)
    {
      var w := SampleOffDiagonal(row, n, K, off, s);
      matrices := matrices + [w];
    }
    var diagonals: seq<seq<real>> := [];
    for s := 0 to samples
      invariant |diagonals| == s
      invariant forall l :: 0 <= l < s ==> diagonals[l] == SubstitutedLabels(types, K, diag, l)
    {
      var v := SampleDiagonal(types, K, diag, s);
      diagonals := diagonals + [v];
    }
    var trius: seq<seq<real>> := [];
    for s := 0 to samples
      invariant |trius| == s
      invariant forall l :: 0 <= l < s ==>
        trius[l] == ToTriu(InhomogeneousSample(a, n, types, K, off, diag, l), n)
    {
      var w := FillDiagonal(matrices[s], n, diagonals[s]);
      trius := trius + [ToTriu(w, n)];
    }
    return Ok(trius);
  }

  /** A connectivity template: every upper-triangle entry is 0 or 1. */
  predicate IsTemplate(n: nat, t: seq<real>)
    requires Assignable(n, t)
  {
    forall i, j :: 0 <= i <= j < n ==>
      TriuValue(n, t, TriuIndex(n, i, j)) == 0.0 || TriuValue(n, t, TriuIndex(n, i, j)) == 1.0
  }

  /**
   * With a 0/1 template, labels at least 1 and no draw equal to a label value, vertex i
   * gets the diagonal draw of its type, a template edge (i, j) gets the mean of the
   * off-diagonal draws of the two types (the draw itself when the types agree), and a
   * non-edge stays 0.
   */
  lemma {:induction false} InhomogeneousTriu(n: nat, t: seq<real>, labels: seq<int>, K: nat,
                                             off: (nat, nat) -> real, diag: (nat, nat) -> real, s: nat)
    requires Assignable(n, t) && IsTemplate(n, t) && |labels| == n > 0 && K == MaxLabel(labels)
    requires forall i :: 0 <= i < n ==> labels[i] >= 1
    requires DrawsAvoidLabels(off, K, s) && DrawsAvoidLabels(diag, K, s)
    ensures |ToTriu(InhomogeneousSample(FromTriu(n, t), n, labels, K, off, diag, s), n)| == TriuLen(n)
    ensures forall i, j :: 0 <= i <= j < n ==>
      ToTriu(InhomogeneousSample(FromTriu(n, t), n, labels, K, off, diag, s), n)[TriuIndex(n, i, j)] ==
        if i == j then diag(labels[i] - 1, s)
        else if TriuValue(n, t, TriuIndex(n, i, j)) == 1.0 then 0.5 * (off(labels[i] - 1, s) + off(labels[j] - 1, s))
        else 0.0
  {
    assert forall i :: 0 <= i < n ==> labels[i] <= K by {
      MaxLabelIsMax(labels);
    }
    var a := FromTriu(n, t);
    var w := InhomogeneousSample(a, n, labels, K, off, diag, s);
    ToTriuAt(w, n);
    forall i, j | 0 <= i <= j < n
      ensures w[i][j] ==
        if i == j then diag(labels[i] - 1, s)
        else if TriuValue(n, t, TriuIndex(n, i, j)) == 1.0 then 0.5 * (off(labels[i] - 1, s) + off(labels[j] - 1, s))
        else 0.0
    {
      assert a[i][j] == TriuValue(n, t, TriuIndex(n, i, j)) == a[j][i];
      InhomogeneousEntry(a, n, labels, K, off, diag, s, i, j);
    }
  }

  /** One entry of an inhomogeneous sample over a symmetric 0/1 template entry. */
  lemma InhomogeneousEntry(a: Matrix, n: nat, labels: seq<int>, K: nat,
                           off: (nat, nat) -> real, diag: (nat, nat) -> real, s: nat, i: nat, j: nat)
    requires IsSquare(a, n) && |labels| == n && i < n && j < n
    requires a[i][j] == a[j][i] && (a[i][j] == 0.0 || a[i][j] == 1.0)
    requires 1 <= labels[i] <= K && 1 <= labels[j] <= K
    requires DrawsAvoidLabels(off, K, s) && DrawsAvoidLabels(diag, K, s)
    ensures InhomogeneousSample(a, n, labels, K, off, diag, s)[i][j] ==
      if i == j then diag(labels[i] - 1, s)
      else if a[i][j] == 1.0 then 0.5 * (off(labels[i] - 1, s) + off(labels[j] - 1, s))
      else 0.0
  {
    var li, lj := labels[i] as real, labels[j] as real;
    assert IsLabel(li, K) && li.Floor == labels[i];
    assert IsLabel(lj, K) && lj.Floor == labels[j];
    var row := LabelledTemplate(a, n, labels);
    var sub := Substituted(row, n, K, off, s);
    assert sub[i][j] == Substitute(a[i][j] * lj, K, off, s);
    assert sub[j][i] == Substitute(a[i][j] * li, K, off, s);
    SubstituteLabel(li, K, K, diag, s);
    SubstituteLabel(a[i][j] * lj, K, K, off, s);
    SubstituteLabel(a[i][j] * li, K, K, off, s);
    if a[i][j] == 1.0 {
      assert a[i][j] * lj == lj && a[i][j] * li == li;
    } else {
      assert a[i][j] * lj == 0.0 && a[i][j] * li == 0.0;
    }
  }

  /** Two vertices of the same type joined in a symmetric template get that type's draw. */
  lemma SameTypeEdge(a: Matrix, n: nat, labels: seq<int>, K: nat,
                     off: (nat, nat) -> real, diag: (nat, nat) -> real, s: nat, i: nat, j: nat)
    requires IsSquare(a, n) && |labels| == n && i < n && j < n && i != j
    requires a[i][j] == 1.0 && a[j][i] == 1.0 && labels[i] == labels[j]
    requires 1 <= labels[i] <= K && DrawsAvoidLabels(off, K, s) && DrawsAvoidLabels(diag, K, s)
    ensures InhomogeneousSample(a, n, labels, K, off, diag, s)[i][j] == off(labels[i] - 1, s)
  {
    InhomogeneousEntry(a, n, labels, K, off, diag, s, i, j);
  }
}
