/**
 * The Hückel solver: occupation number vectors that share electrons equally over
 * (near-)degenerate orbitals, the energy they give, and the alpha, beta and total
 * density matrices. The eigendecomposition itself is foreign linear algebra, so the
 * solver receives its eigenvalues and eigenvectors as inputs.
 */
module Huckel {
  import opened Wrappers
  import opened Matrices

  // ---------------------------------------------------------------------------
  // Closeness of eigenvalues (np.isclose with numpy's default tolerances)
  // ---------------------------------------------------------------------------

  function Abs(x: real): real {
    if x < 0.0 then -x else x
  }

  /** np.isclose(a, b) with rtol = 1e-5 and atol = 1e-8: the tolerance grows with |b| only,
    * so the test is not symmetric. */
  predicate IsClose(a: real, b: real) {
    Abs(a - b) <= 0.00000001 + 0.00001 * Abs(b)
  }

  /** An n-by-n boolean matrix, read as a relation on 0..n-1. */
  predicate IsRelation(c: seq<seq<bool>>, n: nat) {
    |c| == n && forall i :: 0 <= i < n ==> |c[i]| == n
  }

  predicate IsReflexive(c: seq<seq<bool>>, n: nat)
    requires IsRelation(c, n)
  {
    forall i :: 0 <= i < n ==> c[i][i]
  }

  predicate IsSymmetricRelation(c: seq<seq<bool>>, n: nat)
    requires IsRelation(c, n)
  {
    forall i, j :: 0 <= i < n && 0 <= j < n ==> c[i][j] == c[j][i]
  }

  predicate IsTransitive(c: seq<seq<bool>>, n: nat)
    requires IsRelation(c, n)
  {
    forall i, j, k :: 0 <= i < n && 0 <= j < n && 0 <= k < n && c[i][j] && c[j][k] ==> c[i][k]
  }

  /** The unweighted weight_matrix of ONV: entry (i, j) says eigenvalue i is close to eigenvalue j. */
  function Closeness(e: seq<real>): (c: seq<seq<bool>>)
    ensures IsRelation(c, |e|) && IsReflexive(c, |e|)
    ensures forall i, j :: 0 <= i < |e| && 0 <= j < |e| ==> c[i][j] == IsClose(e[i], e[j])
  {
    seq(|e|, i requires 0 <= i < |e| => seq(|e|, j requires 0 <= j < |e| => IsClose(e[i], e[j])))
  }

  // ---------------------------------------------------------------------------
  // Occupation number vectors
  // ---------------------------------------------------------------------------

  /** Column i of the relation: which eigenvalues are close to eigenvalue i. */
  function ColumnOf(c: seq<seq<bool>>, n: nat, i: nat): (col: seq<bool>)
    requires IsRelation(c, n) && i < n
    ensures |col| == n && forall k :: 0 <= k < n ==> col[k] == c[k][i]
  {
    seq(n, k requires 0 <= k < n => c[k][i])
  }

  /** The degeneracy of level i: np.sum(weight_matrix, 0)[i], at least 1 as every level is
    * close to itself. */
  function Degeneracy(c: seq<seq<bool>>, n: nat, i: nat): (d: nat)
    requires IsRelation(c, n) && IsReflexive(c, n) && i < n
    ensures d >= 1
  {
    var col := ColumnOf(c, n, i);
    MaskCountZero(col);
    assert col[i];
    MaskCount(col)
  }

  /** Entry i of diag(1/np.sum(weight_matrix, 0)). */
  function Share(c: seq<seq<bool>>, n: nat, i: nat): real
    requires IsRelation(c, n) && IsReflexive(c, n) && i < n
  {
    1.0 / Degeneracy(c, n, i) as real
  }

  /** The terms of ONV entry j: the step vector [1]*na + [0]*(n-na) times column j of
    * diag(1/degeneracy).dot(weight_matrix). */
  function OccTerms(c: seq<seq<bool>>, n: nat, na: nat, j: nat): (t: seq<real>)
    requires IsRelation(c, n) && IsReflexive(c, n) && j < n
    ensures |t| == n
    ensures forall i :: 0 <= i < n ==> t[i] == if i < na && c[i][j] then Share(c, n, i) else 0.0
  {
    seq(n, i requires 0 <= i < n => if i < na && c[i][j] then Share(c, n, i) else 0.0)
  }

  function Occupation(c: seq<seq<bool>>, n: nat, na: nat, j: nat): real
    requires IsRelation(c, n) && IsReflexive(c, n) && j < n
  {
    Sum(OccTerms(c, n, na, j))
  }

  function Occupations(c: seq<seq<bool>>, n: nat, na: nat): (o: seq<real>)
    requires IsRelation(c, n) && IsReflexive(c, n)
    ensures |o| == n && forall j :: 0 <= j < n ==> o[j] == Occupation(c, n, na, j)
  {
    seq(n, j requires 0 <= j < n => Occupation(c, n, na, j))
  }

  /** ONV_a (or ONV_b) for na electrons of one spin over the levels e. */
  function OccupationNumbers(e: seq<real>, na: nat): (o: seq<real>)
    ensures |o| == |e|
  {
    Occupations(Closeness(e), |e|, na)
  }

  /** The list [1]*na + [0]*(n-na) has exactly n entries, so the product with the n-by-n
    * weight matrix is defined. */
  predicate Fits(na: int, n: nat) {
    0 <= na <= n
  }

  /** np.array([1]*na + [0]*(n-na)) as reals. */
  function Step(na: nat, n: nat): (s: seq<real>)
    ensures |s| == n && forall i :: 0 <= i < n ==> s[i] == if i < na then 1.0 else 0.0
  {
    seq(n, i requires 0 <= i < n => if i < na then 1.0 else 0.0)
  }

  /** The first na levels that are close to level j. */
  function OccupiedMask(c: seq<seq<bool>>, n: nat, na: nat, j: nat): (mask: seq<bool>)
    requires IsRelation(c, n) && j < n
    ensures |mask| == n && forall i :: 0 <= i < n ==> mask[i] == (i < na && c[i][j])
  {
    seq(n, i requires 0 <= i < n => i < na && c[i][j])
  }

  /** How many of the first na levels are close to level j. */
  function Occupied(c: seq<seq<bool>>, n: nat, na: nat, j: nat): nat
    requires IsRelation(c, n) && j < n
  {
    MaskCount(OccupiedMask(c, n, na, j))
  }

  lemma TimesShare(k: real, d: real)
    requires d > 0.0
    ensures k * (1.0 / d) == k / d
  {
  }

  /** d selected positions with 1/d each add up to 1. */
  lemma SharesAddUp(mask: seq<bool>, d: nat)
    requires MaskCount(mask) == d >= 1
    ensures Sum(Flagged(mask, 1.0 / d as real)) == 1.0
  {
    var x := d as real;
    SumFlagged(mask, 1.0 / x);
    assert x * (1.0 / x) == 1.0;
  }

  // ---------------------------------------------------------------------------
  // Counting lemmas
  // ---------------------------------------------------------------------------

  lemma MaskCountSingle(mask: seq<bool>, k: nat)
    requires k < |mask| && forall i :: 0 <= i < |mask| ==> (mask[i] <==> i == k)
    ensures MaskCount(mask) == 1
  {
    SumFlagged(mask, 1.0);
    SumSingle(Flagged(mask, 1.0), k);
  }

  lemma MaskCountMonotone(a: seq<bool>, b: seq<bool>)
    requires |a| == |b| && forall i :: 0 <= i < |a| && a[i] ==> b[i]
    ensures MaskCount(a) <= MaskCount(b)
  {
    SumFlagged(a, 1.0);
    SumFlagged(b, 1.0);
    SumMonotone(Flagged(a, 1.0), Flagged(b, 1.0));
  }

  lemma {:induction false} MaskCountPrefix(n: nat, na: nat)
    ensures MaskCount(seq(n, i requires 0 <= i < n => i < na)) == if na < n then na else n
  {
    if n > 0 {
      MaskCountPrefix(n - 1, na);
      var s := seq(n, i requires 0 <= i < n => i < na);
      assert s[..n - 1] == seq(n - 1, i requires 0 <= i < n - 1 => i < na);
    }
  }

  // ---------------------------------------------------------------------------
  // What ONV computes
  // ---------------------------------------------------------------------------

  /** No electrons, no occupation. */
  lemma NoOccupation(c: seq<seq<bool>>, n: nat, j: nat)
    requires IsRelation(c, n) && IsReflexive(c, n) && j < n
    ensures Occupation(c, n, 0, j) == 0.0
  {
    SumZero(OccTerms(c, n, 0, j));
  }

  /** With a relation that is only the identity, every level is its own block and the
    * occupations are the step vector [1]*na + [0]*(n-na). */
  lemma IdentityOccupations(c: seq<seq<bool>>, n: nat, na: nat)
    requires IsRelation(c, n) && IsReflexive(c, n)
    requires forall i, j :: 0 <= i < n && 0 <= j < n && i != j ==> !c[i][j]
    ensures Occupations(c, n, na) == Step(na, n)
  {
    forall j | 0 <= j < n
      ensures Occupation(c, n, na, j) == Step(na, n)[j]
    {
      IdentityLevel(c, n, na, j);
    }
  }

  lemma IdentityLevel(c: seq<seq<bool>>, n: nat, na: nat, j: nat)
    requires IsRelation(c, n) && IsReflexive(c, n) && j < n
    requires forall i :: 0 <= i < n && i != j ==> !c[i][j]
    ensures Occupation(c, n, na, j) == if j < na then 1.0 else 0.0
  {
    var t := OccTerms(c, n, na, j);
    MaskCountSingle(ColumnOf(c, n, j), j);
    if j < na {
      SumSingle(t, j);
    } else {
      SumZero(t);
    }
  }

  /** Without any two close eigenvalues, ONV is the step vector [1]*na + [0]*(n-na). */
  lemma DistinctLevels(e: seq<real>, na: nat)
    requires forall i, j :: 0 <= i < |e| && 0 <= j < |e| && i != j ==> !IsClose(e[i], e[j])
    ensures OccupationNumbers(e, na) == Step(na, |e|)
  {
    IdentityOccupations(Closeness(e), |e|, na);
  }

  /** When every level close to j has j's degeneracy (as inside a block of mutually close
    * levels), entry j of ONV is the share of the block's levels that lie below na. */
  lemma SharedLevel(c: seq<seq<bool>>, n: nat, na: nat, j: nat)
    requires IsRelation(c, n) && IsReflexive(c, n) && j < n
    requires forall i :: 0 <= i < n && c[i][j] ==> Degeneracy(c, n, i) == Degeneracy(c, n, j)
    ensures Occupation(c, n, na, j) == Occupied(c, n, na, j) as real / Degeneracy(c, n, j) as real
  {
    var share := Share(c, n, j);
    var mask := OccupiedMask(c, n, na, j);
    var t := OccTerms(c, n, na, j);
    forall i | 0 <= i < n
      ensures t[i] == Flagged(mask, share)[i]
    {
      if mask[i] {
        assert Share(c, n, i) == share;
      }
    }
    assert t == Flagged(mask, share);
    var k, d := Occupied(c, n, na, j) as real, Degeneracy(c, n, j) as real;
    calc {
      Occupation(c, n, na, j);
      Sum(Flagged(mask, share));
      { SumFlagged(mask, share); }
      MaskCount(mask) as real * share;
      k * share;
      k * (1.0 / d);
      { TimesShare(k, d); }
      k / d;
    }
  }

  /** In an equivalence, a level close to j has the same column, hence the same degeneracy. */
  lemma SameBlock(c: seq<seq<bool>>, n: nat, i: nat, j: nat)
    requires IsRelation(c, n) && IsReflexive(c, n) && IsSymmetricRelation(c, n) && IsTransitive(c, n)
    requires i < n && j < n && c[i][j]
    ensures ColumnOf(c, n, i) == ColumnOf(c, n, j)
    ensures Degeneracy(c, n, i) == Degeneracy(c, n, j)
  {
    forall k | 0 <= k < n
      ensures c[k][i] == c[k][j]
    {
      if c[k][i] {
        assert c[k][i] && c[i][j];
      }
      if c[k][j] {
        assert c[j][i];
        assert c[k][j] && c[j][i];
      }
    }
    assert ColumnOf(c, n, i) == ColumnOf(c, n, j);
  }

  /** If closeness is an equivalence, every entry of ONV lies between 0 and 1 and equals the
    * occupied share of its block. */
  lemma EquivalenceBounds(c: seq<seq<bool>>, n: nat, na: nat, j: nat)
    requires IsRelation(c, n) && IsReflexive(c, n) && IsSymmetricRelation(c, n) && IsTransitive(c, n)
    requires j < n
    ensures Occupation(c, n, na, j) == Occupied(c, n, na, j) as real / Degeneracy(c, n, j) as real
    ensures 0.0 <= Occupation(c, n, na, j) <= 1.0
  {
    forall i | 0 <= i < n && c[i][j]
      ensures Degeneracy(c, n, i) == Degeneracy(c, n, j)
    {
      SameBlock(c, n, i, j);
    }
    SharedLevel(c, n, na, j);
    MaskCountMonotone(OccupiedMask(c, n, na, j), ColumnOf(c, n, j));
    FractionBounds(Occupied(c, n, na, j), Degeneracy(c, n, j));
  }

  lemma FractionBounds(k: nat, d: nat)
    requires 1 <= d && k <= d
    ensures 0.0 <= k as real / d as real <= 1.0
  {
    DivideBounds(k as real, d as real, 0.0, 1.0);
  }

  /** Column i of the occupation table, summed over the levels j: under a symmetric closeness
    * row i of the relation has i's degeneracy, so an occupied level contributes exactly 1. */
  lemma LevelContribution(c: seq<seq<bool>>, n: nat, na: nat, i: nat, col: seq<real>)
    requires IsRelation(c, n) && IsReflexive(c, n) && IsSymmetricRelation(c, n) && i < n
    requires |col| == n && forall j :: 0 <= j < n ==> col[j] == OccTerms(c, n, na, j)[i]
    ensures Sum(col) == if i < na then 1.0 else 0.0
  {
    if i < na {
      assert col == Flagged(c[i], Share(c, n, i));
      assert c[i] == ColumnOf(c, n, i);
      SharesAddUp(c[i], Degeneracy(c, n, i));
    } else {
      SumZero(col);
    }
  }

  /** With a symmetric closeness the occupations add up to the number of electrons. */
  lemma OccupationSum(c: seq<seq<bool>>, n: nat, na: nat)
    requires IsRelation(c, n) && IsReflexive(c, n) && IsSymmetricRelation(c, n) && na <= n
    ensures Sum(Occupations(c, n, na)) == na as real
  {
    var t := seq(n, j requires 0 <= j < n => OccTerms(c, n, na, j));
    SumSwap(t, n);
    var rows := seq(|t|, i requires 0 <= i < |t| => Sum(t[i]));
    var cols := seq(n, j requires 0 <= j < n => Sum(seq(|t|, i requires 0 <= i < |t| => t[i][j])));
    assert rows == Occupations(c, n, na);
    var prefix := seq(n, i requires 0 <= i < n => i < na);
    forall i | 0 <= i < n
      ensures cols[i] == Flagged(prefix, 1.0)[i]
    {
      LevelContribution(c, n, na, i, seq(|t|, k requires 0 <= k < |t| => t[k][i]));
    }
    assert cols == Flagged(prefix, 1.0);
    SumFlagged(prefix, 1.0);
    MaskCountPrefix(n, na);
  }

  /** A sum of three terms, unfolded. */
  lemma SumThree(t: seq<real>)
    requires |t| == 3
    ensures Sum(t) == t[0] + t[1] + t[2]
  {
    assert t[..2][..1] == t[..1];
    assert t[..1][..0] == [];
    calc {
      Sum(t);
      Sum(t[..2]) + t[2];
      Sum(t[..1]) + t[1] + t[2];
      Sum([]) + t[0] + t[1] + t[2];
    }
  }

  lemma MaskCountThree(mask: seq<bool>)
    requires |mask| == 3
    ensures MaskCount(mask) == (if mask[0] then 1 else 0) + (if mask[1] then 1 else 0) + (if mask[2] then 1 else 0)
  {
    SumFlagged(mask, 1.0);
    SumThree(Flagged(mask, 1.0));
  }

  /** The closeness of [1, 1, 1, 5]: the first three levels form one block. */
  lemma ThreefoldCloseness(e: seq<real>)
    requires e == [1.0, 1.0, 1.0, 5.0]
    ensures forall i, j :: 0 <= i < 4 && 0 <= j < 4 ==> Closeness(e)[i][j] == ((i < 3) == (j < 3))
  {
    forall i, j | 0 <= i < 4 && 0 <= j < 4
      ensures Closeness(e)[i][j] == ((i < 3) == (j < 3))
    {
      assert e[i] == if i < 3 then 1.0 else 5.0;
      assert e[j] == if j < 3 then 1.0 else 5.0;
    }
  }

  /** One electron over a threefold block and a single level above it. */
  lemma ThreefoldOccupations(c: seq<seq<bool>>)
    requires IsRelation(c, 4)
    requires forall i, j :: 0 <= i < 4 && 0 <= j < 4 ==> c[i][j] == ((i < 3) == (j < 3))
    ensures IsReflexive(c, 4)
    ensures Occupations(c, 4, 1) == [1.0 / 3.0, 1.0 / 3.0, 1.0 / 3.0, 0.0]
  {
    forall j | 0 <= j < 4
      ensures Occupation(c, 4, 1, j) == [1.0 / 3.0, 1.0 / 3.0, 1.0 / 3.0, 0.0][j]
    {
      EquivalenceBounds(c, 4, 1, j);
      var occupied := OccupiedMask(c, 4, 1, j);
      if j < 3 {
        MaskCountSingle(occupied, 0);
        assert ColumnOf(c, 4, j) == seq(4, i requires 0 <= i < 4 => i < 3);
        MaskCountPrefix(4, 3);
      } else {
        MaskCountZero(occupied);
      }
    }
  }

  /** [1, 1, 1, 5] with one electron: the three degenerate levels share it equally. */
  lemma ThreefoldLevel(e: seq<real>)
    requires e == [1.0, 1.0, 1.0, 5.0]
    ensures OccupationNumbers(e, 1) == [1.0 / 3.0, 1.0 / 3.0, 1.0 / 3.0, 0.0]
  {
    ThreefoldCloseness(e);
    ThreefoldOccupations(Closeness(e));
  }

  /** The closeness of the levels 0, 6e-9 and 1.1e-8: neighbours are close, the outer two
    * are not. */
  lemma ChainCloseness(e: seq<real>)
    requires e == [0.0, 0.000000006, 0.000000011]
    ensures forall i, j :: 0 <= i < 3 && 0 <= j < 3 ==> Closeness(e)[i][j] == (i + j != 2 || i == j)
  {
    forall i, j | 0 <= i < 3 && 0 <= j < 3
      ensures Closeness(e)[i][j] == (i + j != 2 || i == j)
    {
      assert IsClose(e[0], e[1]) && IsClose(e[1], e[0]) && IsClose(e[1], e[2]) && IsClose(e[2], e[1]);
      assert !IsClose(e[0], e[2]) && !IsClose(e[2], e[0]);
    }
  }

  /** Three electrons over the chain: the middle level receives 1/2 + 1/3 + 1/2 and each
    * outer level 1/2 + 1/3. */
  lemma ChainOccupation(c: seq<seq<bool>>)
    requires IsRelation(c, 3)
    requires forall i, j :: 0 <= i < 3 && 0 <= j < 3 ==> c[i][j] == (i + j != 2 || i == j)
    ensures IsReflexive(c, 3) && IsSymmetricRelation(c, 3) && !IsTransitive(c, 3)
    ensures Occupations(c, 3, 3) == [5.0 / 6.0, 4.0 / 3.0, 5.0 / 6.0]
  {
    assert c[0][1] && c[1][2] && !c[0][2];
    MaskCountThree(ColumnOf(c, 3, 0));
    MaskCountThree(ColumnOf(c, 3, 1));
    MaskCountThree(ColumnOf(c, 3, 2));
    forall j | 0 <= j < 3
      ensures Occupation(c, 3, 3, j) == [5.0 / 6.0, 4.0 / 3.0, 5.0 / 6.0][j]
    {
      var t := OccTerms(c, 3, 3, j);
      if j == 1 {
        assert t[0] == 1.0 / 2.0 && t[1] == 1.0 / 3.0 && t[2] == 1.0 / 2.0;
      } else {
        assert t[1] == 1.0 / 3.0 && t[j] == 1.0 / 2.0 && t[2 - j] == 0.0;
      }
      SumThree(t);
    }
  }

  /**
   * np.isclose is not transitive. The levels 0, 6e-9 and 1.1e-8 form a chain in which
   * the outer two are not close, and with three electrons the middle level is filled
   * to 4/3.
   */
  lemma NonTransitiveChain(e: seq<real>)
    requires e == [0.0, 0.000000006, 0.000000011]
    ensures IsSymmetricRelation(Closeness(e), 3) && !IsTransitive(Closeness(e), 3)
    ensures OccupationNumbers(e, 3)[1] == 4.0 / 3.0
  {
    ChainCloseness(e);
    ChainOccupation(Closeness(e));
  }

  // ---------------------------------------------------------------------------
  // Energy
  // ---------------------------------------------------------------------------

  /** eigenvals.dot(ONV_a) + eigenvals.dot(ONV_b). */
  function Energy(e: seq<real>, oa: seq<real>, ob: seq<real>): real
    requires |oa| == |e| && |ob| == |e|
  {
    Sum(Weighted(e, oa)) + Sum(Weighted(e, ob))
  }

  lemma SelfRatio(x: real)
    requires x > 0.0
    ensures x / x == 1.0
  {
  }

  /** With as many electrons as levels and closeness an equivalence, every level is full. */
  lemma FullShell(c: seq<seq<bool>>, n: nat)
    requires IsRelation(c, n) && IsReflexive(c, n) && IsSymmetricRelation(c, n) && IsTransitive(c, n)
    ensures Occupations(c, n, n) == Step(n, n)
  {
    forall j | 0 <= j < n
      ensures Occupation(c, n, n, j) == 1.0
    {
      EquivalenceBounds(c, n, n, j);
      assert OccupiedMask(c, n, n, j) == ColumnOf(c, n, j);
      SelfRatio(Degeneracy(c, n, j) as real);
    }
  }

  /** With every level filled by both spins and closeness an equivalence, each level is
    * occupied once per spin and the energy is twice the sum of the eigenvalues. */
  lemma FullShellEnergy(e: seq<real>, c: seq<seq<bool>>)
    requires c == Closeness(e)
    requires IsSymmetricRelation(c, |e|) && IsTransitive(c, |e|)
    ensures OccupationNumbers(e, |e|) == Step(|e|, |e|)
    ensures Energy(e, OccupationNumbers(e, |e|), OccupationNumbers(e, |e|)) == 2.0 * Sum(e)
  {
    FullShell(c, |e|);
    FilledEnergy(e, Occupations(c, |e|, |e|));
  }

  /**
   * Without transitivity a full shell need not give twice the eigenvalue sum: on the
   * chain 0, 6e-9, 1.1e-8 filled by both spins the occupations are 5/6, 4/3, 5/6 and the
   * energy exceeds 2 * Sum(e) by 1e-9 / 3.
   */
  lemma NonTransitiveFullShell(e: seq<real>)
    requires e == [0.0, 0.000000006, 0.000000011]
    ensures !IsTransitive(Closeness(e), 3)
    ensures Energy(e, OccupationNumbers(e, 3), OccupationNumbers(e, 3)) == 2.0 * Sum(e) + 0.000000001 / 3.0
  {
    ChainCloseness(e);
    ChainOccupation(Closeness(e));
    var o := OccupationNumbers(e, 3);
    SumThree(e);
    SumThree(Weighted(e, o));
  }

  /** Every level occupied once per spin: the energy counts each eigenvalue twice. */
  lemma FilledEnergy(e: seq<real>, o: seq<real>)
    requires o == Step(|e|, |e|)
    ensures Energy(e, o, o) == 2.0 * Sum(e)
  {
    assert Weighted(e, o) == e;
  }

  // ---------------------------------------------------------------------------
  // Density matrices
  // ---------------------------------------------------------------------------

  /** Entry (r, c) of sum over the first k orbitals of occ[i] * v_i v_i^T, v_i the
    * eigenvector in column i. */
  function DensityEntry(v: Matrix, n: nat, occ: seq<real>, r: nat, c: nat, k: nat): real
    requires IsSquare(v, n) && |occ| == n && r < n && c < n && k <= n
  {
    if k == 0 then 0.0
    else DensityEntry(v, n, occ, r, c, k - 1) + occ[k - 1] * (v[r][k - 1] * v[c][k - 1])
  }

  /** The density accumulated over the first k orbitals. */
  function PartialDensity(v: Matrix, n: nat, occ: seq<real>, k: nat): (p: Matrix)
    requires IsSquare(v, n) && |occ| == n && k <= n
    ensures IsSquare(p, n)
    ensures forall r, c :: 0 <= r < n && 0 <= c < n ==> p[r][c] == DensityEntry(v, n, occ, r, c, k)
  {
    seq(n, r requires 0 <= r < n => seq(n, c requires 0 <= c < n => DensityEntry(v, n, occ, r, c, k)))
  }

  /** P_a (or P_b): sum over all orbitals i of ONV[i] v_i v_i^T. */
  function Density(v: Matrix, n: nat, occ: seq<real>): (p: Matrix)
    requires IsSquare(v, n) && |occ| == n
    ensures IsSquare(p, n)
    ensures forall r, c :: 0 <= r < n && 0 <= c < n ==> p[r][c] == DensityEntry(v, n, occ, r, c, n)
  {
    PartialDensity(v, n, occ, n)
  }

  function MatrixSum(a: Matrix, b: Matrix, n: nat): (s: Matrix)
    requires IsSquare(a, n) && IsSquare(b, n)
    ensures IsSquare(s, n) && forall r, c :: 0 <= r < n && 0 <= c < n ==> s[r][c] == a[r][c] + b[r][c]
  {
    seq(n, r requires 0 <= r < n => seq(n, c requires 0 <= c < n => a[r][c] + b[r][c]))
  }

  /** P += w * MO MO^T for the eigenvector MO. */
  function AddOuter(p: Matrix, n: nat, w: real, mo: seq<real>): (q: Matrix)
    requires IsSquare(p, n) && |mo| == n
    ensures IsSquare(q, n)
    ensures forall r, c :: 0 <= r < n && 0 <= c < n ==> q[r][c] == p[r][c] + w * (mo[r] * mo[c])
  {
    seq(n, r requires 0 <= r < n => seq(n, c requires 0 <= c < n => p[r][c] + w * (mo[r] * mo[c])))
  }

  lemma {:induction false} DensityEntrySymmetric(v: Matrix, n: nat, occ: seq<real>, r: nat, c: nat, k: nat)
    requires IsSquare(v, n) && |occ| == n && r < n && c < n && k <= n
    ensures DensityEntry(v, n, occ, r, c, k) == DensityEntry(v, n, occ, c, r, k)
  {
    if k > 0 {
      DensityEntrySymmetric(v, n, occ, r, c, k - 1);
      assert v[r][k - 1] * v[c][k - 1] == v[c][k - 1] * v[r][k - 1];
    }
  }

  lemma {:induction false} DensityEntryZero(v: Matrix, n: nat, occ: seq<real>, r: nat, c: nat, k: nat)
    requires IsSquare(v, n) && |occ| == n && r < n && c < n && k <= n
    requires forall i :: 0 <= i < n ==> occ[i] == 0.0
    ensures DensityEntry(v, n, occ, r, c, k) == 0.0
  {
    if k > 0 {
      DensityEntryZero(v, n, occ, r, c, k - 1);
    }
  }

  /** Every density matrix built from eigenvector outer products is symmetric. */
  lemma DensitySymmetric(v: Matrix, n: nat, occ: seq<real>)
    requires IsSquare(v, n) && |occ| == n
    ensures IsSymmetric(Density(v, n, occ), n)
  {
    forall r, c | 0 <= r < n && 0 <= c < n
      ensures Density(v, n, occ)[r][c] == Density(v, n, occ)[c][r]
    {
      DensityEntrySymmetric(v, n, occ, r, c, n);
    }
  }

  /** With no electrons of either spin the total density is zero. */
  lemma NoElectronsNoDensity(e: seq<real>, v: Matrix)
    requires IsSquare(v, |e|)
    ensures MatrixSum(Density(v, |e|, OccupationNumbers(e, 0)), Density(v, |e|, OccupationNumbers(e, 0)), |e|)
         == Zeros(|e|)
  {
    var n, o := |e|, OccupationNumbers(e, 0);
    forall i | 0 <= i < n
      ensures o[i] == 0.0
    {
      NoOccupation(Closeness(e), n, i);
    }
    var p := Density(v, n, o);
    forall r, c | 0 <= r < n && 0 <= c < n
      ensures p[r][c] == 0.0
    {
      DensityEntryZero(v, n, o, r, c, n);
    }
    MatrixExt(MatrixSum(p, p, n), Zeros(n), n);
  }

  /** Adding the outer product of orbital k extends the partial density by one orbital. */
  lemma OuterStep(v: Matrix, n: nat, occ: seq<real>, k: nat)
    requires IsSquare(v, n) && |occ| == n && k < n
    ensures AddOuter(PartialDensity(v, n, occ, k), n, occ[k], Column(v, n, k)) == PartialDensity(v, n, occ, k + 1)
  {
    var p, q, mo := PartialDensity(v, n, occ, k), PartialDensity(v, n, occ, k + 1), Column(v, n, k);
    var s := AddOuter(p, n, occ[k], mo);
    forall r, c | 0 <= r < n && 0 <= c < n
      ensures s[r][c] == q[r][c]
    {
      assert mo[r] == v[r][k] && mo[c] == v[c][k];
    }
    MatrixExt(s, q, n);
  }

  /** The loop of compute_density_matrix: for every eigenvector column MO, P_a += ONV_a[i] MO MO^T
    * and P_b += ONV_b[i] MO MO^T. */
  method AccumulateDensities(v: Matrix, n: nat, oa: seq<real>, ob: seq<real>) returns (pa: Matrix, pb: Matrix)
    requires IsSquare(v, n) && |oa| == n && |ob| == n
    ensures pa == Density(v, n, oa) && pb == Density(v, n, ob)
  {
    pa, pb := Zeros(n), Zeros(n);
    MatrixExt(pa, PartialDensity(v, n, oa, 0), n);
    MatrixExt(pb, PartialDensity(v, n, ob, 0), n);
    for idx := 0 to n
      invariant pa == PartialDensity(v, n, oa, idx) && pb == PartialDensity(v, n, ob, idx)
    {
      var mo := Column(v, n, idx);
      OuterStep(v, n, oa, idx);
      OuterStep(v, n, ob, idx);
      pa := AddOuter(pa, n, oa[idx], mo);
      pb := AddOuter(pb, n, ob[idx], mo);
    }
  }

  // ---------------------------------------------------------------------------
  // The solver object
  // ---------------------------------------------------------------------------

  /**
   * HuckelSolver: every attribute starts as the scalar 0, written None here. The
   * eigenpairs are set together by a solve; the occupation vectors and densities are
   * set by the observable computations.
   */
  class HuckelSolver {
    var eigenvals: Option<seq<real>>
    var eigenvecs: Option<Matrix>
    var onvA: Option<seq<real>>
    var onvB: Option<seq<real>>
    var densityA: Option<Matrix>
    var densityB: Option<Matrix>
    var density: Option<Matrix>

    /** The eigenvalues and the square eigenvector matrix come from one solve. */
    predicate Valid()
      reads this
    {
      (eigenvals.Some? <==> eigenvecs.Some?) &&
      (eigenvals.Some? ==> IsSquare(eigenvecs.value, |eigenvals.value|))
    }

    constructor ()
      ensures Valid()
      ensures eigenvals == None && eigenvecs == None && onvA == None && onvB == None
      ensures densityA == None && densityB == None && density == None
    {
      eigenvals, eigenvecs := None, None;
      onvA, onvB := None, None;
      densityA, densityB, density := None, None, None;
    }

    /** solve_ndo: stores the eigenpairs np.linalg.eigh computes for the n-by-n matrix h. */
    method SolveNdo(h: Matrix, vals: seq<real>, vecs: Matrix)
      requires IsSquare(h, |vals|) && IsSquare(vecs, |vals|)
      modifies this
      ensures Valid() && eigenvals == Some(vals) && eigenvecs == Some(vecs)
      ensures onvA == old(onvA) && onvB == old(onvB)
      ensures densityA == old(densityA) && densityB == old(densityB) && density == old(density)
    {
      eigenvals, eigenvecs := Some(vals), Some(vecs);
    }

    /** solve_general: stores the eigenpairs of the generalised problem (h, s). */
    method SolveGeneral(h: Matrix, s: Matrix, vals: seq<real>, vecs: Matrix)
      requires IsSquare(h, |vals|) && IsSquare(s, |vals|) && IsSquare(vecs, |vals|)
      modifies this
      ensures Valid() && eigenvals == Some(vals) && eigenvecs == Some(vecs)
      ensures onvA == old(onvA) && onvB == old(onvB)
      ensures densityA == old(densityA) && densityB == old(densityB) && density == old(density)
    {
      eigenvals, eigenvecs := Some(vals), Some(vecs);
    }

    /** ONV: sets ONV_a and then ONV_b; a count outside 0..n fails the vector-matrix
      * product with a ValueError, after ONV_a has been set if only nb is bad. */
    method Onv(e: seq<real>, na: int, nb: int) returns (error: Option<PyError>)
      modifies this
      ensures error.None? <==> Fits(na, |e|) && Fits(nb, |e|)
      ensures error.Some? ==> error.value == ValueError
      ensures onvA == if Fits(na, |e|) then Some(OccupationNumbers(e, na)) else old(onvA)
      ensures onvB == if Fits(na, |e|) && Fits(nb, |e|) then Some(OccupationNumbers(e, nb)) else old(onvB)
      ensures eigenvals == old(eigenvals) && eigenvecs == old(eigenvecs)
      ensures densityA == old(densityA) && densityB == old(densityB) && density == old(density)
    {
      if !Fits(na, |e|) {
        return Some(ValueError);
      }
      onvA := Some(OccupationNumbers(e, na));
      if !Fits(nb, |e|) {
        return Some(ValueError);
      }
      onvB := Some(OccupationNumbers(e, nb));
      return None;
    }

    /** compute_energy: before any solve len(0) raises a TypeError. */
    method ComputeEnergy(na: int, nb: int) returns (r: Result<real>)
      requires Valid()
      modifies this
      ensures Valid()
      ensures old(eigenvals).None? ==> r == Err(TypeError) && onvA == old(onvA) && onvB == old(onvB)
      ensures old(eigenvals).Some? ==>
        var e := old(eigenvals).value;
        (r.Ok? <==> Fits(na, |e|) && Fits(nb, |e|)) &&
        (r.Err? ==> r.error == ValueError && onvB == old(onvB)) &&
        (onvA == if Fits(na, |e|) then Some(OccupationNumbers(e, na)) else old(onvA)) &&
        (r.Ok? ==> onvB == Some(OccupationNumbers(e, nb)) &&
                   r.value == Energy(e, OccupationNumbers(e, na), OccupationNumbers(e, nb)))
      ensures eigenvals == old(eigenvals) && eigenvecs == old(eigenvecs)
      ensures densityA == old(densityA) && densityB == old(densityB) && density == old(density)
    {
      if eigenvals.None? {
        return Err(TypeError);
      }
      var e := eigenvals.value;
      var error := Onv(e, na, nb);
      if error.Some? {
        return Err(error.value);
      }
      r := Ok(Energy(e, onvA.value, onvB.value));
    }

    /** compute_density_matrix: P_a and P_b accumulate ONV-weighted outer products of the
      * eigenvector columns; P = P_a + P_b is stored and returned. */
    method ComputeDensityMatrix(na: int, nb: int) returns (r: Result<Matrix>)
      requires Valid()
      modifies this
      ensures Valid()
      ensures old(eigenvals).None? ==>
        (r == Err(TypeError) && onvA == old(onvA) && onvB == old(onvB) &&
         densityA == old(densityA) && densityB == old(densityB) && density == old(density))
      ensures old(eigenvals).Some? ==>
        var e, v := old(eigenvals).value, old(eigenvecs).value;
        (r.Ok? <==> Fits(na, |e|) && Fits(nb, |e|)) &&
        (r.Err? ==> r.error == ValueError && onvB == old(onvB) && densityA == old(densityA) && densityB == old(densityB) &&
                    density == old(density)) &&
        (onvA == if Fits(na, |e|) then Some(OccupationNumbers(e, na)) else old(onvA)) &&
        (r.Ok? ==>
          var pa, pb := Density(v, |e|, OccupationNumbers(e, na)), Density(v, |e|, OccupationNumbers(e, nb));
          onvB == Some(OccupationNumbers(e, nb)) &&
          densityA == Some(pa) && densityB == Some(pb) &&
          r.value == MatrixSum(pa, pb, |e|) && density == Some(r.value))
      ensures eigenvals == old(eigenvals) && eigenvecs == old(eigenvecs)
    {
      if eigenvals.None? {
        return Err(TypeError);
      }
      var e, v := eigenvals.value, eigenvecs.value;
      var n := |e|;
      var error := Onv(e, na, nb);
      if error.Some? {
        return Err(error.value);
      }
      var pa, pb := AccumulateDensities(v, n, onvA.value, onvB.value);
      densityA, densityB := Some(pa), Some(pb);
      density := Some(MatrixSum(pa, pb, n));
      r := Ok(MatrixSum(pa, pb, n));
    }
  }
}
