# A verified model of the core of ProgrammingPortfolio

This project models the computational core of a portfolio repository in Dafny and proves
properties of that model. The repository has six separate components:

- **gqcml feature encoder** (`Preprocessor`, module `Preprocessor`, with shared matrix
  machinery in `Matrices`). It turns an n-by-n weighted graph into node features:
  - binary connectivity and diagonal rewriting;
  - self-loop and average edge weights;
  - vertex degrees and their one-hot classes;
  - per-class neighbourhood means;
  - degree-pair classes.
- **gqcml graph sampler** (`graph_sampler`, module `GraphSampler`):
  - every arrangement of a typed diagonal;
  - triu vectors turned into symmetric matrices;
  - simultaneous row and column permutation;
  - homogeneous and typed (inhomogeneous) weight sampling.
- **gqcml Hückel solver** (`HuckelSolver`, module `Huckel`, a class). It builds
  occupation-number vectors that share electrons over degenerate levels, the energy, and
  the spin densities.
- **Tic-tac-toe** (module `TicTacToe`): the victory checks over a 3-by-3 grid held in an
  `array2`, the coin toss for the turn order, and the placement rule of a turn.
- **Dating-app profile** (module `DatingProfile`, class `Profile`): the constructor,
  `add_hobby`, and the summary sentence of `view_profile`.
- **Advent of Code 2023, days 1–3** (modules `Calibration`, `CubeGame`, `Schematic`):
  - day 1: calibration values with number words substituted;
  - day 2: cube games parsed into count matrices, checked against limits, then summed;
  - day 3: numbers next to a sign in an engine schematic.
- **Rosalind "Counting DNA Nucleotides"** (module `Nucleotides`): the shuffled test string
  and the three ways of counting bases.

How Python and C++ are represented:

- numpy floats are exact `real`s.
- Python exceptions are the `Err` side of `Wrappers.Result` (IndexError, KeyError,
  ValueError, TypeError).
- Random draws are parameters.
- Code that changes state step by step is a `method` with loop invariants, proved against
  a specification function.
- Pure code is functions and lemmas.

## Model

| member | source | states |
|---|---|---|
| Matrices.TriuToMatrix | python/gqcml/gqcml/data/Data.py:72-75 | triu_to_matrix succeeds exactly when numpy can assign the vector (it fits n(n+1)/2 positions or broadcasts one value); the filled array is then the matrix FromTriu |
| Matrices.WriteUpper | python/gqcml/gqcml/data/Data.py:73 | after the first fancy assignment, entry (x, y) with x <= y holds the triu value at its row-major position, and every other entry is still 0 |
| Matrices.WriteLower | python/gqcml/gqcml/data/Data.py:74 | the assignment through the transpose writes the same values below the diagonal and leaves the upper triangle as it was |
| Matrices.FromTriuSymmetric | python/gqcml/gqcml/data/Data.py:72-75 | every matrix built from a triu vector is symmetric |
| Matrices.TriuRoundTrip | python/gqcml/gqcml/data/Data.py:72-75 | re-extracting m[np.triu_indices(n, 0)] from the built matrix gives the vector back |
| Matrices.MatrixRoundTrip | python/gqcml/gqcml/data/Data.py:72-75 | a symmetric matrix is rebuilt exactly from its upper triangle, so the vector and the matrix forms are in one-to-one correspondence |
| Matrices.ToTriuAt | python/gqcml/gqcml/data/Data.py:73 | the triu vector has n(n+1)/2 entries, and entry (r, c) with r <= c sits at TriuIndex(n, r, c) |
| Matrices.TriuLenClosedForm | python/gqcml/gqcml/data/Data.py:73 | the number of upper-triangle positions, diagonal included, is n(n+1)/2 |
| Matrices.MeanOfIndicators | python/gqcml/gqcml/data/Data.py:255-264 | a 0/1 indicator row, with its count inverted where nonzero, times the indicator-weighted sum is the mean of the selected values, and 0 when nothing is selected |
| Matrices.MeanConstant | python/gqcml/gqcml/data/Data.py:255-264 | when every selected value is w, the mean of a non-empty selection is w |
| Matrices.MeanBounds | python/gqcml/gqcml/data/Data.py:255-264 | a mean lies between any bounds that every selected value respects |
| Preprocessor.BinarizeMatrix | python/gqcml/gqcml/data/Data.py:87-92 | every nonzero entry becomes 1 and zeros stay 0; with diagonal=False the diagonal is overwritten with 0 whatever the input |
| Preprocessor.AdjacencyMatrix | python/gqcml/gqcml/data/Data.py:129-149 | the result is a copy whose off-diagonal entries equal the input; the diagonal is 1 for "ones", 0 for "zeros" and unchanged for None |
| Preprocessor.OffDiagonalFormat | python/gqcml/gqcml/data/Data.py:13-22 | a copy with a zero diagonal and every off-diagonal entry kept |
| Preprocessor.DiagonalToMatrixOnEdges | python/gqcml/gqcml/data/Data.py:24-47 | with the off-diagonal connectivity, the "row" form holds the neighbour's self-loop weight on each edge and the "column" form the centre's, and 0 off the edges |
| Preprocessor.CategoricalMatrix | python/gqcml/gqcml/data/Data.py:49-60 | the categorical tensor is n-by-n-by-w: entry (i, j) is the class vector of i masked by the connectivity |
| Preprocessor.WeightsNFMeaning | python/gqcml/gqcml/data/Data.py:167-172 | column 0 is the self-loop weight; column 1 is the mean of the nonzero off-diagonal entries of the vertex's column, and NaN for a vertex with no neighbour (numpy's 1/0 times 0) |
| Preprocessor.WeightsNFHomogeneous | python/gqcml/gqcml/data/Data.py:167-172 | when every edge of a vertex weighs w, its average edge weight is exactly w |
| Preprocessor.DegreeIsBinaryColumnSum | python/gqcml/gqcml/data/Data.py:190-192 | the degree is the column sum of the binary matrix, diagonal included, minus 1 |
| Preprocessor.DegreeCountsNeighbours | python/gqcml/gqcml/data/Data.py:190-192 | with a nonzero self-loop, the degree is the number of neighbours |
| Preprocessor.VDegreeNF | python/gqcml/gqcml/data/Data.py:190-197 | vdegree_nf fails with IndexError exactly when a categorical class row does not exist, and otherwise has one row per vertex of width num_degrees (categorical) or 1 |
| Preprocessor.VDegreeClasses | python/gqcml/gqcml/data/Data.py:193-195 | a degree d in 1..num_degrees selects class d-1; degree 0 selects row -1, the last class; a larger degree raises IndexError |
| Preprocessor.VDegreeNFCategorical | python/gqcml/gqcml/data/Data.py:193-195 | with at least two classes, the categorical encoding fails exactly when some degree exceeds num_degrees, and otherwise every row is one-hot at its class |
| Preprocessor.InvertNonzero | python/gqcml/gqcml/data/Data.py:255-258 | the loop over np.nonzero replaces every nonzero count by its reciprocal and leaves zero counts at 0, so an empty class never divides by zero |
| Preprocessor.SelfLoopColumns | python/gqcml/gqcml/data/Data.py:244 | the first block of the weighted encoders is the class row of each vertex times its self-loop weight |
| Preprocessor.ClassTensorIndicator | python/gqcml/gqcml/data/Data.py:251 | entry (i, j, k) of the categorical tensor is 1 exactly on an edge (i, j) whose centre i has class k, and 0 otherwise |
| Preprocessor.AverageMaskCases | python/gqcml/gqcml/data/Data.py:252-264 | in "average" mode a row's selection is its neighbours in its own class column and nothing in any other class |
| Preprocessor.AverageNeighbourBlock | python/gqcml/gqcml/data/Data.py:252-264 | "average" second block: in i's own class column, the mean self-loop weight of i's neighbours; every other class column is 0 |
| Preprocessor.AverageEdgeBlock | python/gqcml/gqcml/data/Data.py:252-264 | "average" third block: in i's own class column, the mean weight of i's edges; every other class column is 0 |
| Preprocessor.AverageOutput | python/gqcml/gqcml/data/Data.py:252-264 | the whole "average" output, given the inverted counts: self-loop class rows, then the two per-class means |
| Preprocessor.AverageBlocks | python/gqcml/gqcml/data/Data.py:252-264 | the "average" computation returns a 9-column grid whose blocks are the class rows, the neighbour means and the edge means |
| Preprocessor.LinearNeighbourBlock | python/gqcml/gqcml/data/Data.py:265-276 | "linear combination" second block: entry (j, k) is the mean self-loop weight of j's neighbours of class k, and 0 when there are none |
| Preprocessor.LinearEdgeBlock | python/gqcml/gqcml/data/Data.py:265-276 | "linear combination" third block: entry (j, k) is the mean weight of the edges from j's neighbours of class k, and 0 when there are none |
| Preprocessor.LinearCombinationOutput | python/gqcml/gqcml/data/Data.py:265-276 | the whole "linear combination" output, given the inverted column counts |
| Preprocessor.LinearCombinationBlocks | python/gqcml/gqcml/data/Data.py:265-276 | the "linear combination" computation returns a 9-column grid of class rows and the per-class means over the columns |
| Preprocessor.VDegreeWeightedNF | python/gqcml/gqcml/data/Data.py:241-277 | vdegree_weighted_nf fails with IndexError exactly when a degree has no class row; otherwise it returns 3 columns, or 9 with neighbourhood and a known weight method, each block as above |
| Preprocessor.PairClassRange | python/gqcml/gqcml/data/Data.py:304-309 | every degree pair (c, d) in 1..num_degrees gets a class (c-1)·num_degrees+d in 1..num_degrees² |
| Preprocessor.PairClassInjective | python/gqcml/gqcml/data/Data.py:304-309 | distinct degree pairs get distinct classes |
| Preprocessor.DegreePairs | python/gqcml/gqcml/data/Data.py:304-307 | the nested loops list num_degrees² pairs row by row; the pair at position t has class t+1, and every pair in range occurs |
| Preprocessor.AppendRow | python/gqcml/gqcml/data/Data.py:305-307 | one pass of the outer loop appends (c, 1) .. (c, num_degrees) and keeps the listing invariant |
| Preprocessor.DegreePairClasses | python/gqcml/gqcml/data/Data.py:304-309 | degree_dict maps each pair in range, and only those, to its 1-based position, which is its class |
| Preprocessor.PairMatrixEntry | python/gqcml/gqcml/data/Data.py:310-313 | pair_matrix is 0 off the edges and on the diagonal, and the class of (deg i, deg j) on an edge |
| Preprocessor.PairVectors | python/gqcml/gqcml/data/Data.py:315-321 | cat_pair_matrix appends, in row-major order, a zero vector for 0 and row int(el)-1 of the identity otherwise |
| Preprocessor.PairVector | python/gqcml/gqcml/data/Data.py:316-320 | the vector appended for an entry is the indicator of its edge's degree-pair class |
| Preprocessor.PairTensor | python/gqcml/gqcml/data/Data.py:310-321 | entry (i, j, q) of cat_pair_matrix is 1 exactly when (i, j) is an edge whose degree pair has class q+1 |
| Preprocessor.PairNeighbourBlock | python/gqcml/gqcml/data/Data.py:322-333 | second block at (i, p): the mean self-loop weight of the neighbours of i whose degree pair has class p+1, and 0 for an empty class |
| Preprocessor.PairEdgeBlock | python/gqcml/gqcml/data/Data.py:322-333 | third block at (i, p): the mean weight of the edges of i whose degree pair has class p+1 |
| Preprocessor.PairOutput | python/gqcml/gqcml/data/Data.py:322-333 | the whole pdegree output, given the pair tensor and its inverted counts |
| Preprocessor.PDegreeWeightedNF | python/gqcml/gqcml/data/Data.py:300-333 | pdegree_weighted_nf fails with IndexError when a degree exceeds the 3 default classes; otherwise any degree outside 1..num_degrees fails the dictionary lookup with KeyError, edge or not; on success the width is 3 + 2·num_degrees² with the blocks above |
| GraphSampler.Repeat | python/gqcml/gqcml/data_generators/graph_sampler.py:30 | [v] * k has max(k, 0) entries, so a zero or negative count adds no labels and raises nothing |
| GraphSampler.RepeatMultiset | python/gqcml/gqcml/data_generators/graph_sampler.py:30 | [v] * k holds v exactly max(k, 0) times |
| GraphSampler.RearrangementsExact | python/gqcml/gqcml/data_generators/graph_sampler.py:32 | the set of permutations holds exactly the lists whose elements, with multiplicity, are those of the starting diagonal |
| GraphSampler.GenerateDiagonalVector | python/gqcml/gqcml/data_generators/graph_sampler.py:28-33 | a list is returned exactly when it is a rearrangement of [1]*n1 + [2]*n2 + ...; as a set it has no duplicates and no order |
| GraphSampler.TwoTypesOfTwo | python/gqcml/gqcml/data_generators/graph_sampler.py:20-26 | counts [2, 2] give exactly the six arrangements of 1, 1, 2, 2 |
| GraphSampler.SixDistinct | python/gqcml/gqcml/data_generators/graph_sampler.py:20-26 | those six arrangements are pairwise distinct, so there are six of them |
| GraphSampler.ConvertTriuToMat | python/gqcml/gqcml/data_generators/graph_sampler.py:44-47 | it behaves exactly as triu_to_matrix: ValueError when the vector cannot be assigned, otherwise a symmetric matrix that carries the triu values and gives them back |
| GraphSampler.Permuted | python/gqcml/gqcml/data_generators/graph_sampler.py:62 | np.take along both axes: out[a][b] = m[p[a]][p[b]], negative indices counting from the end |
| GraphSampler.PermutateMatrix | python/gqcml/gqcml/data_generators/graph_sampler.py:60-63 | one permuted matrix per permutation, in input order; an index outside the matrix raises IndexError |
| GraphSampler.PermutedSymmetric | python/gqcml/gqcml/data_generators/graph_sampler.py:60-63 | permuting rows and columns alike keeps a symmetric matrix symmetric |
| GraphSampler.PermutedIdentity | python/gqcml/gqcml/data_generators/graph_sampler.py:60-63 | the identity permutation returns the matrix unchanged |
| GraphSampler.PermutedCompose | python/gqcml/gqcml/data_generators/graph_sampler.py:60-63 | permuting by p and then by q is one permutation by the composed index list |
| GraphSampler.PermutedInverse | python/gqcml/gqcml/data_generators/graph_sampler.py:60-63 | permuting by p and then by its inverse gives the original matrix back |
| GraphSampler.FillDiagonal | python/gqcml/gqcml/data_generators/graph_sampler.py:91 | writing the diagonal entry by entry gives the matrix with only its diagonal replaced |
| GraphSampler.SampleHomogeneousMatrix | python/gqcml/gqcml/data_generators/graph_sampler.py:84-93 | exactly one triu vector per pair of draws, in order; ValueError for a negative number of samples or a template that cannot be assigned |
| GraphSampler.HomogeneousTriu | python/gqcml/gqcml/data_generators/graph_sampler.py:84-93 | in sample k every diagonal entry is d_k, every off-diagonal template 1 is o_k, and every other template value, 0 included, is kept |
| GraphSampler.MaxLabelIsMax | python/gqcml/gqcml/data_generators/graph_sampler.py:125 | max(labels) bounds every label and is one of them |
| GraphSampler.SubstituteLabel | python/gqcml/gqcml/data_generators/graph_sampler.py:130-142 | when no draw equals a label value, the np.where substitutions replace label l by the draw of type l and leave other values alone |
| GraphSampler.SampleOffDiagonal | python/gqcml/gqcml/data_generators/graph_sampler.py:128-135 | the matrix loop of one sample substitutes the types in turn, then averages with the transpose |
| GraphSampler.SampleDiagonal | python/gqcml/gqcml/data_generators/graph_sampler.py:139-143 | the diagonal loop of one sample substitutes the types in turn in the label vector |
| GraphSampler.SampleInhomogeneousMatrix | python/gqcml/gqcml/data_generators/graph_sampler.py:120-148 | one triu vector per sample, each the typed sample of the template with the labels broadcast to n vertices; ValueError exactly for a negative number of samples, an unassignable template, an empty label vector, a negative maximum, or labels whose length is neither n nor 1 (when n is 1, only if a sample is drawn) |
| GraphSampler.BroadcastMax | python/gqcml/gqcml/data_generators/graph_sampler.py:120-125 | a single label broadcast to every vertex gives each vertex that label and keeps max(labels), so the number of weight types is unchanged |
| GraphSampler.InhomogeneousTriu | python/gqcml/gqcml/data_generators/graph_sampler.py:120-148 | with a 0/1 template and labels from 1: vertex i gets the diagonal draw of its type, an edge (i, j) the mean of the two types' off-diagonal draws, and a non-edge 0 |
| GraphSampler.InhomogeneousEntry | python/gqcml/gqcml/data_generators/graph_sampler.py:123-135 | one entry of a typed sample over a symmetric 0/1 template entry |
| GraphSampler.SameTypeEdge | python/gqcml/gqcml/data_generators/graph_sampler.py:132-135 | two vertices of the same type joined by an edge get that type's own draw |
| Huckel.Closeness | python/gqcml/gqcml/data_generators/Huckel.py:49-50 | entry (i, j) is np.isclose(e[i], e[j]) with numpy's default tolerances; the relation is reflexive |
| Huckel.Degeneracy | python/gqcml/gqcml/data_generators/Huckel.py:52 | the column sum of the closeness relation is at least 1, so 1/degeneracy never divides by zero |
| Huckel.IdentityOccupations | python/gqcml/gqcml/data_generators/Huckel.py:49-56 | when no two levels are close, the occupations are the step vector [1]*na + [0]*(n-na) |
| Huckel.EquivalenceBounds | python/gqcml/gqcml/data_generators/Huckel.py:49-56 | when closeness is an equivalence, each occupation is (occupied levels in the block)/(block size) and lies in [0, 1] |
| Huckel.OccupationSum | python/gqcml/gqcml/data_generators/Huckel.py:49-56 | with a symmetric closeness, the occupations add up to the number of electrons |
| Huckel.ThreefoldLevel | python/gqcml/gqcml/data_generators/Huckel.py:49-56 | eigenvalues [1, 1, 1, 5] with one electron give [1/3, 1/3, 1/3, 0] |
| Huckel.NonTransitiveChain | python/gqcml/gqcml/data_generators/Huckel.py:49-56 | np.isclose is not transitive: with the levels 0, 6e-9 and 1.1e-8 and three electrons, the middle level is filled to 4/3 |
| Huckel.FullShellEnergy | python/gqcml/gqcml/data_generators/Huckel.py:101-104 | with every level filled by both spins and closeness an equivalence, the energy is twice the sum of the eigenvalues |
| Huckel.NonTransitiveFullShell | python/gqcml/gqcml/data_generators/Huckel.py:49-104 | without transitivity a full shell misses that value: the chain 0, 6e-9, 1.1e-8 filled by both spins gives occupations 5/6, 4/3, 5/6 and an energy 1e-9/3 above twice the eigenvalue sum |
| Huckel.FilledEnergy | python/gqcml/gqcml/data_generators/Huckel.py:103 | with occupation 1 everywhere for both spins, eigenvals·ONV_a + eigenvals·ONV_b is twice the sum of the eigenvalues |
| Huckel.DensitySymmetric | python/gqcml/gqcml/data_generators/Huckel.py:121-128 | every density built from eigenvector outer products is symmetric |
| Huckel.NoElectronsNoDensity | python/gqcml/gqcml/data_generators/Huckel.py:117-133 | with no electrons of either spin the total density is the zero matrix |
| Huckel.AccumulateDensities | python/gqcml/gqcml/data_generators/Huckel.py:119-128 | the loop over eigenvector columns yields P_a = Σ ONV_a[i]·v_i v_iᵀ and P_b likewise |
| Huckel.HuckelSolver.constructor | python/gqcml/gqcml/data_generators/Huckel.py:25-32 | a fresh solver has every attribute at its initial (scalar 0) state |
| Huckel.HuckelSolver.SolveNdo | python/gqcml/gqcml/data_generators/Huckel.py:59-71 | stores the eigenpairs and leaves the ONV and density fields untouched |
| Huckel.HuckelSolver.SolveGeneral | python/gqcml/gqcml/data_generators/Huckel.py:73-86 | stores the eigenpairs of the generalised problem and leaves the other fields untouched |
| Huckel.HuckelSolver.Onv | python/gqcml/gqcml/data_generators/Huckel.py:34-57 | sets ONV_a, then ONV_b, to the degeneracy-shared occupations; an electron count outside 0..N raises ValueError, after ONV_a is set when only N_b is bad |
| Huckel.HuckelSolver.ComputeEnergy | python/gqcml/gqcml/data_generators/Huckel.py:88-104 | before any solve, TypeError (len of 0); otherwise stores the ONVs and returns Σ e_i(ONV_a[i] + ONV_b[i]); a bad count is a ValueError that leaves ONV_b as it was |
| Huckel.HuckelSolver.ComputeDensityMatrix | python/gqcml/gqcml/data_generators/Huckel.py:106-133 | before any solve, TypeError; otherwise stores the ONVs, P_a, P_b and P = P_a + P_b, and returns P; a bad count is a ValueError that leaves ONV_b and the densities as they were |
| TicTacToe.PlayerOrder | cpp/codecademy_portfolio_projects/tic-tac-toe/ttt_functions.cpp:5-22 | the turn order is [0, 1] on heads (rand() % 2 + 1 == 1) and [1, 0] on tails, so it is always one of the two orders |
| TicTacToe.CheckRowVictory | cpp/codecademy_portfolio_projects/tic-tac-toe/ttt_functions.cpp:91-99 | true exactly when some row holds three equal cells that are not blank; the grid is not modified |
| TicTacToe.CheckColVictory | cpp/codecademy_portfolio_projects/tic-tac-toe/ttt_functions.cpp:101-109 | true exactly when some column holds three equal non-blank cells |
| TicTacToe.CheckDiagVictory | cpp/codecademy_portfolio_projects/tic-tac-toe/ttt_functions.cpp:111-120 | true exactly when the main diagonal or the anti-diagonal holds three equal non-blank cells |
| TicTacToe.CheckVictory | cpp/codecademy_portfolio_projects/tic-tac-toe/ttt_functions.cpp:122-130 | true exactly when one of the three checks holds |
| TicTacToe.BlankBoardNoVictory | cpp/codecademy_portfolio_projects/tic-tac-toe/ttt_functions.cpp:122-130 | an all-blank grid has no victory |
| TicTacToe.InstructionExamples | cpp/codecademy_portfolio_projects/tic-tac-toe/ttt_functions.cpp:48-55 | the three example grids of the instructions show a row, a column and a diagonal victory |
| TicTacToe.Token | cpp/codecademy_portfolio_projects/tic-tac-toe/ttt_functions.cpp:78-83 | player 0 places "o" and player 1 "x"; any other number has no token, and no token is blank |
| TicTacToe.PlaceOnCells | cpp/codecademy_portfolio_projects/tic-tac-toe/ttt_functions.cpp:76-83 | placement changes at most the target cell, and only a blank one, to the player's token |
| TicTacToe.PlacementKeepsVictory | cpp/codecademy_portfolio_projects/tic-tac-toe/ttt_functions.cpp:76-83 | a winning line has no blank cell, so a placement never undoes a victory |
| TicTacToe.Place | cpp/codecademy_portfolio_projects/tic-tac-toe/ttt_functions.cpp:76-87 | one pass of the loop: is_empty becomes true exactly for a blank target, and the grid becomes the placement on the old grid |
| TicTacToe.FirstBlank | cpp/codecademy_portfolio_projects/tic-tac-toe/ttt_functions.cpp:74-76 | the first typed target that is blank, with every earlier one occupied; none when all are occupied |
| TicTacToe.UpdateBoard | cpp/codecademy_portfolio_projects/tic-tac-toe/ttt_functions.cpp:71-89 | targets are read until a blank one, which receives the player's token; an occupied target changes nothing and the loop repeats |
| DatingProfile.Unsigned | cpp/codecademy_portfolio_projects/dating_app/profile.cpp:13 | std::size_t arithmetic: the result is the value modulo 2^64 |
| DatingProfile.NatString | cpp/codecademy_portfolio_projects/dating_app/profile.cpp:9 | std::to_string of a natural number is a non-empty string of decimal digits without a leading zero |
| DatingProfile.DecimalString | cpp/codecademy_portfolio_projects/dating_app/profile.cpp:9 | std::to_string of an int starts with '-' exactly when the int is negative |
| DatingProfile.DecimalRoundTrip | cpp/codecademy_portfolio_projects/dating_app/profile.cpp:9 | the age as written reads back as the same number |
| DatingProfile.ManyHobbies | cpp/codecademy_portfolio_projects/dating_app/profile.cpp:10-24 | with at least two hobbies the summary adds "My hobbies are ", each hobby but the last two followed by ", ", then "a and b." |
| DatingProfile.OneHobby | cpp/codecademy_portfolio_projects/dating_app/profile.cpp:13-15 | with one hobby, size()-2 wraps, so the text is "My hobbies are h, " with no period |
| DatingProfile.IntendedEndsWithPeriod | cpp/codecademy_portfolio_projects/dating_app/profile.cpp:12-24 | with the comparison made on signed numbers, every non-empty hobby list ends with a period, and the text equals the code's own for two or more hobbies |
| DatingProfile.NoHobbies | cpp/codecademy_portfolio_projects/dating_app/profile.cpp:9-10 | without hobbies the summary is the introduction alone, starting "Hi! My name is " and ending "pronouns." |
| DatingProfile.AppendHobbies | cpp/codecademy_portfolio_projects/dating_app/profile.cpp:12-25 | the hobby loop appends each hobby with its separator, giving the pieces of HobbyText |
| DatingProfile.Profile.constructor | cpp/codecademy_portfolio_projects/dating_app/profile.cpp:5 | stores name, age, city, country and pronouns, with no hobbies |
| DatingProfile.Profile.AddHobby | cpp/codecademy_portfolio_projects/dating_app/profile.cpp:31-33 | appends exactly one hobby at the end, and every other field is unchanged |
| DatingProfile.Profile.ViewProfile | cpp/codecademy_portfolio_projects/dating_app/profile.cpp:7-29 | returns the introduction followed by the hobby text, and changes nothing |
| Calibration.KeyFrom | python/Coding_Advent_2023/Day_1/day_1.py:64-85 | the alternation picks the first word, in list order, that starts the text, or none |
| Calibration.ReplacementDigit | python/Coding_Advent_2023/Day_1/day_1.py:64-66 | each replacement has its word's length and exactly one digit, the word's value |
| Calibration.SubstPassLength | python/Coding_Advent_2023/Day_1/day_1.py:85-87 | a substitution pass keeps the line's length |
| Calibration.WordStep | python/Coding_Advent_2023/Day_1/day_1.py:86 | a whole word is replaced by its value and the scan resumes after it |
| Calibration.SubstPassQuiet | python/Coding_Advent_2023/Day_1/day_1.py:86 | a line without number words passes through unchanged |
| Calibration.DigitsOnly | python/Coding_Advent_2023/Day_1/day_1.py:97 | after the filter the line holds only 0-9 and is no longer than before |
| Calibration.DigitsAppend | python/Coding_Advent_2023/Day_1/day_1.py:97 | the digit filter distributes over concatenation |
| Calibration.CalibrationDigits | python/Coding_Advent_2023/Day_1/day_1.py:85-97 | after both passes and the filter, only digits remain |
| Calibration.SingleDigit | python/Coding_Advent_2023/Day_1/day_1.py:103-106 | a line with a single digit d is worth 11·d, as "treb7uchet" is worth 77 |
| Calibration.CalibrationSum | python/Coding_Advent_2023/Day_1/day_1.py:103-113 | the sum fails with IndexError exactly when some line has no digit |
| Calibration.EightTwoThree | python/Coding_Advent_2023/Day_1/day_1.py:85-87 | the second pass finds the "two" that shares its "t" with "eight", so "eightwothree" is worth 83 |
| Calibration.Part1Total | python/Coding_Advent_2023/Day_1/day_1.py:17-24 | the part 1 example lines total 142 |
| Calibration.Part2Total | python/Coding_Advent_2023/Day_1/day_1.py:33-45 | the part 2 example lines total 281 |
| CubeGame.Split | python/Coding_Advent_2023/Day_2/day_2.py:10-13 | str.split with one separator always yields at least one part |
| CubeGame.SplitJoin | python/Coding_Advent_2023/Day_2/day_2.py:10-13 | joining the parts with the separator gives the string back |
| CubeGame.JoinSplit | python/Coding_Advent_2023/Day_2/day_2.py:10-13 | splitting a join of separator-free parts gives the parts back |
| CubeGame.FreeSplitLength | python/Coding_Advent_2023/Day_2/day_2.py:10-11 | a string splits into a single part exactly when it holds no separator |
| CubeGame.FormatLine | python/Coding_Advent_2023/Day_2/day_2.py:10-14 | format_line fails with IndexError exactly when the line has no ':'; otherwise it has one draw per ';'-part of the text between the first and the second ':' |
| CubeGame.GameLabelIgnored | python/Coding_Advent_2023/Day_2/day_2.py:10-11 | the text before ':' plays no part in the parse |
| CubeGame.FormatRender | python/Coding_Advent_2023/Day_2/day_2.py:7-14 | a line rendered from draws in the documented format parses back to those draws |
| CubeGame.TotalsOk | python/Coding_Advent_2023/Day_2/day_2.py:25-28 | format_draw succeeds exactly when every item has a count and a known colour and the count parses |
| CubeGame.TotalsTally | python/Coding_Advent_2023/Day_2/day_2.py:25-28 | on success the row is [blue, green, red], each the sum of that colour's counts, so repeated colours are added |
| CubeGame.AbsentColour | python/Coding_Advent_2023/Day_2/day_2.py:22-25 | a colour that no item names has count 0 |
| CubeGame.TotalsError | python/Coding_Advent_2023/Day_2/day_2.py:26-27 | the error is that of the first bad item: IndexError for a missing token, KeyError for an unknown colour, ValueError for a bad count |
| CubeGame.FormatDraw | python/Coding_Advent_2023/Day_2/day_2.py:25-28 | the item loop computes exactly the prefix fold Totals |
| CubeGame.Rows | python/Coding_Advent_2023/Day_2/day_2.py:31 | succeeds exactly when every draw does, with each row that draw's totals |
| CubeGame.GameMatrix | python/Coding_Advent_2023/Day_2/day_2.py:30-31 | a successful game matrix has at least one row, and every row has three columns |
| CubeGame.ExampleMatrix | python/Coding_Advent_2023/Day_2/day_2.py:33 | the example line gives [[3,0,4],[6,2,1],[0,2,0]] |
| CubeGame.CheckMeaning | python/Coding_Advent_2023/Day_2/day_2.py:35-52 | with three limits the answer is 1 exactly when every entry is within its column's limit, and 0 otherwise |
| CubeGame.CheckShortLimits | python/Coding_Advent_2023/Day_2/day_2.py:48-51 | with too few limits the loop raises IndexError at the first column without a limit, unless an earlier column already answered 0 |
| CubeGame.ConstraintChecker | python/Coding_Advent_2023/Day_2/day_2.py:35-52 | the column loop returns the answer CheckFrom specifies |
| CubeGame.CheckerExamples | python/Coding_Advent_2023/Day_2/day_2.py:38-45 | the two documented matrices give 1 and 0 |
| CubeGame.Verdicts | python/Coding_Advent_2023/Day_2/day_2.py:70-71 | one 0/1 verdict per line, in order |
| CubeGame.PositionSumMeaning | python/Coding_Advent_2023/Day_2/day_2.py:69-72 | the dot product is the sum of the 1-based positions of the possible games (not the parsed ids), between 0 and n(n+1)/2, at the top exactly when all games are possible |
| CubeGame.IdSumMeaning | python/Coding_Advent_2023/Day_2/day_2.py:69-72 | id_sum raises IndexError for no lines; otherwise its answer is the sum of the positions of the possible games |
| CubeGame.ColumnMax | python/Coding_Advent_2023/Day_2/day_2.py:81 | np.amax of a column bounds every entry and is one of them |
| CubeGame.FewestIsLeast | python/Coding_Advent_2023/Day_2/day_2.py:81 | the column maxima make the game possible, and no smaller limit in any column does |
| CubeGame.PowerNonNegative | python/Coding_Advent_2023/Day_2/day_2.py:82 | a game with counts of at least 0 has a power of at least 0 |
| CubeGame.PowerSumNonNegative | python/Coding_Advent_2023/Day_2/day_2.py:80-83 | when every line is a game with counts of at least 0, power_sum succeeds with a total of at least 0 |
| Schematic.RunEnd | python/Coding_Advent_2023/Day_3/day_3.py:30 | the digit run starting at i is maximal |
| Schematic.SpansShape | python/Coding_Advent_2023/Day_3/day_3.py:30-41 | every match of -?\d+ is a numeral that cannot be extended by a digit, and the half-open spans come in order without overlapping |
| Schematic.DigitsCovered | python/Coding_Advent_2023/Day_3/day_3.py:30 | every digit of a line lies in one of the spans |
| Schematic.NumeralValue | python/Coding_Advent_2023/Day_3/day_3.py:39 | int(match) is negative only for a numeral starting with '-' |
| Schematic.GridPlacesMeaning | python/Coding_Advent_2023/Day_3/day_3.py:36-42 | a recorded place is exactly a line index with one of that line's spans |
| Schematic.ExtractNumbers | python/Coding_Advent_2023/Day_3/day_3.py:21-43 | the loops append every match's value and place, line by line in order |
| Schematic.GridSignsMeaning | python/Coding_Advent_2023/Day_3/day_3.py:55-63 | a sign cell is exactly a cell holding a character that is not a letter, a digit or '_', so '.' and '-' count |
| Schematic.ExtractSigns | python/Coding_Advent_2023/Day_3/day_3.py:51-64 | the loops record every \W match and its cell, in order (the cells are exactly GridSigns), and each recorded sign is the character of the schematic at its recorded cell |
| Schematic.ValidCells | python/Coding_Advent_2023/Day_3/day_3.py:70-88 | a cell is returned exactly when it lies inside the schematic, in lines l-1..l+1 and columns b-1..e, and is not one of the number's own cells (l, b..e-1) |
| Schematic.AddIfPart | python/Coding_Advent_2023/Day_3/day_3.py:93-97 | the number is added once if any of its cells is a sign cell, however many are |
| Schematic.ValidNumberSum | python/Coding_Advent_2023/Day_3/day_3.py:90-98 | the loop over zip(numbers, places) computes PartSum over the shorter of the two lists |
| Schematic.PartSumBounds | python/Coding_Advent_2023/Day_3/day_3.py:90-98 | with non-negative numbers, the sum lies between 0 and the sum of all numbers, and reaches the top when every number is a part |
| Schematic.IsPartMeaning | python/Coding_Advent_2023/Day_3/day_3.py:82-95 | a number counts exactly when a sign lies in one of the cells around it |
| Schematic.PartNumberSum | python/Coding_Advent_2023/Day_3/day_3.py:13-100 | an empty schematic raises IndexError (data[0]); otherwise the answer is the part-number sum of the extracted numbers and signs |
| Nucleotides.CountIsMultiplicity | python/Bioinformatics_Rosalind/Counting_Nucleotides/main.py:32-35 | s.count(c) is the multiplicity of c in s |
| Nucleotides.CountsSumToLength | python/Bioinformatics_Rosalind/Counting_Nucleotides/main.py:32-35 | on a string of bases, the four counts add up to its length |
| Nucleotides.DictCount | python/Bioinformatics_Rosalind/Counting_Nucleotides/main.py:43-48 | the dictionary loop succeeds exactly on a string of bases, else KeyError; its keys are the four bases, each holding the str.count count |
| Nucleotides.CounterMeaning | python/Bioinformatics_Rosalind/Counting_Nucleotides/main.py:55-56 | Counter holds exactly the characters that occur, each with its str.count count, so it agrees with the other two methods |
| Nucleotides.UnshuffledCounts | python/Bioinformatics_Rosalind/Counting_Nucleotides/main.py:25 | before the shuffle each base occurs nmb_BP times |
| Nucleotides.Shuffle | python/Bioinformatics_Rosalind/Counting_Nucleotides/main.py:26 | the in-place shuffle keeps the multiset of characters |
| Nucleotides.PermutationCounts | python/Bioinformatics_Rosalind/Counting_Nucleotides/main.py:26 | a reordering keeps every count |
| Nucleotides.TestString | python/Bioinformatics_Rosalind/Counting_Nucleotides/main.py:24-27 | the test string is a DNA string of 4·nmb_BP bases, each occurring nmb_BP times, whatever the draws |
| Nucleotides.SampleCounts | python/Bioinformatics_Rosalind/Counting_Nucleotides/main.py:13-16 | the sample dataset counts to 20 12 17 21 |

## Left out

- The D^-1/2 normalisation of `adjacency_matrix` (`normalize=True`) is not modelled. It needs square roots and works on floating-point degree sums. Only the diagonal-policy path is modelled.
- The `reshape(n, n, 1, 1)` and `squeeze` calls are not modelled. They only change array shapes; the model keeps matrices and tensors in their logical shape.
- `vdegree_nf` and the encoders are not special-cased for n = 0: the model gives an empty result, while numpy's `reshape(0, -1)` may raise.
- `weights_nf` keeps the entries `1/0` (infinity) for isolated vertices only through their product: the model has a NaN value for the average edge weight and no infinities.
- Floating point: numpy floats are exact reals. `np.isclose` is modelled with its default tolerances on reals, and rounding is not.
- The eigendecompositions `np.linalg.eigh` and `sp.linalg.eigh` are foreign linear algebra. Their eigenvalues and eigenvectors are inputs of `SolveNdo` and `SolveGeneral`; that they solve the eigenproblem and come in ascending order is not checked.
- Huckel.EquivalenceBounds: the [0, 1] bound is proved only when closeness is transitive, because `np.isclose` is not (NonTransitiveChain shows an occupation of 4/3). Huckel.FullShellEnergy has the same premise for the same reason (NonTransitiveFullShell).
- Huckel.HuckelSolver.Onv: takes the N of `ONV(eigenvals, N, N_a, N_b)` to be the number of eigenvalues, which is what both callers pass. A direct call with another N, which gives vectors of length N or a broadcasting error, is not modelled.
- CubeGame.PowerSumNonNegative, CubeGame.IdSumMeaning: numpy's `np.prod` and `np.dot` work on int64 and wrap on overflow. The model's `PowerSum` and `IdSum` use unbounded integers, so they agree with the program only while the sums and products fit in 64 bits.
- Randomness is a parameter: `std::rand` in `determine_player_order`, `np.random.uniform` in both samplers, and `random.shuffle` in the nucleotide script. The shuffle is modelled as a Fisher-Yates pass over given draws.
- The samplers' draws are functions of (type, sample). That they lie in the intervals is not used; the default intervals are what keep a draw from equalling a label value, which the lemmas take as a premise.
- Console and file I/O are not modelled:
  - `display_board`, `instruction` (its example grids are modelled), `player_input`;
  - the messages of `determine_player_order` and `update_board`;
  - the file reads of the Advent scripts and `id_sum`/`power_sum` (lines are a list);
  - every print and the timing calls.
- TicTacToe.UpdateBoard: a target outside the 3-by-3 grid is excluded by a precondition. The C++ code does not check it and indexing out of range is undefined behaviour. A list of targets with no blank one ends the model's loop, where the program would keep reading input.
- Schematic.ExtractNumbers: `extract_nmb_idx` ignores its `fileData` argument and reads the module-level `data`. The model takes the grid as the parameter, which is what every call passes.
- The `signifier_pattern` of `extract_sign_idx` is compiled but never used, so it is not modelled.
- `\w` and `\d` are modelled on ASCII. Python also matches other Unicode letters and digits.
- `int()` is modelled for the numerals the regular expressions produce (an optional sign, then digits). In day 2 a count is a whole token; the surrounding whitespace and underscores that `int()` also accepts are not modelled.
- `main.cpp` of tic-tac-toe and `dating_app.cpp` are usage examples and are not part of this model.

## Findings

| source | as written | input that shows it | evidently intended | confidence | as-written member | corrected member |
|---|---|---|---|---|---|---|
| cpp/codecademy_portfolio_projects/dating_app/profile.cpp:13 | `i < hobbies.size()-2` is computed in unsigned `size_t`, so for one hobby `size()-2` wraps to 2^64-1 | a profile with the single hobby "chess" gives "...My hobbies are chess, " | a one-hobby list reads "My hobbies are chess." | not executed | DatingProfile.OneHobby | DatingProfile.IntendedEndsWithPeriod |
