# MAX-SC-QBF in Dafny

A model of the MAX-SC-QBF repository: maximise a quadratic binary function
`f(x) = sum over i <= j of a[i][j] * x_i * x_j` over `n` binary variables, under the set-cover
side condition that the subsets `S_k` with `x_k = 1` together cover the universe. The model
covers five things:

- **The program builder** (`instance_solver.py`). It builds the linearised integer program:
  - binary variables `x_1..x_n` and `y_ij` for `i <= j`;
  - the objective `sum a[i-1][j-1] * y_ij`;
  - three linearisation constraints per pair;
  - one `>= 1` cover constraint per element of the union of the subsets.

  It also builds the unconstrained quadratic program of `create_qbf_model_from_instance`.
- **The result handling** of `solve_qbf_model`, `log_results` and `present_results`:
  - the absolute gap;
  - the chosen subsets;
  - the covered elements;
  - the coverage percentage.

  It also covers `sum_coeff`.
- **The instance reader** `read_max_sc_qbf_instance` (`instance_io.py`). It works on lines
  already split into tokens, and models every exception it raises as an error value.
- **The instance writer** shared by both generator scripts. It produces the same file layout.
- **The generators** `gen_subsets` and `create_instance` (`instance_gen1.py`, `instance_gen3.py`).
  Their random draws are parameters.

What is proved about the model:

- Any feasible point of the built program has `y_ij = x_i * x_j`.
- At a feasible point, its objective equals the quadratic objective.
- At a feasible point, the selected subsets cover the universe.
- Conversely, a binary point that satisfies the linearisation and covers the universe is
  feasible.
- Everything a generator writes reads back as exactly the generated instance.
- The generated subsets always cover `{1..n}`.
- For an upper-triangular matrix, which is what the reader returns, `sum_coeff` is the
  quadratic objective at the all-ones point.

The modules and their files:

| module | file | content |
|---|---|---|
| `Common` | `common.dfy` | options and results, integer ranges, the set of a sequence, distinctness, unions, sums |
| `QbfInstance` | `instance.dfy` | the instance `(n, sets, A)` and the shape predicates on `A` |
| `LinearProgram` | `linear_program.dfy` | a small linear-program vocabulary (variables `X(i)` / `Y(i, j)`, terms, constraints, valuations, feasibility) |
| `ModelBuilder` | `model_builder.dfy` | `create_model_from_instance`, `create_qbf_model_from_instance` and their properties |
| `SolverReport` | `solver_report.dfy` | the result record, the summary, `sum_coeff` |
| `InstanceReader` | `instance_reader.dfy` | `read_max_sc_qbf_instance` |
| `InstanceWriter` | `instance_writer.dfy` | the file layout the generators write, and its read-back |
| `SubsetGen` | `subset_gen.dfy` | `gen_subsets` |
| `RandomDraws` | `random_draws.dfy` | the candidate sizes and `random.uniform` |
| `InstanceGen1` | `instance_gen1.dfy` | `create_instance` of the first generator |
| `InstanceGen3` | `instance_gen3.dfy` | `create_instance` of the third generator (signed coefficients) |

Python iterates over a `set` in an order the program does not control. That order enters the
model as a parameter in two places:

- **The builder.** It takes an `order` that enumerates the universe. The properties hold for
  every such order.
- **The writer.** It lists each subset in an order it chooses itself. The read-back only
  depends on the set.

## Model

| member | source | states |
|---|---|---|
| ModelBuilder.RowPairs | instance_solver.py:17 | the pairs `(i, j)` of one row with `j0 <= j <= n`, and how many there are |
| ModelBuilder.Pairs | instance_solver.py:17 | the index set `IJs` holds exactly the pairs with `1 <= i <= j <= n` |
| ModelBuilder.PairsShape | instance_solver.py:17 | `IJs` lists the pairs in strictly increasing lexicographic order (so without repeats); it has `n(n+1)/2` elements; it is empty when `n <= 0` |
| ModelBuilder.Objective | instance_solver.py:21-24 | the objective has no constant and one term per pair of `IJs`, in the order of `IJs`; the term for `(i, j)` is `A[i-1][j-1] * y[i, j]`, with `1 <= i <= j <= n` |
| ModelBuilder.ObjectiveTermsAt | instance_solver.py:21-22 | the objective has one term per pair, and the term for `(i, j)` is `A[i-1][j-1] * y[i, j]` |
| ModelBuilder.ObjectiveIgnoresLowerTriangle | instance_solver.py:21-22 | two matrices that agree on and above the diagonal give the same objective, for every valuation |
| ModelBuilder.CreateQbfModel | instance_solver.py:135-155 | the unconstrained program has the same `n` and index set `IJs`; its objective has one term per pair, in the order of `IJs`; the term for `(i, j)` is `A[i-1][j-1] * x[i] * x[j]` |
| ModelBuilder.QuadTermsAt | instance_solver.py:150-151 | the quadratic objective has one term per pair; the term for `(i, j)` has coefficient `A[i-1][j-1]` |
| ModelBuilder.LinearizedEqualsQuadratic | instance_solver.py:150-151 | when every `y_ij` is `x_i * x_j` on binary `x`, the linear objective equals the quadratic objective of `create_qbf_model_from_instance` |
| ModelBuilder.Linearization | instance_solver.py:29-33 | the linearisation has three constraints per pair; each pair's three constraints are in it, and nothing else is |
| ModelBuilder.Triple | instance_solver.py:31-33 | the three constraints of one pair, `y <= x_i`, `y <= x_j` and `y >= x_i + x_j - 1`; that they force `y_ij = x_i AND x_j` on binary values is `LinearizationForcesAnd` |
| ModelBuilder.LinearizationForcesAnd | instance_solver.py:31-33 | for binary `x_i`, `x_j`, `y_ij`: the three constraints all hold if and only if `y_ij = x_i AND x_j` |
| ModelBuilder.AddLinearization | instance_solver.py:29-33 | the constraint-list loop produces exactly the linearisation |
| ModelBuilder.Containing | instance_solver.py:41-44 | the indices collected for an element are indices of subsets that hold it, in increasing order |
| ModelBuilder.HoldingIsListed | instance_solver.py:41-44 | every subset that holds the element is among the collected indices |
| ModelBuilder.CollectContaining | instance_solver.py:41-44 | the inner `enumerate` loop collects exactly `Containing` |
| ModelBuilder.XSum | instance_solver.py:46 | the left-hand side has one `x[i+1]` term per collected index `i`, in the same order |
| ModelBuilder.CoverConstraint | instance_solver.py:46 | one element's constraint `sum(x[k+1]) >= 1`; its terms are stated by `CoverConstraintTerms` and its meaning by `CoverConstraintMeaning` |
| ModelBuilder.CoverConstraints | instance_solver.py:37-46 | the contents of `set_cover_contraints` for a visiting order of the universe; that there is exactly one per element is `CoverConstraintCount` |
| ModelBuilder.CoverConstraintTerms | instance_solver.py:36-46 | an element's constraint is `sum >= 1` with no constant; every term is `1 * x[k+1]` for a subset `k` holding the element; every such subset has its term |
| ModelBuilder.CoverConstraintNonEmpty | instance_solver.py:38-46 | an element's constraint has at least one term exactly when the element is in the union |
| ModelBuilder.CoverConstraintMeaning | instance_solver.py:46 | for binary `x`, an element's constraint holds if and only if some subset holding it is selected |
| ModelBuilder.XSumReachesOne | instance_solver.py:46 | a sum of binary variables is non-negative, and reaches 1 exactly when one of them is 1 |
| ModelBuilder.AddCoverConstraints | instance_solver.py:36-46 | the outer loop over the universe produces one cover constraint per element, in visiting order |
| ModelBuilder.BuiltModel | instance_solver.py:8-48 | the program `create_model_from_instance` returns, for a visiting order of the universe; its parts are stated by `CreateModel`, and its feasible points by `FeasibleYIsAnd`, `FeasibleObjectiveIsQuadratic`, `FeasibleCoversUniverse` and `CoveringPointIsFeasible` |
| ModelBuilder.CreateModel | instance_solver.py:8-48 | the built program has `n` binary `x`, the pairs as `y`, the objective, the linearisation and the cover constraints |
| ModelBuilder.CoverConstraintCount | instance_solver.py:37-46 | there is exactly one cover constraint per element of the union, and each element's constraint is there |
| ModelBuilder.FeasibleYIsAnd | instance_solver.py:29-33 | in every feasible point, `y_ij = x_i AND x_j` for all pairs |
| ModelBuilder.FeasibleObjectiveIsQuadratic | instance_solver.py:21-33 | in every feasible point, the linear objective equals the quadratic objective |
| ModelBuilder.FeasibleCoversUniverse | instance_solver.py:36-46 | in every feasible point, each element of the universe lies in a selected subset |
| ModelBuilder.CoveringPointIsFeasible | instance_solver.py:8-48 | a binary point that satisfies the linearisation and covers every element is feasible |
| ModelBuilder.UniqueCoverForcesSelection | instance_solver.py:36-46 | if only one subset holds an element, every feasible point selects it |
| ModelBuilder.TriangleClosedForm | instance_solver.py:17 | the number of pairs in a triangle of side `k` is `k(k+1)/2` |
| SolverReport.AbsoluteGap | instance_solver.py:63-67 | the gap exists exactly when there is an incumbent; it is `abs(primal - dual)`, never negative, and zero only when primal equals dual |
| SolverReport.XValues | instance_solver.py:72 | `variables` has one value per `x[i]`, `i = 1..n`, in index order |
| SolverReport.SolveOutputOf | instance_solver.py:60-77 | the primal exists exactly when `SolCount > 0` and is then `ObjVal`; the absolute gap exists exactly with the primal and equals `abs(ObjVal - ObjBound)`; dual, relative gap and runtime are the attributes; the objective is the model's objective at the loaded values; `variables` are the loaded `x[1..n]` values, in index order |
| SolverReport.Chosen | instance_solver.py:93 | every chosen entry is a 1-based index of a position with value at least 0.5, and the entries increase |
| SolverReport.SelectedIsChosen | instance_solver.py:93 | every position with value at least 0.5 appears (1-based) among the chosen |
| SolverReport.ChosenMembers | instance_solver.py:93 | position `k` is chosen as `k + 1` if and only if its value is at least 0.5 |
| SolverReport.CoveredMeaning | instance_solver.py:95 | an element is covered if and only if a selected position names a subset holding it |
| SolverReport.CoveredBy | instance_solver.py:95 | every chosen subset lies in the covered set, and every covered element lies in some chosen subset |
| SolverReport.CoveragePct | instance_solver.py:96 | the percentage is 0 for an empty universe; otherwise `pct * len(universe) = 100 * len(covered)`, so it is `len(covered) / len(universe) * 100`; it lies in `[0, 100]` when no more is covered than the universe holds, and is 100 exactly when everything is covered |
| SolverReport.Summarize | instance_solver.py:93-96 | the universe is the union; chosen is the increasing list of selected positions, each entry a position `1..len(variables)` whose value is at least 0.5, and every such position is in it; covered is what they hold, within the universe; the percentage is `CoveragePct(len(covered), len(universe))`, in `[0, 100]`, 0 for an empty universe, and 100 exactly when covered is the whole non-empty universe |
| SolverReport.FullCoverageSummary | instance_solver.py:93-96 | if every element lies in a selected subset, then covered is the whole universe and coverage is 100% |
| SolverReport.FeasibleSolutionFullCoverage | instance_solver.py:8-96 | for any feasible point of the built program, the summary chooses exactly the subsets whose `x` is 1 and reports full coverage; the file may declare more subsets than `n`, as long as the extra ones are empty |
| SolverReport.SumCoeff | instance_solver.py:159-161 | the sum of every entry of `A`, row by row; that it is the objective at the all-ones point of an upper-triangular matrix is `SumCoeffIsAllSelectedObjective` |
| SolverReport.SumCoeffIsAllSelectedObjective | instance_solver.py:159-161 | for an upper-triangular matrix, `sum_coeff` is the linear objective, and also the quadratic objective, at the point where every variable is 1 |
| SolverReport.RowObjectiveAllOnes | instance_solver.py:159-161 | with every variable 1, the objective terms of one row sum to that row's coefficients from the starting column on |
| SolverReport.PairsFromAllOnes | instance_solver.py:159-161 | with every variable 1, the objective terms of rows `i..n` sum to the coefficients of those rows |
| InstanceReader.ParseN | instance_io.py:25 | `int(lines[0])` succeeds exactly on a line of one integer token |
| InstanceReader.IntsOf | instance_io.py:28 | `map(int, ...)` succeeds exactly when every token is an integer, and yields them in order |
| InstanceReader.FloatsOf | instance_io.py:44 | `map(float, ...)` succeeds exactly when no token is a word, and yields the token values in order |
| InstanceReader.SubsetAt | instance_io.py:34-36 | a subset line is read without error exactly when it exists, is all integers, and its set of elements has the declared size; the result is that set |
| InstanceReader.Subsets | instance_io.py:31-38 | the subsets are read without error exactly when each is; the result holds them in order; an error is the first failing line's error |
| InstanceReader.SubsetsFirstError | instance_io.py:33-36 | the first failing subset line decides the error |
| InstanceReader.RowAt | instance_io.py:44-46 | a row line is read without error exactly when it holds numbers only and does not run past column `n - 1` |
| InstanceReader.RowCount | instance_io.py:43 | the row loop reads `min(n, lines left)` lines, none when `n` is negative |
| InstanceReader.Rows | instance_io.py:42-48 | the rows are read without error exactly when each is; an error is the first failing row's error |
| InstanceReader.RowsFirstError | instance_io.py:42-48 | the first failing row line decides the error |
| InstanceReader.Matrix | instance_io.py:41-46 | `A` is `n x n` (empty for negative `n`); row `r`, column `c` holds the `(c - r)`-th value of row line `r` when there is one, and 0 otherwise |
| InstanceReader.Read | instance_io.py:3-50 | a successful read has at least two lines, `n` from line 0, and an `n x n` matrix that is zero below the diagonal |
| InstanceReader.ReadSubsets | instance_io.py:31-38 | the subset loop returns exactly `Subsets` |
| InstanceReader.WriteRow | instance_io.py:45-46 | the inner `enumerate` loop writes the row's values from the diagonal, or stops with `IndexError` exactly when the row is too long |
| InstanceReader.ReadRows | instance_io.py:41-48 | the `while` loop returns exactly the matrix of `Rows`, or its error |
| InstanceReader.ReadInstance | instance_io.py:3-50 | the reader returns exactly `Read` |
| InstanceReader.ReadSubsetsAsDeclared | instance_io.py:28-38 | after a successful read there is one subset per declared size; subset `k` is the set of line `2 + k` and has the declared size |
| InstanceReader.ReadMatrixLayout | instance_io.py:40-48 | after a successful read, every consumed row line holds numbers within the row; each entry on or right of the diagonal comes from its row line or is 0; the matrix is upper triangular |
| InstanceReader.ReadSizeMismatch | instance_io.py:34-36 | a subset line whose set size differs from the declared size fails with that line's size mismatch, once the earlier subset lines are good |
| InstanceReader.ReadOverlongRow | instance_io.py:45-46 | a row line with more values than its row has columns fails with `IndexError` at that line, once the earlier rows are good |
| InstanceReader.ReadIgnoresTrailingLines | instance_io.py:42-48 | lines after the last row the reader consumes do not change the result |
| InstanceWriter.IntLine | instance_gen1.py:45-51 | a line of written integers reads back as those integers |
| InstanceWriter.NumberLine | instance_gen1.py:56 | a line of written numbers reads back as those numbers |
| InstanceWriter.SizesLine | instance_gen1.py:45-47 | the sizes line reads back as the subset sizes, in order |
| InstanceWriter.WriteSubset | instance_gen1.py:49-52 | a subset is written as a line listing each of its elements once |
| InstanceWriter.WriteHeader | instance_gen1.py:37-52 | the header is `n`, the sizes line and one listing line per subset |
| InstanceWriter.ReadWritten | instance_gen1.py:37-58 | a file in the generators' layout reads back without error as the written `n`, subsets and upper triangle, zero below the diagonal |
| InstanceWriter.ReadAssembled | instance_gen1.py:37-58 | the header followed by the row lines has the layout, and reads back as the written instance |
| SubsetGen.ForcedInto | instance_gen1.py:18-19 | the elements forced into subset `k` are those whose draw picked `k` |
| SubsetGen.SampleSubsets | instance_gen1.py:11-15 | each sampled subset has exactly its drawn size and lies in `{1..n}` |
| SubsetGen.ForceCoverage | instance_gen1.py:17-19 | after the forcing loop, subset `k` is its sample plus the elements forced into it |
| SubsetGen.ForcingCoversUniverse | instance_gen1.py:17-19 | after forcing, every subset lies in `{1..n}` and the union is exactly `{1..n}` |
| SubsetGen.GenSubsets | instance_gen1.py:6-21 | `n` subsets, each containing its sample and lying in `{1..n}`, jointly covering `{1..n}` |
| RandomDraws.Uniform | instance_gen1.py:56 | `uniform(a, b)` lies in `[a, b]` (below `b` for a non-degenerate interval) |
| InstanceGen1.WriteRow | instance_gen1.py:55-56 | a row of `i` values, each `uniform(-10, 10)` and within `[-10, 10]` |
| InstanceGen1.WriteCoefficients | instance_gen1.py:54-58 | `n` rows of lengths `n, n-1, ..., 1`, each value a draw in `[-10, 10]` |
| InstanceGen1.MatrixWithin | instance_gen1.py:54-58 | if the written values lie in `[lo, hi]` with `lo <= 0 <= hi`, so does every entry of the matrix read back |
| InstanceGen1.CreateInstance | instance_gen1.py:25-58 | `n` is a candidate size; the subsets cover `{1..n}`; the file reads back as exactly the generated instance, with entries in `[-10, 10]` |
| InstanceGen3.Coefficient | instance_gen3.py:55-58 | a coefficient is in `[0, 10]` when its coin is at most `p`, and in `[-10, 0]` otherwise |
| InstanceGen3.WriteRow | instance_gen3.py:54-58 | a row of `i` signed coefficients |
| InstanceGen3.WriteCoefficients | instance_gen3.py:53-61 | `n` rows of lengths `n, ..., 1` of signed coefficients |
| InstanceGen3.SignedEntries | instance_gen3.py:53-61 | every upper-triangle entry read back has the sign its coin decided |
| InstanceGen3.CreateInstance | instance_gen3.py:25-61 | as the first generator, with every upper-triangle entry signed by its coin |

## Left out

- Several things are outside the model:
  - the solver call itself (`SolverFactory`, `opt.solve`, the time limit, `model_results`);
  - the Pyomo objects;
  - `experiments.py`.

  The solver's attributes and the values it loads into `x` are parameters of `SolveOutputOf`.
  "Feasible" means that every constraint holds.
- `SolverReport.SolveOutputOf` takes the loaded values as a total valuation, even when
  `SolCount` is 0. `pyo.value(model.obj)` and `x[i]` are read whatever the solution count, and
  what Pyomo does when no solution was loaded is not modelled. The model assumes that some
  values are there to read.
- Optimality is not modelled. Nothing is claimed about what the solver returns beyond the
  attributes it reports.
- File opening, `strip()`/`split()`, and writing text are replaced by lines of tokens:
  - `Token` separates what `int()` accepts, what only `float()` accepts, and anything else;
  - the exact set of strings each accepts is not modelled.
- `round(x, 2)` and the textual form of floats are not modelled. Coefficients are exact reals,
  so `Uniform` is computed in exact arithmetic. Floating-point rounding is not modelled.
- `print` and logger output are not modelled, beyond the values the summary derives.
  `relative_gap` formatting is not modelled.
- `sys.argv` and the loops over `num_instances` are not modelled. The generators return the
  lines of one file instead of writing it.
- Randomness enters as draws given as parameters:
  - `random.choice` becomes an index into the candidates;
  - `random.randint`, `random.sample` and `random.random` become sequences constrained to their
    ranges.

  The distributions are not modelled.
- `gen_subsets` is modelled once. It is identical in `instance_gen3.py:6-21`.
- The order in which Python iterates over a `set` is modelled as described above. The builder
  and writer properties hold for every order.
- `ModelBuilder.CreateModel` requires at least one subset, an empty subset at every position
  past the `n`-th, and a matrix with at least `n` rows of at least `n` entries each
  (`AtLeastSquare`). Python raises when any of the three fails:
  - `set.union()` with no argument raises;
  - `model.x[k+1]` is only read for a subset `k` that holds an element, so it raises only for a
    non-empty subset past the `n`-th;
  - `A[i-1][j-1]` at `instance_solver.py:22` raises `IndexError` on a smaller matrix.

  The model does not reproduce these failures as error values.
- `SolverReport.Summarize` requires that every selected position names a subset.
  - `sets[i - 1]` raises `IndexError` otherwise.
  - That can only happen when the file declares fewer subsets than `n`, because the reader does
    not compare the two.
- `SubsetGen.GenSubsets` takes `n` as a natural number. The scripts only call it with the
  candidate sizes.
