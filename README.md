# complexity_determinant in Dafny

A model of the core of `complexity_determinant`. This Python tool estimates the
asymptotic complexity of a routine. It times the routine on problems of
increasing size, fits the timings by least squares to three classes (O(n),
O(n log n) and O(n²)), and reports the valid class with the smallest mean
squared error.

The repository ships two variants of the complexity logic, and both are modelled:

- **The package variant** is `complexity_determinant/complexity.py`, in module
  `PackageComplexity`. Each class has a two-term basis. A fit needs at least two
  samples. The measuring function `determine` has one timeout for all problems.
- **The script variant** is `complexity_determinant/complexity_determinant/complexity.py`,
  in module `ScriptComplexity`. Its bases have two, three and four terms. A fit
  needs at least four samples. Its measuring class `ComplexityDeterminant`
  (`complexity_determinant.py`, module `Determinant`) keeps its table across
  calls. It has a per-problem timeout and a total timeout, and it wipes the table
  whenever the tested function raises.

Both variants share the least-squares fit of `approximation.py` (module `Approximation`):

- The design matrix A has rows `[f(x) for f in base]`.
- The factors are `(AᵀA)⁻¹·Aᵀ·b`. The model proves they are the unique solution of
  the normal equations AᵀA·x = Aᵀb.
- Matrices and vectors are over `real` (module `Matrix`). `inv` is a chosen
  inverse, and the model proves it unique. For 2×2 matrices the closed-form
  inverse is proved correct, and invertibility is proved equivalent to a
  nonzero determinant.

The helper modules:

- `Dict` models a Python dict as the list of its entries in insertion order.
  `d[k] = v` on an existing key keeps the key's place.
- `Selection` models `min(..., key=...)`, which keeps the first minimum, and
  filtering.
- `Measuring` defines how one timed call can end: `Success(time)`, `Raised`,
  `SingleTimeout` or `TotalTimeout`. It also defines the observable events: a
  call of the tested function, and the clean-up call.

`math.log` is a parameter `log: real -> real`. The tested function, the clean-up
function and the clock are abstracted: one `CallOutcome` per problem, in the map's
order, says how each call ended.

The model follows the code where a reading of the design would differ:

- **Validity shortcut (script variant).** `is_valid` compares the bound method
  `complexity_info` (not the class) with `ComplexityLevel.N`. The linear shortcut
  is therefore never taken, and every class needs a leading factor above 0.01.
- **Table after a total timeout.** When the total timeout fires,
  `ComplexityDeterminant.complexity` does not use the partial table. Line 50 is
  outside the `try`, so the exception escapes the property before `clean_up_function`
  is called.
- **No reset between calls.** `self.measurements` is only reset by a wipe, never
  between calls. So a second call builds on what the first one left.

## Model

| member | source | states |
|---|---|---|
| Matrix.Transpose | complexity_determinant/complexity_determinant/approximation.py:43 | entry (j, i) of the transpose is entry (i, j) of the matrix |
| Matrix.MatMul | complexity_determinant/complexity_determinant/approximation.py:44 | row i of the product is row i of P times Q, column by column |
| Matrix.Inverse | complexity_determinant/complexity_determinant/approximation.py:45 | the inverse of an invertible matrix is a two-sided inverse, and every two-sided inverse equals it |
| Matrix.InverseSolves | complexity_determinant/complexity_determinant/approximation.py:45-46 | B·(B⁻¹·c) = c, and B·x = c holds exactly when x = B⁻¹·c |
| Matrix.Inverse2 | complexity_determinant/complexity_determinant/approximation.py:45 | for a 2×2 matrix of nonzero determinant, (1/det)·[[d, −b], [−c, a]] is its inverse |
| Matrix.Invertible2 | complexity_determinant/complexity_determinant/approximation.py:45 | a 2×2 matrix has an inverse exactly when its determinant is nonzero (`inv` raises otherwise) |
| Approximation.Row | complexity_determinant/complexity_determinant/approximation.py:21-25 | the row for size x holds base[j](x) for every basis function, in basis order |
| Approximation.DesignMatrix | complexity_determinant/complexity_determinant/approximation.py:17-28 | A has one row per sample and one column per basis function; row i is the row of sample i's size |
| Approximation.Observations | complexity_determinant/complexity_determinant/approximation.py:18-22 | b has one entry per sample, the sample's time |
| Approximation.FactorsVector | complexity_determinant/complexity_determinant/approximation.py:34-46 | (AᵀA)⁻¹·Aᵀ·b solves the normal equations AᵀA·x = Aᵀb, and every solution equals it |
| Approximation.SolvesNormalEquations | complexity_determinant/complexity_determinant/approximation.py:43-46 | with any inverse of AᵀA, (B⁻¹·Aᵀ)·b is the one solution of the normal equations |
| Approximation.FactorsVector2 | complexity_determinant/complexity_determinant/approximation.py:43-46 | for two basis functions and nonzero det(AᵀA), the closed-form solve satisfies the normal equations and equals the general solve |
| Approximation.Fit | complexity_determinant/complexity_determinant/approximation.py:10-13 | keeps the basis and the samples; one factor per basis function; the factors solve the normal equations |
| Approximation.CalculateFactors | complexity_determinant/complexity_determinant/approximation.py:15-32 | the rows and observations built in the loops give the factors of the fit, which solve the normal equations |
| Approximation.Call | complexity_determinant/complexity_determinant/approximation.py:48-55 | the loop's sum is Σ factors[i]·base[i](x), the fitted function at x |
| Approximation.Evaluate | complexity_determinant/complexity_determinant/approximation.py:48-55 | the fitted function at x, Σ factors[i]·base[i](x), the reference the loop of `__call__` is proved equal to |
| Approximation.FittedValues | complexity_determinant/complexity_determinant/approximation.py:48-55 | the fitted values at the stored sizes are the entries of A·factors |
| Approximation.SquaredError | complexity_determinant/complexity_determinant/approximation.py:63-65 | the sum of squared residuals is never negative |
| Approximation.MeanSquaredError | complexity_determinant/complexity_determinant/approximation.py:57-66 | the loop computes the squared residuals summed and divided by the number of samples; never negative |
| Approximation.Mse | complexity_determinant/complexity_determinant/approximation.py:57-66 | the mean of the squared residuals over the fit's own samples, never negative |
| Approximation.SquaredErrorZero | complexity_determinant/complexity_determinant/approximation.py:63-65 | the error sum is zero exactly when every sample lies on the fitted curve |
| Approximation.MseZero | complexity_determinant/complexity_determinant/approximation.py:57-66 | the mean squared error is at least zero, and zero exactly when the fit passes through every sample |
| Dict.Put | complexity_determinant/complexity_determinant/complexity_determinant.py:39 | `d[k] = v` keeps keys distinct, adds k to the keys and appends a new key last |
| Dict.PutExistingKey | complexity_determinant/complexity_determinant/complexity_determinant.py:39 | `d[k] = v` on an existing key replaces that key's entry in place and changes nothing else |
| Dict.GetPut | complexity_determinant/complexity_determinant/complexity_determinant.py:39 | after `d[k] = v`, k reads v and every other key reads as before |
| Dict.PutAll | complexity_determinant/complexity_determinant/complexity_determinant.py:37-39 | a sequence of stores keeps keys distinct; the keys are the old ones together with the stored ones |
| Dict.PutAllSnoc | complexity_determinant/complexity_determinant/complexity_determinant.py:37-39 | storing one more entry is one more `d[k] = v` |
| Dict.PutAllIntoEmpty | complexity_determinant/complexity_determinant/complexity_determinant.py:42 | storing distinct-key entries into `{}` gives them back in order |
| Dict.GetPutAll | complexity_determinant/complexity_determinant/complexity_determinant.py:37-39 | after a sequence of stores, a stored key reads its stored value and any other key reads as before |
| Levels.ModifierFor | complexity_determinant/complexity.py:76-80 | "worse than" exactly above the upper bound, "better than" exactly below the lower bound and not above the upper, nothing exactly between the two |
| Levels.Rank | complexity_determinant/complexity.py:144-148 | every class is proposed, at the position Rank gives |
| Levels.RankOfProposal | complexity_determinant/complexity.py:144-148 | no class is proposed twice: Rank of the i-th proposal is i |
| Levels.ChooseLevel | complexity_determinant/complexity.py:157-158 | no choice exactly when no candidate is kept; otherwise a kept class of least error, and every kept class proposed earlier has a strictly larger error |
| Selection.FirstMin | complexity_determinant/complexity.py:158 | `min` with a key returns a position of least key, and every earlier position has a strictly larger key |
| Selection.KeptIndices | complexity_determinant/complexity.py:157 | the filter keeps exactly the positions whose flag is set, in increasing order |
| Selection.FirstMinOfKeptIsMinimal | complexity_determinant/complexity.py:157-158 | the position `min` picks among the kept ones has a cost no larger than any kept position's |
| Selection.FirstMinOfKeptIsEarliest | complexity_determinant/complexity.py:157-158 | every kept position before the one `min` picks costs strictly more |
| Selection.BestIndex | complexity_determinant/complexity.py:157-158 | nothing exactly when nothing is kept (where `min` raises); otherwise a kept position of least cost, earlier kept positions costing strictly more |
| Measuring.TestedEvents | complexity_determinant/complexity_determinant/complexity_determinant.py:37-39 | one call of the tested function per problem, in the map's order |
| Measuring.SuccessEntries | complexity_determinant/complexity.py:111-113 | the (size, time) pairs of the calls that succeeded, in the map's order: the stores `measurements[size] = ...` makes |
| Measuring.SuccessEntriesLength | complexity_determinant/complexity.py:111-113 | `SuccessEntries`, the entries `measurements[size] = ...` stores, holds one entry at most per call; what they map each size to is SuccessEntriesLookup |
| Measuring.SuccessEntriesLookup | complexity_determinant/complexity.py:111-113 | the successful calls' table has distinct keys, only sizes of the map, and a size reads its call's time exactly when its call succeeded |
| PackageComplexity.Bases | complexity_determinant/complexity.py:20-39 | every class has two basis functions: the constant 1 and its own term x, x·x or x·log x |
| PackageComplexity.DeterminedIsFittable | complexity_determinant/complexity.py:43-45 | for a two-term basis, the fit exists exactly when det(AᵀA) is nonzero |
| PackageComplexity.NewComplexity | complexity_determinant/complexity.py:43-45 | the complexity keeps its class, the class's basis and the samples, with two factors |
| PackageComplexity.NewComplexityIsFit | complexity_determinant/complexity.py:43-45 | the factors from the closed-form 2×2 inverse solve the normal equations and make the same approximation as the general fit |
| PackageComplexity.IsValid | complexity_determinant/complexity.py:60-71 | the linear class is always valid; another class is valid exactly when its leading factor exceeds 1e-9, so a non-positive leading factor leaves only the linear class valid |
| PackageComplexity.ReportModifier | complexity_determinant/complexity.py:73-80 | "better than" exactly below 0.05, "worse than" exactly above 10, no qualifier between them |
| PackageComplexity.KeyFactor | complexity_determinant/complexity.py:71-75 | `factors[-1][-1]`, the factor of the class's own term that `is_valid` and the report compare |
| PackageComplexity.ExecutionTime | complexity_determinant/complexity.py:51-53 | the estimated time is the fitted approximation evaluated at the problem size |
| PackageComplexity.ExecutionTimeIsFittedCurve | complexity_determinant/complexity.py:51-53 | the estimated time at size n is f0 + f1·t(n), with t the class's own term |
| PackageComplexity.LevelError | complexity_determinant/complexity.py:158 | a candidate's mean squared error, the key `min` compares, is never negative |
| PackageComplexity.Kept | complexity_determinant/complexity.py:150-157 | the filter flag of every class is whether its candidate is valid |
| PackageComplexity.Errors | complexity_determinant/complexity.py:158 | the key of every class is its candidate's mean squared error |
| PackageComplexity.BestComplexity | complexity_determinant/complexity.py:137-162 | no result exactly when there are fewer than two samples; otherwise the fitted candidate of some class (the linear one is always valid, so `min` never fails) |
| PackageComplexity.ChoiceExists | complexity_determinant/complexity.py:60-71 | with two samples or more `min` always has a class to pick, since the linear candidate always passes the filter |
| PackageComplexity.BestComplexityIsMinimal | complexity_determinant/complexity.py:157-158 | the class chosen is valid, and for every valid class the chosen one's mean squared error is no larger |
| PackageComplexity.BestComplexityEarliest | complexity_determinant/complexity.py:144-158 | on a tie the class proposed first wins: every valid class proposed earlier has a strictly larger error |
| PackageComplexity.FirstTimeout | complexity_determinant/complexity.py:101-103 | the loop runs up to the first call that timed out: no call before it timed out |
| PackageComplexity.Table | complexity_determinant/complexity.py:108-126 | the table `determine` hands to `best_complexity`: the successes before the first timeout, at most one entry per call made before it |
| PackageComplexity.MeasureTime | complexity_determinant/complexity.py:108-116 | the table holds the successes before the first timeout; the calls made are the problems up to and including the one that timed out; the loop was cut short exactly when some call timed out |
| PackageComplexity.Determine | complexity_determinant/complexity.py:87-127 | the clean-up function is called once, after all calls of the tested function, with or without a timeout; the result is `best_complexity` of the table |
| PackageComplexity.TableLookup | complexity_determinant/complexity.py:111-126 | the table has an entry for a size exactly when its call came before the first timeout and succeeded, with that call's time; no other key |
| ScriptComplexity.Bases | complexity_determinant/complexity_determinant/complexity.py:18-34 | N is [1, x], N2 is [1, x, x·x], NLOGN is [1, log x, x, x·log x] |
| ScriptComplexity.NewComplexity | complexity_determinant/complexity_determinant/complexity.py:36-38 | the complexity keeps its class, the class's basis and the samples, with one factor per basis function |
| ScriptComplexity.NewComplexitySolves | complexity_determinant/complexity_determinant/complexity.py:36-38 | the factors solve the normal equations of the class's basis |
| ScriptComplexity.IsValid | complexity_determinant/complexity_determinant/complexity.py:53-61 | valid exactly when the leading factor exceeds 0.01, the linear class included |
| ScriptComplexity.ReportModifier | complexity_determinant/complexity_determinant/complexity.py:63-70 | "better than" exactly below 0.5, "worse than" exactly above 5, no qualifier between them |
| ScriptComplexity.KeyFactor | complexity_determinant/complexity_determinant/complexity.py:61-65 | `factors[-1][-1]`, the factor of the class's leading term that `is_valid` and the report compare |
| ScriptComplexity.ExecutionTime | complexity_determinant/complexity_determinant/complexity.py:44-46 | the estimated time is the fitted approximation evaluated at the problem size |
| ScriptComplexity.ExecutionTimeIsCurve | complexity_determinant/complexity_determinant/complexity.py:44-46 | the estimated time is the class's curve: f0 + f1·n; f0 + f1·n + f2·n²; f0 + f1·log n + f2·n + f3·n·log n |
| ScriptComplexity.LevelError | complexity_determinant/complexity_determinant/complexity.py:98 | a candidate's mean squared error is never negative |
| ScriptComplexity.Kept | complexity_determinant/complexity_determinant/complexity.py:90-97 | the filter flag of every class is whether its candidate is valid |
| ScriptComplexity.Errors | complexity_determinant/complexity_determinant/complexity.py:98 | the key of every class is its candidate's mean squared error |
| ScriptComplexity.BestComplexity | complexity_determinant/complexity_determinant/complexity.py:77-102 | too few samples exactly below four; no valid candidate (where `min` raises) exactly when four or more samples leave every class invalid; otherwise some class's fitted candidate |
| ScriptComplexity.BestLevel | complexity_determinant/complexity_determinant/complexity.py:97-102 | with four samples or more a class is chosen exactly when `min` has one to pick, and it is the one `min` picks |
| ScriptComplexity.BestComplexityIsMinimal | complexity_determinant/complexity_determinant/complexity.py:97-98 | a chosen class is valid, and for every valid class the chosen one's mean squared error is no larger |
| ScriptComplexity.BestComplexityEarliest | complexity_determinant/complexity_determinant/complexity.py:84-98 | on a tie the class proposed first wins: every valid class proposed before the chosen one has a strictly larger error |
| Determinant.FirstTotalTimeout | complexity_determinant/complexity_determinant/complexity_determinant.py:34-37 | the total timeout ends the loop at its first occurrence: no call before it hit it |
| Determinant.Step | complexity_determinant/complexity_determinant/complexity_determinant.py:38-45 | one pass of the loop body leaves a dict with distinct keys |
| Determinant.Processed | complexity_determinant/complexity_determinant/complexity_determinant.py:37-45 | the table after the loop body has run for every problem still has distinct keys |
| Determinant.Run | complexity_determinant/complexity_determinant/complexity_determinant.py:34-45 | the table the loop leaves up to the first total timeout has distinct keys |
| Determinant.AfterLastRaise | complexity_determinant/complexity_determinant/complexity_determinant.py:40-42 | the position after the last raising call: the call before it raised, and no call from it on raised |
| Determinant.ProcessedIsLastStretch | complexity_determinant/complexity_determinant/complexity_determinant.py:37-45 | the table after a run is the old table (or `{}` if some call raised) with the successes after the last raising call stored into it in order |
| Determinant.ProcessedKeys | complexity_determinant/complexity_determinant/complexity_determinant.py:37-45 | a run only adds sizes of the map; when no call raised, every old key stays |
| Determinant.ProcessedAt | complexity_determinant/complexity_determinant/complexity_determinant.py:37-45 | the size of a call after the last raising one reads that call's time if it succeeded; otherwise its old value if nothing raised, and nothing after a wipe |
| Determinant.ProcessedElsewhere | complexity_determinant/complexity_determinant/complexity_determinant.py:40-45 | a key that is the size of no call after the last raising one keeps its old value if nothing raised, and is absent after a wipe |
| Determinant.RunKeepsTable | complexity_determinant/complexity_determinant/complexity_determinant.py:20-45 | with no raising call the table is never reset: old keys stay and keys not re-measured keep their old times |
| Determinant.ComplexityDeterminant.constructor | complexity_determinant/complexity_determinant/complexity_determinant.py:16-20 | keeps the problem map and starts with an empty table |
| Determinant.ComplexityDeterminant.Valid | complexity_determinant/complexity_determinant/complexity_determinant.py:16-20 | the problem map and the table are dicts: their keys are distinct; every method keeps this |
| Determinant.ComplexityDeterminant.Record | complexity_determinant/complexity_determinant/complexity_determinant.py:38-45 | one call's handlers change the table as one Step: a success stores its time, an exception wipes the table, a per-problem timeout leaves it; the call log is unchanged |
| Determinant.ComplexityDeterminant.MeasureTime | complexity_determinant/complexity_determinant/complexity_determinant.py:34-45 | the new table is the old one run through the loop up to the first total timeout; the calls made are the problems up to and including the one that hit it; interrupted exactly when it was hit |
| Determinant.ComplexityDeterminant.Complexity | complexity_determinant/complexity_determinant/complexity_determinant.py:47-59 | a total timeout escapes before the clean-up call and leaves the updated table; otherwise the clean-up function is called once, after the measurements, and the result is `best_complexity` of the updated table |

## Left out

- **Timeouts as signals.** The alarms of `timeout_decorator`, their nesting, and
  which frame an alarm interrupts are not modelled. `Success`, `Raised` and
  `SingleTimeout` stand for what reaches the loop's `except` clauses. In the
  script variant `TotalTimeout` instead stands for the 30 s alarm escaping the
  loop from outside its `try`: the model ends the loop there, and the alarm
  escapes `complexity` before the clean-up call. A total alarm that
  fires inside the `try` of `__measure_time` would be caught by its
  `except TimeoutExceeded` and the loop would go on; that case is not modelled.
  An alarm that fires inside the tested function is caught by the bare
  `except:` of `__execute_function` and therefore reaches the loop as `Raised`.
- **Per-problem timeout in the package variant.** `determine` sets no per-problem
  alarm. Its `SingleTimeout` outcome stands for a `TimeoutExceeded` raised from
  inside the tested function, which `execute_function` re-raises just like the
  total timeout.
- **The clock.** `Timer` and CPU time are abstracted: a successful call carries its time.
- **`max_problem_size_for_time`.** It relies on `scipy.optimize.newton`, so it is not modelled.
- **Floating point.** Arithmetic is on `real`, so rounding, overflow and
  `inf`/`nan` are not modelled.
- **numpy's `LinAlgError`.** A singular AᵀA is not modelled as an error path.
  Every fit requires the normal matrix to be invertible: `Fittable`, or
  `Determined` (nonzero determinant) for the two-term bases of the package variant.
- **`math.log`.** Its definition and its `ValueError` for sizes ≤ 0 are not
  modelled; `log` is a parameter.
- Approximation.MeanSquaredError: requires at least one sample, where
  `mean_squared_error` would raise `ZeroDivisionError`. Every caller reaches it
  only with two or more samples.
- PackageComplexity.BestComplexity: requires every class to be fittable when
  there are two samples or more, instead of modelling numpy raising for a
  singular fit.
- ScriptComplexity.BestComplexity: requires every class to be fittable when
  there are four samples or more, for the same reason.
- PackageComplexity.Determine: requires the same fittability of the table it
  measures. Determinant.ComplexityDeterminant.Complexity requires it of the
  updated table whenever it reaches `best_complexity`.
- **Logging.** `Logger` and every log message are not modelled.
- **Report text.** Only the qualifier `__str__` chooses is modelled, not the formatting.
- **The unbound `measurements` path.** In `complexity` (lines 51-55), the
  `except TimeoutExceeded` around `list(...)` can never fire. So the path where
  the local `measurements` stays unbound is not modelled; the table is read directly.
- **The `.approximation` module of the package variant** is not part of this
  model. The package variant is modelled over the shared `Approximation` module.
- **File loading.** `files_importer.py`, `tested_properties_from_files`,
  `from_files` and `determine_from_files` load modules by name, so they are not modelled.
- **Entry points and packaging.** The command-line entry points (`main.py`),
  `log.py` and `setup.py` are not modelled.
- **The tested and clean-up functions** are not modelled as code. The model
  records only how each call ended and the order of the calls.
- **Exceptions other than `Exception`.** Exceptions from the tested function that
  `except Exception` does not catch (package variant) are not modelled.
