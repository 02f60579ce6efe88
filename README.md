# kn_interp_angle: angle-interpolated kilonova surrogate, modelled in Dafny

The class `kn_interp_angle` (`em_pe/models/kn_interp_angle.py`) predicts kilonova
light curves. Gaussian-process (GP) artifacts are trained at six viewing angles
(0, 30, 45, 60, 75 and 90 degrees) and at 264 logarithmically spaced times.

- `set_params` packs a batch of ejecta parameters into `params_array`, one row per
  sample with five columns.
- `set_params` also builds `index_dict`, which sends each angle bin
  `[angles[k], angles[k+1])` to the rows whose `theta` lies in it.
- `evaluate` writes the band's wavelength into column 4.
- `evaluate` then picks the grid indices whose times bracket the requested times.
- For every selected grid index and every occupied bin, `evaluate` predicts the
  bin's rows with the artifacts of the two bounding angles. It then blends the
  two predictions linearly in `theta`, for magnitudes and errors alike.

This project models:

- that orchestration, as a Dafny class `Surrogate` whose methods update the same
  fields (`params_array`, `theta`, `index_dict`, `distance_Mpc`);
- the pure pieces (bins, blend, bracket selection, magnitude conversion), as
  functions with lemmas.

The GP is an opaque `Predictor`: a total function from an artifact, given by its
angle and grid index, and one 5-column row to a posterior log-luminosity and its
standard error.

Modules:

- `Magnitudes`: `_log_lums_to_mags` and the `2.5 * err` step.
- `GpPrediction`: `_model_predict` over the opaque predictor.
- `AngleBins`: angles, bins, `np.where` over a bin.
- `AngleBlend`: the linear blend in viewing angle.
- `TimeGrid`: the bracket-selection loop.
- `Parameters`: the `params` dictionary and numpy's column assignment.
- `KnInterpAngle`: the class, `index_dict`, the blend loop.
- `Wrappers`: `Option` and `Result`.

Python exceptions are `Result` errors (`KnInterpAngle.Error`). Where the code
raises part-way through an update, the model keeps the partial update, as the
code does.

## Model

| member | source | states |
|---|---|---|
| Magnitudes.LogLumToMag | em_pe/models/kn_interp_angle.py:68-73 | the magnitude is the one whose log-luminosity (via MagToLogLum, the inverse affine map with zero point -48.6 and slope 2.5) is the input |
| Magnitudes.MagError | em_pe/models/kn_interp_angle.py:64 | a non-negative standard error gives a non-negative magnitude error, equal to the magnitude drop caused by a shift of one standard error |
| Magnitudes.MagStrictlyDecreasing | em_pe/models/kn_interp_angle.py:71-72 | a larger log-luminosity gives a strictly smaller magnitude |
| Magnitudes.MagErrorIsExact | em_pe/models/kn_interp_angle.py:63-64 | from any log-luminosity, a shift of one standard error up or down moves the magnitude by exactly 2.5 times that error |
| Magnitudes.MagRoundTrip | em_pe/models/kn_interp_angle.py:68-73 | converting a magnitude to log-luminosity and back returns the magnitude |
| GpPrediction.ModelPredict | em_pe/models/kn_interp_angle.py:46-66 | the batch prediction has one magnitude and one error per row, in row order, each the row's own conversion of the GP output |
| GpPrediction.PredictRowIndependent | em_pe/models/kn_interp_angle.py:46-66 | row i of a batch prediction equals the prediction of row i alone |
| AngleBins.WhereIn | em_pe/models/kn_interp_angle.py:147 | the result lists indices in strictly increasing order; j is listed exactly when lo <= theta[j] < hi |
| AngleBins.BinOf | em_pe/models/kn_interp_angle.py:98 | the bin it returns contains theta; when it returns none, no bin contains theta |
| AngleBins.BinsDisjoint | em_pe/models/kn_interp_angle.py:143-147 | a theta lies in at most one of the five bins |
| AngleBins.WhereInBinOf | em_pe/models/kn_interp_angle.py:143-147 | row j is in bin k's index list exactly when k is the bin of theta[j] |
| AngleBins.BinKeysDistinct | em_pe/models/kn_interp_angle.py:143-147 | different bins get different `(theta_lower, theta_upper)` keys |
| AngleBins.BinCoverage | em_pe/models/kn_interp_angle.py:143-147 | a theta is in some bin exactly when 0 <= theta < 90; theta = 90 is in none |
| AngleBlend.Blend | em_pe/models/kn_interp_angle.py:209-212 | at theta = lower angle the blend is exactly the lower prediction, at the upper angle the upper one, and between the angles it lies between the two predictions |
| AngleBlend.BlendIsConvexCombination | em_pe/models/kn_interp_angle.py:193-210 | the blend is w * lower + (1 - w) * upper with w = (hi - theta) / (hi - lo) |
| AngleBlend.BlendAll | em_pe/models/kn_interp_angle.py:209-212 | the vectorised blend is the entrywise blend, of the same length |
| TimeGrid.Scan | em_pe/models/kn_interp_angle.py:167-174 | the inner loop keeps the list it started with as a prefix, and keeps it free of duplicates and within the grid |
| TimeGrid.Select | em_pe/models/kn_interp_angle.py:164-176 | `ind_list` has no duplicates and every entry is a grid index |
| TimeGrid.AddIfAbsentFacts | em_pe/models/kn_interp_angle.py:169-174 | `if x not in ind_list: ind_list.append(x)` keeps the list as a prefix, lists x afterwards, adds nothing else, and never creates a duplicate |
| TimeGrid.VisitMembership | em_pe/models/kn_interp_angle.py:168-174 | one pass of the inner loop body for pair i keeps the list as a prefix; afterwards an index is listed exactly when it was before or is an end of pair i and that pair brackets t |
| TimeGrid.AppendIfAbsent | em_pe/models/kn_interp_angle.py:169-174 | one membership-tested append of an index and its grid time keeps the two lists parallel |
| TimeGrid.ScanGrid | em_pe/models/kn_interp_angle.py:167-174 | the inner loop over grid pairs computes Scan and keeps `t_interp[k] == grid[ind_list[k]]` |
| TimeGrid.SelectBrackets | em_pe/models/kn_interp_angle.py:164-176 | the nested loop returns Select of the query times, without duplicates, with `t_interp` parallel to `ind_list` |
| TimeGrid.ScanMembership | em_pe/models/kn_interp_angle.py:167-174 | after the inner loop an index is listed exactly when it was listed before or is an end of a visited pair bracketing t |
| TimeGrid.SelectMembership | em_pe/models/kn_interp_angle.py:166-174 | an index is selected exactly when it is an end of a grid pair that brackets some query time |
| TimeGrid.SelectExtends | em_pe/models/kn_interp_angle.py:166-174 | one more query time only appends: earlier indices keep their positions (first-encountered order) |
| TimeGrid.ScanUnbracketed | em_pe/models/kn_interp_angle.py:167-168 | when no visited pair brackets t, the inner loop adds nothing |
| TimeGrid.ScanBracketed | em_pe/models/kn_interp_angle.py:167-174 | on a strictly increasing grid the one pair (i, i+1) that brackets t contributes i, then i+1, each unless present |
| TimeGrid.SelectOutsideGrid | em_pe/models/kn_interp_angle.py:167-168 | a time below the first grid time, or at or beyond the last, adds no index |
| TimeGrid.SelectNewBracket | em_pe/models/kn_interp_angle.py:167-174 | a time bracketed by (i, i+1) adds i then i+1, each unless present, and appends exactly [i, i+1] when both are new |
| Parameters.Column | em_pe/models/kn_interp_angle.py:150-153 | a float fills every row, an array of the batch size is copied, a one-entry array is broadcast to every row |
| Parameters.Divide | em_pe/models/kn_interp_angle.py:263 | `mej_wind / 13.90` keeps the value's shape, and each entry times the divisor is the original entry |
| Parameters.DivideFits | em_pe/models/kn_interp_angle.py:263 | the variant's column 0 can be assigned exactly when `mej_wind` can |
| KnInterpAngle.BandTable | em_pe/models/kn_interp_angle.py:112-121 | `lmbda_dict` (BandWavelengths) has exactly the eight bands g, r, i, z, y, J, H, K, with wavelengths increasing in that order |
| KnInterpAngle.InitialTheta | em_pe/models/kn_interp_angle.py:130-135 | `self.theta` holds the given angle(s); it is a one-entry array for a float `mej_dyn` (one angle per row), and stays a bare float exactly when `mej_dyn` is an array and `theta` a float |
| KnInterpAngle.ScalarThetaBin | em_pe/models/kn_interp_angle.py:147 | ThetaBin on a float theta lists what `np.where` lists for the one-entry array holding it: index 0 when the float is in the bin, nothing otherwise |
| KnInterpAngle.BinDictUpToLookup | em_pe/models/kn_interp_angle.py:143-147 | BinDictUpTo, `index_dict` after k passes of the loop, holds exactly the first k bin keys, each mapped to its bin's ThetaBin list |
| KnInterpAngle.BinDictLookup | em_pe/models/kn_interp_angle.py:143-147 | in BinDict, the finished `index_dict`, the key `(angles[k], angles[k+1])` maps to the bin's ThetaBin list |
| KnInterpAngle.SameWeights | em_pe/models/kn_interp_angle.py:193-212 | a row's magnitude and its error are blended with the same weight on the lower angle and its complement on the upper one |
| KnInterpAngle.RowsAt | em_pe/models/kn_interp_angle.py:201 | `params_array[param_indices]` is the listed rows, in order |
| KnInterpAngle.Pick | em_pe/models/kn_interp_angle.py:209-212 | `theta[param_indices]` is the listed thetas, in order |
| KnInterpAngle.RowBin | em_pe/models/kn_interp_angle.py:194 | the bin it reports for a row is one of the first `bins` bins |
| KnInterpAngle.OccupiedIffListed | em_pe/models/kn_interp_angle.py:195 | `param_indices.size == 0` holds exactly when no row lies in the bin |
| KnInterpAngle.ColumnLoadsExactly | em_pe/models/kn_interp_angle.py:194-198 | for one grid index, an artifact is requested from `_load_gp` exactly when it bounds an occupied bin; empty bins request nothing |
| KnInterpAngle.ColumnFailureFirst | em_pe/models/kn_interp_angle.py:190-212 | ColumnFailure, the exception of one pass of the bin loop, is none exactly when no bin raises (BinFailure: missing key, then for a non-empty list a row past the array, then a float theta); otherwise it is the exception of the first bin that raises |
| KnInterpAngle.ColumnFailureStays | em_pe/models/kn_interp_angle.py:190-212 | once a bin has raised, the later bins do not change the outcome |
| KnInterpAngle.ArrayThetaNeverFails | em_pe/models/kn_interp_angle.py:143-147 | with `index_dict` built from an array theta no longer than the batch, no bin raises |
| KnInterpAngle.ScalarThetaFailure | em_pe/models/kn_interp_angle.py:195-212 | with `index_dict` built from a float theta, a bin raises exactly when it holds the float: IndexError on an empty batch, else the float is not subscriptable |
| KnInterpAngle.ScalarThetaColumn | em_pe/models/kn_interp_angle.py:190-212 | with a float theta the bin loop raises exactly when the float lies in some bin; a float in no bin (95.0, say) skips every bin |
| KnInterpAngle.Scattered | em_pe/models/kn_interp_angle.py:209-212 | `col[idx] = vals` puts vals[i] at idx[i] and leaves every unlisted entry as it was |
| KnInterpAngle.Scatter | em_pe/models/kn_interp_angle.py:209-212 | writing into column c of a matrix makes that column Scattered of the old one and leaves the other columns untouched |
| KnInterpAngle.EmptyBinStep | em_pe/models/kn_interp_angle.py:195-196 | skipping an empty bin leaves the column as the blend of one more bin requires |
| KnInterpAngle.BlendBinMags | em_pe/models/kn_interp_angle.py:201-210 | writing bin k's blends into exactly bin k's rows extends a magnitude column from k bins to k + 1 |
| KnInterpAngle.BlendBinErrs | em_pe/models/kn_interp_angle.py:201-212 | the same for an error column |
| KnInterpAngle.BinPrediction | em_pe/models/kn_interp_angle.py:201-212 | predicting the bin's rows as a batch with both artifacts and blending by theta gives, row by row, BlendedMag and BlendedError |
| KnInterpAngle.PredictBin | em_pe/models/kn_interp_angle.py:201-212 | gathering the bin's rows and thetas and predicting them gives, for entry i, the blend of row idx[i] by its own theta |
| KnInterpAngle.BlendBin | em_pe/models/kn_interp_angle.py:197-212 | one occupied bin extends both columns from k bins to k + 1 and touches no other column |
| KnInterpAngle.FillBin | em_pe/models/kn_interp_angle.py:190-212 | one pass of the bin loop raises exactly when BinFailure says, with that exception; otherwise both columns advance one bin, and only an occupied bin requests its two artifacts |
| KnInterpAngle.FillGridColumn | em_pe/models/kn_interp_angle.py:190-212 | the bin loop raises exactly when ColumnFailure says, with the first failing bin's exception; otherwise it writes, for every row in a bin, the blend of its bin into column c and requests ColumnLoads; it touches no other column |
| KnInterpAngle.FillSelectedColumn | em_pe/models/kn_interp_angle.py:184-212 | one pass over a selected grid index raises exactly when ColumnFailure says; otherwise it fills its column, keeps the columns before it, and requests ColumnLoads |
| KnInterpAngle.FillGrid | em_pe/models/kn_interp_angle.py:184-212 | the column loop raises exactly when `ind_list` is non-empty and ColumnFailure says, with that exception (an empty `ind_list` never raises); otherwise it fills every selected column (GridFilled) and requests LoadPlan |
| KnInterpAngle.FilledCellInRange | em_pe/models/kn_interp_angle.py:209-210 | a filled cell equals the lower artifact's magnitude at the bin's lower angle and lies between the two artifacts' magnitudes |
| KnInterpAngle.Surrogate.constructor | em_pe/models/kn_interp_angle.py:102-125 | a new surrogate has a strictly increasing 264-point grid and no parameters, theta or distance |
| KnInterpAngle.Surrogate.AssignBins | em_pe/models/kn_interp_angle.py:143-147 | the loop leaves `index_dict` equal to BinDict of theta |
| KnInterpAngle.Surrogate.FillColumn | em_pe/models/kn_interp_angle.py:150-153 | `params_array[:, col] = v` sets that column to v and no other |
| KnInterpAngle.Surrogate.FillParamColumns | em_pe/models/kn_interp_angle.py:150-153 | the four assignments succeed exactly when all four values fit; each assigned column holds its broadcast value; column 4 is untouched |
| KnInterpAngle.Surrogate.SetParams | em_pe/models/kn_interp_angle.py:127-157 | the batch has one row for a float `mej_dyn`; a non-array theta raises, leaving `index_dict` as it was; otherwise `index_dict` is BinDict(theta); the call succeeds exactly when columns 0-3 fit, else raises the broadcast error, and only on success sets `distance_Mpc` (None without the key) |
| KnInterpAngle.Surrogate.SetParamsNoMejDyn | em_pe/models/kn_interp_angle.py:241-266 | the same packing with column 0 = `mej_wind / 13.90`; no array check on theta and `distance_Mpc` never changes |
| KnInterpAngle.Surrogate.Evaluate | em_pe/models/kn_interp_angle.py:159-212 | an unknown band raises first; then column 4 holds the band's wavelength with columns 0-3 unchanged; the result has `ind_list` = Select, parallel `t_interp`, a column per index with every binned row's blend, and the LoadPlan artifacts; with a known band and parameters set, it raises exactly when `ind_list` is non-empty and ColumnFailure says, with that exception, so an array theta no longer than the batch never fails |

## Left out

- The GP posterior itself (kernel evaluation, Cholesky solve, square root, lines 47-56) is the opaque `Predictor`. The mutation of `model.L_` and `model._K_inv` is not modelled.
- `_load_gp` (file reading, `eval` of hyperparameters, LRU cache) and the artifact path strings (environment variable, float formatting) are not modelled. An artifact is identified by `ArtifactKey(angle, gridIndex)`, and the list of requested keys is returned instead.
- `np.log10(4 * pi * d**2)` cannot be computed over exact reals. It is the parameter `logArea` of `LogLumToMag`.
- The grid `np.logspace(...)` is not computed. The constructor takes any strictly increasing 264-point grid.
- The per-sample `interp1d` resampling with extrapolation, the distance modulus `5*log10(d*1e6) - 5`, and the final flattening of a one-row result (lines 214-235) are floating-point library code. `Evaluate` stops at the `mags_interp`/`mags_err_interp` matrices.
- KnInterpAngle.Surrogate.Evaluate: cells of rows that lie in no bin are whatever `np.empty` left there, so the contract says nothing about them.
- KnInterpAngle.Surrogate.SetParams: requires that a float `mej_dyn` comes with a float `theta`. A float `mej_dyn` with an array `theta` makes a 2-D theta, which the model does not represent.
- KnInterpAngle.Surrogate.SetParamsNoMejDyn: the same restriction on a float `mej_dyn`.
- `index_dict` does not exist before the first `set_params` reaches line 143. The model starts it empty, so a lookup then fails as `MissingBin`, as the attribute error would.
- KnInterpAngle.ThetaBin: for a float theta (the variant's `set_params`) `np.where` on the 0-d comparison is taken to give `[0]` or `[]`, the NumPy 1.x behaviour of `nonzero` on a 0-d array, deprecated since NumPy 1.17. Newer NumPy releases raise there instead, and the model does not follow them.
- KnInterpAngle.Surrogate.SetParams: `self.theta = params["theta"]` keeps a reference to the caller's array (a plotting script passes a column view of its parameter array). The model copies theta as a value, so `Evaluate` and FilledCellInRange assume the caller does not change that array between `set_params` and `evaluate`. The same holds for SetParamsNoMejDyn.
- Integer-valued parameters, `int`/`float` distinctions beyond "float or 1-d array", and NaN thetas are not modelled. Reals are exact, not IEEE doubles.
- `print` diagnostics are not modelled.
