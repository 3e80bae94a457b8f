# scikit-surgeryfred in Dafny

A model of the computational core of scikit-surgeryfred, the Fiducial
Registration Educational Demonstration. In it a user clicks fiducial markers
on an image, the markers are perturbed by fiducial localisation error (FLE),
and the demonstration reports the resulting registration errors: fiducial
registration error (FRE) and target registration error (TRE). In the game
variant the user then "ablates" an estimated target and is scored on how well
the ablated sphere overlaps the true one.

The model covers:

- **`Errors2d`**: the registration-error formulas.
  - Sibson's expected FRE, `(1 - 2/N) * m`.
  - The expected absolute value of a zero-mean normal, `sqrt(2/pi) * |sigma|`, including its rejection of negative standard deviations.
  - Fitzpatrick's 2-D expected TRE. The input validation is a function characterised by its own contract, and the combining formula is a function. The per-axis root-mean-square loop and the inner-sum loop are imperative methods, each proved against a specification function.
- **`Scores`**: the volume of a sphere and the volume in which two spheres overlap, with one lemma per branch, symmetry and non-negativity.
- **`Ablation`**: the `Ablator` state machine. It holds a ready flag and a margin that grows by 0.1 or shrinks by 0.1, clamped at zero.
- **`Fle`**: the validation and broadcasting of an FLE magnitude (`_set_fle`), and the FLE constructor's checks.
- **`CameraCalibration`**: the 4x4 homogeneous point transform that keeps the ID column, the FLE guards of the calibration marker, and its mouse handler. The handler accumulates points and gives estimates from the third point on.
- **`Fred`**: the demonstration's mouse handler. Each click appends one perturbed point to each of two co-indexed lists, and the registration outcome decides what is shown.
- **`RegistrationGame`**: the game's buffer of display states, drawn without replacement, and the round countdown that adds up the scores.
- **Shared modules**: `Common` (the Python exceptions as an `Error` enumeration, plus `Result`, `Option` and `Outcome`), `RealMath` (squares, sums of squares, norms and an abstract square root) and `Geometry` (points, distances, mouse events, Gaussian perturbation).

Arithmetic is over Dafny's `real`, so it is exact.

- **π and the square root.** These are parameters. π is any positive real, and `sqrt` is any function satisfying `RealMath.IsSqrt`: for x ≥ 0 its value is non-negative and squares to x.
- **Random samples.**
  - Standard-normal samples are passed in as `Vec3` draws.
  - The order produced by `shuffle` is passed in as a sequence that must be a permutation of the buffer.
- **Results of library code.** These are parameters too:
  - the point-to-axis distances from the eigen-decomposition;
  - the registration result;
  - the mean FLE.
- **Division by zero.** Python's float division by zero raises `ZeroDivisionError`, and the model returns that error. numpy's division by zero gives infinity or NaN. The model returns `Err(ZeroDivisionError)` for it in the TRE estimate and `None` in the sphere overlap.

## Model

| member | source | states |
|---|---|---|
| Errors2d.ComputeFre2d | sksurgeryfred/algorithms/errors_2d.py:71-79 | fails with ZeroDivisionError exactly when there are no fiducial rows; otherwise value * N == (N - 2) * m, the expected squared FRE |
| Errors2d.FreFewFiducials | sksurgeryfred/algorithms/errors_2d.py:77-79 | no clamping: two fiducials give 0 and one fiducial gives -m |
| Errors2d.FreBounds | sksurgeryfred/algorithms/errors_2d.py:77-79 | from two fiducials on, the expected FRE is non-negative, grows with the number of fiducials and never exceeds m |
| Errors2d.ExpectedAbsoluteValue | sksurgeryfred/algorithms/errors_2d.py:82-95 | raises ValueError exactly when some standard deviation is negative; otherwise the value is non-negative |
| Errors2d.ExpectedAbsoluteValueSquared | sksurgeryfred/algorithms/errors_2d.py:94-95 | the square of the result is 2/pi times the sum of squared standard deviations |
| Errors2d.ExpectedAbsoluteValueIs | sksurgeryfred/algorithms/errors_2d.py:94-95 | for non-negative inputs the result is sqrt(2/pi) times the Euclidean norm |
| Errors2d.ExpectedAbsoluteValueOfZero | sksurgeryfred/algorithms/errors_2d.py:91-95 | an all-zero vector gives exactly 0 |
| Errors2d.ExpectedAbsoluteValueScales | sksurgeryfred/algorithms/errors_2d.py:94-95 | scaling the standard deviations by c >= 0 scales the result by c |
| Errors2d.ValidateTreInputs | sksurgeryfred/algorithms/errors_2d.py:27-39 | passes exactly for an N x 2 fiducial array with N >= 3 and a 1 x 2 target array; a non-array raises TypeError, a one-dimensional array IndexError (it has no shape[1]), any other wrong shape ValueError, checked in the code's order |
| Errors2d.AxisRmsValues | sksurgeryfred/algorithms/errors_2d.py:48-57 | one value per axis, each the RMS of that axis's fiducial distances |
| Errors2d.AxisRmsIsRootMeanSquare | sksurgeryfred/algorithms/errors_2d.py:56 | each per-axis f_k is non-negative and f_k^2 * N is the sum of squared distances |
| Errors2d.SumSquaredDistances | sksurgeryfred/algorithms/errors_2d.py:50-55 | the accumulation loop ends with the sum of the squared distances |
| Errors2d.FillAxisRms | sksurgeryfred/algorithms/errors_2d.py:48-57 | fills a fresh array, axis by axis, with the per-axis RMS values |
| Errors2d.ComputeTreFromFle2d | sksurgeryfred/algorithms/errors_2d.py:12-68 | returns the validation error when the inputs are malformed; otherwise the loops give exactly (m/N)(1 + 1/2 * sum d_k^2/f_k), and ZeroDivisionError when an f_k is 0 |
| Errors2d.InnerSumsVanishOnAxes | sksurgeryfred/algorithms/errors_2d.py:59-64 | a target on every principal axis (all d_k = 0) makes the inner sum 0 |
| Errors2d.TreOnAxes | sksurgeryfred/algorithms/errors_2d.py:59-67 | a target on every principal axis gives expected TRE^2 = m/N, both as written and as corrected |
| Errors2d.InnerSumScaleInvariant | sksurgeryfred/algorithms/errors_2d.py:59-64 | the corrected inner sum, sum d_k^2/f_k^2, does not change when all lengths are scaled by c != 0 |
| Errors2d.ExpectedTreScaleInvariant | sksurgeryfred/algorithms/errors_2d.py:59-67 | the corrected expected TRE^2 does not depend on the unit of length |
| Errors2d.TreAsWrittenDependsOnUnits | sksurgeryfred/algorithms/errors_2d.py:64 | as written, f = (2, 2), d = (2, 0), N = 3, m = 1 gives 2/3 and the same geometry in half the unit gives 1; the corrected formula gives 1/2 |
| Scores.SphereVolume | sksurgeryfred/algorithms/scores.py:11-15 | 4 pi r^3 / 3 is non-negative for r >= 0 and zero for r = 0 |
| Scores.SphereVolumeMonotone | sksurgeryfred/algorithms/scores.py:11-15 | a bigger radius never gives a smaller volume |
| Scores.TwoSphereOverlapVolume | sksurgeryfred/algorithms/scores.py:17-46 | the code's three-way split; the result is NaN (None) exactly for coincident spheres of equal positive radius |
| Scores.OverlapOfSeparatedSpheres | sksurgeryfred/algorithms/scores.py:32-33 | centres at least r0 + r1 apart give exactly 0 |
| Scores.OverlapOfNestedSpheres | sksurgeryfred/algorithms/scores.py:35-38 | centres closer than the absolute difference of the radii give the smaller sphere's volume |
| Scores.OverlapOfIntersectingSpheres | sksurgeryfred/algorithms/scores.py:40-46 | with distinct centres in between, the lens formula with d != 0 |
| Scores.OverlapSymmetric | sksurgeryfred/algorithms/scores.py:17-46 | swapping the two (centre, radius) pairs leaves the result unchanged |
| Scores.LensNonNegative | sksurgeryfred/algorithms/scores.py:40-46 | where its branch is taken with non-negative radii the lens volume is non-negative |
| Scores.OverlapNonNegative | sksurgeryfred/algorithms/scores.py:17-46 | with non-negative radii no branch returns a negative volume |
| Scores.CoincidentSpheresAsWritten | sksurgeryfred/algorithms/scores.py:35-46 | coincident spheres of equal positive radius fall through to the lens formula with d = 0 |
| Scores.OverlapVolume | sksurgeryfred/algorithms/scores.py:17-46 | the overlap with an inclusive nesting test; never negative for non-negative radii |
| Scores.OverlapWithItself | sksurgeryfred/algorithms/scores.py:35-38 | after the correction, a sphere overlaps itself in its whole volume |
| Scores.LensAtNestingDistance | sksurgeryfred/algorithms/scores.py:40-46 | at d = abs(r0 - r1) > 0 the lens formula equals the smaller sphere's volume, so the inclusive test changes no value |
| Scores.OverlapVolumeAgreesAwayFromCoincidence | sksurgeryfred/algorithms/scores.py:17-46 | for distinct centres the code and the corrected overlap agree |
| Ablation.DecreasedMargin | sksurgeryfred/algorithms/ablation.py:39-47 | the decreased margin is max(margin - increment, 0): non-negative, at least margin - increment, and one of the two |
| Ablation.DecreaseUndoesIncrease | sksurgeryfred/algorithms/ablation.py:31-47 | from a non-negative margin, a decrease undoes an increase |
| Ablation.DecreasesReachZero | sksurgeryfred/algorithms/ablation.py:39-47 | k decreases bring any margin of at most k increments to 0 |
| Ablation.Ablator.constructor | sksurgeryfred/algorithms/ablation.py:11-20 | nothing set up, not ready, increment 0.1 |
| Ablation.Ablator.Setup | sksurgeryfred/algorithms/ablation.py:22-29 | stores the margin, target and radius and becomes ready; the estimated target and increment are untouched |
| Ablation.Ablator.IncreaseMargin | sksurgeryfred/algorithms/ablation.py:31-37 | when ready, the margin grows by exactly the increment; otherwise nothing changes; a non-negative margin stays non-negative; no other field changes |
| Ablation.Ablator.DecreaseMargin | sksurgeryfred/algorithms/ablation.py:39-47 | when ready, the margin becomes DecreasedMargin of the old one; otherwise nothing changes; no other field changes |
| Ablation.Ablator.Alate | sksurgeryfred/algorithms/ablation.py:49-55 | returns no score and changes nothing, ready or not |
| Fle.SetFle | sksurgeryfred/algorithms/fle.py:10-26 | characterises each failure: ValueError for an array of a size other than 1 or dims, an unassigned result for an array of size dims, AttributeError for a plain float; any result has length dims |
| Fle.SetFleSucceeds | sksurgeryfred/algorithms/fle.py:10-26 | succeeds exactly for dims = 3 and no FLE, a numpy scalar or a one-element array |
| Fle.SetFleBroadcasts | sksurgeryfred/algorithms/fle.py:12-17 | no FLE gives three zeros; a single value gives three copies of it |
| Fle.PerAxisArrayAsWritten | sksurgeryfred/algorithms/fle.py:15-25 | a three-element array for three axes fails with the result unassigned |
| Fle.PythonFloatAsWritten | sksurgeryfred/algorithms/fle.py:22-23 | a plain float fails with AttributeError |
| Fle.SetFleCorrected | sksurgeryfred/algorithms/fle.py:10-26 | as documented, an array of size dims is used as it is; any result has length dims; only ValueError or the length assertion can fail |
| Fle.PythonFloatCorrected | sksurgeryfred/algorithms/fle.py:22-23 | after the correction a plain float gives three copies of its value, like a numpy scalar |
| Fle.SetFleCorrectedExtends | sksurgeryfred/algorithms/fle.py:10-26 | agrees with the code wherever the code succeeds, and for three axes accepts exactly the documented inputs |
| Fle.NewFle | sksurgeryfred/algorithms/fle.py:50-62 | three axes whose independent FLE is exactly the broadcast FLE; succeeds exactly when the FLE is accepted and no sampling function is supplied, which otherwise gives ValueError; a rejected FLE raises its own error |
| Fle.NewFleAsWritten | sksurgeryfred/algorithms/fle.py:50-62 | the constructor on the code's _set_fle: its errors pass through unchanged, a supplied sampling function gives ValueError, and otherwise the independent FLE is _set_fle's result |
| Fle.FloatFleConstructor | sksurgeryfred/algorithms/fle.py:22-23 | FLE(independent_fle=v) with a plain float raises AttributeError as written, and gives v on every axis after the correction |
| Fle.DefaultFle | sksurgeryfred/algorithms/fle.py:50-62 | the default FLE model has zero error on all three axes |
| CameraCalibration.MultiplyPointsByMatrix | sksurgeryfred/algorithms/camera_calibration.py:22-39 | as many rows out as in, each keeping its ID |
| CameraCalibration.IdentityLeavesPoints | sksurgeryfred/algorithms/camera_calibration.py:30-39 | the identity matrix leaves every row unchanged |
| CameraCalibration.ComposeAffine | sksurgeryfred/algorithms/camera_calibration.py:34-37 | the fourth homogeneous coordinate is dropped without division, so multiplying by b then by a equals multiplying by a * b when b is affine |
| CameraCalibration.CheckFle | sksurgeryfred/algorithms/camera_calibration.py:46-54 | passes exactly for zero moving FLE and fixed FLE with equal x and y and zero z; otherwise NotImplementedError |
| CameraCalibration.AddFiducialMarker.constructor | sksurgeryfred/algorithms/camera_calibration.py:56-61 | stores the target and FLE; both point lists start empty |
| CameraCalibration.AddFiducialMarker.New | sksurgeryfred/algorithms/camera_calibration.py:46-61 | raises NotImplementedError exactly when the guards fail; otherwise a fresh marker with no points |
| CameraCalibration.AddFiducialMarker.Click | sksurgeryfred/algorithms/camera_calibration.py:71-95 | a press off the axes changes nothing; on the axes a negative fixed FLE makes the sampler raise ValueError before either list changes; otherwise one noisy point is appended to the fixed list and the exact location to the moving list; estimates exist exactly from the third point on, with mean FLE squared = mean FLE^2 and the expected FRE the non-negative root of the FRE formula |
| Fred.Report | sksurgeryfred/algorithms/fred.py:241-260 | a negative mean FLE squared raises ValueError before anything is plotted; otherwise the fiducials are plotted with the registration's count and the non-negative root of the mean FLE squared; on success a negative expected TRE or FRE squared raises ValueError after that plot; otherwise a result is shown exactly on success, with actual TRE, FRE and transformed target copied and expected TRE and FRE the non-negative roots of their squares |
| Fred.AddFiducialMarker.constructor | sksurgeryfred/algorithms/fred.py:201-223 | stores the FLE standard deviations; both point lists start empty |
| Fred.AddFiducialMarker.ResetFiducials | sksurgeryfred/algorithms/fred.py:263-271 | both lists become empty; the mean FLE shown is the non-negative root of its square, or ValueError for a negative square |
| Fred.AddFiducialMarker.Click | sksurgeryfred/algorithms/fred.py:225-261 | off the axes nothing changes; on the axes a negative standard deviation raises ValueError before either list changes; otherwise each list gains exactly one perturbed point at the end, earlier points untouched, and the outcome is Report of the registration of the new lists |
| Geometry.ClickLocation | sksurgeryfred/algorithms/fred.py:227-229 | the clicked location has x and y from the event and z = 0 |
| Geometry.Perturb | sksurgeryfred/algorithms/fred.py:281-284 | ValueError exactly when a standard deviation is negative; otherwise an axis with zero standard deviation is not moved |
| Geometry.IsValidFiducial | sksurgeryfred/algorithms/fred.py:274-279 | every location is accepted |
| Geometry.DistanceSymmetric | sksurgeryfred/algorithms/scores.py:27 | the distance between centres does not depend on their order |
| Geometry.DistanceZeroIff | sksurgeryfred/algorithms/scores.py:27 | the distance is non-negative and zero exactly for coincident centres |
| RegistrationGame.Buffer | sksurgeryfredmatplotlib/widgets/registration_game.py:145-151 | a buffer of b bins holds 4b states |
| RegistrationGame.BufferCounts | sksurgeryfredmatplotlib/widgets/registration_game.py:134-151 | each of the four states appears once per bin and nothing else appears |
| RegistrationGame.VisibilitySettings.constructor | sksurgeryfredmatplotlib/widgets/registration_game.py:145-151 | the append loop builds exactly Buffer(eachBin) |
| RegistrationGame.VisibilitySettings.New | sksurgeryfredmatplotlib/widgets/registration_game.py:126-151 | ValueError exactly when the size is not a multiple of 4; otherwise size/4 bins, and none for a negative size |
| RegistrationGame.VisibilitySettings.GetVisState | sksurgeryfredmatplotlib/widgets/registration_game.py:153-163 | on a non-empty buffer, returns one of its states and removes exactly that one, as a multiset; on an empty buffer, IndexError |
| RegistrationGame.Game.constructor | sksurgeryfredmatplotlib/widgets/registration_game.py:26-29 | 20 rounds, total score 0, and a buffer of 16 holding four of each state |
| RegistrationGame.Game.KeyPress | sksurgeryfredmatplotlib/widgets/registration_game.py:65-89 | a scored 'a' adds exactly the score, and moves to the next round or ends the game at the last round; a new state is drawn from the buffer for rounds 17 down to 2, and in rounds 18 to 20 and at game over the current state and the buffer stay as they were; the invariant that the buffer holds one state per remaining draw is preserved, so drawing never raises |
| RealMath.SumOfSquaresZero | sksurgeryfred/algorithms/errors_2d.py:94 | a sum of squares is zero exactly when every entry is zero |
| RealMath.NormScale | sksurgeryfred/algorithms/errors_2d.py:94 | the Euclidean norm scales linearly with a non-negative factor |

## Left out

- **Eigen-decomposition and point-to-line distances** (errors_2d.py:41-46, 52, 61). These are numpy and library linear algebra. The distances of each fiducial and of the target from each principal axis are parameters of `ComputeTreFromFle2d`.
- **`orthogonal_procrustes` and `PointBasedRegistration.register`**: library code that is not part of this model.
  - `Fred.AddFiducialMarker.Click` takes the registration as a function parameter.
  - `CameraCalibration.AddFiducialMarker.Click` leaves out the rotation, the transformed target and the actual TRE.
- **`CameraCalibration.AddFiducialMarker.Click` and the expected TRE.** It does not report the expected TRE, because the call needs the principal axes of the moving points, which are not modelled. It reports the mean FLE squared and the expected FRE.
- **`expected_absolute_value_of_normal`**: imported by camera_calibration.py but not defined in errors_2d.py. The mean FLE it would compute is a parameter of the click handler.
- **Randomness** (`numpy.random.normal`, `numpy.random.uniform`, `shuffle`) becomes parameters.
  - Draws are standard-normal samples per axis.
  - A shuffle is any permutation.
  - No distribution is modelled.
- **`make_target_point`** (fred.py, camera_calibration.py): random sampling and trigonometry.
- **Plotting, text, canvas redraws, `print`, `plt.show` and the logger**: the model returns what would be shown instead.
- **`fit_contour.py`, the ui entry points, sksurgeryfred/widgets/registration_game.py and interactive_registration.py**: image processing and UI orchestration.
- **RegistrationGame.Game.KeyPress, the arrow keys.** The up and down keys only forward to the game's ablator and redraw, so they leave the modelled state unchanged. The ablator is modelled separately in `Ablation`.
- **RegistrationGame.Game.KeyPress, the score and registration status.** These are parameters, since they come from the point-based registration and an ablator that is not part of this model. `initialise_registration`, which re-registers between rounds, is not modelled.
- **Array shapes.**
  - `MultiplyPointsByMatrix` takes only rows of an ID and three coordinates, and 4 x 4 matrices. The code also accepts rows with more than four columns and silently drops the extra ones. Rows with fewer than four columns make the matrix product fail. Other matrix shapes are not modelled.
  - Fiducial arrays in `ComputeTreFromFle2d` are described only by their shape.
- **Errors2d.ValidateTreInputs**: arrays of three or more dimensions are not modelled. They pass the code's shape checks and fail later in numpy.
- **Floating point.** All arithmetic is over exact reals, so rounding is not modelled, and "exactly 0.0" statements hold in real arithmetic.
- **Fle.NewFle**: built on `SetFleCorrected`, not on the code's `_set_fle`, so that a per-axis FLE array is accepted. `SetFleCorrectedExtends` shows that the two agree wherever the code succeeds. The code's own constructor is `NewFleAsWritten`.
- **Fle sampling.** The FLE constructor's self-test of the sampling function and the systematic FLE arguments are not modelled beyond the ValueError for a supplied function. The constructor ignores the systematic arguments.

## Findings

| source | as written | input that shows it | evidently intended | confidence | as-written member | corrected member |
|---|---|---|---|---|---|---|
| sksurgeryfred/algorithms/scores.py:35-46 | the nesting test is strict, so coincident spheres of equal radius reach the lens formula with distance 0 | centre0 = centre1, r0 = r1 = 1: pi / 0 times a third term of 0 gives NaN | the overlap of a sphere with itself is its whole volume | not executed | Scores.CoincidentSpheresAsWritten | Scores.OverlapWithItself |
| sksurgeryfred/algorithms/errors_2d.py:64 | the inner sum divides d_k^2 by f_k, not by f_k^2 as in Fitzpatrick's equation 46 | f = (2, 2), d = (2, 0), N = 3, m = 1 gives 2/3 instead of 1/2, and halving the unit of length changes it to 1 | sum d_k^2 / f_k^2, a dimensionless ratio | not executed | Errors2d.TreAsWrittenDependsOnUnits | Errors2d.ExpectedTreScaleInvariant |
| sksurgeryfred/algorithms/fle.py:15-25 | an array whose size equals dims (and is not 1) never assigns fle_array, so the assertion raises UnboundLocalError | FLE(independent_fle=np.array([1.0, 2.0, 3.0])) | a per-axis FLE array is used as it is, as the error message and documentation say | not executed | Fle.PerAxisArrayAsWritten | Fle.SetFleCorrectedExtends |
| sksurgeryfred/algorithms/fle.py:22-23 | a non-array FLE is read with `.item(0)`, which a Python float does not have | FLE(independent_fle=1.0) raises AttributeError | a single float gives isotropic FLE, as documented at fle.py:32-35 | not executed | Fle.PythonFloatAsWritten | Fle.PythonFloatCorrected |
