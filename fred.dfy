/** The FRED demonstration's fiducial marker: each click on the axes adds a
    fiducial, perturbed by FLE, to both images, re-registers them and plots and
    logs the outcome. Registration, plotting and logging are outside the model:
    registration is a parameter and the method returns what would be shown. */
module Fred {
  import opened Common
  import opened RealMath
  import opened Geometry

  /** What point-based registration returns for the current fiducials. */
  datatype Registration = Registration(
    success: bool, fre: real, meanFleSq: real, expectedTreSq: real, expectedFreSq: real,
    transformedTarget2d: Vec3, actualTre: real, noFids: int)

  /** The registration result passed to the plotter and the logger. */
  datatype RegistrationResult = RegistrationResult(
    actualTre: real, expectedTre: real, fre: real, expectedFre: real, transformedTarget2d: Vec3)

  /** The effect of one mouse press. `Plotted` carries what the fiducial plot
      shows (the count and the mean FLE) and, when registration succeeded,
      the result that is plotted and logged. A negative square passed to
      math.sqrt, or a negative standard deviation passed to the sampler,
      raises ValueError: before anything is plotted (`Raised`), or after the
      fiducials are plotted but before the registration result is
      (`PlottedThenRaised`). */
  datatype ClickOutcome =
    | Ignored
    | Plotted(noFids: int, meanFle: real, result: Option<RegistrationResult>)
    | PlottedThenRaised(noFids: int, meanFle: real, error: Error)
    | Raised(error: Error)

  /** The outcome for a registration of the updated point lists, as a function
      of that registration alone. */
  function Report(reg: Registration, sqrt: real -> real): (outcome: ClickOutcome)
    ensures !outcome.Ignored?
    ensures outcome.Raised? <==> reg.meanFleSq < 0.0
    ensures outcome.PlottedThenRaised? <==>
              0.0 <= reg.meanFleSq && reg.success && (reg.expectedTreSq < 0.0 || reg.expectedFreSq < 0.0)
    ensures outcome.Plotted? ==> (outcome.result.Some? <==> reg.success)
    ensures (outcome.Raised? || outcome.PlottedThenRaised?) ==> outcome.error == ValueError
    ensures (outcome.Plotted? || outcome.PlottedThenRaised?) ==> outcome.noFids == reg.noFids
    ensures IsSqrt(sqrt) && (outcome.Plotted? || outcome.PlottedThenRaised?) ==>
              0.0 <= outcome.meanFle && Square(outcome.meanFle) == reg.meanFleSq
    ensures outcome.Plotted? && outcome.result.Some? ==>
              var result := outcome.result.value;
              result.actualTre == reg.actualTre && result.fre == reg.fre &&
              result.transformedTarget2d == reg.transformedTarget2d
    ensures IsSqrt(sqrt) && outcome.Plotted? && outcome.result.Some? ==>
              var result := outcome.result.value;
              0.0 <= result.expectedTre && Square(result.expectedTre) == reg.expectedTreSq &&
              0.0 <= result.expectedFre && Square(result.expectedFre) == reg.expectedFreSq
  {
    if reg.meanFleSq < 0.0 then Raised(ValueError)
    else
      var meanFle := sqrt(reg.meanFleSq);
      if !reg.success then Plotted(reg.noFids, meanFle, None)
      else if reg.expectedTreSq < 0.0 || reg.expectedFreSq < 0.0 then
        PlottedThenRaised(reg.noFids, meanFle, ValueError)
      else
        var result := RegistrationResult(reg.actualTre, sqrt(reg.expectedTreSq), reg.fre,
                                         sqrt(reg.expectedFreSq), reg.transformedTarget2d);
        Plotted(reg.noFids, meanFle, Some(result))
  }

  class AddFiducialMarker {
    var fixedPoints: seq<Vec3>
    var movingPoints: seq<Vec3>
    var fixedFleSd: Vec3
    var movingFleSd: Vec3

    /** The two point lists are co-indexed: row i of each comes from click i. */
    ghost predicate Valid()
      reads this
    {
      |fixedPoints| == |movingPoints|
    }

    /** Stores the FLE standard deviations and resets the fiducials with a
        mean FLE of 0. */
    constructor (fixedFleSd: Vec3, movingFleSd: Vec3)
      ensures Valid()
      ensures fixedPoints == [] && movingPoints == []
      ensures this.fixedFleSd == fixedFleSd && this.movingFleSd == movingFleSd
    {
      this.fixedFleSd := fixedFleSd;
      this.movingFleSd := movingFleSd;
      fixedPoints := [];
      movingPoints := [];
    }

    /** Empties both point lists and returns the mean FLE shown with them. */
    method ResetFiducials(meanFleSq: real, sqrt: real -> real) returns (shown: Result<real>)
      requires IsSqrt(sqrt)
      modifies this
      ensures Valid()
      ensures fixedPoints == [] && movingPoints == []
      ensures fixedFleSd == old(fixedFleSd) && movingFleSd == old(movingFleSd)
      ensures shown.Err? <==> meanFleSq < 0.0
      ensures shown.Err? ==> shown.error == ValueError
      ensures shown.Ok? ==> 0.0 <= shown.value && Square(shown.value) == meanFleSq
    {
      fixedPoints := [];
      movingPoints := [];
      if meanFleSq < 0.0 {
        return Err(ValueError);
      }
      return Ok(sqrt(meanFleSq));
    }

    /** A mouse press. Off the axes nothing happens. On the axes the clicked
        location is perturbed by each image's FLE, the fixed point first; a
        negative standard deviation raises before either list changes.
        Otherwise each list gains its point and the registration of the new
        lists decides what is shown. `fixedDraw` and `movingDraw` hold the
        standard-normal samples. */
    method Click(event: MouseEvent, fixedDraw: Vec3, movingDraw: Vec3,
                 register: (seq<Vec3>, seq<Vec3>) -> Registration, sqrt: real -> real)
      returns (outcome: ClickOutcome)
      requires Valid()
      modifies this
      ensures Valid()
      ensures fixedFleSd == old(fixedFleSd) && movingFleSd == old(movingFleSd)
      ensures event.OffAxes? ==>
                outcome == Ignored && fixedPoints == old(fixedPoints) && movingPoints == old(movingPoints)
      ensures event.OnAxes? && !(IsScale(fixedFleSd) && IsScale(movingFleSd)) ==>
                outcome == Raised(ValueError) && fixedPoints == old(fixedPoints) && movingPoints == old(movingPoints)
      ensures event.OnAxes? && IsScale(fixedFleSd) && IsScale(movingFleSd) ==>
                var location := ClickLocation(event.xdata, event.ydata);
                fixedPoints == old(fixedPoints) + [Perturb(location, fixedFleSd, fixedDraw).value] &&
                movingPoints == old(movingPoints) + [Perturb(location, movingFleSd, movingDraw).value] &&
                outcome == Report(register(fixedPoints, movingPoints), sqrt)
    {
      outcome := Ignored;
      if event.OnAxes? {
        var location := ClickLocation(event.xdata, event.ydata);
        if IsValidFiducial(location) {
          var fixedPoint := Perturb(location, fixedFleSd, fixedDraw);
          if fixedPoint.Err? {
            return Raised(fixedPoint.error);
          }
          var movingPoint := Perturb(location, movingFleSd, movingDraw);
          if movingPoint.Err? {
            return Raised(movingPoint.error);
          }
          fixedPoints := fixedPoints + [fixedPoint.value];
          movingPoints := movingPoints + [movingPoint.value];
          outcome := Report(register(fixedPoints, movingPoints), sqrt);
        }
      }
    }
  }
}
