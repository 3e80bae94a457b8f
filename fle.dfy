/** Fiducial localisation error (FLE) configuration: an error magnitude given
    as nothing, a scalar or an array is checked and broadcast to one value per
    axis. */
module Fle {
  import opened Common

  /** What the caller can pass as an FLE magnitude. A Python float has no
      `.item`, unlike a numpy scalar. */
  datatype FleValue =
    | NoFle
    | NdArray(values: seq<real>)
    | NumpyScalar(value: real)
    | PythonFloat(value: real)

  /** The number of entries every branch of _set_fle builds. */
  const Built: nat := 3

  function Fill(n: nat, v: real): (r: seq<real>)
    ensures |r| == n && forall i | 0 <= i < n :: r[i] == v
  {
    seq(n, _ => v)
  }

  /** _set_fle as written: nothing gives three zeros, a one-element array or a
      numpy scalar gives three copies, a Python float fails on `.item`, an
      array of any other size but `dims` is rejected, and an array of size
      `dims` leaves the result unassigned. The length-3 result must then
      match `dims`. */
  function SetFle(fle: FleValue, dims: nat): (r: Result<seq<real>>)
    ensures r.Ok? ==> |r.value| == dims
    ensures r.Err? && r.error == ValueError <==>
              fle.NdArray? && |fle.values| != 1 && |fle.values| != dims
    ensures r.Err? && r.error == UnboundLocalError <==>
              fle.NdArray? && |fle.values| != 1 && |fle.values| == dims
    ensures r.Err? && r.error == AttributeError <==> fle.PythonFloat?
    ensures r.Err? ==> r.error in {ValueError, UnboundLocalError, AttributeError, AssertionError}
  {
    var fleArray :=
      match fle
      case NoFle => Ok(Fill(Built, 0.0))
      case NdArray(values) =>
        if |values| == 1 then Ok(Fill(Built, values[0]))
        else if |values| != dims then Err(ValueError)
        else Err(UnboundLocalError)
      case NumpyScalar(v) => Ok(Fill(Built, v))
      case PythonFloat(_) => Err(AttributeError);
    if fleArray.Err? then fleArray
    else if |fleArray.value| != dims then Err(AssertionError)
    else fleArray
  }

  /** Only three axes can ever succeed, and then only for no FLE, a single
      value in an array, or a numpy scalar. */
  lemma SetFleSucceeds(fle: FleValue, dims: nat)
    ensures SetFle(fle, dims).Ok? <==>
              dims == Built && (fle.NoFle? || fle.NumpyScalar? || (fle.NdArray? && |fle.values| == 1))
  {
  }

  /** No FLE is zero on every axis; a single value is the same on every axis. */
  lemma SetFleBroadcasts(fle: FleValue)
    ensures fle.NoFle? ==> SetFle(fle, Built) == Ok([0.0, 0.0, 0.0])
    ensures fle.NumpyScalar? ==> SetFle(fle, Built) == Ok([fle.value, fle.value, fle.value])
    ensures fle.NdArray? && |fle.values| == 1 ==>
              SetFle(fle, Built) == Ok([fle.values[0], fle.values[0], fle.values[0]])
  {
    assert Fill(Built, 0.0) == [0.0, 0.0, 0.0];
    if fle.NumpyScalar? {
      assert Fill(Built, fle.value) == [fle.value, fle.value, fle.value];
    }
    if fle.NdArray? && |fle.values| == 1 {
      assert Fill(Built, fle.values[0]) == [fle.values[0], fle.values[0], fle.values[0]];
    }
  }

  /** An array with one value per axis is rejected, though the error message
      and the documentation invite it. */
  lemma PerAxisArrayAsWritten(x: real, y: real, z: real)
    ensures SetFle(NdArray([x, y, z]), Built) == Err(UnboundLocalError)
  {
  }

  /** A plain float, documented as giving isotropic error, is rejected. */
  lemma PythonFloatAsWritten(v: real)
    ensures SetFle(PythonFloat(v), Built) == Err(AttributeError)
  {
  }

  /** _set_fle as documented: an array of size `dims` is used as it is, and a
      plain float is broadcast like a numpy scalar. */
  function SetFleCorrected(fle: FleValue, dims: nat): (r: Result<seq<real>>)
    ensures r.Ok? ==> |r.value| == dims
    ensures r.Err? ==> r.error in {ValueError, AssertionError}
    ensures fle.NdArray? && |fle.values| == dims && dims != 1 ==> r == Ok(fle.values)
  {
    var fleArray :=
      match fle
      case NoFle => Ok(Fill(Built, 0.0))
      case NdArray(values) =>
        if |values| == 1 then Ok(Fill(Built, values[0]))
        else if |values| != dims then Err(ValueError)
        else Ok(values)
      case NumpyScalar(v) => Ok(Fill(Built, v))
      case PythonFloat(v) => Ok(Fill(Built, v));
    if fleArray.Err? then fleArray
    else if |fleArray.value| != dims then Err(AssertionError)
    else fleArray
  }

  /** The correction changes nothing where the code already succeeds, and for
      three axes it accepts exactly the documented inputs. */
  lemma SetFleCorrectedExtends(fle: FleValue, dims: nat)
    ensures SetFle(fle, dims).Ok? ==> SetFleCorrected(fle, dims) == SetFle(fle, dims)
    ensures SetFleCorrected(fle, Built).Ok? <==> !fle.NdArray? || |fle.values| == 1 || |fle.values| == Built
  {
  }

  /** After the correction a plain float gives isotropic error, the same as
      a numpy scalar of that value. */
  lemma PythonFloatCorrected(v: real)
    ensures SetFleCorrected(PythonFloat(v), Built) == Ok([v, v, v])
    ensures SetFleCorrected(PythonFloat(v), Built) == SetFleCorrected(NumpyScalar(v), Built)
  {
    assert Fill(Built, v) == [v, v, v];
  }

  /** An FLE model: the number of axes and the independent FLE per axis. The
      sampling function is always numpy's uniform sampler. */
  datatype FleModel = FleModel(dims: nat, indFle: seq<real>)

  /** FLE.__init__: three axes, the independent FLE set as above. A supplied
      sampling function is never stored, so the self-test that calls it fails
      and is reported as ValueError. The systematic arguments are ignored. */
  function NewFle<F>(independentFle: FleValue, indFleFunction: Option<F>,
                     systematicFle: FleValue, sysFleFunction: Option<F>): (r: Result<FleModel>)
    ensures r.Ok? ==> r.value.dims == Built && |r.value.indFle| == Built
    ensures r.Ok? <==> SetFleCorrected(independentFle, Built).Ok? && indFleFunction.None?
    ensures r.Ok? ==> r.value.indFle == SetFleCorrected(independentFle, Built).value
    ensures r.Err? && SetFleCorrected(independentFle, Built).Ok? ==> r.error == ValueError
    ensures SetFleCorrected(independentFle, Built).Err? ==> r == Err(SetFleCorrected(independentFle, Built).error)
  {
    var dims := Built;
    match SetFleCorrected(independentFle, dims)
    case Err(e) => Err(e)
    case Ok(indFle) =>
      if indFleFunction.Some? then Err(ValueError)
      else Ok(FleModel(dims, indFle))
  }

  /** FLE.__init__ as written, on the code's _set_fle: any error of _set_fle
      is raised as it is, outside the try that turns a failed self-test into
      ValueError. */
  function NewFleAsWritten<F>(independentFle: FleValue, indFleFunction: Option<F>,
                              systematicFle: FleValue, sysFleFunction: Option<F>): (r: Result<FleModel>)
    ensures r.Ok? <==> SetFle(independentFle, Built).Ok? && indFleFunction.None?
    ensures r.Ok? ==> r.value.dims == Built && r.value.indFle == SetFle(independentFle, Built).value
    ensures SetFle(independentFle, Built).Err? ==> r == Err(SetFle(independentFle, Built).error)
    ensures r.Err? && SetFle(independentFle, Built).Ok? ==> r.error == ValueError
  {
    var dims := Built;
    match SetFle(independentFle, dims)
    case Err(e) => Err(e)
    case Ok(indFle) =>
      if indFleFunction.Some? then Err(ValueError)
      else Ok(FleModel(dims, indFle))
  }

  /** FLE(independent_fle=v) with a plain float: the code raises
      AttributeError, the corrected constructor gives v on every axis. */
  lemma FloatFleConstructor<F>(v: real, systematicFle: FleValue, sysFleFunction: Option<F>)
    ensures NewFleAsWritten<F>(PythonFloat(v), None, systematicFle, sysFleFunction) == Err(AttributeError)
    ensures NewFle<F>(PythonFloat(v), None, systematicFle, sysFleFunction) == Ok(FleModel(Built, [v, v, v]))
  {
    PythonFloatCorrected(v);
  }

  /** The default model has zero FLE on all three axes. */
  lemma DefaultFle<F>(systematicFle: FleValue, sysFleFunction: Option<F>)
    ensures NewFle<F>(NoFle, None, systematicFle, sysFleFunction) == Ok(FleModel(Built, [0.0, 0.0, 0.0]))
  {
    SetFleBroadcasts(NoFle);
    SetFleCorrectedExtends(NoFle, Built);
  }
}
