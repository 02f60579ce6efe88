/** `_model_predict`: evaluating one Gaussian-process artifact on a batch of
    parameter rows and converting the result to magnitudes.

    Loading an artifact (`_load_gp`) and the GP posterior itself are opaque
    here: a `Predictor` maps the artifact's identity and one 5-column row
    (mej_dyn, vej_dyn, mej_wind, vej_wind, wavelength) to the posterior mean
    log-luminosity and its standard error. */
module GpPrediction {
  import opened Magnitudes

  /** Which artifact: the trained viewing angle and the index into the
      264-point time grid (one entry of `interpolators[angle][index]`). */
  datatype ArtifactKey = ArtifactKey(angle: int, gridIndex: nat)

  /** Posterior mean (log10 luminosity) and standard deviation for one row. */
  datatype GpOutput = GpOutput(logLum: real, stdErr: real)

  type Predictor = (ArtifactKey, seq<real>) -> GpOutput

  /** Magnitudes and magnitude errors, one entry per input row. */
  datatype Prediction = Prediction(mags: seq<real>, errs: seq<real>)

  /** The magnitude of one row under one artifact. */
  function RowMag(gp: Predictor, key: ArtifactKey, row: seq<real>, logArea: real): real
  {
    LogLumToMag(gp(key, row).logLum, logArea)
  }

  /** The magnitude error of one row under one artifact. */
  function RowMagError(gp: Predictor, key: ArtifactKey, row: seq<real>): real
  {
    MagError(gp(key, row).stdErr)
  }

  /** `_model_predict(model, inputs)`: the batch answer is the row-by-row
      answer, in the order of the rows. */
  function ModelPredict(gp: Predictor, key: ArtifactKey, rows: seq<seq<real>>, logArea: real): (p: Prediction)
    ensures |p.mags| == |rows| && |p.errs| == |rows|
    ensures forall i :: 0 <= i < |rows| ==>
      p.mags[i] == RowMag(gp, key, rows[i], logArea) && p.errs[i] == RowMagError(gp, key, rows[i])
  {
    if rows == [] then Prediction([], [])
    else
      var init := ModelPredict(gp, key, rows[..|rows| - 1], logArea);
      var last := rows[|rows| - 1];
      Prediction(init.mags + [RowMag(gp, key, last, logArea)], init.errs + [RowMagError(gp, key, last)])
  }

  /** Batch/scalar consistency: predicting a batch and picking row i gives
      the prediction of the one-row batch holding row i alone. */
  lemma PredictRowIndependent(gp: Predictor, key: ArtifactKey, rows: seq<seq<real>>, i: nat, logArea: real)
    requires i < |rows|
    ensures ModelPredict(gp, key, rows, logArea).mags[i] == ModelPredict(gp, key, [rows[i]], logArea).mags[0]
    ensures ModelPredict(gp, key, rows, logArea).errs[i] == ModelPredict(gp, key, [rows[i]], logArea).errs[0]
  {
  }
}
