/** Conversion of a predicted log10-luminosity into an absolute AB magnitude
    at the reference distance of 10 parsecs, and propagation of the GP
    standard error into a magnitude error.

    The term log10(4 pi d^2), with d = 10 pc = 3.086e19 cm, cannot be computed
    with Dafny's exact reals; it is carried as the parameter `logArea`. */
module Magnitudes {

  /** The AB zero point used by the conversion. */
  const ZeroPoint: real := -48.6

  /** Magnitudes per decade of flux. */
  const Slope: real := 2.5

  /** Inverse of LogLumToMag: the log-luminosity that produces `mag`. */
  function MagToLogLum(mag: real, logArea: real): (logLum: real)
  {
    logArea + (ZeroPoint - mag) / Slope
  }

  /** `_log_lums_to_mags`: log flux at 10 pc, then the AB magnitude of it. */
  function LogLumToMag(logLum: real, logArea: real): (mag: real)
    ensures MagToLogLum(mag, logArea) == logLum
  {
    var logFlux := logLum - logArea;
    ZeroPoint - Slope * logFlux
  }

  /** The error step of `_model_predict`: the magnitude error of a GP
      standard error in log-luminosity. */
  function MagError(stdErr: real): (err: real)
    ensures stdErr >= 0.0 ==> err >= 0.0
    ensures LogLumToMag(0.0, 0.0) - LogLumToMag(stdErr, 0.0) == err
  {
    Slope * stdErr
  }

  /** Brighter (larger log-luminosity) means a smaller magnitude. */
  lemma MagStrictlyDecreasing(x: real, y: real, logArea: real)
    requires x < y
    ensures LogLumToMag(y, logArea) < LogLumToMag(x, logArea)
  {
  }

  /** The conversion is affine with slope -2.5, so a shift of one standard
      error in log-luminosity moves the magnitude by exactly MagError of it,
      wherever the shift starts. */
  lemma MagErrorIsExact(logLum: real, stdErr: real, logArea: real)
    ensures LogLumToMag(logLum, logArea) - LogLumToMag(logLum + stdErr, logArea) == MagError(stdErr)
    ensures LogLumToMag(logLum - stdErr, logArea) - LogLumToMag(logLum, logArea) == MagError(stdErr)
  {
  }

  /** MagToLogLum undoes LogLumToMag in the other order too. */
  lemma MagRoundTrip(mag: real, logArea: real)
    ensures LogLumToMag(MagToLogLum(mag, logArea), logArea) == mag
  {
  }
}
