/** The `params` dictionary handed to `set_params`, and numpy's rule for
    assigning one of its values to a column of `params_array`. */
module Parameters {
  import opened Wrappers

  /** A dictionary value: a Python float or a 1-d numpy array. */
  datatype ParamValue = PyFloat(x: real) | NdArray(xs: seq<real>)

  /** The keys `set_params` reads; `distance` is the one optional key. */
  datatype Params = Params(
    mejDyn: ParamValue,
    vejDyn: ParamValue,
    mejWind: ParamValue,
    vejWind: ParamValue,
    theta: ParamValue,
    distance: Option<ParamValue>)

  /** `mej_wind / 13.90`: the dynamical ejecta mass the no-mej_dyn variant
      derives from the wind ejecta mass. */
  const WindToDynRatio: real := 13.90

  /** Rows of `params_array`: one for a float `mej_dyn`, else its size. */
  function BatchSize(p: Params): nat
  {
    match p.mejDyn
    case PyFloat(_) => 1
    case NdArray(xs) => |xs|
  }

  /** numpy accepts v for a column of n rows: a scalar, an array of n
      entries, or a one-entry array that is broadcast. */
  predicate Fits(v: ParamValue, n: nat)
  {
    v.PyFloat? || |v.xs| == n || |v.xs| == 1
  }

  /** The n column entries `params_array[:, col] = v` writes. */
  function Column(v: ParamValue, n: nat): (c: seq<real>)
    requires Fits(v, n)
    ensures |c| == n
    ensures v.PyFloat? ==> forall i :: 0 <= i < n ==> c[i] == v.x
    ensures v.NdArray? && |v.xs| == n ==> c == v.xs
    ensures v.NdArray? && |v.xs| == 1 ==> forall i :: 0 <= i < n ==> c[i] == v.xs[0]
  {
    match v
    case PyFloat(x) => seq(n, i => x)
    case NdArray(xs) => if |xs| == n then xs else seq(n, i => xs[0])
  }

  /** Elementwise division, keeping the value's shape. */
  function Divide(v: ParamValue, d: real): (r: ParamValue)
    requires d != 0.0
    ensures r.PyFloat? == v.PyFloat?
    ensures v.PyFloat? ==> r.x * d == v.x
    ensures v.NdArray? ==> |r.xs| == |v.xs| && forall i :: 0 <= i < |v.xs| ==> r.xs[i] * d == v.xs[i]
  {
    match v
    case PyFloat(x) => PyFloat(x / d)
    case NdArray(xs) => NdArray(seq(|xs|, i requires 0 <= i < |xs| => xs[i] / d))
  }

  /** What column col (0 to 3) of `params_array` is filled from; the
      no-mej_dyn variant derives column 0 from the wind ejecta mass. */
  function ColumnSource(p: Params, col: nat, noMejDyn: bool): ParamValue
    requires col < 4
  {
    if col == 0 then (if noMejDyn then Divide(p.mejWind, WindToDynRatio) else p.mejDyn)
    else if col == 1 then p.vejDyn
    else if col == 2 then p.mejWind
    else p.vejWind
  }

  /** Columns 0 .. m-1 can all be assigned. */
  predicate FitsUpTo(p: Params, m: nat, noMejDyn: bool)
    requires m <= 4
  {
    forall col :: 0 <= col < m ==> Fits(ColumnSource(p, col, noMejDyn), BatchSize(p))
  }

  /** Dividing keeps the shape, so the variant's column 0 fits exactly when
      the wind mass fits. */
  lemma DivideFits(v: ParamValue, d: real, n: nat)
    requires d != 0.0
    ensures Fits(Divide(v, d), n) == Fits(v, n)
  {
  }
}
