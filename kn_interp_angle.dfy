/** The surrogate model `kn_interp_angle`: `set_params` stores a parameter
    batch and its angle-bin assignment in the object, and `evaluate` fills a
    (sample x grid-time) matrix of magnitudes and errors by blending, per
    angle bin, the predictions of the two trained angles that bound it. */
module KnInterpAngle {
  import opened Wrappers
  import opened Magnitudes
  import opened GpPrediction
  import opened AngleBins
  import opened AngleBlend
  import opened TimeGrid
  import opened Parameters

  /** `lmbda_dict`: the wavelength (nm) fed to the GP for each band. */
  const BandWavelengths: map<string, real> := map[
    "g" := 477.56, "r" := 612.95, "i" := 748.46, "z" := 865.78,
    "y" := 960.31, "J" := 1235.0, "H" := 1662.0, "K" := 2159.0]

  /** `evaluate` accepts exactly the eight bands g, r, i, z, y, J, H and K,
      whose wavelengths increase in that order. */
  lemma BandTable()
    ensures BandWavelengths.Keys == {"g", "r", "i", "z", "y", "J", "H", "K"}
    ensures BandWavelengths["g"] < BandWavelengths["r"] < BandWavelengths["i"] < BandWavelengths["z"]
      < BandWavelengths["y"] < BandWavelengths["J"] < BandWavelengths["H"] < BandWavelengths["K"]
  {
  }

  /** The exceptions the two methods can raise. */
  datatype Error =
    | ParamsNotSet           // `params_array` is still None
    | UnknownBand            // band not in `lmbda_dict`
    | MissingBin             // an angle bin missing from `index_dict`
    | RowOutOfRange          // a bin index past the last row of `params_array`
    | ThetaNotSubscriptable  // `self.theta[...]` on a float theta
    | ThetaNotArray          // the explicit raise of `set_params`
    | BroadcastMismatch      // a value numpy cannot assign to a column

  /** `self.theta`: unset, a 1-d array, or (in the variant) a bare float. */
  datatype ThetaValue = Unset | Vector(ts: seq<real>) | Scalar(t: real)

  /** `self.theta` as `set_params` assigns it, before the ndarray check. */
  function InitialTheta(p: Params): (r: ThetaValue)
    requires p.mejDyn.PyFloat? ==> p.theta.PyFloat?
    ensures !r.Unset?
    ensures r.Scalar? <==> p.mejDyn.NdArray? && p.theta.PyFloat?
    ensures r.Scalar? ==> r.t == p.theta.x
    ensures r.Vector? ==> r.ts == (if p.theta.PyFloat? then [p.theta.x] else p.theta.xs)
    ensures p.mejDyn.PyFloat? ==> r.Vector? && |r.ts| == BatchSize(p)
  {
    match p.mejDyn
    case PyFloat(_) => Vector([p.theta.x])
    case NdArray(_) =>
      match p.theta
      case NdArray(xs) => Vector(xs)
      case PyFloat(x) => Scalar(x)
  }

  /** `np.where((lo <= theta) & (theta < hi))[0]` for bin k. On a float
      theta numpy treats the comparison as a 0-d array: index 0 or nothing. */
  function ThetaBin(theta: ThetaValue, k: nat): seq<nat>
    requires k < BinCount
  {
    match theta
    case Vector(ts) => WhereIn(ts, Lower(k), Upper(k))
    case Scalar(t) => if InBin(t, k) then [0] else []
    case Unset => []
  }

  /** A float theta is binned as the one-entry array holding it would be. */
  lemma ScalarThetaBin(t: real, k: nat)
    requires k < BinCount
    ensures ThetaBin(Scalar(t), k) == WhereIn([t], Lower(k), Upper(k))
  {
    assert [t][..0] == [];
  }

  /** `index_dict` after the loop over the first m bins. */
  function BinDictUpTo(theta: ThetaValue, m: nat): map<(int, int), seq<nat>>
    requires m <= BinCount
  {
    if m == 0 then map[]
    else BinDictUpTo(theta, m - 1)[BinKey(m - 1) := ThetaBin(theta, m - 1)]
  }

  /** `index_dict` as `set_params` builds it. */
  function BinDict(theta: ThetaValue): map<(int, int), seq<nat>>
  {
    BinDictUpTo(theta, BinCount)
  }

  /** The dictionary holds exactly the five bin keys, each mapped to the
      rows of that bin. */
  lemma {:induction false} BinDictUpToLookup(theta: ThetaValue, m: nat)
    requires m <= BinCount
    ensures forall k :: 0 <= k < m ==> BinKey(k) in BinDictUpTo(theta, m) && BinDictUpTo(theta, m)[BinKey(k)] == ThetaBin(theta, k)
    ensures forall key :: key in BinDictUpTo(theta, m) ==> exists k :: 0 <= k < m && key == BinKey(k)
  {
    if m > 0 {
      BinDictUpToLookup(theta, m - 1);
      var prev := BinDictUpTo(theta, m - 1);
      var d := BinDictUpTo(theta, m);
      assert d == prev[BinKey(m - 1) := ThetaBin(theta, m - 1)];
      forall k | 0 <= k < m
        ensures BinKey(k) in d && d[BinKey(k)] == ThetaBin(theta, k)
      {
        if k < m - 1 {
          BinKeysDistinct(k, m - 1);
        }
      }
      forall key | key in d
        ensures exists k :: 0 <= k < m && key == BinKey(k)
      {
        if key == BinKey(m - 1) {
          assert 0 <= m - 1 < m;
        } else {
          assert key in prev;
          var k :| 0 <= k < m - 1 && key == BinKey(k);
          assert 0 <= k < m;
        }
      }
    }
  }

  /** `index_dict[(angles[k], angles[k+1])]` is the bin's index list. */
  lemma BinDictLookup(theta: ThetaValue, k: nat)
    requires k < BinCount
    ensures BinKey(k) in BinDict(theta) && BinDict(theta)[BinKey(k)] == ThetaBin(theta, k)
  {
    BinDictUpToLookup(theta, BinCount);
  }

  /** The magnitude and the error of a row are blended with the same
      weight on the lower angle's prediction and its complement on the
      upper one. */
  lemma SameWeights(gp: Predictor, logArea: real, row: seq<real>, t: real, k: nat, gi: nat)
    requires k < BinCount
    ensures var w := LowerWeight(Lower(k), Upper(k), t);
      BlendedMag(gp, logArea, row, t, k, gi)
        == w * RowMag(gp, ArtifactKey(Angles[k], gi), row, logArea)
         + (1.0 - w) * RowMag(gp, ArtifactKey(Angles[k + 1], gi), row, logArea) &&
      BlendedError(gp, row, t, k, gi)
        == w * RowMagError(gp, ArtifactKey(Angles[k], gi), row)
         + (1.0 - w) * RowMagError(gp, ArtifactKey(Angles[k + 1], gi), row)
  {
    BlendIsConvexCombination(Lower(k), Upper(k), t,
      RowMag(gp, ArtifactKey(Angles[k], gi), row, logArea),
      RowMag(gp, ArtifactKey(Angles[k + 1], gi), row, logArea));
    BlendIsConvexCombination(Lower(k), Upper(k), t,
      RowMagError(gp, ArtifactKey(Angles[k], gi), row),
      RowMagError(gp, ArtifactKey(Angles[k + 1], gi), row));
  }

  /** Row j of `params_array`: the five GP input features. */
  function Row(a: array2<real>, j: nat): seq<real>
    reads a
    requires j < a.Length0 && a.Length1 == 5
  {
    [a[j, 0], a[j, 1], a[j, 2], a[j, 3], a[j, 4]]
  }

  /** `params_array[param_indices]`. */
  function RowsAt(a: array2<real>, idx: seq<nat>): (rows: seq<seq<real>>)
    reads a
    requires a.Length1 == 5 && forall i :: 0 <= i < |idx| ==> idx[i] < a.Length0
    ensures |rows| == |idx| && forall i :: 0 <= i < |idx| ==> rows[i] == Row(a, idx[i])
  {
    if idx == [] then []
    else RowsAt(a, idx[..|idx| - 1]) + [Row(a, idx[|idx| - 1])]
  }

  /** `theta[param_indices]`. */
  function Pick(ts: seq<real>, idx: seq<nat>): (vs: seq<real>)
    requires forall i :: 0 <= i < |idx| ==> idx[i] < |ts|
    ensures |vs| == |idx| && forall i :: 0 <= i < |idx| ==> vs[i] == ts[idx[i]]
  {
    if idx == [] then []
    else Pick(ts, idx[..|idx| - 1]) + [ts[idx[|idx| - 1]]]
  }

  /** Magnitude for a row with viewing angle t in bin k, at grid index gi:
      the predictions of the artifacts of the bin's two trained angles,
      blended by t. */
  function BlendedMag(gp: Predictor, logArea: real, row: seq<real>, t: real, k: nat, gi: nat): real
    requires k < BinCount
  {
    Blend(Lower(k), Upper(k), t,
      RowMag(gp, ArtifactKey(Angles[k], gi), row, logArea),
      RowMag(gp, ArtifactKey(Angles[k + 1], gi), row, logArea))
  }

  /** The same for the magnitude error, with the same weights. */
  function BlendedError(gp: Predictor, row: seq<real>, t: real, k: nat, gi: nat): real
    requires k < BinCount
  {
    Blend(Lower(k), Upper(k), t,
      RowMagError(gp, ArtifactKey(Angles[k], gi), row),
      RowMagError(gp, ArtifactKey(Angles[k + 1], gi), row))
  }

  /** The bin of row j, when theta is an array long enough to have one and
      the bin is among the first `bins` ones. */
  function RowBin(theta: ThetaValue, j: nat, bins: nat): (r: Option<nat>)
    ensures r.Some? ==> r.value < bins && r.value < BinCount
  {
    if theta.Vector? && j < |theta.ts| then
      match BinOf(theta.ts[j])
      case Some(k) => if k < bins then Some(k) else None
      case None => None
    else None
  }

  /** Cell (j, column of grid index gi) of `mags_interp` once the first
      `bins` bins are written: the blend for row j's bin when it is one of
      them; otherwise None, as `np.empty` leaves that cell unspecified. */
  function CellMag(gp: Predictor, logArea: real, theta: ThetaValue, j: nat, row: seq<real>, gi: nat, bins: nat): Option<real>
  {
    match RowBin(theta, j, bins)
    case Some(k) => Some(BlendedMag(gp, logArea, row, theta.ts[j], k, gi))
    case None => None
  }

  /** The same cell of `mags_err_interp`. */
  function CellError(gp: Predictor, theta: ThetaValue, j: nat, row: seq<real>, gi: nat, bins: nat): Option<real>
  {
    match RowBin(theta, j, bins)
    case Some(k) => Some(BlendedError(gp, row, theta.ts[j], k, gi))
    case None => None
  }

  /** Some row lies in bin k. */
  predicate Occupied(ts: seq<real>, k: nat)
    requires k < BinCount
  {
    exists j :: 0 <= j < |ts| && InBin(ts[j], k)
  }

  /** `param_indices.size == 0` tests exactly that no row lies in the bin. */
  lemma OccupiedIffListed(ts: seq<real>, k: nat)
    requires k < BinCount
    ensures Occupied(ts, k) <==> |WhereIn(ts, Lower(k), Upper(k))| > 0
  {
    var idx := WhereIn(ts, Lower(k), Upper(k));
    if |idx| > 0 {
      assert idx[0] in idx && InBin(ts[idx[0]], k);
    }
  }

  /** The artifacts requested for bin k at one grid index: the lower and
      the upper angle when the bin is occupied, nothing otherwise. */
  function BinLoads(ts: seq<real>, gi: nat, k: nat): seq<ArtifactKey>
    requires k < BinCount
  {
    if Occupied(ts, k) then [ArtifactKey(Angles[k], gi), ArtifactKey(Angles[k + 1], gi)] else []
  }

  /** The artifacts requested for one grid index, bins 0 .. m-1. */
  function ColumnLoads(ts: seq<real>, gi: nat, m: nat): seq<ArtifactKey>
    requires m <= BinCount
  {
    if m == 0 then [] else ColumnLoads(ts, gi, m - 1) + BinLoads(ts, gi, m - 1)
  }

  /** key is one of the two artifacts that bound bin k at grid index gi. */
  predicate Bounds(key: ArtifactKey, gi: nat, k: nat)
    requires k < BinCount
  {
    key == ArtifactKey(Angles[k], gi) || key == ArtifactKey(Angles[k + 1], gi)
  }

  /** For one grid index, an artifact is requested exactly when it bounds an
      occupied bin: both artifacts of every occupied bin are requested from
      `_load_gp`, and an empty bin requests nothing of its own. */
  lemma {:induction false} ColumnLoadsExactly(ts: seq<real>, gi: nat, m: nat, key: ArtifactKey)
    requires m <= BinCount
    ensures key in ColumnLoads(ts, gi, m) <==> exists k :: 0 <= k < m && Occupied(ts, k) && Bounds(key, gi, k)
  {
    if m > 0 {
      ColumnLoadsExactly(ts, gi, m - 1, key);
      var prev := ColumnLoads(ts, gi, m - 1);
      var here := BinLoads(ts, gi, m - 1);
      assert ColumnLoads(ts, gi, m) == prev + here;
      assert key in here <==> Occupied(ts, m - 1) && Bounds(key, gi, m - 1);
      if key in prev {
        var k :| 0 <= k < m - 1 && Occupied(ts, k) && Bounds(key, gi, k);
        assert 0 <= k < m;
      } else if key in here {
        assert 0 <= m - 1 < m && Occupied(ts, m - 1) && Bounds(key, gi, m - 1);
      } else {
        forall k | 0 <= k < m
          ensures !(Occupied(ts, k) && Bounds(key, gi, k))
        {
        }
      }
    }
  }

  /** The exception bin k raises in a pass of the bin loop of `evaluate`
      over a `params_array` of `rows` rows, if any: a key missing from
      `index_dict`; then, for a non-empty index list only, a listed row past
      the last one (`params_array[param_indices]`) and, after that, a float
      theta (`self.theta[param_indices]`). An empty bin raises nothing. */
  function BinFailure(rows: nat, theta: ThetaValue, indexDict: map<(int, int), seq<nat>>, k: nat): Option<Error>
    requires k < BinCount
  {
    if BinKey(k) !in indexDict then Some(MissingBin)
    else
      var idx := indexDict[BinKey(k)];
      if |idx| == 0 then None
      else if exists i :: 0 <= i < |idx| && idx[i] >= rows then Some(RowOutOfRange)
      else if !theta.Vector? then Some(ThetaNotSubscriptable)
      else None
  }

  /** The exception of the first of bins 0 .. m-1 that raises, if any. The
      bins do not depend on the grid index, so every column of `evaluate`
      meets the same one. */
  function ColumnFailure(rows: nat, theta: ThetaValue, indexDict: map<(int, int), seq<nat>>, m: nat): Option<Error>
    requires m <= BinCount
  {
    if m == 0 then None
    else
      var earlier := ColumnFailure(rows, theta, indexDict, m - 1);
      if earlier.Some? then earlier else BinFailure(rows, theta, indexDict, m - 1)
  }

  /** Once a bin has raised, the later bins are never reached. */
  lemma {:induction false} ColumnFailureStays(rows: nat, theta: ThetaValue, indexDict: map<(int, int), seq<nat>>, m: nat, m': nat)
    requires m <= m' <= BinCount && ColumnFailure(rows, theta, indexDict, m).Some?
    ensures ColumnFailure(rows, theta, indexDict, m') == ColumnFailure(rows, theta, indexDict, m)
    decreases m' - m
  {
    if m < m' {
      ColumnFailureStays(rows, theta, indexDict, m, m' - 1);
    }
  }

  /** The loop over bins 0 .. m-1 raises exactly when one of them does, and
      then with the exception of the first bin that raises. */
  lemma {:induction false} ColumnFailureFirst(rows: nat, theta: ThetaValue, indexDict: map<(int, int), seq<nat>>, m: nat)
    requires m <= BinCount
    ensures ColumnFailure(rows, theta, indexDict, m).None? <==> forall k :: 0 <= k < m ==> BinFailure(rows, theta, indexDict, k).None?
    ensures ColumnFailure(rows, theta, indexDict, m).Some? ==>
      exists k :: 0 <= k < m && ColumnFailure(rows, theta, indexDict, m) == BinFailure(rows, theta, indexDict, k) &&
        forall k' :: 0 <= k' < k ==> BinFailure(rows, theta, indexDict, k').None?
  {
    if m > 0 {
      ColumnFailureFirst(rows, theta, indexDict, m - 1);
      var earlier := ColumnFailure(rows, theta, indexDict, m - 1);
      if earlier.Some? {
        var k :| 0 <= k < m - 1 && earlier == BinFailure(rows, theta, indexDict, k) &&
          forall k' :: 0 <= k' < k ==> BinFailure(rows, theta, indexDict, k').None?;
        assert 0 <= k < m;
      } else {
        assert forall k :: 0 <= k < m - 1 ==> BinFailure(rows, theta, indexDict, k).None?;
        if BinFailure(rows, theta, indexDict, m - 1).Some? {
          assert 0 <= m - 1 < m;
        }
      }
    }
  }

  /** With `index_dict` built from an array theta no longer than the batch,
      no bin raises: every listed row exists and theta is subscriptable. */
  lemma ArrayThetaNeverFails(rows: nat, ts: seq<real>, m: nat)
    requires |ts| <= rows && m <= BinCount
    ensures ColumnFailure(rows, Vector(ts), BinDict(Vector(ts)), m) == None
  {
    if m > 0 {
      ArrayThetaNeverFails(rows, ts, m - 1);
      BinDictLookup(Vector(ts), m - 1);
    }
  }

  /** With `index_dict` built from a float theta, only the bin holding that
      float is non-empty: it raises (IndexError on an empty batch, else the
      float is not subscriptable), and every other bin is skipped. */
  lemma ScalarThetaFailure(rows: nat, t: real, k: nat)
    requires k < BinCount
    ensures BinFailure(rows, Scalar(t), BinDict(Scalar(t)), k) ==
      if !InBin(t, k) then None else if rows == 0 then Some(RowOutOfRange) else Some(ThetaNotSubscriptable)
  {
    BinDictLookup(Scalar(t), k);
    var idx := BinDict(Scalar(t))[BinKey(k)];
    if InBin(t, k) {
      assert idx == [0];
      if rows == 0 {
        assert idx[0] >= rows;
      }
    }
  }

  /** With `index_dict` built from a float theta, the bin loop raises only
      when it reaches the bin holding that float; a float in no bin (such as
      95.0) makes every bin empty, and nothing raises. */
  lemma {:induction false} ScalarThetaColumn(rows: nat, t: real, m: nat)
    requires m <= BinCount
    ensures BinOf(t).None? || BinOf(t).value >= m ==>
      ColumnFailure(rows, Scalar(t), BinDict(Scalar(t)), m) == None
    ensures BinOf(t).Some? && BinOf(t).value < m ==>
      ColumnFailure(rows, Scalar(t), BinDict(Scalar(t)), m) ==
        Some(if rows == 0 then RowOutOfRange else ThetaNotSubscriptable)
  {
    if m > 0 {
      ScalarThetaColumn(rows, t, m - 1);
      ScalarThetaFailure(rows, t, m - 1);
      if InBin(t, m - 1) {
        BinsDisjoint(t, m - 1, BinOf(t).value);
      }
    }
  }

  /** The artifacts requested for the first m selected grid indices. */
  function LoadPlan(ts: seq<real>, indList: seq<nat>, m: nat): seq<ArtifactKey>
    requires m <= |indList|
  {
    if m == 0 then []
    else LoadPlan(ts, indList, m - 1) + ColumnLoads(ts, indList[m - 1], BinCount)
  }

  /** Column c of a matrix, as a sequence over its rows. */
  ghost function ColumnOf(m: array2<real>, c: nat): (col: seq<real>)
    reads m
    requires c < m.Length1
    ensures |col| == m.Length0 && forall j :: 0 <= j < m.Length0 ==> col[j] == m[j, c]
  {
    seq(m.Length0, j requires 0 <= j < m.Length0 reads m => m[j, c])
  }

  /** Every row of `params_array`. */
  ghost function Rows(a: array2<real>): (rows: seq<seq<real>>)
    reads a
    requires a.Length1 == 5
    ensures |rows| == a.Length0 && forall j :: 0 <= j < a.Length0 ==> rows[j] == Row(a, j)
  {
    seq(a.Length0, j requires 0 <= j < a.Length0 reads a => Row(a, j))
  }

  /** A column after `col[idx] = vals`, for distinct row indices. */
  function Scattered(col: seq<real>, idx: seq<nat>, vals: seq<real>): (r: seq<real>)
    requires |vals| == |idx|
    requires forall i :: 0 <= i < |idx| ==> idx[i] < |col|
    requires forall i, i' :: 0 <= i < i' < |idx| ==> idx[i] < idx[i']
    ensures |r| == |col|
    ensures forall i :: 0 <= i < |idx| ==> r[idx[i]] == vals[i]
    ensures forall j :: 0 <= j < |col| && j !in idx ==> r[j] == col[j]
  {
    if idx == [] then col
    else
      var last := |idx| - 1;
      Scattered(col, idx[..last], vals[..last])[idx[last] := vals[last]]
  }

  /** `m[:, c][idx] = vals`: write vals into column c at the listed rows,
      leaving every other cell as it was. */
  method Scatter(m: array2<real>, c: nat, idx: seq<nat>, vals: seq<real>)
    requires c < m.Length1 && |vals| == |idx|
    requires forall i :: 0 <= i < |idx| ==> idx[i] < m.Length0
    requires forall i, i' :: 0 <= i < i' < |idx| ==> idx[i] < idx[i']
    modifies m
    ensures ColumnOf(m, c) == Scattered(old(ColumnOf(m, c)), idx, vals)
    ensures forall j, col :: 0 <= j < m.Length0 && 0 <= col < m.Length1 && col != c ==>
      m[j, col] == old(m[j, col])
  {
    ghost var before := ColumnOf(m, c);
    for i := 0 to |idx|
      invariant forall i' :: 0 <= i' < i ==> m[idx[i'], c] == vals[i']
      invariant forall j, col :: 0 <= j < m.Length0 && 0 <= col < m.Length1 && (col != c || j !in idx[..i]) ==>
        m[j, col] == old(m[j, col])
    {
      m[idx[i], c] := vals[i];
      assert idx[..i + 1] == idx[..i] + [idx[i]];
    }
    assert idx[..|idx|] == idx;
    ghost var after := Scattered(before, idx, vals);
    forall j | 0 <= j < m.Length0
      ensures m[j, c] == after[j]
    {
      if j in idx {
        var i :| 0 <= i < |idx| && idx[i] == j;
      }
    }
  }

  /** A magnitude column once the first `bins` bins are written: the blend
      for every row whose bin is one of them, the initial content
      elsewhere. */
  ghost predicate MagsMatch(gp: Predictor, logArea: real, theta: ThetaValue, rows: seq<seq<real>>, gi: nat,
                            bins: nat, col: seq<real>, init: seq<real>)
  {
    |col| == |rows| && |init| == |rows| &&
    forall j :: 0 <= j < |rows| ==> col[j] == CellMag(gp, logArea, theta, j, rows[j], gi, bins).GetOr(init[j])
  }

  /** The same for an error column. */
  ghost predicate ErrsMatch(gp: Predictor, theta: ThetaValue, rows: seq<seq<real>>, gi: nat,
                            bins: nat, col: seq<real>, init: seq<real>)
  {
    |col| == |rows| && |init| == |rows| &&
    forall j :: 0 <= j < |rows| ==> col[j] == CellError(gp, theta, j, rows[j], gi, bins).GetOr(init[j])
  }

  lemma NothingWrittenYet(gp: Predictor, logArea: real, theta: ThetaValue, rows: seq<seq<real>>, gi: nat,
                          mags: seq<real>, errs: seq<real>)
    requires |mags| == |rows| && |errs| == |rows|
    ensures MagsMatch(gp, logArea, theta, rows, gi, 0, mags, mags)
    ensures ErrsMatch(gp, theta, rows, gi, 0, errs, errs)
  {
  }

  /** Skipping a bin with no rows leaves the column as the spec of one more
      bin wants it. */
  lemma EmptyBinStep(gp: Predictor, logArea: real, theta: ThetaValue, rows: seq<seq<real>>, gi: nat, k: nat,
                     mags: seq<real>, errs: seq<real>, initMags: seq<real>, initErrs: seq<real>)
    requires k < BinCount
    requires theta.Vector? ==> |WhereIn(theta.ts, Lower(k), Upper(k))| == 0
    requires MagsMatch(gp, logArea, theta, rows, gi, k, mags, initMags)
    requires ErrsMatch(gp, theta, rows, gi, k, errs, initErrs)
    ensures MagsMatch(gp, logArea, theta, rows, gi, k + 1, mags, initMags)
    ensures ErrsMatch(gp, theta, rows, gi, k + 1, errs, initErrs)
  {
    forall j | 0 <= j < |rows| && theta.Vector? && j < |theta.ts|
      ensures RowBin(theta, j, k + 1) == RowBin(theta, j, k)
    {
      WhereInBinOf(theta.ts, j, k);
    }
  }

  /** Writing the blends of bin k into exactly the rows of bin k extends a
      magnitude column from k bins to k + 1. */
  lemma BlendBinMags(gp: Predictor, logArea: real, theta: ThetaValue, rows: seq<seq<real>>, gi: nat, k: nat,
                     idx: seq<nat>, vals: seq<real>, before: seq<real>, init: seq<real>)
    requires theta.Vector? && k < BinCount && idx == WhereIn(theta.ts, Lower(k), Upper(k))
    requires forall i :: 0 <= i < |idx| ==> idx[i] < |rows|
    requires |before| == |rows| && |vals| == |idx|
    requires MagsMatch(gp, logArea, theta, rows, gi, k, before, init)
    requires forall i :: 0 <= i < |idx| ==> vals[i] == BlendedMag(gp, logArea, rows[idx[i]], theta.ts[idx[i]], k, gi)
    ensures MagsMatch(gp, logArea, theta, rows, gi, k + 1, Scattered(before, idx, vals), init)
  {
    var after := Scattered(before, idx, vals);
    forall j | 0 <= j < |rows|
      ensures after[j] == CellMag(gp, logArea, theta, j, rows[j], gi, k + 1).GetOr(init[j])
    {
      if j in idx {
        var i :| 0 <= i < |idx| && idx[i] == j;
        WhereInBinOf(theta.ts, j, k);
        assert after[j] == vals[i] && RowBin(theta, j, k + 1) == Some(k);
      } else {
        if j < |theta.ts| {
          WhereInBinOf(theta.ts, j, k);
        }
        assert after[j] == before[j] && RowBin(theta, j, k + 1) == RowBin(theta, j, k);
      }
    }
  }

  /** The same for an error column. */
  lemma BlendBinErrs(gp: Predictor, theta: ThetaValue, rows: seq<seq<real>>, gi: nat, k: nat,
                     idx: seq<nat>, vals: seq<real>, before: seq<real>, init: seq<real>)
    requires theta.Vector? && k < BinCount && idx == WhereIn(theta.ts, Lower(k), Upper(k))
    requires forall i :: 0 <= i < |idx| ==> idx[i] < |rows|
    requires |before| == |rows| && |vals| == |idx|
    requires ErrsMatch(gp, theta, rows, gi, k, before, init)
    requires forall i :: 0 <= i < |idx| ==> vals[i] == BlendedError(gp, rows[idx[i]], theta.ts[idx[i]], k, gi)
    ensures ErrsMatch(gp, theta, rows, gi, k + 1, Scattered(before, idx, vals), init)
  {
    var after := Scattered(before, idx, vals);
    forall j | 0 <= j < |rows|
      ensures after[j] == CellError(gp, theta, j, rows[j], gi, k + 1).GetOr(init[j])
    {
      if j in idx {
        var i :| 0 <= i < |idx| && idx[i] == j;
        WhereInBinOf(theta.ts, j, k);
        assert after[j] == vals[i] && RowBin(theta, j, k + 1) == Some(k);
      } else {
        if j < |theta.ts| {
          WhereInBinOf(theta.ts, j, k);
        }
        assert after[j] == before[j] && RowBin(theta, j, k + 1) == RowBin(theta, j, k);
      }
    }
  }

  /** The predictions for one bin's rows: both artifacts predict the whole
      batch, then each row is blended by its own angle, magnitudes and
      errors alike. Row by row this is BlendedMag and BlendedError. */
  function BinPrediction(gp: Predictor, logArea: real, rows: seq<seq<real>>, ts: seq<real>, k: nat, gi: nat): (p: Prediction)
    requires k < BinCount && |ts| == |rows|
    ensures |p.mags| == |rows| && |p.errs| == |rows|
    ensures forall i :: 0 <= i < |rows| ==> p.mags[i] == BlendedMag(gp, logArea, rows[i], ts[i], k, gi)
    ensures forall i :: 0 <= i < |rows| ==> p.errs[i] == BlendedError(gp, rows[i], ts[i], k, gi)
  {
    var lower := ModelPredict(gp, ArtifactKey(Angles[k], gi), rows, logArea);
    var upper := ModelPredict(gp, ArtifactKey(Angles[k + 1], gi), rows, logArea);
    Prediction(BlendAll(Lower(k), Upper(k), ts, lower.mags, upper.mags),
               BlendAll(Lower(k), Upper(k), ts, lower.errs, upper.errs))
  }

  /** The prediction step of one occupied bin k: gather the bin's rows of
      `params_array` a and their thetas, and predict and blend them. Entry i
      is the blend for row idx[i]. */
  method PredictBin(a: array2<real>, ts: seq<real>, idx: seq<nat>, gp: Predictor, logArea: real, k: nat, gi: nat,
                    ghost all: seq<seq<real>>)
    returns (p: Prediction)
    requires a.Length1 == 5 && all == Rows(a) && k < BinCount
    requires forall i :: 0 <= i < |idx| ==> idx[i] < |all| && idx[i] < |ts|
    ensures |p.mags| == |idx| && |p.errs| == |idx|
    ensures forall i :: 0 <= i < |idx| ==> p.mags[i] == BlendedMag(gp, logArea, all[idx[i]], ts[idx[i]], k, gi)
    ensures forall i :: 0 <= i < |idx| ==> p.errs[i] == BlendedError(gp, all[idx[i]], ts[idx[i]], k, gi)
  {
    var rows := RowsAt(a, idx);
    var ths := Pick(ts, idx);
    assert forall i :: 0 <= i < |idx| ==> rows[i] == all[idx[i]] && ths[i] == ts[idx[i]];
    p := BinPrediction(gp, logArea, rows, ths, k, gi);
  }

  /** One occupied bin k of one column: predict the bin's rows with the
      artifacts of its two trained angles, blend by theta, and write the
      blends into those rows of column c only. */
  method BlendBin(a: array2<real>, mags: array2<real>, errs: array2<real>, c: nat, gi: nat, k: nat,
                  ts: seq<real>, idx: seq<nat>, gp: Predictor, logArea: real,
                  ghost all: seq<seq<real>>, ghost initMags: seq<real>, ghost initErrs: seq<real>)
    requires a.Length1 == 5 && all == Rows(a)
    requires mags != errs
    requires mags.Length0 == |all| && errs.Length0 == |all|
    requires c < mags.Length1 && c < errs.Length1
    requires k < BinCount && idx == WhereIn(ts, Lower(k), Upper(k))
    requires forall i :: 0 <= i < |idx| ==> idx[i] < |all|
    requires MagsMatch(gp, logArea, Vector(ts), all, gi, k, ColumnOf(mags, c), initMags)
    requires ErrsMatch(gp, Vector(ts), all, gi, k, ColumnOf(errs, c), initErrs)
    modifies mags, errs
    ensures MagsMatch(gp, logArea, Vector(ts), all, gi, k + 1, ColumnOf(mags, c), initMags)
    ensures ErrsMatch(gp, Vector(ts), all, gi, k + 1, ColumnOf(errs, c), initErrs)
    ensures forall j, col :: 0 <= j < mags.Length0 && 0 <= col < mags.Length1 && col != c ==>
      mags[j, col] == old(mags[j, col])
    ensures forall j, col :: 0 <= j < errs.Length0 && 0 <= col < errs.Length1 && col != c ==>
      errs[j, col] == old(errs[j, col])
  {
    var blended := PredictBin(a, ts, idx, gp, logArea, k, gi, all);
    BlendBinMags(gp, logArea, Vector(ts), all, gi, k, idx, blended.mags, ColumnOf(mags, c), initMags);
    BlendBinErrs(gp, Vector(ts), all, gi, k, idx, blended.errs, ColumnOf(errs, c), initErrs);
    Scatter(mags, c, idx, blended.mags);
    Scatter(errs, c, idx, blended.errs);
  }

  /** One pass of the angle-bin loop of `evaluate`, bin k of the column c
      of `mags_interp` and `mags_err_interp` that holds grid index gi, over
      `params_array` a: an empty bin is skipped without requesting any
      artifact, an occupied one requests the artifacts of both bounding
      angles and writes only its own rows. Returns the artifacts it
      requested; it raises exactly as BinFailure says. */
  method FillBin(a: array2<real>, theta: ThetaValue, indexDict: map<(int, int), seq<nat>>,
                 mags: array2<real>, errs: array2<real>, c: nat, gi: nat, k: nat, gp: Predictor, logArea: real,
                 ghost all: seq<seq<real>>, ghost initMags: seq<real>, ghost initErrs: seq<real>)
    returns (r: Result<seq<ArtifactKey>, Error>)
    requires a.Length1 == 5 && all == Rows(a)
    requires theta.Vector? ==> indexDict == BinDict(theta)
    requires mags != errs
    requires mags.Length0 == a.Length0 && errs.Length0 == a.Length0
    requires c < mags.Length1 && c < errs.Length1 && k < BinCount
    requires MagsMatch(gp, logArea, theta, all, gi, k, ColumnOf(mags, c), initMags)
    requires ErrsMatch(gp, theta, all, gi, k, ColumnOf(errs, c), initErrs)
    modifies mags, errs
    ensures r.Ok? ==> MagsMatch(gp, logArea, theta, all, gi, k + 1, ColumnOf(mags, c), initMags)
    ensures r.Ok? ==> ErrsMatch(gp, theta, all, gi, k + 1, ColumnOf(errs, c), initErrs)
    ensures forall j, col :: 0 <= j < mags.Length0 && 0 <= col < mags.Length1 && col != c ==>
      mags[j, col] == old(mags[j, col])
    ensures forall j, col :: 0 <= j < errs.Length0 && 0 <= col < errs.Length1 && col != c ==>
      errs[j, col] == old(errs[j, col])
    ensures r.Ok? ==> r.value == (if theta.Vector? then BinLoads(theta.ts, gi, k) else [])
    ensures r.Err? <==> BinFailure(a.Length0, theta, indexDict, k).Some?
    ensures r.Err? ==> BinFailure(a.Length0, theta, indexDict, k) == Some(r.error)
    ensures theta.Vector? && |theta.ts| <= a.Length0 ==> r.Ok?
    ensures r.Err? ==> r.error in {MissingBin, RowOutOfRange, ThetaNotSubscriptable}
  {
    if theta.Vector? {
      BinDictLookup(theta, k);
    }
    var key := BinKey(k);
    if key !in indexDict {
      return Err(MissingBin);
    }
    var idx := indexDict[key];
    if theta.Vector? {
      OccupiedIffListed(theta.ts, k);
    }
    if |idx| == 0 {
      EmptyBinStep(gp, logArea, theta, all, gi, k, ColumnOf(mags, c), ColumnOf(errs, c), initMags, initErrs);
      return Ok([]);
    }
    if !(forall i | 0 <= i < |idx| :: idx[i] < a.Length0) {
      return Err(RowOutOfRange);
    }
    if !theta.Vector? {
      return Err(ThetaNotSubscriptable);
    }
    BlendBin(a, mags, errs, c, gi, k, theta.ts, idx, gp, logArea, all, initMags, initErrs);
    return Ok([ArtifactKey(Angles[k], gi), ArtifactKey(Angles[k + 1], gi)]);
  }

  /** The angle-bin loop of `evaluate` for the column c that holds grid
      index gi: bins in order, stopping at the first exception. Returns the
      artifacts it requested. */
  method FillGridColumn(a: array2<real>, theta: ThetaValue, indexDict: map<(int, int), seq<nat>>,
                        mags: array2<real>, errs: array2<real>, c: nat, gi: nat, gp: Predictor, logArea: real,
                        ghost all: seq<seq<real>>)
    returns (r: Result<seq<ArtifactKey>, Error>)
    requires a.Length1 == 5 && all == Rows(a)
    requires theta.Vector? ==> indexDict == BinDict(theta)
    requires mags != errs && a != mags && a != errs
    requires mags.Length0 == a.Length0 && errs.Length0 == a.Length0
    requires c < mags.Length1 && c < errs.Length1
    modifies mags, errs
    ensures r.Ok? ==> MagsMatch(gp, logArea, theta, all, gi, BinCount, ColumnOf(mags, c), old(ColumnOf(mags, c)))
    ensures r.Ok? ==> ErrsMatch(gp, theta, all, gi, BinCount, ColumnOf(errs, c), old(ColumnOf(errs, c)))
    ensures forall j, col :: 0 <= j < mags.Length0 && 0 <= col < mags.Length1 && col != c ==>
      mags[j, col] == old(mags[j, col])
    ensures forall j, col :: 0 <= j < errs.Length0 && 0 <= col < errs.Length1 && col != c ==>
      errs[j, col] == old(errs[j, col])
    ensures r.Ok? ==> r.value == (if theta.Vector? then ColumnLoads(theta.ts, gi, BinCount) else [])
    ensures r.Err? <==> ColumnFailure(a.Length0, theta, indexDict, BinCount).Some?
    ensures r.Err? ==> ColumnFailure(a.Length0, theta, indexDict, BinCount) == Some(r.error)
    ensures theta.Vector? && |theta.ts| <= a.Length0 ==> r.Ok?
    ensures r.Err? ==> r.error in {MissingBin, RowOutOfRange, ThetaNotSubscriptable}
  {
    ghost var initMags, initErrs := ColumnOf(mags, c), ColumnOf(errs, c);
    NothingWrittenYet(gp, logArea, theta, all, gi, initMags, initErrs);
    var loads := [];
    for k := 0 to BinCount
      invariant MagsMatch(gp, logArea, theta, all, gi, k, ColumnOf(mags, c), initMags)
      invariant ErrsMatch(gp, theta, all, gi, k, ColumnOf(errs, c), initErrs)
      invariant forall j, col :: 0 <= j < a.Length0 && 0 <= col < mags.Length1 && col != c ==>
        mags[j, col] == old(mags[j, col])
      invariant forall j, col :: 0 <= j < a.Length0 && 0 <= col < errs.Length1 && col != c ==>
        errs[j, col] == old(errs[j, col])
      invariant loads == (if theta.Vector? then ColumnLoads(theta.ts, gi, k) else [])
      invariant ColumnFailure(a.Length0, theta, indexDict, k) == None
    {
      var step := FillBin(a, theta, indexDict, mags, errs, c, gi, k, gp, logArea, all, initMags, initErrs);
      if step.Err? {
        ColumnFailureStays(a.Length0, theta, indexDict, k + 1, BinCount);
        return Err(step.error);
      }
      loads := loads + step.value;
    }
    return Ok(loads);
  }

  /** The first `cols` columns of `mags_interp` and `mags_err_interp`:
      every row that lies in an angle bin holds the blend of its bin at the
      column's grid index. */
  ghost predicate GridFilled(gp: Predictor, logArea: real, theta: ThetaValue, rows: seq<seq<real>>,
                             indList: seq<nat>, mags: array2<real>, errs: array2<real>, cols: nat)
    reads mags, errs
  {
    mags.Length0 == |rows| && errs.Length0 == |rows| && cols <= mags.Length1 && cols <= errs.Length1 &&
    cols <= |indList| &&
    forall j, c :: 0 <= j < |rows| && 0 <= c < cols && RowBin(theta, j, BinCount).Some? ==>
      mags[j, c] == BlendedMag(gp, logArea, rows[j], theta.ts[j], RowBin(theta, j, BinCount).value, indList[c]) &&
      errs[j, c] == BlendedError(gp, rows[j], theta.ts[j], RowBin(theta, j, BinCount).value, indList[c])
  }

  /** One pass of the loop of `evaluate` over the selected grid indices:
      fill column c, keeping the columns before it. */
  method FillSelectedColumn(a: array2<real>, theta: ThetaValue, indexDict: map<(int, int), seq<nat>>,
                            mags: array2<real>, errs: array2<real>, indList: seq<nat>, c: nat,
                            gp: Predictor, logArea: real, ghost all: seq<seq<real>>)
    returns (r: Result<seq<ArtifactKey>, Error>)
    requires a.Length1 == 5 && all == Rows(a)
    requires theta.Vector? ==> indexDict == BinDict(theta)
    requires mags != errs && a != mags && a != errs
    requires mags.Length0 == a.Length0 && errs.Length0 == a.Length0
    requires mags.Length1 == |indList| && errs.Length1 == |indList| && c < |indList|
    requires GridFilled(gp, logArea, theta, all, indList, mags, errs, c)
    modifies mags, errs
    ensures r.Ok? ==> GridFilled(gp, logArea, theta, all, indList, mags, errs, c + 1)
    ensures r.Ok? ==> r.value == (if theta.Vector? then ColumnLoads(theta.ts, indList[c], BinCount) else [])
    ensures r.Err? <==> ColumnFailure(a.Length0, theta, indexDict, BinCount).Some?
    ensures r.Err? ==> ColumnFailure(a.Length0, theta, indexDict, BinCount) == Some(r.error)
    ensures theta.Vector? && |theta.ts| <= a.Length0 ==> r.Ok?
    ensures r.Err? ==> r.error in {MissingBin, RowOutOfRange, ThetaNotSubscriptable}
  {
    label Before:
    r := FillGridColumn(a, theta, indexDict, mags, errs, c, indList[c], gp, logArea, all);
    if r.Err? {
      return;
    }
    forall j, c' | 0 <= j < a.Length0 && 0 <= c' <= c && RowBin(theta, j, BinCount).Some?
      ensures mags[j, c'] == BlendedMag(gp, logArea, all[j], theta.ts[j], RowBin(theta, j, BinCount).value, indList[c'])
      ensures errs[j, c'] == BlendedError(gp, all[j], theta.ts[j], RowBin(theta, j, BinCount).value, indList[c'])
    {
      if c' < c {
        assert old@Before(GridFilled(gp, logArea, theta, all, indList, mags, errs, c));
      } else {
        assert ColumnOf(mags, c)[j] == mags[j, c] && ColumnOf(errs, c)[j] == errs[j, c];
      }
    }
  }

  /** The loop of `evaluate` over the selected grid indices, one column of
      `mags_interp` and `mags_err_interp` each, stopping at the first
      exception. Returns the artifacts it requested. */
  method FillGrid(a: array2<real>, theta: ThetaValue, indexDict: map<(int, int), seq<nat>>,
                  mags: array2<real>, errs: array2<real>, indList: seq<nat>, gp: Predictor, logArea: real,
                  ghost all: seq<seq<real>>)
    returns (r: Result<seq<ArtifactKey>, Error>)
    requires a.Length1 == 5 && all == Rows(a)
    requires theta.Vector? ==> indexDict == BinDict(theta)
    requires mags != errs && a != mags && a != errs
    requires mags.Length0 == a.Length0 && errs.Length0 == a.Length0
    requires mags.Length1 == |indList| && errs.Length1 == |indList|
    modifies mags, errs
    ensures r.Ok? ==> GridFilled(gp, logArea, theta, all, indList, mags, errs, |indList|)
    ensures r.Ok? ==> r.value == (if theta.Vector? then LoadPlan(theta.ts, indList, |indList|) else [])
    ensures r.Err? <==> |indList| > 0 && ColumnFailure(a.Length0, theta, indexDict, BinCount).Some?
    ensures r.Err? ==> ColumnFailure(a.Length0, theta, indexDict, BinCount) == Some(r.error)
    ensures theta.Vector? && |theta.ts| <= a.Length0 ==> r.Ok?
    ensures r.Err? ==> r.error in {MissingBin, RowOutOfRange, ThetaNotSubscriptable}
  {
    var loads := [];
    for c := 0 to |indList|
      invariant GridFilled(gp, logArea, theta, all, indList, mags, errs, c)
      invariant loads == (if theta.Vector? then LoadPlan(theta.ts, indList, c) else [])
      invariant c > 0 ==> ColumnFailure(a.Length0, theta, indexDict, BinCount) == None
    {
      var column := FillSelectedColumn(a, theta, indexDict, mags, errs, indList, c, gp, logArea, all);
      if column.Err? {
        return Err(column.error);
      }
      if theta.Vector? {
        assert LoadPlan(theta.ts, indList, c + 1) == LoadPlan(theta.ts, indList, c) + ColumnLoads(theta.ts, indList[c], BinCount);
      }
      loads := loads + column.value;
    }
    return Ok(loads);
  }

  /** A filled cell of a row whose angle is in bin k: at the bin's lower
      angle it is exactly the lower artifact's prediction, and anywhere in
      the bin it lies between the two artifacts' predictions. */
  lemma FilledCellInRange(gp: Predictor, logArea: real, ts: seq<real>, rows: seq<seq<real>>, indList: seq<nat>,
                          mags: array2<real>, errs: array2<real>, cols: nat, j: nat, c: nat, k: nat)
    requires GridFilled(gp, logArea, Vector(ts), rows, indList, mags, errs, cols)
    requires j < |rows| && j < |ts| && c < cols && BinOf(ts[j]) == Some(k)
    ensures var lower := RowMag(gp, ArtifactKey(Angles[k], indList[c]), rows[j], logArea);
      var upper := RowMag(gp, ArtifactKey(Angles[k + 1], indList[c]), rows[j], logArea);
      (ts[j] == Lower(k) ==> mags[j, c] == lower) &&
      (lower <= upper ==> lower <= mags[j, c] <= upper) &&
      (upper <= lower ==> upper <= mags[j, c] <= lower)
  {
    assert RowBin(Vector(ts), j, BinCount) == Some(k);
  }

  /** The matrices `evaluate` builds before the per-sample time
      interpolation, with the list of artifacts it requested. */
  datatype GridPrediction = GridPrediction(
    indList: seq<nat>,
    tInterp: seq<real>,
    mags: array2<real>,
    errs: array2<real>,
    loads: seq<ArtifactKey>)

  class Surrogate {
    /** `t_interp_full`: the 264 grid times. */
    const tInterpFull: seq<real>
    /** `params_array`: one row per sample, five columns; null before the
        first `set_params`. */
    var paramsArray: array2?<real>
    var theta: ThetaValue
    var indexDict: map<(int, int), seq<nat>>
    var distanceMpc: Option<ParamValue>

    ghost predicate Valid()
      reads this, paramsArray
    {
      |tInterpFull| == GridSize && StrictlyIncreasing(tInterpFull) &&
      (paramsArray != null ==> paramsArray.Length1 == 5) &&
      (theta.Vector? ==> indexDict == BinDict(theta))
    }

    /** The grid is `np.logspace(log10(0.125), log10(37.239...), 264)`,
        which is strictly increasing; artifact paths are identified by
        ArtifactKey. */
    constructor (grid: seq<real>)
      requires |grid| == GridSize && StrictlyIncreasing(grid)
      ensures Valid()
      ensures tInterpFull == grid
      ensures paramsArray == null && theta == Unset && indexDict == map[] && distanceMpc == None
    {
      tInterpFull := grid;
      paramsArray := null;
      theta := Unset;
      indexDict := map[];
      distanceMpc := None;
    }

    /** The loop that builds `index_dict` from `self.theta`. */
    method AssignBins()
      modifies this`indexDict
      ensures indexDict == BinDict(theta)
    {
      indexDict := map[];
      for k := 0 to BinCount
        invariant indexDict == BinDictUpTo(theta, k)
      {
        indexDict := indexDict[BinKey(k) := ThetaBin(theta, k)];
      }
    }

    /** `params_array[:, col] = v` over all rows. */
    method FillColumn(col: nat, vals: seq<real>)
      requires paramsArray != null && paramsArray.Length1 == 5
      requires col < 5 && |vals| == paramsArray.Length0
      modifies paramsArray
      ensures forall j :: 0 <= j < paramsArray.Length0 ==> paramsArray[j, col] == vals[j]
      ensures forall j, c :: 0 <= j < paramsArray.Length0 && 0 <= c < 5 && c != col ==>
        paramsArray[j, c] == old(paramsArray[j, c])
    {
      var a := paramsArray;
      for j := 0 to a.Length0
        invariant forall j' :: 0 <= j' < j ==> a[j', col] == vals[j']
        invariant forall j', c :: 0 <= j' < a.Length0 && 0 <= c < 5 && (c != col || j <= j') ==>
          a[j', c] == old(a[j', c])
      {
        a[j, col] := vals[j];
      }
    }

    /** The four column assignments of `set_params`, in order; false when
        numpy would refuse one (the earlier ones stay written). */
    method FillParamColumns(p: Params, noMejDyn: bool) returns (ok: bool)
      requires paramsArray != null && paramsArray.Length1 == 5 && paramsArray.Length0 == BatchSize(p)
      modifies paramsArray
      ensures ok == FitsUpTo(p, 4, noMejDyn)
      ensures forall col :: 0 <= col < 4 && FitsUpTo(p, col + 1, noMejDyn) ==>
        forall j :: 0 <= j < paramsArray.Length0 ==>
          paramsArray[j, col] == Column(ColumnSource(p, col, noMejDyn), BatchSize(p))[j]
      ensures forall j :: 0 <= j < paramsArray.Length0 ==> paramsArray[j, 4] == old(paramsArray[j, 4])
    {
      var n := BatchSize(p);
      for col := 0 to 4
        invariant FitsUpTo(p, col, noMejDyn)
        invariant forall c :: 0 <= c < col ==>
          forall j :: 0 <= j < n ==> paramsArray[j, c] == Column(ColumnSource(p, c, noMejDyn), n)[j]
        invariant forall j :: 0 <= j < n ==> paramsArray[j, 4] == old(paramsArray[j, 4])
      {
        var v := ColumnSource(p, col, noMejDyn);
        if !Fits(v, n) {
          return false;
        }
        FillColumn(col, Column(v, n));
      }
      return true;
    }

    /** `kn_interp_angle.set_params`. A float `mej_dyn` makes a one-row
        batch; a theta that is not an array raises after `params_array`
        and `self.theta` have already been replaced. */
    method SetParams(p: Params) returns (r: Result<(), Error>)
      requires Valid()
      requires p.mejDyn.PyFloat? ==> p.theta.PyFloat?
      modifies this
      ensures Valid()
      ensures paramsArray != null && fresh(paramsArray) && paramsArray.Length0 == BatchSize(p)
      ensures theta == InitialTheta(p)
      ensures theta.Scalar? ==> r == Err(ThetaNotArray) && indexDict == old(indexDict)
      ensures theta.Vector? ==> indexDict == BinDict(theta)
      ensures theta.Vector? ==> (r.Ok? <==> FitsUpTo(p, 4, false))
      ensures theta.Vector? && r.Err? ==> r.error == BroadcastMismatch
      ensures r.Err? ==> r.error in {ThetaNotArray, BroadcastMismatch} && distanceMpc == old(distanceMpc)
      ensures r.Ok? ==> distanceMpc == p.distance
      ensures forall col :: 0 <= col < 4 && theta.Vector? && FitsUpTo(p, col + 1, false) ==>
        forall j :: 0 <= j < paramsArray.Length0 ==>
          paramsArray[j, col] == Column(ColumnSource(p, col, false), BatchSize(p))[j]
    {
      paramsArray := new real[BatchSize(p), 5];
      theta := InitialTheta(p);
      if !theta.Vector? {
        return Err(ThetaNotArray);
      }
      AssignBins();
      var ok := FillParamColumns(p, false);
      if !ok {
        return Err(BroadcastMismatch);
      }
      distanceMpc := p.distance;
      return Ok(());
    }

    /** `kn_interp_angle_no_mej_dyn.set_params`: the same, except that there
        is no ndarray check on theta, column 0 is `mej_wind / 13.90`, and
        `distance_Mpc` is never assigned. */
    method SetParamsNoMejDyn(p: Params) returns (r: Result<(), Error>)
      requires Valid()
      requires p.mejDyn.PyFloat? ==> p.theta.PyFloat?
      modifies this
      ensures Valid()
      ensures paramsArray != null && fresh(paramsArray) && paramsArray.Length0 == BatchSize(p)
      ensures theta == InitialTheta(p)
      ensures indexDict == BinDict(theta)
      ensures r.Ok? <==> FitsUpTo(p, 4, true)
      ensures r.Err? ==> r.error == BroadcastMismatch
      ensures distanceMpc == old(distanceMpc)
      ensures forall col :: 0 <= col < 4 && FitsUpTo(p, col + 1, true) ==>
        forall j :: 0 <= j < paramsArray.Length0 ==>
          paramsArray[j, col] == Column(ColumnSource(p, col, true), BatchSize(p))[j]
    {
      paramsArray := new real[BatchSize(p), 5];
      theta := InitialTheta(p);
      AssignBins();
      var ok := FillParamColumns(p, true);
      if !ok {
        return Err(BroadcastMismatch);
      }
      return Ok(());
    }

    /** `evaluate` up to the per-sample time interpolation: write the band's
        wavelength into column 4 of `params_array`, select the bracketing
        grid indices for the requested times, and fill one column per
        selected index by blending over the angle bins. The band's wavelength
        is looked up before `params_array` is subscripted, so an unknown band
        is reported even when no parameters were set. */
    method Evaluate(times: seq<real>, band: string, gp: Predictor, logArea: real)
      returns (r: Result<GridPrediction, Error>)
      requires Valid()
      modifies paramsArray
      ensures Valid()
      ensures band !in BandWavelengths ==> r == Err(UnknownBand) && (paramsArray != null ==> unchanged(paramsArray))
      ensures band in BandWavelengths && paramsArray == null ==> r == Err(ParamsNotSet)
      ensures paramsArray != null && band in BandWavelengths ==>
        (forall j :: 0 <= j < paramsArray.Length0 ==> paramsArray[j, 4] == BandWavelengths[band]) &&
        (forall j, col :: 0 <= j < paramsArray.Length0 && 0 <= col < 4 ==> paramsArray[j, col] == old(paramsArray[j, col]))
      ensures paramsArray != null && band in BandWavelengths ==>
        (r.Err? <==> |Select(tInterpFull, times)| > 0 && ColumnFailure(paramsArray.Length0, theta, indexDict, BinCount).Some?)
      ensures paramsArray != null && band in BandWavelengths && r.Err? ==>
        ColumnFailure(paramsArray.Length0, theta, indexDict, BinCount) == Some(r.error)
      ensures paramsArray != null && band in BandWavelengths && theta.Vector? && |theta.ts| <= paramsArray.Length0 ==> r.Ok?
      ensures r.Err? ==> r.error in {ParamsNotSet, UnknownBand, MissingBin, RowOutOfRange, ThetaNotSubscriptable}
      ensures r.Ok? ==> (
        paramsArray != null &&
        r.value.indList == Select(tInterpFull, times) && Aligned(tInterpFull, r.value.indList, r.value.tInterp) &&
        fresh(r.value.mags) && fresh(r.value.errs) && r.value.mags != r.value.errs &&
        r.value.mags.Length1 == |r.value.indList| && r.value.errs.Length1 == |r.value.indList| &&
        GridFilled(gp, logArea, theta, Rows(paramsArray), r.value.indList, r.value.mags, r.value.errs, |r.value.indList|) &&
        r.value.loads == (if theta.Vector? then LoadPlan(theta.ts, r.value.indList, |r.value.indList|) else []))
    {
      if band !in BandWavelengths {
        return Err(UnknownBand);
      }
      if paramsArray == null {
        return Err(ParamsNotSet);
      }
      var a := paramsArray;
      var n := a.Length0;
      FillColumn(4, Column(PyFloat(BandWavelengths[band]), n));
      var indList, tInterp := SelectBrackets(tInterpFull, times);
      var mags := new real[n, |indList|];
      var errs := new real[n, |indList|];
      ghost var all := Rows(a);
      var loads := FillGrid(a, theta, indexDict, mags, errs, indList, gp, logArea, all);
      if loads.Err? {
        return Err(loads.error);
      }
      return Ok(GridPrediction(indList, tInterp, mags, errs, loads.value));
    }
  }
}
