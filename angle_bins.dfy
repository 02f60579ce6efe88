/** Assignment of parameter rows to viewing-angle bins: the five half-open
    intervals [Angles[k], Angles[k+1]) between the trained angles. */
module AngleBins {
  import opened Wrappers

  /** `self.angles`, in degrees. */
  const Angles: seq<int> := [0, 30, 45, 60, 75, 90]

  /** Number of bins, `len(self.angles) - 1`. */
  const BinCount: nat := 5

  function Lower(k: nat): real
    requires k < BinCount
  {
    Angles[k] as real
  }

  function Upper(k: nat): real
    requires k < BinCount
  {
    Angles[k + 1] as real
  }

  /** The `index_dict` key of bin k: the pair (theta_lower, theta_upper). */
  function BinKey(k: nat): (int, int)
    requires k < BinCount
  {
    (Angles[k], Angles[k + 1])
  }

  /** Different bins have different `index_dict` keys. */
  lemma BinKeysDistinct(k1: nat, k2: nat)
    requires k1 < BinCount && k2 < BinCount && k1 != k2
    ensures BinKey(k1) != BinKey(k2)
  {
  }

  /** theta lies in bin k. */
  predicate InBin(theta: real, k: nat)
    requires k < BinCount
  {
    Lower(k) <= theta < Upper(k)
  }

  /** The indices, in increasing order, of the thetas in [lo, hi): what
      `np.where((lo <= theta) & (theta < hi))[0]` returns. */
  function WhereIn(ts: seq<real>, lo: real, hi: real): (r: seq<nat>)
    ensures forall i :: 0 <= i < |r| ==> r[i] < |ts|
    ensures forall i, j :: 0 <= i < j < |r| ==> r[i] < r[j]
    ensures forall j :: 0 <= j < |ts| ==> (j in r <==> lo <= ts[j] < hi)
  {
    if ts == [] then []
    else
      var n := |ts| - 1;
      WhereIn(ts[..n], lo, hi) + (if lo <= ts[n] < hi then [n] else [])
  }

  /** The one bin theta belongs to, if any. */
  function BinOf(theta: real): (r: Option<nat>)
    ensures r.Some? ==> r.value < BinCount && InBin(theta, r.value)
    ensures r.None? ==> forall k :: 0 <= k < BinCount ==> !InBin(theta, k)
  {
    if theta < 0.0 || 90.0 <= theta then None
    else if theta < 30.0 then Some(0)
    else if theta < 45.0 then Some(1)
    else if theta < 60.0 then Some(2)
    else if theta < 75.0 then Some(3)
    else Some(4)
  }

  /** The bins are pairwise disjoint: a theta lies in at most one. */
  lemma BinsDisjoint(theta: real, k1: nat, k2: nat)
    requires k1 < BinCount && k2 < BinCount
    requires InBin(theta, k1) && InBin(theta, k2)
    ensures k1 == k2
  {
    var r := BinOf(theta);
    assert r.Some?;
  }

  /** Row j is listed in bin k exactly when bin k is the bin of theta[j]. */
  lemma WhereInBinOf(ts: seq<real>, j: nat, k: nat)
    requires j < |ts| && k < BinCount
    ensures j in WhereIn(ts, Lower(k), Upper(k)) <==> BinOf(ts[j]) == Some(k)
  {
    if BinOf(ts[j]) == Some(k) {
      assert InBin(ts[j], k);
    } else if InBin(ts[j], k) {
      BinsDisjoint(ts[j], k, BinOf(ts[j]).value);
    }
  }

  /** Every theta in [0, 90) is in some bin; 90 itself and everything outside
      [0, 90) is in none, because every upper bound is strict. */
  lemma BinCoverage(theta: real)
    ensures (0.0 <= theta < 90.0) <==> BinOf(theta).Some?
    ensures BinOf(90.0) == None
  {
  }
}
