/** Selection of the time-grid points needed to interpolate at the requested
    times: for every query time t, the consecutive pair of grid indices
    (i, i+1) with grid[i] <= t < grid[i+1], accumulated without duplicates in
    first-encountered order, together with the grid times of those indices.

    The grid is `t_interp_full`, 264 logarithmically spaced times; here it is
    any sequence, and the lemmas that need it ordered ask for a strictly
    increasing one. */
module TimeGrid {

  /** Number of grid times (and of trained artifacts per angle). */
  const GridSize: nat := 264

  predicate StrictlyIncreasing(g: seq<real>)
  {
    forall i, j :: 0 <= i < j < |g| ==> g[i] < g[j]
  }

  predicate Distinct(l: seq<nat>)
  {
    forall p, q :: 0 <= p < q < |l| ==> l[p] != l[q]
  }

  predicate Below(l: seq<nat>, bound: nat)
  {
    forall p :: 0 <= p < |l| ==> l[p] < bound
  }

  /** Number of consecutive grid pairs, `len(range(grid.size - 1))`. */
  function PairCount(g: seq<real>): nat
  {
    if |g| == 0 then 0 else |g| - 1
  }

  /** Grid pair (i, i+1) brackets t. */
  predicate Brackets(g: seq<real>, t: real, i: nat)
    requires i + 1 < |g|
  {
    g[i] <= t < g[i + 1]
  }

  /** `if x not in ind_list: ind_list.append(x)`. */
  function AddIfAbsent(l: seq<nat>, x: nat): seq<nat>
  {
    if x in l then l else l + [x]
  }

  /** AddIfAbsent keeps what is there, in place, adds x, and never
      duplicates. */
  lemma AddIfAbsentFacts(l: seq<nat>, x: nat)
    ensures var r := AddIfAbsent(l, x);
      |l| <= |r| && r[..|l|] == l && x in r &&
      (forall y :: y in r ==> y in l || y == x) &&
      (Distinct(l) ==> Distinct(r))
  {
  }

  /** The inner loop's body for grid pair i. */
  function Visit(g: seq<real>, t: real, l: seq<nat>, i: nat): seq<nat>
    requires i + 1 < |g|
  {
    if Brackets(g, t, i) then AddIfAbsent(AddIfAbsent(l, i), i + 1) else l
  }

  /** One visit keeps the list as a prefix, and afterwards an index is
      listed exactly when it was before or is an end of pair i and the pair
      brackets t. */
  lemma VisitMembership(g: seq<real>, t: real, l: seq<nat>, i: nat)
    requires i + 1 < |g|
    ensures var r := Visit(g, t, l, i);
      |l| <= |r| && r[..|l|] == l &&
      forall y :: y in r <==> y in l || (Brackets(g, t, i) && (y == i || y == i + 1))
  {
    AddIfAbsentFacts(l, i);
    AddIfAbsentFacts(AddIfAbsent(l, i), i + 1);
  }

  /** The inner loop after visiting grid pairs 0 .. n-1 for query time t,
      starting from the list l. Indices already present never move. */
  function Scan(g: seq<real>, t: real, l: seq<nat>, n: nat): (r: seq<nat>)
    requires n <= PairCount(g)
    ensures |l| <= |r| && r[..|l|] == l
    ensures Distinct(l) ==> Distinct(r)
    ensures Below(l, |g|) ==> Below(r, |g|)
  {
    if n == 0 then l
    else
      var prev := Scan(g, t, l, n - 1);
      AddIfAbsentFacts(prev, n - 1);
      AddIfAbsentFacts(AddIfAbsent(prev, n - 1), n);
      Visit(g, t, prev, n - 1)
  }

  /** The index list built by the whole nested loop over `times`. */
  function Select(g: seq<real>, times: seq<real>): (r: seq<nat>)
    ensures Distinct(r)
    ensures Below(r, |g|)
  {
    if times == [] then []
    else
      var n := |times| - 1;
      Scan(g, times[n], Select(g, times[..n]), PairCount(g))
  }

  /** `t_interp[k] == grid[ind_list[k]]` for every k: the two lists stay
      parallel. */
  predicate Aligned(g: seq<real>, l: seq<nat>, ts: seq<real>)
  {
    |ts| == |l| && forall k :: 0 <= k < |l| ==> l[k] < |g| && ts[k] == g[l[k]]
  }

  /** One `if x not in ind_list` step: append x to `ind_list` and its grid
      time to `t_interp`, unless x is already listed. */
  method AppendIfAbsent(grid: seq<real>, indList0: seq<nat>, tInterp0: seq<real>, x: nat)
    returns (indList: seq<nat>, tInterp: seq<real>)
    requires Aligned(grid, indList0, tInterp0) && x < |grid|
    ensures indList == AddIfAbsent(indList0, x)
    ensures Aligned(grid, indList, tInterp)
  {
    indList, tInterp := indList0, tInterp0;
    if x !in indList {
      tInterp := tInterp + [grid[x]];
      indList := indList + [x];
    }
  }

  /** The bracket-selection loop of `evaluate`: returns `ind_list` and the
      parallel `t_interp`. */
  method SelectBrackets(grid: seq<real>, times: seq<real>) returns (indList: seq<nat>, tInterp: seq<real>)
    ensures indList == Select(grid, times)
    ensures Distinct(indList)
    ensures Aligned(grid, indList, tInterp)
  {
    indList, tInterp := [], [];
    for j := 0 to |times|
      invariant indList == Select(grid, times[..j])
      invariant Aligned(grid, indList, tInterp)
    {
      indList, tInterp := ScanGrid(grid, times[j], indList, tInterp);
      assert times[..j + 1][..j] == times[..j];
    }
    assert times[..|times|] == times;
  }

  /** The inner loop of the bracket selection, for one query time t. */
  method ScanGrid(grid: seq<real>, t: real, indList0: seq<nat>, tInterp0: seq<real>)
    returns (indList: seq<nat>, tInterp: seq<real>)
    requires Aligned(grid, indList0, tInterp0)
    ensures indList == Scan(grid, t, indList0, PairCount(grid))
    ensures Aligned(grid, indList, tInterp)
  {
    indList, tInterp := indList0, tInterp0;
    for i := 0 to PairCount(grid)
      invariant indList == Scan(grid, t, indList0, i)
      invariant Aligned(grid, indList, tInterp)
    {
      if grid[i] <= t < grid[i + 1] {
        indList, tInterp := AppendIfAbsent(grid, indList, tInterp, i);
        indList, tInterp := AppendIfAbsent(grid, indList, tInterp, i + 1);
      }
    }
  }

  /** Visiting pairs 0 .. n-1 finds a pair bracketing t with x as one end. */
  predicate PairHit(g: seq<real>, t: real, x: nat, n: nat)
    requires n <= PairCount(g)
  {
    exists i: nat :: i < n && Brackets(g, t, i) && (x == i || x == i + 1)
  }

  /** Some query time is bracketed by a grid pair with x as one end. */
  predicate Covered(g: seq<real>, times: seq<real>, x: nat)
  {
    exists j: nat :: j < |times| && PairHit(g, times[j], x, PairCount(g))
  }

  /** What the inner loop contains: what it started with, and both ends of
      every bracketing pair it visited. */
  lemma {:induction false} ScanMembership(g: seq<real>, t: real, l: seq<nat>, n: nat, x: nat)
    requires n <= PairCount(g)
    ensures x in Scan(g, t, l, n) <==> x in l || PairHit(g, t, x, n)
  {
    if n > 0 {
      ScanMembership(g, t, l, n - 1, x);
      var prev := Scan(g, t, l, n - 1);
      VisitMembership(g, t, prev, n - 1);
      if x in Scan(g, t, l, n) && x !in prev {
        assert Brackets(g, t, n - 1) && (x == n - 1 || x == n);
      }
      if PairHit(g, t, x, n) && !PairHit(g, t, x, n - 1) {
        assert Brackets(g, t, n - 1) && (x == n - 1 || x == n);
      }
    }
  }

  lemma CoveredSplit(g: seq<real>, times: seq<real>, x: nat)
    requires times != []
    ensures var n := |times| - 1;
      Covered(g, times, x) <==> Covered(g, times[..n], x) || PairHit(g, times[n], x, PairCount(g))
  {
    var n := |times| - 1;
    if Covered(g, times, x) {
      var j: nat :| j < |times| && PairHit(g, times[j], x, PairCount(g));
      if j < n {
        assert times[..n][j] == times[j];
      }
    }
    if Covered(g, times[..n], x) {
      var j: nat :| j < n && PairHit(g, times[..n][j], x, PairCount(g));
      assert times[..n][j] == times[j];
    }
  }

  /** An index is selected exactly when it is one end of a grid pair that
      brackets some query time. */
  lemma {:induction false} SelectMembership(g: seq<real>, times: seq<real>, x: nat)
    ensures x in Select(g, times) <==> Covered(g, times, x)
  {
    if times != [] {
      var n := |times| - 1;
      SelectMembership(g, times[..n], x);
      ScanMembership(g, times[n], Select(g, times[..n]), PairCount(g), x);
      CoveredSplit(g, times, x);
    }
  }

  /** Selecting over one more query time only appends to the list: indices
      keep their first-encountered positions. */
  lemma SelectExtends(g: seq<real>, times: seq<real>, t: real)
    ensures var before := Select(g, times);
      var after := Select(g, times + [t]);
      |before| <= |after| && after[..|before|] == before
  {
    assert (times + [t])[..|times|] == times;
  }

  /** When no visited pair brackets t, the inner loop adds nothing. */
  lemma {:induction false} ScanUnbracketed(g: seq<real>, t: real, l: seq<nat>, n: nat)
    requires n <= PairCount(g)
    requires forall i: nat :: i < n ==> !Brackets(g, t, i)
    ensures Scan(g, t, l, n) == l
  {
    if n > 0 {
      ScanUnbracketed(g, t, l, n - 1);
    }
  }

  /** In a strictly increasing grid, t is bracketed by at most one pair, and
      the inner loop adds the two ends of that pair, each unless present. */
  lemma {:induction false} ScanBracketed(g: seq<real>, t: real, l: seq<nat>, n: nat, i: nat)
    requires StrictlyIncreasing(g)
    requires n <= PairCount(g)
    requires i < n && Brackets(g, t, i)
    ensures Scan(g, t, l, n) == AddIfAbsent(AddIfAbsent(l, i), i + 1)
  {
    if i == n - 1 {
      assert forall i': nat :: i' < n - 1 ==> !Brackets(g, t, i') by {
        forall i': nat | i' < n - 1
          ensures !Brackets(g, t, i')
        {
          assert g[i' + 1] <= g[i];
        }
      }
      ScanUnbracketed(g, t, l, n - 1);
    } else {
      ScanBracketed(g, t, l, n - 1, i);
      assert !Brackets(g, t, n - 1) by {
        assert i + 1 == n - 1 || g[i + 1] < g[n - 1];
      }
    }
  }

  /** A query time before the first grid time, or at or after the last one,
      brackets nothing (the upper test is strict) and adds no index. */
  lemma SelectOutsideGrid(g: seq<real>, times: seq<real>, t: real)
    requires StrictlyIncreasing(g) && |g| > 0
    requires t < g[0] || g[|g| - 1] <= t
    ensures Select(g, times + [t]) == Select(g, times)
  {
    assert (times + [t])[..|times|] == times;
    forall i: nat | i < PairCount(g)
      ensures !Brackets(g, t, i)
    {
      assert g[0] <= g[i] && g[i + 1] <= g[|g| - 1];
    }
    ScanUnbracketed(g, t, Select(g, times), PairCount(g));
  }

  /** A query time bracketed by (i, i+1) adds i and then i+1, each unless
      already present; when neither was present they are appended as the
      adjacent pair [i, i+1]. */
  lemma SelectNewBracket(g: seq<real>, times: seq<real>, t: real, i: nat)
    requires StrictlyIncreasing(g)
    requires i + 1 < |g| && Brackets(g, t, i)
    ensures Select(g, times + [t]) == AddIfAbsent(AddIfAbsent(Select(g, times), i), i + 1)
    ensures i !in Select(g, times) && i + 1 !in Select(g, times) ==>
      Select(g, times + [t]) == Select(g, times) + [i, i + 1]
  {
    assert (times + [t])[..|times|] == times;
    ScanBracketed(g, t, Select(g, times), PairCount(g), i);
  }
}
