// When the flag halo_has_diagonal_ is in order throughout a run of stencils:
// conditions on the stencils and on the flags at the start.
module Flags {
  import opened MixedRadix
  import opened Geometry
  import opened HaloExchange
  import opened HaloFlag
  import opened Refinement

  // ------------------------------------------------- exchanges that need none

  // The exchange reads right with either flag.
  ghost predicate FlagFree(e: Exchange, r: nat)
    requires e.Valid() && e.geo.IsRank(r)
  {
    SendsFrom(e, r, 0) || !NeedsFlag(e, r)
  }

  // Enough are widths: in each dimension both zero or both positive, or no
  // backward accesses at all.
  lemma WidthsFlagFree(e: Exchange, r: nat)
    requires e.Valid() && e.geo.IsRank(r)
    requires Balanced(e) || forall d | 0 <= d < e.Dims() :: e.bwWidth[d] == 0
    ensures FlagFree(e, r)
  {
    if NeedsFlag(e, r) {
      var i: nat, j: nat :| Corner(e, r, i, j);
      assert e.Sends(r, j);
    }
  }

  // ------------------------------------------------------------ whole runs

  ghost predicate Loads(st: Stencil, i: nat) {
    i in st.params && !IsZero(st.ranges(i))
  }

  // Every exchange of grid i that a stencil asks for is right on process r
  // with either flag.
  ghost predicate AllFree(geo: Geometry, n: nat, stencils: seq<Stencil>, i: nat, r: nat)
    requires AllRunnable(geo, stencils, n) && geo.Shape() && geo.IsRank(r)
  {
    forall k | 0 <= k < |stencils| && Loads(stencils[k], i) ::
      RangeOk(geo, stencils[k].ranges(i)) && FlagFree(ExchangeOf(geo, stencils[k].ranges(i)), r)
  }

  // Every exchange of grid i is of the kind that the flag says.
  ghost predicate AllSame(stencils: seq<Stencil>, i: nat, flag: bool) {
    forall k | 0 <= k < |stencils| && Loads(stencils[k], i) :: stencils[k].ranges(i).diagonal == flag
  }

  ghost predicate Steady(geo: Geometry, m: Machine, stencils: seq<Stencil>)
    requires geo.Shape() && AllRunnable(geo, stencils, |m|) && MachineShape(geo, m)
  {
    forall i: nat, r: nat | i < |m| && geo.IsRank(r) && geo.HasCells(r) ::
      AllFree(geo, |m|, stencils, i, r) || AllSame(stencils, i, m[i][r].hasDiagonal)
  }

  // A flag that says what all exchanges are stays.
  lemma {:induction false} FlagStays(geo: Geometry, m: Machine, stencils: seq<Stencil>, s: nat, j: nat, i: nat, r: nat)
    requires geo.Shape() && AllRunnable(geo, stencils, |m|) && MachineShape(geo, m) && s < |stencils|
    requires j <= |stencils[s].params| && i < |m| && geo.IsRank(r) && geo.HasCells(r)
    requires AllSame(stencils, i, m[i][r].hasDiagonal)
    ensures Load(geo, m, stencils[s], j)[i][r].hasDiagonal == m[i][r].hasDiagonal
  {
    if j > 0 {
      FlagStays(geo, m, stencils, s, j - 1, i, r);
      var st := stencils[s];
      var g: nat, before: Machine := st.params[j - 1], Load(geo, m, st, j - 1);
      if g == i && !IsZero(st.ranges(g)) {
        Loaded(geo, m, st, j - 1);
        assert Loads(st, i) && before[g][r].size == geo.size[r];
        FlagAfter(ExchangeOf(geo, st.ranges(g)), before[g], r, 0);
      }
    }
  }

  lemma SteadyFlags(geo: Geometry, m: Machine, stencils: seq<Stencil>, s: nat)
    requires geo.Shape() && AllRunnable(geo, stencils, |m|) && MachineShape(geo, m) && s < |stencils|
    requires Steady(geo, m, stencils)
    ensures FlagsOk(geo, m, stencils[s])
  {
    var st := stencils[s];
    forall j: nat | j < |st.params| ensures FlagsAt(geo, m, st, j) {
      var g := st.params[j];
      assert RangeOk(geo, st.ranges(g));
      if !IsZero(st.ranges(g)) {
        assert Loads(st, g);
        forall r: nat | geo.IsRank(r) && geo.HasCells(r)
          ensures FlagFits(ExchangeOf(geo, st.ranges(g)), r, Load(geo, m, st, j)[g][r].hasDiagonal)
        {
          if !AllFree(geo, |m|, stencils, g, r) {
            FlagStays(geo, m, stencils, s, j, g, r);
          }
        }
      }
    }
  }

  lemma StepSteady(geo: Geometry, m: Machine, stencils: seq<Stencil>, s: nat) returns (m': Machine)
    requires geo.Shape() && AllRunnable(geo, stencils, |m|) && MachineShape(geo, m) && s < |stencils|
    requires Steady(geo, m, stencils)
    ensures m' == Step(geo, m, stencils[s]) && |m'| == |m| && MachineShape(geo, m') && AllRunnable(geo, stencils, |m'|)
    ensures Steady(geo, m', stencils) && FlagsOk(geo, m, stencils[s])
  {
    m' := Step(geo, m, stencils[s]);
    SteadyFlags(geo, m, stencils, s);
    forall i: nat, r: nat | i < |m'| && geo.IsRank(r) && geo.HasCells(r)
      ensures AllFree(geo, |m'|, stencils, i, r) || AllSame(stencils, i, m'[i][r].hasDiagonal)
    {
      if !AllFree(geo, |m'|, stencils, i, r) {
        FlagStays(geo, m, stencils, s, |stencils[s].params|, i, r);
        assert m'[i][r].hasDiagonal == m[i][r].hasDiagonal;
      }
    }
  }

  lemma {:induction false} RoundSteady(geo: Geometry, m: Machine, stencils: seq<Stencil>, k: nat) returns (m': Machine)
    requires geo.Shape() && AllRunnable(geo, stencils, |m|) && MachineShape(geo, m) && k <= |stencils|
    requires Steady(geo, m, stencils)
    ensures m' == Round(geo, m, stencils, k) && |m'| == |m| && MachineShape(geo, m')
    ensures AllRunnable(geo, stencils, |m'|) && Steady(geo, m', stencils)
  {
    m' := m;
    if k > 0 {
      var before := RoundSteady(geo, m, stencils, k - 1);
      m' := StepSteady(geo, before, stencils, k - 1);
    }
  }

  lemma FlagsBefore(geo: Geometry, m: Machine, stencils: seq<Stencil>, k: nat) returns (before: Machine)
    requires geo.Shape() && AllRunnable(geo, stencils, |m|) && MachineShape(geo, m) && k < |stencils|
    requires Steady(geo, m, stencils)
    ensures before == Round(geo, m, stencils, k) && FlagsOk(geo, before, stencils[k])
  {
    before := RoundSteady(geo, m, stencils, k);
    SteadyFlags(geo, before, stencils, k);
  }

  lemma RoundFlagsNext(geo: Geometry, m: Machine, stencils: seq<Stencil>, k: nat, next: nat)
    requires geo.Shape() && AllRunnable(geo, stencils, |m|) && MachineShape(geo, m) && k < |stencils| && next == k + 1
    requires Steady(geo, m, stencils) && RoundFlagsOk(geo, m, stencils, k)
    ensures RoundFlagsOk(geo, m, stencils, next)
  {
    var before := FlagsBefore(geo, m, stencils, k);
  }

  lemma {:induction false} RoundFlags(geo: Geometry, m: Machine, stencils: seq<Stencil>, k: nat)
    requires geo.Shape() && AllRunnable(geo, stencils, |m|) && MachineShape(geo, m) && k <= |stencils|
    requires Steady(geo, m, stencils)
    ensures RoundFlagsOk(geo, m, stencils, k)
  {
    if k > 0 {
      RoundFlags(geo, m, stencils, k - 1);
      RoundFlagsNext(geo, m, stencils, k - 1, k);
    }
  }

  lemma {:induction false} RoundsSteady(geo: Geometry, m: Machine, stencils: seq<Stencil>, iter: nat) returns (m': Machine)
    requires geo.Shape() && AllRunnable(geo, stencils, |m|) && MachineShape(geo, m)
    requires Steady(geo, m, stencils)
    ensures m' == Rounds(geo, m, stencils, iter) && |m'| == |m| && MachineShape(geo, m')
    ensures AllRunnable(geo, stencils, |m'|) && Steady(geo, m', stencils)
  {
    m' := m;
    if iter > 0 {
      var before := RoundsSteady(geo, m, stencils, iter - 1);
      m' := RoundSteady(geo, before, stencils, |stencils|);
    }
  }

  lemma RoundFlagsBefore(geo: Geometry, m: Machine, stencils: seq<Stencil>, iter: nat)
    requires geo.Shape() && AllRunnable(geo, stencils, |m|) && MachineShape(geo, m)
    requires Steady(geo, m, stencils)
    ensures RoundFlagsOk(geo, Rounds(geo, m, stencils, iter), stencils, |stencils|)
  {
    var before := RoundsSteady(geo, m, stencils, iter);
    RoundFlags(geo, before, stencils, |stencils|);
  }

  // If for every grid and process either all exchanges do without the flag or
  // all are of the kind that the flag says at the start, the flags are in
  // order in every run.
  lemma SteadyRun(geo: Geometry, m: Machine, stencils: seq<Stencil>, iter: nat)
    requires geo.Shape() && AllRunnable(geo, stencils, |m|) && MachineShape(geo, m)
    requires Steady(geo, m, stencils)
    ensures RunFlagsOk(geo, m, stencils, iter)
  {
    forall i: nat | i < iter ensures RoundFlagsOk(geo, Rounds(geo, m, stencils, i), stencils, |stencils|) {
      RoundFlagsBefore(geo, m, stencils, i);
    }
  }
}
