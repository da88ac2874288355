// A whole program on freshly created grids: buffers are copied in, the loop
// runs on all processes, each at its own pace, and a grid is copied out. The
// buffer then holds what as many sweeps over the global grids produce.
module Program {
  import opened MixedRadix
  import opened Subgrid
  import opened Geometry
  import opened HaloExchange
  import opened HaloFlag
  import opened Refinement
  import opened Flags
  import opened Rpc
  import opened Schedule
  import opened HaloSchedule
  import opened RunSchedule

  // Grids as they are after their creation and PSGridCopyin: no halo has been
  // sent and no cell been fetched.
  ghost predicate Fresh(geo: Geometry, m: Machine)
    requires geo.Shape() && MachineShape(geo, m)
  {
    forall i: nat, r: nat | i < |m| && r < |m[i]| :: !m[i][r].hasDiagonal && !m[i][r].remote.active
  }

  // For every grid and process, the exchanges do without the flag or none is
  // of diagonal points.
  ghost predicate NoFlagNeeded(geo: Geometry, n: nat, stencils: seq<Stencil>)
    requires geo.Shape() && AllRunnable(geo, stencils, n)
  {
    forall i: nat, r: nat | i < n && geo.IsRank(r) && geo.HasCells(r) ::
      AllFree(geo, n, stencils, i, r) || AllSame(stencils, i, false)
  }

  lemma FreshSteady(geo: Geometry, m: Machine, stencils: seq<Stencil>)
    requires geo.Shape() && AllRunnable(geo, stencils, |m|) && MachineShape(geo, m)
    requires Fresh(geo, m) && NoFlagNeeded(geo, |m|, stencils)
    ensures Steady(geo, m, stencils)
  {
    forall i: nat, r: nat | i < |m| && geo.IsRank(r) && geo.HasCells(r)
      ensures AllFree(geo, |m|, stencils, i, r) || AllSame(stencils, i, m[i][r].hasDiagonal)
    {
      assert GridShape(geo, m[i]) && !m[i][r].hasDiagonal;
    }
  }

  lemma FreshQuiet(geo: Geometry, m: Machine, stencils: seq<Stencil>)
    requires geo.Shape() && AllRunnable(geo, stencils, |m|) && MachineShape(geo, m) && Fresh(geo, m)
    ensures AllQuiet(geo, m, stencils)
  {
    forall k | 0 <= k < |stencils| ensures Quiet(geo, m, stencils[k]) {
      assert Runnable(geo, stencils[k], |m|);
      forall j: nat, r: nat | j < |stencils[k].params| && geo.IsRank(r) && geo.HasCells(r)
        ensures !m[stencils[k].params[j]][r].remote.active
      {
        assert GridShape(geo, m[stencils[k].params[j]]);
      }
    }
  }

  // The own cells of grid i that the processes of a state hold.
  ghost function PartsIn(s: State<seq<Local>, seq<Elem>>, i: nat): (parts: seq<seq<Elem>>)
    ensures |parts| == |s.procs|
    ensures forall r | 0 <= r < |parts| && i < |s.procs[r].local| :: parts[r] == s.procs[r].local[i].data
  {
    seq(|s.procs|, r requires 0 <= r < |s.procs| => if i < |s.procs[r].local| then s.procs[r].local[i].data else [])
  }

  lemma PartsAtEnd(geo: Geometry, m: Machine, s: State<seq<Local>, seq<Elem>>, i: nat)
    requires geo.Shape() && MachineShape(geo, m) && i < |m| && |s.procs| == |geo.offset|
    requires forall r | 0 <= r < |s.procs| :: s.procs[r].local == OnProcess(m, r)
    ensures PartsIn(s, i) == PartsOf(m[i])
  {
    assert GridShape(geo, m[i]);
  }

  lemma ProgramRuns(geo: Geometry, m: Machine, grids: Grids, stencils: seq<Stencil>, iter: nat,
                    run: seq<State<seq<Local>, seq<Elem>>>, s: State<seq<Local>, seq<Elem>>, i: nat, dst: seq<Elem>)
    requires geo.Valid() && geo.Tiles() && MachineShape(geo, m) && |m| == |grids|
    requires AllRunnable(geo, stencils, |m|) && Fresh(geo, m) && NoFlagNeeded(geo, |m|, stencils)
    requires forall j | 0 <= j < |m| :: |grids[j]| == Volume(geo.gsize) && PartsOf(m[j]) == GridParts(geo, grids[j])
    requires Run(RunPhases(geo, stencils, |m|, iter), ByProcess(geo, m), run) && s == run[|run| - 1]
    requires Finished(RunPhases(geo, stencils, |m|, iter), s)
    requires i < |m| && |dst| == Volume(geo.gsize)
    ensures |s.procs| == |geo.offset| && BoxesIn(geo)
    ensures CopyoutPrefix(geo, dst, PartsIn(s, i), |geo.offset|) == Sweeps(geo.gsize, grids, stencils, iter)[i]
  {
    GeometryBoxes(geo);
    CopiedIn(geo, m, grids);
    FreshSteady(geo, m, stencils);
    FreshQuiet(geo, m, stencils);
    SteadyRun(geo, m, stencils, iter);
    var m' := ScheduledRunRefines(geo, m, grids, stencils, iter, run, s);
    PartsAtEnd(geo, m', s, i);
    assert Holding(geo, m'[i], Sweeps(geo.gsize, grids, stencils, iter)[i]);
    HeldReturns(geo, m'[i], Sweeps(geo.gsize, grids, stencils, iter)[i], dst);
  }
}
