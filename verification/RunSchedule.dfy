// The time loop as the processes run it, each at its own pace: for every
// stencil the exchanges of the grids it reads, without a barrier between them,
// and the kernel. A process may be in a later exchange, stencil or round than
// its neighbours. Whatever the schedule, the run ends where it ends when all
// move in step.
module RunSchedule {
  import opened MixedRadix
  import opened Subgrid
  import opened Geometry
  import opened HaloExchange
  import opened Refinement
  import opened Schedule
  import opened HaloSchedule

  // The kernel: no message is sent or waited for.
  ghost function Running(geo: Geometry, st: Stencil): HaloPhase
    requires geo.Shape()
  {
    Phase((r: nat, own: seq<Local>, x: nat) => [], (r: nat, q: nat) => 0,
          (r: nat, own: seq<Local>, got: seq<seq<seq<Elem>>>) =>
            if r < |geo.offset| && ProcessShape(geo, own, r) && st.target < |own|
            then own[st.target := RunLocal(geo, own, st, r)] else own)
  }

  // The load statements for the first k parameters.
  ghost function LoadPhases(geo: Geometry, st: Stencil, n: nat, k: nat): seq<HaloPhase>
    requires Runnable(geo, st, n) && k <= |st.params|
  {
    if k == 0 then [] else
    var before, g := LoadPhases(geo, st, n, k - 1), st.params[k - 1];
    if IsZero(st.ranges(g)) then before else before + ExchangePhases(ExchangeOf(geo, st.ranges(g)), g, 0)
  }

  ghost function StepPhases(geo: Geometry, st: Stencil, n: nat): seq<HaloPhase>
    requires Runnable(geo, st, n)
  {
    LoadPhases(geo, st, n, |st.params|) + [Running(geo, st)]
  }

  ghost function RoundPhases(geo: Geometry, stencils: seq<Stencil>, n: nat, k: nat): seq<HaloPhase>
    requires AllRunnable(geo, stencils, n) && k <= |stencils|
  {
    if k == 0 then [] else RoundPhases(geo, stencils, n, k - 1) + StepPhases(geo, stencils[k - 1], n)
  }

  ghost function RunPhases(geo: Geometry, stencils: seq<Stencil>, n: nat, iter: nat): seq<HaloPhase>
    requires AllRunnable(geo, stencils, n)
  {
    if iter == 0 then [] else RunPhases(geo, stencils, n, iter - 1) + RoundPhases(geo, stencils, n, |stencils|)
  }

  // --------------------------------------------------------------- in step

  lemma LoadOn(geo: Geometry, m: Machine, st: Stencil, k: nat, before: Machine) returns (m': Machine)
    requires Runnable(geo, st, |m|) && MachineShape(geo, m) && 0 < k <= |st.params|
    requires before == Load(geo, m, st, k - 1) && |before| == |m| && MachineShape(geo, before)
    requires !IsZero(st.ranges(st.params[k - 1])) && RangeOk(geo, st.ranges(st.params[k - 1]))
    ensures m' == Load(geo, m, st, k) && |m'| == |m| && MachineShape(geo, m')
    ensures Leads(ExchangePhases(ExchangeOf(geo, st.ranges(st.params[k - 1])), st.params[k - 1], 0),
                  ByProcess(geo, before), ByProcess(geo, m'))
  {
    m' := ExchangeLeads(ExchangeOf(geo, st.ranges(st.params[k - 1])), before, st.params[k - 1], 0);
  }

  lemma {:induction false} LoadLeads(geo: Geometry, m: Machine, st: Stencil, k: nat) returns (m': Machine)
    requires Runnable(geo, st, |m|) && MachineShape(geo, m) && k <= |st.params|
    ensures m' == Load(geo, m, st, k) && |m'| == |m| && MachineShape(geo, m')
    ensures Leads(LoadPhases(geo, st, |m|, k), ByProcess(geo, m), ByProcess(geo, m'))
  {
    m' := m;
    if k > 0 {
      var before := LoadLeads(geo, m, st, k - 1);
      var g := st.params[k - 1];
      assert RangeOk(geo, st.ranges(g));
      if IsZero(st.ranges(g)) {
        m' := before;
      } else {
        m' := LoadOn(geo, m, st, k, before);
        LeadsOn(LoadPhases(geo, st, |m|, k - 1), ExchangePhases(ExchangeOf(geo, st.ranges(g)), g, 0),
                ByProcess(geo, m), ByProcess(geo, before), ByProcess(geo, m'));
      }
    }
  }

  lemma RunningLeads(geo: Geometry, m: Machine, st: Stencil) returns (m': Machine)
    requires geo.Shape() && MachineShape(geo, m) && st.target < |m|
    ensures m' == m[st.target := RunAll(geo, m, st)] && MachineShape(geo, m')
    ensures Leads([Running(geo, st)], ByProcess(geo, m), ByProcess(geo, m'))
  {
    m' := m[st.target := RunAll(geo, m, st)];
    var w, w' := ByProcess(geo, m), ByProcess(geo, m');
    forall r: nat | r < |w| ensures w'[r] == After(Running(geo, st), w)[r] {
      assert ProcessShape(geo, w[r], r);
      assert w'[r] == w[r][st.target := RunLocal(geo, w[r], st, r)];
    }
    LeadsOnce(Running(geo, st), w, w');
  }

  lemma StepLeads(geo: Geometry, m: Machine, st: Stencil) returns (m': Machine)
    requires Runnable(geo, st, |m|) && MachineShape(geo, m)
    ensures m' == Step(geo, m, st) && |m'| == |m| && MachineShape(geo, m')
    ensures Leads(StepPhases(geo, st, |m|), ByProcess(geo, m), ByProcess(geo, m'))
  {
    var loaded := LoadLeads(geo, m, st, |st.params|);
    m' := RunningLeads(geo, loaded, st);
    LeadsOn(LoadPhases(geo, st, |m|, |st.params|), [Running(geo, st)],
            ByProcess(geo, m), ByProcess(geo, loaded), ByProcess(geo, m'));
  }

  lemma StepOn(geo: Geometry, m: Machine, stencils: seq<Stencil>, k: nat, before: Machine) returns (m': Machine)
    requires geo.Shape() && AllRunnable(geo, stencils, |m|) && MachineShape(geo, m) && 0 < k <= |stencils|
    requires before == Round(geo, m, stencils, k - 1) && |before| == |m| && MachineShape(geo, before)
    ensures m' == Round(geo, m, stencils, k) && |m'| == |m| && MachineShape(geo, m')
    ensures Leads(StepPhases(geo, stencils[k - 1], |m|), ByProcess(geo, before), ByProcess(geo, m'))
  {
    m' := StepLeads(geo, before, stencils[k - 1]);
  }

  lemma {:induction false} RoundLeads(geo: Geometry, m: Machine, stencils: seq<Stencil>, k: nat) returns (m': Machine)
    requires geo.Shape() && AllRunnable(geo, stencils, |m|) && MachineShape(geo, m) && k <= |stencils|
    ensures m' == Round(geo, m, stencils, k) && |m'| == |m| && MachineShape(geo, m')
    ensures Leads(RoundPhases(geo, stencils, |m|, k), ByProcess(geo, m), ByProcess(geo, m'))
  {
    m' := m;
    if k > 0 {
      var before := RoundLeads(geo, m, stencils, k - 1);
      m' := StepOn(geo, m, stencils, k, before);
      LeadsOn(RoundPhases(geo, stencils, |m|, k - 1), StepPhases(geo, stencils[k - 1], |m|),
              ByProcess(geo, m), ByProcess(geo, before), ByProcess(geo, m'));
    }
  }

  lemma RoundOn(geo: Geometry, m: Machine, stencils: seq<Stencil>, iter: nat, before: Machine) returns (m': Machine)
    requires geo.Shape() && AllRunnable(geo, stencils, |m|) && MachineShape(geo, m) && iter > 0
    requires before == Rounds(geo, m, stencils, iter - 1) && |before| == |m| && MachineShape(geo, before)
    ensures m' == Rounds(geo, m, stencils, iter) && |m'| == |m| && MachineShape(geo, m')
    ensures Leads(RoundPhases(geo, stencils, |m|, |stencils|), ByProcess(geo, before), ByProcess(geo, m'))
  {
    m' := RoundLeads(geo, before, stencils, |stencils|);
  }

  lemma {:induction false} RunLeads(geo: Geometry, m: Machine, stencils: seq<Stencil>, iter: nat) returns (m': Machine)
    requires geo.Shape() && AllRunnable(geo, stencils, |m|) && MachineShape(geo, m)
    ensures m' == Rounds(geo, m, stencils, iter) && |m'| == |m| && MachineShape(geo, m')
    ensures Leads(RunPhases(geo, stencils, |m|, iter), ByProcess(geo, m), ByProcess(geo, m'))
  {
    m' := m;
    if iter > 0 {
      var before := RunLeads(geo, m, stencils, iter - 1);
      m' := RoundOn(geo, m, stencils, iter, before);
      LeadsOn(RunPhases(geo, stencils, |m|, iter - 1), RoundPhases(geo, stencils, |m|, |stencils|),
              ByProcess(geo, m), ByProcess(geo, before), ByProcess(geo, m'));
    }
  }

  // ------------------------------------------------------------- theorems

  // When all processes have finished the loop, each holds what it holds when
  // all move in step, and no message is left.
  lemma RunResult(geo: Geometry, m: Machine, stencils: seq<Stencil>, iter: nat,
                  run: seq<State<seq<Local>, seq<Elem>>>, s: State<seq<Local>, seq<Elem>>) returns (m': Machine)
    requires geo.Shape() && AllRunnable(geo, stencils, |m|) && MachineShape(geo, m)
    requires Run(RunPhases(geo, stencils, |m|, iter), ByProcess(geo, m), run) && s == run[|run| - 1]
    requires Finished(RunPhases(geo, stencils, |m|, iter), s)
    ensures m' == Rounds(geo, m, stencils, iter) && |m'| == |m| && MachineShape(geo, m')
    ensures |s.procs| == |geo.offset| && forall r | 0 <= r < |s.procs| :: s.procs[r].local == OnProcess(m', r)
    ensures forall q: nat, x: nat | q < |s.procs| && x < |s.procs| :: s.chan(q, x) == []
  {
    m' := RunLeads(geo, m, stencils, iter);
    Result(RunPhases(geo, stencils, |m|, iter), ByProcess(geo, m), ByProcess(geo, m'), run, s);
  }

  // No schedule blocks the loop or goes on for ever.
  lemma RunGoesOn(geo: Geometry, m: Machine, stencils: seq<Stencil>, iter: nat,
                  run: seq<State<seq<Local>, seq<Elem>>>, s: State<seq<Local>, seq<Elem>>)
    requires geo.Shape() && AllRunnable(geo, stencils, |m|) && MachineShape(geo, m)
    requires Run(RunPhases(geo, stencils, |m|, iter), ByProcess(geo, m), run) && s == run[|run| - 1]
    ensures |run| - 1 <= 2 * |RunPhases(geo, stencils, |m|, iter)| * |geo.offset|
    ensures Finished(RunPhases(geo, stencils, |m|, iter), s) || exists s' :: Next(RunPhases(geo, stencils, |m|, iter), s, s')
  {
    var program, w := RunPhases(geo, stencils, |m|, iter), ByProcess(geo, m);
    var m' := RunLeads(geo, m, stencils, iter);
    LeadsAllMatched(program, w, ByProcess(geo, m'));
    Ends(program, w, run);
    if !Finished(program, s) {
      var r := Progress(program, w, run, s);
      if CanSend(program, s, r) {
        assert Next(program, s, SendStep(program, s, r));
      } else {
        assert Next(program, s, ReceiveStep(program, s, r));
      }
    }
  }

  // Whatever the schedule, the processes end with their parts of what the
  // sweeps over the global grids produce.
  lemma ScheduledRunRefines(geo: Geometry, m: Machine, grids: Grids, stencils: seq<Stencil>, iter: nat,
                            run: seq<State<seq<Local>, seq<Elem>>>, s: State<seq<Local>, seq<Elem>>) returns (m': Machine)
    requires geo.Shape() && AllRunnable(geo, stencils, |m|) && MachineShape(geo, m) && Refines(geo, m, grids)
    requires RunFlagsOk(geo, m, stencils, iter) && AllQuiet(geo, m, stencils)
    requires Run(RunPhases(geo, stencils, |m|, iter), ByProcess(geo, m), run) && s == run[|run| - 1]
    requires Finished(RunPhases(geo, stencils, |m|, iter), s)
    ensures |m'| == |m| && MachineShape(geo, m') && Refines(geo, m', Sweeps(geo.gsize, grids, stencils, iter))
    ensures |s.procs| == |geo.offset| && forall r | 0 <= r < |s.procs| :: s.procs[r].local == OnProcess(m', r)
  {
    m' := RunResult(geo, m, stencils, iter, run, s);
    var after, grids' := RunsRefine(geo, m, grids, stencils, iter);
  }
}
