// Running stencils on distributed grids is running them on global grids: n
// rounds of loading halos, calling the kernel on every local domain and
// swapping leave every process with its part of what n sweeps over the global
// grids produce (the loop that BuildRunBody in translator/mpi_translator.cc
// generates, over LoadNeighbor of runtime/grid_mpi.cc).
module Refinement {
  import opened MixedRadix
  import opened Subgrid
  import opened RemoteGrid
  import opened Geometry
  import opened HaloExchange
  import opened HaloFlag

  // ------------------------------------------------------------- stencils

  // A read of a grid at an offset from the current point.
  datatype Access = Access(grid: nat, offset: IndexArray)

  // What LoadNeighbor is asked to fetch for a grid.
  datatype Range = Range(fwWidth: IndexArray, bwWidth: IndexArray, diagonal: bool, periodic: bool)

  // A kernel mapped to a domain [lo, hi): at every point it computes the new
  // value of the target grid from reads that may depend on the point.
  datatype Stencil = Stencil(
    lo: IndexArray, hi: IndexArray, target: nat,
    accesses: IndexArray -> seq<Access>,
    combine: (IndexArray, seq<Elem>) -> Elem,
    params: seq<nat>,            // the grids that are read, in parameter order
    ranges: nat -> Range)

  ghost predicate InDomain(st: Stencil, x: IndexArray) {
    |st.lo| == |st.hi| == |x| && forall d | 0 <= d < |x| :: st.lo[d] <= x[d] < st.hi[d]
  }

  function Modulo(x: int, n: int): int {
    if n > 0 then x % n else x
  }

  // The cell of the global grid an access refers to.
  ghost function Target(gsize: IndexArray, periodic: bool, x: IndexArray): (y: IndexArray)
    requires |x| == |gsize|
    ensures |y| == |x|
  {
    seq(|x|, d requires 0 <= d < |x| => if periodic then Modulo(x[d], gsize[d]) else x[d])
  }

  // --------------------------------------------------------- global sweeps

  type Grids = seq<seq<Elem>>

  ghost function GlobalRead(gsize: IndexArray, grids: Grids, st: Stencil, x: IndexArray, a: Access): Elem {
    if a.grid < |grids| && |a.offset| == |x| == |gsize|
    then At(grids[a.grid], Lin(Target(gsize, st.ranges(a.grid).periodic, Add(x, a.offset)), gsize))
    else 0.0
  }

  ghost function GlobalValue(gsize: IndexArray, grids: Grids, st: Stencil, x: IndexArray): Elem {
    var accesses := st.accesses(x);
    st.combine(x, seq(|accesses|, i requires 0 <= i < |accesses| => GlobalRead(gsize, grids, st, x, accesses[i])))
  }

  // One sweep of a stencil over the global grids.
  ghost function Sweep(gsize: IndexArray, grids: Grids, st: Stencil): (r: Grids)
    requires st.target < |grids|
    ensures |r| == |grids|
  {
    var before := grids[st.target];
    grids[st.target := seq(|before|, p requires 0 <= p < |before| =>
      if InDomain(st, Digits(p, gsize)) then GlobalValue(gsize, grids, st, Digits(p, gsize)) else before[p])]
  }

  // ------------------------------------------------------ distributed grids

  type Machine = seq<World>

  function ExchangeOf(geo: Geometry, r: Range): Exchange {
    Exchange(geo, r.fwWidth, r.bwWidth, r.diagonal, r.periodic)
  }

  ghost predicate IsZero(r: Range) {
    (forall d | 0 <= d < |r.fwWidth| :: r.fwWidth[d] == 0) && forall d | 0 <= d < |r.bwWidth| :: r.bwWidth[d] == 0
  }

  ghost predicate MachineShape(geo: Geometry, m: Machine)
    requires geo.Shape()
  {
    forall i | 0 <= i < |m| :: GridShape(geo, m[i])
  }

  ghost predicate GridShape(geo: Geometry, w: World)
    requires geo.Shape()
  {
    && |w| == |geo.offset|
    && forall r | 0 <= r < |w| ::
        w[r].WellFormed(|geo.gsize|) && w[r].size == geo.size[r] && |w[r].data| == Volume(geo.size[r])
  }

  // The stencil can be run: processes hold the widths that they send and none
  // waits for an empty one, accesses stay within the widths and, if not
  // periodic, within the grid, in one dimension only unless diagonal points
  // are loaded, and the grid that is written is not read.
  ghost predicate Runnable(geo: Geometry, st: Stencil, n: nat) {
    && geo.Valid() && st.target < n && |st.lo| == |st.hi| == |geo.gsize|
    && (forall k | 0 <= k < |st.params| :: st.params[k] < n && RangeOk(geo, st.ranges(st.params[k])))
    && forall x: IndexArray | InBox(x, geo.gsize) && InDomain(st, x) ::
         forall i | 0 <= i < |st.accesses(x)| :: AccessOk(geo, st, x, st.accesses(x)[i])
  }

  ghost predicate RangeOk(geo: Geometry, r: Range) {
    var e := ExchangeOf(geo, r);
    e.Valid() && e.Fits() && e.Joined()
  }

  // Widths within the shortest partition are in order, and so is every
  // periodic exchange if no partition is empty.
  lemma ShortRangeOk(geo: Geometry, r: Range)
    requires geo.Valid() && |r.fwWidth| == |r.bwWidth| == |geo.gsize|
    requires forall d | 0 <= d < |geo.gsize| ::
      0 <= r.fwWidth[d] <= geo.minPartition[d] && 0 <= r.bwWidth[d] <= geo.minPartition[d]
    requires r.periodic ==> forall d | 0 <= d < |geo.gsize| :: geo.minPartition[d] > 0
    ensures RangeOk(geo, r)
  {
    var e := ExchangeOf(geo, r);
    forall q: nat, d: nat, forward | geo.IsRank(q) && geo.HasCells(q) && d < e.Dims() ensures e.FitsAt(q, d, forward) {
      assert geo.BoxAt(q, d);
    }
    forall q: nat, d: nat | geo.IsRank(q) && d < e.Dims() ensures e.JoinedAt(q, d) {
      assert geo.NeighborAt(q, d);
      if r.periodic {
        AllHaveCells(geo, q);
        AllHaveCells(geo, geo.fw[q][d]);
      }
    }
  }

  lemma AllHaveCells(geo: Geometry, q: nat)
    requires geo.Valid() && geo.IsRank(q) && forall d | 0 <= d < |geo.gsize| :: geo.minPartition[d] > 0
    ensures geo.HasCells(q)
  {
    forall d | 0 <= d < |geo.gsize| ensures geo.size[q][d] > 0 {
      assert geo.BoxAt(q, d);
    }
    CellsPositive(geo, q);
  }

  ghost predicate AccessOk(geo: Geometry, st: Stencil, x: IndexArray, a: Access) {
    var r := st.ranges(a.grid);
    && a.grid in st.params && a.grid != st.target
    && |a.offset| == |x| == |geo.gsize| == |r.fwWidth| == |r.bwWidth|
    && (forall d | 0 <= d < |x| :: -r.bwWidth[d] <= a.offset[d] <= r.fwWidth[d])
    && (!r.diagonal ==> forall i, j | 0 <= i < j < |x| :: a.offset[i] == 0 || a.offset[j] == 0)
    && (!r.periodic ==> InBox(Add(x, a.offset), geo.gsize))
  }

  // The load statements: one exchange for every parameter whose range is not
  // zero, in parameter order.
  ghost function Load(geo: Geometry, m: Machine, st: Stencil, k: nat): (m': Machine)
    requires Runnable(geo, st, |m|) && MachineShape(geo, m) && k <= |st.params|
    ensures |m'| == |m| && MachineShape(geo, m')
  {
    if k == 0 then m else
    var before, g := Load(geo, m, st, k - 1), st.params[k - 1];
    var range := st.ranges(g);
    if IsZero(range) then before else
    ExchangeKeepsShape(ExchangeOf(geo, range), before[g]);
    before[g := ExchangeFrom(ExchangeOf(geo, range), before[g], 0)]
  }

  // Of a parameter that is read at the own point only nothing is loaded.
  lemma ZeroIsNotLoaded(geo: Geometry, m: Machine, st: Stencil, k: nat)
    requires Runnable(geo, st, |m|) && MachineShape(geo, m) && 0 < k <= |st.params|
    requires var r := st.ranges(st.params[k - 1]);
      forall d | 0 <= d < |geo.gsize| :: |r.fwWidth| == |r.bwWidth| == |geo.gsize| && r.fwWidth[d] == r.bwWidth[d] == 0
    ensures Load(geo, m, st, k) == Load(geo, m, st, k - 1)
  {
    assert RangeOk(geo, st.ranges(st.params[k - 1]));
  }

  lemma ExchangeKeepsShape(e: Exchange, w: World)
    requires e.Valid() && GridShape(e.geo, w)
    ensures WorldShape(e, w) && GridShape(e.geo, ExchangeFrom(e, w, 0))
  {
    var w' := ExchangeFrom(e, w, 0);
    forall r | 0 <= r < |w'| ensures |w'[r].data| == Volume(e.geo.size[r]) {
      ExchangeKeeps(e, w, 0, r);
    }
  }

  // The grids as process r holds them.
  ghost function OnProcess(m: Machine, r: nat): (own: seq<Local>)
    requires forall i | 0 <= i < |m| :: r < |m[i]|
    ensures |own| == |m| && forall i | 0 <= i < |m| :: own[i] == m[i][r]
  {
    seq(|m|, i requires 0 <= i < |m| => m[i][r])
  }

  ghost predicate ProcessShape(geo: Geometry, own: seq<Local>, r: nat)
    requires geo.Shape() && r < |geo.offset|
  {
    forall i | 0 <= i < |own| ::
      own[i].WellFormed(|geo.gsize|) && own[i].size == geo.size[r] && |own[i].data| == Volume(geo.size[r])
  }

  // A read in the kernel, at point x, from the process's own grids: through
  // the address computation with their flags and remote grids.
  ghost function LocalRead(offset: IndexArray, own: seq<Local>, x: IndexArray, a: Access): Elem {
    if a.grid < |own| && |a.offset| == |x| == |offset| && own[a.grid].WellFormed(|x|)
    then ReadAddress(own[a.grid], offset, Add(x, a.offset)) else 0.0
  }

  ghost function ReadValues(offset: IndexArray, own: seq<Local>, x: IndexArray, accesses: seq<Access>): (values: seq<Elem>)
    ensures |values| == |accesses|
  {
    seq(|accesses|, i requires 0 <= i < |accesses| => LocalRead(offset, own, x, accesses[i]))
  }

  ghost function LocalValue(offset: IndexArray, own: seq<Local>, st: Stencil, x: IndexArray): Elem {
    st.combine(x, ReadValues(offset, own, x, st.accesses(x)))
  }

  // The kernel on one process: the cells of its part of the domain.
  ghost function RunLocal(geo: Geometry, own: seq<Local>, st: Stencil, r: nat): (L: Local)
    requires geo.Shape() && r < |geo.offset| && ProcessShape(geo, own, r) && st.target < |own|
    ensures L.WellFormed(|geo.gsize|) && L.size == geo.size[r] && |L.data| == Volume(geo.size[r])
  {
    var L := own[st.target];
    L.(data := seq(|L.data|, p requires 0 <= p < |L.data| =>
      var x := Add(geo.offset[r], Digits(p, L.size));
      if InDomain(st, x) then LocalValue(geo.offset[r], own, st, x) else L.data[p]))
  }

  // The kernel on all processes.
  ghost function RunAll(geo: Geometry, m: Machine, st: Stencil): (w: World)
    requires geo.Shape() && MachineShape(geo, m) && st.target < |m|
    ensures GridShape(geo, w)
  {
    seq(|geo.offset|, r requires 0 <= r < |geo.offset| => RunLocal(geo, OnProcess(m, r), st, r))
  }

  // Load, kernel, swap. Without double buffering the two buffers of a grid
  // are one, and the swap changes nothing.
  ghost function Step(geo: Geometry, m: Machine, st: Stencil): (m': Machine)
    requires Runnable(geo, st, |m|) && MachineShape(geo, m)
    ensures |m'| == |m| && MachineShape(geo, m')
  {
    var loaded := Load(geo, m, st, |st.params|);
    loaded[st.target := RunAll(geo, loaded, st)]
  }

  // ----------------------------------------------------------- refinement

  // Every process holds its part of the global grid.
  ghost predicate Holding(geo: Geometry, w: World, g: seq<Elem>)
    requires geo.Shape() && GridShape(geo, w)
  {
    forall r, v | 0 <= r < |w| && InBox(v, geo.size[r]) ::
      At(w[r].data, Lin(v, geo.size[r])) == At(g, Lin(Add(geo.offset[r], v), geo.gsize))
  }

  ghost predicate Refines(geo: Geometry, m: Machine, grids: Grids)
    requires geo.Shape() && MachineShape(geo, m)
  {
    && |m| == |grids|
    && forall i | 0 <= i < |m| :: |grids[i]| == Volume(geo.gsize) && Holding(geo, m[i], grids[i])
  }

  // Own cells and the remote grid.
  ghost function Core(L: Local): (seq<Elem>, Remote) {
    (L.data, L.remote)
  }

  lemma LoadStepKeeps(geo: Geometry, m: Machine, st: Stencil, k: nat, i: nat, r: nat) returns (core: (seq<Elem>, Remote))
    requires Runnable(geo, st, |m|) && MachineShape(geo, m) && 0 < k <= |st.params| && i < |m| && r < |geo.offset|
    ensures core == Core(Load(geo, m, st, k)[i][r]) && core == Core(Load(geo, m, st, k - 1)[i][r])
  {
    var before, g := Load(geo, m, st, k - 1), st.params[k - 1];
    core := Core(before[i][r]);
    assert RangeOk(geo, st.ranges(g));
    if !IsZero(st.ranges(g)) && i == g {
      ExchangeKeepsShape(ExchangeOf(geo, st.ranges(g)), before[g]);
      ExchangeKeeps(ExchangeOf(geo, st.ranges(g)), before[g], 0, r);
    }
  }

  lemma {:induction false} LoadKeepsCore(geo: Geometry, m: Machine, st: Stencil, k: nat, i: nat, r: nat)
    returns (core: (seq<Elem>, Remote))
    requires Runnable(geo, st, |m|) && MachineShape(geo, m) && k <= |st.params| && i < |m| && r < |geo.offset|
    ensures core == Core(Load(geo, m, st, k)[i][r]) && core == Core(m[i][r])
  {
    core := Core(m[i][r]);
    if k > 0 {
      core := LoadKeepsCore(geo, m, st, k - 1, i, r);
      var same := LoadStepKeeps(geo, m, st, k, i, r);
    }
  }

  // The load statements change neither own cells nor remote grids.
  lemma LoadKeeps(geo: Geometry, m: Machine, st: Stencil, k: nat, i: nat, r: nat)
    requires Runnable(geo, st, |m|) && MachineShape(geo, m) && k <= |st.params| && i < |m| && r < |geo.offset|
    ensures Load(geo, m, st, k)[i][r].data == m[i][r].data && Load(geo, m, st, k)[i][r].remote == m[i][r].remote
  {
    var core := LoadKeepsCore(geo, m, st, k, i, r);
  }

  lemma LoadRefines(geo: Geometry, m: Machine, grids: Grids, st: Stencil, k: nat)
    requires Runnable(geo, st, |m|) && MachineShape(geo, m) && k <= |st.params| && Refines(geo, m, grids)
    ensures Refines(geo, Load(geo, m, st, k), grids)
  {
    var loaded := Load(geo, m, st, k);
    forall i | 0 <= i < |m| ensures Holding(geo, loaded[i], grids[i]) {
      forall r, v | 0 <= r < |loaded[i]| && InBox(v, geo.size[r])
        ensures At(loaded[i][r].data, Lin(v, geo.size[r])) == At(grids[i], Lin(Add(geo.offset[r], v), geo.gsize))
      {
        LoadKeeps(geo, m, st, k, i, r);
        assert Holding(geo, m[i], grids[i]);
      }
    }
  }

  // A grid that is read, as parameter i, is not touched after its last load.
  lemma LoadSkips(geo: Geometry, m: Machine, st: Stencil, k: nat, g: nat) returns (w: World)
    requires Runnable(geo, st, |m|) && MachineShape(geo, m) && 0 < k <= |st.params| && g < |m| && st.params[k - 1] != g
    ensures w == Load(geo, m, st, k)[g] && w == Load(geo, m, st, k - 1)[g]
  {
    w := Load(geo, m, st, k)[g];
  }

  lemma {:induction false} LastLoad(geo: Geometry, m: Machine, st: Stencil, k: nat, i: nat) returns (j: nat, w: World)
    requires Runnable(geo, st, |m|) && MachineShape(geo, m) && i < k <= |st.params| && st.params[i] < |m|
    ensures j < k && st.params[j] == st.params[i]
    ensures w == Load(geo, m, st, k)[st.params[i]] && w == Load(geo, m, st, j + 1)[st.params[i]]
  {
    if st.params[k - 1] == st.params[i] {
      j, w := k - 1, Load(geo, m, st, k)[st.params[i]];
    } else {
      j, w := LastLoad(geo, m, st, k - 1, i);
      var same := LoadSkips(geo, m, st, k, st.params[i]);
    }
  }

  lemma Loaded(geo: Geometry, m: Machine, st: Stencil, j: nat)
    requires Runnable(geo, st, |m|) && MachineShape(geo, m) && j < |st.params| && !IsZero(st.ranges(st.params[j]))
    ensures var g := st.params[j];
      && g < |m| && ExchangeOf(geo, st.ranges(g)).Valid()
      && WorldShape(ExchangeOf(geo, st.ranges(g)), Load(geo, m, st, j)[g])
      && Load(geo, m, st, j + 1)[g] == ExchangeFrom(ExchangeOf(geo, st.ranges(g)), Load(geo, m, st, j)[g], 0)
  {
    var g := st.params[j];
    assert RangeOk(geo, st.ranges(g));
    ExchangeKeepsShape(ExchangeOf(geo, st.ranges(g)), Load(geo, m, st, j)[g]);
  }

  lemma HoldingIsHoldsGrid(e: Exchange, w: World, g: seq<Elem>)
    requires e.Valid() && WorldShape(e, w) && GridShape(e.geo, w) && Holding(e.geo, w, g)
    ensures HoldsGrid(e, w, g)
  {
  }

  // What a stencil may access is covered by the halos it asked for.
  lemma AccessCovered(geo: Geometry, st: Stencil, r: nat, v: IndexArray, a: Access)
    requires geo.Valid() && geo.IsRank(r) && InBox(v, geo.size[r]) && RangeOk(geo, st.ranges(a.grid))
    requires AccessOk(geo, st, Add(geo.offset[r], v), a)
    ensures Covered(ExchangeOf(geo, st.ranges(a.grid)), r, Add(v, a.offset), 0)
  {
    var e, u := ExchangeOf(geo, st.ranges(a.grid)), Add(v, a.offset);
    var x := Add(geo.offset[r], v);
    forall j | 0 <= j < |u| ensures -e.WantBw(r, j) <= u[j] < geo.size[r][j] + e.WantFw(r, j) {
      assert geo.BoxAt(r, j) && -e.bwWidth[j] <= a.offset[j] <= e.fwWidth[j];
      assert !e.periodic ==> 0 <= Add(x, a.offset)[j] < geo.gsize[j];
    }
    if !e.diagonal {
      forall i, j | 0 <= i < j < |u| ensures !(Out(u, geo.size[r], i) && Out(u, geo.size[r], j)) {
        assert a.offset[i] == 0 || a.offset[j] == 0;
      }
    }
  }

  // The cell an access refers to, seen from the process and from the grid.
  lemma SameTarget(geo: Geometry, st: Stencil, r: nat, v: IndexArray, a: Access)
    requires geo.Valid() && geo.IsRank(r) && InBox(v, geo.size[r]) && RangeOk(geo, st.ranges(a.grid))
    requires AccessOk(geo, st, Add(geo.offset[r], v), a)
    ensures var e := ExchangeOf(geo, st.ranges(a.grid));
      e.GlobalCell(r, Add(v, a.offset)) == Target(geo.gsize, e.periodic, Add(Add(geo.offset[r], v), a.offset))
  {
    var e, u := ExchangeOf(geo, st.ranges(a.grid)), Add(v, a.offset);
    var x := Add(Add(geo.offset[r], v), a.offset);
    forall d | 0 <= d < |u| ensures e.GlobalCell(r, u)[d] == Target(geo.gsize, e.periodic, x)[d] {
      assert geo.BoxAt(r, d) && -e.bwWidth[d] <= a.offset[d] <= e.fwWidth[d];
      if e.periodic {
        WrapIsModulo(x[d], geo.gsize[d]);
      }
    }
  }

  // The flags are in order when grid st.params[j] is loaded.
  ghost predicate FlagsAt(geo: Geometry, m: Machine, st: Stencil, j: nat)
    requires Runnable(geo, st, |m|) && MachineShape(geo, m) && j < |st.params|
  {
    var g := st.params[j];
    assert RangeOk(geo, st.ranges(g));
    IsZero(st.ranges(g))
    || forall r: nat | geo.IsRank(r) && geo.HasCells(r) ::
         FlagFits(ExchangeOf(geo, st.ranges(g)), r, Load(geo, m, st, j)[g][r].hasDiagonal)
  }

  ghost predicate FlagsOk(geo: Geometry, m: Machine, st: Stencil)
    requires Runnable(geo, st, |m|) && MachineShape(geo, m)
  {
    forall j: nat | j < |st.params| :: FlagsAt(geo, m, st, j)
  }

  // No process reads a grid of the stencil through a remote grid.
  ghost predicate Quiet(geo: Geometry, m: Machine, st: Stencil)
    requires Runnable(geo, st, |m|) && MachineShape(geo, m)
  {
    forall j: nat, r: nat | j < |st.params| && geo.IsRank(r) && geo.HasCells(r) :: !m[st.params[j]][r].remote.active
  }

  lemma NonEmptyRank(w: World, r: nat, v: IndexArray)
    requires r < |w| && InBox(v, w[r].size)
    ensures !w[r].Empty()
  {
    LinInRange(v, w[r].size);
  }

  // After the load statements a read on the process is the read of the grid.
  lemma ReadRefines(geo: Geometry, m: Machine, grids: Grids, st: Stencil, r: nat, v: IndexArray, a: Access)
    requires Runnable(geo, st, |m|) && MachineShape(geo, m) && Refines(geo, m, grids) && FlagsOk(geo, m, st) && Quiet(geo, m, st)
    requires geo.IsRank(r) && InBox(v, geo.size[r]) && AccessOk(geo, st, Add(geo.offset[r], v), a)
    ensures LocalRead(geo.offset[r], OnProcess(Load(geo, m, st, |st.params|), r), Add(geo.offset[r], v), a)
         == GlobalRead(geo.gsize, grids, st, Add(geo.offset[r], v), a)
  {
    var i :| 0 <= i < |st.params| && st.params[i] == a.grid;
    assert RangeOk(geo, st.ranges(a.grid));
    SameTarget(geo, st, r, v, a);
    if IsZero(st.ranges(a.grid)) {
      OwnReadRefines(geo, m, grids, st, r, v, a);
    } else {
      HaloReadRefines(geo, m, grids, st, r, v, a, i);
    }
  }

  lemma HaloReadRefines(geo: Geometry, m: Machine, grids: Grids, st: Stencil, r: nat, v: IndexArray, a: Access, i: nat)
    requires Runnable(geo, st, |m|) && MachineShape(geo, m) && Refines(geo, m, grids) && FlagsOk(geo, m, st) && Quiet(geo, m, st)
    requires geo.IsRank(r) && InBox(v, geo.size[r]) && AccessOk(geo, st, Add(geo.offset[r], v), a)
    requires i < |st.params| && st.params[i] == a.grid && !IsZero(st.ranges(a.grid)) && RangeOk(geo, st.ranges(a.grid))
    ensures a.grid < |grids|
    ensures LocalRead(geo.offset[r], OnProcess(Load(geo, m, st, |st.params|), r), Add(geo.offset[r], v), a)
         == ExchangeOf(geo, st.ranges(a.grid)).GlobalAt(grids[a.grid], r, Add(v, a.offset))
  {
    var e := ExchangeOf(geo, st.ranges(a.grid));
    var j, last := LastLoad(geo, m, st, |st.params|, i);
    Loaded(geo, m, st, j);
    var w := Load(geo, m, st, j)[a.grid];
    LoadRefines(geo, m, grids, st, j);
    HoldingIsHoldsGrid(e, w, grids[a.grid]);
    NonEmptyRank(w, r, v);
    assert FlagsAt(geo, m, st, j) && geo.HasCells(r);
    assert FlagFits(e, r, w[r].hasDiagonal);
    FitsReaches(e);
    LoadKeeps(geo, m, st, j, a.grid, r);
    AccessCovered(geo, st, r, v, a);
    HaloReads(e, w, grids[a.grid], r, Add(v, a.offset));
    AddChain(geo.offset[r], v, a.offset);
  }

  // With a zero range only the own point is read, and nothing is exchanged.
  lemma OwnReadRefines(geo: Geometry, m: Machine, grids: Grids, st: Stencil, r: nat, v: IndexArray, a: Access)
    requires Runnable(geo, st, |m|) && MachineShape(geo, m) && Refines(geo, m, grids) && Quiet(geo, m, st)
    requires geo.IsRank(r) && InBox(v, geo.size[r]) && AccessOk(geo, st, Add(geo.offset[r], v), a)
    requires a.grid < |m| && IsZero(st.ranges(a.grid)) && RangeOk(geo, st.ranges(a.grid))
    ensures LocalRead(geo.offset[r], OnProcess(Load(geo, m, st, |st.params|), r), Add(geo.offset[r], v), a)
         == ExchangeOf(geo, st.ranges(a.grid)).GlobalAt(grids[a.grid], r, Add(v, a.offset))
  {
    var loaded := Load(geo, m, st, |st.params|);
    var e, w := ExchangeOf(geo, st.ranges(a.grid)), loaded[a.grid];
    ZeroAccess(geo, st, Add(geo.offset[r], v), v, a);
    LoadRefines(geo, m, grids, st, |st.params|);
    LoadKeeps(geo, m, st, |st.params|, a.grid, r);
    NonEmptyRank(w, r, v);
    var i :| 0 <= i < |st.params| && st.params[i] == a.grid;
    assert geo.HasCells(r) && !m[st.params[i]][r].remote.active;
    OwnReadAt(e, w, grids[a.grid], r, v);
    AddChain(geo.offset[r], v, a.offset);
  }

  lemma ZeroAccess(geo: Geometry, st: Stencil, x: IndexArray, v: IndexArray, a: Access)
    requires AccessOk(geo, st, x, a) && IsZero(st.ranges(a.grid)) && |v| == |x|
    ensures Add(v, a.offset) == v
  {
    forall d | 0 <= d < |v| ensures a.offset[d] == 0 {
      assert st.ranges(a.grid).fwWidth[d] == 0 && st.ranges(a.grid).bwWidth[d] == 0;
    }
  }

  // Own cells are read whatever the flag says.
  lemma OwnReadAt(e: Exchange, w: World, g: seq<Elem>, r: nat, v: IndexArray)
    requires e.Valid() && WorldShape(e, w) && GridShape(e.geo, w) && Holding(e.geo, w, g)
    requires r < |w| && InBox(v, e.geo.size[r]) && !w[r].remote.active
    ensures ReadAddress(w[r], e.geo.offset[r], Add(e.geo.offset[r], v)) == e.GlobalAt(g, r, v)
  {
    OwnCell(e, r, v);
    ReadsLocally(w[r], e.geo.offset[r], v);
    assert FirstOut(v, w[r].size, 0) == |v|;
  }

  lemma OwnCell(e: Exchange, r: nat, v: IndexArray)
    requires e.Valid() && e.geo.IsRank(r) && InBox(v, e.geo.size[r])
    ensures e.GlobalCell(r, v) == Add(e.geo.offset[r], v)
  {
    forall d | 0 <= d < |v| ensures e.GlobalCell(r, v)[d] == e.geo.offset[r][d] + v[d] {
      assert e.geo.BoxAt(r, d);
    }
  }

  lemma OwnPointInGrid(geo: Geometry, r: nat, v: IndexArray)
    requires geo.Valid() && geo.IsRank(r) && InBox(v, geo.size[r])
    ensures InBox(Add(geo.offset[r], v), geo.gsize)
  {
    forall d | 0 <= d < |v| ensures 0 <= geo.offset[r][d] + v[d] < geo.gsize[d] {
      assert geo.BoxAt(r, d);
    }
  }

  // The kernel computes the same value at a point on its process as on the
  // global grids.
  lemma ValueRefines(geo: Geometry, m: Machine, grids: Grids, st: Stencil, r: nat, v: IndexArray)
    requires Runnable(geo, st, |m|) && MachineShape(geo, m) && Refines(geo, m, grids) && FlagsOk(geo, m, st) && Quiet(geo, m, st)
    requires geo.IsRank(r) && InBox(v, geo.size[r]) && InDomain(st, Add(geo.offset[r], v))
    ensures LocalValue(geo.offset[r], OnProcess(Load(geo, m, st, |st.params|), r), st, Add(geo.offset[r], v))
         == GlobalValue(geo.gsize, grids, st, Add(geo.offset[r], v))
  {
    var x, own := Add(geo.offset[r], v), OnProcess(Load(geo, m, st, |st.params|), r);
    OwnPointInGrid(geo, r, v);
    var accesses := st.accesses(x);
    var a := ReadValues(geo.offset[r], own, x, accesses);
    var b := seq(|accesses|, i requires 0 <= i < |accesses| => GlobalRead(geo.gsize, grids, st, x, accesses[i]));
    forall i | 0 <= i < |accesses| ensures a[i] == b[i] {
      assert AccessOk(geo, st, x, accesses[i]);
      ReadRefines(geo, m, grids, st, r, v, accesses[i]);
    }
    assert a == b;
  }

  lemma CellOfRank(geo: Geometry, r: nat, v: IndexArray)
    requires geo.Valid() && geo.IsRank(r) && InBox(v, geo.size[r])
    ensures 0 <= Lin(v, geo.size[r]) < Volume(geo.size[r]) && Digits(Lin(v, geo.size[r]), geo.size[r]) == v
    ensures var x := Add(geo.offset[r], v);
      InBox(x, geo.gsize) && 0 <= Lin(x, geo.gsize) < Volume(geo.gsize) && Digits(Lin(x, geo.gsize), geo.gsize) == x
  {
    OwnPointInGrid(geo, r, v);
    LinInRange(v, geo.size[r]);
    DigitsOfLin(v, geo.size[r]);
    LinInRange(Add(geo.offset[r], v), geo.gsize);
    DigitsOfLin(Add(geo.offset[r], v), geo.gsize);
  }

  lemma RunAt(geo: Geometry, m: Machine, st: Stencil, r: nat, v: IndexArray)
    requires geo.Valid() && MachineShape(geo, m) && st.target < |m| && geo.IsRank(r) && InBox(v, geo.size[r])
    ensures var x := Add(geo.offset[r], v);
      At(RunLocal(geo, OnProcess(m, r), st, r).data, Lin(v, geo.size[r]))
      == if InDomain(st, x) then LocalValue(geo.offset[r], OnProcess(m, r), st, x) else At(m[st.target][r].data, Lin(v, geo.size[r]))
  {
    CellOfRank(geo, r, v);
  }

  lemma SweepAt(gsize: IndexArray, grids: Grids, st: Stencil, x: IndexArray)
    requires st.target < |grids| && InBox(x, gsize) && |grids[st.target]| == Volume(gsize)
    ensures At(Sweep(gsize, grids, st)[st.target], Lin(x, gsize))
         == if InDomain(st, x) then GlobalValue(gsize, grids, st, x) else At(grids[st.target], Lin(x, gsize))
  {
    LinInRange(x, gsize);
    DigitsOfLin(x, gsize);
  }

  lemma RunRefines(geo: Geometry, m: Machine, grids: Grids, st: Stencil, r: nat, v: IndexArray)
    requires Runnable(geo, st, |m|) && MachineShape(geo, m) && Refines(geo, m, grids) && FlagsOk(geo, m, st) && Quiet(geo, m, st)
    requires geo.IsRank(r) && InBox(v, geo.size[r])
    ensures At(RunLocal(geo, OnProcess(Load(geo, m, st, |st.params|), r), st, r).data, Lin(v, geo.size[r]))
         == At(Sweep(geo.gsize, grids, st)[st.target], Lin(Add(geo.offset[r], v), geo.gsize))
  {
    var x, loaded := Add(geo.offset[r], v), Load(geo, m, st, |st.params|);
    OwnPointInGrid(geo, r, v);
    RunAt(geo, loaded, st, r, v);
    SweepAt(geo.gsize, grids, st, x);
    if InDomain(st, x) {
      ValueRefines(geo, m, grids, st, r, v);
    } else {
      LoadRefines(geo, m, grids, st, |st.params|);
      assert Holding(geo, loaded[st.target], grids[st.target]);
    }
  }

  // One stencil of one round.
  lemma StepRefines(geo: Geometry, m: Machine, grids: Grids, st: Stencil) returns (m': Machine, grids': Grids)
    requires Runnable(geo, st, |m|) && MachineShape(geo, m) && Refines(geo, m, grids) && FlagsOk(geo, m, st) && Quiet(geo, m, st)
    ensures m' == Step(geo, m, st) && grids' == Sweep(geo.gsize, grids, st) && |m'| == |m| && MachineShape(geo, m')
    ensures Refines(geo, m', grids')
  {
    m', grids' := Step(geo, m, st), Sweep(geo.gsize, grids, st);
    LoadRefines(geo, m, grids, st, |st.params|);
    forall i | 0 <= i < |m| ensures |grids'[i]| == Volume(geo.gsize) && Holding(geo, m'[i], grids'[i]) {
      if i == st.target {
        forall r, v | 0 <= r < |m'[i]| && InBox(v, geo.size[r])
          ensures At(m'[i][r].data, Lin(v, geo.size[r])) == At(grids'[i], Lin(Add(geo.offset[r], v), geo.gsize))
        {
          RunRefines(geo, m, grids, st, r, v);
        }
      }
    }
  }

  // ----------------------------------------------------------------- runs

  ghost predicate AllRunnable(geo: Geometry, stencils: seq<Stencil>, n: nat) {
    forall k | 0 <= k < |stencils| :: Runnable(geo, stencils[k], n)
  }

  // The body of the loop: the first k stencils, one after the other.
  ghost function Round(geo: Geometry, m: Machine, stencils: seq<Stencil>, k: nat): (m': Machine)
    requires geo.Shape() && AllRunnable(geo, stencils, |m|) && MachineShape(geo, m) && k <= |stencils|
    ensures |m'| == |m| && MachineShape(geo, m')
  {
    if k == 0 then m else Step(geo, Round(geo, m, stencils, k - 1), stencils[k - 1])
  }

  ghost function Rounds(geo: Geometry, m: Machine, stencils: seq<Stencil>, iter: nat): (m': Machine)
    requires geo.Shape() && AllRunnable(geo, stencils, |m|) && MachineShape(geo, m)
    ensures |m'| == |m| && MachineShape(geo, m')
  {
    if iter == 0 then m else Round(geo, Rounds(geo, m, stencils, iter - 1), stencils, |stencils|)
  }

  ghost function SweepAll(gsize: IndexArray, grids: Grids, stencils: seq<Stencil>, k: nat): (r: Grids)
    requires k <= |stencils| && forall j | 0 <= j < |stencils| :: stencils[j].target < |grids|
    ensures |r| == |grids|
  {
    if k == 0 then grids else Sweep(gsize, SweepAll(gsize, grids, stencils, k - 1), stencils[k - 1])
  }

  ghost function Sweeps(gsize: IndexArray, grids: Grids, stencils: seq<Stencil>, iter: nat): (r: Grids)
    requires forall j | 0 <= j < |stencils| :: stencils[j].target < |grids|
    ensures |r| == |grids|
  {
    if iter == 0 then grids else SweepAll(gsize, Sweeps(gsize, grids, stencils, iter - 1), stencils, |stencils|)
  }

  // The flags are in order at every load of the first k stencils of a round,
  // and of the first iter rounds.
  ghost predicate RoundFlagsOk(geo: Geometry, m: Machine, stencils: seq<Stencil>, k: nat)
    requires geo.Shape() && AllRunnable(geo, stencils, |m|) && MachineShape(geo, m) && k <= |stencils|
  {
    k == 0 || (RoundFlagsOk(geo, m, stencils, k - 1) && FlagsOk(geo, Round(geo, m, stencils, k - 1), stencils[k - 1]))
  }

  ghost predicate RunFlagsOk(geo: Geometry, m: Machine, stencils: seq<Stencil>, iter: nat)
    requires geo.Shape() && AllRunnable(geo, stencils, |m|) && MachineShape(geo, m)
  {
    forall i: nat | i < iter :: RoundFlagsOk(geo, Rounds(geo, m, stencils, i), stencils, |stencils|)
  }

  ghost predicate AllQuiet(geo: Geometry, m: Machine, stencils: seq<Stencil>)
    requires geo.Shape() && AllRunnable(geo, stencils, |m|) && MachineShape(geo, m)
  {
    forall k | 0 <= k < |stencils| :: Quiet(geo, m, stencils[k])
  }

  ghost predicate SameRemotes(geo: Geometry, m: Machine, m': Machine)
    requires geo.Shape() && MachineShape(geo, m) && MachineShape(geo, m') && |m'| == |m|
  {
    forall i, r | 0 <= i < |m| && 0 <= r < |geo.offset| :: m'[i][r].remote == m[i][r].remote
  }

  lemma RemotesChain(geo: Geometry, m: Machine, before: Machine, m': Machine)
    requires geo.Shape() && MachineShape(geo, m) && MachineShape(geo, before) && MachineShape(geo, m')
    requires |before| == |m| && |m'| == |m| && SameRemotes(geo, m, before) && SameRemotes(geo, before, m')
    ensures SameRemotes(geo, m, m')
  {
    forall i, r | 0 <= i < |m| && 0 <= r < |geo.offset| ensures m'[i][r].remote == m[i][r].remote {
      assert before[i][r].remote == m[i][r].remote;
    }
  }

  lemma StepKeepsRemotes(geo: Geometry, m: Machine, st: Stencil) returns (m': Machine)
    requires Runnable(geo, st, |m|) && MachineShape(geo, m)
    ensures m' == Step(geo, m, st) && |m'| == |m| && MachineShape(geo, m') && SameRemotes(geo, m, m')
  {
    m' := Step(geo, m, st);
    forall i: nat, r: nat | i < |m| && r < |geo.offset| ensures m'[i][r].remote == m[i][r].remote {
      LoadKeeps(geo, m, st, |st.params|, i, r);
    }
  }

  lemma {:induction false} RoundKeepsRemotes(geo: Geometry, m: Machine, stencils: seq<Stencil>, k: nat) returns (m': Machine)
    requires geo.Shape() && AllRunnable(geo, stencils, |m|) && MachineShape(geo, m) && k <= |stencils|
    ensures m' == Round(geo, m, stencils, k) && |m'| == |m| && MachineShape(geo, m') && SameRemotes(geo, m, m')
  {
    m' := m;
    if k > 0 {
      var before := RoundKeepsRemotes(geo, m, stencils, k - 1);
      m' := StepKeepsRemotes(geo, before, stencils[k - 1]);
      RemotesChain(geo, m, before, m');
    }
  }

  // Loads and kernels leave remote grids alone.
  lemma {:induction false} RoundsKeepRemotes(geo: Geometry, m: Machine, stencils: seq<Stencil>, iter: nat)
    returns (m': Machine)
    requires geo.Shape() && AllRunnable(geo, stencils, |m|) && MachineShape(geo, m)
    ensures m' == Rounds(geo, m, stencils, iter) && |m'| == |m| && MachineShape(geo, m') && SameRemotes(geo, m, m')
  {
    m' := m;
    if iter > 0 {
      var before := RoundsKeepRemotes(geo, m, stencils, iter - 1);
      m' := RoundKeepsRemotes(geo, before, stencils, |stencils|);
      RemotesChain(geo, m, before, m');
    }
  }

  lemma QuietAgain(geo: Geometry, m: Machine, m': Machine, stencils: seq<Stencil>)
    requires geo.Shape() && AllRunnable(geo, stencils, |m|) && MachineShape(geo, m) && AllQuiet(geo, m, stencils)
    requires |m'| == |m| && MachineShape(geo, m') && SameRemotes(geo, m, m')
    ensures AllQuiet(geo, m', stencils)
  {
    forall k | 0 <= k < |stencils| ensures Quiet(geo, m', stencils[k]) {
      var st := stencils[k];
      assert Quiet(geo, m, st);
      forall j: nat, r: nat | j < |st.params| && geo.IsRank(r) && geo.HasCells(r)
        ensures !m'[st.params[j]][r].remote.active
      {
        assert !m[st.params[j]][r].remote.active;
      }
    }
  }

  lemma {:induction false} RoundRefines(geo: Geometry, m: Machine, grids: Grids, stencils: seq<Stencil>, k: nat)
    returns (m': Machine, grids': Grids)
    requires geo.Shape() && AllRunnable(geo, stencils, |m|) && MachineShape(geo, m) && Refines(geo, m, grids)
    requires k <= |stencils| && RoundFlagsOk(geo, m, stencils, k) && AllQuiet(geo, m, stencils)
    ensures m' == Round(geo, m, stencils, k) && grids' == SweepAll(geo.gsize, grids, stencils, k)
    ensures |m'| == |m| && MachineShape(geo, m') && Refines(geo, m', grids')
  {
    m', grids' := m, grids;
    if k > 0 {
      var before, swept := RoundRefines(geo, m, grids, stencils, k - 1);
      QuietBefore(geo, m, stencils, k - 1, before);
      m', grids' := StepRefines(geo, before, swept, stencils[k - 1]);
    }
  }

  lemma QuietBefore(geo: Geometry, m: Machine, stencils: seq<Stencil>, k: nat, before: Machine)
    requires geo.Shape() && AllRunnable(geo, stencils, |m|) && MachineShape(geo, m) && AllQuiet(geo, m, stencils)
    requires k < |stencils| && before == Round(geo, m, stencils, k)
    ensures |before| == |m| && MachineShape(geo, before) && Quiet(geo, before, stencils[k])
  {
    var again := RoundKeepsRemotes(geo, m, stencils, k);
    QuietAgain(geo, m, before, stencils);
  }

  lemma QuietBeforeRound(geo: Geometry, m: Machine, stencils: seq<Stencil>, iter: nat, before: Machine)
    requires geo.Shape() && AllRunnable(geo, stencils, |m|) && MachineShape(geo, m) && AllQuiet(geo, m, stencils)
    requires before == Rounds(geo, m, stencils, iter)
    ensures |before| == |m| && MachineShape(geo, before) && AllRunnable(geo, stencils, |before|) && AllQuiet(geo, before, stencils)
  {
    var again := RoundsKeepRemotes(geo, m, stencils, iter);
    QuietAgain(geo, m, before, stencils);
  }

  // Any number of rounds of any list of stencils, on any process grid, as long
  // as the flags are in order (Flags.dfy says when they are) and no grid that
  // is read has an active remote grid at the start.
  lemma {:induction false} RunsRefine(geo: Geometry, m: Machine, grids: Grids, stencils: seq<Stencil>, iter: nat)
    returns (m': Machine, grids': Grids)
    requires geo.Shape() && AllRunnable(geo, stencils, |m|) && MachineShape(geo, m) && Refines(geo, m, grids)
    requires RunFlagsOk(geo, m, stencils, iter) && AllQuiet(geo, m, stencils)
    ensures m' == Rounds(geo, m, stencils, iter) && grids' == Sweeps(geo.gsize, grids, stencils, iter)
    ensures |m'| == |m| && MachineShape(geo, m') && Refines(geo, m', grids')
  {
    m', grids' := m, grids;
    if iter > 0 {
      var before, swept := RunsRefine(geo, m, grids, stencils, iter - 1);
      QuietBeforeRound(geo, m, stencils, iter - 1, before);
      m', grids' := RoundRefines(geo, before, swept, stencils, |stencils|);
    }
  }
}
