// When the reader of kernels is right for every grid: its flag must be in
// order and its remote grid must not be active. Otherwise some grid that is 1
// at one cell and 0 elsewhere is misread.
module HaloMisread {
  import opened MixedRadix
  import opened Subgrid
  import opened RemoteGrid
  import opened Geometry
  import opened HaloExchange
  import opened HaloFlag
  import opened HaloWidths

  ghost predicate ReadsRight(e: Exchange, L: Local, g: seq<Elem>, r: nat)
    requires e.Valid() && e.geo.IsRank(r) && L.WellFormed(e.Dims())
  {
    forall v: IndexArray | |v| == e.Dims() && Covered(e, r, v, 0) ::
      ReadAddress(L, e.geo.offset[r], Add(e.geo.offset[r], v)) == e.GlobalAt(g, r, v)
  }

  // Process r enters the exchange of grid g with the given flag, having
  // fetched the cell prev before.
  ghost predicate Starts(e: Exchange, w: World, g: seq<Elem>, r: nat, flag: bool, active: bool, prev: IndexArray)
    requires e.Valid() && e.geo.IsRank(r) && |prev| == e.Dims()
  {
    && WorldShape(e, w) && |g| == Volume(e.geo.gsize) && HoldsGrid(e, w, g)
    && w[r].hasDiagonal == flag && w[r].remote == AfterFetch(active, g, e.geo.gsize, prev)
  }

  // It then reads any grid right.
  ghost predicate ReaderRight(e: Exchange, r: nat, flag: bool, active: bool, prev: IndexArray)
    requires e.Valid() && e.geo.IsRank(r) && |prev| == e.Dims()
  {
    forall w: World, g: seq<Elem> | Starts(e, w, g, r, flag, active, prev) ::
      ReadsRight(e, ExchangeFrom(e, w, 0)[r], g, r)
  }

  // In an exchange in which neighbours hold what may be read, a process reads
  // every grid right exactly if its flag is in order and no remote grid is
  // active.
  lemma ReaderRightIff(e: Exchange, r: nat, flag: bool, active: bool, prev: IndexArray)
    requires e.Valid() && e.Reaches() && e.geo.IsRank(r) && e.geo.HasCells(r)
    requires InBox(prev, e.geo.gsize) && !e.geo.Holds(r, prev)
    ensures FlagFits(e, r, flag) && !active <==> ReaderRight(e, r, flag, active, prev)
  {
    if active {
      ActiveMisreads(e, r, flag, prev);
    } else if FlagFits(e, r, flag) {
      forall w: World, g: seq<Elem> | Starts(e, w, g, r, flag, active, prev)
        ensures ReadsRight(e, ExchangeFrom(e, w, 0)[r], g, r)
      {
        forall v: IndexArray | |v| == e.Dims() && Covered(e, r, v, 0)
          ensures ReadAddress(ExchangeFrom(e, w, 0)[r], e.geo.offset[r], Add(e.geo.offset[r], v)) == e.GlobalAt(g, r, v)
        {
          HaloReads(e, w, g, r, v);
        }
      }
    } else {
      WrongFlagMisreads(e, r, flag, prev);
    }
  }

  // ------------------------------------------------------- starting states

  ghost function StartWorld(e: Exchange, g: seq<Elem>, r: nat, flag: bool, active: bool, prev: IndexArray): (w: World)
    requires e.Valid() && e.geo.IsRank(r) && |prev| == e.Dims()
  {
    var w := PartWorld(e.geo, g, flag);
    w[r := w[r].(remote := AfterFetch(active, g, e.geo.gsize, prev))]
  }

  lemma StartWorldStarts(e: Exchange, g: seq<Elem>, r: nat, flag: bool, active: bool, prev: IndexArray)
    requires e.Valid() && e.geo.IsRank(r) && |prev| == e.Dims() && |g| == Volume(e.geo.gsize)
    ensures Starts(e, StartWorld(e, g, r, flag, active, prev), g, r, flag, active, prev)
    ensures forall q | 0 <= q < |e.geo.offset| :: Bare(StartWorld(e, g, r, flag, active, prev)[q])
  {
    PartWorldHolds(e, g, flag);
    PartWorldBare(e.geo, g, flag);
  }

  // ------------------------------------------------- an active remote grid

  lemma OwnCorner(e: Exchange, r: nat) returns (v: IndexArray)
    requires e.Valid() && e.geo.IsRank(r) && e.geo.HasCells(r)
    ensures InBox(v, e.geo.size[r]) && |v| == e.Dims() && Covered(e, r, v, 0)
    ensures InBox(Add(e.geo.offset[r], v), e.geo.gsize) && e.GlobalCell(r, v) == Add(e.geo.offset[r], v)
    ensures e.geo.Holds(r, Add(e.geo.offset[r], v))
  {
    CellsPositive(e.geo, r);
    v := seq(e.Dims(), d => 0);
    var x := Add(e.geo.offset[r], v);
    forall d | 0 <= d < |v| ensures 0 <= x[d] < e.geo.gsize[d] && e.GlobalCell(r, v)[d] == x[d] {
      assert e.geo.BoxAt(r, d);
    }
    assert Sub(x, e.geo.offset[r]) == v;
  }

  lemma ActiveRead(L: Local, offset: IndexArray, index: IndexArray)
    requires L.WellFormed(|index|) && |offset| == |index| && L.remote.active && L.remote.data == [0.0]
    ensures ReadAddress(L, offset, index) == 0.0
  {
  }

  // An own cell is then looked for in the one-cell remote grid.
  lemma ActiveMisreads(e: Exchange, r: nat, flag: bool, prev: IndexArray)
    requires e.Valid() && e.geo.IsRank(r) && e.geo.HasCells(r) && InBox(prev, e.geo.gsize) && !e.geo.Holds(r, prev)
    ensures !ReaderRight(e, r, flag, true, prev)
  {
    var v := OwnCorner(e, r);
    var x := Add(e.geo.offset[r], v);
    var g := OneHot(e.geo.gsize, x);
    var w := StartWorld(e, g, r, flag, true, prev);
    StartWorldStarts(e, g, r, flag, true, prev);
    ExchangeKeeps(e, w, 0, r);
    OtherCellFetched(e.geo.gsize, prev, x);
    OneHotAt(e.geo.gsize, x, x);
    var L := ExchangeFrom(e, w, 0)[r];
    ActiveRead(L, e.geo.offset[r], x);
    assert e.GlobalAt(g, r, v) == 1.0;
    assert !ReadsRight(e, L, g, r);
  }

  // --------------------------------------------------------- a wrong flag

  // Indices within the widths received in dimensions d and later.
  ghost predicate Wide(e: Exchange, r: nat, v: IndexArray, d: nat)
    requires e.Valid() && e.geo.IsRank(r) && |v| == e.Dims()
  {
    && (forall j | 0 <= j < |v| ::
          if j < d then !Out(v, e.geo.size[r], j) else -e.EffBw(r, j) <= v[j] < e.geo.size[r][j] + e.EffFw(r, j))
    && (!e.diagonal ==> forall i, j | 0 <= i < j < |v| :: !(Out(v, e.geo.size[r], i) && Out(v, e.geo.size[r], j)))
  }

  // Whatever is read there, it is 0 except at the cell x.
  ghost predicate OnlyAt(e: Exchange, w: World, d: nat, x: IndexArray)
    requires e.Valid() && WorldShape(e, w)
  {
    forall r: nat, v: IndexArray | r < |w| && !w[r].Empty() && |v| == e.Dims() && Wide(e, r, v, d) ::
      Read(w[r], e.diagonal, v) != 0.0 ==> Add(e.geo.offset[r], v) == x
  }

  lemma OnlyAtStart(e: Exchange, w: World, x: IndexArray)
    requires e.Valid() && WorldShape(e, w) && InBox(x, e.geo.gsize) && HoldsGrid(e, w, OneHot(e.geo.gsize, x))
    ensures OnlyAt(e, w, e.Dims(), x)
  {
    forall r: nat, v: IndexArray | r < |w| && !w[r].Empty() && |v| == e.Dims() && Wide(e, r, v, e.Dims())
      ensures Read(w[r], e.diagonal, v) != 0.0 ==> Add(e.geo.offset[r], v) == x
    {
      var y := Add(e.geo.offset[r], v);
      assert FirstOut(v, w[r].size, 0) == |v|;
      forall d | 0 <= d < |v| ensures 0 <= y[d] < e.geo.gsize[d] {
        assert e.geo.BoxAt(r, d) && !Out(v, e.geo.size[r], d);
      }
      OneHotAt(e.geo.gsize, x, y);
    }
  }

  // The neighbour's frame: dimension d moved into it.
  lemma WideSource(e: Exchange, r: nat, q: nat, v: IndexArray, d: nat, y: int)
    requires e.Valid() && e.geo.IsRank(r) && e.geo.IsRank(q) && d < |v| == e.Dims()
    requires e.geo.SameAcross(r, q, d) && Wide(e, r, v, d) && 0 <= y < e.geo.size[q][d]
    ensures Wide(e, q, v[d := y], d + 1)
  {
    var u := v[d := y];
    assert forall j | 0 <= j < |v| && j != d :: Out(u, e.geo.size[q], j) == Out(v, e.geo.size[r], j);
    assert !Out(u, e.geo.size[q], d);
    assert forall j | d < j < |v| :: e.EffBw(q, j) == e.EffBw(r, j) && e.EffFw(q, j) == e.EffFw(r, j);
  }

  lemma WideCoordinates(e: Exchange, r: nat, v: IndexArray, d: nat, L: Local)
    requires e.Valid() && e.geo.IsRank(r) && d < |v| == e.Dims() && Wide(e, r, v, d) && Out(v, e.geo.size[r], d)
    requires L.WellFormed(|v|) && L.size == e.geo.size[r] && ShapesSet(e, r, L, d)
    ensures HaloCoordinates(L, e.diagonal, d, v)
  {
    forall j: nat | j < |v| && j != d
      ensures if j > d && e.diagonal then -L.bw[j] <= v[j] < L.size[j] + L.fw[j] else 0 <= v[j] < L.size[j]
    {
      assert j > d ==> ShapeSet(e, r, L, j);
      assert !e.diagonal ==> !Out(v, e.geo.size[r], j);
    }
  }

  // What process q has at an index of its neighbour's halo, before dimension d.
  lemma SourceOnlyAt(e: Exchange, w: World, d: nat, q: nat, u: IndexArray, x: IndexArray)
    requires e.Valid() && WorldShape(e, w) && q < |w| && !w[q].Empty() && d < |u| == e.Dims()
    requires OnlyAt(e, w, d + 1, x) && w[q].haloFw[d] == [] && w[q].haloBw[d] == []
    requires (forall j | 0 <= j < d :: !Out(u, w[q].size, j)) && (!Out(u, w[q].size, d) ==> Wide(e, q, u, d + 1))
    ensures Read(w[q], e.diagonal, u) != 0.0 ==> Add(e.geo.offset[q], u) == x
  {
    if Out(u, w[q].size, d) {
      MissingRead(w[q], e.diagonal, d, u);
    }
  }

  lemma BackwardShift(e: Exchange, r: nat, d: nat, v: IndexArray, u: IndexArray)
    requires e.Valid() && !e.periodic && e.geo.IsRank(r) && d < |v| == |u| == e.Dims() && e.geo.NeighborAt(r, d)
    requires e.EffBw(r, d) > 0 && u == v[d := e.geo.size[e.geo.bw[r][d]][d] + v[d]]
    ensures Add(e.geo.offset[e.geo.bw[r][d]], u) == Add(e.geo.offset[r], v)
  {
    var q := e.geo.bw[r][d];
    assert e.geo.NeighborAt(q, d);
    forall j | 0 <= j < |v| ensures e.geo.offset[q][j] + u[j] == e.geo.offset[r][j] + v[j] {
    }
  }

  lemma ForwardShift(e: Exchange, r: nat, d: nat, v: IndexArray, u: IndexArray)
    requires e.Valid() && !e.periodic && e.geo.IsRank(r) && d < |v| == |u| == e.Dims() && e.geo.NeighborAt(r, d)
    requires e.EffFw(r, d) > 0 && u == v[d := v[d] - e.geo.size[r][d]]
    ensures Add(e.geo.offset[e.geo.fw[r][d]], u) == Add(e.geo.offset[r], v)
  {
    var q := e.geo.fw[r][d];
    forall j | 0 <= j < |v| ensures e.geo.offset[q][j] + u[j] == e.geo.offset[r][j] + v[j] {
    }
  }

  lemma BackwardSourceOnlyAt(e: Exchange, w: World, d: nat, r: nat, v: IndexArray, x: IndexArray, u: IndexArray)
    requires e.Valid() && !e.periodic && WorldShape(e, w) && d < |v| == e.Dims() && r < |w| && e.geo.NeighborAt(r, d)
    requires OnlyAt(e, w, d + 1, x) && Wide(e, r, v, d) && v[d] < 0 && u == v[d := w[e.geo.bw[r][d]].size[d] + v[d]]
    requires var M := w[e.geo.bw[r][d]]; !M.Empty() && M.haloFw[d] == [] && M.haloBw[d] == []
    ensures Read(w[e.geo.bw[r][d]], e.diagonal, u) != 0.0 ==> Add(e.geo.offset[r], v) == x
  {
    var q: nat := e.geo.bw[r][d];
    assert e.geo.NeighborAt(q, d);
    if !Out(u, w[q].size, d) {
      WideSource(e, r, q, v, d, u[d]);
    }
    SourceOnlyAt(e, w, d, q, u, x);
    BackwardShift(e, r, d, v, u);
  }

  lemma BackwardFrom(e: Exchange, w: World, d: nat, r: nat, v: IndexArray, L: Local) returns (u: IndexArray)
    requires e.Valid() && WorldShape(e, w) && d < |v| == e.Dims() && r < |w| && e.geo.NeighborAt(r, d)
    requires Received(e, w, d, r, L) && HaloCoordinates(L, e.diagonal, d, v) && -e.EffBw(r, d) <= v[d] < 0
    requires AlikeAcross(L, w[e.geo.bw[r][d]], d)
    ensures u == v[d := w[e.geo.bw[r][d]].size[d] + v[d]] && Read(L, e.diagonal, v) == Read(w[e.geo.bw[r][d]], e.diagonal, u)
  {
    u := v[d := w[e.geo.bw[r][d]].size[d] + v[d]];
    BackwardValue(e, w, d, r, v, L);
  }

  lemma BackwardOnlyAt(e: Exchange, w: World, d: nat, r: nat, v: IndexArray, L: Local, x: IndexArray)
    requires e.Valid() && !e.periodic && WorldShape(e, w) && d < |v| == e.Dims() && r < |w| && !w[r].Empty()
    requires Received(e, w, d, r, L) && OnlyAt(e, w, d + 1, x) && Wide(e, r, v, d) && v[d] < 0
    requires HaloCoordinates(L, e.diagonal, d, v) && e.geo.NeighborAt(r, d) && Missing(w[e.geo.bw[r][d]], L, d)
    ensures Read(L, e.diagonal, v) != 0.0 ==> Add(e.geo.offset[r], v) == x
  {
    var q: nat, width := e.geo.bw[r][d], e.EffBw(r, d);
    ReceivedPack(e, w, d, r, L);
    assert e.geo.NeighborAt(q, d);
    FirstOutIs(v, L.size, d);
    if w[q].Empty() {
      EmptyPack(w[q], d, width, false, e.diagonal, Lin(HaloIndex(L, e.diagonal, v, d), L.bwSize[d]));
    } else {
      var u := BackwardFrom(e, w, d, r, v, L);
      BackwardSourceOnlyAt(e, w, d, r, v, x, u);
    }
  }

  lemma ForwardSourceOnlyAt(e: Exchange, w: World, d: nat, r: nat, v: IndexArray, x: IndexArray, u: IndexArray)
    requires e.Valid() && !e.periodic && WorldShape(e, w) && d < |v| == e.Dims() && r < |w| && e.geo.NeighborAt(r, d)
    requires OnlyAt(e, w, d + 1, x) && Wide(e, r, v, d) && v[d] >= w[r].size[d] && u == v[d := v[d] - w[r].size[d]]
    requires var M := w[e.geo.fw[r][d]]; !M.Empty() && M.haloFw[d] == [] && M.haloBw[d] == []
    ensures Read(w[e.geo.fw[r][d]], e.diagonal, u) != 0.0 ==> Add(e.geo.offset[r], v) == x
  {
    var q: nat := e.geo.fw[r][d];
    if !Out(u, w[q].size, d) {
      WideSource(e, r, q, v, d, u[d]);
    }
    SourceOnlyAt(e, w, d, q, u, x);
    ForwardShift(e, r, d, v, u);
  }

  lemma ForwardFrom(e: Exchange, w: World, d: nat, r: nat, v: IndexArray, L: Local) returns (u: IndexArray)
    requires e.Valid() && WorldShape(e, w) && d < |v| == e.Dims() && r < |w| && e.geo.NeighborAt(r, d)
    requires Received(e, w, d, r, L) && HaloCoordinates(L, e.diagonal, d, v)
    requires w[r].size[d] <= v[d] < w[r].size[d] + e.EffFw(r, d) && AlikeAcross(L, w[e.geo.fw[r][d]], d)
    ensures u == v[d := v[d] - w[r].size[d]] && Read(L, e.diagonal, v) == Read(w[e.geo.fw[r][d]], e.diagonal, u)
  {
    u := v[d := v[d] - w[r].size[d]];
    ForwardValue(e, w, d, r, v, L);
  }

  lemma ForwardOnlyAt(e: Exchange, w: World, d: nat, r: nat, v: IndexArray, L: Local, x: IndexArray)
    requires e.Valid() && !e.periodic && WorldShape(e, w) && d < |v| == e.Dims() && r < |w| && !w[r].Empty()
    requires Received(e, w, d, r, L) && OnlyAt(e, w, d + 1, x) && Wide(e, r, v, d) && v[d] >= w[r].size[d]
    requires HaloCoordinates(L, e.diagonal, d, v) && e.geo.NeighborAt(r, d) && Missing(w[e.geo.fw[r][d]], L, d)
    ensures Read(L, e.diagonal, v) != 0.0 ==> Add(e.geo.offset[r], v) == x
  {
    var q: nat, width := e.geo.fw[r][d], e.EffFw(r, d);
    ReceivedPack(e, w, d, r, L);
    FirstOutIs(v, L.size, d);
    if w[q].Empty() {
      EmptyPack(w[q], d, width, true, e.diagonal, Lin(HaloIndex(L, e.diagonal, v, d), L.fwSize[d]));
    } else {
      var u := ForwardFrom(e, w, d, r, v, L);
      ForwardSourceOnlyAt(e, w, d, r, v, x, u);
    }
  }

  lemma StepOnlyAt(e: Exchange, w: World, d: nat, r: nat, v: IndexArray, x: IndexArray)
    requires e.Valid() && !e.periodic && WorldShape(e, w) && d < |v| == e.Dims() && r < |w| && !w[r].Empty()
    requires (forall q | 0 <= q < |w| :: Bare(w[q])) && OnlyAt(e, ExchangeFrom(e, w, d + 1), d + 1, x) && Wide(e, r, v, d)
    ensures Read(ExchangeFrom(e, w, d)[r], e.diagonal, v) != 0.0 ==> Add(e.geo.offset[r], v) == x
  {
    var before, L := AfterDim(e, w, d, r);
    ShapesAfter(e, w, r, d);
    assert e.geo.NeighborAt(r, d) && e.geo.NeighborAt(e.geo.bw[r][d], d);
    if !Out(v, L.size, d) {
      InsideUnchanged(before[r], L, e.diagonal, d, v);
      assert Wide(e, r, v, d + 1);
    } else {
      WideCoordinates(e, r, v, d, L);
      if v[d] < 0 {
        SenderMisses(e, w, d, r, e.geo.bw[r][d], L);
        BackwardOnlyAt(e, before, d, r, v, L, x);
      } else {
        SenderMisses(e, w, d, r, e.geo.fw[r][d], L);
        ForwardOnlyAt(e, before, d, r, v, L, x);
      }
    }
  }

  lemma {:induction false} ExchangeOnlyAt(e: Exchange, w: World, d: nat, x: IndexArray)
    requires e.Valid() && !e.periodic && WorldShape(e, w) && d <= e.Dims()
    requires InBox(x, e.geo.gsize) && HoldsGrid(e, w, OneHot(e.geo.gsize, x)) && forall q | 0 <= q < |w| :: Bare(w[q])
    ensures OnlyAt(e, ExchangeFrom(e, w, d), d, x)
    decreases e.Dims() - d
  {
    if d == e.Dims() {
      OnlyAtStart(e, w, x);
    } else {
      ExchangeOnlyAt(e, w, d + 1, x);
      var w' := ExchangeFrom(e, w, d);
      forall r: nat, v: IndexArray | r < |w'| && !w'[r].Empty() && |v| == e.Dims() && Wide(e, r, v, d)
        ensures Read(w'[r], e.diagonal, v) != 0.0 ==> Add(e.geo.offset[r], v) == x
      {
        StepOnlyAt(e, w, d, r, v, x);
      }
    }
  }

  // The cell behind index u of the halo of dimension i.
  ghost function CellOfHalo(L: Local, diagonal: bool, u: IndexArray, i: nat, forward: bool): (v: IndexArray)
    requires |u| == |L.size| == |L.bw|
    ensures |v| == |u|
  {
    seq(|u|, j requires 0 <= j < |u| =>
      if j > i && diagonal then u[j] - L.bw[j]
      else if j == i then (if forward then u[i] + L.size[i] else u[i] - L.bw[i]) else u[j])
  }

  lemma HaloIndexOfCell(L: Local, diagonal: bool, i: nat, forward: bool, u: IndexArray)
    requires L.WellFormed(|u|) && Positive(L.size) && i < |u|
    requires InBox(u, HaloShape(L, i, if forward then L.fw[i] else L.bw[i], diagonal))
    ensures var v := CellOfHalo(L, diagonal, u, i, forward);
      FirstOut(v, L.size, 0) == i && HaloIndex(L, diagonal, v, i) == u && (if forward then v[i] >= L.size[i] else v[i] < 0)
  {
    FirstOutIs(CellOfHalo(L, diagonal, u, i, forward), L.size, i);
  }

  lemma CellOfHaloWide(e: Exchange, r: nat, L: Local, i: nat, forward: bool, u: IndexArray)
    requires e.Valid() && e.geo.IsRank(r) && i < e.Dims() && L.WellFormed(e.Dims()) && L.size == e.geo.size[r]
    requires Positive(L.size) && ShapesSet(e, r, L, 0)
    requires InBox(u, HaloShape(L, i, if forward then L.fw[i] else L.bw[i], e.diagonal))
    ensures Wide(e, r, CellOfHalo(L, e.diagonal, u, i, forward), 0)
  {
    var v := CellOfHalo(L, e.diagonal, u, i, forward);
    forall j: nat | j < e.Dims() ensures -e.EffBw(r, j) <= v[j] < L.size[j] + e.EffFw(r, j) {
      assert ShapeSet(e, r, L, j);
    }
  }

  // The cell at a position of a halo of extents shape.
  lemma CellAtPlace(L: Local, diagonal: bool, i: nat, forward: bool, p: int, shape: IndexArray) returns (z: IndexArray)
    requires L.WellFormed(|L.size|) && Positive(L.size) && i < |L.size| && 0 <= p < Volume(shape)
    requires shape == HaloShape(L, i, if forward then L.fw[i] else L.bw[i], diagonal) && NonNegative(shape)
    requires shape == if forward then L.fwSize[i] else L.bwSize[i]
    ensures InBox(Digits(p, shape), shape) && z == CellOfHalo(L, diagonal, Digits(p, shape), i, forward)
    ensures Lin(HaloIndex(L, diagonal, z, i), shape) == p
    ensures Read(L, diagonal, z) == At(if forward then L.haloFw[i] else L.haloBw[i], p)
  {
    LinOfDigits(p, shape);
    z := CellOfHalo(L, diagonal, Digits(p, shape), i, forward);
    HaloIndexOfCell(L, diagonal, i, forward, Digits(p, shape));
  }

  // At any other position of a halo than that of the cell v there is a 0.
  lemma OtherPlaceZero(e: Exchange, w: World, r: nat, i: nat, forward: bool, p: int, v: IndexArray)
    requires e.Valid() && WorldShape(e, w) && r < |w| && i < e.Dims() && !w[r].Empty() && |v| == e.Dims()
    requires Positive(w[r].size) && ShapesSet(e, r, w[r], 0) && LengthSet(w[r], i)
    requires (if forward then w[r].fw[i] else w[r].bw[i]) > 0 && OnlyAt(e, w, 0, Add(e.geo.offset[r], v))
    requires p != Lin(HaloIndex(w[r], e.diagonal, v, i), if forward then w[r].fwSize[i] else w[r].bwSize[i])
    ensures At(if forward then w[r].haloFw[i] else w[r].haloBw[i], p) == 0.0
  {
    var shape := if forward then w[r].fwSize[i] else w[r].bwSize[i];
    assert ShapeSet(e, r, w[r], i);
    HaloPositive(w[r], i, if forward then w[r].fw[i] else w[r].bw[i], e.diagonal);
    if 0 <= p < Volume(shape) {
      var z := CellAtPlace(w[r], e.diagonal, i, forward, p, shape);
      CellOfHaloWide(e, r, w[r], i, forward, Digits(p, shape));
      if Read(w[r], e.diagonal, z) != 0.0 {
        SameShift(e.geo.offset[r], z, v);
      }
    }
  }

  lemma SameShift(offset: IndexArray, z: IndexArray, v: IndexArray)
    requires |offset| == |z| == |v| && Add(offset, z) == Add(offset, v)
    ensures z == v
  {
    forall d | 0 <= d < |z| ensures z[d] == v[d] {
      assert Add(offset, z)[d] == Add(offset, v)[d];
    }
  }

  lemma JoinedUnlessPeriodic(e: Exchange)
    requires e.Valid() && !e.periodic
    ensures e.Joined()
  {
    forall r: nat, d: nat | e.geo.IsRank(r) && d < e.Dims() ensures e.JoinedAt(r, d) {
      assert e.geo.NeighborAt(r, d);
    }
  }

  // With a wrong flag the grid that is 1 just outside the box is misread there.
  lemma WrongFlagMisreads(e: Exchange, r: nat, flag: bool, prev: IndexArray)
    requires e.Valid() && e.geo.IsRank(r) && e.geo.HasCells(r) && !FlagFits(e, r, flag) && InBox(prev, e.geo.gsize)
    ensures !ReaderRight(e, r, flag, false, prev)
  {
    var i: nat, j: nat :| Corner(e, r, i, j);
    assert !e.Sends(r, j);
    JoinedUnlessPeriodic(e);
    CellsPositive(e.geo, r);
    var forward := e.EffFw(r, i) > 0;
    var v := JustOutside(e.geo.size[r], i, forward);
    JustOutsideCovered(e, r, i, forward);
    CoveredInGrid(e, r, v);
    var x := Add(e.geo.offset[r], v);
    assert e.GlobalCell(r, v) == x;
    var g := OneHot(e.geo.gsize, x);
    OneHotAt(e.geo.gsize, x, x);
    var w := StartWorld(e, g, r, flag, false, prev);
    StartWorldStarts(e, g, r, flag, false, prev);
    WrongFlagReads(e, w, r, flag, i, j, v);
    assert !ReadsRight(e, ExchangeFrom(e, w, 0)[r], g, r);
  }

  // With the other layout the cell just outside is looked for elsewhere.
  lemma WrongPlace(e: Exchange, r: nat, L: Local, i: nat, j: nat, v: IndexArray) returns (p: int)
    requires e.Valid() && e.geo.IsRank(r) && L.WellFormed(e.Dims()) && Corner(e, r, i, j) && L.hasDiagonal != e.diagonal
    requires L.size == e.geo.size[r] && Positive(L.size) && ShapeSet(e, r, L, i) && ShapeSet(e, r, L, j)
    requires v == JustOutside(L.size, i, e.EffFw(r, i) > 0) && FirstOut(v, L.size, 0) == i
    ensures var forward := e.EffFw(r, i) > 0;
      && p != Lin(HaloIndex(L, e.diagonal, v, i), if forward then L.fwSize[i] else L.bwSize[i])
      && (if forward then L.fw[i] else L.bw[i]) > 0
      && Read(L, L.hasDiagonal, v) == At(if forward then L.haloFw[i] else L.haloBw[i], p)
  {
    LayoutsDiffer(e, r, L, i, j);
    p := Lin(HaloIndex(L, L.hasDiagonal, v, i), if e.EffFw(r, i) > 0 then L.fwSize[i] else L.bwSize[i]);
  }

  lemma WrongFlagAfter(e: Exchange, w: World, r: nat, flag: bool, i: nat, j: nat) returns (after: World, L: Local)
    requires e.Valid() && WorldShape(e, w) && r < |w| && !w[r].Empty() && !w[r].remote.active && Corner(e, r, i, j)
    requires !FlagFits(e, r, flag) && w[r].hasDiagonal == flag && e.Joined()
    ensures after == ExchangeFrom(e, w, 0) && WorldShape(e, after) && |after| == |w| && L == after[r]
    ensures L.hasDiagonal != e.diagonal && !L.remote.active && L.size == w[r].size
    ensures ShapesSet(e, r, L, 0) && ShapeSet(e, r, L, i) && ShapeSet(e, r, L, j) && LengthSet(L, i)
  {
    after := ExchangeFrom(e, w, 0);
    L := after[r];
    FlagAfter(e, w, r, 0);
    ShapesAfter(e, w, r, 0);
    LengthAfter(e, w, r, 0, i);
    ExchangeKeeps(e, w, 0, r);
    assert ShapeSet(e, r, L, i) && ShapeSet(e, r, L, j);
  }

  lemma WrongFlagReads(e: Exchange, w: World, r: nat, flag: bool, i: nat, j: nat, v: IndexArray)
    requires e.Valid() && !e.periodic && e.Joined() && WorldShape(e, w) && r < |w| && !w[r].Empty() && Positive(w[r].size)
    requires Corner(e, r, i, j) && !FlagFits(e, r, flag) && w[r].hasDiagonal == flag && !w[r].remote.active
    requires v == JustOutside(w[r].size, i, e.EffFw(r, i) > 0) && FirstOut(v, w[r].size, 0) == i
    requires InBox(Add(e.geo.offset[r], v), e.geo.gsize) && HoldsGrid(e, w, OneHot(e.geo.gsize, Add(e.geo.offset[r], v)))
    requires forall q | 0 <= q < |w| :: Bare(w[q])
    ensures ReadAddress(ExchangeFrom(e, w, 0)[r], e.geo.offset[r], Add(e.geo.offset[r], v)) == 0.0
  {
    var after, L := WrongFlagAfter(e, w, r, flag, i, j);
    ExchangeOnlyAt(e, w, 0, Add(e.geo.offset[r], v));
    var p := WrongPlace(e, r, L, i, j, v);
    ReadsLocally(L, e.geo.offset[r], v);
    OtherPlaceZero(e, after, r, i, e.EffFw(r, i) > 0, p, v);
  }
}
