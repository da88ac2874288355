// How wide a halo may be. LoadNeighbor does not compare the widths with the
// partitions (runtime/grid_mpi.cc:994-1009). Two things can go wrong with a
// wide halo: a process packs cells that it does not hold, and a reader does
// not get what it may read.
module HaloWidths {
  import opened MixedRadix
  import opened Subgrid
  import opened Decomposition
  import opened Geometry
  import opened HaloExchange
  import opened HaloFlag

  // -------------------------------------------------- the cells that are sent

  // Cell u of the halo that process r packs lies in its box along d.
  ghost predicate PacksOwn(e: Exchange, L: Local, d: nat, forward: bool, u: IndexArray)
    requires e.Valid() && L.WellFormed(e.Dims()) && d < e.Dims()
  {
    var width := if forward then e.fwWidth[d] else e.bwWidth[d];
    InBox(u, HaloShape(L, d, width, e.diagonal)) ==>
      !Out(Add(PackStart(L, d, width, forward, e.diagonal), u), L.size, d)
  }

  ghost predicate SendsOwn(e: Exchange, L: Local, d: nat, forward: bool)
    requires e.Valid() && L.WellFormed(e.Dims()) && d < e.Dims()
  {
    forall u :: PacksOwn(e, L, d, forward, u)
  }

  // Every cell that a process sends lies in its own box exactly if the process
  // holds at least the width it sends.
  lemma SendsOwnIff(e: Exchange, w: World, r: nat, d: nat, forward: bool)
    requires e.Valid() && WorldShape(e, w) && r < |w| && !w[r].Empty() && d < e.Dims()
    ensures e.FitsAt(r, d, forward) <==> (e.SendsHalo(r, d, forward) ==> SendsOwn(e, w[r], d, forward))
  {
    var L := w[r];
    var width := if forward then e.fwWidth[d] else e.bwWidth[d];
    VolumeSign(L.size);
    if e.SendsHalo(r, d, forward) {
      if width <= L.size[d] {
        forall u ensures PacksOwn(e, L, d, forward, u) {
        }
      } else {
        var u := seq(|L.size|, j => if j == d && forward then width - 1 else 0);
        assert InBox(u, HaloShape(L, d, width, e.diagonal));
        assert !PacksOwn(e, L, d, forward, u);
      }
    }
  }

  // ------------------------------------------------- the cells that are read

  ghost predicate AllReadsRight(e: Exchange)
    requires e.Valid()
  {
    forall w: World, g: seq<Elem> | WorldShape(e, w) && |g| == Volume(e.geo.gsize) && HoldsGrid(e, w, g) ::
      ReadsGlobal(e, ExchangeFrom(e, w, 0), g, 0)
  }

  // After an exchange every process reads the value of the global grid at
  // every index that it may read, whatever the grid, the old halos and the
  // widths, exactly if each neighbour holds what the process may read in it.
  // What a process packs for cells behind its own box is, here, its old halo or
  // 0; the code addresses memory outside of the box. That no such value can be
  // relied upon is what the only-if half says.
  lemma ExchangeRightIff(e: Exchange)
    requires e.Valid()
    ensures AllReadsRight(e) <==> e.Reaches()
  {
    if e.Reaches() {
      forall w: World, g: seq<Elem> | WorldShape(e, w) && |g| == Volume(e.geo.gsize) && HoldsGrid(e, w, g)
        ensures ReadsGlobal(e, ExchangeFrom(e, w, 0), g, 0)
      {
        ExchangeReadsGlobal(e, w, g, 0);
      }
    } else {
      var r: nat, d: nat :| e.geo.IsRank(r) && e.geo.HasCells(r) && d < e.Dims() && !e.ReachesAt(r, d);
      FarMisread(e, r, d);
    }
  }

  // The neighbour along d does not reach as far as r may read.
  ghost predicate Far(e: Exchange, r: nat, d: nat, forward: bool)
    requires e.Valid() && e.geo.IsRank(r) && d < e.Dims()
  {
    && e.geo.NeighborAt(r, d)
    && if forward then e.WantFw(r, d) > e.geo.size[e.geo.fw[r][d]][d] else e.WantBw(r, d) > e.geo.size[e.geo.bw[r][d]][d]
  }

  lemma FarMisread(e: Exchange, r: nat, d: nat)
    requires e.Valid() && e.geo.IsRank(r) && e.geo.HasCells(r) && d < e.Dims() && !e.ReachesAt(r, d)
    ensures !AllReadsRight(e)
  {
    assert e.geo.NeighborAt(r, d);
    var forward := e.WantFw(r, d) > e.geo.size[e.geo.fw[r][d]][d];
    var g, v := Ones(e.geo), Behind(e, r, d, forward);
    var w := PartWorld(e.geo, g, false);
    PartWorldHolds(e, g, false);
    FarCovered(e, r, d, forward);
    CoveredInGrid(e, r, v);
    OneEverywhere(e, r, v);
    PartWorldBare(e.geo, g, false);
    FarRead(e, w, r, d, forward);
    assert !ExchangeFrom(e, w, 0)[r].Empty();
  }

  // A grid of ones.
  ghost function Ones(geo: Geometry): (g: seq<Elem>)
    requires geo.Shape()
    ensures |g| == Volume(geo.gsize) && forall p | 0 <= p < |g| :: g[p] == 1.0
  {
    VolumeSign(geo.gsize);
    seq(Volume(geo.gsize), p => 1.0)
  }

  lemma OneEverywhere(e: Exchange, r: nat, v: IndexArray)
    requires e.Valid() && e.geo.IsRank(r) && |v| == e.Dims() && InBox(e.GlobalCell(r, v), e.geo.gsize)
    ensures e.GlobalAt(Ones(e.geo), r, v) == 1.0
  {
    LinInRange(e.GlobalCell(r, v), e.geo.gsize);
  }

  // The first cell behind the box of the neighbour that does not reach.
  ghost function Behind(e: Exchange, r: nat, d: nat, forward: bool): (v: IndexArray)
    requires e.Valid() && e.geo.IsRank(r) && d < e.Dims() && e.geo.NeighborAt(r, d)
    ensures |v| == e.Dims() && forall j | 0 <= j < |v| && j != d :: v[j] == 0
    ensures v[d] == if forward then e.geo.size[r][d] + e.geo.size[e.geo.fw[r][d]][d] else -1 - e.geo.size[e.geo.bw[r][d]][d]
  {
    seq(e.Dims(), j => if j != d then 0 else if forward then e.geo.size[r][d] + e.geo.size[e.geo.fw[r][d]][d]
                       else -1 - e.geo.size[e.geo.bw[r][d]][d])
  }

  lemma FarCovered(e: Exchange, r: nat, d: nat, forward: bool)
    requires e.Valid() && e.geo.IsRank(r) && e.geo.HasCells(r) && d < e.Dims() && Far(e, r, d, forward)
    ensures Covered(e, r, Behind(e, r, d, forward), 0)
  {
    CellsPositive(e.geo, r);
    var v := Behind(e, r, d, forward);
    assert e.geo.BoxAt(e.geo.fw[r][d], d) && e.geo.BoxAt(e.geo.bw[r][d], d);
    forall j | 0 <= j < |v| ensures -e.WantBw(r, j) <= v[j] < e.geo.size[r][j] + e.WantFw(r, j) {
    }
  }

  // A halo is as before until its dimension is exchanged, and an empty process
  // receives nothing.
  lemma HaloStaysStep(e: Exchange, w: World, d: nat, q: nat, j: nat) returns (before: World, L: Local)
    requires e.Valid() && WorldShape(e, w) && j < d < e.Dims() && q < |w|
    ensures before == ExchangeFrom(e, w, d + 1) && q < |before| && L == ExchangeFrom(e, w, d)[q]
    ensures |L.haloFw| == |L.haloBw| == |before[q].haloFw| == |before[q].haloBw| == e.Dims()
    ensures L.haloFw[j] == before[q].haloFw[j] && L.haloBw[j] == before[q].haloBw[j]
  {
    before, L := AfterDim(e, w, d, q);
  }

  lemma {:induction false} HaloStays(e: Exchange, w: World, d: nat, q: nat, j: nat) returns (L: Local)
    requires e.Valid() && WorldShape(e, w) && j < d <= e.Dims() && q < |w|
    ensures L == ExchangeFrom(e, w, d)[q] && |L.haloFw| == |L.haloBw| == e.Dims()
    ensures L.haloFw[j] == w[q].haloFw[j] && L.haloBw[j] == w[q].haloBw[j]
    decreases e.Dims() - d
  {
    L := w[q];
    if d < e.Dims() {
      var M := HaloStays(e, w, d + 1, q, j);
      var before, after := HaloStaysStep(e, w, d, q, j);
      L := after;
    }
  }

  lemma {:induction false} EmptyStays(e: Exchange, w: World, d: nat, q: nat)
    requires e.Valid() && WorldShape(e, w) && d <= e.Dims() && q < |w| && w[q].Empty()
    ensures ExchangeFrom(e, w, d)[q] == w[q]
    decreases e.Dims() - d
  {
    if d < e.Dims() {
      EmptyStays(e, w, d + 1, q);
      var before, L := AfterDim(e, w, d, q);
    }
  }

  // A state without halos.
  ghost predicate Bare(L: Local)
    requires L.WellFormed(|L.size|)
  {
    (L.Empty() ==> L.data == []) && forall j | 0 <= j < |L.size| :: L.haloFw[j] == [] && L.haloBw[j] == []
  }

  lemma PartWorldBare(geo: Geometry, g: seq<Elem>, flag: bool)
    requires geo.Valid()
    ensures forall q | 0 <= q < |geo.offset| :: Bare(PartWorld(geo, g, flag)[q])
  {
    forall q: nat | q < |geo.offset| ensures Bare(PartLocal(geo, g, flag, q)) {
      CellsPositive(geo, q);
    }
  }

  // What a process has at an index behind its box along d while no halo of
  // dimension d has arrived, and what an empty process has anywhere.
  lemma MissingRead(M: Local, diagonal: bool, d: nat, v: IndexArray)
    requires M.WellFormed(|v|) && d < |v| && M.haloFw[d] == [] && M.haloBw[d] == []
    requires Out(v, M.size, d) && forall j | 0 <= j < d :: !Out(v, M.size, j)
    ensures Read(M, diagonal, v) == 0.0
  {
    FirstOutIs(v, M.size, d);
  }

  lemma EmptyRead(M: Local, diagonal: bool, v: IndexArray)
    requires M.WellFormed(|v|) && M.Empty() && Bare(M)
    ensures Read(M, diagonal, v) == 0.0
  {
  }

  lemma EmptyPack(M: Local, d: nat, width: int, forward: bool, diagonal: bool, p: int)
    requires M.WellFormed(|M.size|) && d < |M.size| && width >= 0 && M.Empty() && Bare(M)
    ensures At(Pack(M, d, width, forward, diagonal), p) == 0.0
  {
    var shape := HaloShape(M, d, width, diagonal);
    PackHasLength(M, d, width, forward, diagonal);
    if 0 <= p < Volume(shape) {
      var u := Add(PackStart(M, d, width, forward, diagonal), Digits(p, shape));
      EmptyRead(M, diagonal, u);
      assert Pack(M, d, width, forward, diagonal)[p] == Read(M, diagonal, u);
    }
  }

  // Later dimensions do not change what is read inside the box of the earlier
  // ones.
  lemma {:induction false} ReadStays(e: Exchange, w: World, d: nat, r: nat, v: IndexArray)
    requires e.Valid() && WorldShape(e, w) && d <= |v| == e.Dims() && r < |w| && !w[r].Empty()
    requires forall j | 0 <= j < d :: !Out(v, w[r].size, j)
    ensures Read(ExchangeFrom(e, w, 0)[r], e.diagonal, v) == Read(ExchangeFrom(e, w, d)[r], e.diagonal, v)
    decreases d
  {
    if d > 0 {
      ReadStays(e, w, d - 1, r, v);
      var before, L := AfterDim(e, w, d - 1, r);
      InsideUnchanged(before[r], L, e.diagonal, d - 1, v);
    }
  }

  // The neighbour M that sends along d to a process in state L has no halo of
  // dimension d yet.
  ghost predicate Missing(M: Local, L: Local, d: nat)
    requires M.WellFormed(|M.size|) && L.WellFormed(|L.size|) && |L.size| == |M.size| && d < |M.size|
  {
    if M.Empty() then Bare(M) else AlikeAcross(L, M, d) && M.haloFw[d] == [] && M.haloBw[d] == []
  }

  lemma SenderMisses(e: Exchange, w: World, d: nat, r: nat, q: nat, L: Local)
    requires e.Valid() && WorldShape(e, w) && d < e.Dims() && r < |w| && q < |w| && !w[r].Empty() && Bare(w[q])
    requires e.geo.SameAcross(r, q, d) && Received(e, ExchangeFrom(e, w, d + 1), d, r, L)
    ensures Missing(ExchangeFrom(e, w, d + 1)[q], L, d)
  {
    var M := HaloStays(e, w, d + 1, q, d);
    if w[q].Empty() {
      EmptyStays(e, w, d + 1, q);
    } else {
      AgreeAfter(e, w, d, r, q, L);
    }
  }

  // The cell behind the neighbour's box does not arrive.
  lemma FarRead(e: Exchange, w: World, r: nat, d: nat, forward: bool)
    requires e.Valid() && WorldShape(e, w) && r < |w| && !w[r].Empty() && d < e.Dims() && Far(e, r, d, forward)
    requires forall q | 0 <= q < |w| :: Bare(w[q])
    ensures Read(ExchangeFrom(e, w, 0)[r], e.diagonal, Behind(e, r, d, forward)) == 0.0
  {
    var before, L := AfterDim(e, w, d, r);
    CellsPositive(e.geo, r);
    ReadStays(e, w, d, r, Behind(e, r, d, forward));
    assert e.geo.NeighborAt(e.geo.bw[r][d], d);
    if forward {
      SenderMisses(e, w, d, r, e.geo.fw[r][d], L);
      FarForward(e, before, r, d, L);
    } else {
      SenderMisses(e, w, d, r, e.geo.bw[r][d], L);
      FarBackward(e, before, r, d, L);
    }
  }

  lemma FarForward(e: Exchange, w: World, r: nat, d: nat, L: Local)
    requires e.Valid() && WorldShape(e, w) && r < |w| && !w[r].Empty() && d < e.Dims() && Far(e, r, d, true)
    requires Received(e, w, d, r, L)
    requires Missing(w[e.geo.fw[r][d]], L, d)
    ensures Read(L, e.diagonal, Behind(e, r, d, true)) == 0.0
  {
    var v, q, width := Behind(e, r, d, true), e.geo.fw[r][d], e.EffFw(r, d);
    ReceivedPack(e, w, d, r, L);
    CellsPositive(e.geo, r);
    CellsPositive(e.geo, q);
    FirstOutIs(v, L.size, d);
    if w[q].Empty() {
      EmptyPack(w[q], d, width, true, e.diagonal, Lin(HaloIndex(L, e.diagonal, v, d), L.fwSize[d]));
    } else {
      WidthsNonNegative(L, e.diagonal, d, v);
      ForwardHaloRead(L, w[q], e.diagonal, d, width, v);
      MissingRead(w[q], e.diagonal, d, v[d := v[d] - L.size[d]]);
    }
  }

  lemma FarBackward(e: Exchange, w: World, r: nat, d: nat, L: Local)
    requires e.Valid() && WorldShape(e, w) && r < |w| && !w[r].Empty() && d < e.Dims() && Far(e, r, d, false)
    requires Received(e, w, d, r, L)
    requires Missing(w[e.geo.bw[r][d]], L, d)
    ensures Read(L, e.diagonal, Behind(e, r, d, false)) == 0.0
  {
    var v, q, width := Behind(e, r, d, false), e.geo.bw[r][d], e.EffBw(r, d);
    ReceivedPack(e, w, d, r, L);
    CellsPositive(e.geo, r);
    CellsPositive(e.geo, q);
    FirstOutIs(v, L.size, d);
    if w[q].Empty() {
      EmptyPack(w[q], d, width, false, e.diagonal, Lin(HaloIndex(L, e.diagonal, v, d), L.bwSize[d]));
    } else {
      WidthsNonNegative(L, e.diagonal, d, v);
      BackwardHaloRead(L, w[q], e.diagonal, d, width, v);
      MissingRead(w[q], e.diagonal, d, v[d := w[q].size[d] + v[d]]);
    }
  }

  lemma WidthsNonNegative(L: Local, diagonal: bool, d: nat, v: IndexArray)
    requires L.WellFormed(|v|) && Positive(L.size) && forall j | 0 <= j < |v| && j != d :: v[j] == 0
    ensures HaloCoordinates(L, diagonal, d, v)
  {
  }

  // ------------------------------------------------------------- examples

  // The extents of a one-dimensional decomposition.
  lemma Extent(n: nat, p: nat, r: nat)
    requires p > 0 && r < p
    ensures Config([n], [p]).Valid() && |Of(Config([n], [p])).size| == p
    ensures var j := Config([n], [p]).ProcIndex(r);
      |j| == 1 && 0 <= j[0] < p && Of(Config([n], [p])).size[r] == [PartSize(n, p, j[0])]
  {
    var c := Config([n], [p]);
    assert c.psize[1..] == [] && c.NumProcs() == p * Volume([]);
    ProcIndexInBox(c, r);
  }

  // Four cells on four processes, periodic, with backward accesses of width 2:
  // the region sent starts before the box, and the reads are wrong.
  lemma TooWide()
    ensures var e := Exchange(Of(Config([4], [4])), [0], [2], false, true);
      e.Valid() && !e.Fits() && !AllReadsRight(e)
  {
    Extent(4, 4, 0);
    var e := Exchange(Of(Config([4], [4])), [0], [2], false, true);
    GeometryOfConfig(Config([4], [4]));
    CellsPositive(e.geo, 0);
    assert !e.FitsAt(0, 0, false);
    assert e.geo.NeighborAt(0, 0);
    Extent(4, 4, e.geo.bw[0][0]);
    FarMisread(e, 0, 0);
  }

  // Five cells on two processes, not periodic, with forward accesses of width
  // 3: wider than the shortest partition, and right.
  lemma WiderThanShortest()
    ensures var e := Exchange(Of(Config([5], [2])), [3], [0], false, false);
      e.Valid() && e.geo.minPartition[0] == 2 && e.Fits() && AllReadsRight(e)
  {
    var c := Config([5], [2]);
    var e := Exchange(Of(c), [3], [0], false, false);
    GeometryOfConfig(c);
    forall r: nat, d: nat, forward | e.geo.IsRank(r) && e.geo.HasCells(r) && d < e.Dims() ensures e.FitsAt(r, d, forward) {
      Extent(5, 2, r);
    }
    forall r: nat, d: nat | e.geo.IsRank(r) && d < e.Dims() ensures e.JoinedAt(r, d) {
      assert e.geo.NeighborAt(r, d);
    }
    FitsReaches(e);
    ExchangeRightIff(e);
  }
}
