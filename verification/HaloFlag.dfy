// The flag halo_has_diagonal_ that the address computation consults. It is
// written only where a halo is packed for sending, so a process that receives
// halos but sends none keeps an old value.
module HaloFlag {
  import opened MixedRadix
  import opened Subgrid
  import opened Geometry
  import opened HaloExchange

  ghost predicate SendsFrom(e: Exchange, r: nat, d: nat)
    requires e.Valid() && e.geo.IsRank(r) && d <= e.Dims()
  {
    exists j: nat :: d <= j < e.Dims() && e.Sends(r, j)
  }

  // The flag after the exchange of dimensions d and later.
  lemma {:induction false} FlagAfter(e: Exchange, w: World, r: nat, d: nat)
    requires e.Valid() && WorldShape(e, w) && r < |w| && !w[r].Empty() && d <= e.Dims()
    ensures ExchangeFrom(e, w, d)[r].hasDiagonal
         == if SendsFrom(e, r, d) then e.diagonal else w[r].hasDiagonal
    decreases e.Dims() - d
  {
    if d < e.Dims() {
      FlagAfter(e, w, r, d + 1);
      SendsStep(e, r, d);
      var before, L := AfterDim(e, w, d, r);
    }
  }

  lemma SendsStep(e: Exchange, r: nat, d: nat)
    requires e.Valid() && e.geo.IsRank(r) && d < e.Dims()
    ensures SendsFrom(e, r, d) <==> e.Sends(r, d) || SendsFrom(e, r, d + 1)
  {
    if SendsFrom(e, r, d) && !e.Sends(r, d) {
      var j: nat :| d <= j < e.Dims() && e.Sends(r, j);
      assert d + 1 <= j;
    }
    if e.Sends(r, d) {
      assert SendsFrom(e, r, d);
    }
    if SendsFrom(e, r, d + 1) {
      var j: nat :| d + 1 <= j < e.Dims() && e.Sends(r, j);
      assert SendsFrom(e, r, d);
    }
  }

  // Extents of the halos received in dimensions d and later.
  ghost predicate ShapesSet(e: Exchange, r: nat, L: Local, d: nat)
    requires e.Valid() && e.geo.IsRank(r) && L.WellFormed(e.Dims())
  {
    forall j: nat | d <= j < e.Dims() :: ShapeSet(e, r, L, j)
  }

  ghost predicate ShapeSet(e: Exchange, r: nat, L: Local, j: nat)
    requires e.Valid() && e.geo.IsRank(r) && L.WellFormed(e.Dims()) && j < e.Dims()
  {
    && L.bw[j] == e.EffBw(r, j) && L.fw[j] == e.EffFw(r, j)
    && (L.bw[j] > 0 ==> L.bwSize[j] == HaloShape(L, j, L.bw[j], e.diagonal))
    && (L.fw[j] > 0 ==> L.fwSize[j] == HaloShape(L, j, L.fw[j], e.diagonal))
  }

  // Receiving dimension d leaves the shapes of the later ones in place.
  lemma ShapeKept(e: Exchange, r: nat, L: Local, M: Local, d: nat, j: nat)
    requires e.Valid() && e.geo.IsRank(r) && L.WellFormed(e.Dims()) && M.WellFormed(e.Dims())
    requires SameExcept(L, M, d) && d < j < e.Dims() && ShapeSet(e, r, L, j)
    ensures ShapeSet(e, r, M, j)
  {
    assert HaloShape(L, j, L.bw[j], e.diagonal) == HaloShape(M, j, M.bw[j], e.diagonal);
    assert HaloShape(L, j, L.fw[j], e.diagonal) == HaloShape(M, j, M.fw[j], e.diagonal);
  }

  lemma {:induction false} ShapesAfter(e: Exchange, w: World, r: nat, d: nat)
    requires e.Valid() && WorldShape(e, w) && r < |w| && !w[r].Empty() && d <= e.Dims()
    ensures ShapesSet(e, r, ExchangeFrom(e, w, d)[r], d) && ExchangeFrom(e, w, d)[r].size == w[r].size
    decreases e.Dims() - d
  {
    if d < e.Dims() {
      ShapesAfter(e, w, r, d + 1);
      var before, M := AfterDim(e, w, d, r);
      forall j: nat | d <= j < e.Dims() ensures ShapeSet(e, r, M, j) {
        if j > d {
          ShapeKept(e, r, before[r], M, d, j);
        }
      }
    }
  }

  // Two coordinates i < j such that a halo of dimension i was received and a
  // backward halo of dimension j: only then the flag changes an address.
  ghost predicate Corner(e: Exchange, r: nat, i: nat, j: nat)
    requires e.Valid() && e.geo.IsRank(r)
  {
    i < j < e.Dims() && (e.EffFw(r, i) > 0 || e.EffBw(r, i) > 0) && e.EffBw(r, j) > 0
  }

  ghost predicate NeedsFlag(e: Exchange, r: nat)
    requires e.Valid() && e.geo.IsRank(r)
  {
    exists i: nat, j: nat :: Corner(e, r, i, j)
  }

  // The reader on process r may rely on its flag after an exchange that it
  // enters with the given flag.
  ghost predicate FlagFits(e: Exchange, r: nat, flag: bool)
    requires e.Valid() && e.geo.IsRank(r)
  {
    SendsFrom(e, r, 0) || flag == e.diagonal || !NeedsFlag(e, r)
  }

  ghost predicate FlagOk(e: Exchange, w: World, r: nat)
    requires e.Valid() && WorldShape(e, w) && r < |w|
  {
    FlagFits(e, r, w[r].hasDiagonal)
  }

  // Without a backward halo in a later dimension the flag changes nothing.
  lemma FlagIrrelevant(e: Exchange, r: nat, L: Local, v: IndexArray, flag: bool)
    requires e.Valid() && e.geo.IsRank(r) && L.WellFormed(e.Dims()) && ShapesSet(e, r, L, 0)
    requires |v| == e.Dims() && L.size == e.geo.size[r] && Covered(e, r, v, 0) && !NeedsFlag(e, r)
    ensures Locate(L, flag, v) == Locate(L, e.diagonal, v)
  {
    var i := FirstOut(v, L.size, 0);
    if i < |v| {
      assert -e.EffBw(r, i) <= v[i] < L.size[i] + e.EffFw(r, i);
      forall j: nat | i < j < |v| ensures L.bw[j] == 0 {
        assert !Corner(e, r, i, j);
        assert ShapeSet(e, r, L, j);
      }
      assert HaloIndex(L, flag, v, i) == HaloIndex(L, e.diagonal, v, i);
    }
  }

  // A position moves if some coordinate moves up and none moves down.
  lemma {:induction false} LinGrows(u: IndexArray, v: IndexArray, size: IndexArray, j: nat)
    requires |u| == |v| == |size| && j < |u| && Positive(size) && u[j] < v[j]
    requires forall d | 0 <= d < |u| :: u[d] <= v[d]
    ensures Lin(u, size) < Lin(v, size)
  {
    if j == 0 {
      LinAtMost(u[1..], v[1..], size[1..]);
      MulMonotone(size[0], Lin(u[1..], size[1..]), Lin(v[1..], size[1..]));
    } else {
      LinGrows(u[1..], v[1..], size[1..], j - 1);
      MulMonotone(size[0], Lin(u[1..], size[1..]) + 1, Lin(v[1..], size[1..]));
    }
  }

  lemma {:induction false} LinAtMost(u: IndexArray, v: IndexArray, size: IndexArray)
    requires |u| == |v| == |size| && Positive(size) && forall d | 0 <= d < |u| :: u[d] <= v[d]
    ensures Lin(u, size) <= Lin(v, size)
  {
    if |u| > 0 {
      LinAtMost(u[1..], v[1..], size[1..]);
      MulMonotone(size[0], Lin(u[1..], size[1..]), Lin(v[1..], size[1..]));
    }
  }

  // The cell just outside the box in dimension i.
  function JustOutside(size: IndexArray, i: nat, forward: bool): (v: IndexArray)
    requires i < |size|
    ensures |v| == |size| && forall d | 0 <= d < |v| :: v[d] == if d == i then (if forward then size[i] else -1) else 0
  {
    seq(|size|, d requires 0 <= d < |size| => if d == i then (if forward then size[i] else -1) else 0)
  }

  lemma JustOutsideCovered(e: Exchange, r: nat, i: nat, forward: bool)
    requires e.Valid() && e.geo.IsRank(r) && i < e.Dims() && Positive(e.geo.size[r])
    requires if forward then e.EffFw(r, i) > 0 else e.EffBw(r, i) > 0
    ensures Covered(e, r, JustOutside(e.geo.size[r], i, forward), 0)
    ensures FirstOut(JustOutside(e.geo.size[r], i, forward), e.geo.size[r], 0) == i
  {
    var v := JustOutside(e.geo.size[r], i, forward);
    FirstOutIs(v, e.geo.size[r], i);
    assert e.geo.BoxAt(r, i);
    forall j | 0 <= j < |v| ensures -e.WantBw(r, j) <= v[j] < e.geo.size[r][j] + e.WantFw(r, j) {
      assert j != i ==> v[j] == 0;
    }
  }

  lemma HaloPositive(L: Local, d: nat, width: int, diagonal: bool)
    requires L.WellFormed(|L.size|) && d < |L.size| && Positive(L.size) && width > 0
    ensures Positive(HaloShape(L, d, width, diagonal))
  {
  }

  // With a corner the two layouts put the cell next to the box at different
  // positions.
  lemma LayoutsDiffer(e: Exchange, r: nat, L: Local, i: nat, j: nat)
    requires e.Valid() && e.geo.IsRank(r) && L.WellFormed(e.Dims()) && Corner(e, r, i, j)
    requires L.size == e.geo.size[r] && Positive(L.size) && ShapeSet(e, r, L, i) && ShapeSet(e, r, L, j)
    ensures var v := JustOutside(L.size, i, e.EffFw(r, i) > 0);
      Covered(e, r, v, 0) && Locate(L, true, v) != Locate(L, false, v)
  {
    var forward := e.EffFw(r, i) > 0;
    var v := JustOutside(L.size, i, forward);
    JustOutsideCovered(e, r, i, forward);
    var shape := if forward then L.fwSize[i] else L.bwSize[i];
    HaloPositive(L, i, if forward then L.fw[i] else L.bw[i], e.diagonal);
    LinGrows(HaloIndex(L, false, v, i), HaloIndex(L, true, v, i), shape, j);
  }

  // The reader finds every covered cell exactly if the process sent a halo,
  // or its flag happened to be right, or it received no corner.
  lemma FlagExact(e: Exchange, w: World, r: nat)
    requires e.Valid() && WorldShape(e, w) && r < |w| && !w[r].Empty()
    ensures var L := ExchangeFrom(e, w, 0)[r];
      FlagOk(e, w, r) <==> forall v: IndexArray | |v| == e.Dims() && Covered(e, r, v, 0) ::
        Locate(L, L.hasDiagonal, v) == Locate(L, e.diagonal, v)
  {
    var L := ExchangeFrom(e, w, 0)[r];
    FlagAfter(e, w, r, 0);
    ShapesAfter(e, w, r, 0);
    VolumeSign(L.size);
    if FlagOk(e, w, r) {
      forall v: IndexArray | |v| == e.Dims() && Covered(e, r, v, 0)
        ensures Locate(L, L.hasDiagonal, v) == Locate(L, e.diagonal, v)
      {
        if L.hasDiagonal != e.diagonal {
          FlagIrrelevant(e, r, L, v, L.hasDiagonal);
        }
      }
    } else {
      var i: nat, j: nat :| Corner(e, r, i, j);
      assert ShapeSet(e, r, L, i) && ShapeSet(e, r, L, j);
      LayoutsDiffer(e, r, L, i, j);
    }
  }

  // The halos, read with the process's own flag.
  lemma PlacesAgree(e: Exchange, w: World, r: nat, v: IndexArray) returns (L: Local)
    requires e.Valid() && WorldShape(e, w) && r < |w| && !w[r].Empty() && FlagOk(e, w, r)
    requires |v| == e.Dims() && Covered(e, r, v, 0)
    ensures L == ExchangeFrom(e, w, 0)[r] && Read(L, L.hasDiagonal, v) == Read(L, e.diagonal, v)
  {
    L := ExchangeFrom(e, w, 0)[r];
    FlagExact(e, w, r);
    assert Locate(L, L.hasDiagonal, v) == Locate(L, e.diagonal, v);
  }

  lemma LayoutReads(e: Exchange, w: World, g: seq<Elem>, r: nat, v: IndexArray) returns (L: Local)
    requires e.Valid() && WorldShape(e, w) && HoldsGrid(e, w, g) && r < |w| && !w[r].Empty()
    requires e.Reaches() && FlagOk(e, w, r) && |v| == e.Dims() && Covered(e, r, v, 0)
    ensures L == ExchangeFrom(e, w, 0)[r] && Read(L, L.hasDiagonal, v) == e.GlobalAt(g, r, v)
  {
    L := PlacesAgree(e, w, r, v);
    ExchangeReadsGlobal(e, w, g, 0);
    assert Read(L, e.diagonal, v) == e.GlobalAt(g, r, v);
  }

  // After the exchange of all dimensions the reader returns, at every covered
  // index of a process whose flag is in order and whose remote grid is not
  // active, the value of the global grid.
  lemma HaloReads(e: Exchange, w: World, g: seq<Elem>, r: nat, v: IndexArray)
    requires e.Valid() && WorldShape(e, w) && HoldsGrid(e, w, g) && r < |w| && !w[r].Empty()
    requires e.Reaches() && FlagOk(e, w, r) && !w[r].remote.active && |v| == e.Dims() && Covered(e, r, v, 0)
    ensures ReadAddress(ExchangeFrom(e, w, 0)[r], e.geo.offset[r], Add(e.geo.offset[r], v)) == e.GlobalAt(g, r, v)
  {
    var L := LayoutReads(e, w, g, r, v);
    ExchangeKeeps(e, w, 0, r);
    ReadsLocally(L, e.geo.offset[r], v);
  }

  // A caller can make sure of it: periodic access, or widths that are in each
  // dimension both zero or both positive.
  ghost predicate Balanced(e: Exchange)
    requires e.Valid()
  {
    e.periodic || forall d | 0 <= d < e.Dims() :: e.fwWidth[d] > 0 <==> e.bwWidth[d] > 0
  }

  lemma BalancedFlag(e: Exchange, w: World, r: nat)
    requires e.Valid() && WorldShape(e, w) && r < |w| && Balanced(e)
    ensures FlagOk(e, w, r)
  {
    if NeedsFlag(e, r) {
      var i: nat, j: nat :| Corner(e, r, i, j);
      assert e.Sends(r, j);
    }
  }

  // A process that receives a corner and sends nothing.
  lemma UnsentMisplaced(e: Exchange, w: World, r: nat, i: nat, j: nat) returns (v: IndexArray)
    requires e.Valid() && WorldShape(e, w) && r < |w| && Positive(w[r].size) && Corner(e, r, i, j)
    requires e.diagonal && !w[r].hasDiagonal && !SendsFrom(e, r, 0)
    ensures |v| == e.Dims() && Covered(e, r, v, 0)
    ensures var L := ExchangeFrom(e, w, 0)[r]; Locate(L, L.hasDiagonal, v) != Locate(L, e.diagonal, v)
  {
    CellsPositive(e.geo, r);
    FlagAfter(e, w, r, 0);
    ShapesAfter(e, w, r, 0);
    var L := ExchangeFrom(e, w, 0)[r];
    assert ShapeSet(e, r, L, i) && ShapeSet(e, r, L, j);
    LayoutsDiffer(e, r, L, i, j);
    v := JustOutside(L.size, i, e.EffFw(r, i) > 0);
  }

  // A stencil with backward accesses only, on a process at the end of a
  // non-periodic grid: the process receives halos and sends none, so a flag
  // that was never set stays false, and a cell is looked for in the wrong
  // place.
  lemma BackwardOnly(e: Exchange, w: World, r: nat) returns (v: IndexArray)
    requires e.Valid() && WorldShape(e, w) && r < |w| && e.Dims() >= 2
    requires e.diagonal && !e.periodic && !w[r].hasDiagonal
    requires forall d | 0 <= d < e.Dims() ::
      e.fwWidth[d] == 0 && e.bwWidth[d] > 0
      && e.geo.offset[r][d] > 0 && e.geo.offset[r][d] + e.geo.size[r][d] == e.geo.gsize[d]
    ensures |v| == e.Dims() && Covered(e, r, v, 0)
    ensures var L := ExchangeFrom(e, w, 0)[r]; Locate(L, L.hasDiagonal, v) != Locate(L, e.diagonal, v)
  {
    assert Corner(e, r, 0, 1);
    forall d | 0 <= d < e.Dims() ensures e.geo.size[r][d] > 0 {
      assert e.geo.BoxAt(r, d);
    }
    forall d | 0 <= d < e.Dims() ensures !e.Sends(r, d) {
      assert e.fwWidth[d] == 0;
    }
    assert !SendsFrom(e, r, 0);
    v := UnsentMisplaced(e, w, r, 0, 1);
  }

  // ------------------------------------------------- lengths of the buffers

  ghost predicate LengthSet(L: Local, j: nat)
    requires L.WellFormed(|L.size|) && j < |L.size|
  {
    && (L.bw[j] > 0 ==> |L.haloBw[j]| == Volume(L.bwSize[j]))
    && (L.fw[j] > 0 ==> |L.haloFw[j]| == Volume(L.fwSize[j]))
  }

  lemma SentShape(L: Local, M: Local, d: nat, width: int, diagonal: bool)
    requires L.WellFormed(|L.size|) && M.WellFormed(|L.size|) && AlikeAcross(L, M, d) && d < |L.size|
    ensures HaloShape(L, d, width, diagonal) == HaloShape(M, d, width, diagonal)
  {
  }

  // The receiver and a neighbour along d agree on what matters to the halo.
  lemma AgreeAfter(e: Exchange, w: World, d: nat, r: nat, q: nat, M: Local)
    requires e.Valid() && WorldShape(e, w) && d < e.Dims() && r < |w| && q < |w| && !w[r].Empty() && !w[q].Empty()
    requires e.geo.SameAcross(r, q, d) && M.WellFormed(e.Dims())
    requires SameExcept(ExchangeFrom(e, w, d + 1)[r], M, d)
    ensures AlikeAcross(M, ExchangeFrom(e, w, d + 1)[q], d)
  {
    var before := ExchangeFrom(e, w, d + 1);
    ShapesAfter(e, w, r, d + 1);
    ShapesAfter(e, w, q, d + 1);
    forall j: nat | d < j < e.Dims()
      ensures M.bw[j] == before[q].bw[j] && M.fw[j] == before[q].fw[j]
    {
      assert ShapeSet(e, r, before[r], j) && ShapeSet(e, q, before[q], j);
    }
  }

  // What arrives has the length that the receiver computed.
  lemma ReceivedLength(e: Exchange, w: World, d: nat, r: nat, M: Local)
    requires e.Valid() && e.Joined() && WorldShape(e, w) && d < e.Dims() && r < |w| && !w[r].Empty()
    requires Received(e, ExchangeFrom(e, w, d + 1), d, r, M)
    ensures LengthSet(M, d)
  {
    var before := ExchangeFrom(e, w, d + 1);
    ReceivedPack(e, before, d, r, M);
    SenderHasCells(e, r, d);
    var q, z := e.geo.bw[r][d], e.geo.fw[r][d];
    assert e.geo.NeighborAt(q, d);
    if M.bw[d] > 0 {
      AgreeAfter(e, w, d, r, q, M);
      SentShape(M, before[q], d, M.bw[d], e.diagonal);
      PackHasLength(before[q], d, M.bw[d], false, e.diagonal);
    }
    if M.fw[d] > 0 {
      AgreeAfter(e, w, d, r, z, M);
      SentShape(M, before[z], d, M.fw[d], e.diagonal);
      PackHasLength(before[z], d, M.fw[d], true, e.diagonal);
    }
  }

  lemma PackHasLength(L: Local, d: nat, width: nat, forward: bool, diagonal: bool)
    requires L.WellFormed(|L.size|) && d < |L.size|
    ensures |Pack(L, d, width, forward, diagonal)| == Volume(HaloShape(L, d, width, diagonal))
  {
    VolumeSign(HaloShape(L, d, width, diagonal));
  }

  lemma LengthKept(L: Local, M: Local, d: nat, j: nat)
    requires L.WellFormed(|L.size|) && M.WellFormed(|L.size|) && SameExcept(L, M, d)
    requires j < |L.size| && j != d && LengthSet(L, j)
    ensures LengthSet(M, j)
  {
  }

  lemma {:induction false} LengthAfter(e: Exchange, w: World, r: nat, d: nat, j: nat)
    requires e.Valid() && e.Joined() && WorldShape(e, w) && r < |w| && !w[r].Empty() && d <= j < e.Dims()
    ensures LengthSet(ExchangeFrom(e, w, d)[r], j)
    decreases e.Dims() - d
  {
    var before := ExchangeFrom(e, w, d + 1);
    ShapesAfter(e, w, r, d + 1);
    ReceiveHolds(e, before, d, r);
    var M := Receive(e, before, d, r);
    if d < j {
      LengthAfter(e, w, r, d + 1, j);
      LengthKept(before[r], M, d, j);
    } else {
      ReceivedLength(e, w, d, r, M);
    }
  }
}
