// From offsets to halo widths: the arithmetic of LoadNeighbor in
// runtime/grid_mpi.cc on the offsets that a StencilRange derived.
module LoadNeighbor {
  import opened MixedRadix
  import opened Geometry
  import opened HaloExchange
  import opened HaloFlag
  import opened HaloWidths
  import opened Refinement
  import opened StencilRange

  function BwWidth(offsetMin: int): int { if offsetMin <= 0 then -offsetMin else 0 }

  function FwWidth(offsetMax: int): int { if offsetMax >= 0 then offsetMax else 0 }

  method NeighborWidths(offsetMin: seq<int>, offsetMax: seq<int>) returns (fw: IndexArray, bw: IndexArray)
    requires |offsetMin| == |offsetMax|
    ensures |fw| == |bw| == |offsetMin|
    ensures forall i | 0 <= i < |fw| :: fw[i] == FwWidth(offsetMax[i]) && bw[i] == BwWidth(offsetMin[i])
  {
    fw, bw := [], [];
    for i := 0 to |offsetMin|
      invariant |fw| == |bw| == i
      invariant forall j | 0 <= j < i :: fw[j] == FwWidth(offsetMax[j]) && bw[j] == BwWidth(offsetMin[j])
    {
      bw := bw + [if offsetMin[i] <= 0 then Abs(offsetMin[i]) else 0];
      fw := fw + [if offsetMax[i] >= 0 then offsetMax[i] else 0];
    }
  }

  // The widths cover all offsets between the two, and are the smallest that do.
  lemma WidthsAreLeast(offsetMin: int, offsetMax: int, bw: int, fw: int)
    requires offsetMin <= offsetMax && bw >= 0 && fw >= 0
    ensures (BwWidth(offsetMin) <= bw && FwWidth(offsetMax) <= fw)
       <==> forall o | offsetMin <= o <= offsetMax :: InWidths(o, bw, fw)
  {
    if forall o | offsetMin <= o <= offsetMax :: InWidths(o, bw, fw) {
      assert InWidths(offsetMin, bw, fw) && InWidths(offsetMax, bw, fw);
    }
  }

  ghost predicate InWidths(o: int, bw: int, fw: int) { -bw <= o <= fw }

  // The test whether the exchange of halos can be used.
  predicate Overlaps(offsetMin: int, offsetMax: int, minPartition: int) {
    offsetMax + minPartition >= 0 || offsetMin <= minPartition
  }

  method Overlap(offsetMin: seq<int>, offsetMax: seq<int>, minPartition: seq<int>) returns (overlap: bool)
    requires |offsetMin| == |offsetMax| == |minPartition|
    ensures overlap <==> forall i | 0 <= i < |offsetMin| :: Overlaps(offsetMin[i], offsetMax[i], minPartition[i])
  {
    overlap := true;
    for i := 0 to |offsetMin|
      invariant overlap && forall j | 0 <= j < i :: Overlaps(offsetMin[j], offsetMax[j], minPartition[j])
    {
      if !Overlaps(offsetMin[i], offsetMax[i], minPartition[i]) {
        overlap := false;
        return;
      }
    }
  }

  // The test never fails: the branch that would load a subgrid is dead.
  lemma AlwaysOverlaps(offsetMin: int, offsetMax: int, minPartition: int)
    requires offsetMin <= offsetMax && minPartition >= 0
    ensures Overlaps(offsetMin, offsetMax, minPartition)
  {
  }

  // Process r sends no more than it holds along d in the exchange that
  // LoadNeighbor asks for.
  ghost predicate OffsetsFit(geo: Geometry, offsetMin: seq<int>, offsetMax: seq<int>, periodic: bool, r: nat, d: nat)
    requires geo.Shape() && geo.IsRank(r) && d < |offsetMin| == |offsetMax| == |geo.gsize|
  {
    && (periodic || geo.offset[r][d] > 0 ==> offsetMax[d] <= geo.size[r][d])
    && (periodic || geo.offset[r][d] + geo.size[r][d] < geo.gsize[d] ==> -offsetMin[d] <= geo.size[r][d])
  }

  // The exchange that LoadNeighbor asks for sends no cell from outside of its
  // sender's box, in whatever state the processes are, exactly if no offset
  // towards a neighbour reaches farther than the neighbour's box is long. The
  // test of LoadNeighbor does not say so.
  lemma ExchangeFits(geo: Geometry, offsetMin: seq<int>, offsetMax: seq<int>, diagonal: bool, periodic: bool,
                     fw: IndexArray, bw: IndexArray, w: World)
    requires geo.Valid() && |offsetMin| == |offsetMax| == |fw| == |bw| == |geo.gsize|
    requires forall i | 0 <= i < |fw| :: fw[i] == FwWidth(offsetMax[i]) && bw[i] == BwWidth(offsetMin[i])
    requires WorldShape(Exchange(geo, fw, bw, diagonal, periodic), w)
    ensures var e := Exchange(geo, fw, bw, diagonal, periodic);
      && e.Valid()
      && ((forall r: nat, d: nat | geo.IsRank(r) && geo.HasCells(r) && d < |fw| ::
             OffsetsFit(geo, offsetMin, offsetMax, periodic, r, d))
          <==> forall r: nat, d: nat, forward | geo.IsRank(r) && geo.HasCells(r) && d < |fw| && e.SendsHalo(r, d, forward) ::
             SendsOwn(e, w[r], d, forward))
  {
    var e := Exchange(geo, fw, bw, diagonal, periodic);
    forall r: nat, d: nat | geo.IsRank(r) && geo.HasCells(r) && d < |fw|
      ensures OffsetsFit(geo, offsetMin, offsetMax, periodic, r, d)
         <==> (e.SendsHalo(r, d, true) ==> SendsOwn(e, w[r], d, true)) && (e.SendsHalo(r, d, false) ==> SendsOwn(e, w[r], d, false))
    {
      CellsPositive(geo, r);
      SendsOwnIff(e, w, r, d, true);
      SendsOwnIff(e, w, r, d, false);
    }
  }

  function Offsets(list: StencilIndexList): (s: IndexArray)
    ensures |s| == |list| && forall i | 0 <= i < |s| :: s[i] == list[i].offset
  {
    seq(|list|, i requires 0 <= i < |list| => list[i].offset)
  }

  // Every read that went into a range is within the widths derived from it,
  // and unless the range is diagonal it leaves its point in one dimension only.
  lemma RangeCovers(lists: seq<StencilIndexList>, lo: seq<int>, hi: seq<int>, list: StencilIndexList)
    requires |lo| == |hi| == |list| && ExactRange(lists, lo, hi) && list in lists
    ensures forall i | 0 <= i < |list| :: -BwWidth(lo[i]) <= Offsets(list)[i] <= FwWidth(hi[i])
    ensures !Diagonal(lists) ==>
      forall i, j | 0 <= i < j < |list| :: Offsets(list)[i] == 0 || Offsets(list)[j] == 0
  {
    forall i | 0 <= i < |list| ensures -BwWidth(lo[i]) <= Offsets(list)[i] <= FwWidth(hi[i]) {
      assert ExactAt(lists, i, lo[i], hi[i]);
    }
    NonZeroIsDiagonal(list);
  }

  // A kernel whose reads went into the ranges of its grids can be run, as far
  // as widths and diagonal points are concerned.
  lemma StencilReads(geo: Geometry, st: Stencil, x: IndexArray, grid: nat, list: StencilIndexList,
                     lists: seq<StencilIndexList>, lo: seq<int>, hi: seq<int>)
    requires grid in st.params && grid != st.target && |x| == |geo.gsize| == |list| == |lo| == |hi|
    requires ExactRange(lists, lo, hi) && list in lists
    requires var r := st.ranges(grid);
      && |r.fwWidth| == |r.bwWidth| == |list| && r.diagonal == Diagonal(lists)
      && (forall i | 0 <= i < |list| :: r.fwWidth[i] == FwWidth(hi[i]) && r.bwWidth[i] == BwWidth(lo[i]))
      && (r.periodic || InBox(Add(x, Offsets(list)), geo.gsize))
    ensures AccessOk(geo, st, x, Access(grid, Offsets(list)))
  {
    RangeCovers(lists, lo, hi, list);
  }
}
