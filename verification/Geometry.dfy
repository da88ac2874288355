// The decomposition as the processes see it: every process knows its own
// offset and size and the ranks of its neighbours (fields my_offset_,
// my_size_, fw_neighbors_ and bw_neighbors_ of GridSpaceMPI).
module Geometry {
  import opened MixedRadix
  import opened Decomposition

  datatype Geometry = Geometry(
    gsize: IndexArray,
    offset: seq<IndexArray>, size: seq<IndexArray>,
    fw: seq<seq<int>>, bw: seq<seq<int>>,
    minPartition: IndexArray)
  {
    ghost predicate Shape() {
      && |gsize| > 0 && |minPartition| == |gsize| && NonNegative(gsize)
      && |offset| == |size| == |fw| == |bw|
      && forall r | 0 <= r < |offset| ::
          |offset[r]| == |size[r]| == |fw[r]| == |bw[r]| == |gsize|
    }

    ghost predicate IsRank(r: int) { 0 <= r < |offset| }

    ghost predicate HasCells(r: int)
      requires Shape() && IsRank(r)
    {
      Volume(size[r]) != 0
    }

    // Every box is inside the grid and at least as long as the shortest one.
    // Empty boxes come first: the longer ones are the last.
    ghost predicate BoxAt(r: int, d: int)
      requires Shape() && IsRank(r) && 0 <= d < |gsize|
    {
      && 0 <= offset[r][d] && 0 <= minPartition[d] <= size[r][d]
      && offset[r][d] + size[r][d] <= gsize[d]
      && (size[r][d] == 0 ==> offset[r][d] == 0)
    }

    // The forward neighbour q of r along d continues r's box, or starts again
    // at 0 behind the last box; r is the backward neighbour of q, and the two
    // boxes agree in the other dimensions.
    ghost predicate NeighborAt(r: int, d: int)
      requires Shape() && IsRank(r) && 0 <= d < |gsize|
    {
      && IsRank(fw[r][d]) && IsRank(bw[r][d])
      && bw[fw[r][d]][d] == r && fw[bw[r][d]][d] == r
      && SameAcross(r, fw[r][d], d)
      && offset[fw[r][d]][d]
         == if offset[r][d] + size[r][d] < gsize[d] then offset[r][d] + size[r][d] else 0
    }

    ghost predicate SameAcross(r: int, q: int, d: int)
      requires Shape() && IsRank(r) && IsRank(q)
    {
      forall j | 0 <= j < |gsize| && j != d :: offset[q][j] == offset[r][j] && size[q][j] == size[r][j]
    }

    ghost predicate Holds(r: int, v: IndexArray)
      requires Shape() && IsRank(r) && |v| == |gsize|
    {
      InBox(Sub(v, offset[r]), size[r])
    }

    ghost predicate Valid() {
      && Shape()
      && (forall r, d | 0 <= r < |offset| && 0 <= d < |gsize| :: BoxAt(r, d))
      && (forall r, d | 0 <= r < |offset| && 0 <= d < |gsize| :: NeighborAt(r, d))
    }

    // Every cell of the grid is in the box of exactly one process.
    ghost predicate Tiles()
      requires Shape()
    {
      && (forall v | InBox(v, gsize) :: exists r :: IsRank(r) && Holds(r, v))
      && (forall v, r, q | InBox(v, gsize) && IsRank(r) && IsRank(q) && Holds(r, v) && Holds(q, v) :: r == q)
    }
  }

  ghost function FwRanks(c: Config, r: int): (s: seq<int>)
    requires c.Valid()
    ensures |s| == |c.gsize| && forall d | 0 <= d < |s| :: s[d] == FwRank(c, r, d)
  {
    seq(|c.gsize|, d requires 0 <= d < |c.gsize| => FwRank(c, r, d))
  }

  ghost function BwRanks(c: Config, r: int): (s: seq<int>)
    requires c.Valid()
    ensures |s| == |c.gsize| && forall d | 0 <= d < |s| :: s[d] == BwRank(c, r, d)
  {
    seq(|c.gsize|, d requires 0 <= d < |c.gsize| => BwRank(c, r, d))
  }

  lemma ProcIndexInBox(c: Config, r: int)
    requires c.Valid() && c.IsRank(r)
    ensures InBox(c.ProcIndex(r), c.psize)
  {
    RankBijection(c, r, c.ProcIndex(r));
  }

  // What all processes together know about a configuration.
  ghost function Of(c: Config): (g: Geometry)
    requires c.Valid()
    ensures g.Shape() && g.gsize == c.gsize && |g.offset| == c.NumProcs()
    ensures forall r | 0 <= r < |g.offset| ::
      && InBox(c.ProcIndex(r), c.psize)
      && g.offset[r] == c.Offset(c.ProcIndex(r)) && g.size[r] == c.Size(c.ProcIndex(r))
      && g.fw[r] == FwRanks(c, r) && g.bw[r] == BwRanks(c, r)
    ensures forall d | 0 <= d < |g.gsize| :: g.minPartition[d] == PartSize(c.gsize[d], c.psize[d], 0)
  {
    VolumeSign(c.psize);
    var n := c.NumProcs();
    assert forall r | 0 <= r < n :: InBox(c.ProcIndex(r), c.psize) by {
      forall r | 0 <= r < n ensures InBox(c.ProcIndex(r), c.psize) {
        ProcIndexInBox(c, r);
      }
    }
    Geometry(c.gsize,
             seq(n, r requires 0 <= r < n => c.Offset(c.ProcIndex(r))),
             seq(n, r requires 0 <= r < n => c.Size(c.ProcIndex(r))),
             seq(n, r => FwRanks(c, r)), seq(n, r => BwRanks(c, r)),
             seq(|c.gsize|, d requires 0 <= d < |c.gsize| => PartSize(c.gsize[d], c.psize[d], 0)))
  }

  lemma BoxAtHolds(c: Config, r: int, d: int)
    requires c.Valid() && c.IsRank(r) && 0 <= d < |c.gsize|
    ensures Of(c).BoxAt(r, d)
  {
    var idx := c.ProcIndex(r);
    ProcIndexInBox(c, r);
    BoxInside(c, idx);
    PartSizeBounds(c.gsize[d], c.psize[d], idx[d]);
    ZeroOffset(c.gsize[d], c.psize[d], idx[d]);
  }

  // Behind the last box there is nothing left, so a box that ends at the end
  // of the grid is followed by a box at 0.
  lemma EndOfGrid(size: int, n: int, j: int)
    requires n > 0 && size >= 0 && 0 <= j && j + 1 < n
    ensures PartOffset(size, n, j) + PartSize(size, n, j) < size
         || PartOffset(size, n, j + 1) == 0
  {
    PartNext(size, n, j);
    PartOffsetMonotone(size, n, j + 1, n - 1);
    PartOffsetMonotone(size, n, j + 2, n);
    PartitionCovers(size, n);
    PartNext(size, n, j + 1);
    PartNext(size, n, n - 1);
    PartSizeBounds(size, n, j + 1);
    PartSizeBounds(size, n, n - 1);
    ZeroOffset(size, n, j + 1);
  }

  // If the shortest partition is empty and so is partition j, everything up
  // to j is empty.
  lemma {:induction false} ZeroOffset(size: int, n: int, j: nat)
    requires n > 0 && size >= 0 && j < n
    ensures PartSize(size, n, j) == 0 ==> PartOffset(size, n, j) == 0
  {
    if j > 0 {
      ZeroOffset(size, n, j - 1);
      PartSizeBounds(size, n, j - 1);
      PartSizeBounds(size, n, j);
    }
  }

  lemma NeighborAtHolds(c: Config, r: int, d: int)
    requires c.Valid() && c.IsRank(r) && 0 <= d < |c.gsize|
    ensures Of(c).NeighborAt(r, d)
  {
    var g, idx := Of(c), c.ProcIndex(r);
    NeighborsInverse(c, r, d);
    NeighborBoxes(c, r, d);
    if idx[d] + 1 < c.psize[d] {
      EndOfGrid(c.gsize[d], c.psize[d], idx[d]);
      PartNext(c.gsize[d], c.psize[d], idx[d]);
    }
  }

  lemma GeometryOfConfig(c: Config)
    requires c.Valid()
    ensures Of(c).Valid()
  {
    forall r, d | 0 <= r < c.NumProcs() && 0 <= d < |c.gsize| ensures Of(c).BoxAt(r, d) {
      BoxAtHolds(c, r, d);
    }
    forall r, d | 0 <= r < c.NumProcs() && 0 <= d < |c.gsize| ensures Of(c).NeighborAt(r, d) {
      NeighborAtHolds(c, r, d);
    }
  }

  lemma ConfigTiles(c: Config)
    requires c.Valid()
    ensures Of(c).Tiles()
  {
    var g := Of(c);
    forall v | InBox(v, g.gsize) ensures exists r :: g.IsRank(r) && g.Holds(r, v) {
      OwnerIndexUnique(c, v, seq(|c.gsize|, d => 0));
      RankBijection(c, 0, c.OwnerIndex(v));
      OwnerUnique(c, v, c.Owner(v));
      assert g.IsRank(c.Owner(v)) && g.Holds(c.Owner(v), v);
    }
    forall v, r, q | InBox(v, g.gsize) && g.IsRank(r) && g.IsRank(q) && g.Holds(r, v) && g.Holds(q, v)
      ensures r == q
    {
      OwnerUnique(c, v, r);
      OwnerUnique(c, v, q);
    }
  }
}
