// How a global index space is split over a grid of processes
// (runtime/grid_mpi.cc, GridSpaceMPI). This file holds the decomposition as
// functions of the configuration and proves that it is a tiling; GridSpace.dfy
// holds the loops that compute it.
module Decomposition {
  import opened MixedRadix

  // ------------------------------------------------------- one dimension

  // Length of partition j when size cells are split into n partitions: the
  // last size % n partitions are one cell longer.
  function PartSize(size: int, n: int, j: int): int
    requires n > 0
  {
    Quotient(size, n) + (if n - j <= Remainder(size, n) then 1 else 0)
  }

  function PartOffset(size: int, n: int, j: nat): int
    requires n > 0
  {
    if j == 0 then 0 else PartOffset(size, n, j - 1) + PartSize(size, n, j - 1)
  }

  lemma {:induction false} PartOffsetClosed(size: int, n: int, j: nat)
    requires n > 0 && size >= 0 && j <= n
    ensures PartOffset(size, n, j)
         == Quotient(size, n) * j + (if j <= n - Remainder(size, n) then 0 else j - (n - Remainder(size, n)))
  {
    QuotientBounds(size, n);
    if j > 0 {
      PartOffsetClosed(size, n, j - 1);
      assert Quotient(size, n) * j == Quotient(size, n) * (j - 1) + Quotient(size, n);
    }
  }

  lemma PartSizeBounds(size: int, n: int, j: int)
    requires n > 0 && size >= 0 && 0 <= j < n
    ensures 0 <= PartSize(size, n, 0) == Quotient(size, n) <= PartSize(size, n, j) <= Quotient(size, n) + 1
  {
    QuotientBounds(size, n);
  }

  lemma PartitionCovers(size: int, n: int)
    requires n > 0 && size >= 0
    ensures PartOffset(size, n, 0) == 0 && PartOffset(size, n, n) == size
  {
    PartOffsetClosed(size, n, n);
    QuotientBounds(size, n);
  }

  // The partitions cover exactly [0, size), are balanced with the longer ones
  // last, and the shortest one has floor(size / n) cells.
  lemma PartitionBalanced(size: int, n: int, i: int, j: int)
    requires n > 0 && size >= 0 && 0 <= i < n && 0 <= j < n
    ensures PartOffset(size, n, 0) == 0 && PartOffset(size, n, n) == size
    ensures -1 <= PartSize(size, n, i) - PartSize(size, n, j) <= 1
    ensures i <= j ==> PartSize(size, n, i) <= PartSize(size, n, j)
    ensures 0 <= PartSize(size, n, 0) == size / n <= PartSize(size, n, j)
  {
    PartitionCovers(size, n);
    PartSizeBounds(size, n, i);
    PartSizeBounds(size, n, j);
    QuotientIsDivision(size, n);
  }

  lemma {:induction false} PartOffsetMonotone(size: int, n: int, i: nat, j: nat)
    requires n > 0 && size >= 0 && i <= j
    ensures PartOffset(size, n, i) <= PartOffset(size, n, j)
    decreases j - i
  {
    if i < j {
      PartOffsetMonotone(size, n, i, j - 1);
      QuotientBounds(size, n);
    }
  }

  ghost predicate InPart(size: int, n: int, j: nat, x: int)
    requires n > 0
  {
    PartOffset(size, n, j) <= x < PartOffset(size, n, j) + PartSize(size, n, j)
  }

  // The partition, among the first m, that holds x.
  function OwnerAmong(size: int, n: int, m: nat, x: int): nat
    requires n > 0
    decreases m
  {
    if m == 0 then 0
    else if PartOffset(size, n, m - 1) <= x then m - 1
    else OwnerAmong(size, n, m - 1, x)
  }

  function Owner1D(size: int, n: int, x: int): nat
    requires n > 0
  {
    OwnerAmong(size, n, n, x)
  }

  lemma {:induction false} OwnerAmongHolds(size: int, n: int, m: nat, x: int)
    requires n > 0 && size >= 0 && 0 <= x < PartOffset(size, n, m)
    ensures OwnerAmong(size, n, m, x) < m
    ensures InPart(size, n, OwnerAmong(size, n, m, x), x)
  {
    if PartOffset(size, n, m - 1) > x {
      OwnerAmongHolds(size, n, m - 1, x);
    }
  }

  // Every cell lies in exactly one partition.
  lemma Owner1DUnique(size: int, n: int, x: int, j: nat)
    requires n > 0 && size >= 0 && 0 <= x < size && j < n
    ensures Owner1D(size, n, x) < n
    ensures InPart(size, n, j, x) <==> j == Owner1D(size, n, x)
  {
    PartitionCovers(size, n);
    OwnerAmongHolds(size, n, n, x);
    var o := Owner1D(size, n, x);
    if j < o {
      PartOffsetMonotone(size, n, j + 1, o);
    } else if o < j {
      PartOffsetMonotone(size, n, o + 1, j);
    }
  }

  // ------------------------------------------------------ all dimensions

  // A global grid of extents gsize on a process grid of extents psize.
  datatype Config = Config(gsize: IndexArray, psize: IndexArray) {

    ghost predicate Valid() {
      |gsize| == |psize| > 0 && NonNegative(gsize) && Positive(psize)
    }

    function NumProcs(): int { Volume(psize) }

    // Index of a process in the process grid.
    function ProcIndex(rank: int): (idx: IndexArray)
      ensures |idx| == |psize|
    {
      Digits(rank, psize)
    }

    function RankOf(idx: IndexArray): int
      requires |idx| == |psize|
    {
      Lin(idx, psize)
    }

    // The box of the process at index idx.
    ghost function Offset(idx: IndexArray): (r: IndexArray)
      requires Valid() && InBox(idx, psize)
      ensures |r| == |gsize| && forall d | 0 <= d < |r| :: r[d] == PartOffset(gsize[d], psize[d], idx[d])
    {
      seq(|gsize|, d requires 0 <= d < |gsize| => PartOffset(gsize[d], psize[d], idx[d]))
    }

    ghost function Size(idx: IndexArray): (r: IndexArray)
      requires Valid() && InBox(idx, psize)
      ensures |r| == |gsize| && forall d | 0 <= d < |r| :: r[d] == PartSize(gsize[d], psize[d], idx[d])
    {
      seq(|gsize|, d requires 0 <= d < |gsize| => PartSize(gsize[d], psize[d], idx[d]))
    }

    ghost function OwnerIndex(v: IndexArray): (r: IndexArray)
      requires Valid() && |v| == |gsize|
      ensures |r| == |gsize| && forall d | 0 <= d < |r| :: r[d] == Owner1D(gsize[d], psize[d], v[d])
    {
      seq(|gsize|, d requires 0 <= d < |gsize| => Owner1D(gsize[d], psize[d], v[d]) as int)
    }

    // The cell v lies in the box of the process at index idx.
    ghost predicate Holds(idx: IndexArray, v: IndexArray)
      requires Valid() && InBox(idx, psize) && |v| == |gsize|
    {
      InBox(Sub(v, Offset(idx)), Size(idx))
    }

    ghost predicate IsRank(rank: int) { 0 <= rank < NumProcs() }

    ghost function Owner(v: IndexArray): int
      requires Valid() && |v| == |gsize|
    {
      RankOf(OwnerIndex(v))
    }
  }

  // Ranks and process indices correspond one to one.
  lemma RankBijection(c: Config, rank: int, idx: IndexArray)
    requires c.Valid()
    ensures c.IsRank(rank) ==> InBox(c.ProcIndex(rank), c.psize) && c.RankOf(c.ProcIndex(rank)) == rank
    ensures InBox(idx, c.psize) ==> c.IsRank(c.RankOf(idx)) && c.ProcIndex(c.RankOf(idx)) == idx
  {
    if c.IsRank(rank) {
      LinOfDigits(rank, c.psize);
    }
    if InBox(idx, c.psize) {
      LinInRange(idx, c.psize);
      DigitsOfLin(idx, c.psize);
    }
  }

  // Ranks are numbered from the process at the origin, dimension 0 fastest: a
  // step along dimension d passes over all processes of the dimensions before.
  lemma RankSteps(c: Config, idx: IndexArray, d: nat)
    requires c.Valid() && InBox(idx, c.psize) && d < |idx|
    ensures c.RankOf(idx[d := idx[d] + 1]) == c.RankOf(idx) + Volume(c.psize[..d])
    ensures (forall j | 0 <= j < |idx| :: idx[j] == 0) ==> c.RankOf(idx) == 0
  {
    LinStep(idx, c.psize, d);
    if forall j | 0 <= j < |idx| :: idx[j] == 0 {
      LinOfZeros(idx, c.psize);
    }
  }

  // Every box is inside the global grid.
  lemma BoxInside(c: Config, idx: IndexArray)
    requires c.Valid() && InBox(idx, c.psize)
    ensures forall d | 0 <= d < |c.gsize| ::
      0 <= c.Offset(idx)[d] && 0 <= c.Size(idx)[d] && c.Offset(idx)[d] + c.Size(idx)[d] <= c.gsize[d]
  {
    forall d | 0 <= d < |c.gsize|
      ensures 0 <= c.Offset(idx)[d] && 0 <= c.Size(idx)[d] && c.Offset(idx)[d] + c.Size(idx)[d] <= c.gsize[d]
    {
      PartitionCovers(c.gsize[d], c.psize[d]);
      PartSizeBounds(c.gsize[d], c.psize[d], idx[d]);
      PartOffsetMonotone(c.gsize[d], c.psize[d], 0, idx[d]);
      PartOffsetMonotone(c.gsize[d], c.psize[d], idx[d] + 1, c.psize[d]);
    }
  }

  // The boxes tile the global grid: a cell is held by its owner and by no one else.
  lemma OwnerIndexUnique(c: Config, v: IndexArray, idx: IndexArray)
    requires c.Valid() && InBox(v, c.gsize) && InBox(idx, c.psize)
    ensures InBox(c.OwnerIndex(v), c.psize)
    ensures c.Holds(idx, v) <==> idx == c.OwnerIndex(v)
  {
    forall d | 0 <= d < |v|
      ensures Owner1D(c.gsize[d], c.psize[d], v[d]) < c.psize[d]
      ensures (0 <= Sub(v, c.Offset(idx))[d] < c.Size(idx)[d]) <==> idx[d] == c.OwnerIndex(v)[d]
    {
      Owner1DUnique(c.gsize[d], c.psize[d], v[d], idx[d]);
    }
    if idx != c.OwnerIndex(v) {
      var d :| 0 <= d < |v| && idx[d] != c.OwnerIndex(v)[d];
      assert !(0 <= Sub(v, c.Offset(idx))[d] < c.Size(idx)[d]);
    }
  }

  lemma OwnerUnique(c: Config, v: IndexArray, rank: int)
    requires c.Valid() && InBox(v, c.gsize) && c.IsRank(rank)
    ensures InBox(c.ProcIndex(rank), c.psize) && c.IsRank(c.Owner(v))
    ensures c.Holds(c.ProcIndex(rank), v) <==> rank == c.Owner(v)
  {
    RankBijection(c, rank, c.OwnerIndex(v));
    OwnerIndexUnique(c, v, c.ProcIndex(rank));
  }

  // ----------------------------------------------------------- neighbours

  // Neighbours along dimension d, wrapping around at both ends.
  function FwIndex(c: Config, idx: IndexArray, d: int): IndexArray
    requires |idx| == |c.psize| && 0 <= d < |idx| && c.psize[d] > 0
  {
    idx[d := if idx[d] + 1 < c.psize[d] then idx[d] + 1 else 0]
  }

  function BwIndex(c: Config, idx: IndexArray, d: int): IndexArray
    requires |idx| == |c.psize| && 0 <= d < |idx| && c.psize[d] > 0
  {
    idx[d := if idx[d] > 0 then idx[d] - 1 else c.psize[d] - 1]
  }

  function FwRank(c: Config, rank: int, d: int): int
    requires 0 <= d < |c.psize| && c.psize[d] > 0
  {
    c.RankOf(FwIndex(c, c.ProcIndex(rank), d))
  }

  function BwRank(c: Config, rank: int, d: int): int
    requires 0 <= d < |c.psize| && c.psize[d] > 0
  {
    c.RankOf(BwIndex(c, c.ProcIndex(rank), d))
  }

  // Forward and backward neighbours are inverse permutations of the ranks
  // that move only along dimension d.
  lemma NeighborsInverse(c: Config, rank: int, d: int)
    requires c.Valid() && c.IsRank(rank) && 0 <= d < |c.psize|
    ensures c.IsRank(FwRank(c, rank, d)) && c.ProcIndex(FwRank(c, rank, d)) == FwIndex(c, c.ProcIndex(rank), d)
    ensures c.IsRank(BwRank(c, rank, d)) && c.ProcIndex(BwRank(c, rank, d)) == BwIndex(c, c.ProcIndex(rank), d)
    ensures InBox(c.ProcIndex(rank), c.psize)
    ensures BwRank(c, FwRank(c, rank, d), d) == rank && FwRank(c, BwRank(c, rank, d), d) == rank
  {
    var idx := c.ProcIndex(rank);
    RankBijection(c, rank, FwIndex(c, idx, d));
    RankBijection(c, rank, BwIndex(c, idx, d));
    var f, b := FwIndex(c, idx, d), BwIndex(c, idx, d);
    assert BwIndex(c, f, d) == idx && FwIndex(c, b, d) == idx;
  }

  function FwIter(c: Config, rank: int, d: int, k: nat): int
    requires 0 <= d < |c.psize| && c.psize[d] > 0
  {
    if k == 0 then rank else FwRank(c, FwIter(c, rank, d, k - 1), d)
  }

  lemma {:induction false} FwIterIndex(c: Config, rank: int, d: int, k: nat)
    requires c.Valid() && c.IsRank(rank) && 0 <= d < |c.psize| && k <= c.psize[d]
    ensures c.IsRank(FwIter(c, rank, d, k)) && InBox(c.ProcIndex(rank), c.psize)
    ensures var idx := c.ProcIndex(rank);
      c.ProcIndex(FwIter(c, rank, d, k))
      == idx[d := if idx[d] + k < c.psize[d] then idx[d] + k else idx[d] + k - c.psize[d]]
  {
    RankBijection(c, rank, c.ProcIndex(rank));
    if k > 0 {
      FwIterIndex(c, rank, d, k - 1);
      var r := FwIter(c, rank, d, k - 1);
      NeighborsInverse(c, r, d);
    }
  }

  // Walking forward returns to the start after exactly psize[d] steps.
  lemma NeighborRing(c: Config, rank: int, d: int, k: nat)
    requires c.Valid() && c.IsRank(rank) && 0 <= d < |c.psize| && 0 < k <= c.psize[d]
    ensures FwIter(c, rank, d, k) == rank <==> k == c.psize[d]
  {
    FwIterIndex(c, rank, d, k);
    var idx := c.ProcIndex(rank);
    var last := c.ProcIndex(FwIter(c, rank, d, k));
    RankBijection(c, rank, last);
    RankBijection(c, FwIter(c, rank, d, k), idx);
    if k == c.psize[d] {
      assert last == idx;
    } else {
      assert last[d] != idx[d];
    }
  }

  // The box of the forward neighbour starts where this box ends, or at 0 when
  // this box is the last one; in the other dimensions the boxes agree.
  lemma NeighborBoxes(c: Config, rank: int, d: int)
    requires c.Valid() && c.IsRank(rank) && 0 <= d < |c.psize|
    ensures var idx, fdx := c.ProcIndex(rank), c.ProcIndex(FwRank(c, rank, d));
      && InBox(idx, c.psize) && InBox(fdx, c.psize)
      && (forall i | 0 <= i < |c.psize| && i != d ::
            c.Offset(fdx)[i] == c.Offset(idx)[i] && c.Size(fdx)[i] == c.Size(idx)[i])
      && (if idx[d] + 1 < c.psize[d]
          then c.Offset(fdx)[d] == c.Offset(idx)[d] + c.Size(idx)[d]
          else c.Offset(fdx)[d] == 0 && c.Offset(idx)[d] + c.Size(idx)[d] == c.gsize[d])
  {
    NeighborsInverse(c, rank, d);
    var idx := c.ProcIndex(rank);
    var fdx := c.ProcIndex(FwRank(c, rank, d));
    assert fdx == idx[d := if idx[d] + 1 < c.psize[d] then idx[d] + 1 else 0];
    ShiftedBox(c, idx, d, if idx[d] + 1 < c.psize[d] then idx[d] + 1 else 0);
    PartitionCovers(c.gsize[d], c.psize[d]);
    PartNext(c.gsize[d], c.psize[d], idx[d]);
  }

  lemma PartNext(size: int, n: int, j: nat)
    requires n > 0
    ensures PartOffset(size, n, j + 1) == PartOffset(size, n, j) + PartSize(size, n, j)
  {
  }

  lemma ShiftedBox(c: Config, idx: IndexArray, d: int, x: int)
    requires c.Valid() && InBox(idx, c.psize) && 0 <= d < |c.psize| && 0 <= x < c.psize[d]
    ensures InBox(idx[d := x], c.psize)
    ensures forall i | 0 <= i < |c.psize| && i != d ::
            c.Offset(idx[d := x])[i] == c.Offset(idx)[i] && c.Size(idx[d := x])[i] == c.Size(idx)[i]
    ensures c.Offset(idx[d := x])[d] == PartOffset(c.gsize[d], c.psize[d], x)
  {
  }

  // ------------------------------------------------- clipping to a process

  function Max(a: int, b: int): int { if a >= b then a else b }

  function Min(a: int, b: int): int { if a <= b then a else b }

  // Local part of a grid placed at globalOffset, per dimension (PartitionGrid).
  function ClipOffset(myOffset: int, globalOffset: int): int {
    Max(myOffset - globalOffset, 0)
  }

  function ClipSize(myOffset: int, mySize: int, globalOffset: int, size: int): int {
    Max(Min(globalOffset + size, myOffset + mySize) - Max(myOffset, globalOffset), 0)
  }

  // A cell of the grid is in the local part exactly if the corresponding
  // cell of the space is in the process box.
  lemma ClipExact(myOffset: int, mySize: int, globalOffset: int, size: int, u: int)
    requires 0 <= u < size && mySize >= 0
    ensures ClipOffset(myOffset, globalOffset) <= u
              < ClipOffset(myOffset, globalOffset) + ClipSize(myOffset, mySize, globalOffset, size)
       <==> myOffset <= u + globalOffset < myOffset + mySize
  {
  }

  // Lexicographic comparison, as boost::array compares index arrays.
  predicate LexLess(a: IndexArray, b: IndexArray)
    requires |a| == |b|
  {
    |a| > 0 && (a[0] < b[0] || (a[0] == b[0] && LexLess(a[1..], b[1..])))
  }

  // The first coordinate in which the arrays differ decides.
  lemma {:induction false} LexLessIff(a: IndexArray, b: IndexArray)
    requires |a| == |b|
    ensures LexLess(a, b) <==> exists d :: 0 <= d < |a| && a[d] < b[d] && a[..d] == b[..d]
  {
    if |a| > 0 && a[0] == b[0] {
      LexLessIff(a[1..], b[1..]);
      if d :| 0 <= d < |a| && a[d] < b[d] && a[..d] == b[..d] {
        assert a[1..][..d - 1] == a[..d][1..] == b[..d][1..] == b[1..][..d - 1];
        assert a[1..][d - 1] < b[1..][d - 1];
      }
      if d :| 0 <= d < |a| - 1 && a[1..][d] < b[1..][d] && a[1..][..d] == b[1..][..d] {
        assert a[..d + 1] == [a[0]] + a[1..][..d] == [b[0]] + b[1..][..d] == b[..d + 1];
        assert a[d + 1] < b[d + 1];
      }
    } else if |a| > 0 {
      assert a[..0] == b[..0];
      if d :| 0 <= d < |a| && a[d] < b[d] && a[..d] == b[..d] {
        assert d > 0 ==> a[..d][0] == b[..d][0];
      }
    }
  }

  // A box that is lexicographically empty is empty.
  lemma LexEmpty(lo: IndexArray, hi: IndexArray, v: IndexArray)
    requires |lo| == |hi| == |v| > 0 && !LexLess(lo, hi)
    ensures !(lo[0] <= v[0] < hi[0])
  {
  }
}
