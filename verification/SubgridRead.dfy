// Kernels that read a grid through LoadSubgrid: after the round the reader
// (__PSGridGetAddr in runtime/mpi_runtime.cc) looks into the remote grid, and
// the request is the box that the free function LoadSubgrid of
// runtime/grid_mpi.cc computes from the process box and the offsets.
module SubgridRead {
  import opened MixedRadix
  import opened Subgrid
  import opened RemoteGrid
  import opened Decomposition
  import opened GridSpace
  import opened LoadProtocol
  import opened LoadResult
  import opened GridGet
  import opened HaloExchange

  // ------------------------------------------------- reading what was fetched

  // Every cell of the fetched box is read right, wherever the process box is.
  lemma RemoteReads(L: Local, offset: IndexArray, g: seq<Elem>, gsize: IndexArray, lo: IndexArray, size: IndexArray,
                    v: IndexArray)
    requires L.WellFormed(|gsize|) && |offset| == |lo| == |size| == |gsize| == |v| && NonNegative(size)
    requires L.remote == Remote(true, lo, size, Gather(g, gsize, lo, size)) && InBox(Sub(v, lo), size)
    ensures ReadAddress(L, offset, v) == At(g, Lin(v, gsize))
  {
    GatherAt(g, gsize, lo, size, Sub(v, lo));
    AddSub(v, lo);
  }

  // Without an active remote grid every own cell is read right.
  lemma OwnReads(L: Local, offset: IndexArray, g: seq<Elem>, gsize: IndexArray, v: IndexArray)
    requires L.WellFormed(|gsize|) && |offset| == |gsize| == |v| && !L.remote.active
    requires L.data == Gather(g, gsize, offset, L.size) && InBox(Sub(v, offset), L.size)
    ensures ReadAddress(L, offset, v) == At(g, Lin(v, gsize))
  {
    GatherAt(g, gsize, offset, L.size, Sub(v, offset));
    AddSub(v, offset);
    assert FirstOut(Sub(v, offset), L.size, 0) == |v|;
  }

  // The grid as process p holds it after its part of a round, in which it asked
  // for a box.
  ghost predicate HoldsAfter(c: Config, g: seq<Elem>, L: Local, p: int, before: Remote, lo: IndexArray, size: IndexArray)
    requires c.Valid() && c.IsRank(p) && |lo| == |size| == |c.gsize| && NonNegative(size)
  {
    RankBijection(c, p, c.ProcIndex(p));
    BoxInside(c, c.ProcIndex(p));
    && L.WellFormed(|c.gsize|) && L.size == c.Size(c.ProcIndex(p))
    && L.data == Gather(g, c.gsize, c.Offset(c.ProcIndex(p)), L.size)
    && L.remote == AfterLoad(c, g, p, before, lo, size)
  }

  lemma ReadAfterLoad(c: Config, g: seq<Elem>, L: Local, p: int, before: Remote, lo: IndexArray, size: IndexArray,
                      v: IndexArray)
    requires c.Valid() && c.IsRank(p) && InBox(c.ProcIndex(p), c.psize)
    requires |lo| == |size| == |c.gsize| && NonNegative(size) && HoldsAfter(c, g, L, p, before, lo, size)
    requires InBox(v, c.gsize) && InBox(Sub(v, lo), size) && !(before.active && HoldsAll(c, p, lo, size))
    ensures ReadAddress(L, c.Offset(c.ProcIndex(p)), v) == At(g, Lin(v, c.gsize))
  {
    if HoldsAll(c, p, lo, size) {
      assert c.Holds(c.ProcIndex(p), v);
      OwnReads(L, c.Offset(c.ProcIndex(p)), g, c.gsize, v);
    } else {
      RemoteReads(L, c.Offset(c.ProcIndex(p)), g, c.gsize, lo, size, v);
    }
  }

  // At the end of every run of a round a kernel on process p reads every cell
  // that it asked for as the global one, unless it asked for own cells only and
  // finds an older remote grid active.
  lemma SubgridReads(c: Config, g: seq<Elem>, r: Round, plans: seq<seq<FetchInfo>>, run: seq<State>, p: nat,
                     before: Remote, L: Local, v: IndexArray)
    requires c.Valid() && LoadRound(c, g, r, plans) && p < |r|
    requires Run(r, run) && p < |run[|run| - 1].procs| && run[|run| - 1].procs[p].ctl == Out
    requires L.WellFormed(|c.gsize|) && L.size == r[p].size && L.data == r[p].data
    requires L.remote == RemoteAfter(r, run[|run| - 1], p, before)
    requires InBox(v, c.gsize) && |r[p].remoteOffset| == |v| && InBox(Sub(v, r[p].remoteOffset), r[p].remoteSize)
    requires !(before.active && HoldsAll(c, p, r[p].remoteOffset, r[p].remoteSize))
    ensures |r[p].offset| == |v| && ReadAddress(L, r[p].offset, v) == At(g, Lin(v, c.gsize))
  {
    RoundLeaves(c, g, r, plans, run, p, before);
    ReadAfterLoad(c, g, L, p, before, r[p].remoteOffset, r[p].remoteSize, v);
  }

  // ------------------------------------------------------ what is asked for

  // The values that index i of a get takes on the process box: dims names the
  // loop index, from 1, with a minus sign if it is subtracted, or is 0 at a
  // fixed point.
  function Lowest(dim: int, offset: IndexArray, size: IndexArray): int
    requires |offset| == |size| && -|offset| <= dim <= |offset|
  {
    if dim > 0 then offset[dim - 1] else if dim < 0 then 1 - offset[-dim - 1] - size[-dim - 1] else 0
  }

  function Extent(dim: int, size: IndexArray): int
    requires -|size| <= dim <= |size|
  {
    if dim > 0 then size[dim - 1] else if dim < 0 then size[-dim - 1] else 1
  }

  // y is a coordinate of the box along the loop index, and x the value there.
  ghost predicate IndexAt(dim: int, offset: IndexArray, size: IndexArray, off: int, x: int, y: int)
    requires |offset| == |size| && -|offset| <= dim <= |offset| && dim != 0
  {
    var d := (if dim > 0 then dim else -dim) - 1;
    offset[d] <= y < offset[d] + size[d] && x == (if dim > 0 then y else -y) + off
  }

  // x is the value of the index at some point of the box, plus off.
  ghost predicate Reached(dim: int, offset: IndexArray, size: IndexArray, off: int, x: int)
    requires |offset| == |size| && -|offset| <= dim <= |offset|
  {
    if dim == 0 then x == off
    else exists y :: IndexAt(dim, offset, size, off, x, y)
  }

  lemma ReachedIsInterval(dim: int, offset: IndexArray, size: IndexArray, off: int, x: int)
    requires |offset| == |size| && -|offset| <= dim <= |offset|
    ensures Reached(dim, offset, size, off, x)
       <==> Lowest(dim, offset, size) + off <= x < Lowest(dim, offset, size) + off + Extent(dim, size)
  {
    if dim != 0 && Lowest(dim, offset, size) + off <= x < Lowest(dim, offset, size) + off + Extent(dim, size) {
      assert IndexAt(dim, offset, size, off, x, if dim > 0 then x - off else off - x);
    }
  }

  // The box consists of the values in the grid at the lower offsets.
  ghost predicate AsksFor(dims: seq<int>, localOffset: IndexArray, localSize: IndexArray, gsize: IndexArray,
                          minOffsets: IndexArray, lo: IndexArray, size: IndexArray)
    requires |dims| == |gsize| == |localOffset| == |localSize| == |minOffsets|
    requires forall i | 0 <= i < |dims| :: -|gsize| <= dims[i] <= |gsize|
  {
    && |lo| == |size| == |gsize|
    && forall i, x | 0 <= i < |dims| ::
      0 <= x - lo[i] < size[i] <==> 0 <= x < gsize[i] && Reached(dims[i], localOffset, localSize, minOffsets[i], x)
  }

  // SetNoLessThan(0) and SetNoMoreThan.
  function AtLeast0(x: int): int { if x < 0 then 0 else x }

  function AtMost(x: int, max: int): int { if x > max then max else x }

  // The free function LoadSubgrid: the box of the request. It looks at the
  // lower offsets only.
  method SubgridBox(dims: seq<int>, localOffset: IndexArray, localSize: IndexArray, gsize: IndexArray,
                    minOffsets: IndexArray, maxOffsets: IndexArray) returns (offset: IndexArray, size: IndexArray)
    requires |dims| == |gsize| == |localOffset| == |localSize| == |minOffsets| == |maxOffsets|
    requires forall i | 0 <= i < |dims| :: -|gsize| <= dims[i] <= |gsize|
    ensures AsksFor(dims, localOffset, localSize, gsize, minOffsets, offset, size)
  {
    offset, size := [], [];
    for i := 0 to |dims|
      invariant |offset| == |size| == i
      invariant forall j | 0 <= j < i ::
        var lo := Lowest(dims[j], localOffset, localSize) + minOffsets[j];
        offset[j] == AtLeast0(lo) && offset[j] + size[j] == AtMost(lo + Extent(dims[j], localSize), gsize[j])
    {
      var d := (if dims[i] < 0 then -dims[i] else dims[i]) - 1;
      var baseOffset := if dims[i] != 0 then localOffset[d] else 0;
      var baseSize := if dims[i] != 0 then localSize[d] else 1;
      var lo := if dims[i] >= 0 then baseOffset + minOffsets[i] else -(baseOffset + baseSize) + 1 + minOffsets[i];
      var right := lo + baseSize;
      lo, right := AtLeast0(lo), AtMost(right, gsize[i]);
      offset, size := offset + [lo], size + [right - lo];
    }
    forall i, x | 0 <= i < |dims|
      ensures 0 <= x - offset[i] < size[i]
         <==> 0 <= x < gsize[i] && Reached(dims[i], localOffset, localSize, minOffsets[i], x)
    {
      ReachedIsInterval(dims[i], localOffset, localSize, minOffsets[i], x);
    }
  }

  // Every cell of a grid of extent n that is read at an offset up to max is
  // asked for.
  ghost predicate Serves(dim: int, offset: IndexArray, size: IndexArray, n: int, min: int, max: int)
    requires |offset| == |size| && -|offset| <= dim <= |offset|
  {
    forall off, x | min <= off <= max && 0 <= x < n && Reached(dim, offset, size, off, x) ::
      Reached(dim, offset, size, min, x)
  }

  // It does that exactly if there is one offset only, or the box at the lowest
  // offset already goes to the end of the grid, or the box
  // at the highest one ends before the grid begins.
  lemma ServesIff(dim: int, offset: IndexArray, size: IndexArray, n: int, min: int, max: int)
    requires |offset| == |size| && -|offset| <= dim <= |offset| && Extent(dim, size) > 0
    ensures var end := Lowest(dim, offset, size) + Extent(dim, size);
      Serves(dim, offset, size, n, min, max) <==> max <= min || end + min >= n || end + max <= 0 || n <= 0
  {
    var end := Lowest(dim, offset, size) + Extent(dim, size);
    if max > min && end + min < n && end + max > 0 && n > 0 {
      var x := if end + min >= 0 then end + min else 0;
      var off := x + 1 - end;
      ReachedIsInterval(dim, offset, size, off, x);
      ReachedIsInterval(dim, offset, size, min, x);
    } else {
      forall off, x | min <= off <= max && 0 <= x < n && Reached(dim, offset, size, off, x)
        ensures Reached(dim, offset, size, min, x)
      {
        ReachedIsInterval(dim, offset, size, off, x);
        ReachedIsInterval(dim, offset, size, min, x);
      }
    }
  }

  // A process with the first two of four cells that reads its own point and the
  // next one: cell 2 is read and not asked for.
  lemma UpperOffsetIgnored(offset: IndexArray, size: IndexArray)
    requires offset == [0] && size == [2]
    ensures Reached(1, offset, size, 1, 2) && !Reached(1, offset, size, 0, 2) && !Serves(1, offset, size, 4, 0, 1)
  {
    assert offset[0] == 0 && size[0] == 2;
    ReachedIsInterval(1, offset, size, 1, 2);
    ReachedIsInterval(1, offset, size, 0, 2);
    ServesIff(1, offset, size, 4, 0, 1);
  }

  // What the kernel of process p reads at these offsets, at some points of its
  // box, is read right after the round if the request serves it.
  lemma ServedIsRead(c: Config, g: seq<Elem>, L: Local, p: int, before: Remote, dims: seq<int>, minOffsets: IndexArray,
                     maxOffsets: IndexArray, lo: IndexArray, size: IndexArray, offs: IndexArray, v: IndexArray)
    requires c.Valid() && c.IsRank(p) && InBox(c.ProcIndex(p), c.psize) && InBox(v, c.gsize)
    requires |dims| == |c.gsize| == |minOffsets| == |maxOffsets| == |offs| == |lo| == |size| && NonNegative(size)
    requires forall i | 0 <= i < |dims| :: -|c.gsize| <= dims[i] <= |c.gsize| && minOffsets[i] <= offs[i] <= maxOffsets[i]
    requires var offset, own := c.Offset(c.ProcIndex(p)), c.Size(c.ProcIndex(p));
      && AsksFor(dims, offset, own, c.gsize, minOffsets, lo, size)
      && forall i | 0 <= i < |dims| ::
           Reached(dims[i], offset, own, offs[i], v[i])
           && Serves(dims[i], offset, own, c.gsize[i], minOffsets[i], maxOffsets[i])
    requires HoldsAfter(c, g, L, p, before, lo, size) && !(before.active && HoldsAll(c, p, lo, size))
    ensures ReadAddress(L, c.Offset(c.ProcIndex(p)), v) == At(g, Lin(v, c.gsize))
  {
    var offset, own := c.Offset(c.ProcIndex(p)), c.Size(c.ProcIndex(p));
    forall i | 0 <= i < |v| ensures 0 <= Sub(v, lo)[i] < size[i] {
      assert Reached(dims[i], offset, own, minOffsets[i], v[i]);
    }
    ReadAfterLoad(c, g, L, p, before, lo, size, v);
  }
}
