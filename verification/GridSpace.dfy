// The grid space of one process (runtime/grid_mpi.cc, class GridSpaceMPI):
// the loops that compute the decomposition, the clipping of grids and
// domains, and the plan of a subgrid fetch.
module GridSpace {
  import opened MixedRadix
  import opened Decomposition

  // One piece of a fetch: the box to get and the process that owns it.
  datatype FetchInfo = FetchInfo(peerIndex: IndexArray, peerOffset: IndexArray, peerSize: IndexArray)

  // The piece is the non-empty part of the request [lo, lo + size) inside the
  // peer's box, as far as the first n dimensions are concerned.
  ghost predicate IsClip(c: Config, lo: IndexArray, size: IndexArray, info: FetchInfo, n: int)
    requires c.Valid() && |lo| == |size| == |c.gsize| && 0 <= n <= |c.gsize|
  {
    && |info.peerIndex| == |info.peerOffset| == |info.peerSize| == |c.gsize|
    && forall d | 0 <= d < n ::
        && Meets(c, lo, size, d, info.peerIndex[d])
        && info.peerOffset[d] == Max(lo[d], PartOffset(c.gsize[d], c.psize[d], info.peerIndex[d]))
        && info.peerOffset[d] + info.peerSize[d]
           == Min(lo[d] + size[d], PartOffset(c.gsize[d], c.psize[d], info.peerIndex[d] + 1))
  }

  // The request overlaps partition p of dimension d.
  ghost predicate Meets(c: Config, lo: IndexArray, size: IndexArray, d: int, p: int)
    requires c.Valid() && |lo| == |size| == |c.gsize| && 0 <= d < |c.gsize|
  {
    && 0 <= p < c.psize[d]
    && Max(lo[d], PartOffset(c.gsize[d], c.psize[d], p))
       < Min(lo[d] + size[d], PartOffset(c.gsize[d], c.psize[d], p + 1))
  }

  // The list enumerates, without repetition, the processes whose index meets
  // the request in dimensions 0 .. n - 1, is below bound in dimension n - 1
  // and is zero in the dimensions not yet visited.
  ghost predicate Enumerates(c: Config, lo: IndexArray, size: IndexArray, list: seq<FetchInfo>, n: int, bound: int)
    requires c.Valid() && |lo| == |size| == |c.gsize| && 0 <= n <= |c.gsize|
  {
    && AllClipped(c, lo, size, list, n)
    && AllSelected(c, lo, size, list, n, bound)
    && DistinctPeers(list)
    && Complete(c, lo, size, list, n, bound)
  }

  ghost predicate AllClipped(c: Config, lo: IndexArray, size: IndexArray, list: seq<FetchInfo>, n: int)
    requires c.Valid() && |lo| == |size| == |c.gsize| && 0 <= n <= |c.gsize|
  {
    forall k | 0 <= k < |list| :: IsClip(c, lo, size, list[k], n)
  }

  ghost predicate AllSelected(c: Config, lo: IndexArray, size: IndexArray, list: seq<FetchInfo>, n: int, bound: int)
    requires c.Valid() && |lo| == |size| == |c.gsize| && 0 <= n <= |c.gsize|
  {
    forall k | 0 <= k < |list| :: Selected(c, lo, size, list[k].peerIndex, n, bound)
  }

  ghost predicate DistinctPeers(list: seq<FetchInfo>) {
    forall j, k | 0 <= j < k < |list| :: list[j].peerIndex != list[k].peerIndex
  }

  ghost predicate Complete(c: Config, lo: IndexArray, size: IndexArray, list: seq<FetchInfo>, n: int, bound: int)
    requires c.Valid() && |lo| == |size| == |c.gsize| && 0 <= n <= |c.gsize|
  {
    forall idx | Required(c, lo, size, idx, n, bound) :: exists k :: 0 <= k < |list| && list[k].peerIndex == idx
  }

  ghost predicate Selected(c: Config, lo: IndexArray, size: IndexArray, idx: IndexArray, n: int, bound: int)
    requires c.Valid() && |lo| == |size| == |c.gsize| && 0 <= n <= |c.gsize|
  {
    && |idx| == |c.gsize|
    && (forall d | 0 <= d < n :: Meets(c, lo, size, d, idx[d]))
    && (n > 0 ==> idx[n - 1] < bound)
    && (forall d | n <= d < |idx| :: idx[d] == 0)
  }

  ghost predicate Required(c: Config, lo: IndexArray, size: IndexArray, idx: IndexArray, n: int, bound: int)
    requires c.Valid() && |lo| == |size| == |c.gsize| && 0 <= n <= |c.gsize|
  {
    Selected(c, lo, size, idx, n, bound)
  }

  // The finished list: one piece for every process whose box meets the request.
  ghost predicate FetchPlan(c: Config, lo: IndexArray, size: IndexArray, list: seq<FetchInfo>)
    requires c.Valid() && |lo| == |size| == |c.gsize|
  {
    var n := |c.gsize|;
    Enumerates(c, lo, size, list, n, c.psize[n - 1])
  }

  // The cell v is part of the piece.
  ghost predicate InPiece(info: FetchInfo, v: IndexArray)
    requires |info.peerOffset| == |info.peerSize| == |v|
  {
    InBox(Sub(v, info.peerOffset), info.peerSize)
  }

  // Every piece is non-empty and lies inside the request and inside the box
  // of its peer, which is a process.
  lemma PieceInside(c: Config, lo: IndexArray, size: IndexArray, list: seq<FetchInfo>, k: int)
    requires c.Valid() && |lo| == |size| == |c.gsize| && FetchPlan(c, lo, size, list) && 0 <= k < |list|
    ensures InBox(list[k].peerIndex, c.psize) && Positive(list[k].peerSize)
    ensures |list[k].peerOffset| == |list[k].peerSize| == |c.gsize|
    ensures forall d | 0 <= d < |c.gsize| ::
      && lo[d] <= list[k].peerOffset[d] && list[k].peerOffset[d] + list[k].peerSize[d] <= lo[d] + size[d]
      && c.Offset(list[k].peerIndex)[d] <= list[k].peerOffset[d]
      && list[k].peerOffset[d] + list[k].peerSize[d]
         <= c.Offset(list[k].peerIndex)[d] + c.Size(list[k].peerIndex)[d]
  {
    var info := list[k];
    forall d | 0 <= d < |c.gsize|
      ensures Meets(c, lo, size, d, info.peerIndex[d])
      ensures PartOffset(c.gsize[d], c.psize[d], info.peerIndex[d] + 1)
           == PartOffset(c.gsize[d], c.psize[d], info.peerIndex[d]) + PartSize(c.gsize[d], c.psize[d], info.peerIndex[d])
    {
      PartNext(c.gsize[d], c.psize[d], info.peerIndex[d]);
    }
    assert InBox(info.peerIndex, c.psize);
  }

  // A coordinate is in the piece exactly if it is requested and in the peer's
  // partition.
  lemma ClipExactAt(c: Config, lo: IndexArray, size: IndexArray, info: FetchInfo, d: int, x: int)
    requires c.Valid() && |lo| == |size| == |c.gsize| && IsClip(c, lo, size, info, |c.gsize|) && 0 <= d < |c.gsize|
    ensures Meets(c, lo, size, d, info.peerIndex[d])
    ensures 0 <= x - info.peerOffset[d] < info.peerSize[d]
       <==> 0 <= x - lo[d] < size[d] && InPart(c.gsize[d], c.psize[d], info.peerIndex[d], x)
  {
    assert Meets(c, lo, size, d, info.peerIndex[d]);
    PartNext(c.gsize[d], c.psize[d], info.peerIndex[d]);
  }

  // A cell belongs to a piece exactly if it is requested and the peer owns it.
  lemma PieceExact(c: Config, lo: IndexArray, size: IndexArray, list: seq<FetchInfo>, k: int, v: IndexArray)
    requires c.Valid() && |lo| == |size| == |c.gsize| && FetchPlan(c, lo, size, list) && 0 <= k < |list|
    requires InBox(v, c.gsize)
    ensures |list[k].peerOffset| == |list[k].peerSize| == |v|
    ensures InPiece(list[k], v) <==> InBox(Sub(v, lo), size) && list[k].peerIndex == c.OwnerIndex(v)
  {
    var info := list[k];
    PieceInside(c, lo, size, list, k);
    OwnerIndexUnique(c, v, info.peerIndex);
    var off, sz := c.Offset(info.peerIndex), c.Size(info.peerIndex);
    forall d | 0 <= d < |v|
      ensures 0 <= Sub(v, info.peerOffset)[d] < info.peerSize[d]
         <==> 0 <= Sub(v, lo)[d] < size[d] && 0 <= Sub(v, off)[d] < sz[d]
    {
      ClipExactAt(c, lo, size, info, d, v[d]);
    }
  }

  // The pieces tile the requested part of the grid: each requested cell is
  // in exactly one of them, the one whose peer is its owner.
  lemma FetchTiles(c: Config, lo: IndexArray, size: IndexArray, list: seq<FetchInfo>, v: IndexArray)
    returns (k: int)
    requires c.Valid() && |lo| == |size| == |c.gsize| && FetchPlan(c, lo, size, list)
    requires InBox(v, c.gsize) && InBox(Sub(v, lo), size)
    ensures 0 <= k < |list| && list[k].peerIndex == c.OwnerIndex(v)
    ensures forall j | 0 <= j < |list| ::
      |list[j].peerOffset| == |list[j].peerSize| == |v| && (InPiece(list[j], v) <==> j == k)
  {
    var idx := c.OwnerIndex(v);
    forall d | 0 <= d < |v| ensures Meets(c, lo, size, d, idx[d]) {
      PartitionCovers(c.gsize[d], c.psize[d]);
      OwnerAmongHolds(c.gsize[d], c.psize[d], c.psize[d], v[d]);
      PartNext(c.gsize[d], c.psize[d], idx[d]);
      assert 0 <= Sub(v, lo)[d] < size[d];
    }
    assert Required(c, lo, size, idx, |v|, c.psize[|v| - 1]);
    k :| 0 <= k < |list| && list[k].peerIndex == idx;
    forall j | 0 <= j < |list|
      ensures |list[j].peerOffset| == |list[j].peerSize| == |v| && (InPiece(list[j], v) <==> j == k)
    {
      PieceExact(c, lo, size, list, j, v);
    }
  }

  // Distinct pieces go to distinct ranks and share no cell.
  lemma PiecesDisjoint(c: Config, lo: IndexArray, size: IndexArray, list: seq<FetchInfo>, j: int, k: int, v: IndexArray)
    requires c.Valid() && |lo| == |size| == |c.gsize| && FetchPlan(c, lo, size, list)
    requires 0 <= j < |list| && 0 <= k < |list| && j != k && |v| == |c.gsize|
    ensures |list[j].peerIndex| == |list[k].peerIndex| == |c.psize|
    ensures c.RankOf(list[j].peerIndex) != c.RankOf(list[k].peerIndex)
    ensures |list[j].peerOffset| == |list[j].peerSize| == |v| && |list[k].peerOffset| == |list[k].peerSize| == |v|
    ensures !(InPiece(list[j], v) && InPiece(list[k], v))
  {
    PieceInside(c, lo, size, list, j);
    PieceInside(c, lo, size, list, k);
    RankBijection(c, 0, list[j].peerIndex);
    RankBijection(c, 0, list[k].peerIndex);
    if InPiece(list[j], v) && InPiece(list[k], v) {
      BoxInside(c, list[j].peerIndex);
      forall d | 0 <= d < |v| ensures 0 <= v[d] < c.gsize[d] {
        assert 0 <= Sub(v, list[j].peerOffset)[d] < list[j].peerSize[d];
      }
      PieceExact(c, lo, size, list, j, v);
      PieceExact(c, lo, size, list, k, v);
    }
  }

  // Only a request with no empty extent needs anything.
  lemma NonEmptyFetch(c: Config, lo: IndexArray, size: IndexArray, list: seq<FetchInfo>)
    requires c.Valid() && |lo| == |size| == |c.gsize| && FetchPlan(c, lo, size, list)
    ensures list != [] ==> Positive(size)
  {
    if list != [] {
      forall d | 0 <= d < |size| ensures size[d] > 0 {
        assert Meets(c, lo, size, d, list[0].peerIndex[d]);
      }
    }
  }

  // The piece of a request for one cell is that cell.
  lemma UnitPiece(c: Config, lo: IndexArray, size: IndexArray, list: seq<FetchInfo>, j: int)
    requires c.Valid() && |lo| == |size| == |c.gsize| && FetchPlan(c, lo, size, list) && 0 <= j < |list|
    requires forall d | 0 <= d < |size| :: size[d] == 1
    ensures |list[j].peerOffset| == |list[j].peerSize| == |lo| && InPiece(list[j], lo)
  {
    PieceInside(c, lo, size, list, j);
  }

  // A request for one cell of the grid has exactly one piece, at its owner.
  lemma UnitFetch(c: Config, lo: IndexArray, size: IndexArray, list: seq<FetchInfo>)
    requires c.Valid() && |lo| == |size| == |c.gsize| && FetchPlan(c, lo, size, list)
    requires InBox(lo, c.gsize) && forall d | 0 <= d < |size| :: size[d] == 1
    ensures |list| == 1 && list[0].peerIndex == c.OwnerIndex(lo)
  {
    var k := FetchTiles(c, lo, size, list, lo);
    UnitPiece(c, lo, size, list, 0);
    if |list| > 1 {
      UnitPiece(c, lo, size, list, 1);
    }
  }

  // ------------------------------------------------------ partition loops

  ghost predicate PartitionsHold(c: Config, partitions: seq<seq<int>>, offsets: seq<seq<int>>,
                                 minPartition: IndexArray, n: int)
    requires c.Valid() && 0 <= n <= |c.gsize|
  {
    && |partitions| == |offsets| == |minPartition| == n
    && forall d | 0 <= d < n ::
        && |partitions[d]| == |offsets[d]| == c.psize[d]
        && minPartition[d] == PartSize(c.gsize[d], c.psize[d], 0)
        && forall j | 0 <= j < c.psize[d] ::
             partitions[d][j] == PartSize(c.gsize[d], c.psize[d], j)
             && offsets[d][j] == PartOffset(c.gsize[d], c.psize[d], j)
  }

  // The static function partition: process indices, partition lengths and
  // offsets, and the shortest partition of every dimension.
  method Partition(numDims: nat, numProcs: int, size: IndexArray, numPartitions: IndexArray)
    returns (partitions: seq<seq<int>>, offsets: seq<seq<int>>, procIndices: seq<IndexArray>, minPartition: IndexArray)
    requires Config(size, numPartitions).Valid() && numDims == |size|
    requires numProcs == Config(size, numPartitions).NumProcs() >= 0
    ensures PartitionsHold(Config(size, numPartitions), partitions, offsets, minPartition, |size|)
    ensures |procIndices| == numProcs
    ensures forall r | 0 <= r < numProcs :: procIndices[r] == Config(size, numPartitions).ProcIndex(r)
  {
    procIndices := [];
    for i := 0 to numProcs
      invariant |procIndices| == i
      invariant forall r | 0 <= r < i :: procIndices[r] == Config(size, numPartitions).ProcIndex(r)
    {
      var pidx := SplitIndex(i, numPartitions);
      procIndices := procIndices + [pidx];
    }
    partitions, offsets, minPartition := [], [], [];
    for i := 0 to numDims
      invariant PartitionsHold(Config(size, numPartitions), partitions, offsets, minPartition, i)
    {
      var p, o, m := PartitionDimension(size[i], numPartitions[i]);
      partitions, offsets, minPartition := partitions + [p], offsets + [o], minPartition + [m];
    }
  }

  // One dimension of the split. The shortest length starts at the first
  // partition, as the sentinel PSINDEX_MAX is above every length.
  method PartitionDimension(size: int, n: int) returns (partition: seq<int>, offsets: seq<int>, minimum: int)
    requires size >= 0 && n > 0
    ensures |partition| == |offsets| == n
    ensures forall j | 0 <= j < n :: partition[j] == PartSize(size, n, j) && offsets[j] == PartOffset(size, n, j)
    ensures minimum == PartSize(size, n, 0)
  {
    partition, offsets := [], [];
    var offset := 0;
    minimum := 0;
    for j := 0 to n
      invariant |partition| == |offsets| == j && offset == PartOffset(size, n, j)
      invariant forall k | 0 <= k < j :: partition[k] == PartSize(size, n, k)
      invariant forall k | 0 <= k < j :: offsets[k] == PartOffset(size, n, k)
      invariant j > 0 ==> minimum == PartSize(size, n, 0)
    {
      var part := PartitionLength(size, n, j);
      minimum := if j == 0 then part else Min(minimum, part);
      partition, offsets := partition + [part], offsets + [offset];
      PartNext(size, n, j);
      offset := offset + part;
    }
  }

  method PartitionLength(size: int, n: int, j: int) returns (part: int)
    requires size >= 0 && 0 <= j < n
    ensures part == PartSize(size, n, j)
    ensures part >= PartSize(size, n, 0)
  {
    var rem := size % n;
    part := size / n;
    if n - j <= rem {
      part := part + 1;
    }
    QuotientIsDivision(size, n);
    PartSizeBounds(size, n, j);
  }

  method LocalBox(ghost c: Config, partitions: seq<seq<int>>, offsets: seq<seq<int>>, ghost minPartition: IndexArray,
                  me: IndexArray) returns (off: IndexArray, size: IndexArray)
    requires c.Valid() && InBox(me, c.psize) && PartitionsHold(c, partitions, offsets, minPartition, |c.gsize|)
    ensures off == c.Offset(me) && size == c.Size(me)
  {
    off, size := [], [];
    for i := 0 to |me|
      invariant |off| == |size| == i
      invariant forall d | 0 <= d < i :: off[d] == c.Offset(me)[d] && size[d] == c.Size(me)[d]
    {
      off := off + [offsets[i][me[i]]];
      size := size + [partitions[i][me[i]]];
    }
  }

  lemma WrapAround(x: int, n: int)
    requires 0 <= x < n
    ensures (x + 1) % n == if x + 1 < n then x + 1 else 0
    ensures x == 0 ==> (x - 1 + n) % n == n - 1
  {
    if x + 1 < n { DivModUnique(n, 0, x + 1); } else { DivModUnique(n, 1, 0); }
    if x == 0 { DivModUnique(n, 0, n - 1); }
  }

  // Ranks of the neighbours, wrapping around at both ends.
  method NeighborRanks(ghost globalSize: IndexArray, procSize: IndexArray, ghost myRank: int, me: IndexArray)
    returns (fw: seq<int>, bw: seq<int>)
    requires Config(globalSize, procSize).Valid() && Config(globalSize, procSize).IsRank(myRank)
    requires InBox(me, procSize) && me == Config(globalSize, procSize).ProcIndex(myRank)
    ensures |fw| == |bw| == |procSize|
    ensures forall d | 0 <= d < |procSize| ::
      && fw[d] == FwRank(Config(globalSize, procSize), myRank, d)
      && bw[d] == BwRank(Config(globalSize, procSize), myRank, d)
  {
    fw, bw := [], [];
    ghost var c := Config(globalSize, procSize);
    for i := 0 to |procSize|
      invariant |fw| == |bw| == i
      invariant forall d | 0 <= d < i :: fw[d] == FwRank(c, myRank, d) && bw[d] == BwRank(c, myRank, d)
    {
      WrapAround(me[i], procSize[i]);
      var neighbor := me[i := me[i] + 1];
      neighbor := neighbor[i := neighbor[i] % procSize[i]];
      var f := LinearOffset(neighbor, procSize);
      assert neighbor == FwIndex(c, me, i);
      neighbor := neighbor[i := me[i] - 1];
      if neighbor[i] < 0 {
        neighbor := neighbor[i := (neighbor[i] + procSize[i]) % procSize[i]];
      }
      assert neighbor == BwIndex(c, me, i);
      var b := LinearOffset(neighbor, procSize);
      fw, bw := fw + [f], bw + [b];
    }
  }

  method ClipGrid(myOffset: IndexArray, mySize: IndexArray, size: IndexArray, globalOffset: IndexArray)
    returns (localOffset: IndexArray, localSize: IndexArray)
    requires |size| == |globalOffset| == |myOffset| == |mySize|
    ensures |localOffset| == |localSize| == |size|
    ensures forall d | 0 <= d < |size| ::
      && localOffset[d] == ClipOffset(myOffset[d], globalOffset[d])
      && localSize[d] == ClipSize(myOffset[d], mySize[d], globalOffset[d], size[d])
  {
    localOffset, localSize := [], [];
    for i := 0 to |size|
      invariant |localOffset| == |localSize| == i
      invariant forall d | 0 <= d < i ::
        && localOffset[d] == ClipOffset(myOffset[d], globalOffset[d])
        && localSize[d] == ClipSize(myOffset[d], mySize[d], globalOffset[d], size[d])
    {
      localOffset := localOffset + [Max(myOffset[i] - globalOffset[i], 0)];
      var first := Max(myOffset[i], globalOffset[i]);
      var last := Min(globalOffset[i] + size[i], myOffset[i] + mySize[i]);
      localSize := localSize + [Max(last - first, 0)];
    }
  }

  function MaxOf(a: IndexArray, b: IndexArray): (r: IndexArray)
    requires |a| == |b|
    ensures |r| == |a| && forall d | 0 <= d < |r| :: r[d] == Max(a[d], b[d])
  {
    seq(|a|, d requires 0 <= d < |a| => Max(a[d], b[d]))
  }

  function MinOf(a: IndexArray, b: IndexArray): (r: IndexArray)
    requires |a| == |b|
    ensures |r| == |a| && forall d | 0 <= d < |r| :: r[d] == Min(a[d], b[d])
  {
    seq(|a|, d requires 0 <= d < |a| => Min(a[d], b[d]))
  }

  method ClipDomain(myOffset: IndexArray, mySize: IndexArray, min: IndexArray, max: IndexArray)
    returns (localMin: IndexArray, localMax: IndexArray)
    requires |myOffset| == |mySize| == |min| == |max|
    ensures localMin == MaxOf(myOffset, min) && localMax == MinOf(Add(myOffset, mySize), max)
  {
    localMin, localMax := [], [];
    for i := 0 to |min|
      invariant |localMin| == |localMax| == i
      invariant forall d | 0 <= d < i ::
        localMin[d] == Max(myOffset[d], min[d]) && localMax[d] == Min(myOffset[d] + mySize[d], max[d])
    {
      localMin := localMin + [Max(myOffset[i], min[i])];
      localMax := localMax + [Min(myOffset[i] + mySize[i], max[i])];
    }
  }

  predicate InRange(v: IndexArray, lo: IndexArray, hi: IndexArray)
    requires |v| == |lo| == |hi|
  {
    forall d | 0 <= d < |v| :: lo[d] <= v[d] < hi[d]
  }

  lemma DomainClip(c: Config, idx: IndexArray, min: IndexArray, max: IndexArray, lo: IndexArray, hi: IndexArray, v: IndexArray)
    requires c.Valid() && InBox(idx, c.psize) && |v| == |min| == |max| == |lo| == |hi| == |c.gsize|
    requires forall d | 0 <= d < |v| ::
      lo[d] == Max(c.Offset(idx)[d], min[d]) && hi[d] == Min(c.Offset(idx)[d] + c.Size(idx)[d], max[d])
    ensures InRange(v, lo, hi) <==> InRange(v, min, max) && c.Holds(idx, v)
  {
    var u := Sub(v, c.Offset(idx));
    assert forall d | 0 <= d < |v| ::
      (lo[d] <= v[d] < hi[d]) <==> (min[d] <= v[d] < max[d] && 0 <= u[d] < c.Size(idx)[d]);
  }

  // ------------------------------------------------ extending the fetch list

  // The inner loop of the plan: every entry so far, continued in dimension d
  // by the piece [x, x + piece) of partition pidx.
  method AppendPieces(fetchInfo: seq<FetchInfo>, d: int, pidx: int, x: int, piece: int) returns (added: seq<FetchInfo>)
    requires 0 <= d && forall k | 0 <= k < |fetchInfo| ::
      |fetchInfo[k].peerIndex| == |fetchInfo[k].peerOffset| == |fetchInfo[k].peerSize| > d
    ensures |added| == |fetchInfo|
    ensures forall k | 0 <= k < |added| :: added[k] == Continue(fetchInfo[k], d, pidx, x, piece)
  {
    added := [];
    for k := 0 to |fetchInfo|
      invariant |added| == k
      invariant forall j | 0 <= j < k :: added[j] == Continue(fetchInfo[j], d, pidx, x, piece)
    {
      added := added + [Continue(fetchInfo[k], d, pidx, x, piece)];
    }
  }

  function Continue(info: FetchInfo, d: int, pidx: int, x: int, piece: int): FetchInfo
    requires 0 <= d < |info.peerIndex| && |info.peerIndex| == |info.peerOffset| == |info.peerSize|
  {
    info.(peerIndex := info.peerIndex[d := pidx], peerOffset := info.peerOffset[d := x],
          peerSize := info.peerSize[d := piece])
  }

  // The new entries of dimension d continue those of the earlier dimensions.
  ghost predicate ContinuesPeers(base: seq<FetchInfo>, added: seq<FetchInfo>, d: int, pidx: int) {
    && |added| == |base|
    && forall k | 0 <= k < |added| ::
        0 <= d < |base[k].peerIndex| && added[k].peerIndex == base[k].peerIndex[d := pidx]
  }

  lemma PieceContinues(c: Config, lo: IndexArray, size: IndexArray, d: int, base: seq<FetchInfo>,
                       added: seq<FetchInfo>, pidx: int, x: int, piece: int)
    requires c.Valid() && |lo| == |size| == |c.gsize| && 0 <= d < |c.gsize|
    requires AllClipped(c, lo, size, base, d) && Meets(c, lo, size, d, pidx)
    requires x == Max(lo[d], PartOffset(c.gsize[d], c.psize[d], pidx))
    requires x + piece == Min(lo[d] + size[d], PartOffset(c.gsize[d], c.psize[d], pidx + 1))
    requires |added| == |base|
    requires forall k | 0 <= k < |added| ::
      |base[k].peerIndex| == |base[k].peerOffset| == |base[k].peerSize| > d
      && added[k] == Continue(base[k], d, pidx, x, piece)
    ensures AllClipped(c, lo, size, added, d + 1) && ContinuesPeers(base, added, d, pidx)
  {
    forall k | 0 <= k < |added| ensures IsClip(c, lo, size, added[k], d + 1) {
      assert IsClip(c, lo, size, base[k], d);
    }
  }

  lemma ExtendEnumeration(c: Config, lo: IndexArray, size: IndexArray, d: int, bound: int,
                          base: seq<FetchInfo>, next: seq<FetchInfo>, added: seq<FetchInfo>, pidx: int)
    requires c.Valid() && |lo| == |size| == |c.gsize| && 0 <= d < |c.gsize|
    requires bound == (if d == 0 then 0 else c.psize[d - 1])
    requires Enumerates(c, lo, size, base, d, bound) && Enumerates(c, lo, size, next, d + 1, pidx)
    requires Meets(c, lo, size, d, pidx)
    requires AllClipped(c, lo, size, added, d + 1) && ContinuesPeers(base, added, d, pidx)
    ensures Enumerates(c, lo, size, next + added, d + 1, pidx + 1)
  {
    ExtendSelected(c, lo, size, d, bound, base, next, added, pidx);
    ExtendDistinct(c, lo, size, d, bound, base, next, added, pidx);
    ExtendComplete(c, lo, size, d, bound, base, next, added, pidx);
  }

  lemma ExtendSelected(c: Config, lo: IndexArray, size: IndexArray, d: int, bound: int, base: seq<FetchInfo>,
                       next: seq<FetchInfo>, added: seq<FetchInfo>, pidx: int)
    requires c.Valid() && |lo| == |size| == |c.gsize| && 0 <= d < |c.gsize| && Meets(c, lo, size, d, pidx)
    requires AllSelected(c, lo, size, base, d, bound) && AllSelected(c, lo, size, next, d + 1, pidx)
    requires ContinuesPeers(base, added, d, pidx)
    ensures AllSelected(c, lo, size, next + added, d + 1, pidx + 1)
  {
    var list, n, b := next + added, d + 1, pidx + 1;
    forall k | 0 <= k < |list| ensures Selected(c, lo, size, list[k].peerIndex, n, b) {
      if k < |next| {
        assert Selected(c, lo, size, next[k].peerIndex, n, pidx);
      } else {
        assert Selected(c, lo, size, base[k - |next|].peerIndex, d, bound);
      }
    }
  }

  lemma ExtendDistinct(c: Config, lo: IndexArray, size: IndexArray, d: int, bound: int, base: seq<FetchInfo>,
                       next: seq<FetchInfo>, added: seq<FetchInfo>, pidx: int)
    requires c.Valid() && |lo| == |size| == |c.gsize| && 0 <= d < |c.gsize|
    requires AllSelected(c, lo, size, base, d, bound) && AllSelected(c, lo, size, next, d + 1, pidx)
    requires DistinctPeers(base) && DistinctPeers(next) && ContinuesPeers(base, added, d, pidx)
    ensures DistinctPeers(next + added)
  {
    var list, n := next + added, d + 1;
    forall j, k | 0 <= j < k < |list| ensures list[j].peerIndex != list[k].peerIndex {
      if j < |next| <= k {
        assert Selected(c, lo, size, next[j].peerIndex, n, pidx);
      } else if |next| <= j {
        var a, b := base[j - |next|].peerIndex, base[k - |next|].peerIndex;
        assert Selected(c, lo, size, a, d, bound) && Selected(c, lo, size, b, d, bound);
        assert a == a[d := pidx][d := 0] && b == b[d := pidx][d := 0];
      }
    }
  }

  lemma ExtendComplete(c: Config, lo: IndexArray, size: IndexArray, d: int, bound: int, base: seq<FetchInfo>,
                       next: seq<FetchInfo>, added: seq<FetchInfo>, pidx: int)
    requires c.Valid() && |lo| == |size| == |c.gsize| && 0 <= d < |c.gsize|
    requires bound == (if d == 0 then 0 else c.psize[d - 1])
    requires Complete(c, lo, size, base, d, bound) && Complete(c, lo, size, next, d + 1, pidx)
    requires ContinuesPeers(base, added, d, pidx)
    ensures Complete(c, lo, size, next + added, d + 1, pidx + 1)
  {
    var list, n, b := next + added, d + 1, pidx + 1;
    forall idx | Required(c, lo, size, idx, n, b) ensures exists k :: 0 <= k < |list| && list[k].peerIndex == idx {
      RequiredBefore(c, lo, size, d, bound, pidx, idx);
      if idx[d] == pidx {
        var j :| 0 <= j < |base| && base[j].peerIndex == idx[d := 0];
        assert list[|next| + j].peerIndex == added[j].peerIndex == idx;
      } else {
        var j :| 0 <= j < |next| && next[j].peerIndex == idx;
        assert list[j].peerIndex == idx;
      }
    }
  }

  // A process required after the new partition was required before it, or
  // continues one required in the earlier dimensions.
  lemma RequiredBefore(c: Config, lo: IndexArray, size: IndexArray, d: int, bound: int, pidx: int, idx: IndexArray)
    requires c.Valid() && |lo| == |size| == |c.gsize| && 0 <= d < |c.gsize|
    requires bound == (if d == 0 then 0 else c.psize[d - 1])
    requires Selected(c, lo, size, idx, d + 1, pidx + 1)
    ensures idx[d] == pidx ==> Required(c, lo, size, idx[d := 0], d, bound)
    ensures idx[d] != pidx ==> Required(c, lo, size, idx, d + 1, pidx)
  {
    assert d > 0 ==> Meets(c, lo, size, d - 1, idx[d - 1]);
    var root := idx[d := 0];
    assert forall e | 0 <= e < d :: Meets(c, lo, size, e, idx[e]) && root[e] == idx[e];
  }

  lemma SkipEnumeration(c: Config, lo: IndexArray, size: IndexArray, d: int, next: seq<FetchInfo>, pidx: int, upto: int)
    requires c.Valid() && |lo| == |size| == |c.gsize| && 0 <= d < |c.gsize| && 0 <= pidx <= upto
    requires Enumerates(c, lo, size, next, d + 1, pidx)
    requires forall p | pidx <= p < upto :: !Meets(c, lo, size, d, p)
    ensures Enumerates(c, lo, size, next, d + 1, upto)
  {
    var n := d + 1;
    forall idx | Required(c, lo, size, idx, n, upto) ensures Required(c, lo, size, idx, n, pidx) {
      assert Meets(c, lo, size, d, idx[d]);
    }
  }

  // One partition of a dimension, seen from the first coordinate x of the
  // request that is not yet planned.
  lemma PartitionStep(c: Config, lo: IndexArray, size: IndexArray, d: int, p: int, x: int)
    requires c.Valid() && |lo| == |size| == |c.gsize| && 0 <= d < |c.gsize| && 0 <= p < c.psize[d]
    requires x == Max(lo[d], PartOffset(c.gsize[d], c.psize[d], p)) && x < lo[d] + size[d]
    ensures var end := PartOffset(c.gsize[d], c.psize[d], p) + PartSize(c.gsize[d], c.psize[d], p);
      && (x < end <==> Meets(c, lo, size, d, p))
      && x + Min(end - x, lo[d] + size[d] - x) == Min(lo[d] + size[d], PartOffset(c.gsize[d], c.psize[d], p + 1))
      && (if x < end then end else x) == Max(lo[d], PartOffset(c.gsize[d], c.psize[d], p + 1))
  {
    PartNext(c.gsize[d], c.psize[d], p);
    PartSizeBounds(c.gsize[d], c.psize[d], p);
  }

  lemma RequestEnds(c: Config, lo: IndexArray, size: IndexArray, d: int, p: int)
    requires c.Valid() && |lo| == |size| == |c.gsize| && 0 <= d < |c.gsize| && 0 <= p <= c.psize[d]
    requires p < c.psize[d] ==> Max(lo[d], PartOffset(c.gsize[d], c.psize[d], p)) >= lo[d] + size[d]
    ensures forall q | p <= q < c.psize[d] :: !Meets(c, lo, size, d, q)
  {
    forall q | p <= q < c.psize[d] ensures !Meets(c, lo, size, d, q) {
      PartOffsetMonotone(c.gsize[d], c.psize[d], p, q);
    }
  }

  // One dimension of the plan: the partitions are visited in order and every
  // entry so far is continued by each of them that the request meets.
  method CollectDimension(ghost c: Config, gridOffset: IndexArray, gridSize: IndexArray, d: int,
                          partitions: seq<int>, offsets: seq<int>, fetchInfo: seq<FetchInfo>)
    returns (fetchInfoNext: seq<FetchInfo>)
    requires c.Valid() && |gridOffset| == |gridSize| == |c.gsize| && 0 <= d < |c.gsize| && gridOffset[d] >= 0
    requires |partitions| == |offsets| == c.psize[d]
    requires forall j | 0 <= j < c.psize[d] ::
      partitions[j] == PartSize(c.gsize[d], c.psize[d], j) && offsets[j] == PartOffset(c.gsize[d], c.psize[d], j)
    requires Enumerates(c, gridOffset, gridSize, fetchInfo, d, if d == 0 then 0 else c.psize[d - 1])
    ensures Enumerates(c, gridOffset, gridSize, fetchInfoNext, d + 1, c.psize[d])
  {
    ghost var bound := if d == 0 then 0 else c.psize[d - 1];
    fetchInfoNext := [];
    var lim := gridOffset[d] + gridSize[d];
    var x := gridOffset[d];
    var pidx := 0;
    while pidx < |offsets| && x < lim
      invariant 0 <= pidx <= |offsets|
      invariant x == Max(gridOffset[d], PartOffset(c.gsize[d], c.psize[d], pidx))
      invariant Enumerates(c, gridOffset, gridSize, fetchInfoNext, d + 1, pidx)
    {
      fetchInfoNext, x := VisitPartition(c, gridOffset, gridSize, d, bound, fetchInfo, fetchInfoNext, pidx, x, lim,
                                         offsets[pidx] + partitions[pidx]);
      pidx := pidx + 1;
    }
    RequestEnds(c, gridOffset, gridSize, d, pidx);
    SkipEnumeration(c, gridOffset, gridSize, d, fetchInfoNext, pidx, c.psize[d]);
  }

  method VisitPartition(ghost c: Config, ghost lo: IndexArray, ghost size: IndexArray, d: int, ghost bound: int,
                        base: seq<FetchInfo>, next: seq<FetchInfo>, pidx: int, x: int, lim: int, end: int)
    returns (list: seq<FetchInfo>, rest: int)
    requires c.Valid() && |lo| == |size| == |c.gsize| && 0 <= d < |c.gsize| && 0 <= pidx < c.psize[d]
    requires bound == (if d == 0 then 0 else c.psize[d - 1])
    requires Enumerates(c, lo, size, base, d, bound) && Enumerates(c, lo, size, next, d + 1, pidx)
    requires x == Max(lo[d], PartOffset(c.gsize[d], c.psize[d], pidx)) && x < lim == lo[d] + size[d]
    requires end == PartOffset(c.gsize[d], c.psize[d], pidx) + PartSize(c.gsize[d], c.psize[d], pidx)
    ensures rest == Max(lo[d], PartOffset(c.gsize[d], c.psize[d], pidx + 1))
    ensures Enumerates(c, lo, size, list, d + 1, pidx + 1)
  {
    PartitionStep(c, lo, size, d, pidx, x);
    if x < end {
      list := PlanPartition(c, lo, size, d, bound, base, next, pidx, x, Min(end - x, lim - x));
      rest := end;
    } else {
      SkipEnumeration(c, lo, size, d, next, pidx, pidx + 1);
      list, rest := next, x;
    }
  }

  method PlanPartition(ghost c: Config, ghost lo: IndexArray, ghost size: IndexArray, d: int, ghost bound: int,
                       base: seq<FetchInfo>, next: seq<FetchInfo>, pidx: int, x: int, piece: int)
    returns (list: seq<FetchInfo>)
    requires c.Valid() && |lo| == |size| == |c.gsize| && 0 <= d < |c.gsize|
    requires bound == (if d == 0 then 0 else c.psize[d - 1])
    requires Enumerates(c, lo, size, base, d, bound) && Enumerates(c, lo, size, next, d + 1, pidx)
    requires Meets(c, lo, size, d, pidx)
    requires x == Max(lo[d], PartOffset(c.gsize[d], c.psize[d], pidx))
    requires x + piece == Min(lo[d] + size[d], PartOffset(c.gsize[d], c.psize[d], pidx + 1))
    ensures Enumerates(c, lo, size, list, d + 1, pidx + 1)
  {
    var added := AppendPieces(base, d, pidx, x, piece);
    PieceContinues(c, lo, size, d, base, added, pidx, x, piece);
    ExtendEnumeration(c, lo, size, d, bound, base, next, added, pidx);
    list := next + added;
  }

  // The state of a grid space that its constructor sets up.
  class GridSpaceMPI {
    var globalSize: IndexArray
    var procSize: IndexArray
    var myRank: int
    var numProcs: int
    var partitions: seq<seq<int>>
    var offsets: seq<seq<int>>
    var minPartition: IndexArray
    var procIndices: seq<IndexArray>
    var myIdx: IndexArray
    var myOffset: IndexArray
    var mySize: IndexArray
    var fwNeighbors: seq<int>
    var bwNeighbors: seq<int>

    function Cfg(): Config reads this { Config(globalSize, procSize) }

    // The fields hold the decomposition of Cfg as seen by myRank.
    ghost predicate Valid() reads this {
      && Cfg().Valid()
      && numProcs == Cfg().NumProcs()
      && Cfg().IsRank(myRank)
      && PartitionsHold(Cfg(), partitions, offsets, minPartition, |globalSize|)
      && |procIndices| == numProcs
      && (forall r | 0 <= r < numProcs :: procIndices[r] == Cfg().ProcIndex(r))
      && myIdx == Cfg().ProcIndex(myRank) && InBox(myIdx, procSize)
      && myOffset == Cfg().Offset(myIdx) && mySize == Cfg().Size(myIdx)
      && |fwNeighbors| == |bwNeighbors| == |globalSize|
      && (forall d | 0 <= d < |globalSize| ::
            fwNeighbors[d] == FwRank(Cfg(), myRank, d) && bwNeighbors[d] == BwRank(Cfg(), myRank, d))
    }

    constructor (numDims: nat, globalSize: IndexArray, procNumDims: nat, procSize: IndexArray, myRank: int)
      requires numDims == procNumDims == |globalSize| && Config(globalSize, procSize).Valid()
      requires Config(globalSize, procSize).IsRank(myRank)
      ensures Valid() && this.globalSize == globalSize && this.procSize == procSize && this.myRank == myRank
    {
      this.globalSize, this.procSize, this.myRank := globalSize, procSize, myRank;
      ghost var c := Config(globalSize, procSize);
      var total := Accumulate(procSize);
      numProcs := total;
      var parts, offs, indices, minPart := Partition(numDims, total, globalSize, procSize);
      partitions, offsets, procIndices, minPartition := parts, offs, indices, minPart;
      var me := indices[myRank];
      RankBijection(c, myRank, me);
      myIdx := me;
      var off, size := LocalBox(c, parts, offs, minPart, me);
      var fw, bw := NeighborRanks(globalSize, procSize, myRank, me);
      myOffset, mySize, fwNeighbors, bwNeighbors := off, size, fw, bw;
    }

    method GetProcessRank(procIndex: IndexArray) returns (rank: int)
      requires Valid() && |procIndex| == |procSize|
      ensures rank == Cfg().RankOf(procIndex)
    {
      rank := LinearOffset(procIndex, procSize);
    }

    // Local part of a grid of extents size placed at globalOffset.
    method PartitionGrid(size: IndexArray, globalOffset: IndexArray) returns (localOffset: IndexArray, localSize: IndexArray)
      requires Valid() && |size| == |globalOffset| == |globalSize|
      ensures |localOffset| == |localSize| == |size|
      ensures forall d | 0 <= d < |size| ::
        && localOffset[d] == ClipOffset(myOffset[d], globalOffset[d])
        && localSize[d] == ClipSize(myOffset[d], mySize[d], globalOffset[d], size[d])
    {
      localOffset, localSize := ClipGrid(myOffset, mySize, size, globalOffset);
    }

    // Local part of a domain [min, max): the whole box collapses to the origin
    // when it is lexicographically empty.
    method DomainNew(min: IndexArray, max: IndexArray) returns (localMin: IndexArray, localMax: IndexArray)
      requires Valid() && |min| == |max| == |globalSize|
      ensures |localMin| == |localMax| == |min|
      ensures forall v: IndexArray | |v| == |min| ::
        InRange(v, localMin, localMax) <==> InRange(v, min, max) && Cfg().Holds(myIdx, v)
      ensures var lo, hi := MaxOf(myOffset, min), MinOf(Add(myOffset, mySize), max);
        if LexLess(lo, hi) then localMin == lo && localMax == hi
        else forall d | 0 <= d < |min| :: localMin[d] == localMax[d] == 0
    {
      localMin, localMax := ClipDomain(myOffset, mySize, min, max);
      ghost var lo, hi := localMin, localMax;
      if !LexLess(localMin, localMax) {
        localMin := seq(|min|, d => 0);
        localMax := seq(|min|, d => 0);
      }
      forall v: IndexArray | |v| == |min|
        ensures InRange(v, localMin, localMax) <==> InRange(v, min, max) && Cfg().Holds(myIdx, v)
      {
        DomainClip(Cfg(), myIdx, min, max, lo, hi, v);
        if localMin != lo || localMax != hi {
          LexEmpty(lo, hi, v);
        }
      }
    }

    // The pieces of the request [gridOffset, gridOffset + gridSize) for a grid
    // whose global offset is zero.
    method CollectPerProcSubgridInfo(gridOffset: IndexArray, gridSize: IndexArray) returns (finfo: seq<FetchInfo>)
      requires Valid() && |gridOffset| == |gridSize| == |globalSize|
      requires forall d | 0 <= d < |gridOffset| :: gridOffset[d] >= 0
      ensures FetchPlan(Cfg(), gridOffset, gridSize, finfo)
    {
      ghost var c := Cfg();
      ghost var n := |globalSize|;
      var zero := seq(|globalSize|, i => 0);
      finfo := [FetchInfo(zero, zero, zero)];
      assert Enumerates(c, gridOffset, gridSize, finfo, 0, 0) by {
        forall idx | Required(c, gridOffset, gridSize, idx, 0, 0) ensures finfo[0].peerIndex == idx {
        }
      }
      for d := 0 to |globalSize|
        invariant Enumerates(c, gridOffset, gridSize, finfo, d, if d == 0 then 0 else procSize[d - 1])
      {
        finfo := CollectDimension(c, gridOffset, gridSize, d, partitions[d], offsets[d], finfo);
      }
    }

    // The rank of the process that holds a cell.
    method FindOwnerProcess(index: IndexArray) returns (rank: int)
      requires Valid() && InBox(index, globalSize)
      ensures Cfg().IsRank(rank) && rank == Cfg().Owner(index)
      ensures forall r | Cfg().IsRank(r) ::
        InBox(Cfg().ProcIndex(r), procSize) && (Cfg().Holds(Cfg().ProcIndex(r), index) <==> r == rank)
    {
      var one := seq(|globalSize|, i => 1);
      var fetchRequests := CollectPerProcSubgridInfo(index, one);
      UnitFetch(Cfg(), index, one, fetchRequests);
      rank := GetProcessRank(fetchRequests[0].peerIndex);
      OwnerUnique(Cfg(), index, myRank);
      forall r | Cfg().IsRank(r)
        ensures InBox(Cfg().ProcIndex(r), procSize) && (Cfg().Holds(Cfg().ProcIndex(r), index) <==> r == rank)
      {
        OwnerUnique(Cfg(), index, r);
      }
    }
  }
}
