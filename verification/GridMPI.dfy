// A distributed grid of three dimensions (class GridMPI in
// runtime/grid_mpi.cc): its halo fields, the packing of a halo for a
// neighbour, and the address computation of runtime/mpi_runtime.cc.
module GridMPI {
  import opened MixedRadix
  import opened Subgrid
  import opened RemoteGrid
  import opened HaloExchange
  import opened HaloPack
  import HaloFlag

  // A pointer into a buffer.
  datatype Pointer = Pointer(buf: array<Elem>, pos: nat)

  ghost function Contents(bufs: seq<array<Elem>>): (s: seq<seq<Elem>>)
    reads bufs
    ensures |s| == |bufs| && forall d | 0 <= d < |s| :: s[d] == bufs[d][..]
  {
    seq(|bufs|, d requires 0 <= d < |bufs| reads bufs => bufs[d][..])
  }

  // The inner loop of __PSGridGetAddr: in the dimensions behind i a halo starts
  // at the backward halo of that dimension.
  method BehindHalos(v: IndexArray, i: nat, diagonal: bool, haloBwWidth: IndexArray) returns (indices: IndexArray)
    requires |v| == |haloBwWidth| == PS_MAX_DIM && i < PS_MAX_DIM
    ensures |indices| == PS_MAX_DIM
    ensures forall d | 0 <= d < PS_MAX_DIM :: indices[d] == v[d] + (if i < d && diagonal then haloBwWidth[d] else 0)
  {
    indices := v;
    for j := i + 1 to PS_MAX_DIM
      invariant |indices| == PS_MAX_DIM
      invariant forall d | 0 <= d < PS_MAX_DIM ::
        indices[d] == v[d] + (if i < d < j && diagonal then haloBwWidth[d] else 0)
    {
      if diagonal {
        indices := indices[j := indices[j] + haloBwWidth[j]];
      }
    }
  }

  // The reader of a grid: __PSGridGetAddr. The index vector is changed in
  // place; diagonal is the flag halo_has_diagonal_.
  method GetAddr(localOffset: IndexArray, localSize: IndexArray, haloBwWidth: IndexArray,
                 haloBwSize: seq<IndexArray>, haloFwSize: seq<IndexArray>, diagonal: bool,
                 remoteActive: bool, remoteOffset: IndexArray, remoteSize: IndexArray,
                 index: IndexArray, ghost L: Local) returns (place: Place)
    requires |index| == |localOffset| == PS_MAX_DIM && L.WellFormed(PS_MAX_DIM)
    requires localSize == L.size && haloBwWidth == L.bw && haloBwSize == L.bwSize && haloFwSize == L.fwSize
    requires diagonal == L.hasDiagonal
    requires remoteActive == L.remote.active && remoteOffset == L.remote.offset && remoteSize == L.remote.size
    ensures place == Address(L, localOffset, index)
  {
    if remoteActive {
      return InRemote(GridCalcOffset3D(Sub(index, remoteOffset), remoteSize));
    }
    var indices := Sub(index, localOffset);
    ghost var v := indices;
    for i := 0 to PS_MAX_DIM
      invariant indices == v && forall d | 0 <= d < i :: !Out(v, localSize, d)
    {
      if indices[i] < 0 || indices[i] >= localSize[i] {
        FirstOutIs(v, localSize, i);
        indices := BehindHalos(indices, i, diagonal, haloBwWidth);
        if indices[i] < 0 {
          indices := indices[i := indices[i] + haloBwWidth[i]];
          assert indices == HaloIndex(L, diagonal, v, i);
          place := Backward(i, GridCalcOffset3D(indices, haloBwSize[i]));
        } else {
          indices := indices[i := indices[i] - localSize[i]];
          assert indices == HaloIndex(L, diagonal, v, i);
          place := Forward(i, GridCalcOffset3D(indices, haloFwSize[i]));
        }
        return;
      }
    }
    assert FirstOut(v, localSize, 0) == PS_MAX_DIM;
    place := Own(GridCalcOffset3D(indices, localSize));
  }

  // __PSGridCalcOffset3D is the row-major position.
  function GridCalcOffset3D(index: IndexArray, size: IndexArray): (p: int)
    requires |index| == |size| == 3
    ensures p == Lin(index, size)
  {
    Unfold3(index, size);
    index[0] + index[1] * size[0] + index[2] * size[0] * size[1]
  }

  // A grid of fewer dimensions leaves the extents of the others at zero. The
  // loop of the reader runs over all of them, and takes every own cell for a
  // halo cell.
  lemma UnsetDimensionMisread(L: Local, diagonal: bool, v: IndexArray)
    requires |v| == PS_MAX_DIM && L.WellFormed(PS_MAX_DIM) && L.size[2] == 0
    requires 0 <= v[0] < L.size[0] && 0 <= v[1] < L.size[1] && v[2] == 0
    ensures Locate(L, diagonal, v) == Forward(2, Lin(v, L.fwSize[2]))
  {
    FirstOutIs(v, L.size, 2);
    assert HaloIndex(L, diagonal, v, 2) == v;
  }

  // An own cell of a grid of n dimensions, as the reader gets it: the
  // coordinates behind n are 0.
  ghost predicate OwnCell(L: Local, n: nat, v: IndexArray)
    requires L.WellFormed(PS_MAX_DIM)
  {
    |v| == PS_MAX_DIM && forall d | 0 <= d < PS_MAX_DIM :: if d < n then 0 <= v[d] < L.size[d] else v[d] == 0
  }

  ghost predicate FindsOwn(L: Local, n: nat, diagonal: bool, v: IndexArray)
    requires L.WellFormed(PS_MAX_DIM)
  {
    OwnCell(L, n, v) ==> Locate(L, diagonal, v) == Own(Lin(v, L.size))
  }

  // For a process with cells of a grid of n dimensions, the reader finds every
  // own cell exactly if the extents of the other dimensions are not left at
  // zero.
  lemma OwnFoundIff(L: Local, n: nat, diagonal: bool)
    requires 0 < n <= PS_MAX_DIM && L.WellFormed(PS_MAX_DIM) && forall d | 0 <= d < n :: L.size[d] > 0
    ensures (forall v :: FindsOwn(L, n, diagonal, v)) <==> forall d | n <= d < PS_MAX_DIM :: L.size[d] > 0
  {
    if forall d | n <= d < PS_MAX_DIM :: L.size[d] > 0 {
      forall v ensures FindsOwn(L, n, diagonal, v) {
        if OwnCell(L, n, v) {
          assert FirstOut(v, L.size, 0) == PS_MAX_DIM;
        }
      }
    } else {
      var v := Vec3(0, 0, 0);
      var d :| n <= d < PS_MAX_DIM && L.size[d] <= 0;
      assert Out(v, L.size, d);
      assert FirstOut(v, L.size, 0) <= d;
      assert !FindsOwn(L, n, diagonal, v);
    }
  }

  // The constructor leaves the extents of missing dimensions at zero, so that
  // only grids of PS_MAX_DIM dimensions are read right.
  lemma OwnFoundFull(L: Local, n: nat, diagonal: bool)
    requires 0 < n <= PS_MAX_DIM && L.WellFormed(PS_MAX_DIM) && forall d | 0 <= d < n :: L.size[d] > 0
    requires forall d | n <= d < PS_MAX_DIM :: L.size[d] == 0
    ensures (forall v :: FindsOwn(L, n, diagonal, v)) <==> n == PS_MAX_DIM
  {
    OwnFoundIff(L, n, diagonal);
    if n < PS_MAX_DIM {
      assert L.size[n] == 0;
    }
  }

  // In a three-dimensional exchange every process is ready to pack a
  // dimension once the later ones were received: CopyoutHalo's precondition.
  lemma ReadyToPack(e: Exchange, w: World, r: nat, d: nat)
    requires e.Valid() && e.Joined() && e.Fits() && WorldShape(e, w) && r < |w| && !w[r].Empty() && d < e.Dims() == 3
    ensures forall forward | e.SendsHalo(r, d, forward) ::
      0 < (if forward then e.fwWidth[d] else e.bwWidth[d]) <= ExchangeFrom(e, w, d + 1)[r].size[d]
    ensures Exchanged(ExchangeFrom(e, w, d + 1)[r], e.diagonal, d)
  {
    var L := ExchangeFrom(e, w, d + 1)[r];
    HaloFlag.ShapesAfter(e, w, r, d + 1);
    VolumeSign(L.size);
    forall forward | e.SendsHalo(r, d, forward)
      ensures 0 < (if forward then e.fwWidth[d] else e.bwWidth[d]) <= L.size[d]
    {
      assert e.geo.HasCells(r) && e.FitsAt(r, d, forward);
    }
    forall j: nat | d < j < 3 ensures HaloHeld(L, e.diagonal, j) {
      HaloFlag.LengthAfter(e, w, r, d + 1, j);
      assert HaloFlag.ShapeSet(e, r, L, j);
    }
  }

  lemma ProductStep(s: int, shape: IndexArray, i: nat)
    requires i < |shape|
    ensures s * Volume(shape[i..]) == (s * shape[i]) * Volume(shape[i + 1..])
  {
    assert shape[i..][1..] == shape[i + 1..];
    assert s * (shape[i] * Volume(shape[i + 1..])) == s * shape[i] * Volume(shape[i + 1..]);
  }

  // The length of a packed halo does not depend on the flag.
  lemma PackLength(L: Local, d: nat, width: nat, forward: bool, diagonal: bool)
    requires L.WellFormed(3) && d < 3
    ensures |Pack(L, d, width, forward, diagonal)| == Volume(HaloShape(L.(hasDiagonal := diagonal), d, width, diagonal))
  {
    VolumeSign(HaloShape(L, d, width, diagonal));
    assert HaloShape(L, d, width, diagonal) == HaloShape(L.(hasDiagonal := diagonal), d, width, diagonal);
  }

  class GridMPI {
    var localSize: IndexArray
    var data: array<Elem>
    var haloFwWidth: IndexArray
    var haloBwWidth: IndexArray
    var haloFwSize: seq<IndexArray>
    var haloBwSize: seq<IndexArray>
    var haloPeerFw: seq<array<Elem>>
    var haloPeerBw: seq<array<Elem>>
    var haloSelfFw: seq<Pointer>
    var haloSelfBw: seq<Pointer>
    var haloHasDiagonal: bool
    var remote: Remote

    // The grid as a value.
    ghost function Snapshot(): Local
      reads this, data, haloPeerFw, haloPeerBw
    {
      Local(localSize, data[..], haloBwWidth, haloFwWidth, haloBwSize, haloFwSize,
            Contents(haloPeerBw), Contents(haloPeerFw), haloHasDiagonal, remote)
    }

    ghost predicate Valid()
      reads this, data, haloPeerFw, haloPeerBw
    {
      && Snapshot().WellFormed(3) && Positive(localSize) && data.Length == Volume(localSize)
      && |haloSelfFw| == |haloSelfBw| == 3
      && SeparateBuffers(haloSelfFw, haloSelfBw)
    }

    // The send buffers of dimensions 0 and 1 start at their array and alias
    // nothing that is sent from.
    ghost predicate SeparateBuffers(selfFw: seq<Pointer>, selfBw: seq<Pointer>)
      reads this
    {
      && |selfFw| == |selfBw| == 3
      && forall d | 0 <= d < 2 :: SendBuffer(selfFw[d]) && SendBuffer(selfBw[d])
    }

    ghost predicate SendBuffer(p: Pointer)
      reads this
    {
      p.pos == 0 && p.buf != data && p.buf !in haloPeerFw && p.buf !in haloPeerBw
    }

    // Number of cells of a halo.
    method CalcHaloSize(dim: nat, width: nat, diagonal: bool) returns (s: int)
      requires Valid() && dim < 3
      ensures s == Volume(HaloShape(Snapshot(), dim, width, diagonal))
    {
      ghost var shape := HaloShape(Snapshot(), dim, width, diagonal);
      s := 1;
      for i := 0 to 3
        invariant s * Volume(shape[i..]) == Volume(shape)
      {
        assert shape[i] == HaloEdge(dim, width, diagonal, i);
        ProductStep(s, shape, i);
        s := s * HaloEdge(dim, width, diagonal, i);
      }
      assert shape[3..] == [];
    }

    // Extent i of a halo, as both CalcHaloSize and SetHaloSize compute it.
    function HaloEdge(dim: nat, width: nat, diagonal: bool, i: nat): (edge: int)
      requires i < |localSize| == |haloFwWidth| == |haloBwWidth|
      reads this
    {
      if i == dim then width
      else if diagonal && i > dim then localSize[i] + (haloFwWidth[i] + haloBwWidth[i])
      else localSize[i]
    }

    method SetHaloSize(dim: nat, forward: bool, width: nat, diagonal: bool)
      requires Valid() && dim < 3
      modifies this`haloFwSize, this`haloBwSize
      ensures Valid()
      ensures var L := old(Snapshot());
        Snapshot() == (if forward then L.(fwSize := L.fwSize[dim := HaloShape(L, dim, width, diagonal)])
                       else L.(bwSize := L.bwSize[dim := HaloShape(L, dim, width, diagonal)]))
    {
      var s := [];
      for i := 0 to 3
        invariant |s| == i && forall j | 0 <= j < i :: s[j] == HaloShape(Snapshot(), dim, width, diagonal)[j]
      {
        s := s + [HaloEdge(dim, width, diagonal, i)];
      }
      assert s == HaloShape(Snapshot(), dim, width, diagonal);
      if forward {
        haloFwSize := haloFwSize[dim := s];
      } else {
        haloBwSize := haloBwSize[dim := s];
      }
    }

    // A send buffer that is large enough.
    method GetHaloBuf(dim: nat, width: nat, forward: bool, diagonal: bool) returns (buf: array<Elem>)
      requires Valid() && dim < 2
      modifies this`haloSelfFw, this`haloSelfBw
      ensures Valid() && Snapshot() == old(Snapshot())
      ensures buf.Length >= Volume(HaloShape(Snapshot(), dim, width, diagonal))
      ensures SendBuffer(Pointer(buf, 0))
      ensures (if forward then haloSelfFw else haloSelfBw)[dim] == Pointer(buf, 0)
      ensures fresh(buf) || buf == old(if forward then haloSelfFw else haloSelfBw)[dim].buf
    {
      var needed := CalcHaloSize(dim, width, diagonal);
      buf := (if forward then haloSelfFw else haloSelfBw)[dim].buf;
      if buf.Length < needed {
        buf := new Elem[needed];
      }
      AimAt(dim, forward, buf);
    }

    // Points the send pointer of a dimension at a buffer.
    method AimAt(dim: nat, forward: bool, buf: array<Elem>)
      requires Valid() && dim < 2 && SendBuffer(Pointer(buf, 0))
      modifies this`haloSelfFw, this`haloSelfBw
      ensures Valid() && Snapshot() == old(Snapshot())
      ensures (if forward then haloSelfFw else haloSelfBw)[dim] == Pointer(buf, 0)
    {
      if forward {
        haloSelfFw := haloSelfFw[dim := Pointer(buf, 0)];
      } else {
        haloSelfBw := haloSelfBw[dim := Pointer(buf, 0)];
      }
    }

    // The first n cells behind the send pointer of a dimension.
    ghost predicate Sends(dim: nat, forward: bool, halo: seq<Elem>)
      reads this, set d | 0 <= d < |haloSelfFw| :: haloSelfFw[d].buf, set d | 0 <= d < |haloSelfBw| :: haloSelfBw[d].buf
      requires dim < |haloSelfFw| && dim < |haloSelfBw|
    {
      var p := (if forward then haloSelfFw else haloSelfBw)[dim];
      p.pos + |halo| <= p.buf.Length && p.buf[p.pos..p.pos + |halo|] == halo
    }

    ghost function SendBuffers(): set<array<Elem>>
      reads this
      requires |haloSelfFw| == |haloSelfBw| == 3
    {
      {haloSelfFw[0].buf, haloSelfFw[1].buf, haloSelfBw[0].buf, haloSelfBw[1].buf}
    }

    // Prepares a halo for sending: to the backward neighbour, for its forward
    // accesses, if forward. The halo of the last dimension is sent from the
    // data itself.
    method CopyoutHalo(dim: nat, width: nat, forward: bool, diagonal: bool)
      requires Valid() && dim < 3 && 0 < width <= localSize[dim] && Exchanged(Snapshot(), diagonal, dim)
      modifies this`haloHasDiagonal, this`haloSelfFw, this`haloSelfBw, SendBuffers()
      ensures Valid() && Snapshot() == old(Snapshot()).(hasDiagonal := diagonal)
      ensures Sends(dim, forward, Pack(old(Snapshot()), dim, width, forward, diagonal))
    {
      ghost var L := Snapshot();
      haloHasDiagonal := diagonal;
      if dim == 2 {
        PointIntoData(L, width, forward, diagonal);
      } else {
        var buf := GetHaloBuf(dim, width, forward, diagonal);
        PackLength(L, dim, width, forward, diagonal);
        PackHalo(L, dim, width, forward, diagonal, buf);
      }
    }

    method PointIntoData(ghost L: Local, width: nat, forward: bool, diagonal: bool)
      requires Valid() && 0 < width <= localSize[2] && Snapshot() == L.(hasDiagonal := diagonal)
      modifies this`haloSelfFw, this`haloSelfBw
      ensures Valid() && Snapshot() == old(Snapshot())
      ensures Sends(2, forward, Pack(L, 2, width, forward, diagonal))
    {
      if forward {
        LastPack(L, diagonal, width, forward, 0);
        haloSelfFw := haloSelfFw[2 := Pointer(data, 0)];
      } else {
        assert localSize[2 := localSize[2] - width] == Vec3(localSize[0], localSize[1], localSize[2] - width);
        var s := Accumulate(localSize[2 := localSize[2] - width]);
        LastPack(L, diagonal, width, forward, s);
        haloSelfBw := haloSelfBw[2 := Pointer(data, s)];
      }
    }

    method PackHalo(ghost L: Local, dim: nat, width: nat, forward: bool, diagonal: bool, buf: array<Elem>)
      requires Valid() && dim < 2 && 0 < width <= localSize[dim] && Exchanged(L, diagonal, dim)
      requires Snapshot() == L.(hasDiagonal := diagonal) && SendBuffer(Pointer(buf, 0))
      requires buf.Length >= |Pack(L, dim, width, forward, diagonal)|
      modifies buf
      ensures Valid() && Snapshot() == old(Snapshot())
      ensures buf[..|Pack(L, dim, width, forward, diagonal)|] == Pack(L, dim, width, forward, diagonal)
    {
      assert buf != haloPeerBw[1] && buf != haloPeerFw[1] && buf != haloPeerBw[2] && buf != haloPeerFw[2];
      if !diagonal {
        var haloOffset := Vec3(0, 0, 0);
        if !forward {
          haloOffset := haloOffset[dim := localSize[dim] - width];
        }
        var haloSize := localSize[dim := width];
        PlainPack(L, dim, width, forward);
        assert haloOffset == PackStart(L, dim, width, forward, false) && haloSize == HaloShape(L, dim, width, false);
        var end := CopyoutSubgrid(data, localSize, buf, 0, haloOffset, haloSize);
      } else if dim == 0 {
        CopyoutHalo3D0(L, localSize, haloBwWidth, haloFwWidth, data, haloPeerBw[1], haloPeerFw[1],
                       haloPeerBw[2], haloPeerFw[2], buf, width, forward);
      } else {
        CopyoutHalo3D1(L, localSize, haloBwWidth, haloFwWidth, data, haloPeerBw[2], haloPeerFw[2], buf, width, forward);
      }
    }
  }
}
