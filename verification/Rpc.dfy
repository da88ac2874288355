// Moving whole grids between the master and the processes
// (runtime/rpc_mpi.cc). The clients announce offset and size of their part,
// the master copies boxes of its buffer.
module Rpc {
  import opened MixedRadix
  import opened Subgrid
  import opened Geometry
  import opened HaloExchange
  import opened Refinement

  // The buffers of all processes, by rank.
  ghost function Parts(grids: seq<array<Elem>>): (s: seq<seq<Elem>>)
    reads grids
    ensures |s| == |grids| && forall r | 0 <= r < |s| :: s[r] == grids[r][..]
  {
    seq(|grids|, r requires 0 <= r < |grids| reads grids => grids[r][..])
  }

  // Every process has a buffer of its own, as long as its box, and the
  // master's buffer is another one.
  ghost predicate Buffers(geo: Geometry, grids: seq<array<Elem>>, buf: array<Elem>)
    requires geo.Shape()
  {
    && |grids| == |geo.offset| > 0 && buf.Length == Volume(geo.gsize)
    && (forall r | 0 <= r < |grids| :: grids[r] != buf && grids[r].Length == Volume(geo.size[r]))
    && forall r, q | 0 <= r < q < |grids| :: grids[r] != grids[q]
  }

  // Every box is inside the grid, or empty.
  ghost predicate BoxesIn(geo: Geometry)
    requires geo.Shape()
  {
    forall r | 0 <= r < |geo.offset| :: BoxIn(geo.offset[r], geo.size[r], geo.gsize)
  }

  lemma GeometryBoxes(geo: Geometry)
    requires geo.Valid()
    ensures BoxesIn(geo)
  {
    forall r | 0 <= r < |geo.offset| ensures BoxIn(geo.offset[r], geo.size[r], geo.gsize) {
      BoxInGrid(geo, r);
    }
  }

  lemma BoxInGrid(geo: Geometry, r: nat)
    requires geo.Valid() && geo.IsRank(r)
    ensures BoxIn(geo.offset[r], geo.size[r], geo.gsize)
  {
    forall d | 0 <= d < |geo.gsize|
      ensures 0 <= geo.size[r][d] && 0 <= geo.offset[r][d] && geo.offset[r][d] + geo.size[r][d] <= geo.gsize[d]
    {
      assert geo.BoxAt(r, d);
    }
  }

  // The part of a grid that process r holds.
  ghost function PartOf(geo: Geometry, g: seq<Elem>, r: nat): (s: seq<Elem>)
    requires geo.Shape() && BoxesIn(geo) && r < |geo.offset|
    ensures |s| == Volume(geo.size[r])
  {
    Gather(g, geo.gsize, geo.offset[r], geo.size[r])
  }

  ghost function AllParts(geo: Geometry, g: seq<Elem>): (s: seq<seq<Elem>>)
    requires geo.Shape() && BoxesIn(geo)
    ensures |s| == |geo.offset| && forall r | 0 <= r < |s| :: s[r] == PartOf(geo, g, r)
  {
    seq(|geo.offset|, r requires 0 <= r < |geo.offset| => PartOf(geo, g, r))
  }

  // GridCopyin: the master copies its own part and, for every client that is
  // not empty, the announced box into a send buffer.
  method GridCopyin(geo: Geometry, buf: array<Elem>, grids: seq<array<Elem>>)
    requires geo.Shape() && BoxesIn(geo) && Buffers(geo, grids, buf)
    modifies grids
    ensures Parts(grids) == AllParts(geo, buf[..])
  {
    ghost var g := buf[..];
    var end := CopyoutSubgrid(buf, geo.gsize, grids[0], 0, geo.offset[0], geo.size[0]);
    assert grids[0][..] == grids[0][0..end];
    for i := 1 to |grids|
      invariant forall r | 0 <= r < i :: grids[r][..] == PartOf(geo, g, r)
    {
      SendPart(geo, buf, i, grids[i]);
      assert forall r | 0 <= r < i :: grids[r] != grids[i];
    }
  }

  // One client: nothing is sent for an empty box.
  method SendPart(geo: Geometry, buf: array<Elem>, r: nat, grid: array<Elem>)
    requires geo.Shape() && BoxesIn(geo) && r < |geo.offset| && grid != buf
    requires buf.Length == Volume(geo.gsize) && grid.Length == Volume(geo.size[r])
    modifies grid
    ensures grid[..] == PartOf(geo, buf[..], r)
  {
    var n := Accumulate(geo.size[r]);
    if n == 0 {
      return;
    }
    var sbuf := new Elem[n];
    var end := CopyoutSubgrid(buf, geo.gsize, sbuf, 0, geo.offset[r], geo.size[r]);
    assert sbuf[..] == sbuf[0..end];
    Memcpy(grid, 0, sbuf, 0, n);
    assert grid[..] == sbuf[..];
  }

  // The destination after the parts of the first k processes were written.
  ghost function CopyoutPrefix(geo: Geometry, dst: seq<Elem>, parts: seq<seq<Elem>>, k: nat): (s: seq<Elem>)
    requires geo.Shape() && |parts| == |geo.offset| && k <= |parts|
    ensures |s| == |dst|
  {
    if k == 0 then dst
    else Scatter(CopyoutPrefix(geo, dst, parts, k - 1), geo.gsize, geo.offset[k - 1], geo.size[k - 1], parts[k - 1])
  }

  // GridCopyout: the master writes its own part unless it is empty, then
  // receives and writes the parts of the clients that are not empty.
  method GridCopyout(geo: Geometry, buf: array<Elem>, grids: seq<array<Elem>>)
    requires geo.Shape() && BoxesIn(geo) && Buffers(geo, grids, buf)
    modifies buf
    ensures buf[..] == CopyoutPrefix(geo, old(buf[..]), Parts(grids), |grids|)
  {
    ghost var dst, parts := buf[..], Parts(grids);
    ReceiveFrom(geo, buf, 0, grids);
    for i := 1 to |grids|
      invariant Parts(grids) == parts && buf[..] == CopyoutPrefix(geo, dst, parts, i)
    {
      ReceiveFrom(geo, buf, i, grids);
    }
  }

  method ReceiveFrom(geo: Geometry, buf: array<Elem>, i: nat, grids: seq<array<Elem>>)
    requires geo.Shape() && BoxesIn(geo) && Buffers(geo, grids, buf) && i < |grids|
    modifies buf
    ensures Parts(grids) == old(Parts(grids))
    ensures buf[..] == Scatter(old(buf[..]), geo.gsize, geo.offset[i], geo.size[i], Parts(grids)[i])
  {
    ReceivePart(geo, buf, i, grids[i]);
  }

  method ReceivePart(geo: Geometry, buf: array<Elem>, r: nat, grid: array<Elem>)
    requires geo.Shape() && BoxesIn(geo) && r < |geo.offset| && grid != buf
    requires buf.Length == Volume(geo.gsize) && grid.Length == Volume(geo.size[r])
    modifies buf
    ensures buf[..] == Scatter(old(buf[..]), geo.gsize, geo.offset[r], geo.size[r], grid[..])
  {
    var n := Accumulate(geo.size[r]);
    if n == 0 {
      ScatterNone(buf[..], geo.gsize, geo.offset[r], geo.size[r], grid[..]);
      return;
    }
    CopyinSubgrid(buf, geo.gsize, grid, geo.offset[r], geo.size[r]);
  }

  // ------------------------------------------------------------ properties

  // Cell p of the grid lies in the box of process r.
  ghost predicate Writes(geo: Geometry, r: nat, p: int)
    requires geo.Shape() && r < |geo.offset|
  {
    PosInBox(p, geo.offset[r], geo.size[r], geo.gsize)
  }

  // Every cell is written exactly once.
  lemma WrittenOnce(geo: Geometry, p: nat) returns (r: nat)
    requires geo.Shape() && geo.Tiles() && p < Volume(geo.gsize)
    ensures r < |geo.offset| && Writes(geo, r, p)
    ensures forall q | 0 <= q < |geo.offset| && Writes(geo, q, p) :: q == r
  {
    LinOfDigits(p, geo.gsize);
    var v := Digits(p, geo.gsize);
    var s :| geo.IsRank(s) && geo.Holds(s, v);
    r := s;
    forall q | 0 <= q < |geo.offset| && Writes(geo, q, p) ensures q == r {
      assert geo.Holds(q, v);
    }
  }

  // Process r alone writes cell p.
  ghost predicate OnlyWriter(geo: Geometry, r: nat, p: nat)
    requires geo.Shape()
  {
    && r < |geo.offset| && Writes(geo, r, p)
    && forall q | 0 <= q < |geo.offset| && Writes(geo, q, p) :: q == r
  }

  // The writers of all cells.
  ghost predicate Writers(geo: Geometry, writer: seq<nat>)
    requires geo.Shape()
  {
    |writer| == Volume(geo.gsize) && forall p | 0 <= p < |writer| :: OnlyWriter(geo, writer[p], p)
  }

  lemma {:induction false} WritersUpTo(geo: Geometry, n: nat) returns (writer: seq<nat>)
    requires geo.Shape() && geo.Tiles() && n <= Volume(geo.gsize)
    ensures |writer| == n && forall p | 0 <= p < n :: OnlyWriter(geo, writer[p], p)
  {
    if n == 0 {
      writer := [];
    } else {
      var before := WritersUpTo(geo, n - 1);
      var r := WrittenOnce(geo, n - 1);
      writer := before + [r];
    }
  }

  lemma ScatteredAt(geo: Geometry, before: seq<Elem>, part: seq<Elem>, q: nat, p: nat, r: nat)
    requires geo.Shape() && BoxesIn(geo) && q < |geo.offset| && p < |before| == Volume(geo.gsize) && OnlyWriter(geo, r, p)
    ensures Scatter(before, geo.gsize, geo.offset[q], geo.size[q], part)[p]
         == if q == r then At(part, BoxRank(p, geo.offset[r], geo.size[r], geo.gsize)) else before[p]
  {
    if q == r {
      ScatterInside(before, geo.gsize, geo.offset[r], geo.size[r], part, p);
    } else {
      assert !Writes(geo, q, p);
      ScatterOutside(before, geo.gsize, geo.offset[q], geo.size[q], part, p);
    }
  }

  lemma {:induction false} PrefixAt(geo: Geometry, dst: seq<Elem>, parts: seq<seq<Elem>>, k: nat, p: nat, r: nat)
    requires geo.Shape() && BoxesIn(geo) && |parts| == |geo.offset| && k <= |parts|
    requires p < |dst| == Volume(geo.gsize) && OnlyWriter(geo, r, p)
    ensures CopyoutPrefix(geo, dst, parts, k)[p]
         == if r < k then At(parts[r], BoxRank(p, geo.offset[r], geo.size[r], geo.gsize)) else dst[p]
  {
    if k > 0 {
      PrefixAt(geo, dst, parts, k - 1, p, r);
      ScatteredAt(geo, CopyoutPrefix(geo, dst, parts, k - 1), parts[k - 1], k - 1, p, r);
    }
  }

  lemma CellReturns(geo: Geometry, g: seq<Elem>, dst: seq<Elem>, p: nat, r: nat)
    requires geo.Shape() && BoxesIn(geo) && p < |g| == |dst| == Volume(geo.gsize) && OnlyWriter(geo, r, p)
    ensures CopyoutPrefix(geo, dst, AllParts(geo, g), |geo.offset|)[p] == g[p]
  {
    PrefixAt(geo, dst, AllParts(geo, g), |geo.offset|, p, r);
    RankDeterminesPos(p, geo.offset[r], geo.size[r], geo.gsize);
    var k := BoxRank(p, geo.offset[r], geo.size[r], geo.gsize);
    assert PartOf(geo, g, r)[k] == At(g, CellPos(geo.offset[r], geo.size[r], geo.gsize, k));
  }

  // Copying in and out again reproduces the buffer, whatever the destination
  // held before.
  lemma CopyoutOfCopyin(geo: Geometry, g: seq<Elem>, dst: seq<Elem>)
    requires geo.Shape() && geo.Tiles() && BoxesIn(geo) && |g| == |dst| == Volume(geo.gsize)
    ensures CopyoutPrefix(geo, dst, AllParts(geo, g), |geo.offset|) == g
  {
    var back := CopyoutPrefix(geo, dst, AllParts(geo, g), |geo.offset|);
    var writer := WritersUpTo(geo, |g|);
    forall p: nat | p < |g| ensures back[p] == g[p] {
      assert OnlyWriter(geo, writer[p], p);
      CellReturns(geo, g, dst, p, writer[p]);
    }
  }

  // ------------------------------------------- from buffer to buffer

  // The same for a grid on a geometry whose boxes are known to fit.
  ghost function GridParts(geo: Geometry, g: seq<Elem>): (s: seq<seq<Elem>>)
    requires geo.Valid()
    ensures BoxesIn(geo) && s == AllParts(geo, g)
  {
    GeometryBoxes(geo);
    AllParts(geo, g)
  }

  // The parts that the processes hold.
  ghost function PartsOf(w: World): (s: seq<seq<Elem>>)
    ensures |s| == |w| && forall r | 0 <= r < |w| :: s[r] == w[r].data
  {
    seq(|w|, r requires 0 <= r < |w| => w[r].data)
  }

  // Holding a grid is having its parts.
  lemma HoldingIsParts(geo: Geometry, w: World, g: seq<Elem>)
    requires geo.Valid() && GridShape(geo, w)
    ensures Holding(geo, w, g) <==> PartsOf(w) == GridParts(geo, g)
  {
    GeometryBoxes(geo);
    if PartsOf(w) == AllParts(geo, g) {
      forall r, v | 0 <= r < |w| && InBox(v, geo.size[r])
        ensures At(w[r].data, Lin(v, geo.size[r])) == At(g, Lin(Add(geo.offset[r], v), geo.gsize))
      {
        assert PartsOf(w)[r] == PartOf(geo, g, r);
        GatherAt(g, geo.gsize, geo.offset[r], geo.size[r], v);
      }
    }
    if Holding(geo, w, g) {
      forall r | 0 <= r < |w| ensures PartsOf(w)[r] == GridParts(geo, g)[r] {
        HoldingPart(geo, w, g, r);
      }
    }
  }

  lemma HoldingPart(geo: Geometry, w: World, g: seq<Elem>, r: nat)
    requires geo.Valid() && GridShape(geo, w) && Holding(geo, w, g) && r < |w|
    ensures BoxesIn(geo) && w[r].data == PartOf(geo, g, r)
  {
    GeometryBoxes(geo);
    var part := PartOf(geo, g, r);
    forall k | 0 <= k < |part| ensures w[r].data[k] == part[k] {
      LinOfDigits(k, geo.size[r]);
      var v := Digits(k, geo.size[r]);
      assert At(w[r].data, Lin(v, geo.size[r])) == At(g, Lin(Add(geo.offset[r], v), geo.gsize));
    }
  }

  // Copying out the parts of a grid that is held returns the grid.
  lemma HeldReturns(geo: Geometry, w: World, g: seq<Elem>, dst: seq<Elem>)
    requires geo.Valid() && geo.Tiles() && GridShape(geo, w) && Holding(geo, w, g)
    requires |g| == |dst| == Volume(geo.gsize)
    ensures CopyoutPrefix(geo, dst, PartsOf(w), |geo.offset|) == g
  {
    HoldingIsParts(geo, w, g);
    CopyoutOfCopyin(geo, g, dst);
  }

  // Processes that have been given their parts of the global grids.
  lemma CopiedIn(geo: Geometry, m: Machine, grids: Grids)
    requires geo.Valid() && MachineShape(geo, m) && |m| == |grids|
    requires forall j | 0 <= j < |m| :: |grids[j]| == Volume(geo.gsize) && PartsOf(m[j]) == GridParts(geo, grids[j])
    ensures Refines(geo, m, grids)
  {
    forall j | 0 <= j < |m| ensures Holding(geo, m[j], grids[j]) {
      HoldingIsParts(geo, m[j], grids[j]);
    }
  }

  // Copy global grids in, run any number of rounds of any stencils on the
  // distributed grids, and copy a grid out: the buffer holds what as many
  // sweeps over the global grids produce.
  lemma CopyinRunCopyout(geo: Geometry, m: Machine, grids: Grids, stencils: seq<Stencil>, iter: nat, i: nat, dst: seq<Elem>)
    requires geo.Valid() && geo.Tiles() && MachineShape(geo, m) && |m| == |grids|
    requires AllRunnable(geo, stencils, |m|) && RunFlagsOk(geo, m, stencils, iter) && AllQuiet(geo, m, stencils)
    requires forall j | 0 <= j < |m| :: |grids[j]| == Volume(geo.gsize) && PartsOf(m[j]) == GridParts(geo, grids[j])
    requires i < |m| && |dst| == Volume(geo.gsize)
    ensures |Rounds(geo, m, stencils, iter)[i]| == |geo.offset| && BoxesIn(geo)
    ensures CopyoutPrefix(geo, dst, PartsOf(Rounds(geo, m, stencils, iter)[i]), |geo.offset|)
         == Sweeps(geo.gsize, grids, stencils, iter)[i]
  {
    GeometryBoxes(geo);
    CopiedIn(geo, m, grids);
    var m', grids' := RunsRefine(geo, m, grids, stencils, iter);
    assert Holding(geo, m'[i], grids'[i]);
    HeldReturns(geo, m'[i], grids'[i], dst);
  }
}
