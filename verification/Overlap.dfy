// Overlapping computation with halo exchange: the translator splits a local
// domain into an interior and boundary slabs and lets the kernels of both read
// past the halo logic where that is safe (BuildInteriorKernel and
// BuildBoundaryKernel in translator/mpi_cuda_translator.cc, __PSDomainShrink
// in runtime/mpi_cuda_runtime.cc, __PSDomainGetBoundary in
// include/physis/physis_common.h).
//
// Points and domains are in the coordinates of the grid space; the box of the
// process starts at offset.
module Overlap {
  import opened MixedRadix
  import opened Subgrid
  import opened RemoteGrid
  import opened Geometry
  import opened HaloExchange
  import opened StencilRange
  import opened LoadNeighbor
  import opened Refinement

  // --------------------------------------------------------------- kernels

  // A kernel body. A get names its grid and its indices; attributed tells
  // whether the index list is attached to the call, halo whether the call is
  // the halo-aware one. A call of another kernel contains its body.
  datatype Kernel =
    | Value(at: IndexArray -> Elem)
    | Get(grid: nat, indices: StencilIndexList, attributed: bool, halo: bool)
    | Combine(f: (Elem, Elem) -> Elem, left: Kernel, right: Kernel)
    | Branch(cond: IndexArray -> bool, yes: Kernel, no: Kernel)
    | Call(body: Kernel)

  // A grid read at an index of the grid space: through the address computation,
  // or directly from the local data.
  ghost function ReadAt(grids: seq<Local>, offset: IndexArray, grid: nat, index: IndexArray, halo: bool): Elem
    requires |index| == |offset|
  {
    if grid < |grids| && grids[grid].WellFormed(|index|) then
      var L := grids[grid];
      if halo then ReadAddress(L, offset, index) else At(L.data, Lin(Sub(index, offset), L.size))
    else 0.0
  }

  // The value of a kernel at point x; other stands for gets whose indices are
  // not the loop indices in order.
  ghost function Eval(grids: seq<Local>, offset: IndexArray, other: (nat, StencilIndexList, IndexArray) -> Elem,
                      k: Kernel, x: IndexArray): Elem
    requires |x| == |offset|
  {
    match k
    case Value(at) => at(x)
    case Get(grid, indices, _, halo) =>
      if |indices| == |x| && Regular(indices) then ReadAt(grids, offset, grid, Add(x, Offsets(indices)), halo)
      else other(grid, indices, x)
    case Combine(f, l, r) => f(Eval(grids, offset, other, l, x), Eval(grids, offset, other, r, x))
    case Branch(cond, yes, no) => if cond(x) then Eval(grids, offset, other, yes, x) else Eval(grids, offset, other, no, x)
    case Call(body) => Eval(grids, offset, other, body, x)
  }

  // BuildInteriorKernel: every get becomes a get without halo.
  function Interior(k: Kernel): Kernel {
    match k
    case Value(_) => k
    case Get(grid, indices, attributed, _) => Get(grid, indices, attributed, false)
    case Combine(f, l, r) => Combine(f, Interior(l), Interior(r))
    case Branch(cond, yes, no) => Branch(cond, Interior(yes), Interior(no))
    case Call(body) => Call(Interior(body))
  }

  // The test BuildBoundaryKernel makes for the slab at the low (right false)
  // or high end of dimension dim.
  ghost predicate Redirected(indices: StencilIndexList, attributed: bool, ndim: nat, dim: nat, right: bool)
    requires dim < ndim
  {
    && attributed && |indices| == ndim && Regular(indices)
    && (forall i | 0 <= i < ndim && i != dim :: indices[i].offset == 0)
    && !(!right && indices[dim].offset < 0) && !(right && indices[dim].offset > 0)
  }

  ghost function Boundary(k: Kernel, ndim: nat, dim: nat, right: bool): Kernel
    requires dim < ndim
  {
    match k
    case Value(_) => k
    case Get(grid, indices, attributed, halo) =>
      if Redirected(indices, attributed, ndim, dim, right) then Get(grid, indices, attributed, false) else k
    case Combine(f, l, r) => Combine(f, Boundary(l, ndim, dim, right), Boundary(r, ndim, dim, right))
    case Branch(cond, yes, no) => Branch(cond, Boundary(yes, ndim, dim, right), Boundary(no, ndim, dim, right))
    case Call(body) => Call(Boundary(body, ndim, dim, right))
  }

  // Every get of the kernel is regular and reaches at most width far.
  ghost predicate Within(k: Kernel, ndim: nat, width: int) {
    match k
    case Value(_) => true
    case Get(_, indices, _, _) =>
      |indices| == ndim && Regular(indices) && forall i | 0 <= i < ndim :: Abs(indices[i].offset) <= width
    case Combine(_, l, r) => Within(l, ndim, width) && Within(r, ndim, width)
    case Branch(_, yes, no) => Within(yes, ndim, width) && Within(no, ndim, width)
    case Call(body) => Within(body, ndim, width)
  }

  // The gets of a kernel, in the order of the text.
  function Gets(k: Kernel): (gets: seq<Kernel>)
    ensures forall j | 0 <= j < |gets| :: gets[j].Get?
  {
    match k
    case Value(_) => []
    case Get(_, _, _, _) => [k]
    case Combine(_, l, r) => Gets(l) + Gets(r)
    case Branch(_, yes, no) => Gets(yes) + Gets(no)
    case Call(body) => Gets(body)
  }

  ghost function WithoutHalo(gets: seq<Kernel>, redirect: Kernel -> bool): (r: seq<Kernel>)
    requires forall j | 0 <= j < |gets| :: gets[j].Get?
    ensures |r| == |gets|
    ensures forall j | 0 <= j < |r| :: r[j] == if redirect(gets[j]) then gets[j].(halo := false) else gets[j]
  {
    seq(|gets|, j requires 0 <= j < |gets| => if redirect(gets[j]) then gets[j].(halo := false) else gets[j])
  }

  lemma WithoutHaloJoined(a: seq<Kernel>, b: seq<Kernel>, redirect: Kernel -> bool)
    requires forall j | 0 <= j < |a + b| :: (a + b)[j].Get?
    requires forall j | 0 <= j < |a| :: a[j].Get?
    requires forall j | 0 <= j < |b| :: b[j].Get?
    ensures WithoutHalo(a + b, redirect) == WithoutHalo(a, redirect) + WithoutHalo(b, redirect)
  {
  }

  // The interior kernel has the same gets, all without halo.
  lemma {:induction false} InteriorGets(k: Kernel)
    ensures Gets(Interior(k)) == WithoutHalo(Gets(k), (get: Kernel) => true)
  {
    match k {
      case Value(_) =>
      case Get(_, _, _, _) =>
      case Combine(_, l, r) =>
        InteriorGets(l);
        InteriorGets(r);
        WithoutHaloJoined(Gets(l), Gets(r), (get: Kernel) => true);
      case Branch(_, yes, no) =>
        InteriorGets(yes);
        InteriorGets(no);
        WithoutHaloJoined(Gets(yes), Gets(no), (get: Kernel) => true);
      case Call(body) => InteriorGets(body);
    }
  }

  // Points of a box that are at most width away from one end of a dimension, in
  // local coordinates.
  ghost predicate NearEnd(u: IndexArray, size: IndexArray, dim: nat, right: bool, width: int)
    requires dim < |size|
  {
    InBox(u, size) && if right then u[dim] >= size[dim] - width else u[dim] < width
  }

  // In a box that goes on for two widths, no read at these offsets from a
  // point near that end leaves the box.
  ghost predicate NeverLeaves(offs: IndexArray, dim: nat, right: bool, width: int)
    requires dim < |offs|
  {
    forall u: IndexArray, size: IndexArray
      | |u| == |size| == |offs| && size[dim] >= 2 * width && NearEnd(u, size, dim, right, width) ::
      InBox(Add(u, offs), size)
  }

  // A box of one row along dim, and the point at one end.
  ghost function RowBox(n: nat, dim: nat, width: nat): (size: IndexArray)
    ensures |size| == n
  {
    seq(n, d => if d == dim then 2 * width else 1)
  }

  ghost function RowEnd(n: nat, dim: nat, width: nat, right: bool): (u: IndexArray)
    ensures |u| == n
  {
    seq(n, d => if d == dim && right then 2 * width - 1 else 0)
  }

  // The test redirects exactly the attributed gets that never leave the box.
  lemma RedirectedIff(indices: StencilIndexList, attributed: bool, ndim: nat, dim: nat, right: bool, width: nat)
    requires dim < ndim == |indices| && Regular(indices) && width > 0 && Abs(indices[dim].offset) <= width
    ensures Redirected(indices, attributed, ndim, dim, right) <==> attributed && NeverLeaves(Offsets(indices), dim, right, width)
  {
    var offs := Offsets(indices);
    if Redirected(indices, attributed, ndim, dim, right) {
      forall u: IndexArray, size: IndexArray
        | |u| == |size| == |offs| && size[dim] >= 2 * width && NearEnd(u, size, dim, right, width)
        ensures InBox(Add(u, offs), size)
      {
        forall d | 0 <= d < |u| ensures 0 <= Add(u, offs)[d] < size[d] {
          assert 0 <= u[d] < size[d] && offs[d] == indices[d].offset;
        }
      }
    } else if attributed {
      var size, u := RowBox(ndim, dim, width), RowEnd(ndim, dim, width, right);
      assert NearEnd(u, size, dim, right, width);
      var d :| 0 <= d < ndim && !(0 <= u[d] + offs[d] < size[d]);
      assert !(0 <= Add(u, offs)[d] < size[d]);
    }
  }

  // The gets that the boundary kernel redirects.
  ghost function Redirects(dim: nat, right: bool, width: nat): Kernel -> bool {
    (get: Kernel) => get.Get? && get.attributed && dim < |get.indices| && NeverLeaves(Offsets(get.indices), dim, right, width)
  }

  // The boundary kernel has the same gets, those without halo that never leave
  // the box from a point near its end, and no other.
  lemma {:induction false} BoundaryGets(k: Kernel, ndim: nat, dim: nat, right: bool, width: nat)
    requires dim < ndim && width > 0 && Within(k, ndim, width)
    ensures Gets(Boundary(k, ndim, dim, right)) == WithoutHalo(Gets(k), Redirects(dim, right, width))
  {
    match k {
      case Value(_) =>
      case Get(_, indices, attributed, _) => RedirectedIff(indices, attributed, ndim, dim, right, width);
      case Combine(_, l, r) =>
        BoundaryGets(l, ndim, dim, right, width);
        BoundaryGets(r, ndim, dim, right, width);
        WithoutHaloJoined(Gets(l), Gets(r), Redirects(dim, right, width));
      case Branch(_, yes, no) =>
        BoundaryGets(yes, ndim, dim, right, width);
        BoundaryGets(no, ndim, dim, right, width);
        WithoutHaloJoined(Gets(yes), Gets(no), Redirects(dim, right, width));
      case Call(body) => BoundaryGets(body, ndim, dim, right, width);
    }
  }

  // --------------------------------------------------------------- domains

  datatype Domain = Domain(lo: IndexArray, hi: IndexArray) {
    ghost predicate Has(v: IndexArray) {
      |lo| == |hi| == |v| && forall d | 0 <= d < |v| :: lo[d] <= v[d] < hi[d]
    }

    // The domain is part of the process box.
    ghost predicate Inside(offset: IndexArray, size: IndexArray) {
      |lo| == |hi| == |size| == |offset| && forall d | 0 <= d < |size| :: offset[d] <= lo[d] && hi[d] <= offset[d] + size[d]
    }
  }

  // __PSDomainShrink.
  method Shrink(dom: Domain, width: int) returns (r: Domain)
    requires |dom.lo| == |dom.hi|
    ensures r == Shrunk(dom, width)
  {
    r := dom;
    for i := 0 to |dom.lo|
      invariant |r.lo| == |r.hi| == |dom.lo|
      invariant forall d | 0 <= d < |dom.lo| ::
        r.lo[d] == (if d < i then dom.lo[d] + width else dom.lo[d])
        && r.hi[d] == if d < i then dom.hi[d] - width else dom.hi[d]
    {
      r := r.(lo := r.lo[i := r.lo[i] + width], hi := r.hi[i := r.hi[i] - width]);
    }
    assert r.lo == Shrunk(dom, width).lo && r.hi == Shrunk(dom, width).hi;
  }

  function Shrunk(dom: Domain, width: int): (r: Domain)
    requires |dom.lo| == |dom.hi|
    ensures |r.lo| == |r.hi| == |dom.lo|
  {
    Domain(seq(|dom.lo|, d requires 0 <= d < |dom.lo| => dom.lo[d] + width),
           seq(|dom.hi|, d requires 0 <= d < |dom.hi| => dom.hi[d] - width))
  }

  // __PSDomainGetBoundary: the slab at one end of a dimension, of which a
  // chunk of dimension 2 is taken if factor is above 1.
  method GetBoundary(dom: Domain, dim: nat, right: bool, width: int, factor: int, offset: int) returns (bd: Domain)
    requires |dom.lo| == |dom.hi| == 3 && dim < 3 && (factor > 1 ==> dom.lo[2] <= dom.hi[2])
    requires factor >= 1
    ensures dom.lo[dim] == 0 && dom.hi[dim] == 0 ==> bd == dom
    ensures !(dom.lo[dim] == 0 && dom.hi[dim] == 0) ==>
      bd == if factor > 1 then Chunk(dom, Slab(dom, dim, right, width), factor, offset) else Slab(dom, dim, right, width)
  {
    bd := dom;
    if bd.lo[dim] == 0 && bd.hi[dim] == 0 {
      return;
    }
    if right {
      bd := bd.(lo := bd.lo[dim := bd.hi[dim] - width]);
    } else {
      bd := bd.(hi := bd.hi[dim := bd.lo[dim] + width]);
    }
    if factor > 1 {
      var diff := dom.hi[2] - dom.lo[2];
      var chunk, rem := diff / factor, diff % factor;
      bd := bd.(lo := bd.lo[2 := bd.lo[2] + chunk * offset + (if offset < rem then offset else rem)]);
      bd := bd.(hi := bd.hi[2 := bd.lo[2] + chunk + (if offset < rem then 1 else 0)]);
    }
  }

  function Slab(dom: Domain, dim: nat, right: bool, width: int): Domain
    requires |dom.lo| == |dom.hi| && dim < |dom.lo|
  {
    if right then dom.(lo := dom.lo[dim := dom.hi[dim] - width]) else dom.(hi := dom.hi[dim := dom.lo[dim] + width])
  }

  // Where chunk o of n cells starts, when they are divided into factor chunks.
  function ChunkStart(n: int, factor: int, o: int): int
    requires factor > 0
  {
    (n / factor) * o + (if o < n % factor then o else n % factor)
  }

  function Chunk(dom: Domain, slab: Domain, factor: int, o: int): Domain
    requires |dom.lo| == |dom.hi| == |slab.lo| == |slab.hi| == 3 && factor > 0
  {
    var n := dom.hi[2] - dom.lo[2];
    var start := slab.lo[2] + ChunkStart(n, factor, o);
    slab.(lo := slab.lo[2 := start],
          hi := slab.hi[2 := start + n / factor + (if o < n % factor then 1 else 0)])
  }

  // ------------------------------------------- rewriting keeps the meaning

  // Where an index is in the box and no remote grid active, both forms of a get
  // read the same cell.
  lemma BothFormsRead(grids: seq<Local>, offset: IndexArray, grid: nat, index: IndexArray, size: IndexArray)
    requires grid < |grids| ==> grids[grid].size == size && !grids[grid].remote.active
    requires |index| == |offset| && InBox(Sub(index, offset), size)
    ensures ReadAt(grids, offset, grid, index, true) == ReadAt(grids, offset, grid, index, false)
  {
    if grid < |grids| && grids[grid].WellFormed(|index|) {
      assert FirstOut(Sub(index, offset), size, 0) == |index|;
    }
  }

  ghost predicate SameSize(grids: seq<Local>, size: IndexArray) {
    forall i | 0 <= i < |grids| :: grids[i].size == size
  }

  // No grid that the kernel reads has an active remote grid.
  ghost predicate NoRemote(k: Kernel, grids: seq<Local>) {
    match k
    case Value(_) => true
    case Get(grid, _, _, _) => grid < |grids| ==> !grids[grid].remote.active
    case Combine(_, l, r) => NoRemote(l, grids) && NoRemote(r, grids)
    case Branch(_, yes, no) => NoRemote(yes, grids) && NoRemote(no, grids)
    case Call(body) => NoRemote(body, grids)
  }

  lemma InteriorReadsInside(dom: Domain, offset: IndexArray, size: IndexArray, width: int, x: IndexArray, indices: StencilIndexList)
    requires dom.Inside(offset, size) && Shrunk(dom, width).Has(x) && |indices| == |x|
    requires forall i | 0 <= i < |x| :: Abs(indices[i].offset) <= width
    ensures InBox(Sub(Add(x, Offsets(indices)), offset), size)
  {
    forall d | 0 <= d < |x| ensures 0 <= x[d] + Offsets(indices)[d] - offset[d] < size[d] {
      assert Shrunk(dom, width).lo[d] <= x[d] < Shrunk(dom, width).hi[d];
    }
  }

  // At every point of the shrunk domain the interior kernel computes what the
  // kernel computes.
  lemma {:induction false} InteriorPreserves(grids: seq<Local>, other: (nat, StencilIndexList, IndexArray) -> Elem,
                                             k: Kernel, dom: Domain, offset: IndexArray, size: IndexArray,
                                             width: int, x: IndexArray)
    requires SameSize(grids, size) && NoRemote(k, grids) && dom.Inside(offset, size)
    requires Shrunk(dom, width).Has(x) && Within(k, |x|, width)
    ensures Eval(grids, offset, other, Interior(k), x) == Eval(grids, offset, other, k, x)
    decreases k
  {
    match k {
      case Value(_) =>
      case Get(grid, indices, _, _) =>
        InteriorReadsInside(dom, offset, size, width, x, indices);
        BothFormsRead(grids, offset, grid, Add(x, Offsets(indices)), size);
      case Combine(_, l, r) =>
        InteriorPreserves(grids, other, l, dom, offset, size, width, x);
        InteriorPreserves(grids, other, r, dom, offset, size, width, x);
      case Branch(_, yes, no) =>
        InteriorPreserves(grids, other, yes, dom, offset, size, width, x);
        InteriorPreserves(grids, other, no, dom, offset, size, width, x);
      case Call(body) => InteriorPreserves(grids, other, body, dom, offset, size, width, x);
    }
  }

  // The interior kernel may run while halos are exchanged: it depends on the
  // own cells only.
  lemma {:induction false} InteriorNeedsNoHalo(grids: seq<Local>, loaded: seq<Local>,
                                               other: (nat, StencilIndexList, IndexArray) -> Elem,
                                               k: Kernel, offset: IndexArray, width: int, x: IndexArray)
    requires |grids| == |loaded| && |offset| == |x| && Within(k, |x|, width)
    requires forall i | 0 <= i < |grids| ::
      grids[i].WellFormed(|x|) && loaded[i].WellFormed(|x|)
      && grids[i].size == loaded[i].size && grids[i].data == loaded[i].data
    ensures Eval(grids, offset, other, Interior(k), x) == Eval(loaded, offset, other, Interior(k), x)
    decreases k
  {
    match k {
      case Value(_) =>
      case Get(grid, indices, _, _) =>
      case Combine(_, l, r) =>
        InteriorNeedsNoHalo(grids, loaded, other, l, offset, width, x);
        InteriorNeedsNoHalo(grids, loaded, other, r, offset, width, x);
      case Branch(_, yes, no) =>
        InteriorNeedsNoHalo(grids, loaded, other, yes, offset, width, x);
        InteriorNeedsNoHalo(grids, loaded, other, no, offset, width, x);
      case Call(body) => InteriorNeedsNoHalo(grids, loaded, other, body, offset, width, x);
    }
  }

  // What the slab at one end of a dimension needs: the box goes on for at
  // least two widths from the end the slab lies at.
  predicate Roomy(dom: Domain, offset: IndexArray, size: IndexArray, dim: nat, right: bool, width: int)
    requires |dom.lo| == |dom.hi| == |size| == |offset| && dim < |size|
  {
    2 * width <= if right then dom.hi[dim] - offset[dim] else offset[dim] + size[dim] - dom.lo[dim]
  }

  lemma BoundaryReadsInside(dom: Domain, offset: IndexArray, size: IndexArray, dim: nat, right: bool, width: int,
                            x: IndexArray, indices: StencilIndexList)
    requires dom.Inside(offset, size) && dim < |x| == |indices| == |size| && Slab(dom, dim, right, width).Has(x)
    requires dom.Has(x) && Roomy(dom, offset, size, dim, right, width)
    requires Redirected(indices, true, |x|, dim, right) && Abs(indices[dim].offset) <= width
    ensures InBox(Sub(Add(x, Offsets(indices)), offset), size)
  {
    var slab := Slab(dom, dim, right, width);
    forall d | 0 <= d < |x| ensures 0 <= x[d] + Offsets(indices)[d] - offset[d] < size[d] {
      assert slab.lo[d] <= x[d] < slab.hi[d];
    }
  }

  // Moving a point of the slab along its dimension by a distance the test lets
  // through stays in the box.
  ghost predicate Stays(dom: Domain, offset: IndexArray, size: IndexArray, dim: nat, right: bool, width: int,
                        x: IndexArray, o: int)
    requires |dom.lo| == |dom.hi| == |size| == |offset| && dim < |size|
  {
    (Slab(dom, dim, right, width).Has(x) && if right then -width <= o <= 0 else 0 <= o <= width)
    ==> InBox(Sub(x[dim := x[dim] + o], offset), size)
  }

  // The condition on the size is exact: without it some get that the
  // rewriting redirects leaves the box, and with it none does.
  lemma RoomyIsExact(dom: Domain, offset: IndexArray, size: IndexArray, dim: nat, right: bool, width: int)
    requires dom.Inside(offset, size) && dim < |size| && 0 < width <= dom.hi[dim] - dom.lo[dim]
    requires forall d | 0 <= d < |size| :: dom.lo[d] < dom.hi[d]
    ensures (forall x, o :: Stays(dom, offset, size, dim, right, width, x, o))
       <==> Roomy(dom, offset, size, dim, right, width)
  {
    var slab := Slab(dom, dim, right, width);
    if Roomy(dom, offset, size, dim, right, width) {
      forall x, o ensures Stays(dom, offset, size, dim, right, width, x, o) {
        if slab.Has(x) && (if right then -width <= o <= 0 else 0 <= o <= width) {
          var w := Sub(x[dim := x[dim] + o], offset);
          forall d | 0 <= d < |size| ensures 0 <= w[d] < size[d] {
            assert slab.lo[d] <= x[d] < slab.hi[d];
          }
        }
      }
    } else {
      var x := if right then slab.lo else slab.lo[dim := slab.hi[dim] - 1];
      var o := if right then -width else width;
      assert slab.Has(x);
      var w := Sub(x[dim := x[dim] + o], offset);
      assert !(0 <= w[dim] < size[dim]);
      assert !Stays(dom, offset, size, dim, right, width, x, o);
    }
  }

  // At every point of a slab its boundary kernel computes what the kernel
  // computes.
  lemma {:induction false} BoundaryPreserves(grids: seq<Local>, other: (nat, StencilIndexList, IndexArray) -> Elem,
                                             k: Kernel, dom: Domain, offset: IndexArray, size: IndexArray,
                                             dim: nat, right: bool, width: int, x: IndexArray)
    requires SameSize(grids, size) && NoRemote(k, grids) && dom.Inside(offset, size) && dim < |x| == |size|
    requires Slab(dom, dim, right, width).Has(x) && dom.Has(x)
    requires Roomy(dom, offset, size, dim, right, width) && Within(k, |x|, width)
    ensures Eval(grids, offset, other, Boundary(k, |x|, dim, right), x) == Eval(grids, offset, other, k, x)
    decreases k
  {
    match k {
      case Value(_) =>
      case Get(grid, indices, attributed, _) =>
        if Redirected(indices, attributed, |x|, dim, right) {
          BoundaryReadsInside(dom, offset, size, dim, right, width, x, indices);
          BothFormsRead(grids, offset, grid, Add(x, Offsets(indices)), size);
        }
      case Combine(_, l, r) =>
        BoundaryPreserves(grids, other, l, dom, offset, size, dim, right, width, x);
        BoundaryPreserves(grids, other, r, dom, offset, size, dim, right, width, x);
      case Branch(_, yes, no) =>
        BoundaryPreserves(grids, other, yes, dom, offset, size, dim, right, width, x);
        BoundaryPreserves(grids, other, no, dom, offset, size, dim, right, width, x);
      case Call(body) => BoundaryPreserves(grids, other, body, dom, offset, size, dim, right, width, x);
    }
  }

  // --------------------------------------------------- covering the domain

  ghost predicate InSlab(dom: Domain, dim: nat, right: bool, width: int, v: IndexArray)
    requires |dom.lo| == |dom.hi|
  {
    dim < |dom.lo| && Slab(dom, dim, right, width).Has(v)
  }

  // The shrunk domain and the slabs make up the domain, and share no point
  // with each other.
  lemma SlabsCover(dom: Domain, width: int, v: IndexArray)
    requires |dom.lo| == |dom.hi| && width >= 0
    requires forall d | 0 <= d < |dom.lo| :: width <= dom.hi[d] - dom.lo[d]
    ensures dom.Has(v) <==> Shrunk(dom, width).Has(v) || exists dim, right :: InSlab(dom, dim, right, width, v)
    ensures !(Shrunk(dom, width).Has(v) && exists dim, right :: InSlab(dom, dim, right, width, v))
  {
    var inner := Shrunk(dom, width);
    forall dim: nat, right | InSlab(dom, dim, right, width, v) ensures dom.Has(v) && !inner.Has(v) {
      var slab := Slab(dom, dim, right, width);
      forall d | 0 <= d < |v| ensures dom.lo[d] <= v[d] < dom.hi[d] {
        assert slab.lo[d] <= v[d] < slab.hi[d];
      }
      assert slab.lo[dim] <= v[dim] < slab.hi[dim];
      assert !(inner.lo[dim] <= v[dim] < inner.hi[dim]);
    }
    if inner.Has(v) {
      forall d | 0 <= d < |v| ensures dom.lo[d] <= v[d] < dom.hi[d] {
        assert inner.lo[d] <= v[d] < inner.hi[d];
      }
    } else if dom.Has(v) {
      var d: nat :| d < |v| && !(inner.lo[d] <= v[d] < inner.hi[d]);
      assert InSlab(dom, d, v[d] >= inner.hi[d], width, v);
    }
  }

  // A chunk ends where the next one starts, the first starts at 0 and the
  // last ends at n.
  lemma ChunkEnds(n: int, factor: int, o: int)
    requires n >= 0 && factor > 0
    ensures ChunkStart(n, factor, o + 1) == ChunkStart(n, factor, o) + n / factor + (if o < n % factor then 1 else 0)
    ensures ChunkStart(n, factor, 0) == 0 && ChunkStart(n, factor, factor) == n
  {
    var chunk, rem := n / factor, n % factor;
    assert chunk * (o + 1) == chunk * o + chunk;
    assert chunk * factor + rem == n && 0 <= rem < factor && chunk >= 0;
  }

  ghost predicate InChunk(n: int, factor: int, o: int, z: int)
    requires factor > 0
  {
    0 <= o < factor && ChunkStart(n, factor, o) <= z < ChunkStart(n, factor, o + 1)
  }

  lemma {:induction false} ChunkStartsGrow(n: int, factor: int, o: int, p: int)
    requires n >= 0 && factor > 0 && o <= p
    ensures ChunkStart(n, factor, o) <= ChunkStart(n, factor, p)
    decreases p - o
  {
    if o < p {
      ChunkEnds(n, factor, p - 1);
      assert n / factor >= 0;
      ChunkStartsGrow(n, factor, o, p - 1);
    }
  }

  lemma {:induction false} FindChunk(n: int, factor: int, p: int, z: int) returns (o: int)
    requires n >= 0 && 0 < factor && 0 <= p <= factor && 0 <= z < ChunkStart(n, factor, p)
    ensures 0 <= o < p && InChunk(n, factor, o, z)
    decreases p
  {
    ChunkEnds(n, factor, p - 1);
    if ChunkStart(n, factor, p - 1) <= z {
      o := p - 1;
    } else {
      o := FindChunk(n, factor, p - 1, z);
    }
  }

  // Every cell of a dimension is in exactly one of the chunks.
  lemma ChunksTile(n: int, factor: int, z: int)
    requires n >= 0 && factor > 0
    ensures 0 <= z < n <==> exists o :: InChunk(n, factor, o, z)
    ensures forall o, p | InChunk(n, factor, o, z) && InChunk(n, factor, p, z) :: o == p
  {
    ChunkEnds(n, factor, 0);
    if 0 <= z < n {
      var o := FindChunk(n, factor, factor, z);
    }
    forall o | InChunk(n, factor, o, z) ensures 0 <= z < n {
      ChunkStartsGrow(n, factor, 0, o);
      ChunkStartsGrow(n, factor, o + 1, factor);
    }
    forall o, p | InChunk(n, factor, o, z) && InChunk(n, factor, p, z) ensures o == p {
      if o < p {
        ChunkStartsGrow(n, factor, o + 1, p);
      } else if p < o {
        ChunkStartsGrow(n, factor, p + 1, o);
      }
    }
  }

  ghost predicate InSlabChunk(dom: Domain, dim: nat, right: bool, width: int, factor: int, o: int, v: IndexArray)
    requires |dom.lo| == |dom.hi| == 3 && dim < 3 && factor > 0
  {
    0 <= o < factor && Chunk(dom, Slab(dom, dim, right, width), factor, o).Has(v)
  }

  // The chunks of a slab of one of the first two dimensions tile the slab.
  lemma SlabChunksTile(dom: Domain, dim: nat, right: bool, width: int, factor: int, v: IndexArray)
    requires |dom.lo| == |dom.hi| == 3 && dim < 2 && factor > 0 && dom.lo[2] <= dom.hi[2]
    ensures Slab(dom, dim, right, width).Has(v) <==> exists o :: InSlabChunk(dom, dim, right, width, factor, o, v)
    ensures forall o, p | InSlabChunk(dom, dim, right, width, factor, o, v) && InSlabChunk(dom, dim, right, width, factor, p, v) :: o == p
  {
    var slab := Slab(dom, dim, right, width);
    var n := dom.hi[2] - dom.lo[2];
    if |v| == 3 {
      ChunksTile(n, factor, v[2] - dom.lo[2]);
      forall o | 0 <= o < factor
        ensures InSlabChunk(dom, dim, right, width, factor, o, v)
          <==> slab.lo[0] <= v[0] < slab.hi[0] && slab.lo[1] <= v[1] < slab.hi[1] && InChunk(n, factor, o, v[2] - dom.lo[2])
      {
        ChunkEnds(n, factor, o);
        var c := Chunk(dom, slab, factor, o);
        assert c.lo[0] == slab.lo[0] && c.hi[0] == slab.hi[0] && c.lo[1] == slab.lo[1] && c.hi[1] == slab.hi[1];
        assert c.lo[2] == dom.lo[2] + ChunkStart(n, factor, o) && c.hi[2] == dom.lo[2] + ChunkStart(n, factor, o + 1);
      }
      if slab.Has(v) {
        assert slab.lo[2] <= v[2] < slab.hi[2];
        var o :| InChunk(n, factor, o, v[2] - dom.lo[2]);
        assert InSlabChunk(dom, dim, right, width, factor, o, v);
      }
    }
  }

  // ------------------------------------------------------- the whole split

  // The grids before and after the halos arrive.
  ghost predicate SameOwn(before: seq<Local>, loaded: seq<Local>, size: IndexArray) {
    |before| == |loaded|
    && forall i | 0 <= i < |before| ::
         before[i].WellFormed(|size|) && loaded[i].WellFormed(|size|)
         && before[i].size == loaded[i].size == size && before[i].data == loaded[i].data
  }

  // One iteration with overlap computes what one without computes. Each point
  // of the domain is in the shrunk domain or in a slab, and
  // - in the shrunk domain the interior kernel, run on the grids as they are
  //   before the halos arrive, gives the value of the kernel on the loaded
  //   grids;
  // - in each slab that has the point, so does the boundary kernel of the slab,
  //   run on the loaded grids.
  lemma OverlapSame(before: seq<Local>, loaded: seq<Local>, other: (nat, StencilIndexList, IndexArray) -> Elem,
                    k: Kernel, dom: Domain, offset: IndexArray, size: IndexArray, width: int, x: IndexArray)
    requires SameOwn(before, loaded, size) && NoRemote(k, loaded) && dom.Inside(offset, size) && Within(k, |size|, width)
    requires width >= 0 && forall d | 0 <= d < |size| :: width <= dom.hi[d] - dom.lo[d]
    requires forall d, right | 0 <= d < |size| :: Roomy(dom, offset, size, d, right, width)
    requires dom.Has(x)
    ensures Shrunk(dom, width).Has(x) || exists dim, right :: InSlab(dom, dim, right, width, x)
    ensures Shrunk(dom, width).Has(x) ==>
      Eval(before, offset, other, Interior(k), x) == Eval(loaded, offset, other, k, x)
    ensures forall dim, right | InSlab(dom, dim, right, width, x) ::
      Eval(loaded, offset, other, Boundary(k, |size|, dim, right), x) == Eval(loaded, offset, other, k, x)
  {
    SlabsCover(dom, width, x);
    if Shrunk(dom, width).Has(x) {
      InteriorSame(before, loaded, other, k, dom, offset, size, width, x);
    }
    forall dim: nat, right | InSlab(dom, dim, right, width, x)
      ensures Eval(loaded, offset, other, Boundary(k, |size|, dim, right), x) == Eval(loaded, offset, other, k, x)
    {
      BoundaryPreserves(loaded, other, k, dom, offset, size, dim, right, width, x);
    }
  }

  lemma InteriorSame(before: seq<Local>, loaded: seq<Local>, other: (nat, StencilIndexList, IndexArray) -> Elem,
                     k: Kernel, dom: Domain, offset: IndexArray, size: IndexArray, width: int, x: IndexArray)
    requires SameOwn(before, loaded, size) && NoRemote(k, loaded) && dom.Inside(offset, size) && Within(k, |size|, width)
    requires Shrunk(dom, width).Has(x)
    ensures Eval(before, offset, other, Interior(k), x) == Eval(loaded, offset, other, k, x)
  {
    InteriorNeedsNoHalo(before, loaded, other, k, offset, width, x);
    InteriorPreserves(loaded, other, k, dom, offset, size, width, x);
  }

  // ------------------------------------------------------- the overlap width

  // The reads of a kernel are among the lists.
  ghost predicate ReadsIn(k: Kernel, lists: set<StencilIndexList>) {
    match k
    case Value(_) => true
    case Get(_, indices, _, _) => indices in lists
    case Combine(_, l, r) => ReadsIn(l, lists) && ReadsIn(r, lists)
    case Branch(_, yes, no) => ReadsIn(yes, lists) && ReadsIn(no, lists)
    case Call(body) => ReadsIn(body, lists)
  }

  lemma {:induction false} MaxWidthSuffices(k: Kernel, lists: set<StencilIndexList>, n: nat, width: int)
    requires ReadsIn(k, lists) && forall l: StencilIndexList | l in lists :: |l| == n && Regular(l)
    requires forall l: StencilIndexList, i | l in lists && 0 <= i < n :: Abs(l[i].offset) <= width
    ensures Within(k, n, width)
    decreases k
  {
    match k {
      case Value(_) =>
      case Get(_, indices, _, _) =>
      case Combine(_, l, r) =>
        MaxWidthSuffices(l, lists, n, width);
        MaxWidthSuffices(r, lists, n, width);
      case Branch(_, yes, no) =>
        MaxWidthSuffices(yes, lists, n, width);
        MaxWidthSuffices(no, lists, n, width);
      case Call(body) => MaxWidthSuffices(body, lists, n, width);
    }
  }

  // All reads that went into the ranges of the grid parameters.
  ghost function AllReads(ranges: seq<StencilRange>): (lists: set<StencilIndexList>)
    reads ranges
    ensures forall l: StencilIndexList :: l in lists <==> exists i :: 0 <= i < |ranges| && l in ranges[i].lists
  {
    set i, l: StencilIndexList | 0 <= i < |ranges| && l in ranges[i].lists :: l
  }

  // overlap_width of GenerateLoadRemoteGridRegion: the largest width of any
  // parameter that has to be loaded. It covers every get of a kernel whose
  // reads are in the ranges, as they are if overlap is eligible.
  method OverlapWidth(ranges: seq<StencilRange>, ghost k: Kernel, n: nat) returns (width: int)
    requires forall i | 0 <= i < |ranges| :: ranges[i].Valid() && ranges[i].numDims == n
    requires ReadsIn(k, AllReads(ranges)) && forall l: StencilIndexList | l in AllReads(ranges) :: Regular(l)
    ensures width >= 0 && Within(k, n, width)
    ensures width > 0 ==> exists l: StencilIndexList, i :: l in AllReads(ranges) && 0 <= i < |l| && Abs(l[i].offset) == width
  {
    width := 0;
    for j := 0 to |ranges|
      invariant width >= 0
      invariant forall r, l: StencilIndexList, i | 0 <= r < j && l in ranges[r].lists && 0 <= i < n :: Abs(l[i].offset) <= width
      invariant width > 0 ==> exists l: StencilIndexList, i :: l in AllReads(ranges) && 0 <= i < n && Abs(l[i].offset) == width
    {
      var zero := ranges[j].IsZero();
      if !zero {
        var w := ranges[j].GetMaxWidth();
        if w > width {
          width := w;
        }
      }
    }
    MaxWidthSuffices(k, AllReads(ranges), n, width);
  }

  // A translated kernel: all gets are regular and go through the halo logic.
  ghost predicate HaloForm(k: Kernel, n: nat) {
    match k
    case Value(_) => true
    case Get(_, indices, _, halo) => |indices| == n && Regular(indices) && halo
    case Combine(_, l, r) => HaloForm(l, n) && HaloForm(r, n)
    case Branch(_, yes, no) => HaloForm(yes, n) && HaloForm(no, n)
    case Call(body) => HaloForm(body, n)
  }

  // ------------------------------------------- kernels as stencils of a run

  // The reads a kernel makes at point x, in the order of evaluation, and its
  // value from what they return.
  ghost function KernelReads(k: Kernel, x: IndexArray): seq<Access> {
    match k
    case Value(_) => []
    case Get(grid, indices, _, _) => [Access(grid, Offsets(indices))]
    case Combine(_, l, r) => KernelReads(l, x) + KernelReads(r, x)
    case Branch(cond, yes, no) => if cond(x) then KernelReads(yes, x) else KernelReads(no, x)
    case Call(body) => KernelReads(body, x)
  }

  ghost function KernelValue(k: Kernel, x: IndexArray, values: seq<Elem>): Elem {
    match k
    case Value(at) => at(x)
    case Get(_, _, _, _) => if |values| > 0 then values[0] else 0.0
    case Combine(f, l, r) =>
      var n := |KernelReads(l, x)|;
      if n <= |values| then f(KernelValue(l, x, values[..n]), KernelValue(r, x, values[n..])) else 0.0
    case Branch(cond, yes, no) => if cond(x) then KernelValue(yes, x, values) else KernelValue(no, x, values)
    case Call(body) => KernelValue(body, x, values)
  }

  // The stencil runs the kernel.
  ghost predicate RunsKernel(st: Stencil, k: Kernel) {
    && (forall x: IndexArray :: st.accesses(x) == KernelReads(k, x))
    && (forall x: IndexArray, values: seq<Elem> :: st.combine(x, values) == KernelValue(k, x, values))
  }

  // Both ways of running a kernel agree.
  lemma {:induction false} KernelIsStencil(own: seq<Local>, offset: IndexArray,
                                           other: (nat, StencilIndexList, IndexArray) -> Elem, k: Kernel,
                                           x: IndexArray)
    requires |x| == |offset| && HaloForm(k, |x|)
    ensures Eval(own, offset, other, k, x) == KernelValue(k, x, ReadValues(offset, own, x, KernelReads(k, x)))
    decreases k
  {
    match k {
      case Value(_) =>
      case Get(grid, indices, _, _) =>
      case Combine(_, left, right) =>
        KernelIsStencil(own, offset, other, left, x);
        KernelIsStencil(own, offset, other, right, x);
        var a, b := KernelReads(left, x), KernelReads(right, x);
        var values := ReadValues(offset, own, x, a + b);
        assert values[..|a|] == ReadValues(offset, own, x, a) && values[|a|..] == ReadValues(offset, own, x, b);
      case Branch(_, yes, no) =>
        KernelIsStencil(own, offset, other, yes, x);
        KernelIsStencil(own, offset, other, no, x);
      case Call(body) => KernelIsStencil(own, offset, other, body, x);
    }
  }

  // The part of the stencil's domain in the box of process r.
  ghost function LocalDomain(geo: Geometry, st: Stencil, r: nat): (dom: Domain)
    requires geo.Shape() && geo.IsRank(r) && |st.lo| == |st.hi| == |geo.gsize|
    ensures dom.Inside(geo.offset[r], geo.size[r])
    ensures forall x | |x| == |geo.gsize| :: dom.Has(x) <==> InDomain(st, x) && geo.Holds(r, x)
  {
    var offset, size := geo.offset[r], geo.size[r];
    Domain(seq(|st.lo|, d requires 0 <= d < |st.lo| => if st.lo[d] < offset[d] then offset[d] else st.lo[d]),
           seq(|st.hi|, d requires 0 <= d < |st.hi| => if st.hi[d] < offset[d] + size[d] then st.hi[d] else offset[d] + size[d]))
  }

  // What process r writes for its cell v in one iteration without overlap.
  lemma WrittenValue(geo: Geometry, m: Machine, st: Stencil, k: Kernel, r: nat, v: IndexArray,
                     other: (nat, StencilIndexList, IndexArray) -> Elem) returns (loaded: Machine, value: Elem)
    requires Runnable(geo, st, |m|) && MachineShape(geo, m) && geo.IsRank(r) && InBox(v, geo.size[r])
    requires RunsKernel(st, k) && HaloForm(k, |v|) && InDomain(st, Add(geo.offset[r], v))
    ensures loaded == Load(geo, m, st, |st.params|) && |loaded| == |m| && MachineShape(geo, loaded)
    ensures value == At(Step(geo, m, st)[st.target][r].data, Lin(v, geo.size[r]))
    ensures value == Eval(OnProcess(loaded, r), geo.offset[r], other, k, Add(geo.offset[r], v))
  {
    var x := Add(geo.offset[r], v);
    loaded := Load(geo, m, st, |st.params|);
    var own := OnProcess(loaded, r);
    value := At(RunLocal(geo, own, st, r).data, Lin(v, geo.size[r]));
    RunAt(geo, loaded, st, r, v);
    KernelIsStencil(own, geo.offset[r], other, k, x);
    assert ReadValues(geo.offset[r], own, x, st.accesses(x)) == ReadValues(geo.offset[r], own, x, KernelReads(k, x));
  }

  lemma InLocalDomain(geo: Geometry, st: Stencil, r: nat, v: IndexArray)
    requires geo.Shape() && geo.IsRank(r) && |st.lo| == |st.hi| == |geo.gsize|
    requires InBox(v, geo.size[r]) && InDomain(st, Add(geo.offset[r], v))
    ensures LocalDomain(geo, st, r).Inside(geo.offset[r], geo.size[r])
    ensures LocalDomain(geo, st, r).Has(Add(geo.offset[r], v))
  {
    assert Sub(Add(geo.offset[r], v), geo.offset[r]) == v;
  }

  // The same value is what each of the overlapping kernels computes there: the
  // interior kernel on the grids before any halo is loaded, the boundary
  // kernels on the loaded ones.
  lemma OverlapRefines(geo: Geometry, m: Machine, st: Stencil, k: Kernel, r: nat, v: IndexArray, width: int,
                       other: (nat, StencilIndexList, IndexArray) -> Elem, dom: Domain, x: IndexArray)
    returns (before: seq<Local>, loaded: seq<Local>, value: Elem)
    requires Runnable(geo, st, |m|) && MachineShape(geo, m) && geo.IsRank(r) && InBox(v, geo.size[r])
    requires RunsKernel(st, k) && HaloForm(k, |v|) && Within(k, |v|, width) && width >= 0 && NoRemote(k, OnProcess(m, r))
    requires dom == LocalDomain(geo, st, r) && x == Add(geo.offset[r], v) && InDomain(st, x)
    requires forall d | 0 <= d < |v| :: width <= dom.hi[d] - dom.lo[d]
    requires forall d, right | 0 <= d < |v| :: Roomy(dom, geo.offset[r], geo.size[r], d, right, width)
    ensures before == OnProcess(m, r) && loaded == OnProcess(Load(geo, m, st, |st.params|), r)
    ensures value == At(Step(geo, m, st)[st.target][r].data, Lin(v, geo.size[r]))
    ensures Shrunk(dom, width).Has(x) || exists dim, right :: InSlab(dom, dim, right, width, x)
    ensures Shrunk(dom, width).Has(x) ==> Eval(before, geo.offset[r], other, Interior(k), x) == value
    ensures forall dim, right | InSlab(dom, dim, right, width, x) ::
      Eval(loaded, geo.offset[r], other, Boundary(k, |geo.size[r]|, dim, right), x) == value
  {
    var after;
    after, value := WrittenValue(geo, m, st, k, r, v, other);
    before, loaded := OnProcess(m, r), OnProcess(after, r);
    LoadKeepsOwn(geo, m, st, r, after);
    InLocalDomain(geo, st, r, v);
    StillNoRemote(k, before, loaded);
    OverlapSame(before, loaded, other, k, dom, geo.offset[r], geo.size[r], width, x);
  }

  lemma LoadKeepsOwn(geo: Geometry, m: Machine, st: Stencil, r: nat, loaded: Machine)
    requires Runnable(geo, st, |m|) && MachineShape(geo, m) && geo.IsRank(r)
    requires loaded == Load(geo, m, st, |st.params|) && |loaded| == |m| && MachineShape(geo, loaded)
    ensures SameOwn(OnProcess(m, r), OnProcess(loaded, r), geo.size[r])
    ensures forall i | 0 <= i < |m| :: OnProcess(m, r)[i].remote == OnProcess(loaded, r)[i].remote
  {
    forall i: nat | i < |m| ensures SameOwnAt(m[i], loaded[i], r) {
      LoadKeeps(geo, m, st, |st.params|, i, r);
    }
  }

  ghost predicate SameOwnAt(w: World, w': World, r: nat) {
    r < |w| == |w'| && w[r].data == w'[r].data && w[r].remote == w'[r].remote
  }

  lemma {:induction false} StillNoRemote(k: Kernel, before: seq<Local>, loaded: seq<Local>)
    requires |before| == |loaded| && (forall i | 0 <= i < |before| :: before[i].remote == loaded[i].remote)
    requires NoRemote(k, before)
    ensures NoRemote(k, loaded)
    decreases k
  {
    match k {
      case Value(_) =>
      case Get(_, _, _, _) =>
      case Combine(_, l, r) =>
        StillNoRemote(l, before, loaded);
        StillNoRemote(r, before, loaded);
      case Branch(_, yes, no) =>
        StillNoRemote(yes, before, loaded);
        StillNoRemote(no, before, loaded);
      case Call(body) => StillNoRemote(body, before, loaded);
    }
  }
}
