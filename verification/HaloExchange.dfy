// Halo exchange between the processes of a grid (runtime/grid_mpi.cc) and the
// address computation that reads the exchanged halos (runtime/mpi_runtime.cc).
//
// Indices are local: coordinate 0 is the first cell of the process box, so a
// halo cell has a negative coordinate or one at or above the local size.
module HaloExchange {
  import opened MixedRadix
  import opened Subgrid
  import opened Geometry
  import opened RemoteGrid

  // The part of a grid a process holds: its own cells, and for every
  // dimension the halo received from the backward and from the forward
  // neighbour, with its width and its extents; also its remote grid.
  datatype Local = Local(
    size: IndexArray, data: seq<Elem>,
    bw: IndexArray, fw: IndexArray,
    bwSize: seq<IndexArray>, fwSize: seq<IndexArray>,
    haloBw: seq<seq<Elem>>, haloFw: seq<seq<Elem>>,
    hasDiagonal: bool, remote: Remote)
  {
    ghost predicate WellFormed(n: nat) {
      && n == |size| == |bw| == |fw| == |bwSize| == |fwSize| == |haloBw| == |haloFw|
      && |remote.offset| == |remote.size| == n
      && (forall d | 0 <= d < n :: |bwSize[d]| == |fwSize[d]| == n)
      && NonNegative(size) && NonNegative(bw) && NonNegative(fw)
    }

    predicate Empty() { Volume(size) == 0 }
  }

  predicate Out(v: IndexArray, size: IndexArray, d: int)
    requires |v| == |size| && 0 <= d < |v|
  {
    v[d] < 0 || v[d] >= size[d]
  }

  // First dimension, from i on, in which v leaves the local box.
  function FirstOut(v: IndexArray, size: IndexArray, i: nat): (r: nat)
    requires |v| == |size| && i <= |v|
    ensures i <= r <= |v| && (r < |v| ==> Out(v, size, r))
    ensures forall d | i <= d < r :: !Out(v, size, d)
    decreases |v| - i
  {
    if i == |v| || Out(v, size, i) then i else FirstOut(v, size, i + 1)
  }

  // Index within the halo of dimension i: the halo spans the whole extended
  // box in the later dimensions if diagonal points were exchanged.
  function HaloIndex(L: Local, diagonal: bool, v: IndexArray, i: nat): (u: IndexArray)
    requires |v| == |L.size| == |L.bw| && i < |v|
    ensures |u| == |v|
  {
    seq(|v|, j requires 0 <= j < |v| =>
      if j > i && diagonal then v[j] + L.bw[j]
      else if j == i then (if v[i] < 0 then v[i] + L.bw[i] else v[i] - L.size[i])
      else v[j])
  }

  // Address computation: the first dimension in which the index leaves the
  // local box selects the halo.
  function Locate(L: Local, diagonal: bool, v: IndexArray): Place
    requires |v| == |L.size| == |L.bw| == |L.bwSize| == |L.fwSize|
    requires forall d | 0 <= d < |v| :: |L.bwSize[d]| == |L.fwSize[d]| == |v|
  {
    var i := FirstOut(v, L.size, 0);
    if i == |v| then Own(Lin(v, L.size))
    else if v[i] < 0 then Backward(i, Lin(HaloIndex(L, diagonal, v, i), L.bwSize[i]))
    else Forward(i, Lin(HaloIndex(L, diagonal, v, i), L.fwSize[i]))
  }

  // The address computation of kernels (__PSGridGetAddr), at an index of the
  // grid space: an active remote grid comes first.
  function Address(L: Local, offset: IndexArray, index: IndexArray): Place
    requires |index| == |offset| == |L.size| == |L.bw| == |L.bwSize| == |L.fwSize| == |L.remote.offset| == |L.remote.size|
    requires forall d | 0 <= d < |index| :: |L.bwSize[d]| == |L.fwSize[d]| == |index|
  {
    if L.remote.active then InRemote(Lin(Sub(index, L.remote.offset), L.remote.size))
    else Locate(L, L.hasDiagonal, Sub(index, offset))
  }

  ghost function Read(L: Local, diagonal: bool, v: IndexArray): Elem
    requires L.WellFormed(|v|)
  {
    match Locate(L, diagonal, v)
    case Own(p) => At(L.data, p)
    case Backward(i, p) => At(L.haloBw[i], p)
    case Forward(i, p) => At(L.haloFw[i], p)
    case InRemote(p) => At(L.remote.data, p)
  }

  ghost function ReadAddress(L: Local, offset: IndexArray, index: IndexArray): Elem
    requires L.WellFormed(|index|) && |offset| == |index|
  {
    match Address(L, offset, index)
    case Own(p) => At(L.data, p)
    case Backward(i, p) => At(L.haloBw[i], p)
    case Forward(i, p) => At(L.haloFw[i], p)
    case InRemote(p) => At(L.remote.data, p)
  }

  // Without an active remote grid a kernel reads own cells and halos.
  lemma ReadsLocally(L: Local, offset: IndexArray, v: IndexArray)
    requires L.WellFormed(|v|) && |offset| == |v| && !L.remote.active
    ensures ReadAddress(L, offset, Add(offset, v)) == Read(L, L.hasDiagonal, v)
  {
    assert Sub(Add(offset, v), offset) == v;
  }

  // ------------------------------------------------------------- packing

  // Extents of a halo of dimension d (SetHaloSize).
  function HaloShape(L: Local, d: nat, width: int, diagonal: bool): (s: IndexArray)
    requires |L.size| == |L.bw| == |L.fw|
    ensures |s| == |L.size|
  {
    seq(|L.size|, j requires 0 <= j < |L.size| =>
      if j == d then width else if j > d && diagonal then L.bw[j] + L.size[j] + L.fw[j] else L.size[j])
  }

  // First cell of the region that is sent to the neighbour: at the low end of
  // dimension d for forward accesses of the neighbour, at the high end for
  // its backward accesses.
  function PackStart(L: Local, d: nat, width: int, forward: bool, diagonal: bool): (s: IndexArray)
    requires |L.size| == |L.bw|
    ensures |s| == |L.size|
  {
    seq(|L.size|, j requires 0 <= j < |L.size| =>
      if j == d then (if forward then 0 else L.size[j] - width)
      else if j > d && diagonal then -L.bw[j] else 0)
  }

  // What a process sends: the cells of that region in row-major order,
  // including halo cells of the later dimensions if diagonal.
  ghost function Pack(L: Local, d: nat, width: int, forward: bool, diagonal: bool): seq<Elem>
    requires L.WellFormed(|L.size|) && d < |L.size| && width >= 0
  {
    var shape := HaloShape(L, d, width, diagonal);
    VolumeSign(shape);
    seq(Volume(shape), k => Read(L, diagonal, Add(PackStart(L, d, width, forward, diagonal), Digits(k, shape))))
  }

  lemma PackAt(L: Local, d: nat, width: int, forward: bool, diagonal: bool, u: IndexArray)
    requires L.WellFormed(|L.size|) && d < |L.size| && width >= 0
    requires InBox(u, HaloShape(L, d, width, diagonal))
    ensures At(Pack(L, d, width, forward, diagonal), Lin(u, HaloShape(L, d, width, diagonal)))
         == Read(L, diagonal, Add(PackStart(L, d, width, forward, diagonal), u))
  {
    var shape := HaloShape(L, d, width, diagonal);
    LinInRange(u, shape);
    DigitsOfLin(u, shape);
  }

  // ------------------------------------------------------------ exchange

  // One exchange: the decomposition, the halo widths asked for, and whether
  // diagonal points and periodic access are needed.
  datatype Exchange = Exchange(geo: Geometry, fwWidth: IndexArray, bwWidth: IndexArray, diagonal: bool, periodic: bool) {

    ghost predicate Valid() {
      && geo.Valid() && |fwWidth| == |bwWidth| == |geo.gsize|
      && forall d | 0 <= d < |geo.gsize| :: 0 <= fwWidth[d] && 0 <= bwWidth[d]
    }

    function Dims(): nat { |geo.gsize| }

    // Width actually received by process r: none at the end of a non-periodic
    // grid.
    ghost function EffFw(r: nat, d: nat): (w: int)
      requires Valid() && geo.IsRank(r) && d < Dims()
      ensures w >= 0
    {
      if periodic || geo.offset[r][d] + geo.size[r][d] < geo.gsize[d] then fwWidth[d] else 0
    }

    ghost function EffBw(r: nat, d: nat): (w: int)
      requires Valid() && geo.IsRank(r) && d < Dims()
      ensures w >= 0
    {
      if periodic || geo.offset[r][d] > 0 then bwWidth[d] else 0
    }

    // How far a process may read behind its box: no farther than to the end
    // of a non-periodic grid.
    ghost function WantFw(r: nat, d: nat): (w: int)
      requires Valid() && geo.IsRank(r) && d < Dims()
      ensures 0 <= w <= EffFw(r, d)
    {
      assert geo.BoxAt(r, d);
      var rest := geo.gsize[d] - geo.offset[r][d] - geo.size[r][d];
      if periodic || EffFw(r, d) <= rest then EffFw(r, d) else rest
    }

    ghost function WantBw(r: nat, d: nat): (w: int)
      requires Valid() && geo.IsRank(r) && d < Dims()
      ensures 0 <= w <= EffBw(r, d)
    {
      assert geo.BoxAt(r, d);
      if periodic || EffBw(r, d) <= geo.offset[r][d] then EffBw(r, d) else geo.offset[r][d]
    }

    // The neighbours of r along d hold the cells that r may read.
    ghost predicate ReachesAt(r: nat, d: nat)
      requires Valid() && geo.IsRank(r) && d < Dims()
    {
      geo.NeighborAt(r, d) && WantFw(r, d) <= geo.size[geo.fw[r][d]][d] && WantBw(r, d) <= geo.size[geo.bw[r][d]][d]
    }

    ghost predicate Reaches()
      requires Valid()
    {
      forall r: nat, d: nat | geo.IsRank(r) && geo.HasCells(r) && d < Dims() :: ReachesAt(r, d)
    }

    // The process sends a halo in dimension d: for forward accesses to its
    // backward neighbour, for backward accesses to its forward neighbour.
    ghost predicate SendsHalo(r: nat, d: nat, forward: bool)
      requires Valid() && geo.IsRank(r) && d < Dims()
    {
      if forward then fwWidth[d] > 0 && (periodic || geo.offset[r][d] > 0)
      else bwWidth[d] > 0 && (periodic || geo.offset[r][d] + geo.size[r][d] < geo.gsize[d])
    }

    ghost predicate Sends(r: nat, d: nat)
      requires Valid() && geo.IsRank(r) && d < Dims()
    {
      SendsHalo(r, d, true) || SendsHalo(r, d, false)
    }

    // Every process that sends holds at least the width it sends.
    ghost predicate FitsAt(r: nat, d: nat, forward: bool)
      requires Valid() && geo.IsRank(r) && d < Dims()
    {
      SendsHalo(r, d, forward) ==> (if forward then fwWidth[d] else bwWidth[d]) <= geo.size[r][d]
    }

    ghost predicate Fits()
      requires Valid()
    {
      forall r: nat, d: nat, forward | geo.IsRank(r) && geo.HasCells(r) && d < Dims() :: FitsAt(r, d, forward)
    }

    // Neighbours that exchange periodically are empty together; an empty
    // process neither sends nor receives.
    ghost predicate JoinedAt(r: nat, d: nat)
      requires Valid() && geo.IsRank(r) && d < Dims()
    {
      && geo.NeighborAt(r, d)
      && (periodic && (fwWidth[d] > 0 || bwWidth[d] > 0) ==> geo.HasCells(r) == geo.HasCells(geo.fw[r][d]))
    }

    ghost predicate Joined()
      requires Valid()
    {
      forall r: nat, d: nat | geo.IsRank(r) && d < Dims() :: JoinedAt(r, d)
    }

    // Cell of the global grid at local index v of process r, modulo its extents
    // if access is periodic.
    ghost function GlobalCell(r: nat, v: IndexArray): (x: IndexArray)
      requires Valid() && geo.IsRank(r) && |v| == Dims()
      ensures |x| == |v|
    {
      seq(|v|, d requires 0 <= d < |v| =>
        var x := geo.offset[r][d] + v[d]; if periodic then Wrap(x, geo.gsize[d]) else x)
    }

    ghost function GlobalAt(g: seq<Elem>, r: nat, v: IndexArray): Elem
      requires Valid() && geo.IsRank(r) && |v| == Dims()
    {
      At(g, Lin(GlobalCell(r, v), geo.gsize))
    }
  }

  // x modulo g, by repeated addition and subtraction.
  function Wrap(x: int, g: int): int
    decreases if x < 0 then g - x else x
  {
    if g <= 0 then x else if x < 0 then Wrap(x + g, g) else if x >= g then Wrap(x - g, g) else x
  }

  lemma {:induction false} WrapIsModulo(x: int, g: int)
    requires g > 0
    ensures Wrap(x, g) == x % g && 0 <= Wrap(x, g) < g
    decreases if x < 0 then g - x else x
  {
    if x < 0 {
      WrapIsModulo(x + g, g);
      ModuloShift(x, g);
    } else if x >= g {
      WrapIsModulo(x - g, g);
      ModuloShift(x - g, g);
    } else {
      DivModUnique(g, 0, x);
    }
  }

  lemma ModuloShift(x: int, g: int)
    requires g > 0
    ensures (x + g) % g == x % g
  {
    assert x == g * (x / g) + x % g;
    assert g * (x / g + 1) == g * (x / g) + g;
    DivModUnique(g, x / g + 1, x % g);
  }

  // The state of all processes, by rank.
  type World = seq<Local>

  ghost predicate WorldShape(e: Exchange, w: World)
    requires e.geo.Shape()
  {
    && |w| == |e.geo.offset|
    && forall r | 0 <= r < |w| :: w[r].WellFormed(e.Dims()) && w[r].size == e.geo.size[r]
  }

  // The halos that the neighbours of process r send to it.
  ghost function FromForward(e: Exchange, w: World, d: nat, r: nat): seq<Elem>
    requires e.Valid() && WorldShape(e, w) && d < e.Dims() && r < |w|
  {
    assert e.geo.NeighborAt(r, d);
    Pack(w[e.geo.fw[r][d]], d, e.fwWidth[d], true, e.diagonal)
  }

  ghost function FromBackward(e: Exchange, w: World, d: nat, r: nat): seq<Elem>
    requires e.Valid() && WorldShape(e, w) && d < e.Dims() && r < |w|
  {
    assert e.geo.NeighborAt(r, d);
    Pack(w[e.geo.bw[r][d]], d, e.bwWidth[d], false, e.diagonal)
  }

  ghost function AcceptForward(L: Local, d: nat, width: int, diagonal: bool, halo: seq<Elem>): (r: Local)
    requires L.WellFormed(|L.size|) && d < |L.size| && width >= 0
    ensures r.WellFormed(|L.size|) && r.size == L.size
  {
    L.(fw := L.fw[d := width],
       fwSize := L.fwSize[d := if width > 0 then HaloShape(L, d, width, diagonal) else seq(|L.size|, j => 0)],
       haloFw := if width > 0 then L.haloFw[d := halo] else L.haloFw)
  }

  ghost function AcceptBackward(L: Local, d: nat, width: int, diagonal: bool, halo: seq<Elem>): (r: Local)
    requires L.WellFormed(|L.size|) && d < |L.size| && width >= 0
    ensures r.WellFormed(|L.size|) && r.size == L.size
  {
    L.(bw := L.bw[d := width],
       bwSize := L.bwSize[d := if width > 0 then HaloShape(L, d, width, diagonal) else seq(|L.size|, j => 0)],
       haloBw := if width > 0 then L.haloBw[d := halo] else L.haloBw)
  }

  // What process r makes of the halos it receives; an empty process receives
  // none. The flag is set while the process packs its own halos.
  ghost function Accept(e: Exchange, L: Local, d: nat, r: nat, fromForward: seq<Elem>, fromBackward: seq<Elem>): (L': Local)
    requires e.Valid() && e.geo.IsRank(r) && d < e.Dims() && L.WellFormed(e.Dims()) && L.size == e.geo.size[r]
    ensures L'.WellFormed(e.Dims()) && L'.size == L.size
  {
    if L.Empty() then L else
    var fwd := AcceptForward(L, d, e.EffFw(r, d), e.diagonal, fromForward);
    var bwd := AcceptBackward(fwd, d, e.EffBw(r, d), e.diagonal, fromBackward);
    if e.Sends(r, d) then bwd.(hasDiagonal := e.diagonal) else bwd
  }

  // In a direction in which nothing is received the width and the extents of
  // the halo are set to zero, and its buffer is left alone.
  lemma NothingReceived(e: Exchange, L: Local, d: nat, r: nat, fromForward: seq<Elem>, fromBackward: seq<Elem>)
    requires e.Valid() && e.geo.IsRank(r) && d < e.Dims() && L.WellFormed(e.Dims()) && L.size == e.geo.size[r] && !L.Empty()
    ensures var M := Accept(e, L, d, r, fromForward, fromBackward);
      && (e.EffFw(r, d) == 0 ==>
            M.fw[d] == 0 && M.haloFw == L.haloFw && forall j | 0 <= j < e.Dims() :: M.fwSize[d][j] == 0)
      && (e.EffBw(r, d) == 0 ==>
            M.bw[d] == 0 && M.haloBw == L.haloBw && forall j | 0 <= j < e.Dims() :: M.bwSize[d][j] == 0)
  {
  }

  // What process r holds after the exchange of dimension d
  // (ExchangeBoundariesAsync and the waits that follow it).
  ghost function Receive(e: Exchange, w: World, d: nat, r: nat): (L: Local)
    requires e.Valid() && WorldShape(e, w) && d < e.Dims() && r < |w|
    ensures L.WellFormed(e.Dims()) && L.size == w[r].size
  {
    Accept(e, w[r], d, r, FromForward(e, w, d, r), FromBackward(e, w, d, r))
  }

  ghost function ExchangeDim(e: Exchange, w: World, d: nat): (w': World)
    requires e.Valid() && WorldShape(e, w) && d < e.Dims()
    ensures WorldShape(e, w')
  {
    seq(|w|, r requires 0 <= r < |w| => Receive(e, w, d, r))
  }

  // Dimensions are exchanged from the last to the first.
  ghost function ExchangeFrom(e: Exchange, w: World, d: nat): (w': World)
    requires e.Valid() && WorldShape(e, w) && d <= e.Dims()
    ensures WorldShape(e, w')
    decreases e.Dims() - d
  {
    if d == e.Dims() then w else ExchangeDim(e, ExchangeFrom(e, w, d + 1), d)
  }

  // --------------------------------------------------------- correctness

  // Indices that the exchange of dimensions d and later is to make readable:
  // those within the widths and, unless periodic, within the grid, and without
  // diagonal points outside the box in at most one dimension.
  ghost predicate Covered(e: Exchange, r: nat, v: IndexArray, d: nat)
    requires e.Valid() && e.geo.IsRank(r) && |v| == e.Dims()
  {
    && (forall j | 0 <= j < |v| ::
          if j < d then !Out(v, e.geo.size[r], j)
          else -e.WantBw(r, j) <= v[j] < e.geo.size[r][j] + e.WantFw(r, j))
    && (!e.diagonal ==> forall i, j | 0 <= i < j < |v| :: !(Out(v, e.geo.size[r], i) && Out(v, e.geo.size[r], j)))
  }

  // Every process holds its part of the global grid g.
  ghost predicate HoldsGrid(e: Exchange, w: World, g: seq<Elem>)
    requires e.Valid() && WorldShape(e, w)
  {
    forall r, v | 0 <= r < |w| && InBox(v, w[r].size) ::
      At(w[r].data, Lin(v, w[r].size)) == At(g, Lin(Add(e.geo.offset[r], v), e.geo.gsize))
  }

  ghost predicate WidthsSet(e: Exchange, w: World, d: nat)
    requires e.Valid() && WorldShape(e, w)
  {
    forall r, j | 0 <= r < |w| && !w[r].Empty() && d <= j < e.Dims() ::
      w[r].bw[j] == e.EffBw(r, j) && w[r].fw[j] == e.EffFw(r, j)
  }

  ghost predicate ReadsGlobal(e: Exchange, w: World, g: seq<Elem>, d: nat)
    requires e.Valid() && WorldShape(e, w)
  {
    forall r, v | 0 <= r < |w| && !w[r].Empty() && |v| == e.Dims() && Covered(e, r, v, d) ::
      Read(w[r], e.diagonal, v) == e.GlobalAt(g, r, v)
  }

  // Before any exchange only the own cells are covered.
  lemma OwnCellsRead(e: Exchange, w: World, g: seq<Elem>, r: nat, v: IndexArray)
    requires e.Valid() && WorldShape(e, w) && HoldsGrid(e, w, g) && r < |w| && InBox(v, w[r].size)
    ensures Read(w[r], e.diagonal, v) == e.GlobalAt(g, r, v)
  {
    var x, y := e.GlobalCell(r, v), Add(e.geo.offset[r], v);
    forall d | 0 <= d < |v| ensures x[d] == y[d] {
      assert e.geo.BoxAt(r, d);
    }
    assert x == y;
    assert FirstOut(v, w[r].size, 0) == |v|;
  }

  // The two states differ at most in the halo of dimension d.
  ghost predicate SameExcept(L: Local, M: Local, d: nat)
    requires L.WellFormed(|L.size|) && M.WellFormed(|L.size|)
  {
    && L.size == M.size && L.data == M.data
    && forall j | 0 <= j < |L.size| && j != d ::
        L.bw[j] == M.bw[j] && L.fw[j] == M.fw[j] && L.bwSize[j] == M.bwSize[j] && L.fwSize[j] == M.fwSize[j]
        && L.haloBw[j] == M.haloBw[j] && L.haloFw[j] == M.haloFw[j]
  }

  // Such a change is not visible at an index inside the box in dimensions 0 .. d.
  lemma InsideUnchanged(L: Local, M: Local, diagonal: bool, d: nat, v: IndexArray)
    requires L.WellFormed(|v|) && M.WellFormed(|v|) && d < |v| && SameExcept(L, M, d)
    requires forall j | 0 <= j <= d :: !Out(v, L.size, j)
    ensures Read(L, diagonal, v) == Read(M, diagonal, v)
  {
    var i := FirstOut(v, L.size, 0);
    if i < |v| {
      assert i > d;
      assert HaloIndex(L, diagonal, v, i) == HaloIndex(M, diagonal, v, i);
    }
  }

  // Neighbours along d agree on the extents and widths of the other dimensions.
  ghost predicate AlikeAcross(L: Local, M: Local, d: nat)
    requires L.WellFormed(|L.size|) && M.WellFormed(|L.size|)
  {
    forall j | 0 <= j < |L.size| ::
      && (j != d ==> L.size[j] == M.size[j])
      && (j > d ==> L.bw[j] == M.bw[j] && L.fw[j] == M.fw[j])
  }

  // The coordinates other than d address a cell of the halo of dimension d.
  ghost predicate HaloCoordinates(L: Local, diagonal: bool, d: nat, v: IndexArray)
    requires L.WellFormed(|v|)
  {
    forall j | 0 <= j < |v| && j != d ::
      if j > d && diagonal then -L.bw[j] <= v[j] < L.size[j] + L.fw[j] else 0 <= v[j] < L.size[j]
  }

  lemma FirstOutIs(v: IndexArray, size: IndexArray, d: nat)
    requires |v| == |size| && d < |v| && Out(v, size, d) && forall j | 0 <= j < d :: !Out(v, size, j)
    ensures FirstOut(v, size, 0) == d
  {
  }

  // The halo coordinates of an index are in the halo's extents, and shifted
  // into the sender's region they are the index with dimension d replaced.
  lemma HaloIndexInShape(L: Local, M: Local, diagonal: bool, d: nat, width: int, forward: bool, v: IndexArray)
    requires L.WellFormed(|v|) && M.WellFormed(|v|) && d < |v| && AlikeAcross(L, M, d)
    requires HaloCoordinates(L, diagonal, d, v)
    requires if forward then L.size[d] <= v[d] < L.size[d] + width else -width <= v[d] < 0 && L.bw[d] == width
    ensures HaloShape(L, d, width, diagonal) == HaloShape(M, d, width, diagonal)
    ensures InBox(HaloIndex(L, diagonal, v, d), HaloShape(M, d, width, diagonal))
    ensures Add(PackStart(M, d, width, forward, diagonal), HaloIndex(L, diagonal, v, d))
         == v[d := if forward then v[d] - L.size[d] else M.size[d] + v[d]]
  {
  }

  // What lies behind an index of the halo of dimension d: the cell of the
  // neighbour's region at the corresponding place.
  lemma BackwardHaloRead(L: Local, M: Local, diagonal: bool, d: nat, width: int, v: IndexArray)
    requires L.WellFormed(|v|) && M.WellFormed(|v|) && d < |v| && width > 0
    requires L.bw[d] == width && L.bwSize[d] == HaloShape(L, d, width, diagonal)
    requires L.haloBw[d] == Pack(M, d, width, false, diagonal)
    requires AlikeAcross(L, M, d)
    requires -width <= v[d] < 0 && HaloCoordinates(L, diagonal, d, v)
    ensures Read(L, diagonal, v) == Read(M, diagonal, v[d := M.size[d] + v[d]])
  {
    FirstOutIs(v, L.size, d);
    HaloIndexInShape(L, M, diagonal, d, width, false, v);
    PackAt(M, d, width, false, diagonal, HaloIndex(L, diagonal, v, d));
  }

  lemma ForwardHaloRead(L: Local, M: Local, diagonal: bool, d: nat, width: int, v: IndexArray)
    requires L.WellFormed(|v|) && M.WellFormed(|v|) && d < |v| && width > 0
    requires L.fw[d] == width && L.fwSize[d] == HaloShape(L, d, width, diagonal)
    requires L.haloFw[d] == Pack(M, d, width, true, diagonal)
    requires AlikeAcross(L, M, d)
    requires L.size[d] <= v[d] < L.size[d] + width && HaloCoordinates(L, diagonal, d, v)
    ensures Read(L, diagonal, v) == Read(M, diagonal, v[d := v[d] - L.size[d]])
  {
    FirstOutIs(v, L.size, d);
    HaloIndexInShape(L, M, diagonal, d, width, true, v);
    PackAt(M, d, width, true, diagonal, HaloIndex(L, diagonal, v, d));
  }

  // ------------------------------------------------- one exchanged dimension

  // A covered index with dimension d moved into the box of a neighbour q along
  // d is covered there, already before dimension d.
  lemma SourceCovered(e: Exchange, r: nat, q: nat, v: IndexArray, d: nat, x: int)
    requires e.Valid() && e.geo.IsRank(r) && e.geo.IsRank(q) && d < |v| == e.Dims()
    requires e.geo.SameAcross(r, q, d) && Covered(e, r, v, d) && 0 <= x < e.geo.size[q][d]
    ensures Covered(e, q, v[d := x], d + 1)
  {
    var u := v[d := x];
    assert forall j | 0 <= j < |v| && j != d :: Out(u, e.geo.size[q], j) == Out(v, e.geo.size[r], j);
    assert !Out(u, e.geo.size[q], d);
    assert forall j | d < j < |v| :: e.WantBw(q, j) == e.WantBw(r, j) && e.WantFw(q, j) == e.WantFw(r, j);
  }

  // Moving dimension d by whole periods, or not at all, keeps the global cell.
  lemma SameGlobalCell(e: Exchange, r: nat, q: nat, v: IndexArray, d: nat, x: int)
    requires e.Valid() && e.geo.IsRank(r) && e.geo.IsRank(q) && d < |v| == e.Dims()
    requires e.geo.SameAcross(r, q, d)
    requires var a, b := e.geo.offset[q][d] + x, e.geo.offset[r][d] + v[d];
      a == b || (e.periodic && Wrap(a, e.geo.gsize[d]) == Wrap(b, e.geo.gsize[d]))
    ensures e.GlobalCell(q, v[d := x]) == e.GlobalCell(r, v)
  {
  }

  // A backward halo index and the neighbour's cell behind it.
  lemma BackwardSource(e: Exchange, r: nat, d: nat, v: IndexArray)
    requires e.Valid() && e.geo.IsRank(r) && d < |v| == e.Dims()
    requires e.ReachesAt(r, d) && Covered(e, r, v, d) && v[d] < 0
    ensures var q := e.geo.bw[r][d];
      && e.geo.IsRank(q) && e.geo.SameAcross(r, q, d)
      && 0 <= e.geo.size[q][d] + v[d] < e.geo.size[q][d]
      && var u := v[d := e.geo.size[q][d] + v[d]];
         Covered(e, q, u, d + 1) && e.GlobalCell(q, u) == e.GlobalCell(r, v)
  {
    assert e.geo.NeighborAt(r, d);
    var q := e.geo.bw[r][d];
    assert e.geo.NeighborAt(q, d) && e.geo.BoxAt(q, d) && e.geo.BoxAt(r, d);
    var x := e.geo.size[q][d] + v[d];
    assert -e.WantBw(r, d) <= v[d];
    SourceCovered(e, r, q, v, d, x);
    SameGlobalCell(e, r, q, v, d, x);
  }

  lemma ForwardSource(e: Exchange, r: nat, d: nat, v: IndexArray)
    requires e.Valid() && e.geo.IsRank(r) && d < |v| == e.Dims()
    requires e.ReachesAt(r, d) && Covered(e, r, v, d) && v[d] >= e.geo.size[r][d]
    ensures var q := e.geo.fw[r][d];
      && e.geo.IsRank(q) && e.geo.SameAcross(r, q, d)
      && 0 <= v[d] - e.geo.size[r][d] < e.geo.size[q][d]
      && var u := v[d := v[d] - e.geo.size[r][d]];
         Covered(e, q, u, d + 1) && e.GlobalCell(q, u) == e.GlobalCell(r, v)
  {
    assert e.geo.NeighborAt(r, d);
    var q := e.geo.fw[r][d];
    assert e.geo.BoxAt(q, d) && e.geo.BoxAt(r, d);
    var x := v[d] - e.geo.size[r][d];
    assert v[d] < e.geo.size[r][d] + e.WantFw(r, d);
    SourceCovered(e, r, q, v, d, x);
    SameGlobalCell(e, r, q, v, d, x);
  }

  // What the exchange of dimension d leaves in process r.
  ghost predicate Received(e: Exchange, w: World, d: nat, r: nat, L: Local)
    requires e.Valid() && WorldShape(e, w) && d < e.Dims() && r < |w|
  {
    var fw, bw := e.EffFw(r, d), e.EffBw(r, d);
    && L.WellFormed(e.Dims()) && SameExcept(w[r], L, d) && L.fw[d] == fw && L.bw[d] == bw
    && (fw > 0 ==> L.fwSize[d] == HaloShape(L, d, fw, e.diagonal) && L.haloFw[d] == FromForward(e, w, d, r))
    && (bw > 0 ==> L.bwSize[d] == HaloShape(L, d, bw, e.diagonal) && L.haloBw[d] == FromBackward(e, w, d, r))
  }

  lemma ShapeIgnoresEarlier(L: Local, M: Local, d: nat, width: int, diagonal: bool)
    requires L.WellFormed(|L.size|) && M.WellFormed(|L.size|) && SameExcept(L, M, d)
    ensures HaloShape(L, d, width, diagonal) == HaloShape(M, d, width, diagonal)
  {
  }

  // Accepting halos changes the halos of dimension d, and the flag, and nothing
  // else.
  lemma AcceptHolds(e: Exchange, L: Local, d: nat, r: nat, fromForward: seq<Elem>, fromBackward: seq<Elem>, M: Local)
    requires e.Valid() && e.geo.IsRank(r) && d < e.Dims() && L.WellFormed(e.Dims()) && L.size == e.geo.size[r] && !L.Empty()
    requires M == Accept(e, L, d, r, fromForward, fromBackward)
    ensures M.WellFormed(e.Dims()) && SameExcept(L, M, d) && M.remote == L.remote
    ensures M.hasDiagonal == if e.Sends(r, d) then e.diagonal else L.hasDiagonal
    ensures M.fw[d] == e.EffFw(r, d) && M.bw[d] == e.EffBw(r, d)
    ensures e.EffFw(r, d) > 0 ==>
      M.fwSize[d] == HaloShape(M, d, e.EffFw(r, d), e.diagonal) && M.haloFw[d] == fromForward
    ensures e.EffBw(r, d) > 0 ==>
      M.bwSize[d] == HaloShape(M, d, e.EffBw(r, d), e.diagonal) && M.haloBw[d] == fromBackward
  {
    var fwd := AcceptForward(L, d, e.EffFw(r, d), e.diagonal, fromForward);
    ShapeIgnoresEarlier(L, M, d, e.EffFw(r, d), e.diagonal);
    ShapeIgnoresEarlier(fwd, M, d, e.EffBw(r, d), e.diagonal);
  }

  lemma ReceiveHolds(e: Exchange, w: World, d: nat, r: nat)
    requires e.Valid() && WorldShape(e, w) && d < e.Dims() && r < |w| && !w[r].Empty()
    ensures Received(e, w, d, r, Receive(e, w, d, r))
  {
    AcceptHolds(e, w[r], d, r, FromForward(e, w, d, r), FromBackward(e, w, d, r), Receive(e, w, d, r));
  }

  // The state of process r after dimension d, and what it received.
  lemma AfterDim(e: Exchange, w: World, d: nat, r: nat) returns (before: World, L: Local)
    requires e.Valid() && WorldShape(e, w) && d < e.Dims() && r < |w|
    ensures before == ExchangeFrom(e, w, d + 1) && L == ExchangeFrom(e, w, d)[r] && before[r].Empty() == w[r].Empty()
    ensures if w[r].Empty() then L == before[r] else Received(e, before, d, r, L)
    ensures L.data == before[r].data && L.remote == before[r].remote
    ensures !w[r].Empty() ==> L.hasDiagonal == if e.Sends(r, d) then e.diagonal else before[r].hasDiagonal
  {
    before := ExchangeFrom(e, w, d + 1);
    L := Receive(e, before, d, r);
    if !w[r].Empty() {
      AcceptHolds(e, before[r], d, r, FromForward(e, before, d, r), FromBackward(e, before, d, r), L);
      ReceiveHolds(e, before, d, r);
    }
  }

  // An exchange changes neither own cells nor remote grids.
  lemma {:induction false} ExchangeKeeps(e: Exchange, w: World, d: nat, r: nat)
    requires e.Valid() && WorldShape(e, w) && d <= e.Dims() && r < |w|
    ensures ExchangeFrom(e, w, d)[r].data == w[r].data && ExchangeFrom(e, w, d)[r].remote == w[r].remote
    decreases e.Dims() - d
  {
    if d < e.Dims() {
      ExchangeKeeps(e, w, d + 1, r);
      var before, L := AfterDim(e, w, d, r);
    }
  }

  // A neighbour along d that holds a cell of dimension d is not empty.
  lemma NeighborNotEmpty(e: Exchange, w: World, d: nat, r: nat, q: nat)
    requires e.Valid() && WorldShape(e, w) && d < e.Dims() && r < |w| && q < |w| && !w[r].Empty()
    requires e.geo.SameAcross(r, q, d) && e.geo.size[q][d] > 0
    ensures !w[q].Empty()
  {
    VolumeSign(w[r].size);
    VolumeSign(w[q].size);
  }

  // A process with cells receives from processes with cells only.
  lemma SenderHasCells(e: Exchange, r: nat, d: nat)
    requires e.Valid() && e.Joined() && e.geo.IsRank(r) && d < e.Dims() && e.geo.HasCells(r)
    ensures e.geo.NeighborAt(r, d)
    ensures e.EffFw(r, d) > 0 ==> e.geo.HasCells(e.geo.fw[r][d]) && e.SendsHalo(e.geo.fw[r][d], d, true)
    ensures e.EffBw(r, d) > 0 ==> e.geo.HasCells(e.geo.bw[r][d]) && e.SendsHalo(e.geo.bw[r][d], d, false)
  {
    assert e.geo.NeighborAt(r, d);
    var q, z := e.geo.fw[r][d], e.geo.bw[r][d];
    assert e.geo.NeighborAt(z, d) && e.JoinedAt(r, d) && e.JoinedAt(z, d);
    assert e.geo.BoxAt(r, d) && e.geo.BoxAt(q, d) && e.geo.BoxAt(z, d);
    CellsPositive(e.geo, r);
    if e.EffFw(r, d) > 0 && !e.periodic {
      BothHaveCells(e.geo, r, q, d);
    }
    if e.EffBw(r, d) > 0 && !e.periodic {
      BothHaveCells(e.geo, r, z, d);
    }
  }

  lemma CellsPositive(geo: Geometry, r: nat)
    requires geo.Valid() && geo.IsRank(r)
    ensures NonNegative(geo.size[r]) && (geo.HasCells(r) <==> Positive(geo.size[r]))
  {
    forall j | 0 <= j < |geo.gsize| ensures geo.size[r][j] >= 0 {
      assert geo.BoxAt(r, j);
    }
    VolumeSign(geo.size[r]);
  }

  // Two boxes that agree across d, both with an extent along d.
  lemma BothHaveCells(geo: Geometry, r: nat, q: nat, d: nat)
    requires geo.Valid() && geo.IsRank(r) && geo.IsRank(q) && d < |geo.gsize| && geo.SameAcross(r, q, d)
    requires geo.HasCells(r) && geo.size[q][d] > 0
    ensures geo.HasCells(q)
  {
    CellsPositive(geo, r);
    CellsPositive(geo, q);
  }

  // If senders hold what they send, readers reach what they may read, which is
  // then all that they receive.
  lemma FitsReaches(e: Exchange)
    requires e.Valid() && e.Fits() && e.Joined()
    ensures e.Reaches()
  {
    forall r: nat, d: nat | e.geo.IsRank(r) && e.geo.HasCells(r) && d < e.Dims() ensures e.ReachesAt(r, d) {
      SenderHasCells(e, r, d);
      var q, z := e.geo.fw[r][d], e.geo.bw[r][d];
      assert e.geo.BoxAt(q, d) && e.geo.BoxAt(z, d);
      if e.EffFw(r, d) > 0 {
        assert e.FitsAt(q, d, true);
      }
      if e.EffBw(r, d) > 0 {
        assert e.FitsAt(z, d, false);
      }
    }
  }

  // The receiver and the neighbour q that sent agree on what matters to the
  // halo of dimension d.
  lemma NeighborAgrees(e: Exchange, w: World, d: nat, r: nat, q: nat, L: Local)
    requires e.Valid() && WorldShape(e, w) && d < e.Dims() && r < |w| && q < |w| && !w[r].Empty() && !w[q].Empty()
    requires WidthsSet(e, w, d + 1) && e.geo.SameAcross(r, q, d)
    requires L.WellFormed(e.Dims()) && SameExcept(w[r], L, d)
    ensures AlikeAcross(L, w[q], d)
  {
    assert forall j | d < j < e.Dims() :: e.EffBw(q, j) == e.EffBw(r, j) && e.EffFw(q, j) == e.EffFw(r, j);
  }

  // A covered index that leaves the box in dimension d is one of its halo.
  lemma CoveredCoordinates(e: Exchange, w: World, d: nat, r: nat, v: IndexArray, L: Local)
    requires e.Valid() && WorldShape(e, w) && d < |v| == e.Dims() && r < |w| && !w[r].Empty()
    requires WidthsSet(e, w, d + 1) && Covered(e, r, v, d) && Out(v, w[r].size, d)
    requires L.WellFormed(|v|) && SameExcept(w[r], L, d)
    ensures HaloCoordinates(L, e.diagonal, d, v)
  {
    forall j | 0 <= j < |v| && j != d
      ensures if j > d && e.diagonal then -L.bw[j] <= v[j] < L.size[j] + L.fw[j] else 0 <= v[j] < L.size[j]
    {
      assert !e.diagonal ==> !Out(v, w[r].size, j);
    }
  }

  lemma SourceValue(e: Exchange, w: World, g: seq<Elem>, d: nat, q: nat, u: IndexArray, r: nat, v: IndexArray)
    requires e.Valid() && WorldShape(e, w) && q < |w| && r < |w| && !w[q].Empty() && |u| == |v| == e.Dims()
    requires ReadsGlobal(e, w, g, d) && Covered(e, q, u, d) && e.GlobalCell(q, u) == e.GlobalCell(r, v)
    ensures Read(w[q], e.diagonal, u) == e.GlobalAt(g, r, v)
  {
  }

  lemma ReceivedPack(e: Exchange, w: World, d: nat, r: nat, L: Local)
    requires e.Valid() && WorldShape(e, w) && d < e.Dims() && r < |w| && Received(e, w, d, r, L)
    ensures 0 <= e.geo.bw[r][d] < |w| && 0 <= e.geo.fw[r][d] < |w|
    ensures var width := e.EffBw(r, d); width > 0 ==>
      && L.bw[d] == width && L.bwSize[d] == HaloShape(L, d, width, e.diagonal)
      && L.haloBw[d] == Pack(w[e.geo.bw[r][d]], d, width, false, e.diagonal)
    ensures var width := e.EffFw(r, d); width > 0 ==>
      && L.fw[d] == width && L.fwSize[d] == HaloShape(L, d, width, e.diagonal)
      && L.haloFw[d] == Pack(w[e.geo.fw[r][d]], d, width, true, e.diagonal)
  {
    assert e.geo.NeighborAt(r, d);
  }

  // The cell behind a halo index, with the same global cell, was covered at
  // the neighbour before dimension d was exchanged.
  lemma BackwardHeld(e: Exchange, w: World, d: nat, r: nat, v: IndexArray)
    requires e.Valid() && WorldShape(e, w) && d < |v| == e.Dims() && r < |w| && !w[r].Empty()
    requires e.Reaches() && Covered(e, r, v, d) && v[d] < 0
    ensures -e.EffBw(r, d) <= v[d]
    ensures var q := e.geo.bw[r][d];
      && 0 <= q < |w| && !w[q].Empty() && e.geo.SameAcross(r, q, d)
      && var u := v[d := w[q].size[d] + v[d]];
         Covered(e, q, u, d + 1) && e.GlobalCell(q, u) == e.GlobalCell(r, v)
  {
    assert e.geo.HasCells(r);
    BackwardSource(e, r, d, v);
    NeighborNotEmpty(e, w, d, r, e.geo.bw[r][d]);
  }

  lemma BackwardBehind(e: Exchange, w: World, d: nat, r: nat, v: IndexArray, L: Local)
    requires e.Valid() && WorldShape(e, w) && d < |v| == e.Dims() && r < |w| && !w[r].Empty()
    requires WidthsSet(e, w, d + 1) && Covered(e, r, v, d) && e.Reaches()
    requires Received(e, w, d, r, L) && v[d] < 0
    ensures var q := e.geo.bw[r][d];
      && 0 <= q < |w| && !w[q].Empty()
      && var u := v[d := w[q].size[d] + v[d]];
         && Covered(e, q, u, d + 1) && e.GlobalCell(q, u) == e.GlobalCell(r, v)
         && Read(L, e.diagonal, v) == Read(w[q], e.diagonal, u)
  {
    var q := e.geo.bw[r][d];
    BackwardHeld(e, w, d, r, v);
    NeighborAgrees(e, w, d, r, q, L);
    CoveredCoordinates(e, w, d, r, v, L);
    BackwardValue(e, w, d, r, v, L);
  }

  lemma BackwardValue(e: Exchange, w: World, d: nat, r: nat, v: IndexArray, L: Local)
    requires e.Valid() && WorldShape(e, w) && d < |v| == e.Dims() && r < |w|
    requires Received(e, w, d, r, L) && v[d] < 0 && -e.EffBw(r, d) <= v[d]
    requires HaloCoordinates(L, e.diagonal, d, v)
    requires 0 <= e.geo.bw[r][d] < |w| && AlikeAcross(L, w[e.geo.bw[r][d]], d)
    ensures var q := e.geo.bw[r][d];
      Read(L, e.diagonal, v) == Read(w[q], e.diagonal, v[d := w[q].size[d] + v[d]])
  {
    ReceivedPack(e, w, d, r, L);
    BackwardHaloRead(L, w[e.geo.bw[r][d]], e.diagonal, d, e.EffBw(r, d), v);
  }

  lemma ForwardHeld(e: Exchange, w: World, d: nat, r: nat, v: IndexArray)
    requires e.Valid() && WorldShape(e, w) && d < |v| == e.Dims() && r < |w| && !w[r].Empty()
    requires e.Reaches() && Covered(e, r, v, d) && v[d] >= w[r].size[d]
    ensures v[d] < w[r].size[d] + e.EffFw(r, d)
    ensures var q := e.geo.fw[r][d];
      && 0 <= q < |w| && !w[q].Empty() && e.geo.SameAcross(r, q, d)
      && var u := v[d := v[d] - w[r].size[d]];
         Covered(e, q, u, d + 1) && e.GlobalCell(q, u) == e.GlobalCell(r, v)
  {
    assert e.geo.HasCells(r);
    ForwardSource(e, r, d, v);
    NeighborNotEmpty(e, w, d, r, e.geo.fw[r][d]);
  }

  lemma ForwardBehind(e: Exchange, w: World, d: nat, r: nat, v: IndexArray, L: Local)
    requires e.Valid() && WorldShape(e, w) && d < |v| == e.Dims() && r < |w| && !w[r].Empty()
    requires WidthsSet(e, w, d + 1) && Covered(e, r, v, d) && e.Reaches()
    requires Received(e, w, d, r, L) && v[d] >= w[r].size[d]
    ensures var q := e.geo.fw[r][d];
      && 0 <= q < |w| && !w[q].Empty()
      && var u := v[d := v[d] - w[r].size[d]];
         && Covered(e, q, u, d + 1) && e.GlobalCell(q, u) == e.GlobalCell(r, v)
         && Read(L, e.diagonal, v) == Read(w[q], e.diagonal, u)
  {
    var q := e.geo.fw[r][d];
    ForwardHeld(e, w, d, r, v);
    NeighborAgrees(e, w, d, r, q, L);
    CoveredCoordinates(e, w, d, r, v, L);
    ForwardValue(e, w, d, r, v, L);
  }

  lemma ForwardValue(e: Exchange, w: World, d: nat, r: nat, v: IndexArray, L: Local)
    requires e.Valid() && WorldShape(e, w) && d < |v| == e.Dims() && r < |w|
    requires Received(e, w, d, r, L) && v[d] >= w[r].size[d] && v[d] < w[r].size[d] + e.EffFw(r, d)
    requires HaloCoordinates(L, e.diagonal, d, v)
    requires 0 <= e.geo.fw[r][d] < |w| && AlikeAcross(L, w[e.geo.fw[r][d]], d)
    ensures var q := e.geo.fw[r][d];
      Read(L, e.diagonal, v) == Read(w[q], e.diagonal, v[d := v[d] - w[r].size[d]])
  {
    ReceivedPack(e, w, d, r, L);
    ForwardHaloRead(L, w[e.geo.fw[r][d]], e.diagonal, d, e.EffFw(r, d), v);
  }

  lemma BackwardReads(e: Exchange, w: World, g: seq<Elem>, d: nat, r: nat, v: IndexArray, L: Local)
    requires e.Valid() && WorldShape(e, w) && d < |v| == e.Dims() && r < |w| && !w[r].Empty()
    requires WidthsSet(e, w, d + 1) && ReadsGlobal(e, w, g, d + 1) && Covered(e, r, v, d) && e.Reaches()
    requires Received(e, w, d, r, L) && v[d] < 0
    ensures Read(L, e.diagonal, v) == e.GlobalAt(g, r, v)
  {
    var q := e.geo.bw[r][d];
    BackwardBehind(e, w, d, r, v, L);
    SourceValue(e, w, g, d + 1, q, v[d := w[q].size[d] + v[d]], r, v);
  }

  lemma ForwardReads(e: Exchange, w: World, g: seq<Elem>, d: nat, r: nat, v: IndexArray, L: Local)
    requires e.Valid() && WorldShape(e, w) && d < |v| == e.Dims() && r < |w| && !w[r].Empty()
    requires WidthsSet(e, w, d + 1) && ReadsGlobal(e, w, g, d + 1) && Covered(e, r, v, d) && e.Reaches()
    requires Received(e, w, d, r, L) && v[d] >= w[r].size[d]
    ensures Read(L, e.diagonal, v) == e.GlobalAt(g, r, v)
  {
    var q := e.geo.fw[r][d];
    ForwardBehind(e, w, d, r, v, L);
    SourceValue(e, w, g, d + 1, q, v[d := v[d] - w[r].size[d]], r, v);
  }

  // One exchanged dimension makes its halos readable, on every process.
  lemma StepReadsAt(e: Exchange, w: World, g: seq<Elem>, d: nat, r: nat, v: IndexArray, L: Local)
    requires e.Valid() && WorldShape(e, w) && d < |v| == e.Dims() && r < |w| && !w[r].Empty()
    requires WidthsSet(e, w, d + 1) && ReadsGlobal(e, w, g, d + 1) && Covered(e, r, v, d) && e.Reaches()
    requires Received(e, w, d, r, L)
    ensures Read(L, e.diagonal, v) == e.GlobalAt(g, r, v)
  {
    if !Out(v, w[r].size, d) {
      InsideUnchanged(w[r], L, e.diagonal, d, v);
      assert Covered(e, r, v, d + 1);
    } else if v[d] < 0 {
      BackwardReads(e, w, g, d, r, v, L);
    } else {
      ForwardReads(e, w, g, d, r, v, L);
    }
  }

  lemma StepReads(e: Exchange, w: World, g: seq<Elem>, d: nat)
    requires e.Valid() && WorldShape(e, w) && d < e.Dims() && e.Reaches()
    requires WidthsSet(e, w, d + 1) && ReadsGlobal(e, w, g, d + 1)
    ensures WidthsSet(e, ExchangeDim(e, w, d), d) && ReadsGlobal(e, ExchangeDim(e, w, d), g, d)
  {
    var w' := ExchangeDim(e, w, d);
    forall r | 0 <= r < |w| && !w[r].Empty() ensures Received(e, w, d, r, w'[r]) {
      ReceiveHolds(e, w, d, r);
    }
    forall r, v | 0 <= r < |w'| && !w'[r].Empty() && |v| == e.Dims() && Covered(e, r, v, d)
      ensures Read(w'[r], e.diagonal, v) == e.GlobalAt(g, r, v)
    {
      StepReadsAt(e, w, g, d, r, v, w'[r]);
    }
  }

  lemma StartReads(e: Exchange, w: World, g: seq<Elem>)
    requires e.Valid() && WorldShape(e, w) && HoldsGrid(e, w, g)
    ensures WidthsSet(e, w, e.Dims()) && ReadsGlobal(e, w, g, e.Dims())
  {
    forall r, v | 0 <= r < |w| && !w[r].Empty() && |v| == e.Dims() && Covered(e, r, v, e.Dims())
      ensures Read(w[r], e.diagonal, v) == e.GlobalAt(g, r, v)
    {
      OwnCellsRead(e, w, g, r, v);
    }
  }

  // After the exchange of dimensions d and later, every process reads, at
  // every index these dimensions cover, the value of the global grid there.
  lemma {:induction false} ExchangeReadsGlobal(e: Exchange, w: World, g: seq<Elem>, d: nat)
    requires e.Valid() && WorldShape(e, w) && HoldsGrid(e, w, g) && d <= e.Dims() && e.Reaches()
    ensures WidthsSet(e, ExchangeFrom(e, w, d), d)
    ensures ReadsGlobal(e, ExchangeFrom(e, w, d), g, d)
    decreases e.Dims() - d
  {
    if d == e.Dims() {
      StartReads(e, w, g);
    } else {
      ExchangeReadsGlobal(e, w, g, d + 1);
      StepReads(e, ExchangeFrom(e, w, d + 1), g, d);
    }
  }

  // ------------------------------------------------------ grids on processes

  // Every process with its part of the grid g and no halos yet.
  ghost function PartWorld(geo: Geometry, g: seq<Elem>, flag: bool): (w: World)
    requires geo.Valid()
    ensures |w| == |geo.offset|
    ensures forall r | 0 <= r < |w| ::
      w[r].WellFormed(|geo.gsize|) && w[r].size == geo.size[r] && w[r].hasDiagonal == flag && !w[r].remote.active
  {
    seq(|geo.offset|, r requires 0 <= r < |geo.offset| => PartLocal(geo, g, flag, r))
  }

  ghost function PartLocal(geo: Geometry, g: seq<Elem>, flag: bool, r: nat): (L: Local)
    requires geo.Valid() && geo.IsRank(r)
    ensures L.WellFormed(|geo.gsize|) && L.size == geo.size[r] && L.hasDiagonal == flag && !L.remote.active
  {
    CellsPositive(geo, r);
    var n := |geo.gsize|;
    var zero := seq(n, d => 0);
    Local(geo.size[r], Gather(g, geo.gsize, geo.offset[r], geo.size[r]), zero, zero,
          seq(n, d => zero), seq(n, d => zero), seq(n, d => []), seq(n, d => []), flag, Remote(false, zero, zero, []))
  }

  lemma PartWorldHolds(e: Exchange, g: seq<Elem>, flag: bool)
    requires e.Valid() && |g| == Volume(e.geo.gsize)
    ensures WorldShape(e, PartWorld(e.geo, g, flag)) && HoldsGrid(e, PartWorld(e.geo, g, flag), g)
  {
    var w := PartWorld(e.geo, g, flag);
    forall r, v | 0 <= r < |w| && InBox(v, w[r].size)
      ensures At(w[r].data, Lin(v, w[r].size)) == At(g, Lin(Add(e.geo.offset[r], v), e.geo.gsize))
    {
      CellsPositive(e.geo, r);
      GatherAt(g, e.geo.gsize, e.geo.offset[r], e.geo.size[r], v);
    }
  }

  // What a process may read is in the grid.
  lemma CoveredInGrid(e: Exchange, r: nat, v: IndexArray)
    requires e.Valid() && e.geo.IsRank(r) && e.geo.HasCells(r) && |v| == e.Dims() && Covered(e, r, v, 0)
    ensures InBox(e.GlobalCell(r, v), e.geo.gsize)
  {
    CellsPositive(e.geo, r);
    forall d | 0 <= d < |v| ensures 0 <= e.GlobalCell(r, v)[d] < e.geo.gsize[d] {
      assert e.geo.BoxAt(r, d) && -e.WantBw(r, d) <= v[d] < e.geo.size[r][d] + e.WantFw(r, d);
      if e.periodic {
        WrapIsModulo(e.geo.offset[r][d] + v[d], e.geo.gsize[d]);
      }
    }
  }
}
