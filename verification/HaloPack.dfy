// Packing halos for sending and finding halo cells, as the three-dimensional
// code does it (class GridMPI in runtime/grid_mpi.cc, __PSGridGetAddr in
// runtime/mpi_runtime.cc): pointer walks and in-place index arithmetic, proved
// against Pack and Locate of HaloExchange.dfy.
module HaloPack {
  import opened MixedRadix
  import opened Subgrid
  import opened HaloExchange

  const PS_MAX_DIM := 3

  // A three-dimensional process part whose received halos have the extents
  // that the exchange gave them.
  ghost predicate Exchanged(L: Local, diagonal: bool, d: nat) {
    && L.WellFormed(3) && Positive(L.size)
    && forall j | d < j < 3 :: HaloHeld(L, diagonal, j)
  }

  ghost predicate HaloHeld(L: Local, diagonal: bool, j: nat)
    requires L.WellFormed(3) && j < 3
  {
    && (L.bw[j] > 0 ==> L.bwSize[j] == HaloShape(L, j, L.bw[j], diagonal) && |L.haloBw[j]| >= Volume(L.bwSize[j]))
    && (L.fw[j] > 0 ==> L.fwSize[j] == HaloShape(L, j, L.fw[j], diagonal) && |L.haloFw[j]| >= Volume(L.fwSize[j]))
  }

  // ------------------------------------------------------------ positions

  function Vec3(x: int, y: int, z: int): (v: IndexArray)
    ensures |v| == 3 && v[0] == x && v[1] == y && v[2] == z
  {
    [x, y, z]
  }

  // a * n for n >= 0, kept from the solver where only positions matter.
  function Times(a: int, n: int): int
    decreases n
  {
    if n <= 0 then 0 else a + Times(a, n - 1)
  }

  lemma {:induction false} TimesIsProduct(a: int, n: nat)
    ensures Times(a, n) == a * n
  {
    if n > 0 {
      TimesIsProduct(a, n - 1);
    }
  }

  lemma TimesSum(a: int, m: nat, n: nat)
    ensures Times(a, m + n) == Times(a, m) + Times(a, n)
  {
    TimesIsProduct(a, m + n);
    TimesIsProduct(a, m);
    TimesIsProduct(a, n);
  }

  lemma TimesBounds(a: nat, n: nat)
    ensures Times(a, n) >= 0
  {
    TimesIsProduct(a, n);
  }

  // Position of a cell, as __PSGridCalcOffset3D computes it.
  function Offset3(x: int, y: int, z: int, a: int, b: int): int {
    x + Times(a, y + Times(b, z))
  }

  lemma OffsetIsCalcOffset(x: int, y: nat, z: nat, a: int, b: nat)
    ensures Offset3(x, y, z, a, b) == x + y * a + z * a * b
  {
    TimesIsProduct(b, z);
    TimesIsProduct(a, y + b * z);
    assert a * (y + b * z) == y * a + z * a * b;
  }

  lemma LinIsOffset3(u: IndexArray, size: IndexArray)
    requires |u| == |size| == 3 && u[1] >= 0 && u[2] >= 0 && size[1] >= 0
    ensures Lin(u, size) == Offset3(u[0], u[1], u[2], size[0], size[1])
  {
    Unfold3(u, size);
    OffsetIsCalcOffset(u[0], u[1], u[2], size[0], size[1]);
  }

  lemma LinAt(u: IndexArray, size: IndexArray, x: int, y: nat, z: nat, a: int, b: nat)
    requires |u| == |size| == 3 && u[0] == x && u[1] == y && u[2] == z && size[0] == a && size[1] == b
    ensures Lin(u, size) == Offset3(x, y, z, a, b)
  {
    LinIsOffset3(u, size);
  }

  // A cell of a box of three dimensions.
  lemma CellIn(u: IndexArray, size: IndexArray)
    requires |u| == |size| == 3 && InBox(u, size)
    ensures 0 <= Offset3(u[0], u[1], u[2], size[0], size[1]) < Volume(size)
  {
    LinIsOffset3(u, size);
    LinInRange(u, size);
  }

  // Where plane z starts in a box with planes of a * b cells.
  function PlaneStart(a: int, b: int, z: int): int { Times(a, Times(b, z)) }

  lemma PlaneStartIsProduct(a: nat, b: nat, z: nat)
    ensures PlaneStart(a, b, z) == a * (b * z) >= 0
  {
    TimesIsProduct(b, z);
    MulMonotone(b, 0, z);
    TimesIsProduct(a, b * z);
    MulMonotone(a, 0, b * z);
  }

  // ------------------------------------------------------------ row copies

  function Row(start: int, step: int, j: int): int { start + Times(step, j) }

  // The n cells of src from t on are the cells of the packed halo from p on.
  ghost predicate Line(pack: seq<Elem>, p: int, src: seq<Elem>, t: int, n: int) {
    && 0 <= t && t + n <= |src|
    && forall i | p <= i < p + n :: At(pack, i) == At(src, t + (i - p))
  }

  ghost predicate Rows(pack: seq<Elem>, pos: int, width: int, src: seq<Elem>, t: int, stride: int, count: int) {
    forall j | 0 <= j < count :: Line(pack, Row(pos, width, j), src, Row(t, stride, j), width)
  }

  // The first n cells are packed.
  ghost predicate Packed(buf: seq<Elem>, pack: seq<Elem>, n: int) {
    0 <= n <= |buf| && n <= |pack| && forall p | 0 <= p < n :: buf[p] == pack[p]
  }

  method CopyLine(buf: array<Elem>, pos: nat, src: array<Elem>, t: int, width: nat, ghost pack: seq<Elem>)
    requires buf != src && Packed(buf[..], pack, pos) && pos + width <= buf.Length && pos + width <= |pack|
    requires Line(pack, pos, src[..], t, width)
    modifies buf
    ensures Packed(buf[..], pack, pos + width)
  {
    Memcpy(buf, pos, src, t, width);
    forall p | 0 <= p < pos + width ensures buf[p] == pack[p] {
      if p >= pos {
        assert At(pack, p) == At(src[..], t + (p - pos));
      }
    }
  }

  // The inner loops of CopyoutHalo3D0: count rows from the source, stride
  // cells apart, to consecutive places of the buffer.
  method CopyRows(buf: array<Elem>, pos: nat, src: array<Elem>, t0: int, stride: int, width: nat, count: nat,
                  ghost pack: seq<Elem>) returns (end: nat)
    requires buf != src && Packed(buf[..], pack, pos)
    requires Row(pos, width, count) <= buf.Length && Row(pos, width, count) <= |pack|
    requires Rows(pack, pos, width, src[..], t0, stride, count)
    modifies buf
    ensures end == Row(pos, width, count) && Packed(buf[..], pack, end)
  {
    var t := t0;
    end := pos;
    for j := 0 to count
      invariant t == Row(t0, stride, j) && end == Row(pos, width, j) && Packed(buf[..], pack, end)
    {
      TimesSum(width, j + 1, count - j - 1);
      TimesBounds(width, count - j - 1);
      TimesBounds(width, j);
      CopyLine(buf, end, src, t, width, pack);
      end := end + width;
      t := t + stride;
    }
  }

  // ------------------------------------------------- the halo of dimension 0

  lemma PackPlace0(L: Local, width: int, forward: bool, x: int, j: int, k: int)
    requires L.WellFormed(3) && 0 <= x < width
    ensures Add(PackStart(L, 0, width, forward, true), Vec3(x, j, k))
         == Vec3((if forward then 0 else L.size[0] - width) + x, j - L.bw[1], k - L.bw[2])
    ensures HaloShape(L, 0, width, true)
         == Vec3(width, L.bw[1] + L.size[1] + L.fw[1], L.bw[2] + L.size[2] + L.fw[2])
  {
  }

  lemma OffsetShift(x0: int, x: int, y: int, z: int, a: int, b: int)
    ensures Offset3(x0, y, z, a, b) + x == Offset3(x0 + x, y, z, a, b)
  {
  }

  // Cell x of row (j, k) of the packed halo, and the cell v read for it.
  lemma PackCell0(L: Local, width: int, forward: bool, x: int, j: int, k: int, p: int, v: IndexArray)
    requires L.WellFormed(3) && 0 <= x < width
    requires 0 <= j < L.bw[1] + L.size[1] + L.fw[1] && 0 <= k < L.bw[2] + L.size[2] + L.fw[2]
    requires p == Offset3(x, j, k, width, L.bw[1] + L.size[1] + L.fw[1])
    requires v == Vec3((if forward then 0 else L.size[0] - width) + x, j - L.bw[1], k - L.bw[2])
    ensures At(Pack(L, 0, width, forward, true), p) == Read(L, true, v)
  {
    var u := Vec3(x, j, k);
    PackPlace0(L, width, forward, x, j, k);
    PackAt(L, 0, width, forward, true, u);
    LinIsOffset3(u, HaloShape(L, 0, width, true));
  }

  // The same, from the position of the row.
  lemma PackRow0(L: Local, width: int, forward: bool, x: int, j: int, k: int, p: int, v: IndexArray)
    requires L.WellFormed(3) && 0 <= x < width
    requires 0 <= j < L.bw[1] + L.size[1] + L.fw[1] && 0 <= k < L.bw[2] + L.size[2] + L.fw[2]
    requires p == Offset3(0, j, k, width, L.bw[1] + L.size[1] + L.fw[1])
    requires v == Vec3((if forward then 0 else L.size[0] - width) + x, j - L.bw[1], k - L.bw[2])
    ensures At(Pack(L, 0, width, forward, true), p + x) == Read(L, true, v)
  {
    OffsetShift(0, x, j, k, width, L.bw[1] + L.size[1] + L.fw[1]);
    PackCell0(L, width, forward, x, j, k, p + x, v);
  }

  // Where the cell is read from: the backward halo of dimension 1 ...
  lemma ReadBackward1(L: Local, x: int, j: int, k: int, v: IndexArray, p: int)
    requires L.WellFormed(3) && Positive(L.size) && HaloHeld(L, true, 1) && 0 <= x < L.size[0]
    requires 0 <= j < L.bw[1] && 0 <= k < L.bw[2] + L.size[2] + L.fw[2]
    requires v == Vec3(x, j - L.bw[1], k - L.bw[2]) && p == Offset3(x, j, k, L.size[0], L.bw[1])
    ensures Read(L, true, v) == At(L.haloBw[1], p) && 0 <= p < |L.haloBw[1]|
  {
    var u := Vec3(x, j, k);
    FirstOutIs(v, L.size, 1);
    assert HaloIndex(L, true, v, 1) == u;
    CellIn(u, L.bwSize[1]);
    LinIsOffset3(u, L.bwSize[1]);
  }

  // ... its forward halo ...
  lemma ReadForward1(L: Local, x: int, j: int, k: int, v: IndexArray, p: int)
    requires L.WellFormed(3) && Positive(L.size) && HaloHeld(L, true, 1) && 0 <= x < L.size[0]
    requires 0 <= j < L.fw[1] && 0 <= k < L.bw[2] + L.size[2] + L.fw[2]
    requires v == Vec3(x, L.size[1] + j, k - L.bw[2]) && p == Offset3(x, j, k, L.size[0], L.fw[1])
    ensures Read(L, true, v) == At(L.haloFw[1], p) && 0 <= p < |L.haloFw[1]|
  {
    var u := Vec3(x, j, k);
    FirstOutIs(v, L.size, 1);
    assert HaloIndex(L, true, v, 1) == u;
    CellIn(u, L.fwSize[1]);
    LinIsOffset3(u, L.fwSize[1]);
  }

  // ... or, in the plane k of dimension 2, its backward halo, the own cells or
  // its forward halo.
  datatype Source = InBackward | InOwn | InForward

  function PlaneSource(L: Local, k: int): Source
    requires L.WellFormed(3)
  {
    if k < L.bw[2] then InBackward else if k < L.bw[2] + L.size[2] then InOwn else InForward
  }

  ghost function SourceData(L: Local, s: Source): seq<Elem>
    requires L.WellFormed(3)
  {
    match s case InBackward => L.haloBw[2] case InOwn => L.data case InForward => L.haloFw[2]
  }

  function PlaneIn(L: Local, k: int): int
    requires L.WellFormed(3)
  {
    match PlaneSource(L, k)
    case InBackward => k case InOwn => k - L.bw[2] case InForward => k - L.bw[2] - L.size[2]
  }

  lemma ReadOwnPlane(L: Local, diagonal: bool, u: IndexArray)
    requires L.WellFormed(3) && |L.data| == Volume(L.size) && |u| == 3 && InBox(u, L.size)
    ensures var p := Offset3(u[0], u[1], u[2], L.size[0], L.size[1]);
      Read(L, diagonal, u) == At(L.data, p) && 0 <= p < |L.data|
  {
    assert FirstOut(u, L.size, 0) == 3;
    CellIn(u, L.size);
    LinIsOffset3(u, L.size);
  }

  lemma ReadHaloPlane(L: Local, diagonal: bool, v: IndexArray, z: int, forward: bool)
    requires Exchanged(L, diagonal, 1) && |v| == 3 && 0 <= v[0] < L.size[0] && 0 <= v[1] < L.size[1]
    requires if forward then v[2] == z + L.size[2] && 0 <= z < L.fw[2] else v[2] == z - L.bw[2] && 0 <= z < L.bw[2]
    ensures var src, p := if forward then L.haloFw[2] else L.haloBw[2], Offset3(v[0], v[1], z, L.size[0], L.size[1]);
      Read(L, diagonal, v) == At(src, p) && 0 <= p < |src|
  {
    assert HaloHeld(L, diagonal, 2);
    var u, shape := Vec3(v[0], v[1], z), if forward then L.fwSize[2] else L.bwSize[2];
    FirstOutIs(v, L.size, 2);
    assert HaloIndex(L, diagonal, v, 2) == u;
    CellIn(u, shape);
    LinIsOffset3(u, shape);
  }

  lemma ReadPlane(L: Local, diagonal: bool, x: int, y: int, k: int, v: IndexArray, p: int, src: seq<Elem>, z: int)
    requires Exchanged(L, diagonal, 1) && |L.data| == Volume(L.size) && 0 <= x < L.size[0] && 0 <= y < L.size[1]
    requires 0 <= k < L.bw[2] + L.size[2] + L.fw[2]
    requires src == SourceData(L, PlaneSource(L, k)) && z == PlaneIn(L, k)
    requires v == Vec3(x, y, k - L.bw[2]) && p == Offset3(x, y, z, L.size[0], L.size[1])
    ensures Read(L, diagonal, v) == At(src, p) && 0 <= p < |src|
  {
    if PlaneSource(L, k) == InOwn {
      ReadOwnPlane(L, diagonal, v);
    } else {
      ReadHaloPlane(L, diagonal, v, z, PlaneSource(L, k) == InForward);
    }
  }

  lemma ReadBackwardRow1(L: Local, x0: int, x: int, j: int, k: int, v: IndexArray, t: int)
    requires L.WellFormed(3) && Positive(L.size) && HaloHeld(L, true, 1) && 0 <= x0 + x < L.size[0]
    requires 0 <= j < L.bw[1] && 0 <= k < L.bw[2] + L.size[2] + L.fw[2]
    requires v == Vec3(x0 + x, j - L.bw[1], k - L.bw[2]) && t == Offset3(x0, j, k, L.size[0], L.bw[1])
    ensures Read(L, true, v) == At(L.haloBw[1], t + x) && 0 <= t + x < |L.haloBw[1]|
  {
    OffsetShift(x0, x, j, k, L.size[0], L.bw[1]);
    ReadBackward1(L, x0 + x, j, k, v, t + x);
  }

  lemma ReadForwardRow1(L: Local, x0: int, x: int, j: int, k: int, v: IndexArray, t: int)
    requires L.WellFormed(3) && Positive(L.size) && HaloHeld(L, true, 1) && 0 <= x0 + x < L.size[0]
    requires 0 <= j < L.fw[1] && 0 <= k < L.bw[2] + L.size[2] + L.fw[2]
    requires v == Vec3(x0 + x, L.size[1] + j, k - L.bw[2]) && t == Offset3(x0, j, k, L.size[0], L.fw[1])
    ensures Read(L, true, v) == At(L.haloFw[1], t + x) && 0 <= t + x < |L.haloFw[1]|
  {
    OffsetShift(x0, x, j, k, L.size[0], L.fw[1]);
    ReadForward1(L, x0 + x, j, k, v, t + x);
  }

  lemma ReadPlaneRow(L: Local, diagonal: bool, x0: int, x: int, y: int, k: int, v: IndexArray, t: int, src: seq<Elem>, z: int)
    requires Exchanged(L, diagonal, 1) && |L.data| == Volume(L.size) && 0 <= x0 + x < L.size[0] && 0 <= y < L.size[1]
    requires 0 <= k < L.bw[2] + L.size[2] + L.fw[2]
    requires src == SourceData(L, PlaneSource(L, k)) && z == PlaneIn(L, k)
    requires v == Vec3(x0 + x, y, k - L.bw[2]) && t == Offset3(x0, y, z, L.size[0], L.size[1])
    ensures Read(L, diagonal, v) == At(src, t + x) && 0 <= t + x < |src|
  {
    OffsetShift(x0, x, y, z, L.size[0], L.size[1]);
    ReadPlane(L, diagonal, x0 + x, y, k, v, t + x, src, z);
  }

  // The three groups of rows of plane k.
  lemma LinesBackward1Cell(L: Local, width: int, forward: bool, x: int, j: int, k: int, p: int, t: int)
    requires Exchanged(L, true, 0) && 0 <= x < width <= L.size[0]
    requires 0 <= j < L.bw[1] && 0 <= k < L.bw[2] + L.size[2] + L.fw[2]
    requires p == Offset3(0, j, k, width, L.bw[1] + L.size[1] + L.fw[1])
    requires t == Offset3(if forward then 0 else L.size[0] - width, j, k, L.size[0], L.bw[1])
    ensures 0 <= t + x < |L.haloBw[1]| && At(Pack(L, 0, width, forward, true), p + x) == At(L.haloBw[1], t + x)
  {
    assert HaloHeld(L, true, 1);
    var x0 := if forward then 0 else L.size[0] - width;
    var v := Vec3(x0 + x, j - L.bw[1], k - L.bw[2]);
    PackRow0(L, width, forward, x, j, k, p, v);
    ReadBackwardRow1(L, x0, x, j, k, v, t);
  }

  lemma LinesBackward1(L: Local, width: int, forward: bool, j: int, k: int, p: int, t: int)
    requires Exchanged(L, true, 0) && 0 < width <= L.size[0]
    requires 0 <= j < L.bw[1] && 0 <= k < L.bw[2] + L.size[2] + L.fw[2]
    requires p == Offset3(0, j, k, width, L.bw[1] + L.size[1] + L.fw[1])
    requires t == Offset3(if forward then 0 else L.size[0] - width, j, k, L.size[0], L.bw[1])
    ensures Line(Pack(L, 0, width, forward, true), p, L.haloBw[1], t, width)
  {
    forall i | p <= i < p + width
      ensures At(Pack(L, 0, width, forward, true), i) == At(L.haloBw[1], t + (i - p))
    {
      LinesBackward1Cell(L, width, forward, i - p, j, k, p, t);
    }
    LinesBackward1Cell(L, width, forward, 0, j, k, p, t);
    LinesBackward1Cell(L, width, forward, width - 1, j, k, p, t);
  }

  lemma LinesForward1Cell(L: Local, width: int, forward: bool, x: int, j: int, k: int, p: int, t: int)
    requires Exchanged(L, true, 0) && 0 <= x < width <= L.size[0]
    requires 0 <= j < L.fw[1] && 0 <= k < L.bw[2] + L.size[2] + L.fw[2]
    requires p == Offset3(0, L.bw[1] + L.size[1] + j, k, width, L.bw[1] + L.size[1] + L.fw[1])
    requires t == Offset3(if forward then 0 else L.size[0] - width, j, k, L.size[0], L.fw[1])
    ensures 0 <= t + x < |L.haloFw[1]| && At(Pack(L, 0, width, forward, true), p + x) == At(L.haloFw[1], t + x)
  {
    assert HaloHeld(L, true, 1);
    var x0 := if forward then 0 else L.size[0] - width;
    var v := Vec3(x0 + x, L.size[1] + j, k - L.bw[2]);
    PackRow0(L, width, forward, x, L.bw[1] + L.size[1] + j, k, p, v);
    ReadForwardRow1(L, x0, x, j, k, v, t);
  }

  lemma LinesForward1(L: Local, width: int, forward: bool, j: int, k: int, p: int, t: int)
    requires Exchanged(L, true, 0) && 0 < width <= L.size[0]
    requires 0 <= j < L.fw[1] && 0 <= k < L.bw[2] + L.size[2] + L.fw[2]
    requires p == Offset3(0, L.bw[1] + L.size[1] + j, k, width, L.bw[1] + L.size[1] + L.fw[1])
    requires t == Offset3(if forward then 0 else L.size[0] - width, j, k, L.size[0], L.fw[1])
    ensures Line(Pack(L, 0, width, forward, true), p, L.haloFw[1], t, width)
  {
    forall i | p <= i < p + width
      ensures At(Pack(L, 0, width, forward, true), i) == At(L.haloFw[1], t + (i - p))
    {
      LinesForward1Cell(L, width, forward, i - p, j, k, p, t);
    }
    LinesForward1Cell(L, width, forward, 0, j, k, p, t);
    LinesForward1Cell(L, width, forward, width - 1, j, k, p, t);
  }

  lemma LinesPlaneCell(L: Local, width: int, forward: bool, x: int, j: int, k: int, p: int, t: int, src: seq<Elem>, z: int)
    requires Exchanged(L, true, 0) && |L.data| == Volume(L.size) && 0 <= x < width <= L.size[0]
    requires 0 <= j < L.size[1] && 0 <= k < L.bw[2] + L.size[2] + L.fw[2]
    requires src == SourceData(L, PlaneSource(L, k)) && z == PlaneIn(L, k)
    requires p == Offset3(0, L.bw[1] + j, k, width, L.bw[1] + L.size[1] + L.fw[1])
    requires t == Offset3(if forward then 0 else L.size[0] - width, j, z, L.size[0], L.size[1])
    ensures 0 <= t + x < |src| && At(Pack(L, 0, width, forward, true), p + x) == At(src, t + x)
  {
    var x0 := if forward then 0 else L.size[0] - width;
    var v := Vec3(x0 + x, j, k - L.bw[2]);
    PackRow0(L, width, forward, x, L.bw[1] + j, k, p, v);
    ReadPlaneRow(L, true, x0, x, j, k, v, t, src, z);
  }

  lemma LinesPlane(L: Local, width: int, forward: bool, j: int, k: int, p: int, t: int, src: seq<Elem>, z: int)
    requires Exchanged(L, true, 0) && |L.data| == Volume(L.size) && 0 < width <= L.size[0]
    requires 0 <= j < L.size[1] && 0 <= k < L.bw[2] + L.size[2] + L.fw[2]
    requires src == SourceData(L, PlaneSource(L, k)) && z == PlaneIn(L, k)
    requires p == Offset3(0, L.bw[1] + j, k, width, L.bw[1] + L.size[1] + L.fw[1])
    requires t == Offset3(if forward then 0 else L.size[0] - width, j, z, L.size[0], L.size[1])
    ensures Line(Pack(L, 0, width, forward, true), p, src, t, width)
  {
    forall i | p <= i < p + width
      ensures At(Pack(L, 0, width, forward, true), i) == At(src, t + (i - p))
    {
      LinesPlaneCell(L, width, forward, i - p, j, k, p, t, src, z);
    }
    LinesPlaneCell(L, width, forward, 0, j, k, p, t, src, z);
    LinesPlaneCell(L, width, forward, width - 1, j, k, p, t, src, z);
  }

  lemma RowOffset(x: int, j0: nat, j: nat, k: nat, a: int, b: nat)
    ensures Row(Offset3(x, j0, k, a, b), a, j) == Offset3(x, j0 + j, k, a, b)
  {
    TimesBounds(b, k);
    TimesSum(a, j0 + Times(b, k), j);
  }

  // The rows of plane k of the packed halo are rows of the sources: of the
  // backward halo of dimension 1, of the plane z of src, and of the forward
  // halo of dimension 1.
  ghost predicate PlaneRows(L: Local, pack: seq<Elem>, width: int, x0: int, k: int, src: seq<Elem>, z: int)
    requires L.WellFormed(3)
  {
    var w, lx, ly := L.bw[1] + L.size[1] + L.fw[1], L.size[0], L.size[1];
    && Rows(pack, Offset3(0, 0, k, width, w), width, L.haloBw[1], Offset3(x0, 0, k, lx, L.bw[1]), lx, L.bw[1])
    && Rows(pack, Offset3(0, L.bw[1], k, width, w), width, src, Offset3(x0, 0, z, lx, ly), lx, ly)
    && Rows(pack, Offset3(0, L.bw[1] + ly, k, width, w), width, L.haloFw[1], Offset3(x0, 0, k, lx, L.fw[1]), lx, L.fw[1])
  }

  ghost predicate AllPlanes(L: Local, pack: seq<Elem>, width: int, x0: int)
    requires L.WellFormed(3)
  {
    forall k | 0 <= k < L.bw[2] + L.size[2] + L.fw[2] ::
      PlaneRows(L, pack, width, x0, k, SourceData(L, PlaneSource(L, k)), PlaneIn(L, k))
  }

  lemma PackPlane(L: Local, width: int, forward: bool, k: int, src: seq<Elem>, z: int)
    requires Exchanged(L, true, 0) && |L.data| == Volume(L.size) && 0 < width <= L.size[0]
    requires 0 <= k < L.bw[2] + L.size[2] + L.fw[2]
    requires src == SourceData(L, PlaneSource(L, k)) && z == PlaneIn(L, k)
    ensures PlaneRows(L, Pack(L, 0, width, forward, true), width, if forward then 0 else L.size[0] - width, k, src, z)
  {
    var x0, w := if forward then 0 else L.size[0] - width, L.bw[1] + L.size[1] + L.fw[1];
    var pack, lx := Pack(L, 0, width, forward, true), L.size[0];
    forall j | 0 <= j < L.bw[1]
      ensures Line(pack, Row(Offset3(0, 0, k, width, w), width, j),
                   L.haloBw[1], Row(Offset3(x0, 0, k, lx, L.bw[1]), lx, j), width)
    {
      RowOffset(0, 0, j, k, width, w);
      RowOffset(x0, 0, j, k, lx, L.bw[1]);
      LinesBackward1(L, width, forward, j, k, Offset3(0, j, k, width, w), Offset3(x0, j, k, lx, L.bw[1]));
    }
    forall j | 0 <= j < L.size[1]
      ensures Line(pack, Row(Offset3(0, L.bw[1], k, width, w), width, j), src,
                   Row(Offset3(x0, 0, z, lx, L.size[1]), lx, j), width)
    {
      RowOffset(0, L.bw[1], j, k, width, w);
      RowOffset(x0, 0, j, z, lx, L.size[1]);
      LinesPlane(L, width, forward, j, k, Offset3(0, L.bw[1] + j, k, width, w), Offset3(x0, j, z, lx, L.size[1]), src, z);
    }
    forall j | 0 <= j < L.fw[1]
      ensures Line(pack, Row(Offset3(0, L.bw[1] + L.size[1], k, width, w), width, j),
                   L.haloFw[1], Row(Offset3(x0, 0, k, lx, L.fw[1]), lx, j), width)
    {
      RowOffset(0, L.bw[1] + L.size[1], j, k, width, w);
      RowOffset(x0, 0, j, k, lx, L.fw[1]);
      LinesForward1(L, width, forward, j, k, Offset3(0, L.bw[1] + L.size[1] + j, k, width, w),
                    Offset3(x0, j, k, lx, L.fw[1]));
    }
  }

  // Rows j0 .. j0 + count - 1 of plane k fit into the packed halo.
  lemma RowsFit(width: nat, rows: nat, planes: nat, j0: nat, count: nat, k: nat)
    requires j0 + count <= rows && k < planes
    ensures 0 <= Offset3(0, j0, k, width, rows)
    ensures Row(Offset3(0, j0, k, width, rows), width, count) == Offset3(0, j0 + count, k, width, rows)
    ensures Offset3(0, j0 + count, k, width, rows) <= PlaneStart(width, rows, planes)
  {
    RowOffset(0, j0, count, k, width, rows);
    TimesBounds(rows, k);
    TimesBounds(width, j0 + Times(rows, k));
    TimesSum(rows, k, 1);
    TimesSum(rows, k + 1, planes - k - 1);
    TimesBounds(rows, planes - k - 1);
    var done, left := j0 + count + Times(rows, k), rows - j0 - count + Times(rows, planes - k - 1);
    assert done + left == Times(rows, planes);
    TimesSum(width, done, left);
    TimesBounds(width, left);
  }

  lemma NextPlane(x: int, k: nat, a: nat, b: nat)
    ensures Offset3(x, 0, k, a, b) + a * b == Offset3(x, 0, k + 1, a, b) == Offset3(x, b, k, a, b)
  {
    TimesBounds(b, k);
    TimesSum(b, k, 1);
    TimesSum(a, b, Times(b, k));
    TimesIsProduct(a, b);
  }

  lemma HaloVolume0(L: Local, width: nat)
    requires L.WellFormed(3)
    ensures Volume(HaloShape(L, 0, width, true))
         == PlaneStart(width, L.bw[1] + L.size[1] + L.fw[1], L.bw[2] + L.size[2] + L.fw[2]) >= 0
  {
    Volume3(width, L.bw[1] + L.size[1] + L.fw[1], L.bw[2] + L.size[2] + L.fw[2]);
    PlaneStartIsProduct(width, L.bw[1] + L.size[1] + L.fw[1], L.bw[2] + L.size[2] + L.fw[2]);
    assert HaloShape(L, 0, width, true)
        == Vec3(width, L.bw[1] + L.size[1] + L.fw[1], L.bw[2] + L.size[2] + L.fw[2]);
  }

  // One plane of CopyoutHalo3D0: rows of the backward halo of dimension 1, of
  // the selected source, and of the forward halo of dimension 1.
  method CopyPlane(ghost L: Local, size: IndexArray, bw: IndexArray, fw: IndexArray,
                   peerBw1: array<Elem>, haloBw1: int, source: array<Elem>, h: int, peerFw1: array<Elem>, haloFw1: int,
                   buf: array<Elem>, start: nat, width: nat, ghost x0: int, ghost k: nat, ghost pack: seq<Elem>,
                   ghost planes: nat, ghost z: int)
    returns (pos: nat)
    requires L.WellFormed(3) && size == L.size && bw == L.bw && fw == L.fw && k < planes
    requires peerBw1[..] == L.haloBw[1] && peerFw1[..] == L.haloFw[1] && buf !in {peerBw1, peerFw1, source}
    requires PlaneRows(L, pack, width, x0, k, source[..], z)
    requires start == Offset3(0, 0, k, width, bw[1] + size[1] + fw[1]) && Packed(buf[..], pack, start)
    requires haloBw1 == Offset3(x0, 0, k, size[0], bw[1]) && haloFw1 == Offset3(x0, 0, k, size[0], fw[1])
    requires h == Offset3(x0, 0, z, size[0], size[1])
    requires |pack| == PlaneStart(width, bw[1] + size[1] + fw[1], planes) <= buf.Length
    modifies buf
    ensures pos == Offset3(0, 0, k + 1, width, bw[1] + size[1] + fw[1]) && Packed(buf[..], pack, pos)
  {
    ghost var rows := bw[1] + size[1] + fw[1];
    RowsFit(width, rows, planes, 0, bw[1], k);
    RowsFit(width, rows, planes, bw[1], size[1], k);
    RowsFit(width, rows, planes, bw[1] + size[1], fw[1], k);
    NextPlane(0, k, width, rows);
    pos := CopyRows(buf, start, peerBw1, haloBw1, size[0], width, bw[1], pack);
    pos := CopyRows(buf, pos, source, h, size[0], width, size[1], pack);
    pos := CopyRows(buf, pos, peerFw1, haloFw1, size[0], width, fw[1], pack);
  }

  // One plane after another. The five pointers advance independently; the
  // source of the middle rows is selected by the plane.
  method CopyPlanes(ghost L: Local, size: IndexArray, bw: IndexArray, fw: IndexArray, data: array<Elem>,
                    peerBw1: array<Elem>, peerFw1: array<Elem>, peerBw2: array<Elem>, peerFw2: array<Elem>,
                    buf: array<Elem>, width: nat, xoffset: int, ghost pack: seq<Elem>)
    requires L.WellFormed(3) && size == L.size && bw == L.bw && fw == L.fw
    requires data[..] == L.data && peerBw1[..] == L.haloBw[1] && peerFw1[..] == L.haloFw[1]
    requires peerBw2[..] == L.haloBw[2] && peerFw2[..] == L.haloFw[2]
    requires buf !in {data, peerBw1, peerFw1, peerBw2, peerFw2}
    requires AllPlanes(L, pack, width, xoffset)
    requires |pack| == PlaneStart(width, bw[1] + size[1] + fw[1], bw[2] + size[2] + fw[2]) <= buf.Length
    modifies buf
    ensures Packed(buf[..], pack, |pack|)
  {
    var haloBw1, haloFw1, haloBw2, haloFw2, halo0 := xoffset, xoffset, xoffset, xoffset, xoffset;
    var plane, plane1b, plane1f := size[0] * size[1], size[0] * bw[1], size[0] * fw[1];
    var pos: nat := 0;
    ghost var rows, planes := bw[1] + size[1] + fw[1], bw[2] + size[2] + fw[2];
    for k := 0 to bw[2] + size[2] + fw[2]
      invariant pos == Offset3(0, 0, k, width, rows) && Packed(buf[..], pack, pos)
      invariant haloBw1 == Offset3(xoffset, 0, k, size[0], bw[1])
      invariant haloFw1 == Offset3(xoffset, 0, k, size[0], fw[1])
      invariant haloBw2 == Offset3(xoffset, 0, if k < bw[2] then k else bw[2], size[0], size[1])
      invariant halo0 == Offset3(xoffset, 0, if k < bw[2] then 0 else if k < bw[2] + size[2] then k - bw[2] else size[2],
                                 size[0], size[1])
      invariant haloFw2 == Offset3(xoffset, 0, if k < bw[2] + size[2] then 0 else k - bw[2] - size[2], size[0], size[1])
    {
      var source, h := peerBw2, haloBw2;
      if k < bw[2] {
        haloBw2 := haloBw2 + plane;
      } else if k < bw[2] + size[2] {
        source, h := data, halo0;
        halo0 := halo0 + plane;
      } else {
        source, h := peerFw2, haloFw2;
        haloFw2 := haloFw2 + plane;
      }
      NextPlane(xoffset, PlaneIn(L, k), size[0], size[1]);
      pos := CopyPlane(L, size, bw, fw, peerBw1, haloBw1, source, h, peerFw1, haloFw1, buf, pos, width,
                       xoffset, k, pack, planes, PlaneIn(L, k));
      NextPlane(xoffset, k, size[0], bw[1]);
      NextPlane(xoffset, k, size[0], fw[1]);
      haloBw1 := haloBw1 + plane1b;
      haloFw1 := haloFw1 + plane1f;
    }
  }

  // CopyoutHalo3D0: the halo of dimension 0 with diagonal points.
  method CopyoutHalo3D0(ghost L: Local, size: IndexArray, bw: IndexArray, fw: IndexArray, data: array<Elem>,
                        peerBw1: array<Elem>, peerFw1: array<Elem>, peerBw2: array<Elem>, peerFw2: array<Elem>,
                        buf: array<Elem>, width: nat, forward: bool)
    requires Exchanged(L, true, 0) && size == L.size && bw == L.bw && fw == L.fw
    requires |L.data| == Volume(L.size) && 0 < width <= size[0]
    requires data[..] == L.data && peerBw1[..] == L.haloBw[1] && peerFw1[..] == L.haloFw[1]
    requires peerBw2[..] == L.haloBw[2] && peerFw2[..] == L.haloFw[2]
    requires buf !in {data, peerBw1, peerFw1, peerBw2, peerFw2}
    requires buf.Length >= |Pack(L, 0, width, forward, true)|
    modifies buf
    ensures buf[..|Pack(L, 0, width, forward, true)|] == Pack(L, 0, width, forward, true)
  {
    HaloVolume0(L, width);
    var xoffset := if forward then 0 else size[0] - width;
    AllPacked(L, width, forward);
    CopyPlanes(L, size, bw, fw, data, peerBw1, peerFw1, peerBw2, peerFw2, buf, width, xoffset,
               Pack(L, 0, width, forward, true));
  }

  lemma AllPacked(L: Local, width: int, forward: bool)
    requires Exchanged(L, true, 0) && |L.data| == Volume(L.size) && 0 < width <= L.size[0]
    ensures AllPlanes(L, Pack(L, 0, width, forward, true), width, if forward then 0 else L.size[0] - width)
  {
    forall k | 0 <= k < L.bw[2] + L.size[2] + L.fw[2]
      ensures PlaneRows(L, Pack(L, 0, width, forward, true), width, if forward then 0 else L.size[0] - width, k,
                        SourceData(L, PlaneSource(L, k)), PlaneIn(L, k))
    {
      PackPlane(L, width, forward, k, SourceData(L, PlaneSource(L, k)), PlaneIn(L, k));
    }
  }

  // ------------------------------------------------- the halo of dimension 1

  lemma PackPlace1(L: Local, width: int, forward: bool, x: int, y: int, k: int)
    requires L.WellFormed(3)
    ensures Add(PackStart(L, 1, width, forward, true), Vec3(x, y, k))
         == Vec3(x, (if forward then 0 else L.size[1] - width) + y, k - L.bw[2])
    ensures HaloShape(L, 1, width, true) == Vec3(L.size[0], width, L.bw[2] + L.size[2] + L.fw[2])
  {
  }

  lemma PackCell1(L: Local, width: int, forward: bool, x: int, y: int, k: int, p: int, v: IndexArray)
    requires L.WellFormed(3) && 0 <= x < L.size[0] && 0 <= y < width && 0 <= k < L.bw[2] + L.size[2] + L.fw[2]
    requires p == Offset3(x, y, k, L.size[0], width)
    requires v == Vec3(x, (if forward then 0 else L.size[1] - width) + y, k - L.bw[2])
    ensures At(Pack(L, 1, width, forward, true), p) == Read(L, true, v)
  {
    var u := Vec3(x, y, k);
    PackPlace1(L, width, forward, x, y, k);
    PackAt(L, 1, width, forward, true, u);
    LinIsOffset3(u, HaloShape(L, 1, width, true));
  }

  // Moving up z0 planes.
  lemma PlaneShift(x: int, y: nat, z: nat, z0: nat, a: nat, b: nat)
    ensures Offset3(x, y, z + z0, a, b) == Offset3(x, y, z, a, b) + PlaneStart(a, b, z0)
  {
    TimesSum(b, z, z0);
    TimesBounds(b, z);
    TimesBounds(b, z0);
    TimesSum(a, y + Times(b, z), Times(b, z0));
  }

  // The depth planes from z0 on of the packed halo come from one source.
  ghost predicate OneSource(L: Local, z0: nat, depth: nat, s: Source)
    requires L.WellFormed(3)
  {
    forall k | z0 <= k < z0 + depth :: PlaneSource(L, k) == s && PlaneIn(L, k) == k - z0
  }

  lemma BlockPositions(u: IndexArray, z0: nat, depth: nat, a: nat, b: nat, width: nat, y0: nat) returns (p: int, q: int)
    requires |u| == 3 && InBox(u, Vec3(a, width, depth))
    ensures p == Offset3(u[0], u[1], u[2] + z0, a, width) == PlaneStart(a, width, z0) + Lin(u, Vec3(a, width, depth))
    ensures q == Offset3(u[0], y0 + u[1], u[2], a, b) == Lin(Add(Vec3(0, y0, 0), u), Vec3(a, b, depth))
  {
    assert 0 <= u[0] < a && 0 <= u[1] < width && 0 <= u[2] < depth;
    p, q := Offset3(u[0], u[1], u[2] + z0, a, width), Offset3(u[0], y0 + u[1], u[2], a, b);
    PlaneShift(u[0], u[1], u[2], z0, a, width);
    LinAt(u, Vec3(a, width, depth), u[0], u[1], u[2], a, width);
    LinAt(Add(Vec3(0, y0, 0), u), Vec3(a, b, depth), u[0], y0 + u[1], u[2], a, b);
  }

  lemma BlockCell(L: Local, width: nat, forward: bool, k: nat, src: seq<Elem>, u: IndexArray, p: int, q: int)
    requires Exchanged(L, true, 1) && |L.data| == Volume(L.size) && width <= L.size[1]
    requires 0 <= k < L.bw[2] + L.size[2] + L.fw[2] && |u| == 3
    requires src == SourceData(L, PlaneSource(L, k)) && u[2] == PlaneIn(L, k)
    requires 0 <= u[0] < L.size[0] && 0 <= u[1] < width
    requires p == Offset3(u[0], u[1], k, L.size[0], width)
    requires q == Offset3(u[0], (if forward then 0 else L.size[1] - width) + u[1], u[2], L.size[0], L.size[1])
    ensures At(Pack(L, 1, width, forward, true), p) == At(src, q)
  {
    var y := (if forward then 0 else L.size[1] - width) + u[1];
    var v := Vec3(u[0], y, k - L.bw[2]);
    PackCell1(L, width, forward, u[0], u[1], k, p, v);
    ReadPlane(L, true, u[0], y, k, v, q, src, u[2]);
  }

  lemma HaloVolume1(L: Local, width: nat)
    requires L.WellFormed(3)
    ensures Volume(HaloShape(L, 1, width, true)) == PlaneStart(L.size[0], width, L.bw[2] + L.size[2] + L.fw[2])
  {
    PackPlace1(L, width, true, 0, 0, 0);
    Volume3(L.size[0], width, L.bw[2] + L.size[2] + L.fw[2]);
    PlaneStartIsProduct(L.size[0], width, L.bw[2] + L.size[2] + L.fw[2]);
  }

  lemma Volume3(a: int, b: int, c: int)
    ensures Volume(Vec3(a, b, c)) == a * (b * c)
  {
    var s := Vec3(a, b, c);
    assert s[1..][1..] == s[2..] && Volume(s[2..]) == s[2] * Volume(s[2..][1..]);
  }

  // A block of a packed halo is a box of its source.
  ghost predicate BlockFrom(pack: seq<Elem>, start: int, src: seq<Elem>, srcSize: IndexArray, off: IndexArray,
                            block: IndexArray)
    requires |off| == |block| == |srcSize| && NonNegative(block)
  {
    var box := Gather(src, srcSize, off, block);
    forall k | 0 <= k < |box| :: At(pack, start + k) == box[k]
  }

  lemma BlockPacked(L: Local, width: nat, forward: bool, z0: nat, depth: nat, s: Source, src: seq<Elem>)
    requires Exchanged(L, true, 1) && |L.data| == Volume(L.size) && width <= L.size[1]
    requires OneSource(L, z0, depth, s) && z0 + depth <= L.bw[2] + L.size[2] + L.fw[2] && src == SourceData(L, s)
    ensures NonNegative(Vec3(L.size[0], width, depth))
    ensures BlockFrom(Pack(L, 1, width, forward, true), PlaneStart(L.size[0], width, z0), src,
                      Vec3(L.size[0], L.size[1], depth), Vec3(0, if forward then 0 else L.size[1] - width, 0),
                      Vec3(L.size[0], width, depth))
  {
    var block, y0 := Vec3(L.size[0], width, depth), if forward then 0 else L.size[1] - width;
    var box := Gather(src, Vec3(L.size[0], L.size[1], depth), Vec3(0, y0, 0), block);
    forall k | 0 <= k < |box|
      ensures At(Pack(L, 1, width, forward, true), PlaneStart(L.size[0], width, z0) + k) == box[k]
    {
      LinOfDigits(k, block);
      var u := Digits(k, block);
      var p, q := BlockPositions(u, z0, depth, L.size[0], L.size[1], width, y0);
      var plane := u[2] + z0;
      assert PlaneSource(L, plane) == s && PlaneIn(L, plane) == u[2];
      BlockCell(L, width, forward, plane, src, u, p, q);
    }
  }

  function FirstPlane(L: Local, s: Source): (z: nat)
    requires L.WellFormed(3)
  {
    match s case InBackward => 0 case InOwn => L.bw[2] case InForward => L.bw[2] + L.size[2]
  }

  function Depth(L: Local, s: Source): (n: nat)
    requires L.WellFormed(3)
  {
    match s case InBackward => L.bw[2] case InOwn => L.size[2] case InForward => L.fw[2]
  }

  ghost predicate AllBlocks(L: Local, pack: seq<Elem>, width: nat, y0: int)
    requires L.WellFormed(3)
  {
    && |pack| == PlaneStart(L.size[0], width, L.bw[2] + L.size[2] + L.fw[2])
    && forall s: Source :: OneBlock(L, pack, width, y0, s)
  }

  ghost predicate OneBlock(L: Local, pack: seq<Elem>, width: nat, y0: int, s: Source)
    requires L.WellFormed(3)
  {
    var depth := Depth(L, s);
    && |SourceData(L, s)| >= Volume(Vec3(L.size[0], L.size[1], depth))
    && BlockFrom(pack, PlaneStart(L.size[0], width, FirstPlane(L, s)), SourceData(L, s),
                 Vec3(L.size[0], L.size[1], depth), Vec3(0, y0, 0), Vec3(L.size[0], width, depth))
  }

  lemma AllBlocksPacked(L: Local, width: nat, forward: bool, y0: int)
    requires Exchanged(L, true, 1) && |L.data| == Volume(L.size) && width <= L.size[1]
    requires y0 == if forward then 0 else L.size[1] - width
    ensures AllBlocks(L, Pack(L, 1, width, forward, true), width, y0)
  {
    HaloVolume1(L, width);
    PlaneStartIsProduct(L.size[0], width, L.bw[2] + L.size[2] + L.fw[2]);
    var pack := Pack(L, 1, width, forward, true);
    forall s: Source ensures OneBlock(L, pack, width, y0, s) {
      BlockPacked(L, width, forward, FirstPlane(L, s), Depth(L, s), s, SourceData(L, s));
      SourceFits(L, Depth(L, s), FirstPlane(L, s), s);
    }
  }

  // CopyoutHalo3D1: the halo of dimension 1 with diagonal points.
  method CopyoutHalo3D1(ghost L: Local, size: IndexArray, bw: IndexArray, fw: IndexArray, data: array<Elem>,
                        peerBw2: array<Elem>, peerFw2: array<Elem>, buf: array<Elem>, width: nat, forward: bool)
    requires Exchanged(L, true, 1) && size == L.size && bw == L.bw && fw == L.fw
    requires |L.data| == Volume(L.size) && width <= size[1]
    requires data[..] == L.data && peerBw2[..] == L.haloBw[2] && peerFw2[..] == L.haloFw[2]
    requires buf !in {data, peerBw2, peerFw2}
    requires buf.Length >= |Pack(L, 1, width, forward, true)|
    modifies buf
    ensures buf[..|Pack(L, 1, width, forward, true)|] == Pack(L, 1, width, forward, true)
  {
    var y0 := if forward then 0 else size[1] - width;
    AllBlocksPacked(L, width, forward, y0);
    CopyBlocks(L, size, bw[2], fw[2], data, peerBw2, peerFw2, buf, y0, width, Pack(L, 1, width, forward, true));
  }

  // Three boxes, one behind the other, from the backward halo of dimension 2,
  // the own cells and its forward halo.
  method CopyBlocks(ghost L: Local, size: IndexArray, bw2: nat, fw2: nat, data: array<Elem>,
                    peerBw2: array<Elem>, peerFw2: array<Elem>, buf: array<Elem>, y0: nat, width: nat,
                    ghost pack: seq<Elem>)
    requires L.WellFormed(3) && size == L.size && bw2 == L.bw[2] && fw2 == L.fw[2]
    requires Positive(size) && y0 + width <= size[1]
    requires data[..] == L.data && peerBw2[..] == L.haloBw[2] && peerFw2[..] == L.haloFw[2]
    requires buf !in {data, peerBw2, peerFw2} && |pack| <= buf.Length && AllBlocks(L, pack, width, y0)
    modifies buf
    ensures buf[..|pack|] == pack
  {
    var pos := CopyBlock(L, InBackward, size, peerBw2, bw2, buf, 0, y0, width, pack);
    pos := CopyBlock(L, InOwn, size, data, size[2], buf, pos, y0, width, pack);
    pos := CopyBlock(L, InForward, size, peerFw2, fw2, buf, pos, y0, width, pack);
    assert buf[..|pack|] == pack;
  }

  // One of the three boxes.
  method CopyBlock(ghost L: Local, ghost s: Source, size: IndexArray, source: array<Elem>, depth: nat,
                   buf: array<Elem>, start: nat, y0: nat, width: nat, ghost pack: seq<Elem>)
    returns (end: nat)
    requires L.WellFormed(3) && size == L.size && Positive(size) && y0 + width <= size[1]
    requires source[..] == SourceData(L, s) && depth == Depth(L, s) && source != buf
    requires AllBlocks(L, pack, width, y0) && |pack| <= buf.Length
    requires start == PlaneStart(size[0], width, FirstPlane(L, s)) && Packed(buf[..], pack, start)
    modifies buf
    ensures end == PlaneStart(size[0], width, FirstPlane(L, s) + depth) && Packed(buf[..], pack, end)
  {
    var sgSize, haloSize := Vec3(size[0], width, depth), Vec3(size[0], size[1], depth);
    assert OneBlock(L, pack, width, y0, s);
    BlockFits(size[0], width, FirstPlane(L, s), depth, L.bw[2] + L.size[2] + L.fw[2]);
    end := CopyBox(source, haloSize, buf, start, Vec3(0, y0, 0), sgSize, pack);
  }

  method CopyBox(source: array<Elem>, haloSize: IndexArray, buf: array<Elem>, start: nat,
                 sgOffset: IndexArray, sgSize: IndexArray, ghost pack: seq<Elem>)
    returns (end: nat)
    requires BoxIn(sgOffset, sgSize, haloSize) && source.Length >= Volume(haloSize) && source != buf
    requires BlockFrom(pack, start, source[..], haloSize, sgOffset, sgSize)
    requires Packed(buf[..], pack, start) && start + Volume(sgSize) <= |pack| <= buf.Length
    modifies buf
    ensures end == start + Volume(sgSize) && Packed(buf[..], pack, end)
  {
    ghost var before := buf[..];
    end := CopyoutSubgrid(source, haloSize, buf, start, sgOffset, sgSize);
    PackedAppend(before, buf[..], start, Gather(source[..], haloSize, sgOffset, sgSize), pack);
  }

  lemma PackedAppend(before: seq<Elem>, after: seq<Elem>, start: nat, box: seq<Elem>, pack: seq<Elem>)
    requires Packed(before, pack, start) && start + |box| <= |pack| && start + |box| <= |after|
    requires before[..start] == after[..start] && after[start..start + |box|] == box
    requires forall k | 0 <= k < |box| :: At(pack, start + k) == box[k]
    ensures Packed(after, pack, start + |box|)
  {
    forall p | 0 <= p < start + |box| ensures after[p] == pack[p] {
      if p < start {
        assert before[..start][p] == after[..start][p];
      } else {
        assert after[start..start + |box|][p - start] == box[p - start];
      }
    }
  }

  lemma BlockFits(a: nat, width: nat, z0: nat, depth: nat, planes: nat)
    requires z0 + depth <= planes
    ensures PlaneStart(a, width, z0) + Volume(Vec3(a, width, depth)) == PlaneStart(a, width, z0 + depth)
    ensures PlaneStart(a, width, z0 + depth) <= PlaneStart(a, width, planes)
  {
    Volume3(a, width, depth);
    PlaneStartIsProduct(a, width, depth);
    PlaneStartIsProduct(a, width, planes - z0 - depth);
    StartSum(a, width, z0, depth);
    StartSum(a, width, z0 + depth, planes - z0 - depth);
  }

  lemma StartSum(a: nat, b: nat, z: nat, n: nat)
    ensures PlaneStart(a, b, z + n) == PlaneStart(a, b, z) + PlaneStart(a, b, n)
  {
    TimesSum(b, z, n);
    TimesBounds(b, z);
    TimesBounds(b, n);
    TimesSum(a, Times(b, z), Times(b, n));
  }

  // The source holds as many planes as are copied from it.
  lemma SourceFits(L: Local, depth: nat, z0: nat, s: Source)
    requires Exchanged(L, true, 1) && |L.data| == Volume(L.size)
    requires OneSource(L, z0, depth, s) && z0 + depth <= L.bw[2] + L.size[2] + L.fw[2]
    ensures |SourceData(L, s)| >= Volume(Vec3(L.size[0], L.size[1], depth))
  {
    var lx, ly := L.size[0], L.size[1];
    Volume3(lx, ly, depth);
    if depth > 0 {
      var k := z0 + depth - 1;
      var p := Offset3(lx - 1, ly - 1, depth - 1, lx, ly);
      ReadPlane(L, true, lx - 1, ly - 1, k, Vec3(lx - 1, ly - 1, k - L.bw[2]), p, SourceData(L, s), depth - 1);
      CornerOffset(lx, ly, depth);
    }
  }

  lemma CornerOffset(a: nat, b: nat, c: nat)
    requires a > 0 && b > 0 && c > 0
    ensures Offset3(a - 1, b - 1, c - 1, a, b) + 1 == a * (b * c)
  {
    OffsetIsCalcOffset(a - 1, b - 1, c - 1, a, b);
    assert (b - 1) * a + (c - 1) * a * b + a == a * (b * c);
  }

  // --------------------------------------- halos that need no gathering code

  // Without diagonal points a halo is a box of the own cells.
  lemma PlainPack(L: Local, d: nat, width: nat, forward: bool)
    requires L.WellFormed(3) && d < 3 && width <= L.size[d]
    ensures NonNegative(HaloShape(L, d, width, false))
    ensures BoxIn(PackStart(L, d, width, forward, false), HaloShape(L, d, width, false), L.size)
    ensures Pack(L, d, width, forward, false)
         == Gather(L.data, L.size, PackStart(L, d, width, forward, false), HaloShape(L, d, width, false))
  {
    var start, shape := PackStart(L, d, width, forward, false), HaloShape(L, d, width, false);
    var pack, box := Pack(L, d, width, forward, false), Gather(L.data, L.size, start, shape);
    forall k | 0 <= k < |box| ensures pack[k] == box[k] {
      LinOfDigits(k, shape);
      OwnRead(L, false, Add(start, Digits(k, shape)));
    }
  }

  lemma OwnRead(L: Local, diagonal: bool, v: IndexArray)
    requires L.WellFormed(3) && InBox(v, L.size)
    ensures Read(L, diagonal, v) == At(L.data, Lin(v, L.size))
  {
    assert FirstOut(v, L.size, 0) == 3;
  }

  // The halo of the last dimension is a contiguous part of the own cells.
  lemma LastPack(L: Local, diagonal: bool, width: nat, forward: bool, start: int)
    requires L.WellFormed(3) && |L.data| == Volume(L.size) && width <= L.size[2]
    requires start == if forward then 0 else Volume(Vec3(L.size[0], L.size[1], L.size[2] - width))
    ensures var n := |Pack(L, 2, width, forward, diagonal)|;
      && 0 <= start && start + n <= |L.data|
      && L.data[start..start + n] == Pack(L, 2, width, forward, diagonal)
  {
    var z0 := if forward then 0 else L.size[2] - width;
    LastLength(L, diagonal, width, forward, z0);
    var pack := Pack(L, 2, width, forward, diagonal);
    forall k | 0 <= k < |pack| ensures At(pack, k) == At(L.data, start + k) {
      LastIndex(L, diagonal, width, forward, z0, k);
    }
    SliceIs(L.data, start, pack);
  }

  lemma SliceIs(data: seq<Elem>, start: nat, pack: seq<Elem>)
    requires start + |pack| <= |data| && forall k | 0 <= k < |pack| :: At(pack, k) == At(data, start + k)
    ensures data[start..start + |pack|] == pack
  {
    forall k | 0 <= k < |pack| ensures data[start..start + |pack|][k] == pack[k] {
      assert At(pack, k) == At(data, start + k);
    }
  }

  lemma LastLength(L: Local, diagonal: bool, width: nat, forward: bool, z0: nat)
    requires L.WellFormed(3) && |L.data| == Volume(L.size) && z0 + width <= L.size[2]
    ensures |Pack(L, 2, width, forward, diagonal)| == Volume(Vec3(L.size[0], L.size[1], width))
    ensures 0 <= PlaneStart(L.size[0], L.size[1], z0) == Volume(Vec3(L.size[0], L.size[1], z0))
    ensures PlaneStart(L.size[0], L.size[1], z0) + Volume(Vec3(L.size[0], L.size[1], width)) <= |L.data|
    ensures PlaneStart(L.size[0], L.size[1], 0) == 0
  {
    LastPlace(L, diagonal, width, forward, Vec3(0, 0, 0));
    assert L.size == Vec3(L.size[0], L.size[1], L.size[2]);
    LastFits(L.size[0], L.size[1], L.size[2], width, z0);
  }

  lemma LastFits(a: nat, b: nat, c: nat, width: nat, z0: nat)
    requires z0 + width <= c
    ensures Volume(Vec3(a, b, z0)) == PlaneStart(a, b, z0) >= 0 && Volume(Vec3(a, b, 0)) == 0
    ensures PlaneStart(a, b, 0) == 0 && Volume(Vec3(a, b, width)) >= 0
    ensures PlaneStart(a, b, z0) + Volume(Vec3(a, b, width)) <= Volume(Vec3(a, b, c))
  {
    Volume3(a, b, z0);
    Volume3(a, b, 0);
    Volume3(a, b, width);
    Volume3(a, b, c);
    PlaneStartIsProduct(a, b, 0);
    PlaneStartIsProduct(a, b, z0);
    PlaneStartIsProduct(a, b, width);
    PlaneStartIsProduct(a, b, c);
    BlockFits(a, b, z0, width, c);
  }

  lemma LastIndex(L: Local, diagonal: bool, width: nat, forward: bool, z0: nat, k: nat)
    requires L.WellFormed(3) && width <= L.size[2] && z0 == if forward then 0 else L.size[2] - width
    requires k < |Pack(L, 2, width, forward, diagonal)| == Volume(Vec3(L.size[0], L.size[1], width))
    ensures At(Pack(L, 2, width, forward, diagonal), k) == At(L.data, PlaneStart(L.size[0], L.size[1], z0) + k)
  {
    var shape := Vec3(L.size[0], L.size[1], width);
    LastPlace(L, diagonal, width, forward, Vec3(0, 0, 0));
    var u := CellOf(k, shape);
    LastCell(L, diagonal, width, forward, z0, u, Add(PackStart(L, 2, width, forward, diagonal), u),
             PlaneStart(L.size[0], L.size[1], z0) + k);
  }

  lemma CellOf(k: nat, shape: IndexArray) returns (u: IndexArray)
    requires |shape| == 3 && NonNegative(shape) && k < Volume(shape)
    ensures u == Digits(k, shape) && InBox(u, shape) && k == Offset3(u[0], u[1], u[2], shape[0], shape[1])
  {
    LinOfDigits(k, shape);
    u := Digits(k, shape);
    LinIsOffset3(u, shape);
  }

  lemma LastCell(L: Local, diagonal: bool, width: nat, forward: bool, z0: nat, u: IndexArray, v: IndexArray, p: int)
    requires L.WellFormed(3) && width <= L.size[2] && |u| == 3 && InBox(u, Vec3(L.size[0], L.size[1], width))
    requires z0 == if forward then 0 else L.size[2] - width
    requires v == Add(PackStart(L, 2, width, forward, diagonal), u)
    requires p == PlaneStart(L.size[0], L.size[1], z0) + Offset3(u[0], u[1], u[2], L.size[0], L.size[1])
    ensures Read(L, diagonal, v) == At(L.data, p)
  {
    LastPlace(L, diagonal, width, forward, u);
    PlaneShift(u[0], u[1], u[2], z0, L.size[0], L.size[1]);
    LinAt(v, L.size, u[0], u[1], u[2] + z0, L.size[0], L.size[1]);
    OwnRead(L, diagonal, v);
  }

  lemma LastPlace(L: Local, diagonal: bool, width: nat, forward: bool, u: IndexArray)
    requires L.WellFormed(3) && |u| == 3
    ensures HaloShape(L, 2, width, diagonal) == Vec3(L.size[0], L.size[1], width)
    ensures Add(PackStart(L, 2, width, forward, diagonal), u)
         == Vec3(u[0], u[1], u[2] + (if forward then 0 else L.size[2] - width))
  {
  }
}
