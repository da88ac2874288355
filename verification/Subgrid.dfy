// Copies between a multi-dimensional grid and a contiguous buffer
// (runtime/grid_util.cc). Buffers are arrays of elements; a pointer into a
// buffer is an array together with a position.
module Subgrid {
  import opened MixedRadix

  type Elem = real

  // The element at a position; positions outside the buffer are never
  // addressed by the methods below. Where code reads past a buffer, 0 stands
  // for whatever it finds there.
  function At(s: seq<Elem>, p: int): Elem {
    if 0 <= p < |s| then s[p] else 0.0
  }

  // The grid that is 1 at one cell and 0 elsewhere.
  ghost function OneHot(gsize: IndexArray, index: IndexArray): (g: seq<Elem>)
    requires InBox(index, gsize)
    ensures |g| == Volume(gsize) && forall p | 0 <= p < |g| :: g[p] == if p == Lin(index, gsize) then 1.0 else 0.0
  {
    LinInRange(index, gsize);
    seq(Volume(gsize), p => if p == Lin(index, gsize) then 1.0 else 0.0)
  }

  lemma OneHotAt(gsize: IndexArray, index: IndexArray, v: IndexArray)
    requires InBox(index, gsize) && InBox(v, gsize)
    ensures At(OneHot(gsize, index), Lin(v, gsize)) == if v == index then 1.0 else 0.0
  {
    LinInRange(v, gsize);
    if v != index && Lin(v, gsize) == Lin(index, gsize) {
      LinInjective(v, index, gsize);
    }
  }

  // The box at offset off with extents size lies inside a grid of extents
  // gsize. An empty box may be anywhere.
  ghost predicate BoxIn(off: IndexArray, size: IndexArray, gsize: IndexArray) {
    && |off| == |size| == |gsize| > 0
    && NonNegative(size)
    && NonNegative(gsize)
    && (Positive(size) ==> forall d | 0 <= d < |size| :: 0 <= off[d] && off[d] + size[d] <= gsize[d])
  }

  // Position in the grid of the k-th cell of a box, in row-major order.
  ghost function CellPos(off: IndexArray, size: IndexArray, gsize: IndexArray, k: int): int
    requires |off| == |size| == |gsize|
  {
    Lin(Add(off, Digits(k, size)), gsize)
  }

  // What CopyoutSubgrid produces: the cells of the box in row-major order.
  ghost function Gather(g: seq<Elem>, gsize: IndexArray, off: IndexArray, size: IndexArray): (r: seq<Elem>)
    requires |off| == |size| == |gsize| && NonNegative(size)
    ensures |r| == Volume(size)
  {
    VolumeSign(size);
    seq(Volume(size), k => At(g, CellPos(off, size, gsize, k)))
  }

  // Rank of grid position p within the box.
  ghost function BoxRank(p: int, off: IndexArray, size: IndexArray, gsize: IndexArray): int
    requires |off| == |size| == |gsize|
  {
    Lin(Sub(Digits(p, gsize), off), size)
  }

  ghost predicate PosInBox(p: int, off: IndexArray, size: IndexArray, gsize: IndexArray)
    requires |off| == |size| == |gsize|
  {
    InBox(Sub(Digits(p, gsize), off), size)
  }

  // The grid after the first cnt cells of the box were overwritten from buf.
  ghost function ScatterPrefix(g: seq<Elem>, gsize: IndexArray, off: IndexArray, size: IndexArray,
                               buf: seq<Elem>, cnt: int): (r: seq<Elem>)
    requires |off| == |size| == |gsize|
    ensures |r| == |g|
  {
    seq(|g|, p requires 0 <= p < |g| =>
      if PosInBox(p, off, size, gsize) && BoxRank(p, off, size, gsize) < cnt
      then At(buf, BoxRank(p, off, size, gsize)) else g[p])
  }

  // What CopyinSubgrid produces: the box overwritten, everything else kept.
  ghost function Scatter(g: seq<Elem>, gsize: IndexArray, off: IndexArray, size: IndexArray,
                         buf: seq<Elem>): (r: seq<Elem>)
    requires |off| == |size| == |gsize|
    ensures |r| == |g|
  {
    ScatterPrefix(g, gsize, off, size, buf, Volume(size))
  }

  // ---------------------------------------------------------------- lemmas

  // The k-th cell of a box is a valid grid position whose rank is k.
  lemma CellPosInBox(off: IndexArray, size: IndexArray, gsize: IndexArray, k: int)
    requires BoxIn(off, size, gsize) && 0 <= k < Volume(size)
    ensures 0 <= CellPos(off, size, gsize, k) < Volume(gsize)
    ensures Digits(CellPos(off, size, gsize, k), gsize) == Add(off, Digits(k, size))
    ensures PosInBox(CellPos(off, size, gsize, k), off, size, gsize)
    ensures BoxRank(CellPos(off, size, gsize, k), off, size, gsize) == k
  {
    VolumeSign(size);
    LinOfDigits(k, size);
    var v := Digits(k, size);
    LinInRange(Add(off, v), gsize);
    DigitsOfLin(Add(off, v), gsize);
    assert Sub(Add(off, v), off) == v;
  }

  // The only cell with rank k is the k-th one.
  lemma RankDeterminesPos(p: int, off: IndexArray, size: IndexArray, gsize: IndexArray)
    requires BoxIn(off, size, gsize) && 0 <= p < Volume(gsize)
    requires PosInBox(p, off, size, gsize)
    ensures 0 <= BoxRank(p, off, size, gsize) < Volume(size)
    ensures CellPos(off, size, gsize, BoxRank(p, off, size, gsize)) == p
  {
    var v := Sub(Digits(p, gsize), off);
    LinInRange(v, size);
    DigitsOfLin(v, size);
    assert Add(off, v) == Digits(p, gsize);
    LinOfDigits(p, gsize);
  }

  lemma ScatterNone(g: seq<Elem>, gsize: IndexArray, off: IndexArray, size: IndexArray, buf: seq<Elem>)
    requires BoxIn(off, size, gsize) && |g| == Volume(gsize)
    ensures ScatterPrefix(g, gsize, off, size, buf, 0) == g
  {
    forall p | 0 <= p < |g| ensures ScatterPrefix(g, gsize, off, size, buf, 0)[p] == g[p] {
      if PosInBox(p, off, size, gsize) {
        RankDeterminesPos(p, off, size, gsize);
      }
    }
  }

  // What a box holds after it was overwritten, at any cell of the grid.
  lemma ScatterAt(g: seq<Elem>, gsize: IndexArray, off: IndexArray, size: IndexArray, buf: seq<Elem>, v: IndexArray)
    requires BoxIn(off, size, gsize) && |g| == Volume(gsize) && InBox(v, gsize)
    ensures 0 <= Lin(v, gsize) < |g|
    ensures Scatter(g, gsize, off, size, buf)[Lin(v, gsize)]
         == if InBox(Sub(v, off), size) then At(buf, Lin(Sub(v, off), size)) else g[Lin(v, gsize)]
  {
    LinInRange(v, gsize);
    DigitsOfLin(v, gsize);
    if InBox(Sub(v, off), size) {
      LinInRange(Sub(v, off), size);
    }
  }

  // What a gathered buffer holds, at any cell of the box.
  lemma GatherAt(g: seq<Elem>, gsize: IndexArray, off: IndexArray, size: IndexArray, u: IndexArray)
    requires |off| == |size| == |gsize| && NonNegative(size) && InBox(u, size)
    ensures 0 <= Lin(u, size) < Volume(size)
    ensures Gather(g, gsize, off, size)[Lin(u, size)] == At(g, Lin(Add(off, u), gsize))
  {
    LinInRange(u, size);
    DigitsOfLin(u, size);
  }

  // Reading back a box that was just written returns the written buffer.
  lemma GatherOfScatter(g: seq<Elem>, gsize: IndexArray, off: IndexArray, size: IndexArray, buf: seq<Elem>)
    requires BoxIn(off, size, gsize) && |g| == Volume(gsize) && |buf| == Volume(size)
    ensures Gather(Scatter(g, gsize, off, size, buf), gsize, off, size) == buf
  {
    forall k | 0 <= k < |buf|
      ensures Gather(Scatter(g, gsize, off, size, buf), gsize, off, size)[k] == buf[k]
    {
      CellPosInBox(off, size, gsize, k);
    }
  }

  // Writing back a box that was just read changes nothing.
  lemma ScatterOfGather(g: seq<Elem>, gsize: IndexArray, off: IndexArray, size: IndexArray)
    requires BoxIn(off, size, gsize) && |g| == Volume(gsize)
    ensures Scatter(g, gsize, off, size, Gather(g, gsize, off, size)) == g
  {
    forall p | 0 <= p < |g|
      ensures Scatter(g, gsize, off, size, Gather(g, gsize, off, size))[p] == g[p]
    {
      if PosInBox(p, off, size, gsize) {
        RankDeterminesPos(p, off, size, gsize);
      }
    }
  }

  lemma SubChain(v: IndexArray, w: IndexArray, off: IndexArray)
    requires |v| == |w| == |off|
    ensures Add(Sub(w, off), Sub(v, w)) == Sub(v, off)
  {
  }

  lemma AddChain(a: IndexArray, b: IndexArray, c: IndexArray)
    requires |a| == |b| == |c|
    ensures Add(a, Add(b, c)) == Add(Add(a, b), c)
  {
  }

  lemma AddSub(v: IndexArray, off: IndexArray)
    requires |v| == |off|
    ensures Add(off, Sub(v, off)) == v
  {
  }

  // A box gathered from a gathered box, at a cell v of both.
  lemma GatherTwice(g: seq<Elem>, gsize: IndexArray, off: IndexArray, size: IndexArray,
                    off2: IndexArray, size2: IndexArray, v: IndexArray)
    requires |off| == |size| == |off2| == |size2| == |gsize| == |v| && NonNegative(size) && NonNegative(size2)
    requires InBox(Sub(v, off), size) && InBox(Sub(v, off2), size2)
    ensures At(Gather(Gather(g, gsize, off, size), size, Sub(off2, off), size2), Lin(Sub(v, off2), size2))
         == At(g, Lin(v, gsize))
  {
    GatherAt(Gather(g, gsize, off, size), size, Sub(off2, off), size2, Sub(v, off2));
    SubChain(v, off2, off);
    GatherAt(g, gsize, off, size, Sub(v, off));
    AddSub(v, off);
  }

  // Two boxes without a common cell.
  ghost predicate Apart(off1: IndexArray, size1: IndexArray, off2: IndexArray, size2: IndexArray)
    requires |off1| == |size1| == |off2| == |size2|
  {
    forall u: IndexArray | |u| == |off1| :: !(InBox(Sub(u, off1), size1) && InBox(Sub(u, off2), size2))
  }

  lemma ScatterOutside(g: seq<Elem>, gsize: IndexArray, off: IndexArray, size: IndexArray, buf: seq<Elem>, p: int)
    requires |off| == |size| == |gsize| && 0 <= p < |g| && !PosInBox(p, off, size, gsize)
    ensures Scatter(g, gsize, off, size, buf)[p] == g[p]
  {
  }

  lemma ScatterInside(g: seq<Elem>, gsize: IndexArray, off: IndexArray, size: IndexArray, buf: seq<Elem>, p: int)
    requires BoxIn(off, size, gsize) && 0 <= p < |g| == Volume(gsize) && PosInBox(p, off, size, gsize)
    ensures Scatter(g, gsize, off, size, buf)[p] == At(buf, BoxRank(p, off, size, gsize))
  {
    RankDeterminesPos(p, off, size, gsize);
  }

  lemma CellElsewhere(g: seq<Elem>, gsize: IndexArray, off: IndexArray, size: IndexArray, buf: seq<Elem>,
                      off2: IndexArray, size2: IndexArray, k: int)
    requires BoxIn(off, size, gsize) && BoxIn(off2, size2, gsize) && |g| == Volume(gsize)
    requires Apart(off, size, off2, size2) && 0 <= k < Volume(size2)
    ensures At(Scatter(g, gsize, off, size, buf), CellPos(off2, size2, gsize, k)) == At(g, CellPos(off2, size2, gsize, k))
  {
    CellPosInBox(off2, size2, gsize, k);
    var p := CellPos(off2, size2, gsize, k);
    var u := Digits(p, gsize);
    assert InBox(Sub(u, off2), size2);
    assert !PosInBox(p, off, size, gsize);
    ScatterOutside(g, gsize, off, size, buf, p);
  }

  // Overwriting one box leaves another one that is apart from it as it was.
  lemma GatherElsewhere(g: seq<Elem>, gsize: IndexArray, off: IndexArray, size: IndexArray, buf: seq<Elem>,
                        off2: IndexArray, size2: IndexArray)
    requires BoxIn(off, size, gsize) && BoxIn(off2, size2, gsize) && |g| == Volume(gsize)
    requires Apart(off, size, off2, size2)
    ensures Gather(Scatter(g, gsize, off, size, buf), gsize, off2, size2) == Gather(g, gsize, off2, size2)
  {
    var h := Scatter(g, gsize, off, size, buf);
    var a, b := Gather(h, gsize, off2, size2), Gather(g, gsize, off2, size2);
    forall k | 0 <= k < |a| ensures a[k] == b[k] {
      CellElsewhere(g, gsize, off, size, buf, off2, size2, k);
    }
  }

  // ---------------------------------------------------------------- methods

  // The l-th line of the box: dimension 0 at its start, the others at the
  // digits of l.
  ghost function LineStart(off: IndexArray, size: IndexArray, l: int): IndexArray
    requires |off| == |size| > 0
  {
    off[..1] + Add(off[1..], Digits(l, size[1..]))
  }

  // The entries of the worklist once dimensions i.. have been expanded.
  ghost predicate Expanded(offsets: seq<IndexArray>, off: IndexArray, size: IndexArray, i: int)
    requires |off| == |size| && 0 <= i <= |size|
  {
    forall l | 0 <= l < |offsets| :: offsets[l] == off[..i] + Add(off[i..], Digits(l, size[i..]))
  }

  // The worklist of both copy routines: it starts with the box offset and is
  // expanded one dimension at a time, from the last down to dimension 1.
  method CollectLines(subOffset: IndexArray, subSize: IndexArray) returns (offsets: seq<IndexArray>)
    requires |subOffset| == |subSize| > 0 && NonNegative(subSize)
    ensures |offsets| == Volume(subSize[1..])
    ensures forall l | 0 <= l < |offsets| :: offsets[l] == LineStart(subOffset, subSize, l)
  {
    offsets := [subOffset];
    var i := |subSize| - 1;
    assert subOffset == subOffset[..i + 1] + Add(subOffset[i + 1..], Digits(0, subSize[i + 1..]));
    while i >= 1
      invariant 0 <= i < |subSize|
      invariant |offsets| == Volume(subSize[i + 1..])
      invariant Expanded(offsets, subOffset, subSize, i + 1)
    {
      assert subSize[i..][1..] == subSize[i + 1..];
      offsets := ExpandDimension(subOffset, subSize, i, offsets);
      i := i - 1;
    }
  }

  // One round of the worklist.
  method ExpandDimension(subOffset: IndexArray, subSize: IndexArray, i: int, offsets: seq<IndexArray>)
    returns (offsetsNew: seq<IndexArray>)
    requires |subOffset| == |subSize| && 1 <= i < |subSize| && subSize[i] >= 0
    requires Expanded(offsets, subOffset, subSize, i + 1)
    ensures |offsetsNew| == subSize[i] * |offsets| && Expanded(offsetsNew, subOffset, subSize, i)
  {
    offsetsNew := [];
    for m := 0 to |offsets|
      invariant |offsetsNew| == subSize[i] * m
      invariant Expanded(offsetsNew, subOffset, subSize, i)
    {
      var curOffset := offsets[m];
      for j := 0 to subSize[i]
        invariant |offsetsNew| == subSize[i] * m + j
        invariant Expanded(offsetsNew, subOffset, subSize, i)
      {
        var newOffset := curOffset[i := curOffset[i] + j];
        ExpandEntry(subOffset, subSize, i, m, j);
        offsetsNew := offsetsNew + [newOffset];
      }
      assert subSize[i] * m + subSize[i] == subSize[i] * (m + 1);
    }
  }

  lemma ExpandEntry(off: IndexArray, size: IndexArray, i: int, m: int, j: int)
    requires |off| == |size| && 1 <= i < |size| && 0 <= j < size[i] && m >= 0
    ensures var cur := off[..i + 1] + Add(off[i + 1..], Digits(m, size[i + 1..]));
      cur[i := cur[i] + j] == off[..i] + Add(off[i..], Digits(j + size[i] * m, size[i..]))
  {
    var tail := size[i..];
    DigitsCons(m, j, tail);
    assert tail[1..] == size[i + 1..];
    var cur := off[..i + 1] + Add(off[i + 1..], Digits(m, size[i + 1..]));
    var lhs, rhs := cur[i := cur[i] + j], off[..i] + Add(off[i..], Digits(j + size[i] * m, size[i..]));
    assert |lhs| == |rhs|;
    forall d | 0 <= d < |lhs| ensures lhs[d] == rhs[d] {
      if d > i {
        assert rhs[d] == off[d] + ([j] + Digits(m, size[i + 1..]))[d - i];
      }
    }
  }

  // Cells pos .. pos + n - 1 of the box are contiguous in the grid, from d.
  ghost predicate Contiguous(off: IndexArray, size: IndexArray, gsize: IndexArray, pos: int, d: int, n: int)
    requires |off| == |size| == |gsize|
  {
    forall k | pos <= k < pos + n :: CellPos(off, size, gsize, k) == d + (k - pos)
  }

  // Cell x of line l is cell x + size[0] * l of the box.
  lemma LineCell(off: IndexArray, size: IndexArray, gsize: IndexArray, l: int, x: int)
    requires |off| == |size| == |gsize| > 0 && 0 <= x < size[0] && l >= 0
    ensures CellPos(off, size, gsize, x + size[0] * l) == Lin(LineStart(off, size, l), gsize) + x
  {
    DigitsCons(l, x, size);
    LineShift(off, Digits(l, size[1..]), gsize, x);
  }

  lemma SameTail(off: IndexArray, rest: IndexArray, x: int)
    requires |off| == |rest| + 1
    ensures var a, b := Add(off, [x] + rest), off[..1] + Add(off[1..], rest);
      a[1..] == b[1..] && a[0] == b[0] + x
  {
    var a, b := Add(off, [x] + rest), off[..1] + Add(off[1..], rest);
    forall k | 1 <= k < |a| ensures a[k] == b[k] {
      assert ([x] + rest)[k] == rest[k - 1] && b[k] == Add(off[1..], rest)[k - 1];
    }
    TailsEqual(a, b);
  }

  lemma TailsEqual(a: IndexArray, b: IndexArray)
    requires |a| == |b| > 0 && forall k | 1 <= k < |a| :: a[k] == b[k]
    ensures a[1..] == b[1..]
  {
  }

  lemma LineShift(off: IndexArray, rest: IndexArray, gsize: IndexArray, x: int)
    requires |off| == |gsize| == |rest| + 1
    ensures Lin(Add(off, [x] + rest), gsize) == Lin(off[..1] + Add(off[1..], rest), gsize) + x
  {
    SameTail(off, rest, x);
    LinHead(Add(off, [x] + rest), off[..1] + Add(off[1..], rest), gsize);
  }

  lemma LineContiguous(off: IndexArray, size: IndexArray, gsize: IndexArray, l: int, pos: int)
    requires |off| == |size| == |gsize| > 0 && pos == size[0] * l && l >= 0
    ensures Contiguous(off, size, gsize, pos, Lin(LineStart(off, size, l), gsize), size[0])
  {
    var d := Lin(LineStart(off, size, l), gsize);
    forall k | pos <= k < pos + size[0] ensures CellPos(off, size, gsize, k) == d + (k - pos) {
      LineCell(off, size, gsize, l, k - pos);
    }
  }

  lemma LineInRange(size: IndexArray, l: int)
    requires |size| > 0 && NonNegative(size) && 0 <= l < Volume(size[1..])
    ensures 0 <= size[0] * l && size[0] * l + size[0] <= Volume(size)
  {
    RowFits(size[0], l, Volume(size[1..]));
  }

  method Memcpy(dst: array<Elem>, d: int, src: array<Elem>, s: int, n: int)
    requires n > 0 ==> 0 <= d && d + n <= dst.Length && 0 <= s && s + n <= src.Length
    requires n >= 0 && dst != src
    modifies dst
    ensures forall p | 0 <= p < dst.Length ::
      dst[p] == if d <= p < d + n then src[s + (p - d)] else old(dst[p])
  {
    for i := 0 to n
      invariant forall p | 0 <= p < dst.Length ::
        dst[p] == if d <= p < d + i then src[s + (p - d)] else old(dst[p])
    {
      dst[d + i] := src[s + i];
    }
  }

  // Copies a box of the grid into the buffer at position start, and returns
  // the position just behind it.
  method CopyoutSubgrid(grid: array<Elem>, gridSize: IndexArray, subgrid: array<Elem>, start: nat,
                        subOffset: IndexArray, subSize: IndexArray) returns (end: nat)
    requires BoxIn(subOffset, subSize, gridSize) && grid.Length >= Volume(gridSize)
    requires grid != subgrid && start + Volume(subSize) <= subgrid.Length
    modifies subgrid
    ensures start <= end == start + Volume(subSize) <= subgrid.Length
    ensures subgrid[..start] == old(subgrid[..start]) && subgrid[end..] == old(subgrid[end..])
    ensures subgrid[start..end] == Gather(grid[..], gridSize, subOffset, subSize)
  {
    VolumeSign(subSize);
    VolumeSign(subSize[1..]);
    var offsets := CollectLines(subOffset, subSize);
    var lineSize := subSize[0];
    ghost var g := grid[..];
    end := start;
    for l := 0 to |offsets|
      invariant start <= end == start + lineSize * l <= start + Volume(subSize)
      invariant GatheredPrefix(subgrid[..], start, end - start, g, gridSize, subOffset, subSize)
      invariant forall p | 0 <= p < subgrid.Length && !(start <= p < end) :: subgrid[p] == old(subgrid[p])
    {
      LineInRange(subSize, l);
      var src := LinePosition(subOffset, subSize, gridSize, offsets[l], l);
      ghost var before := subgrid[..];
      Memcpy(subgrid, end, grid, src, lineSize);
      LineContiguous(subOffset, subSize, gridSize, l, end - start);
      GatherLine(before, subgrid[..], start, g, gridSize, subOffset, subSize, end - start, src, lineSize);
      assert lineSize * l + lineSize == lineSize * (l + 1);
      end := end + lineSize;
    }
    assert subgrid[start..end] == Gather(g, gridSize, subOffset, subSize);
  }

  // The first n cells of a box are in the buffer, from position start.
  ghost predicate GatheredPrefix(buf: seq<Elem>, start: nat, n: int, g: seq<Elem>, gsize: IndexArray,
                                 off: IndexArray, size: IndexArray)
    requires |off| == |size| == |gsize|
  {
    start + n <= |buf| && forall k | 0 <= k < n :: buf[start + k] == At(g, CellPos(off, size, gsize, k))
  }

  lemma GatherLine(before: seq<Elem>, after: seq<Elem>, start: nat, g: seq<Elem>, gsize: IndexArray,
                   off: IndexArray, size: IndexArray, pos: nat, src: int, n: nat)
    requires |off| == |size| == |gsize| && |before| == |after| && start + pos + n <= |after|
    requires GatheredPrefix(before, start, pos, g, gsize, off, size)
    requires Contiguous(off, size, gsize, pos, src, n)
    requires forall p | 0 <= p < |after| ::
      after[p] == if start + pos <= p < start + pos + n then At(g, src + (p - (start + pos))) else before[p]
    ensures GatheredPrefix(after, start, pos + n, g, gsize, off, size)
  {
    forall k | 0 <= k < pos + n ensures after[start + k] == At(g, CellPos(off, size, gsize, k)) {
      if k < pos {
        assert before[start + k] == At(g, CellPos(off, size, gsize, k));
      }
    }
  }

  // Position of a worklist entry in the grid, inside the grid together with
  // its whole line.
  method LinePosition(off: IndexArray, size: IndexArray, gsize: IndexArray, offset: IndexArray, ghost l: int)
    returns (src: int)
    requires BoxIn(off, size, gsize) && 0 <= l < Volume(size[1..]) && offset == LineStart(off, size, l)
    ensures src == Lin(LineStart(off, size, l), gsize)
    ensures size[0] > 0 ==> 0 <= src && src + size[0] <= Volume(gsize)
  {
    src := LinearOffset(offset, gsize);
    if size[0] > 0 {
      LineInRange(size, l);
      var pos := size[0] * l;
      LineContiguous(off, size, gsize, l, pos);
      CellPosInBox(off, size, gsize, pos);
      CellPosInBox(off, size, gsize, pos + size[0] - 1);
    }
  }

  // Copies a buffer into a box of the grid.
  method CopyinSubgrid(grid: array<Elem>, gridSize: IndexArray, subgrid: array<Elem>,
                       subOffset: IndexArray, subSize: IndexArray)
    requires BoxIn(subOffset, subSize, gridSize) && grid.Length == Volume(gridSize)
    requires grid != subgrid && Volume(subSize) <= subgrid.Length
    modifies grid
    ensures grid[..] == Scatter(old(grid[..]), gridSize, subOffset, subSize, subgrid[..])
  {
    VolumeSign(subSize);
    VolumeSign(subSize[1..]);
    var offsets := CollectLines(subOffset, subSize);
    var lineSize := subSize[0];
    ghost var g, buf := grid[..], subgrid[..];
    var pos: int := 0;
    ScatterNone(g, gridSize, subOffset, subSize, buf);
    for l := 0 to |offsets|
      invariant pos == lineSize * l
      invariant grid[..] == ScatterPrefix(g, gridSize, subOffset, subSize, buf, pos)
    {
      LineInRange(subSize, l);
      var dst := LinePosition(subOffset, subSize, gridSize, offsets[l], l);
      ghost var before := grid[..];
      Memcpy(grid, dst, subgrid, pos, lineSize);
      LineContiguous(subOffset, subSize, gridSize, l, pos);
      ScatterLine(before, grid[..], g, gridSize, subOffset, subSize, buf, pos, dst, lineSize);
      assert lineSize * l + lineSize == lineSize * (l + 1);
      pos := pos + lineSize;
    }
  }

  // The line that was copied is exactly the difference between two prefixes.
  lemma ScatterLine(before: seq<Elem>, after: seq<Elem>, g: seq<Elem>, gsize: IndexArray,
                    off: IndexArray, size: IndexArray, buf: seq<Elem>, pos: nat, d: int, n: nat)
    requires BoxIn(off, size, gsize) && |g| == Volume(gsize) == |after|
    requires pos + n <= Volume(size) && Contiguous(off, size, gsize, pos, d, n)
    requires before == ScatterPrefix(g, gsize, off, size, buf, pos)
    requires forall p | 0 <= p < |after| ::
      after[p] == if d <= p < d + n then At(buf, pos + (p - d)) else before[p]
    ensures after == ScatterPrefix(g, gsize, off, size, buf, pos + n)
  {
    var goal := ScatterPrefix(g, gsize, off, size, buf, pos + n);
    forall p | 0 <= p < |g| ensures after[p] == goal[p] {
      ScatterLineAt(g, gsize, off, size, buf, pos, d, n, p);
    }
  }

  lemma ScatterLineAt(g: seq<Elem>, gsize: IndexArray, off: IndexArray, size: IndexArray,
                      buf: seq<Elem>, pos: nat, d: int, n: nat, p: int)
    requires BoxIn(off, size, gsize) && |g| == Volume(gsize) && 0 <= p < |g|
    requires pos + n <= Volume(size) && Contiguous(off, size, gsize, pos, d, n)
    ensures ScatterPrefix(g, gsize, off, size, buf, pos + n)[p]
         == if d <= p < d + n then At(buf, pos + (p - d)) else ScatterPrefix(g, gsize, off, size, buf, pos)[p]
  {
    if d <= p < d + n {
      assert CellPos(off, size, gsize, pos + (p - d)) == p;
      CellPosInBox(off, size, gsize, pos + (p - d));
    } else if PosInBox(p, off, size, gsize) {
      NotOnLine(gsize, off, size, pos, d, n, p);
    }
  }

  // A cell of the box that is not on the line is not one of the copied ones.
  lemma NotOnLine(gsize: IndexArray, off: IndexArray, size: IndexArray, pos: nat, d: int, n: nat, p: int)
    requires BoxIn(off, size, gsize) && 0 <= p < Volume(gsize) && PosInBox(p, off, size, gsize)
    requires Contiguous(off, size, gsize, pos, d, n) && !(d <= p < d + n)
    ensures !(pos <= BoxRank(p, off, size, gsize) < pos + n)
  {
    RankDeterminesPos(p, off, size, gsize);
  }
}
