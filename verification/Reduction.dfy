// Reducing a distributed grid to one value (ReduceGrid in
// runtime/grid_mpi.cc with the operations of runtime/reduce.h): every process
// folds its part, the results are combined, and a process without cells
// contributes the default value of the operation. Arithmetic is exact.
module Reduction {
  import opened MixedRadix
  import opened Subgrid
  import opened Geometry
  import opened Rpc

  datatype Op = Max | Min | Sum | Prod

  // The largest float, and the smallest positive normalized one.
  const FLT_MAX: real := 340282346638528859811704183484516925440.0
  const FLT_MIN: real := 1.0 / 85070591730234615865843651857942052864.0

  // GetReducer.
  function Apply(op: Op, x: Elem, y: Elem): Elem {
    match op
    case Max => if x > y then x else y
    case Min => if x < y then x else y
    case Sum => x + y
    case Prod => x * y
  }

  // GetReductionDefaultValue for floats, which is used for doubles, too.
  function DefaultValue(op: Op): Elem {
    match op case Max => FLT_MIN case Min => FLT_MAX case Sum => 0.0 case Prod => 1.0
  }

  // ------------------------------------------------ values and their absence

  datatype Option = None | Some(value: Elem)

  function Join(op: Op, x: Option, y: Option): Option {
    match (x, y)
    case (None, _) => y
    case (_, None) => x
    case (Some(a), Some(b)) => Some(Apply(op, a, b))
  }

  lemma JoinCommutes(op: Op, x: Option, y: Option)
    ensures Join(op, x, y) == Join(op, y, x)
  {
  }

  lemma JoinAssociates(op: Op, x: Option, y: Option, z: Option)
    ensures Join(op, Join(op, x, y), z) == Join(op, x, Join(op, y, z))
  {
    if op == Prod && x.Some? && y.Some? && z.Some? {
      assert (x.value * y.value) * z.value == x.value * (y.value * z.value);
    }
  }

  lemma JoinSwap(op: Op, a: Option, b: Option, c: Option, d: Option)
    ensures Join(op, Join(op, a, b), Join(op, c, d)) == Join(op, Join(op, a, c), Join(op, b, d))
  {
    JoinAssociates(op, a, b, Join(op, c, d));
    JoinAssociates(op, b, c, d);
    JoinCommutes(op, b, c);
    JoinAssociates(op, c, b, d);
    JoinAssociates(op, a, c, Join(op, b, d));
  }

  // A table of values: row r, column p.
  type Table = (nat, nat) -> Option

  // Row r, over the first n columns; all of the first m rows.
  ghost function FoldRow(op: Op, t: Table, r: nat, n: nat): Option {
    if n == 0 then None else Join(op, FoldRow(op, t, r, n - 1), t(r, n - 1))
  }

  ghost function FoldRows(op: Op, t: Table, m: nat, n: nat): Option {
    if m == 0 then None else Join(op, FoldRows(op, t, m - 1, n), FoldRow(op, t, m - 1, n))
  }

  ghost function FoldColumn(op: Op, t: Table, m: nat, p: nat): Option {
    if m == 0 then None else Join(op, FoldColumn(op, t, m - 1, p), t(m - 1, p))
  }

  ghost function FoldColumns(op: Op, t: Table, m: nat, n: nat): Option {
    if n == 0 then None else Join(op, FoldColumns(op, t, m, n - 1), FoldColumn(op, t, m, n - 1))
  }

  lemma {:induction false} ColumnsOneMore(op: Op, t: Table, m: nat, n: nat)
    ensures FoldColumns(op, t, m + 1, n) == Join(op, FoldColumns(op, t, m, n), FoldRow(op, t, m, n))
  {
    if n > 0 {
      ColumnsOneMore(op, t, m, n - 1);
      JoinSwap(op, FoldColumns(op, t, m, n - 1), FoldRow(op, t, m, n - 1), FoldColumn(op, t, m, n - 1), t(m, n - 1));
    }
  }

  lemma {:induction false} ColumnsOfNothing(op: Op, t: Table, n: nat)
    ensures FoldColumns(op, t, 0, n) == None
  {
    if n > 0 {
      ColumnsOfNothing(op, t, n - 1);
    }
  }

  // Rows first or columns first, the result is the same.
  lemma {:induction false} FoldSwap(op: Op, t: Table, m: nat, n: nat)
    ensures FoldRows(op, t, m, n) == FoldColumns(op, t, m, n)
  {
    if m == 0 {
      ColumnsOfNothing(op, t, n);
    } else {
      FoldSwap(op, t, m - 1, n);
      ColumnsOneMore(op, t, m - 1, n);
    }
  }

  lemma {:induction false} RowOneHot(op: Op, t: Table, r: nat, n: nat, p: nat)
    requires forall q | 0 <= q < n && q != p :: t(r, q) == None
    ensures FoldRow(op, t, r, n) == if p < n then t(r, p) else None
  {
    if n > 0 {
      RowOneHot(op, t, r, n - 1, p);
    }
  }

  lemma {:induction false} ColumnOneHot(op: Op, t: Table, m: nat, p: nat, r: nat)
    requires forall q | 0 <= q < m && q != r :: t(q, p) == None
    ensures FoldColumn(op, t, m, p) == if r < m then t(r, p) else None
  {
    if m > 0 {
      ColumnOneHot(op, t, m - 1, p, r);
    }
  }

  // --------------------------------------------------------- the local fold

  ghost function Fold(op: Op, s: seq<Elem>): Option {
    if |s| == 0 then None else Join(op, Fold(op, s[..|s| - 1]), Some(s[|s| - 1]))
  }

  // ReduceGridMPI: nothing without cells, otherwise the fold from the left.
  method ReduceGridMPI(op: Op, d: seq<Elem>) returns (nelms: nat, out: Elem)
    ensures nelms == |d|
    ensures nelms == 0 <==> Fold(op, d) == None
    ensures nelms > 0 ==> Fold(op, d) == Some(out)
    ensures nelms > 0 ==> match op
      case Max => Extreme(Max, d, out)
      case Min => Extreme(Min, d, out)
      case Sum => out == SumOf(d)
      case Prod => out == ProductOf(d)
  {
    nelms, out := |d|, 0.0;
    if nelms == 0 {
      return;
    }
    out := d[0];
    assert d[..1] == [d[0]] && Fold(op, d[..1]) == Join(op, Fold(op, []), Some(d[0]));
    for i := 1 to |d|
      invariant Fold(op, d[..i]) == Some(out)
    {
      assert d[..i + 1][..i] == d[..i];
      out := Apply(op, out, d[i]);
    }
    assert d[..|d|] == d;
    FoldTotal(d);
    if op == Max || op == Min {
      FoldExtreme(op, d);
    }
  }

  // What the fold of a sum and of a product is, one cell at a time.
  lemma FoldStep(op: Op, s: seq<Elem>, v: Elem)
    ensures Fold(op, []) == None && Fold(op, [v]) == Some(v)
    ensures s != [] && op == Sum ==> Fold(op, s).Some? && Fold(op, s + [v]) == Some(Fold(op, s).value + v)
    ensures s != [] && op == Prod ==> Fold(op, s).Some? && Fold(op, s + [v]) == Some(Fold(op, s).value * v)
  {
    FoldOfCells(op, s);
    assert (s + [v])[..|s|] == s;
  }

  // v is a greatest, or least, cell.
  ghost predicate Extreme(op: Op, s: seq<Elem>, v: Elem) {
    v in s && forall x | x in s :: if op == Max then x <= v else v <= x
  }

  // The fold of a maximum, or minimum, is the greatest, or least, cell.
  lemma {:induction false} FoldExtreme(op: Op, s: seq<Elem>)
    requires (op == Max || op == Min) && s != []
    ensures Fold(op, s).Some? && Extreme(op, s, Fold(op, s).value)
  {
    var n := |s| - 1;
    assert s == s[..n] + [s[n]];
    if n > 0 {
      FoldExtreme(op, s[..n]);
    } else {
      assert Fold(op, s[..n]) == None;
    }
  }

  // What a process contributes.
  ghost function Contribution(op: Op, s: seq<Elem>): Elem {
    match Fold(op, s) case None => DefaultValue(op) case Some(v) => v
  }

  // The results of all processes combined.
  ghost function Combined(op: Op, parts: seq<seq<Elem>>, m: nat): Option
    requires m <= |parts|
  {
    if m == 0 then None else Join(op, Combined(op, parts, m - 1), Some(Contribution(op, parts[m - 1])))
  }

  // The same without the contributions of processes that have no cells.
  ghost function Present(op: Op, parts: seq<seq<Elem>>, m: nat): Option
    requires m <= |parts|
  {
    if m == 0 then None else Join(op, Present(op, parts, m - 1), Fold(op, parts[m - 1]))
  }

  ghost predicate SomeEmpty(parts: seq<seq<Elem>>, m: nat)
    requires m <= |parts|
  {
    exists r :: 0 <= r < m && parts[r] == []
  }

  lemma {:induction false} FoldOfCells(op: Op, s: seq<Elem>)
    ensures Fold(op, s) == None <==> s == []
  {
    if |s| > 0 {
      FoldOfCells(op, s[..|s| - 1]);
    }
  }

  // An empty process adds the default value, once or often.
  lemma DefaultTwice(op: Op)
    ensures Apply(op, DefaultValue(op), DefaultValue(op)) == DefaultValue(op)
  {
  }

  lemma {:induction false} CombinedIsPresent(op: Op, parts: seq<seq<Elem>>, m: nat)
    requires m <= |parts|
    ensures Combined(op, parts, m)
         == if SomeEmpty(parts, m) then Join(op, Present(op, parts, m), Some(DefaultValue(op))) else Present(op, parts, m)
  {
    if m > 0 {
      var last, dflt := parts[m - 1], Some(DefaultValue(op));
      CombinedIsPresent(op, parts, m - 1);
      FoldOfCells(op, last);
      DefaultTwice(op);
      JoinAssociates(op, Present(op, parts, m - 1), dflt, dflt);
      JoinAssociates(op, Present(op, parts, m - 1), dflt, Fold(op, last));
      JoinCommutes(op, dflt, Fold(op, last));
      JoinAssociates(op, Present(op, parts, m - 1), Fold(op, last), dflt);
      assert SomeEmpty(parts, m) <==> SomeEmpty(parts, m - 1) || last == [] by {
        if last == [] {
          assert parts[m - 1] == [];
        }
        if SomeEmpty(parts, m - 1) {
          var r :| 0 <= r < m - 1 && parts[r] == [];
          assert parts[r] == [];
        }
      }
    }
  }

  // ------------------------------------------------ regrouping by process

  // Row k, column p: cell p of the grid, if it is the k-th cell of the box.
  ghost function BoxTable(geo: Geometry, g: seq<Elem>, r: nat): Table
    requires geo.Shape() && r < |geo.offset|
  {
    (k: nat, p: nat) =>
      if k < Volume(geo.size[r]) && p < |g| && CellPos(geo.offset[r], geo.size[r], geo.gsize, k) == p
      then Some(g[p]) else None
  }

  // Row r, column p: cell p of the grid, if process r holds it.
  ghost function RankTable(geo: Geometry, g: seq<Elem>): Table
    requires geo.Shape()
  {
    (r: nat, p: nat) => if r < |geo.offset| && p < |g| && Writes(geo, r, p) then Some(g[p]) else None
  }

  lemma {:induction false} BoxRows(op: Op, geo: Geometry, g: seq<Elem>, r: nat, n: nat)
    requires geo.Shape() && BoxesIn(geo) && r < |geo.offset| && |g| == Volume(geo.gsize)
    requires n <= |PartOf(geo, g, r)|
    ensures FoldRows(op, BoxTable(geo, g, r), n, |g|) == Fold(op, PartOf(geo, g, r)[..n])
  {
    if n > 0 {
      var part, k := PartOf(geo, g, r), n - 1;
      BoxRows(op, geo, g, r, k);
      CellPosInBox(geo.offset[r], geo.size[r], geo.gsize, k);
      RowOneHot(op, BoxTable(geo, g, r), k, |g|, CellPos(geo.offset[r], geo.size[r], geo.gsize, k));
      assert part[..n][..k] == part[..k];
    }
  }

  // A cell is in the column of its own position only.
  lemma BoxColumn(op: Op, geo: Geometry, g: seq<Elem>, r: nat, p: nat)
    requires geo.Shape() && BoxesIn(geo) && r < |geo.offset| && p < |g| == Volume(geo.gsize)
    ensures Volume(geo.size[r]) >= 0
    ensures FoldColumn(op, BoxTable(geo, g, r), Volume(geo.size[r]), p) == RankTable(geo, g)(r, p)
  {
    VolumeSign(geo.size[r]);
    var off, size, t, n := geo.offset[r], geo.size[r], BoxTable(geo, g, r), Volume(geo.size[r]);
    var k: nat := n;
    if Writes(geo, r, p) {
      RankDeterminesPos(p, off, size, geo.gsize);
      k := BoxRank(p, off, size, geo.gsize);
    }
    forall q: nat | 0 <= q < n && q != k ensures t(q, p) == None {
      CellPosInBox(off, size, geo.gsize, q);
    }
    ColumnOneHot(op, t, n, p, k);
  }

  lemma {:induction false} ColumnsAreRow(op: Op, t: Table, m: nat, u: Table, r: nat, n: nat)
    requires forall p: nat | p < n :: FoldColumn(op, t, m, p) == u(r, p)
    ensures FoldColumns(op, t, m, n) == FoldRow(op, u, r, n)
  {
    if n > 0 {
      ColumnsAreRow(op, t, m, u, r, n - 1);
    }
  }

  lemma BoxColumns(op: Op, geo: Geometry, g: seq<Elem>, r: nat)
    requires geo.Shape() && BoxesIn(geo) && r < |geo.offset| && |g| == Volume(geo.gsize)
    ensures Volume(geo.size[r]) >= 0
    ensures FoldColumns(op, BoxTable(geo, g, r), Volume(geo.size[r]), |g|) == FoldRow(op, RankTable(geo, g), r, |g|)
  {
    VolumeSign(geo.size[r]);
    forall p: nat | p < |g|
      ensures FoldColumn(op, BoxTable(geo, g, r), Volume(geo.size[r]), p) == RankTable(geo, g)(r, p)
    {
      BoxColumn(op, geo, g, r, p);
    }
    ColumnsAreRow(op, BoxTable(geo, g, r), Volume(geo.size[r]), RankTable(geo, g), r, |g|);
  }

  // The fold of a part is the fold of the grid restricted to the part.
  lemma PartFold(op: Op, geo: Geometry, g: seq<Elem>, r: nat)
    requires geo.Shape() && BoxesIn(geo) && r < |geo.offset| && |g| == Volume(geo.gsize)
    ensures Fold(op, PartOf(geo, g, r)) == FoldRow(op, RankTable(geo, g), r, |g|)
  {
    var part := PartOf(geo, g, r);
    BoxRows(op, geo, g, r, |part|);
    FoldSwap(op, BoxTable(geo, g, r), |part|, |g|);
    BoxColumns(op, geo, g, r);
    assert part[..|part|] == part;
  }

  lemma {:induction false} PresentIsRows(op: Op, parts: seq<seq<Elem>>, t: Table, m: nat, n: nat)
    requires m <= |parts| && forall r: nat | r < m :: Fold(op, parts[r]) == FoldRow(op, t, r, n)
    ensures Present(op, parts, m) == FoldRows(op, t, m, n)
  {
    if m > 0 {
      PresentIsRows(op, parts, t, m - 1, n);
    }
  }

  lemma PresentRows(op: Op, geo: Geometry, g: seq<Elem>)
    requires geo.Shape() && BoxesIn(geo) && |g| == Volume(geo.gsize)
    ensures Present(op, AllParts(geo, g), |geo.offset|) == FoldRows(op, RankTable(geo, g), |geo.offset|, |g|)
  {
    var parts := AllParts(geo, g);
    forall r: nat | r < |geo.offset| ensures Fold(op, parts[r]) == FoldRow(op, RankTable(geo, g), r, |g|) {
      PartFold(op, geo, g, r);
    }
    PresentIsRows(op, parts, RankTable(geo, g), |geo.offset|, |g|);
  }

  lemma {:induction false} GridColumns(op: Op, geo: Geometry, g: seq<Elem>, writer: seq<nat>, n: nat)
    requires geo.Shape() && |g| == Volume(geo.gsize) && n <= |g| && Writers(geo, writer)
    ensures FoldColumns(op, RankTable(geo, g), |geo.offset|, n) == Fold(op, g[..n])
  {
    if n > 0 {
      var p := n - 1;
      GridColumns(op, geo, g, writer, p);
      assert OnlyWriter(geo, writer[p], p);
      ColumnOneHot(op, RankTable(geo, g), |geo.offset|, p, writer[p]);
      assert g[..n][..p] == g[..p];
    }
  }

  // Folding the parts and then their results is folding the grid.
  lemma PartsFold(op: Op, geo: Geometry, g: seq<Elem>)
    requires geo.Shape() && geo.Tiles() && BoxesIn(geo) && |g| == Volume(geo.gsize)
    ensures Present(op, AllParts(geo, g), |geo.offset|) == Fold(op, g)
  {
    var writer := WritersUpTo(geo, |g|);
    PresentRows(op, geo, g);
    FoldSwap(op, RankTable(geo, g), |geo.offset|, |g|);
    GridColumns(op, geo, g, writer, |g|);
    assert g[..|g|] == g;
  }

  // The reduction of a distributed grid is the fold of the global grid,
  // joined with the default value of the operation if a process is empty.
  lemma ReduceIsFold(op: Op, geo: Geometry, g: seq<Elem>)
    requires geo.Shape() && geo.Tiles() && BoxesIn(geo) && |g| == Volume(geo.gsize)
    ensures Combined(op, AllParts(geo, g), |geo.offset|)
         == if SomeEmpty(AllParts(geo, g), |geo.offset|) then Join(op, Fold(op, g), Some(DefaultValue(op))) else Fold(op, g)
  {
    CombinedIsPresent(op, AllParts(geo, g), |geo.offset|);
    PartsFold(op, geo, g);
  }

  // The default value does not change the result v.
  predicate WithinDefault(op: Op, v: Elem) {
    match op case Sum => true case Prod => true case Min => v <= FLT_MAX case Max => v >= FLT_MIN
  }

  // The same, told from the cells.
  ghost predicate DefaultHarmless(op: Op, g: seq<Elem>) {
    match op
    case Sum => true
    case Prod => true
    case Min => exists i :: 0 <= i < |g| && g[i] <= FLT_MAX
    case Max => exists i :: 0 <= i < |g| && g[i] >= FLT_MIN
  }

  lemma {:induction false} HarmlessIsWithin(op: Op, s: seq<Elem>)
    requires |s| > 0
    ensures Fold(op, s).Some? && (WithinDefault(op, Fold(op, s).value) <==> DefaultHarmless(op, s))
  {
    var init, last := s[..|s| - 1], s[|s| - 1];
    if |s| > 1 {
      HarmlessIsWithin(op, init);
      forall i | 0 <= i < |init| ensures init[i] == s[i] {
      }
      if DefaultHarmless(op, init) && (op == Min || op == Max) {
        var i :| 0 <= i < |init| && if op == Min then init[i] <= FLT_MAX else init[i] >= FLT_MIN;
        assert s[i] == init[i];
      }
      if DefaultHarmless(op, s) && (op == Min || op == Max) {
        var i :| 0 <= i < |s| && if op == Min then s[i] <= FLT_MAX else s[i] >= FLT_MIN;
        assert i < |init| ==> init[i] == s[i];
      }
    }
  }

  // Some process has an empty box.
  ghost predicate SomeBoxEmpty(geo: Geometry)
    requires geo.Shape()
  {
    exists r, d :: geo.IsRank(r) && 0 <= d < |geo.gsize| && geo.size[r][d] == 0
  }

  lemma EmptyPartIsBox(geo: Geometry, g: seq<Elem>)
    requires geo.Shape() && BoxesIn(geo) && |g| == Volume(geo.gsize)
    ensures SomeEmpty(AllParts(geo, g), |geo.offset|) <==> SomeBoxEmpty(geo)
  {
    forall r | 0 <= r < |geo.offset|
      ensures AllParts(geo, g)[r] == [] <==> exists d :: 0 <= d < |geo.gsize| && geo.size[r][d] == 0
    {
      VolumeSign(geo.size[r]);
      assert |AllParts(geo, g)[r]| == Volume(geo.size[r]);
    }
  }

  // The reduction of a grid with cells is right exactly if no process has an
  // empty box, or the operation is a sum or a product, or some cell is at
  // least as extreme as the default value.
  lemma ReduceIsRightIff(op: Op, geo: Geometry, g: seq<Elem>)
    requires geo.Shape() && geo.Tiles() && BoxesIn(geo) && |g| == Volume(geo.gsize) > 0
    ensures Combined(op, AllParts(geo, g), |geo.offset|) == Fold(op, g) <==> !SomeBoxEmpty(geo) || DefaultHarmless(op, g)
  {
    ReduceIsFold(op, geo, g);
    HarmlessIsWithin(op, g);
    EmptyPartIsBox(geo, g);
  }

  // The reduction of a maximum, or minimum, is the greatest, or least, of the
  // cells, with FLT_MIN, or FLT_MAX, among them if a process has an empty box.
  lemma ReducedExtreme(op: Op, geo: Geometry, g: seq<Elem>)
    requires geo.Shape() && geo.Tiles() && BoxesIn(geo) && |g| == Volume(geo.gsize) > 0 && (op == Max || op == Min)
    ensures var result := Combined(op, AllParts(geo, g), |geo.offset|);
      result.Some?
      && Extreme(op, g + (if !SomeBoxEmpty(geo) then [] else if op == Max then [FLT_MIN] else [FLT_MAX]), result.value)
  {
    ReduceIsFold(op, geo, g);
    EmptyPartIsBox(geo, g);
    var all := g + [DefaultValue(op)];
    assert all[..|g|] == g && g + [] == g;
    FoldExtreme(op, g);
    FoldExtreme(op, all);
  }

  function SumOf(s: seq<Elem>): Elem {
    if s == [] then 0.0 else SumOf(s[..|s| - 1]) + s[|s| - 1]
  }

  function ProductOf(s: seq<Elem>): Elem {
    if s == [] then 1.0 else ProductOf(s[..|s| - 1]) * s[|s| - 1]
  }

  lemma {:induction false} FoldTotal(s: seq<Elem>)
    requires s != []
    ensures Fold(Sum, s) == Some(SumOf(s)) && Fold(Prod, s) == Some(ProductOf(s))
  {
    var init, last := s[..|s| - 1], s[|s| - 1];
    assert s == init + [last];
    FoldStep(Sum, init, last);
    FoldStep(Prod, init, last);
    if init != [] {
      FoldTotal(init);
    }
  }

  // The reduction of a sum, or product, is that of all cells, empty processes
  // or not.
  lemma ReducedTotal(geo: Geometry, g: seq<Elem>)
    requires geo.Shape() && geo.Tiles() && BoxesIn(geo) && |g| == Volume(geo.gsize) > 0
    ensures Combined(Sum, AllParts(geo, g), |geo.offset|) == Some(SumOf(g))
    ensures Combined(Prod, AllParts(geo, g), |geo.offset|) == Some(ProductOf(g))
  {
    ReduceIsRightIff(Sum, geo, g);
    ReduceIsRightIff(Prod, geo, g);
    FoldTotal(g);
  }

  lemma {:induction false} FoldOfConstant(v: Elem, s: seq<Elem>)
    requires |s| > 0 && forall i | 0 <= i < |s| :: s[i] == v
    ensures Fold(Max, s) == Some(v)
  {
    if |s| > 1 {
      FoldOfConstant(v, s[..|s| - 1]);
    } else {
      assert s[..0] == [];
    }
  }

  // The maximum of a grid of zeros, with an empty process, is reported as the
  // smallest positive float.
  lemma MaxOfZeros(geo: Geometry, g: seq<Elem>)
    requires geo.Shape() && geo.Tiles() && BoxesIn(geo) && |g| == Volume(geo.gsize) > 0
    requires SomeBoxEmpty(geo) && forall i | 0 <= i < |g| :: g[i] == 0.0
    ensures Fold(Max, g) == Some(0.0) && Combined(Max, AllParts(geo, g), |geo.offset|) == Some(FLT_MIN)
  {
    FoldOfConstant(0.0, g);
    EmptyPartIsBox(geo, g);
    ReduceIsFold(Max, geo, g);
  }
}
