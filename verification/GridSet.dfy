// Setting one cell of a distributed grid (Master::GridSet and Client::GridSet
// in runtime/rpc_mpi.cc): the owner writes through GridMPI::GetAddress
// (Grid::Set in runtime/grid.cc), and thus into its remote grid while that is
// active.
module GridSet {
  import opened MixedRadix
  import opened Subgrid
  import opened RemoteGrid
  import opened Decomposition
  import opened Geometry
  import opened HaloExchange
  import opened Refinement
  import GridGet
  import GridSpace
  import LoadProtocol
  import LoadResult

  ghost function Written(s: seq<Elem>, p: int, value: Elem): (r: seq<Elem>)
    ensures |r| == |s|
  {
    if 0 <= p < |s| then s[p := value] else s
  }

  // The state of the owner after the set; past the end of a buffer nothing is
  // modelled.
  ghost function SetLocal(L: Local, offset: IndexArray, index: IndexArray, value: Elem): Local
    requires |index| == |offset| == |L.size| == |L.remote.offset| == |L.remote.size|
  {
    var place := GetAddress(L.remote, offset, L.size, index);
    if place.InRemote? then L.(remote := L.remote.(data := Written(L.remote.data, place.pos, value)))
    else L.(data := Written(L.data, place.pos, value))
  }

  ghost function SetCell(geo: Geometry, w: World, owner: nat, index: IndexArray, value: Elem): (w': World)
    requires geo.Shape() && GridShape(geo, w) && geo.IsRank(owner) && |index| == |geo.gsize|
    ensures GridShape(geo, w')
  {
    w[owner := SetLocal(w[owner], geo.offset[owner], index, value)]
  }

  // The global grid with the cell set.
  ghost function SetGlobal(gsize: IndexArray, g: seq<Elem>, index: IndexArray, value: Elem): (g': seq<Elem>)
    requires |index| == |gsize|
    ensures |g'| == |g|
  {
    Written(g, Lin(index, gsize), value)
  }

  lemma GlobalSet(gsize: IndexArray, g: seq<Elem>, index: IndexArray, value: Elem, v: IndexArray)
    requires InBox(index, gsize) && InBox(v, gsize) && |g| == Volume(gsize)
    ensures At(SetGlobal(gsize, g, index, value), Lin(v, gsize)) == if v == index then value else At(g, Lin(v, gsize))
  {
    LinInRange(index, gsize);
    LinInRange(v, gsize);
    if Lin(v, gsize) == Lin(index, gsize) {
      LinInjective(v, index, gsize);
    }
  }

  lemma OwnIndex(geo: Geometry, owner: nat, index: IndexArray, r: nat, v: IndexArray)
    requires geo.Valid() && geo.Tiles() && geo.IsRank(owner) && geo.IsRank(r) && InBox(index, geo.gsize)
    requires geo.Holds(owner, index) && InBox(v, geo.size[r])
    ensures InBox(Add(geo.offset[r], v), geo.gsize)
    ensures Add(geo.offset[r], v) == index <==> r == owner && v == Sub(index, geo.offset[owner])
  {
    var x := Add(geo.offset[r], v);
    OwnPointInGrid(geo, r, v);
    assert Sub(x, geo.offset[r]) == v;
    assert geo.Holds(r, x);
    AddSub(index, geo.offset[owner]);
  }

  lemma SetAt(geo: Geometry, w: World, g: seq<Elem>, owner: nat, index: IndexArray, value: Elem, r: nat, v: IndexArray)
    requires geo.Valid() && geo.Tiles() && GridShape(geo, w) && |g| == Volume(geo.gsize) && Holding(geo, w, g)
    requires geo.IsRank(owner) && InBox(index, geo.gsize) && geo.Holds(owner, index) && !w[owner].remote.active
    requires geo.IsRank(r) && InBox(v, geo.size[r])
    ensures At(SetCell(geo, w, owner, index, value)[r].data, Lin(v, geo.size[r]))
         == At(SetGlobal(geo.gsize, g, index, value), Lin(Add(geo.offset[r], v), geo.gsize))
  {
    var x, u := Add(geo.offset[r], v), Sub(index, geo.offset[owner]);
    OwnIndex(geo, owner, index, r, v);
    LinInRange(x, geo.gsize);
    LinInRange(index, geo.gsize);
    LinInRange(v, geo.size[r]);
    LinInRange(u, geo.size[owner]);
    if x != index && Lin(x, geo.gsize) == Lin(index, geo.gsize) {
      LinInjective(x, index, geo.gsize);
    }
    if r == owner && v != u && Lin(v, geo.size[r]) == Lin(u, geo.size[r]) {
      LinInjective(v, u, geo.size[r]);
    }
  }

  // Unless the owner's remote grid is active, setting a cell on its owner sets
  // it in the global grid and nothing else.
  lemma SetRefines(geo: Geometry, w: World, g: seq<Elem>, owner: nat, index: IndexArray, value: Elem)
    requires geo.Valid() && geo.Tiles() && GridShape(geo, w) && |g| == Volume(geo.gsize) && Holding(geo, w, g)
    requires geo.IsRank(owner) && InBox(index, geo.gsize) && geo.Holds(owner, index) && !w[owner].remote.active
    ensures Holding(geo, SetCell(geo, w, owner, index, value), SetGlobal(geo.gsize, g, index, value))
  {
    var w', g' := SetCell(geo, w, owner, index, value), SetGlobal(geo.gsize, g, index, value);
    forall r, v | 0 <= r < |w'| && InBox(v, geo.size[r])
      ensures At(w'[r].data, Lin(v, geo.size[r])) == At(g', Lin(Add(geo.offset[r], v), geo.gsize))
    {
      SetAt(geo, w, g, owner, index, value, r, v);
    }
  }

  // With an active remote grid on the owner no process's cells change, so that
  // a set that should change something is lost.
  lemma StaleSet(geo: Geometry, w: World, g: seq<Elem>, owner: nat, index: IndexArray, value: Elem)
    requires geo.Valid() && GridShape(geo, w) && |g| == Volume(geo.gsize) && Holding(geo, w, g)
    requires geo.IsRank(owner) && InBox(index, geo.gsize) && geo.Holds(owner, index)
    requires w[owner].remote.active && At(g, Lin(index, geo.gsize)) != value
    ensures Holding(geo, SetCell(geo, w, owner, index, value), g)
    ensures !Holding(geo, SetCell(geo, w, owner, index, value), SetGlobal(geo.gsize, g, index, value))
  {
    var w', g' := SetCell(geo, w, owner, index, value), SetGlobal(geo.gsize, g, index, value);
    forall r, v | 0 <= r < |w'| && InBox(v, geo.size[r])
      ensures At(w'[r].data, Lin(v, geo.size[r])) == At(g, Lin(Add(geo.offset[r], v), geo.gsize))
    {
      assert w'[r].data == w[r].data;
    }
    var u := Sub(index, geo.offset[owner]);
    AddSub(index, geo.offset[owner]);
    LinInRange(index, geo.gsize);
    assert At(g', Lin(Add(geo.offset[owner], u), geo.gsize)) == value;
    assert At(w'[owner].data, Lin(u, geo.size[owner])) != value;
  }

  ghost predicate SetsRight(geo: Geometry, w: World, g: seq<Elem>, owner: nat, index: IndexArray, value: Elem)
    requires geo.Shape() && GridShape(geo, w) && geo.IsRank(owner) && |index| == |geo.gsize|
  {
    Holding(geo, SetCell(geo, w, owner, index, value), SetGlobal(geo.gsize, g, index, value))
  }

  // Whatever the remote grid of the owner, a set of one of its cells is right
  // for every grid and value exactly if the remote grid is not active.
  lemma SetIsRightIff(geo: Geometry, owner: nat, index: IndexArray, remote: Remote)
    requires geo.Valid() && geo.Tiles() && geo.IsRank(owner) && InBox(index, geo.gsize) && geo.Holds(owner, index)
    requires |remote.offset| == |remote.size| == |geo.gsize|
    ensures !remote.active <==> forall w: World, g: seq<Elem>, value |
      GridShape(geo, w) && |g| == Volume(geo.gsize) && Holding(geo, w, g) && w[owner].remote == remote ::
      SetsRight(geo, w, g, owner, index, value)
  {
    if !remote.active {
      forall w: World, g: seq<Elem>, value |
        GridShape(geo, w) && |g| == Volume(geo.gsize) && Holding(geo, w, g) && w[owner].remote == remote
        ensures SetsRight(geo, w, g, owner, index, value)
      {
        SetRefines(geo, w, g, owner, index, value);
      }
    } else {
      var g := OneHot(geo.gsize, index);
      var w := WorldWith(geo, g, owner, remote);
      OneHotAt(geo.gsize, index, index);
      StaleSet(geo, w, g, owner, index, 0.0);
      assert !SetsRight(geo, w, g, owner, index, 0.0);
    }
  }

  lemma WorldWith(geo: Geometry, g: seq<Elem>, owner: nat, remote: Remote) returns (w: World)
    requires geo.Valid() && geo.IsRank(owner) && |g| == Volume(geo.gsize)
    requires |remote.offset| == |remote.size| == |geo.gsize|
    ensures GridShape(geo, w) && Holding(geo, w, g) && w[owner].remote == remote
  {
    var none := seq(|geo.gsize|, d => 0);
    var e := Exchange(geo, none, none, false, false);
    var parts := PartWorld(geo, g, false);
    PartWorldHolds(e, g, false);
    w := parts[owner := parts[owner].(remote := remote)];
    forall r: nat | r < |w| ensures |w[r].data| == Volume(geo.size[r]) {
      CellsPositive(geo, r);
    }
  }

  // A get of another process's cell, and then a set of an own cell, on the
  // same process: every run of the round that the get takes part in leaves the
  // remote grid active, and the set is lost.
  lemma GetThenSet(c: Config, g: seq<Elem>, r: LoadProtocol.Round, plans: seq<seq<GridSpace.FetchInfo>>,
                   run: seq<LoadProtocol.State>, me: nat, before: Remote, w: World, index: IndexArray, value: Elem)
    requires c.Valid() && LoadResult.LoadRound(c, g, r, plans) && me < |r|
    requires LoadProtocol.Run(r, run) && me < |run[|run| - 1].procs| && run[|run| - 1].procs[me].ctl == LoadProtocol.Out
    requires InBox(r[me].remoteOffset, c.gsize) && r[me].remoteSize == Ones(|c.gsize|) && c.Owner(r[me].remoteOffset) != me
    requires InBox(index, c.gsize) && c.Owner(index) == me && At(g, Lin(index, c.gsize)) != value
    requires GridShape(Of(c), w) && Holding(Of(c), w, g) && me < |w|
    requires w[me].remote == GridGet.RemoteAfter(r, run[|run| - 1], me, before)
    ensures Of(c).IsRank(me) && !SetsRight(Of(c), w, g, me, index, value)
  {
    GeometryOfConfig(c);
    GridGet.RoundLeaves(c, g, r, plans, run, me, before);
    GridGet.UnitHolds(c, me, r[me].remoteOffset);
    OwnerUnique(c, index, me);
    StaleSet(Of(c), w, g, me, index, value);
  }
}
