// Reading one cell of a distributed grid on the master (Master::GridGet in
// runtime/rpc_mpi.cc): LoadSubgrid fetches the cell, GridMPI::GetAddress
// finds it.
module GridGet {
  import opened MixedRadix
  import opened Subgrid
  import opened RemoteGrid
  import opened Decomposition
  import opened GridSpace
  import opened LoadProtocol
  import opened LoadResult

  // What LoadSubgrid leaves behind on process p at the end s of a round: a
  // process that sent requests turns to its remote grid, another changes
  // nothing.
  ghost function RemoteAfter(r: Round, s: State, p: nat, remote: Remote): Remote
    requires p < |r| && p < |s.procs|
  {
    if r[p].requests == [] then remote else Remote(true, r[p].remoteOffset, r[p].remoteSize, s.procs[p].remote)
  }

  // The same, told from the global grid (RoundLeaves).
  ghost function AfterLoad(c: Config, g: seq<Elem>, me: int, remote: Remote, lo: IndexArray, size: IndexArray): Remote
    requires c.Valid() && |lo| == |size| == |c.gsize| && NonNegative(size)
  {
    if HoldsAll(c, me, lo, size) then remote else Remote(true, lo, size, Gather(g, c.gsize, lo, size))
  }

  // What a get at that index returns.
  ghost function GetValue(data: seq<Elem>, offset: IndexArray, size: IndexArray, remote: Remote, index: IndexArray): Elem
    requires |index| == |offset| == |size| == |remote.offset| == |remote.size|
  {
    var place := GetAddress(remote, offset, size, index);
    if place.InRemote? then At(remote.data, place.pos) else At(data, place.pos)
  }

  // At the end of every run of a round, when process p has left, both agree.
  lemma RoundLeaves(c: Config, g: seq<Elem>, r: Round, plans: seq<seq<FetchInfo>>, run: seq<State>, p: nat, remote: Remote)
    requires c.Valid() && LoadRound(c, g, r, plans) && p < |r|
    requires Run(r, run) && p < |run[|run| - 1].procs| && run[|run| - 1].procs[p].ctl == Out
    ensures LoadsFrom(c, g, r, p, plans[p]) && NonNegative(r[p].remoteSize)
    ensures RemoteAfter(r, run[|run| - 1], p, remote)
         == AfterLoad(c, g, p, remote, r[p].remoteOffset, r[p].remoteSize)
  {
    assert LoadsFrom(c, g, r, p, plans[p]);
    RequestsNothingIff(c, p, r[p].remoteOffset, r[p].remoteSize, plans[p]);
    if r[p].requests != [] {
      LoadDelivers(c, g, r, plans, run, p);
    }
  }

  // The value GridGet returns on process me, told from the global grid.
  ghost function Get(c: Config, g: seq<Elem>, me: int, remote: Remote, index: IndexArray): Elem
    requires c.Valid() && c.IsRank(me) && InBox(index, c.gsize)
    requires |remote.offset| == |remote.size| == |c.gsize|
  {
    RankBijection(c, me, c.ProcIndex(me));
    var idx := c.ProcIndex(me);
    BoxInside(c, idx);
    GetValue(Gather(g, c.gsize, c.Offset(idx), c.Size(idx)), c.Offset(idx), c.Size(idx),
             AfterLoad(c, g, me, remote, index, Ones(|index|)), index)
  }

  lemma UnitHolds(c: Config, me: int, index: IndexArray)
    requires c.Valid() && c.IsRank(me) && InBox(index, c.gsize)
    ensures HoldsAll(c, me, index, Ones(|index|)) <==> c.Owner(index) == me
  {
    OwnerUnique(c, index, me);
    RankBijection(c, me, c.ProcIndex(me));
    assert InBox(Sub(index, index), Ones(|index|));
    if c.Owner(index) == me {
      forall v: IndexArray | InBox(v, c.gsize) && InBox(Sub(v, index), Ones(|index|)) ensures v == index {
        forall d | 0 <= d < |v| ensures v[d] == index[d] {
          assert 0 <= Sub(v, index)[d] < 1;
        }
      }
    }
  }

  lemma LocalGather(c: Config, g: seq<Elem>, me: int, index: IndexArray)
    requires c.Valid() && c.IsRank(me) && InBox(index, c.gsize) && c.Owner(index) == me
    ensures var idx := c.ProcIndex(me);
      && InBox(idx, c.psize) && NonNegative(c.Size(idx))
      && At(Gather(g, c.gsize, c.Offset(idx), c.Size(idx)), Lin(Sub(index, c.Offset(idx)), c.Size(idx)))
         == At(g, Lin(index, c.gsize))
  {
    var idx := c.ProcIndex(me);
    OwnerUnique(c, index, me);
    BoxInside(c, idx);
    GatherAt(g, c.gsize, c.Offset(idx), c.Size(idx), Sub(index, c.Offset(idx)));
    AddSub(index, c.Offset(idx));
  }

  lemma GetAfterLoad(c: Config, g: seq<Elem>, me: int, remote: Remote, index: IndexArray)
    requires c.Valid() && c.IsRank(me) && InBox(index, c.gsize) && |g| == Volume(c.gsize)
    requires |remote.offset| == |remote.size| == |c.gsize| && !(remote.active && c.Owner(index) == me)
    ensures Get(c, g, me, remote, index) == At(g, Lin(index, c.gsize))
  {
    UnitHolds(c, me, index);
    if c.Owner(index) == me {
      LocalGather(c, g, me, index);
    } else {
      UnitGather(c.gsize, g, index);
    }
  }

  // One get: process me asks for one cell in a round of LoadSubgrid, in which
  // the others may ask for anything (clients ask for an empty box), and then
  // reads the cell. Unless me owns the cell and still reads through its
  // remote grid, every run of the round gives it the value of the global grid.
  lemma GetIsGlobal(c: Config, g: seq<Elem>, r: Round, plans: seq<seq<FetchInfo>>, run: seq<State>,
                    me: nat, remote: Remote, index: IndexArray)
    requires c.Valid() && LoadRound(c, g, r, plans) && me < |r| && InBox(index, c.gsize)
    requires r[me].remoteOffset == index && r[me].remoteSize == Ones(|index|)
    requires Run(r, run) && me < |run[|run| - 1].procs| && run[|run| - 1].procs[me].ctl == Out
    requires |remote.offset| == |remote.size| == |c.gsize| && !(remote.active && c.Owner(index) == me)
    ensures var after := RemoteAfter(r, run[|run| - 1], me, remote);
      && |index| == |r[me].offset| == |r[me].size| == |after.offset| == |after.size|
      && GetValue(r[me].data, r[me].offset, r[me].size, after, index) == At(g, Lin(index, c.gsize))
  {
    RoundLeaves(c, g, r, plans, run, me, remote);
    GetAfterLoad(c, g, me, remote, index);
  }

  lemma GetStays(c: Config, g: seq<Elem>, me: int, remote: Remote, index: IndexArray)
    requires c.Valid() && c.IsRank(me) && InBox(index, c.gsize) && remote.active && c.Owner(index) == me
    requires |remote.offset| == |remote.size| == |c.gsize|
    ensures Get(c, g, me, remote, index) == At(remote.data, Lin(Sub(index, remote.offset), remote.size))
  {
    UnitHolds(c, me, index);
  }

  // remote_grid_active is not cleared after a get. A process that has fetched
  // the cell prev and then gets an own cell reads the stale remote grid: the
  // fetched cell, or past the end of its one-cell buffer, for which 0 stands.
  lemma StaleGet(c: Config, me: int, prev: IndexArray, index: IndexArray)
    requires c.Valid() && c.IsRank(me) && InBox(index, c.gsize) && InBox(prev, c.gsize) && prev != index
    requires c.Owner(index) == me
    ensures var g := OneHot(c.gsize, index);
      Get(c, g, me, AfterFetch(true, g, c.gsize, prev), index) == 0.0 && At(g, Lin(index, c.gsize)) == 1.0
  {
    var g := OneHot(c.gsize, index);
    OneHotAt(c.gsize, index, index);
    OtherCellFetched(c.gsize, prev, index);
    GetStays(c, g, me, AfterFetch(true, g, c.gsize, prev), index);
  }

  // The cell was fetched before, from another process; the remote grid is
  // whatever that left behind. A get is right for every grid exactly if it
  // does not find the remote grid active on the owner of the cell.
  lemma GetIsRightIff(c: Config, me: int, active: bool, prev: IndexArray, index: IndexArray)
    requires c.Valid() && c.IsRank(me) && InBox(index, c.gsize) && InBox(prev, c.gsize) && c.Owner(prev) != me
    ensures !(active && c.Owner(index) == me)
       <==> forall g: seq<Elem> | |g| == Volume(c.gsize) ::
              Get(c, g, me, AfterFetch(active, g, c.gsize, prev), index) == At(g, Lin(index, c.gsize))
  {
    if active && c.Owner(index) == me {
      StaleGet(c, me, prev, index);
      assert |OneHot(c.gsize, index)| == Volume(c.gsize);
    } else {
      forall g: seq<Elem> | |g| == Volume(c.gsize)
        ensures Get(c, g, me, AfterFetch(active, g, c.gsize, prev), index) == At(g, Lin(index, c.gsize))
      {
        GetAfterLoad(c, g, me, AfterFetch(active, g, c.gsize, prev), index);
      }
    }
  }
}
