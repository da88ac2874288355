// The remote grid of a distributed grid (remote_grid_ and remote_grid_active_
// of GridMPI): a box fetched from other processes, through which the grid is
// accessed while it is active.
module RemoteGrid {
  import opened MixedRadix
  import opened Subgrid

  datatype Remote = Remote(active: bool, offset: IndexArray, size: IndexArray, data: seq<Elem>)

  // Where a cell is stored: in the local data, in a halo of dimension dim, or
  // in the remote grid.
  datatype Place = Own(pos: int) | Backward(dim: nat, pos: int) | Forward(dim: nat, pos: int) | InRemote(pos: int)

  // GridMPI::GetAddress at an index that is not in a halo: gets and sets of
  // single cells go through it.
  function GetAddress(remote: Remote, offset: IndexArray, size: IndexArray, index: IndexArray): (place: Place)
    requires |index| == |offset| == |size| == |remote.offset| == |remote.size|
    ensures if remote.active then place.InRemote? else place.Own?
  {
    if remote.active then InRemote(Lin(Sub(index, remote.offset), remote.size)) else Own(Lin(Sub(index, offset), size))
  }

  // ------------------------------------------------------ one fetched cell

  function Ones(n: nat): (s: IndexArray)
    ensures |s| == n && forall d | 0 <= d < n :: s[d] == 1
  {
    seq(n, d => 1)
  }

  // What fetching the cell prev of the grid g leaves behind.
  ghost function AfterFetch(active: bool, g: seq<Elem>, gsize: IndexArray, prev: IndexArray): (remote: Remote)
    requires |prev| == |gsize|
    ensures |remote.offset| == |remote.size| == |gsize|
  {
    Remote(active, prev, Ones(|prev|), Gather(g, gsize, prev, Ones(|prev|)))
  }

  lemma {:induction false} UnitVolume(n: nat)
    ensures Volume(Ones(n)) == 1
  {
    if n > 0 {
      UnitVolume(n - 1);
      assert Ones(n)[1..] == Ones(n - 1);
    }
  }

  // A fetched cell is the only cell of the remote grid.
  lemma UnitGather(gsize: IndexArray, g: seq<Elem>, index: IndexArray)
    requires InBox(index, gsize) && |g| == Volume(gsize)
    ensures At(Gather(g, gsize, index, Ones(|index|)), Lin(Sub(index, index), Ones(|index|))) == At(g, Lin(index, gsize))
  {
    GatherAt(g, gsize, index, Ones(|index|), Sub(index, index));
    AddSub(index, index);
  }

  // In the grid that is 1 at another cell, it holds 0.
  lemma OtherCellFetched(gsize: IndexArray, prev: IndexArray, index: IndexArray)
    requires InBox(index, gsize) && InBox(prev, gsize) && prev != index
    ensures Gather(OneHot(gsize, index), gsize, prev, Ones(|prev|)) == [0.0]
  {
    var g := OneHot(gsize, index);
    var cell := Gather(g, gsize, prev, Ones(|prev|));
    UnitVolume(|prev|);
    UnitGather(gsize, g, prev);
    LinInRange(Sub(prev, prev), Ones(|prev|));
    OneHotAt(gsize, index, prev);
    assert cell == [0.0];
  }
}
