// The data that a LoadSubgrid round delivers: a process that fetched holds
// exactly the global values of the box it asked for, whatever the order in
// which the replies arrived.
module LoadResult {
  import opened MixedRadix
  import opened Subgrid
  import opened Decomposition
  import opened GridSpace
  import opened LoadProtocol
  import opened LoadInvariant
  import opened LoadTheorems

  // ----------------------------------------------- one reply after another

  // The place of a piece in the remote grid.
  function PieceOffset(me: Party, info: FetchInfo): IndexArray
    requires |info.peerOffset| == |me.remoteOffset|
  {
    Sub(info.peerOffset, me.remoteOffset)
  }

  // The requested pieces lie in the remote grid and share no cell.
  ghost predicate Placed(r: Round, p: nat)
    requires p < |r|
  {
    && (forall q | 0 <= q < |r| && Slot(r[p].requests, q) >= 0 :: PieceIn(r, p, q))
    && (forall q, z | 0 <= q < |r| && 0 <= z < |r| && q != z
          && Slot(r[p].requests, q) >= 0 && Slot(r[p].requests, z) >= 0 :: PiecesApart(r, p, q, z))
  }

  ghost predicate PieceIn(r: Round, p: nat, q: nat)
    requires p < |r|
  {
    var info := InfoOf(r, p, q);
    && |info.peerOffset| == |info.peerSize| == |r[p].remoteOffset| == |r[p].remoteSize|
    && BoxIn(PieceOffset(r[p], info), info.peerSize, r[p].remoteSize)
  }

  ghost predicate PiecesApart(r: Round, p: nat, q: nat, z: nat)
    requires p < |r| && PieceIn(r, p, q) && PieceIn(r, p, z)
  {
    Apart(PieceOffset(r[p], InfoOf(r, p, q)), InfoOf(r, p, q).peerSize,
          PieceOffset(r[p], InfoOf(r, p, z)), InfoOf(r, p, z).peerSize)
  }

  // The piece fetched from q is in place.
  ghost predicate Fetched(r: Round, p: nat, q: nat, remote: seq<Elem>)
    requires p < |r| && q < |r| && PieceIn(r, p, q)
  {
    var info := InfoOf(r, p, q);
    Gather(remote, r[p].remoteSize, PieceOffset(r[p], info), info.peerSize) == AnswerOf(r, p, q)
  }

  ghost predicate RemoteOk(r: Round, s: State, a: Aux, p: nat)
    requires |s.procs| == |r| && p < |r| && Placed(r, p)
  {
    && |s.procs[p].remote| == Volume(r[p].remoteSize)
    && forall q | 0 <= q < |r| && Slot(r[p].requests, q) >= 0 && a.Req(p, q) == Completed ::
         Fetched(r, p, q, s.procs[p].remote)
  }

  // Storing the answer of q puts its piece in place and disturbs no other.
  lemma StoreFetches(r: Round, p: nat, q: nat, remote: seq<Elem>)
    requires ValidRound(r) && p < |r| && q < |r| && Slot(r[p].requests, q) >= 0 && PieceIn(r, p, q)
    requires |remote| == Volume(r[p].remoteSize)
    ensures Fetched(r, p, q, Store(r[p], remote, InfoOf(r, p, q), AnswerOf(r, p, q)))
  {
    var info := InfoOf(r, p, q);
    AnswerFits(r, p, q);
    GatherOfScatter(remote, r[p].remoteSize, PieceOffset(r[p], info), info.peerSize, AnswerOf(r, p, q));
  }

  lemma StoreKeeps(r: Round, p: nat, q: nat, z: nat, remote: seq<Elem>)
    requires p < |r| && q < |r| && z < |r|
    requires PieceIn(r, p, q) && PieceIn(r, p, z) && PiecesApart(r, p, q, z)
    requires |remote| == Volume(r[p].remoteSize)
    ensures Gather(Store(r[p], remote, InfoOf(r, p, q), AnswerOf(r, p, q)), r[p].remoteSize,
                   PieceOffset(r[p], InfoOf(r, p, z)), InfoOf(r, p, z).peerSize)
         == Gather(remote, r[p].remoteSize, PieceOffset(r[p], InfoOf(r, p, z)), InfoOf(r, p, z).peerSize)
  {
    var info, other := InfoOf(r, p, q), InfoOf(r, p, z);
    GatherElsewhere(remote, r[p].remoteSize, PieceOffset(r[p], info), info.peerSize, AnswerOf(r, p, q),
                    PieceOffset(r[p], other), other.peerSize);
  }

  // Only storing an answer changes a remote grid.
  lemma RemoteUnchanged(r: Round, s: State, x: nat, src: nat, p: nat)
    requires Enabled(r, s, x, src) && p < |r| && (p != x || !s.procs[x].ctl.GotReply?)
    ensures |Step(r, s, x, src).procs| == |r| && Step(r, s, x, src).procs[p].remote == s.procs[p].remote
  {
  }

  lemma StoredStep(r: Round, s: State, a: Aux, x: nat, q: nat, a': Aux)
    requires ValidRound(r) && |s.procs| == |r| && x < |r| && q < |r| && Placed(r, x) && Slot(r[x].requests, q) >= 0
    requires RemoteOk(r, s, a, x)
    requires forall z | 0 <= z < |r| && a'.Req(x, z) == Completed :: a.Req(x, z) == Completed || z == q
    ensures RemoteOk(r, s.With(x, Stored(r, s, x, q)), a', x)
  {
    var remote := s.procs[x].remote;
    StoreFetches(r, x, q, remote);
    forall z | 0 <= z < |r| && Slot(r[x].requests, z) >= 0 && a'.Req(x, z) == Completed && z != q
      ensures Fetched(r, x, z, Stored(r, s, x, q).remote)
    {
      assert Fetched(r, x, z, remote);
      StoreKeeps(r, x, q, z, remote);
    }
  }

  lemma RequestedSlot(r: Round, s: State, a: Aux, x: nat, q: nat)
    requires Inv(r, s, a) && x < |r| && q < |r| && s.procs[x].ctl == GotReply(q)
    ensures Slot(r[x].requests, q) >= 0
  {
    assert ViewOf(r, s, a, x, q).Ok();
  }

  lemma RemoteStep(r: Round, s: State, a: Aux, x: nat, src: nat, a': Aux, p: nat)
    requires ValidRound(r) && Inv(r, s, a) && Enabled(r, s, x, src) && p < |r| && Placed(r, p)
    requires RemoteOk(r, s, a, p) && NewlyStored(s, a, a', x)
    ensures |Step(r, s, x, src).procs| == |r| && RemoteOk(r, Step(r, s, x, src), a', p)
  {
    if p == x && s.procs[x].ctl.GotReply? {
      var q := s.procs[x].ctl.owner;
      assert CountersOk(r, s, a, x);
      RequestedSlot(r, s, a, x, q);
      TakeDataStep(r, s, a, x, q);
      StoredStep(r, s, a, x, q, a');
      assert Step(r, s, x, src).procs == s.With(x, Stored(r, s, x, q)).procs;
    } else {
      RemoteUnchanged(r, s, x, src, p);
    }
  }

  lemma {:induction false} RunRemote(r: Round, run: seq<State>, p: nat) returns (a: Aux)
    requires ValidRound(r) && Run(r, run) && p < |r| && Placed(r, p)
    ensures Inv(r, run[|run| - 1], a) && RemoteOk(r, run[|run| - 1], a, p)
    decreases |run|
  {
    var n := |run|;
    if n == 1 {
      InitHolds(r, run[0]);
      a := InitialAux(r);
    } else {
      var before := RunRemote(r, run[..n - 1], p);
      assert Next(r, run[n - 2], run[n - 1]);
      var x: nat, src: nat :| Enabled(r, run[n - 2], x, src) && run[n - 1] == Step(r, run[n - 2], x, src);
      a := StepKeeps(r, run[n - 2], before, x, src);
      RemoteStep(r, run[n - 2], before, x, src, a, p);
    }
  }

  // When a process has left, every piece it requested is in place.
  lemma AllFetched(r: Round, run: seq<State>, p: nat, q: nat)
    requires ValidRound(r) && Run(r, run) && p < |r| && q < |r| && Placed(r, p) && Slot(r[p].requests, q) >= 0
    requires p < |run[|run| - 1].procs| && run[|run| - 1].procs[p].ctl == Out
    ensures |run[|run| - 1].procs[p].remote| == Volume(r[p].remoteSize) && PieceIn(r, p, q)
    ensures Fetched(r, p, q, run[|run| - 1].procs[p].remote)
  {
    var a := RunRemote(r, run, p);
    var s := run[|run| - 1];
    LeaverSeesNothing(r, s, a, p, p, q);
    HeardIsFinished(r, s, a, p, p, q);
    assert ViewOf(r, s, a, p, q).Ok();
  }

  // ------------------------------------------------- a round of LoadSubgrid

  // The requests of a process: none if everything is local.
  function Requests(c: Config, me: int, plan: seq<FetchInfo>): (requests: seq<Fetch>)
    requires c.Valid()
    requires forall j | 0 <= j < |plan| :: InBox(plan[j].peerIndex, c.psize)
    ensures requests == [] || |requests| == |plan|
  {
    if |plan| == 1 && FetchOf(c, plan[0]).peer == me then []
    else seq(|plan|, j requires 0 <= j < |plan| => FetchOf(c, plan[j]))
  }

  function FetchOf(c: Config, info: FetchInfo): Fetch
    requires c.Valid() && InBox(info.peerIndex, c.psize)
  {
    LinInRange(info.peerIndex, c.psize);
    Fetch(c.RankOf(info.peerIndex), info)
  }

  // Process p holds every cell of the grid in the box, of which there may be
  // none.
  ghost predicate HoldsAll(c: Config, p: int, lo: IndexArray, size: IndexArray)
    requires c.Valid()
  {
    |lo| == |size| == |c.gsize|
    && forall v: IndexArray | InBox(v, c.gsize) && InBox(Sub(v, lo), size) ::
         c.IsRank(p) && InBox(c.ProcIndex(p), c.psize) && c.Holds(c.ProcIndex(p), v)
  }

  lemma PlanPeers(c: Config, lo: IndexArray, size: IndexArray, plan: seq<FetchInfo>)
    requires c.Valid() && |lo| == |size| == |c.gsize| && FetchPlan(c, lo, size, plan)
    ensures forall j | 0 <= j < |plan| :: InBox(plan[j].peerIndex, c.psize)
  {
    forall j | 0 <= j < |plan| ensures InBox(plan[j].peerIndex, c.psize) {
      PieceInside(c, lo, size, plan, j);
    }
  }

  // The first cell of a piece.
  lemma CellOfPiece(c: Config, lo: IndexArray, size: IndexArray, plan: seq<FetchInfo>, j: nat) returns (v: IndexArray)
    requires c.Valid() && |lo| == |size| == |c.gsize| && FetchPlan(c, lo, size, plan) && j < |plan|
    ensures InBox(v, c.gsize) && InBox(Sub(v, lo), size)
    ensures InBox(plan[j].peerIndex, c.psize) && plan[j].peerIndex == c.OwnerIndex(v)
  {
    PieceInside(c, lo, size, plan, j);
    v := plan[j].peerOffset;
    BoxInside(c, plan[j].peerIndex);
    PieceExact(c, lo, size, plan, j, v);
  }

  lemma OwnPieceOnly(c: Config, p: int, lo: IndexArray, size: IndexArray, plan: seq<FetchInfo>, j: nat)
    requires c.Valid() && c.IsRank(p) && HoldsAll(c, p, lo, size) && FetchPlan(c, lo, size, plan) && j < |plan|
    ensures plan[j].peerIndex == c.ProcIndex(p) && InBox(plan[j].peerIndex, c.psize)
  {
    var v := CellOfPiece(c, lo, size, plan, j);
    assert c.Holds(c.ProcIndex(p), v);
    OwnerIndexUnique(c, v, c.ProcIndex(p));
  }

  // LoadSubgrid sends nothing exactly if the process holds all it asks for.
  lemma RequestsNothingIff(c: Config, p: int, lo: IndexArray, size: IndexArray, plan: seq<FetchInfo>)
    requires c.Valid() && c.IsRank(p) && |lo| == |size| == |c.gsize| && FetchPlan(c, lo, size, plan)
    ensures forall j | 0 <= j < |plan| :: InBox(plan[j].peerIndex, c.psize)
    ensures Requests(c, p, plan) == [] <==> HoldsAll(c, p, lo, size)
  {
    PlanPeers(c, lo, size, plan);
    RankBijection(c, p, c.ProcIndex(p));
    if HoldsAll(c, p, lo, size) && |plan| > 0 {
      OwnPieceOnly(c, p, lo, size, plan, 0);
      if |plan| > 1 {
        OwnPieceOnly(c, p, lo, size, plan, 1);
        assert false;
      }
    }
    if Requests(c, p, plan) == [] {
      forall v: IndexArray | InBox(v, c.gsize) && InBox(Sub(v, lo), size)
        ensures InBox(c.ProcIndex(p), c.psize) && c.Holds(c.ProcIndex(p), v)
      {
        var k := FetchTiles(c, lo, size, plan, v);
        OwnerIndexUnique(c, v, c.OwnerIndex(v));
        RankBijection(c, p, plan[0].peerIndex);
      }
    }
  }

  // Process p holds its box of the grid g, wants the box of its remote grid,
  // and sends the requests of the plan.
  ghost predicate LoadsFrom(c: Config, g: seq<Elem>, r: Round, p: nat, plan: seq<FetchInfo>)
    requires c.Valid() && p < |r|
  {
    var me := r[p];
    && c.IsRank(p) && InBox(c.ProcIndex(p), c.psize)
    && me.offset == c.Offset(c.ProcIndex(p)) && me.size == c.Size(c.ProcIndex(p))
    && NonNegative(me.size) && me.data == Gather(g, c.gsize, me.offset, me.size)
    && |me.remoteOffset| == |me.remoteSize| == |c.gsize|
    && BoxIn(me.remoteOffset, me.remoteSize, c.gsize)
    && FetchPlan(c, me.remoteOffset, me.remoteSize, plan)
    && (forall j | 0 <= j < |plan| :: InBox(plan[j].peerIndex, c.psize))
    && me.requests == Requests(c, p, plan)
  }

  // Every process takes part.
  ghost predicate LoadRound(c: Config, g: seq<Elem>, r: Round, plans: seq<seq<FetchInfo>>)
    requires c.Valid()
  {
    && |r| == |plans| == c.NumProcs() && |g| == Volume(c.gsize)
    && forall p | 0 <= p < |r| :: LoadsFrom(c, g, r, p, plans[p])
  }

  lemma LoadRequestsValid(c: Config, g: seq<Elem>, r: Round, p: nat, plan: seq<FetchInfo>)
    requires c.Valid() && p < |r| && |r| == c.NumProcs() && LoadsFrom(c, g, r, p, plan)
    ensures ValidRequests(r[p].requests, |r|, |c.gsize|)
  {
    var me := r[p];
    forall j | 0 <= j < |me.requests| ensures ValidFetch(me.requests[j], |r|, |c.gsize|) {
      PieceInside(c, me.remoteOffset, me.remoteSize, plan, j);
      VolumeSign(plan[j].peerSize);
      RankBijection(c, p, plan[j].peerIndex);
    }
    forall j, k | 0 <= j < k < |me.requests| ensures me.requests[j].peer != me.requests[k].peer {
      PiecesDisjoint(c, me.remoteOffset, me.remoteSize, plan, j, k, me.remoteOffset);
    }
  }

  lemma LoadRoundValid(c: Config, g: seq<Elem>, r: Round, plans: seq<seq<FetchInfo>>)
    requires c.Valid() && LoadRound(c, g, r, plans)
    ensures ValidRound(r) && (|r| > 0 ==> Dims(r) == |c.gsize|)
  {
    forall p | 0 <= p < |r| ensures ValidRequests(r[p].requests, |r|, |c.gsize|) {
      LoadRequestsValid(c, g, r, p, plans[p]);
    }
    assert |r| > 0 ==> LoadsFrom(c, g, r, 0, plans[0]);
    forall p | 0 <= p < |r|
      ensures |r[p].offset| == |r[p].size| == |r[p].remoteOffset| == |r[p].remoteSize| == Dims(r)
    {
      assert LoadsFrom(c, g, r, p, plans[p]);
    }
  }

  // The slot of a request and the piece it asks for.
  lemma SlotPiece(c: Config, g: seq<Elem>, r: Round, p: nat, plan: seq<FetchInfo>, j: nat)
    requires c.Valid() && p < |r| && |r| == c.NumProcs() && LoadsFrom(c, g, r, p, plan)
    requires r[p].requests != [] && j < |plan|
    ensures InBox(plan[j].peerIndex, c.psize) && c.IsRank(c.RankOf(plan[j].peerIndex))
    ensures Slot(r[p].requests, c.RankOf(plan[j].peerIndex)) == j
    ensures InfoOf(r, p, c.RankOf(plan[j].peerIndex)) == plan[j]
  {
    LoadRequestsValid(c, g, r, p, plan);
    RankBijection(c, p, plan[j].peerIndex);
    assert r[p].requests[j] == FetchOf(c, plan[j]);
    SlotOf(r[p].requests, j, |r|, |c.gsize|);
  }

  lemma PieceOfSlot(c: Config, g: seq<Elem>, r: Round, p: nat, plan: seq<FetchInfo>, q: nat) returns (j: nat)
    requires c.Valid() && p < |r| && |r| == c.NumProcs() && LoadsFrom(c, g, r, p, plan)
    requires q < |r| && Slot(r[p].requests, q) >= 0
    ensures j == Slot(r[p].requests, q) && j < |plan| == |r[p].requests| && InfoOf(r, p, q) == plan[j]
  {
    j := Slot(r[p].requests, q);
  }

  lemma PieceInRemote(c: Config, lo: IndexArray, size: IndexArray, plan: seq<FetchInfo>, j: nat)
    requires c.Valid() && |lo| == |size| == |c.gsize| && NonNegative(size)
    requires FetchPlan(c, lo, size, plan) && j < |plan|
    ensures |plan[j].peerOffset| == |plan[j].peerSize| == |lo|
    ensures BoxIn(Sub(plan[j].peerOffset, lo), plan[j].peerSize, size)
  {
    PieceInside(c, lo, size, plan, j);
  }

  lemma Reposition(u: IndexArray, off: IndexArray, lo: IndexArray)
    requires |u| == |off| == |lo|
    ensures Sub(Add(u, lo), off) == Sub(u, Sub(off, lo))
  {
  }

  lemma PiecesApartInRemote(c: Config, lo: IndexArray, size: IndexArray, plan: seq<FetchInfo>, j: nat, k: nat)
    requires c.Valid() && |lo| == |size| == |c.gsize|
    requires FetchPlan(c, lo, size, plan) && j < |plan| && k < |plan| && j != k
    ensures |plan[j].peerOffset| == |plan[j].peerSize| == |plan[k].peerOffset| == |plan[k].peerSize| == |lo|
    ensures Apart(Sub(plan[j].peerOffset, lo), plan[j].peerSize, Sub(plan[k].peerOffset, lo), plan[k].peerSize)
  {
    PieceInside(c, lo, size, plan, j);
    PieceInside(c, lo, size, plan, k);
    forall u: IndexArray | |u| == |lo|
      ensures !(InBox(Sub(u, Sub(plan[j].peerOffset, lo)), plan[j].peerSize)
                && InBox(Sub(u, Sub(plan[k].peerOffset, lo)), plan[k].peerSize))
    {
      PiecesDisjoint(c, lo, size, plan, j, k, Add(u, lo));
      Reposition(u, plan[j].peerOffset, lo);
      Reposition(u, plan[k].peerOffset, lo);
    }
  }

  lemma LoadPlaced(c: Config, g: seq<Elem>, r: Round, plans: seq<seq<FetchInfo>>, p: nat)
    requires c.Valid() && LoadRound(c, g, r, plans) && p < |r|
    ensures ValidRound(r) && Placed(r, p)
  {
    LoadRoundValid(c, g, r, plans);
    var plan, me := plans[p], r[p];
    assert LoadsFrom(c, g, r, p, plan);
    forall q | 0 <= q < |r| && Slot(me.requests, q) >= 0 ensures PieceIn(r, p, q) {
      var j := PieceOfSlot(c, g, r, p, plan, q);
      PieceInRemote(c, me.remoteOffset, me.remoteSize, plan, j);
    }
    forall q, z | 0 <= q < |r| && 0 <= z < |r| && q != z && Slot(me.requests, q) >= 0 && Slot(me.requests, z) >= 0
      ensures PiecesApart(r, p, q, z)
    {
      var j := PieceOfSlot(c, g, r, p, plan, q);
      var k := PieceOfSlot(c, g, r, p, plan, z);
      PiecesApartInRemote(c, me.remoteOffset, me.remoteSize, plan, j, k);
    }
  }

  // What the owner of a piece answers is the piece of the global grid.
  lemma AnswerIsGlobal(c: Config, g: seq<Elem>, r: Round, plans: seq<seq<FetchInfo>>, p: nat, j: nat, v: IndexArray)
    requires c.Valid() && LoadRound(c, g, r, plans) && p < |r| && j < |plans[p]|
    requires !HoldsAll(c, p, r[p].remoteOffset, r[p].remoteSize) && InBox(v, c.gsize)
    requires |plans[p][j].peerOffset| == |plans[p][j].peerSize| == |v| && InPiece(plans[p][j], v)
    ensures InBox(plans[p][j].peerIndex, c.psize) && c.IsRank(c.RankOf(plans[p][j].peerIndex))
    ensures At(AnswerOf(r, p, c.RankOf(plans[p][j].peerIndex)), Lin(Sub(v, plans[p][j].peerOffset), plans[p][j].peerSize))
         == At(g, Lin(v, c.gsize))
  {
    var plan, me := plans[p], r[p];
    assert LoadsFrom(c, g, r, p, plan);
    RequestsNothingIff(c, p, me.remoteOffset, me.remoteSize, plan);
    SlotPiece(c, g, r, p, plan, j);
    var info, q := plan[j], c.RankOf(plan[j].peerIndex);
    assert LoadsFrom(c, g, r, q, plans[q]);
    PieceInside(c, me.remoteOffset, me.remoteSize, plan, j);
    OwnerHoldsPiece(c, me.remoteOffset, me.remoteSize, plan, j, v);
    GatherTwice(g, c.gsize, r[q].offset, r[q].size, info.peerOffset, info.peerSize, v);
  }

  lemma OwnerHoldsPiece(c: Config, lo: IndexArray, size: IndexArray, plan: seq<FetchInfo>, j: nat, v: IndexArray)
    requires c.Valid() && |lo| == |size| == |c.gsize| && FetchPlan(c, lo, size, plan) && j < |plan|
    requires InBox(v, c.gsize) && |plan[j].peerOffset| == |plan[j].peerSize| == |v| && InPiece(plan[j], v)
    ensures InBox(plan[j].peerIndex, c.psize) && c.IsRank(c.RankOf(plan[j].peerIndex))
    ensures c.ProcIndex(c.RankOf(plan[j].peerIndex)) == plan[j].peerIndex && c.Holds(plan[j].peerIndex, v)
  {
    PieceInside(c, lo, size, plan, j);
    PieceExact(c, lo, size, plan, j, v);
    OwnerIndexUnique(c, v, plan[j].peerIndex);
    RankBijection(c, 0, plan[j].peerIndex);
  }

  // The cell of the grid behind position k of the remote grid.
  lemma CellAt(c: Config, lo: IndexArray, size: IndexArray, k: int) returns (v: IndexArray)
    requires c.Valid() && BoxIn(lo, size, c.gsize) && 0 <= k < Volume(size)
    ensures v == Add(lo, Digits(k, size)) && InBox(v, c.gsize) && InBox(Sub(v, lo), size) && Lin(Sub(v, lo), size) == k
  {
    VolumeSign(size);
    LinOfDigits(k, size);
    v := Add(lo, Digits(k, size));
    assert Sub(v, lo) == Digits(k, size);
  }

  // A cell of a fetched piece.
  lemma FetchedCell(r: Round, p: nat, q: nat, remote: seq<Elem>, u: IndexArray)
    requires p < |r| && q < |r| && PieceIn(r, p, q) && Fetched(r, p, q, remote)
    requires |u| == |InfoOf(r, p, q).peerOffset|
    requires InBox(Sub(u, InfoOf(r, p, q).peerOffset), InfoOf(r, p, q).peerSize)
    ensures At(remote, Lin(Sub(u, r[p].remoteOffset), r[p].remoteSize))
         == At(AnswerOf(r, p, q), Lin(Sub(u, InfoOf(r, p, q).peerOffset), InfoOf(r, p, q).peerSize))
  {
    var info, me := InfoOf(r, p, q), r[p];
    var w := Sub(u, info.peerOffset);
    GatherAt(remote, me.remoteSize, PieceOffset(me, info), info.peerSize, w);
    SubChain(u, info.peerOffset, me.remoteOffset);
  }

  lemma DeliveredAt(c: Config, g: seq<Elem>, r: Round, plans: seq<seq<FetchInfo>>, run: seq<State>, p: nat, k: int)
    requires c.Valid() && LoadRound(c, g, r, plans) && p < |r|
    requires !HoldsAll(c, p, r[p].remoteOffset, r[p].remoteSize)
    requires Run(r, run) && p < |run[|run| - 1].procs| && run[|run| - 1].procs[p].ctl == Out
    requires 0 <= k < Volume(r[p].remoteSize)
    ensures |r[p].remoteOffset| == |r[p].remoteSize| == |c.gsize|
    ensures At(run[|run| - 1].procs[p].remote, k) == At(g, CellPos(r[p].remoteOffset, r[p].remoteSize, c.gsize, k))
  {
    var plan, me := plans[p], r[p];
    LoadPlaced(c, g, r, plans, p);
    assert LoadsFrom(c, g, r, p, plan);
    RequestsNothingIff(c, p, me.remoteOffset, me.remoteSize, plan);
    var v := CellAt(c, me.remoteOffset, me.remoteSize, k);
    var j := FetchTiles(c, me.remoteOffset, me.remoteSize, plan, v);
    SlotPiece(c, g, r, p, plan, j);
    var q := c.RankOf(plan[j].peerIndex);
    AllFetched(r, run, p, q);
    FetchedCell(r, p, q, run[|run| - 1].procs[p].remote, v);
    AnswerIsGlobal(c, g, r, plans, p, j, v);
  }

  // A process that does not hold all it asks for leaves with the global values
  // of exactly the box it asked for.
  lemma LoadDelivers(c: Config, g: seq<Elem>, r: Round, plans: seq<seq<FetchInfo>>, run: seq<State>, p: nat)
    requires c.Valid() && LoadRound(c, g, r, plans) && p < |r|
    requires !HoldsAll(c, p, r[p].remoteOffset, r[p].remoteSize)
    requires Run(r, run) && p < |run[|run| - 1].procs| && run[|run| - 1].procs[p].ctl == Out
    ensures r[p].requests != []
    ensures |r[p].remoteOffset| == |r[p].remoteSize| == |c.gsize| && NonNegative(r[p].remoteSize)
    ensures run[|run| - 1].procs[p].remote == Gather(g, c.gsize, r[p].remoteOffset, r[p].remoteSize)
  {
    LoadPlaced(c, g, r, plans, p);
    assert LoadsFrom(c, g, r, p, plans[p]);
    RequestsNothingIff(c, p, r[p].remoteOffset, r[p].remoteSize, plans[p]);
    var me, remote := r[p], run[|run| - 1].procs[p].remote;
    var whole := Gather(g, c.gsize, me.remoteOffset, me.remoteSize);
    AllFetched(r, run, p, r[p].requests[0].peer);
    forall k | 0 <= k < |whole| ensures remote[k] == whole[k] {
      DeliveredAt(c, g, r, plans, run, p, k);
    }
  }
}
