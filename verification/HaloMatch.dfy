// The messages of one exchanged dimension (ExchangeBoundariesAsync in
// runtime/grid_mpi.cc): what a process sends to another is what the other has
// posted receives for, in the same order and with the same sizes.
module HaloMatch {
  import opened MixedRadix
  import opened Subgrid
  import opened Geometry
  import opened HaloExchange
  import opened HaloFlag

  // A halo for forward or backward accesses, and its number of cells.
  datatype Message = Message(forward: bool, cells: int)

  ghost function HaloCells(e: Exchange, w: World, d: nat, r: nat, forward: bool): int
    requires e.Valid() && WorldShape(e, w) && d < e.Dims() && r < |w|
  {
    Volume(HaloShape(w[r], d, if forward then e.fwWidth[d] else e.bwWidth[d], e.diagonal))
  }

  // The halo that process r sends to process q, if any: for forward accesses
  // to its backward neighbour, for backward accesses to its forward one. An
  // empty process sends nothing.
  ghost function HaloTo(e: Exchange, w: World, d: nat, r: nat, q: nat, forward: bool): seq<Message>
    requires e.Valid() && WorldShape(e, w) && d < e.Dims() && r < |w|
  {
    if !w[r].Empty() && e.SendsHalo(r, d, forward) && (if forward then e.geo.bw[r][d] else e.geo.fw[r][d]) == q
    then [Message(forward, HaloCells(e, w, d, r, forward))] else []
  }

  // The receive that process q posts for process r, if any.
  ghost function HaloFrom(e: Exchange, w: World, d: nat, q: nat, r: nat, forward: bool): seq<Message>
    requires e.Valid() && WorldShape(e, w) && d < e.Dims() && q < |w|
  {
    if !w[q].Empty() && (if forward then e.EffFw(q, d) else e.EffBw(q, d)) > 0
       && (if forward then e.geo.fw[q][d] else e.geo.bw[q][d]) == r
    then [Message(forward, HaloCells(e, w, d, q, forward))] else []
  }

  // Sends and posted receives in program order: the halo for forward accesses
  // comes first on both sides.
  ghost function SendsTo(e: Exchange, w: World, d: nat, r: nat, q: nat): seq<Message>
    requires e.Valid() && WorldShape(e, w) && d < e.Dims() && r < |w|
  {
    HaloTo(e, w, d, r, q, true) + HaloTo(e, w, d, r, q, false)
  }

  ghost function ReceivesFrom(e: Exchange, w: World, d: nat, q: nat, r: nat): seq<Message>
    requires e.Valid() && WorldShape(e, w) && d < e.Dims() && q < |w|
  {
    HaloFrom(e, w, d, q, r, true) + HaloFrom(e, w, d, q, r, false)
  }

  // Neighbours along d: r sends its halo for forward accesses exactly if q,
  // its backward neighbour, waits for it, and q its halo for backward accesses
  // exactly if r waits for it.
  lemma NeighborPair(e: Exchange, w: World, d: nat, r: nat, q: nat)
    requires e.Valid() && WorldShape(e, w) && d < e.Dims() && r < |w| && q < |w|
    requires e.geo.bw[r][d] == q || e.geo.fw[q][d] == r
    requires e.JoinedAt(q, d) && (e.fwWidth[d] > 0 || e.bwWidth[d] > 0)
    ensures e.geo.bw[r][d] == q && e.geo.fw[q][d] == r && e.geo.SameAcross(q, r, d)
    ensures !w[r].Empty() && (e.periodic || e.geo.offset[r][d] > 0)
       <==> !w[q].Empty() && (e.periodic || e.geo.offset[q][d] + e.geo.size[q][d] < e.geo.gsize[d])
  {
    assert e.geo.NeighborAt(r, d) && e.geo.NeighborAt(q, d) && e.geo.BoxAt(r, d) && e.geo.BoxAt(q, d);
    VolumeSign(w[r].size);
    VolumeSign(w[q].size);
    if !w[r].Empty() && e.geo.offset[r][d] > 0 {
      BothHaveCells(e.geo, r, q, d);
    }
    if !w[q].Empty() && e.geo.offset[q][d] + e.geo.size[q][d] < e.geo.gsize[d] {
      BothHaveCells(e.geo, q, r, d);
    }
  }

  // A message has as many cells as the halo that its sender packs, which is what
  // its sender and its receiver compute (CalcHaloSize).
  ghost predicate Sized(e: Exchange, w: World, d: nat, r: nat, m: Message)
    requires e.Valid() && WorldShape(e, w) && d < e.Dims() && r < |w|
  {
    var width := if m.forward then e.fwWidth[d] else e.bwWidth[d];
    m.cells == |Pack(w[r], d, width, m.forward, e.diagonal)|
  }

  lemma SentSized(e: Exchange, w: World, d: nat, r: nat, q: nat)
    requires e.Valid() && WorldShape(e, w) && d < e.Dims() && r < |w|
    ensures forall m: Message | m in SendsTo(e, w, d, r, q) :: Sized(e, w, d, r, m)
  {
    VolumeSign(HaloShape(w[r], d, e.fwWidth[d], e.diagonal));
    VolumeSign(HaloShape(w[r], d, e.bwWidth[d], e.diagonal));
  }

  // The sizes of sends and of posted receives are the lengths of the halos that
  // the sender packs.
  lemma MessagesSized(e: Exchange, w: World, d: nat, r: nat, q: nat) returns (before: World)
    requires e.Valid() && WorldShape(e, w) && d < e.Dims() && r < |w| && q < |w|
    requires e.JoinedAt(r, d) && e.JoinedAt(q, d)
    ensures before == ExchangeFrom(e, w, d + 1) && WorldShape(e, before) && |before| == |w|
    ensures forall m: Message | m in SendsTo(e, before, d, r, q) :: Sized(e, before, d, r, m)
    ensures forall m: Message | m in ReceivesFrom(e, before, d, q, r) :: Sized(e, before, d, r, m)
  {
    before := ExchangeFrom(e, w, d + 1);
    MessagesMatch(e, w, d, r, q);
    SentSized(e, before, d, r, q);
  }

  lemma SameCells(e: Exchange, w: World, d: nat, r: nat, q: nat, forward: bool)
    requires e.Valid() && WorldShape(e, w) && d < e.Dims() && r < |w| && q < |w| && !w[r].Empty() && !w[q].Empty()
    requires e.geo.SameAcross(q, r, d)
    ensures HaloCells(e, ExchangeFrom(e, w, d + 1), d, r, forward)
         == HaloCells(e, ExchangeFrom(e, w, d + 1), d, q, forward)
  {
    var before := ExchangeFrom(e, w, d + 1);
    var width := if forward then e.fwWidth[d] else e.bwWidth[d];
    AgreeAfter(e, w, d, r, q, before[r]);
    SentShape(before[r], before[q], d, width, e.diagonal);
  }

  lemma ForwardMatches(e: Exchange, w: World, d: nat, r: nat, q: nat)
    requires e.Valid() && WorldShape(e, w) && d < e.Dims() && r < |w| && q < |w| && e.JoinedAt(q, d)
    requires !w[r].Empty() && !w[q].Empty() && e.geo.SameAcross(q, r, d) ==>
      HaloCells(e, w, d, r, true) == HaloCells(e, w, d, q, true)
    ensures HaloTo(e, w, d, r, q, true) == HaloFrom(e, w, d, q, r, true)
  {
    if e.fwWidth[d] > 0 && (e.geo.bw[r][d] == q || e.geo.fw[q][d] == r) {
      NeighborPair(e, w, d, r, q);
    }
  }

  lemma BackwardMatches(e: Exchange, w: World, d: nat, r: nat, q: nat)
    requires e.Valid() && WorldShape(e, w) && d < e.Dims() && r < |w| && q < |w| && e.JoinedAt(r, d)
    requires !w[r].Empty() && !w[q].Empty() && e.geo.SameAcross(r, q, d) ==>
      HaloCells(e, w, d, r, false) == HaloCells(e, w, d, q, false)
    ensures HaloTo(e, w, d, r, q, false) == HaloFrom(e, w, d, q, r, false)
  {
    if e.bwWidth[d] > 0 && (e.geo.bw[q][d] == r || e.geo.fw[r][d] == q) {
      NeighborPair(e, w, d, q, r);
    }
  }

  // The k-th receive matches the k-th send, for every pair of processes, also
  // for a process and itself and where both neighbours are the same process.
  lemma MessagesMatch(e: Exchange, w: World, d: nat, r: nat, q: nat)
    requires e.Valid() && WorldShape(e, w) && d < e.Dims() && r < |w| && q < |w|
    requires e.JoinedAt(r, d) && e.JoinedAt(q, d)
    ensures SendsTo(e, ExchangeFrom(e, w, d + 1), d, r, q) == ReceivesFrom(e, ExchangeFrom(e, w, d + 1), d, q, r)
  {
    var before := ExchangeFrom(e, w, d + 1);
    if !w[r].Empty() && !w[q].Empty() && e.geo.SameAcross(q, r, d) {
      SameCells(e, w, d, r, q, true);
    }
    if !w[r].Empty() && !w[q].Empty() && e.geo.SameAcross(r, q, d) {
      SameCells(e, w, d, q, r, false);
    }
    ForwardMatches(e, before, d, r, q);
    BackwardMatches(e, before, d, r, q);
  }

  ghost predicate AllMatch(e: Exchange, w: World, d: nat)
    requires e.Valid() && WorldShape(e, w) && d < e.Dims()
  {
    forall r: nat, q: nat | r < |w| && q < |w| :: SendsTo(e, w, d, r, q) == ReceivesFrom(e, w, d, q, r)
  }

  // A process with cells and an empty one: one of them waits in vain.
  lemma UnjoinedMismatch(e: Exchange, w: World, d: nat, r: nat) returns (q: nat)
    requires e.Valid() && WorldShape(e, w) && d < e.Dims() && r < |w| && !e.JoinedAt(r, d)
    ensures q < |w| && var before := ExchangeFrom(e, w, d + 1);
      SendsTo(e, before, d, q, r) != ReceivesFrom(e, before, d, r, q)
      || SendsTo(e, before, d, r, q) != ReceivesFrom(e, before, d, q, r)
  {
    var before := ExchangeFrom(e, w, d + 1);
    assert e.geo.NeighborAt(r, d);
    q := e.geo.fw[r][d];
    assert before[r].Empty() != before[q].Empty();
    if e.fwWidth[d] > 0 {
      assert |SendsTo(e, before, d, q, r)| != |ReceivesFrom(e, before, d, r, q)|;
    } else {
      assert |SendsTo(e, before, d, r, q)| != |ReceivesFrom(e, before, d, q, r)|;
    }
  }

  // All messages of a dimension match exactly if no process with cells
  // exchanges periodically with an empty one.
  lemma MessagesMatchIff(e: Exchange, w: World, d: nat)
    requires e.Valid() && WorldShape(e, w) && d < e.Dims()
    ensures AllMatch(e, ExchangeFrom(e, w, d + 1), d) <==> forall r: nat | r < |w| :: e.JoinedAt(r, d)
  {
    var before := ExchangeFrom(e, w, d + 1);
    if forall r: nat | r < |w| :: e.JoinedAt(r, d) {
      forall r: nat, q: nat | r < |w| && q < |w| ensures SendsTo(e, before, d, r, q) == ReceivesFrom(e, before, d, q, r) {
        MessagesMatch(e, w, d, r, q);
      }
    } else {
      var r: nat :| r < |w| && !e.JoinedAt(r, d);
      var q := UnjoinedMismatch(e, w, d, r);
    }
  }
}
