// The halo exchange as every process runs it, dimension by dimension: it sends
// its halos and waits for those of its neighbours (ExchangeBoundaries in
// runtime/grid_mpi.cc). One dimension of one exchange is a phase of a program
// that all processes run; there is no barrier between exchanges.
module HaloSchedule {
  import opened MixedRadix
  import opened Subgrid
  import opened Geometry
  import opened HaloExchange
  import opened HaloMatch
  import opened Refinement
  import opened Schedule

  // ------------------------------------------------------------- messages

  // What a process in state L sends to process x in dimension d.
  ghost function Sends(e: Exchange, L: Local, d: nat, r: nat, x: nat): seq<seq<Elem>>
    requires e.Valid() && e.geo.IsRank(r) && d < e.Dims() && L.WellFormed(e.Dims())
  {
    (if e.geo.HasCells(r) && e.SendsHalo(r, d, true) && e.geo.bw[r][d] == x
     then [Pack(L, d, e.fwWidth[d], true, e.diagonal)] else [])
    + (if e.geo.HasCells(r) && e.SendsHalo(r, d, false) && e.geo.fw[r][d] == x
       then [Pack(L, d, e.bwWidth[d], false, e.diagonal)] else [])
  }

  // The number of messages that process r waits for from process q.
  ghost function Waits(e: Exchange, d: nat, r: nat, q: nat, forward: bool): (n: nat)
    requires e.Valid() && e.geo.IsRank(r) && d < e.Dims()
    ensures n <= 1
  {
    if e.geo.HasCells(r) && (if forward then e.EffFw(r, d) > 0 && e.geo.fw[r][d] == q
                             else e.EffBw(r, d) > 0 && e.geo.bw[r][d] == q) then 1 else 0
  }

  ghost function Count(e: Exchange, d: nat, r: nat, q: nat): nat
    requires e.Valid() && e.geo.IsRank(r) && d < e.Dims()
  {
    Waits(e, d, r, q, true) + Waits(e, d, r, q, false)
  }

  // What arrives is what is expected: as many messages, and in both directions
  // the neighbour's halo.
  lemma ExpectedMessages(e: Exchange, w: World, d: nat, r: nat, q: nat)
    requires e.Valid() && e.Joined() && WorldShape(e, w) && d < e.Dims() && r < |w| && q < |w|
    ensures var m := Sends(e, w[q], d, q, r);
      && |m| == Count(e, d, r, q)
      && (Waits(e, d, r, q, true) == 1 ==> m[0] == FromForward(e, w, d, r))
      && (Waits(e, d, r, q, false) == 1 ==> m[Waits(e, d, r, q, true)] == FromBackward(e, w, d, r))
  {
    assert e.JoinedAt(r, d) && e.JoinedAt(q, d);
    if e.fwWidth[d] > 0 && (e.geo.bw[q][d] == r || e.geo.fw[r][d] == q) {
      NeighborPair(e, w, d, q, r);
    }
    if e.bwWidth[d] > 0 && (e.geo.bw[r][d] == q || e.geo.fw[q][d] == r) {
      NeighborPair(e, w, d, r, q);
    }
  }

  // ---------------------------------------------------------------- phases

  // The phases of a process whose state are its grids.
  type HaloPhase = Phase<seq<Local>, seq<Elem>>

  // Grid g of process r, which owns these grids, can be exchanged.
  ghost predicate Fit(e: Exchange, own: seq<Local>, g: nat, r: nat)
    requires e.Valid()
  {
    e.geo.IsRank(r) && g < |own| && own[g].WellFormed(e.Dims()) && own[g].size == e.geo.size[r]
  }

  // The halo received in one direction: the first message from the neighbour,
  // or the second if the first is that for the other direction.
  ghost function HaloIn(e: Exchange, r: nat, d: nat, got: seq<seq<seq<Elem>>>, forward: bool): seq<Elem>
    requires e.Valid() && e.geo.IsRank(r) && d < e.Dims()
  {
    var q := if forward then e.geo.fw[r][d] else e.geo.bw[r][d];
    if !(0 <= q < |got|) then [] else
    var i := if forward then 0 else Waits(e, d, r, q, true);
    if i < |got[q]| then got[q][i] else []
  }

  ghost function Exchanging(e: Exchange, g: nat, d: nat): HaloPhase
    requires e.Valid() && d < e.Dims()
  {
    Phase((r: nat, own: seq<Local>, x: nat) => if Fit(e, own, g, r) then Sends(e, own[g], d, r, x) else [],
          (r: nat, q: nat) => if e.geo.IsRank(r) then Count(e, d, r, q) else 0,
          (r: nat, own: seq<Local>, got: seq<seq<seq<Elem>>>) =>
            if Fit(e, own, g, r)
            then own[g := Accept(e, own[g], d, r, HaloIn(e, r, d, got, true), HaloIn(e, r, d, got, false))]
            else own)
  }

  // The exchange of dimensions d and later of grid g.
  ghost function ExchangePhases(e: Exchange, g: nat, d: nat): seq<HaloPhase>
    requires e.Valid() && d <= e.Dims()
    decreases e.Dims() - d
  {
    if d == e.Dims() then [] else ExchangePhases(e, g, d + 1) + [Exchanging(e, g, d)]
  }

  // The grids of all processes.
  ghost function ByProcess(geo: Geometry, m: Machine): (w: seq<seq<Local>>)
    requires geo.Shape() && MachineShape(geo, m)
    ensures |w| == |geo.offset| && forall r | 0 <= r < |w| :: w[r] == OnProcess(m, r)
  {
    seq(|geo.offset|, r requires 0 <= r < |geo.offset| => OnProcess(m, r))
  }

  // A halo of no width is not looked at.
  lemma AcceptIgnores(e: Exchange, L: Local, d: nat, r: nat, fw: seq<Elem>, bw: seq<Elem>, fw': seq<Elem>, bw': seq<Elem>)
    requires e.Valid() && e.geo.IsRank(r) && d < e.Dims() && L.WellFormed(e.Dims()) && L.size == e.geo.size[r]
    requires e.geo.HasCells(r) && e.EffFw(r, d) > 0 ==> fw == fw'
    requires e.geo.HasCells(r) && e.EffBw(r, d) > 0 ==> bw == bw'
    ensures Accept(e, L, d, r, fw, bw) == Accept(e, L, d, r, fw', bw')
  {
  }

  lemma ExpectedHalos(e: Exchange, w: World, d: nat, r: nat, got: seq<seq<seq<Elem>>>)
    requires e.Valid() && e.Joined() && WorldShape(e, w) && d < e.Dims() && r < |w| == |got|
    requires forall q | 0 <= q < |w| :: got[q] == Sends(e, w[q], d, q, r)
    ensures e.geo.HasCells(r) && e.EffFw(r, d) > 0 ==> HaloIn(e, r, d, got, true) == FromForward(e, w, d, r)
    ensures e.geo.HasCells(r) && e.EffBw(r, d) > 0 ==> HaloIn(e, r, d, got, false) == FromBackward(e, w, d, r)
  {
    assert e.geo.NeighborAt(r, d);
    ExpectedMessages(e, w, d, r, e.geo.fw[r][d]);
    ExpectedMessages(e, w, d, r, e.geo.bw[r][d]);
  }

  lemma AcceptsHalos(e: Exchange, w: World, d: nat, r: nat, got: seq<seq<seq<Elem>>>)
    requires e.Valid() && e.Joined() && WorldShape(e, w) && d < e.Dims() && r < |w| == |got|
    requires forall q | 0 <= q < |w| :: got[q] == Sends(e, w[q], d, q, r)
    ensures Accept(e, w[r], d, r, HaloIn(e, r, d, got, true), HaloIn(e, r, d, got, false)) == Receive(e, w, d, r)
  {
    ExpectedHalos(e, w, d, r, got);
    AcceptIgnores(e, w[r], d, r, HaloIn(e, r, d, got, true), HaloIn(e, r, d, got, false),
                  FromForward(e, w, d, r), FromBackward(e, w, d, r));
  }

  // A grid after one dimension of its exchange.
  lemma ExchangeDimShape(e: Exchange, m: Machine, g: nat, d: nat) returns (m': Machine)
    requires e.Valid() && MachineShape(e.geo, m) && g < |m| && d < e.Dims()
    ensures WorldShape(e, m[g]) && m' == m[g := ExchangeDim(e, m[g], d)] && MachineShape(e.geo, m')
  {
    assert GridShape(e.geo, m[g]);
    var w' := ExchangeDim(e, m[g], d);
    m' := m[g := w'];
    forall r | 0 <= r < |w'| ensures |w'[r].data| == Volume(e.geo.size[r]) {
      if !m[g][r].Empty() {
        AcceptHolds(e, m[g][r], d, r, FromForward(e, m[g], d, r), FromBackward(e, m[g], d, r), w'[r]);
      }
    }
    assert GridShape(e.geo, w');
  }

  lemma ExchangingMatched(e: Exchange, m: Machine, g: nat, d: nat)
    requires e.Valid() && e.Joined() && MachineShape(e.geo, m) && g < |m| && d < e.Dims()
    ensures Matched(Exchanging(e, g, d), ByProcess(e.geo, m))
  {
    assert GridShape(e.geo, m[g]) && WorldShape(e, m[g]);
    forall q: nat, r: nat | q < |e.geo.offset| && r < |e.geo.offset|
      ensures |Exchanging(e, g, d).send(q, OnProcess(m, q), r)| == Exchanging(e, g, d).waits(r, q)
    {
      ExpectedMessages(e, m[g], d, r, q);
    }
  }

  lemma ExchangingAt(e: Exchange, m: Machine, g: nat, d: nat, m': Machine, r: nat)
    requires e.Valid() && e.Joined() && MachineShape(e.geo, m) && g < |m| && d < e.Dims() && WorldShape(e, m[g])
    requires m' == m[g := ExchangeDim(e, m[g], d)] && MachineShape(e.geo, m') && r < |e.geo.offset|
    ensures OnProcess(m', r) == After(Exchanging(e, g, d), ByProcess(e.geo, m))[r]
  {
    var w := ByProcess(e.geo, m);
    var got := Arrive(Exchanging(e, g, d), w, r);
    forall q | 0 <= q < |w| ensures got[q] == Sends(e, m[g][q], d, q, r) {
      assert got[q] == Exchanging(e, g, d).send(q, w[q], r) && Fit(e, w[q], g, q);
    }
    AcceptsHalos(e, m[g], d, r, got);
    assert Fit(e, w[r], g, r);
    assert OnProcess(m', r) == w[r][g := Receive(e, m[g], d, r)];
  }

  lemma ExchangingLeads(e: Exchange, m: Machine, g: nat, d: nat) returns (m': Machine)
    requires e.Valid() && e.Joined() && MachineShape(e.geo, m) && g < |m| && d < e.Dims()
    ensures WorldShape(e, m[g]) && m' == m[g := ExchangeDim(e, m[g], d)] && MachineShape(e.geo, m')
    ensures Leads([Exchanging(e, g, d)], ByProcess(e.geo, m), ByProcess(e.geo, m'))
  {
    m' := ExchangeDimShape(e, m, g, d);
    ExchangingMatched(e, m, g, d);
    forall r: nat | r < |e.geo.offset|
      ensures ByProcess(e.geo, m')[r] == After(Exchanging(e, g, d), ByProcess(e.geo, m))[r]
    {
      ExchangingAt(e, m, g, d, m', r);
    }
    LeadsOnce(Exchanging(e, g, d), ByProcess(e.geo, m), ByProcess(e.geo, m'));
  }

  lemma ExchangeOn(e: Exchange, m: Machine, g: nat, d: nat, before: Machine) returns (m': Machine)
    requires e.Valid() && e.Joined() && MachineShape(e.geo, m) && g < |m| && d < e.Dims() && WorldShape(e, m[g])
    requires before == m[g := ExchangeFrom(e, m[g], d + 1)] && MachineShape(e.geo, before)
    ensures m' == m[g := ExchangeFrom(e, m[g], d)] && MachineShape(e.geo, m')
    ensures Leads([Exchanging(e, g, d)], ByProcess(e.geo, before), ByProcess(e.geo, m'))
  {
    m' := ExchangingLeads(e, before, g, d);
  }

  // Moving in step, the phases of an exchange leave the grid as ExchangeFrom
  // does, and all their messages match.
  lemma {:induction false} ExchangeLeads(e: Exchange, m: Machine, g: nat, d: nat) returns (m': Machine)
    requires e.Valid() && e.Joined() && MachineShape(e.geo, m) && g < |m| && d <= e.Dims()
    ensures WorldShape(e, m[g]) && m' == m[g := ExchangeFrom(e, m[g], d)] && MachineShape(e.geo, m')
    ensures Leads(ExchangePhases(e, g, d), ByProcess(e.geo, m), ByProcess(e.geo, m'))
    decreases e.Dims() - d
  {
    assert GridShape(e.geo, m[g]) && WorldShape(e, m[g]);
    if d == e.Dims() {
      m' := m;
    } else {
      var before := ExchangeLeads(e, m, g, d + 1);
      m' := ExchangeOn(e, m, g, d, before);
      LeadsOn(ExchangePhases(e, g, d + 1), [Exchanging(e, g, d)],
              ByProcess(e.geo, m), ByProcess(e.geo, before), ByProcess(e.geo, m'));
    }
  }
}
