// What the LoadSubgrid protocol guarantees in every state of every round:
// receives are never misread, remaining_requests is exact, a process leaves
// only when nothing is addressed to it any more, every round ends with all
// processes out, and a process that fetched has what it asked for.
module LoadTheorems {
  import opened MixedRadix
  import opened Subgrid
  import opened GridSpace
  import opened LoadProtocol
  import opened LoadInvariant

  lemma {:induction false} RunInvariant(r: Round, run: seq<State>) returns (a: Aux)
    requires ValidRound(r) && Run(r, run)
    ensures Inv(r, run[|run| - 1], a)
    ensures Measure(r, run[|run| - 1], a) + |run| - 1 <= Measure(r, run[0], InitialAux(r))
    decreases |run|
  {
    var n := |run|;
    if n == 1 {
      InitHolds(r, run[0]);
      a := InitialAux(r);
    } else {
      var before := RunInvariant(r, run[..n - 1]);
      assert Next(r, run[n - 2], run[n - 1]);
      var p: nat, src: nat :| Enabled(r, run[n - 2], p, src) && run[n - 1] == Step(r, run[n - 2], p, src);
      a := StepKeeps(r, run[n - 2], before, p, src);
    }
  }

  // ------------------------------------------------------------- framing

  // Every receive takes what it expects: at the head of the loop a header
  // whose sender is the other end of the channel, behind a request header the
  // piece that its sender requested, behind a reply header the cells of the
  // piece that was requested.
  ghost predicate Framed(r: Round, s: State, p: nat, q: nat)
    requires |s.procs| == |r| && p < |r| && q < |r|
  {
    var c := s.Chan(q, p);
    match s.procs[p].ctl
    case Loop => c != [] ==> c[0].Header? && c[0].sender == q
    case GotRequest(z) => z == q && c != [] ==> Slot(r[q].requests, p) >= 0 && c[0] == Info(InfoOf(r, q, p))
    case GotReply(z) => z == q && c != [] ==> Slot(r[p].requests, q) >= 0 && c[0] == Payload(AnswerOf(r, p, q))
    case Corrupt => false
    case _ => true
  }

  lemma FramedView(v: View, w: View)
    requires v.Ok() && w.Ok() && Opposite(v, w) && w.c != []
    ensures v.ctl == Loop ==> w.c[0].Header? && w.c[0].sender == w.p
    ensures v.ctl == GotRequest(v.q) ==> w.slot != -1 && w.c[0] == Info(w.info)
    ensures v.ctl == GotReply(v.q) ==> v.slot != -1 && w.c[0] == Payload(w.answer)
  {
    if v.ctl == Loop {
      HeaderFirst(v, w);
    } else if v.ctl == GotRequest(v.q) {
      var v', w' := TakeInfoView(v, w);
    } else if v.ctl == GotReply(v.q) {
      var v', w' := TakeDataView(v, w);
    }
  }

  // Anywhere in a channel, whatever its receiver is doing, a header names its
  // sender, and what comes behind the header of a request or reply, once sent,
  // is its own payload.
  ghost predicate HeadersFollowed(r: Round, s: State, p: nat, q: nat)
    requires |s.procs| == |r| && p < |r| && q < |r|
  {
    var c := s.Chan(q, p);
    forall i | 0 <= i < |c| && c[i].Header? :: c[i].sender == q && (i + 1 < |c| ==> Follows(r, p, q, c[i].kind, c[i + 1]))
  }

  ghost predicate Follows(r: Round, p: nat, q: nat, kind: Kind, next: Msg)
    requires p < |r| && q < |r|
  {
    match kind
    case Request => next == Info(InfoOf(r, q, p))
    case Reply => next == Payload(AnswerOf(r, p, q))
    case Done => true
  }

  lemma HeadersView(v: View, i: nat)
    requires v.Ok() && i < |v.c| && v.c[i].Header?
    ensures v.c[i].sender == v.p
    ensures i + 1 < |v.c| && v.c[i].kind == Request ==> v.c[i + 1] == Info(v.info)
    ensures i + 1 < |v.c| && v.c[i].kind == Reply ==> v.c[i + 1] == Payload(v.answer)
  {
    var A, B, D := RequestPart(v.mine, v.p, v.info), ReplyPart(v.theirs, v.p, v.answer), DonePart(v.d, v.p);
    assert D != [] ==> |A| == 0;
    assert v.mine == HdrSent ==> B == [];
    if v.theirs == RepLeft {
      assert v.c == B + D;
    } else if v.theirs == RepFlight && v.c == A + B + D {
    } else if v.theirs == RepFlight || v.theirs == RepHdr {
      assert v.c == A + D + B;
    }
  }

  lemma FramedState(r: Round, s: State, a: Aux, p: nat, q: nat)
    requires Inv(r, s, a) && p < |r| && q < |r|
    ensures Framed(r, s, p, q)
  {
    assert CountersOk(r, s, a, p);
    if s.Chan(q, p) != [] {
      FramedView(ViewOf(r, s, a, p, q), ViewOf(r, s, a, q, p));
    }
  }

  lemma HeadersState(r: Round, s: State, a: Aux, p: nat, q: nat)
    requires Inv(r, s, a) && p < |r| && q < |r|
    ensures HeadersFollowed(r, s, p, q)
  {
    var v := ViewOf(r, s, a, q, p);
    forall i | 0 <= i < |v.c| && v.c[i].Header?
      ensures v.c[i].sender == q && (i + 1 < |v.c| ==> Follows(r, p, q, v.c[i].kind, v.c[i + 1]))
    {
      HeadersView(v, i);
    }
  }

  // Both, for every pair of processes in every reachable state.
  lemma Framing(r: Round, run: seq<State>, p: nat, q: nat)
    requires ValidRound(r) && Run(r, run) && p < |r| && q < |r|
    ensures |run[|run| - 1].procs| == |r| && Framed(r, run[|run| - 1], p, q) && HeadersFollowed(r, run[|run| - 1], p, q)
  {
    var a := RunInvariant(r, run);
    FramedState(r, run[|run| - 1], a, p, q);
    HeadersState(r, run[|run| - 1], a, p, q);
  }

  // ------------------------------------------- remaining_requests is exact

  // p's request to q is in flight or being served, or its reply is in flight.
  ghost predicate Outstanding(r: Round, s: State, p: nat, q: nat)
    requires |s.procs| == |r| && p < |r| && q < |r|
  {
    var cp, cq, slot := s.procs[p].ctl, s.procs[q].ctl, Slot(r[p].requests, q);
    && !(cp.Sending? && slot >= cp.k)
    && (|| Header(Request, p) in s.Chan(p, q) || cq == GotRequest(p)
        || (cq.Replying? && cq.to == p)
        || Header(Reply, q) in s.Chan(q, p) || cp == GotReply(q))
  }

  lemma OutstandingView(v: View, w: View)
    requires v.Ok() && w.Ok() && Opposite(v, w) && v.slot >= -1
    ensures Pending(v.mine) <==>
      && !(v.ctl.Sending? && v.slot >= v.ctl.k)
      && (|| Header(Request, v.p) in v.c || w.ctl == GotRequest(w.q)
          || (w.ctl.Replying? && w.ctl.to == w.q)
          || Header(Reply, w.p) in w.c || v.ctl == GotReply(v.q))
  {
    RequestHeaderIn(v);
    ReplyHeaderIn(w);
  }

  lemma RequestHeaderIn(v: View)
    requires v.Ok()
    ensures Header(Request, v.p) in v.c <==> v.mine == HdrSent || v.mine == InFlight
  {
    var A, B, D := RequestPart(v.mine, v.p, v.info), ReplyPart(v.theirs, v.p, v.answer), DonePart(v.d, v.p);
    assert Header(Request, v.p) !in B && Header(Request, v.p) !in D;
    assert Header(Request, v.p) in A <==> v.mine == HdrSent || v.mine == InFlight;
  }

  lemma ReplyHeaderIn(w: View)
    requires w.Ok()
    ensures Header(Reply, w.p) in w.c <==> w.theirs == RepHdr || w.theirs == RepFlight
  {
    var A, B, D := RequestPart(w.mine, w.p, w.info), ReplyPart(w.theirs, w.p, w.answer), DonePart(w.d, w.p);
    assert Header(Reply, w.p) !in A && Header(Reply, w.p) !in D;
    assert Header(Reply, w.p) in B <==> w.theirs == RepHdr || w.theirs == RepFlight;
  }

  ghost function OutstandingPeers(r: Round, s: State, p: nat, m: nat): set<nat>
    requires |s.procs| == |r| && p < |r| && m <= |r|
  {
    set q: nat | q < m && Outstanding(r, s, p, q)
  }

  lemma PendingIsOutstanding(r: Round, s: State, a: Aux, p: nat, q: nat)
    requires Inv(r, s, a) && p < |r| && q < |r|
    ensures Pending(a.Req(p, q)) <==> Outstanding(r, s, p, q)
  {
    OutstandingView(ViewOf(r, s, a, p, q), ViewOf(r, s, a, q, p));
  }

  lemma {:induction false} PendingAreOutstanding(r: Round, s: State, a: Aux, p: nat, m: nat)
    requires Inv(r, s, a) && p < |r| && m <= |r|
    ensures PendingCount(a, p, m) == |OutstandingPeers(r, s, p, m)|
  {
    if m == 0 {
      assert OutstandingPeers(r, s, p, 0) == {};
    } else {
      PendingAreOutstanding(r, s, a, p, m - 1);
      PendingIsOutstanding(r, s, a, p, m - 1);
      OneMore(r, s, p, m);
    }
  }

  lemma OneMore(r: Round, s: State, p: nat, m: nat)
    requires |s.procs| == |r| && p < |r| && 0 < m <= |r|
    ensures |OutstandingPeers(r, s, p, m)|
         == |OutstandingPeers(r, s, p, m - 1)| + (if Outstanding(r, s, p, m - 1) then 1 else 0)
  {
    var before := OutstandingPeers(r, s, p, m - 1);
    assert OutstandingPeers(r, s, p, m) == if Outstanding(r, s, p, m - 1) then before + {m - 1} else before;
  }

  // remaining_requests counts exactly the peers whose answer is still due.
  lemma RemainingIsExact(r: Round, run: seq<State>, p: nat)
    requires ValidRound(r) && Run(r, run) && p < |r|
    ensures |run[|run| - 1].procs| == |r|
    ensures run[|run| - 1].procs[p].remaining == |OutstandingPeers(r, run[|run| - 1], p, |r|)|
  {
    var a := RunInvariant(r, run);
    var s := run[|run| - 1];
    assert CountersOk(r, s, a, p);
    PendingAreOutstanding(r, s, a, p, |r|);
  }

  // ----------------------------------------------------------- safe exit

  lemma {:induction false} AllHeard(a: Aux, p: nat, m: nat, q: nat)
    requires HeardCount(a, p, m) == m && q < m
    ensures a.Dn(q, p) == Heard
  {
    HeardAtMost(a, p, m - 1);
    if q < m - 1 {
      AllHeard(a, p, m - 1, q);
    }
  }

  lemma {:induction false} HeardAtMost(a: Aux, p: nat, m: nat)
    ensures HeardCount(a, p, m) <= m
  {
    if m > 0 {
      HeardAtMost(a, p, m - 1);
    }
  }

  // A process that announced to p has all its own requests completed.
  lemma HeardIsFinished(r: Round, s: State, a: Aux, p: nat, q: nat, z: nat)
    requires Inv(r, s, a) && p < |r| && q < |r| && z < |r| && a.Dn(q, p) != Silent
    ensures a.Req(q, z) == NoReq || a.Req(q, z) == Completed
    ensures !s.procs[q].ctl.Sending?
  {
    assert ViewOf(r, s, a, q, p).Ok() && ViewOf(r, s, a, q, z).Ok();
  }

  lemma EmptyView(w: View)
    requires w.Ok() && (w.mine == NoReq || w.mine == Completed) && (w.theirs == NoReq || w.theirs == Completed)
    ensures w.d != Announced ==> w.c == []
  {
  }

  lemma LeaverSeesNothing(r: Round, s: State, a: Aux, p: nat, q: nat, z: nat)
    requires Inv(r, s, a) && p < |r| && q < |r| && z < |r| && s.procs[p].ctl == Out
    ensures s.Chan(q, p) == []
    ensures !Pending(a.Req(q, z)) && !s.procs[q].ctl.Sending? && a.Dn(q, p) == Heard
  {
    assert CountersOk(r, s, a, p);
    AllHeard(a, p, |r|, q);
    AllHeard(a, p, |r|, p);
    HeardIsFinished(r, s, a, p, q, z);
    HeardIsFinished(r, s, a, p, q, p);
    HeardIsFinished(r, s, a, p, p, q);
    EmptyView(ViewOf(r, s, a, q, p));
  }

  lemma LeaverAnnounced(r: Round, s: State, a: Aux, p: nat)
    requires Inv(r, s, a) && p < |r| && s.procs[p].ctl == Out
    ensures s.procs[p].doneSent
  {
    LeaverSeesNothing(r, s, a, p, p, p);
    assert ViewOf(r, s, a, p, p).Ok();
  }

  // When a process has left, nothing is in flight to it, and every process
  // has sent all its requests and has all its answers.
  lemma SafeExit(r: Round, run: seq<State>, p: nat, q: nat)
    requires ValidRound(r) && Run(r, run) && p < |r| && q < |r|
    requires p < |run[|run| - 1].procs| && run[|run| - 1].procs[p].ctl == Out
    ensures var s := run[|run| - 1];
      && |s.procs| == |r| && s.Chan(q, p) == []
      && s.procs[q].remaining == 0 && !s.procs[q].ctl.Sending?
      && forall z | 0 <= z < |r| :: !Outstanding(r, s, q, z)
  {
    var a := RunInvariant(r, run);
    var s := run[|run| - 1];
    assert CountersOk(r, s, a, q);
    LeaverSeesNothing(r, s, a, p, q, p);
    forall z | 0 <= z < |r| ensures !Outstanding(r, s, q, z) && !Pending(a.Req(q, z)) {
      LeaverSeesNothing(r, s, a, p, q, z);
      PendingIsOutstanding(r, s, a, q, z);
    }
    NothingPending(a, q, |r|);
  }

  lemma {:induction false} NothingPending(a: Aux, p: nat, m: nat)
    requires forall q | 0 <= q < m :: !Pending(a.Req(p, q))
    ensures PendingCount(a, p, m) == 0
  {
    if m > 0 {
      NothingPending(a, p, m - 1);
    }
  }

  // ------------------------------------------------------------ progress

  ghost predicate Done(s: State) {
    forall p | 0 <= p < |s.procs| :: s.procs[p].ctl == Out
  }

  ghost predicate CanStep(r: Round, s: State) {
    exists p: nat, src: nat :: Enabled(r, s, p, src)
  }

  // A process in the middle of sending is never blocked.
  predicate Busy(ctl: Control) {
    ctl.Sending? || ctl.SendingDone? || ctl.Replying?
  }

  lemma BusySteps(r: Round, s: State, p: nat)
    requires |s.procs| == |r| && p < |r| && Busy(s.procs[p].ctl)
    ensures CanStep(r, s)
  {
    assert Enabled(r, s, p, p);
  }

  // A process waiting inside a handler is served by a message or by a busy
  // process.
  lemma HandlerSteps(r: Round, s: State, a: Aux, p: nat)
    requires Inv(r, s, a) && p < |r| && (s.procs[p].ctl.GotRequest? || s.procs[p].ctl.GotReply?)
    ensures CanStep(r, s)
  {
    assert CountersOk(r, s, a, p);
    var q := if s.procs[p].ctl.GotRequest? then s.procs[p].ctl.requester else s.procs[p].ctl.owner;
    WaitingView(ViewOf(r, s, a, p, q), ViewOf(r, s, a, q, p));
    if Busy(s.procs[q].ctl) {
      BusySteps(r, s, q);
    } else {
      assert Enabled(r, s, p, q);
    }
  }

  lemma WaitingView(v: View, w: View)
    requires v.Ok() && w.Ok() && Opposite(v, w) && (v.ctl == GotRequest(v.q) || v.ctl == GotReply(v.q))
    ensures Busy(w.ctl) || w.c != []
  {
  }

  // A pending request gives someone something to do.
  lemma PendingSteps(r: Round, s: State, a: Aux, p: nat, q: nat)
    requires Inv(r, s, a) && p < |r| && q < |r| && Pending(a.Req(p, q)) && s.procs[p].ctl == Loop
    ensures CanStep(r, s)
  {
    PendingView(ViewOf(r, s, a, p, q), ViewOf(r, s, a, q, p));
    assert CountersOk(r, s, a, q);
    if Busy(s.procs[q].ctl) {
      BusySteps(r, s, q);
    } else if s.procs[q].ctl == Loop {
      var x, src := if s.Chan(p, q) != [] then q else p, if s.Chan(p, q) != [] then p else q;
      assert Enabled(r, s, x, src);
    } else if s.procs[q].ctl == Out {
      LeaverSeesNothing(r, s, a, q, p, q);
    } else {
      HandlerSteps(r, s, a, q);
    }
  }

  lemma PendingView(v: View, w: View)
    requires v.Ok() && w.Ok() && Opposite(v, w) && Pending(v.mine) && v.ctl == Loop
    ensures v.c != [] || w.c != [] || Busy(w.ctl) || w.ctl.GotRequest? || w.ctl.GotReply?
  {
  }

  lemma {:induction false} SomePending(a: Aux, p: nat, m: nat) returns (q: nat)
    requires PendingCount(a, p, m) > 0
    ensures q < m && Pending(a.Req(p, q))
  {
    if Pending(a.Req(p, m - 1)) {
      q := m - 1;
    } else {
      q := SomePending(a, p, m - 1);
    }
  }

  lemma {:induction false} SomeUnheard(a: Aux, p: nat, m: nat) returns (q: nat)
    requires HeardCount(a, p, m) != m
    ensures q < m && a.Dn(q, p) != Heard
  {
    if a.Dn(m - 1, p) != Heard {
      q := m - 1;
    } else {
      q := SomeUnheard(a, p, m - 1);
    }
  }

  // A process in its loop that has not announced can go on, or is owed an
  // answer.
  lemma SilentSteps(r: Round, s: State, a: Aux, p: nat)
    requires Inv(r, s, a) && p < |r| && s.procs[p].ctl == Loop && !s.procs[p].doneSent
    ensures CanStep(r, s)
  {
    assert CountersOk(r, s, a, p);
    if s.procs[p].remaining == 0 {
      assert Enabled(r, s, p, p);
    } else {
      var q := SomePending(a, p, |r|);
      PendingSteps(r, s, a, p, q);
    }
  }

  lemma LoopSteps(r: Round, s: State, a: Aux, p: nat)
    requires Inv(r, s, a) && p < |r| && s.procs[p].ctl == Loop
    ensures CanStep(r, s)
  {
    assert CountersOk(r, s, a, p);
    if !s.procs[p].doneSent {
      SilentSteps(r, s, a, p);
    } else if s.procs[p].doneCount == |r| {
      assert Enabled(r, s, p, p);
    } else {
      var q := SomeUnheard(a, p, |r|);
      assert ViewOf(r, s, a, q, p).Ok();
      UnheardView(ViewOf(r, s, a, q, p));
      assert CountersOk(r, s, a, q);
      if a.Dn(q, p) == Announced {
        assert Enabled(r, s, p, q);
      } else if Busy(s.procs[q].ctl) {
        BusySteps(r, s, q);
      } else if s.procs[q].ctl.GotRequest? || s.procs[q].ctl.GotReply? {
        HandlerSteps(r, s, a, q);
      } else if s.procs[q].ctl == Out {
        LeaverAnnounced(r, s, a, q);
      } else {
        SilentSteps(r, s, a, q);
      }
    }
  }

  lemma UnheardView(w: View)
    requires w.Ok()
    ensures w.d == Announced ==> w.c != []
    ensures w.d == Silent && !w.ctl.SendingDone? ==> !w.doneSent
  {
  }

  // As long as a process has not left, some process can take a step.
  lemma Progress(r: Round, run: seq<State>)
    requires ValidRound(r) && Run(r, run) && !Done(run[|run| - 1])
    ensures CanStep(r, run[|run| - 1])
  {
    var a := RunInvariant(r, run);
    var s := run[|run| - 1];
    var p :| 0 <= p < |s.procs| && s.procs[p].ctl != Out;
    if Busy(s.procs[p].ctl) {
      BusySteps(r, s, p);
    } else if s.procs[p].ctl == Loop {
      LoopSteps(r, s, a, p);
    } else {
      assert CountersOk(r, s, a, p);
      HandlerSteps(r, s, a, p);
    }
  }

  lemma {:induction false} RowBound(a: Aux, p: nat, m: nat)
    ensures RowMeasure(a, p, m) <= 12 * m
  {
    if m > 0 {
      RowBound(a, p, m - 1);
    }
  }

  lemma {:induction false} PairsBound(a: Aux, n: nat, m: nat)
    ensures PairsMeasure(a, n, m) <= 12 * n * m
  {
    if m > 0 {
      PairsBound(a, n, m - 1);
      RowBound(a, m - 1, n);
      assert 12 * n * m == 12 * n * (m - 1) + 12 * n;
    }
  }

  lemma {:induction false} PhaseBound(procs: seq<Proc>)
    ensures PhaseMeasure(procs) <= 4 * |procs|
  {
    if |procs| > 0 {
      PhaseBound(procs[1..]);
    }
  }

  // Whatever the schedule, a round of n processes takes at most
  // 12 n n + 4 n steps; with Progress, every schedule ends with all out.
  lemma Termination(r: Round, run: seq<State>)
    requires ValidRound(r) && Run(r, run)
    ensures |run| - 1 <= 12 * |r| * |r| + 4 * |r|
  {
    var a := RunInvariant(r, run);
    PairsBound(InitialAux(r), |r|, |r|);
    PhaseBound(run[0].procs);
  }

  // A round leaves no message behind.
  lemma AllOutAllEmpty(r: Round, run: seq<State>, p: nat, q: nat)
    requires ValidRound(r) && Run(r, run) && p < |r| && q < |r| && Done(run[|run| - 1])
    ensures run[|run| - 1].Chan(p, q) == []
  {
    var a := RunInvariant(r, run);
    SafeExit(r, run, q, p);
  }
}
