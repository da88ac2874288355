// Two rounds of LoadSubgrid, one after the other. The barrier at the head of a
// round is commented out (runtime/grid_mpi.cc:876) and headers are taken from
// any source, so a process that has left a round may send a request of the next
// one to a process that is still in the first, which then answers from the grid
// of the first.
module LoadRounds {
  import opened MixedRadix
  import opened Subgrid
  import opened GridSpace
  import opened LoadProtocol

  // Process p enters a round while others may still be in the one before.
  ghost function Enter(next: Round, s: State, p: nat): State
    requires p < |s.procs| && p < |next|
  {
    s.With(p, Proc(Sending(0, false), 0, 0, false, seq(VolumeOf(next[p].remoteSize), i => 0.0)))
  }

  ghost function VolumeOf(size: IndexArray): nat {
    if Volume(size) < 0 then 0 else Volume(size)
  }

  // It sends its first request.
  ghost function AsksFirst(next: Round, s: State, p: nat): State
    requires p < |s.procs| == |next|
  {
    SendStep(next, SendStep(next, Enter(next, s, p), p, 0, false), p, 0, true)
  }

  lemma Advance(r: Round, run: seq<State>, p: nat, src: nat) returns (run': seq<State>, s': State)
    requires Run(r, run) && Enabled(r, run[|run| - 1], p, src)
    ensures Run(r, run') && |run'| > 0 && s' == run'[|run'| - 1] && s' == Step(r, run[|run| - 1], p, src)
  {
    s' := Step(r, run[|run| - 1], p, src);
    run' := run + [s'];
    assert Next(r, run[|run| - 1], s');
  }

  // A process in the receive loop with nothing left to fetch.
  ghost predicate Idle(s: State, p: nat, count: nat, sent: bool) {
    && p < |s.procs| && s.procs[p].ctl == Loop && s.procs[p].remaining == 0
    && s.procs[p].doneCount == count && s.procs[p].doneSent == sent
  }

  ghost function DoneTo(p: nat, i: nat): seq<Msg> { if i == p then [] else [Header(Done, p)] }

  lemma AnnounceTo(r: Round, run: seq<State>, p: nat, i: nat) returns (run': seq<State>, s': State)
    requires |r| == 3 && Run(r, run) && p < 3 && i < 3
    requires var s := run[|run| - 1]; |s.procs| == 3 && s.procs[p].ctl == SendingDone(i)
    ensures Run(r, run') && |run'| > 0 && s' == run'[|run'| - 1] && |s'.procs| == 3
    ensures var s := run[|run| - 1];
      && s'.procs == s.procs[p := s.procs[p].(ctl := SendingDone(i + 1),
                                              doneCount := s.procs[p].doneCount + if i == p then 1 else 0)]
      && forall x: nat, y: nat :: s'.Chan(x, y) == if x == p && y == i then s.Chan(x, y) + DoneTo(p, i) else s.Chan(x, y)
  {
    run', s' := Advance(r, run, p, p);
  }

  // It announces that it is done.
  lemma Announces(r: Round, run: seq<State>, p: nat, count: nat) returns (run': seq<State>, s': State)
    requires |r| == 3 && Run(r, run) && p < 3 && count < 3
    requires |run[|run| - 1].procs| == 3 && Idle(run[|run| - 1], p, count, false)
    ensures Run(r, run') && |run'| > 0 && s' == run'[|run'| - 1] && |s'.procs| == 3 && Idle(s', p, count + 1, true)
    ensures s'.procs == run[|run| - 1].procs[p := s'.procs[p]]
    ensures forall x: nat, y: nat | x < 3 && y < 3 ::
      s'.Chan(x, y) == if x == p then run[|run| - 1].Chan(x, y) + DoneTo(p, y) else run[|run| - 1].Chan(x, y)
  {
    var first, last;
    run', first := Advance(r, run, p, p);
    run', s' := AnnounceTo(r, run', p, 0);
    run', s' := AnnounceTo(r, run', p, 1);
    run', last := AnnounceTo(r, run', p, 2);
    run', s' := Advance(r, run', p, p);
    assert first.chan == run[|run| - 1].chan && s'.chan == last.chan;
    forall x: nat, y: nat | x < 3 && y < 3
      ensures s'.Chan(x, y) == if x == p then run[|run| - 1].Chan(x, y) + DoneTo(p, y) else run[|run| - 1].Chan(x, y)
    {
      assert s'.Chan(x, y) == last.Chan(x, y) && first.Chan(x, y) == run[|run| - 1].Chan(x, y);
    }
  }

  // It hears the announcement of another.
  lemma Hears(r: Round, run: seq<State>, p: nat, q: nat, count: nat) returns (run': seq<State>, s': State)
    requires |r| == 3 && Run(r, run) && p < 3 && q < 3 && count < 3
    requires var s := run[|run| - 1]; |s.procs| == 3 && Idle(s, p, count, true) && s.Chan(q, p) == [Header(Done, q)]
    ensures Run(r, run') && |run'| > 0 && s' == run'[|run'| - 1] && |s'.procs| == 3 && Idle(s', p, count + 1, true)
    ensures s'.procs == run[|run| - 1].procs[p := s'.procs[p]]
    ensures forall x: nat, y: nat | x < 3 && y < 3 ::
      s'.Chan(x, y) == if x == q && y == p then [] else run[|run| - 1].Chan(x, y)
  {
    run', s' := Advance(r, run, p, q);
  }

  // Process p has sent its requests, there being none.
  lemma Starts(r: Round, run: seq<State>, p: nat) returns (run': seq<State>, s': State)
    requires |r| == 3 && Run(r, run) && p < 3 && r[p].requests == []
    requires |run[|run| - 1].procs| == 3 && run[|run| - 1].procs[p].ctl == Sending(0, false)
    ensures Run(r, run') && |run'| > 0 && s' == run'[|run'| - 1]
    ensures s' == run[|run| - 1].With(p, run[|run| - 1].procs[p].(ctl := Loop))
  {
    run', s' := Advance(r, run, p, p);
  }

  lemma AllStart(r: Round) returns (run: seq<State>, s: State)
    requires ValidRound(r) && |r| == 3 && forall p | 0 <= p < 3 :: r[p].requests == [] && NonNegative(r[p].remoteSize)
    ensures Run(r, run) && |run| > 0 && s == run[|run| - 1] && |s.procs| == 3
    ensures forall p: nat | p < 3 :: Idle(s, p, 0, false)
    ensures forall x: nat, y: nat :: s.Chan(x, y) == []
  {
    forall p | 0 <= p < 3 ensures Volume(r[p].remoteSize) >= 0 {
      VolumeSign(r[p].remoteSize);
    }
    s := State(seq(3, p requires 0 <= p < 3 =>
      Proc(Sending(0, false), 0, 0, false, seq(VolumeOf(r[p].remoteSize), i => 0.0))), map[]);
    run := [s];
    assert Init(r, s);
    run, s := Starts(r, run, 0);
    run, s := Starts(r, run, 1);
    run, s := Starts(r, run, 2);
  }

  lemma AllAnnounce(r: Round) returns (run: seq<State>, s: State)
    requires ValidRound(r) && |r| == 3 && forall p | 0 <= p < 3 :: r[p].requests == [] && NonNegative(r[p].remoteSize)
    ensures Run(r, run) && |run| > 0 && s == run[|run| - 1] && |s.procs| == 3
    ensures Idle(s, 0, 1, true) && Idle(s, 1, 1, true)
    ensures s.Chan(1, 0) == [Header(Done, 1)] && s.Chan(2, 0) == [Header(Done, 2)] && s.Chan(0, 1) == [Header(Done, 0)]
  {
    run, s := AllStart(r);
    assert Idle(s, 0, 0, false) && Idle(s, 1, 0, false) && Idle(s, 2, 0, false);
    run, s := Announces(r, run, 0, 0);
    run, s := Announces(r, run, 1, 0);
    run, s := Announces(r, run, 2, 0);
  }

  // Three processes that fetch nothing: process 0 can leave while process 1
  // has yet to hear from process 2, and nothing is in flight from 0 to 1.
  lemma LeavesEarly(r: Round) returns (run: seq<State>, s: State)
    requires ValidRound(r) && |r| == 3 && forall p | 0 <= p < 3 :: r[p].requests == [] && NonNegative(r[p].remoteSize)
    ensures Run(r, run) && |run| > 0 && s == run[|run| - 1] && |s.procs| == 3
    ensures s.procs[0].ctl == Out && Idle(s, 1, 2, true) && s.Chan(0, 1) == []
  {
    run, s := AllAnnounce(r);
    run, s := Hears(r, run, 0, 1, 1);
    run, s := Hears(r, run, 0, 2, 2);
    run, s := Hears(r, run, 1, 0, 1);
    var before := s;
    run, s := Advance(r, run, 0, 0);
    assert s.Chan(0, 1) == before.Chan(0, 1);
  }

  // What process q, in the receive loop of round r, makes of the first request
  // that process p sends in the next round.
  lemma AnswersFromItsRound(r: Round, next: Round, s: State, p: nat, q: nat) returns (s': State)
    requires |r| == |next| == |s.procs| && p < |r| && q < |r| && p != q
    requires s.procs[q].ctl == Loop && !LeavesOrAnnounces(r, s.procs[q]) && s.Chan(p, q) == []
    requires |next[p].requests| > 0 && next[p].requests[0].peer == q && Volume(next[p].requests[0].info.peerSize) != 0
    ensures var mixed := AsksFirst(next, s, p);
      Enabled(r, mixed, q, p) && Enabled(r, Step(r, mixed, q, p), q, p) && s' == Step(r, Step(r, mixed, q, p), q, p)
    ensures |s'.procs| == |r| && s'.procs[q].ctl == Replying(p, Serve(r[q], next[p].requests[0].info), false)
  {
    var mixed := AsksFirst(next, s, p);
    var info := next[p].requests[0].info;
    assert mixed.Chan(p, q) == [Header(Request, p), Info(info)];
    var taken := Step(r, mixed, q, p);
    assert taken.Chan(p, q) == [Info(info)];
    s' := Step(r, taken, q, p);
  }

  // Rounds can mix: there is a run of the first round after which process 1
  // answers a request of the next round from the grid of the first. The answer
  // is that of the next round exactly if both rounds give the same one.
  lemma RoundsMix(r: Round, next: Round) returns (run: seq<State>, s: State, s': State)
    requires ValidRound(r) && |r| == 3 && forall p | 0 <= p < 3 :: r[p].requests == [] && NonNegative(r[p].remoteSize)
    requires ValidRound(next) && |next| == 3 && |next[0].requests| > 0 && next[0].requests[0].peer == 1
    ensures Run(r, run) && s == run[|run| - 1] && |s.procs| == 3 && s.procs[0].ctl == Out
    ensures var mixed := AsksFirst(next, s, 0);
      Enabled(r, mixed, 1, 0) && Enabled(r, Step(r, mixed, 1, 0), 1, 0) && s' == Step(r, Step(r, mixed, 1, 0), 1, 0)
    ensures |s'.procs| == 3 && s'.procs[1].ctl == Replying(0, Serve(r[1], next[0].requests[0].info), false)
  {
    run, s := LeavesEarly(r);
    assert ValidFetch(next[0].requests[0], 3, Dims(next));
    s' := AnswersFromItsRound(r, next, s, 0, 1);
  }
}
