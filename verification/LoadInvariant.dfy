// The invariant of the LoadSubgrid protocol holds in every state of a round.
module LoadInvariant {
  import opened MixedRadix
  import opened Subgrid
  import opened GridSpace
  import opened LoadProtocol

  lemma {:induction false} PendingSet(a: Aux, p: nat, q: nat, st: Status, p2: nat, m: nat)
    ensures PendingCount(a.SetReq(p, q, st), p2, m)
         == PendingCount(a, p2, m)
            + (if p2 == p && q < m then (if Pending(st) then 1 else 0) - (if Pending(a.Req(p, q)) then 1 else 0) else 0)
  {
    if m > 0 {
      PendingSet(a, p, q, st, p2, m - 1);
    }
  }

  lemma {:induction false} PendingSetDone(a: Aux, p: nat, q: nat, d: DoneStatus, p2: nat, m: nat)
    ensures PendingCount(a.SetDone(p, q, d), p2, m) == PendingCount(a, p2, m)
  {
    if m > 0 {
      PendingSetDone(a, p, q, d, p2, m - 1);
    }
  }

  lemma {:induction false} HeardSet(a: Aux, p: nat, q: nat, d: DoneStatus, p2: nat, m: nat)
    ensures HeardCount(a.SetDone(p, q, d), p2, m)
         == HeardCount(a, p2, m)
            + (if p2 == q && p < m then (if d == Heard then 1 else 0) - (if a.Dn(p, q) == Heard then 1 else 0) else 0)
  {
    if m > 0 {
      HeardSet(a, p, q, d, p2, m - 1);
    }
  }

  lemma {:induction false} HeardSetReq(a: Aux, p: nat, q: nat, st: Status, p2: nat, m: nat)
    ensures HeardCount(a.SetReq(p, q, st), p2, m) == HeardCount(a, p2, m)
  {
    if m > 0 {
      HeardSetReq(a, p, q, st, p2, m - 1);
    }
  }

  // ------------------------------------------------------------- measure

  // Steps a request still has ahead of it.
  function Rank(st: Status): nat {
    match st
    case NoReq => 0 case Unsent => 10 case HdrSent => 9 case HdrTaken => 8 case InFlight => 8 case InfoLeft => 7
    case Serving => 6 case RepHdr => 5 case RepHdrTaken => 4 case RepFlight => 4 case RepLeft => 3 case Completed => 0
  }

  function DoneRank(d: DoneStatus): nat {
    match d case Silent => 2 case Announced => 1 case Heard => 0
  }

  // Phases a process still has ahead of it.
  function Phase(pr: Proc): nat {
    match pr.ctl
    case Sending(_, _) => 4
    case SendingDone(_) => 2
    case Out => 0
    case _ => if pr.doneSent then 1 else 3
  }

  function RowMeasure(a: Aux, p: nat, m: nat): nat {
    if m == 0 then 0 else RowMeasure(a, p, m - 1) + Rank(a.Req(p, m - 1)) + DoneRank(a.Dn(p, m - 1))
  }

  function PairsMeasure(a: Aux, n: nat, m: nat): nat {
    if m == 0 then 0 else PairsMeasure(a, n, m - 1) + RowMeasure(a, m - 1, n)
  }

  function PhaseMeasure(procs: seq<Proc>): nat {
    if |procs| == 0 then 0 else Phase(procs[0]) + PhaseMeasure(procs[1..])
  }

  // Unsent, in-flight and unanswered messages, and phases still to come.
  function Measure(r: Round, s: State, a: Aux): nat {
    PairsMeasure(a, |r|, |r|) + PhaseMeasure(s.procs)
  }

  lemma {:induction false} RowSet(a: Aux, p: nat, q: nat, st: Status, p2: nat, m: nat)
    ensures RowMeasure(a.SetReq(p, q, st), p2, m)
         == RowMeasure(a, p2, m) + (if p2 == p && q < m then Rank(st) - Rank(a.Req(p, q)) else 0)
  {
    if m > 0 {
      RowSet(a, p, q, st, p2, m - 1);
    }
  }

  lemma {:induction false} PairsSet(a: Aux, p: nat, q: nat, st: Status, n: nat, m: nat)
    requires q < n
    ensures PairsMeasure(a.SetReq(p, q, st), n, m)
         == PairsMeasure(a, n, m) + (if p < m then Rank(st) - Rank(a.Req(p, q)) else 0)
  {
    if m > 0 {
      PairsSet(a, p, q, st, n, m - 1);
      RowSet(a, p, q, st, m - 1, n);
    }
  }

  lemma {:induction false} RowSetDone(a: Aux, p: nat, q: nat, d: DoneStatus, p2: nat, m: nat)
    ensures RowMeasure(a.SetDone(p, q, d), p2, m)
         == RowMeasure(a, p2, m) + (if p2 == p && q < m then DoneRank(d) - DoneRank(a.Dn(p, q)) else 0)
  {
    if m > 0 {
      RowSetDone(a, p, q, d, p2, m - 1);
    }
  }

  lemma {:induction false} PairsSetDone(a: Aux, p: nat, q: nat, d: DoneStatus, n: nat, m: nat)
    requires q < n
    ensures PairsMeasure(a.SetDone(p, q, d), n, m)
         == PairsMeasure(a, n, m) + (if p < m then DoneRank(d) - DoneRank(a.Dn(p, q)) else 0)
  {
    if m > 0 {
      PairsSetDone(a, p, q, d, n, m - 1);
      RowSetDone(a, p, q, d, m - 1, n);
    }
  }

  lemma {:induction false} PhaseSet(procs: seq<Proc>, x: nat, pr: Proc)
    requires x < |procs|
    ensures PhaseMeasure(procs[x := pr]) == PhaseMeasure(procs) + Phase(pr) - Phase(procs[x])
  {
    if x == 0 {
      assert procs[x := pr][1..] == procs[1..];
    } else {
      PhaseSet(procs[1..], x - 1, pr);
      assert procs[x := pr][1..] == procs[1..][x - 1 := pr];
    }
  }

  // The counters after the status of one request changed: only p's count of
  // pending requests can differ.
  lemma CountersAfterReq(r: Round, s: State, a: Aux, p: nat, q: nat, st: Status, s': State, x: nat)
    requires Inv(r, s, a) && |s'.procs| == |r| && p < |r| && q < |r| && x < |r|
    requires forall z | 0 <= z < |r| && z != x :: s'.procs[z] == s.procs[z]
    requires PeerOk(s'.procs[x].ctl, |r|)
    requires s'.procs[x].doneCount == s.procs[x].doneCount && !s'.procs[x].ctl.Out?
    requires var delta := (if Pending(st) then 1 else 0) - (if Pending(a.Req(p, q)) then 1 else 0);
      && s'.procs[x].remaining == s.procs[x].remaining + (if x == p then delta else 0)
      && (x != p ==> delta == 0)
    ensures forall z | 0 <= z < |r| :: CountersOk(r, s', a.SetReq(p, q, st), z)
  {
    forall z | 0 <= z < |r| ensures CountersOk(r, s', a.SetReq(p, q, st), z) {
      assert CountersOk(r, s, a, z);
      PendingSet(a, p, q, st, z, |r|);
      HeardSetReq(a, p, q, st, z, |r|);
    }
  }

  lemma CountersAfterDone(r: Round, s: State, a: Aux, p: nat, q: nat, d: DoneStatus, s': State, x: nat)
    requires Inv(r, s, a) && |s'.procs| == |r| && p < |r| && q < |r| && x < |r|
    requires forall z | 0 <= z < |r| && z != x :: s'.procs[z] == s.procs[z]
    requires PeerOk(s'.procs[x].ctl, |r|)
    requires s'.procs[x].remaining == s.procs[x].remaining && !s'.procs[x].ctl.Out?
    requires var delta := (if d == Heard then 1 else 0) - (if a.Dn(p, q) == Heard then 1 else 0);
      && s'.procs[x].doneCount == s.procs[x].doneCount + (if x == q then delta else 0)
      && (x != q ==> delta == 0)
    ensures forall z | 0 <= z < |r| :: CountersOk(r, s', a.SetDone(p, q, d), z)
  {
    forall z | 0 <= z < |r| ensures CountersOk(r, s', a.SetDone(p, q, d), z) {
      assert CountersOk(r, s, a, z);
      PendingSetDone(a, p, q, d, z, |r|);
      HeardSet(a, p, q, d, z, |r|);
    }
  }

  lemma SlotOf(requests: seq<Fetch>, k: nat, n: nat, dims: nat)
    requires ValidRequests(requests, n, dims) && k < |requests|
    ensures Slot(requests, requests[k].peer) == k
  {
    var j := Slot(requests, requests[k].peer);
  }

  // Only the process x and what concerns the pair x, y has changed.
  ghost predicate OnlyPair(r: Round, s: State, a: Aux, s': State, a': Aux, x: nat, y: nat)
    requires |s.procs| == |s'.procs| == |r|
  {
    && (forall z | 0 <= z < |r| && z != x :: s'.procs[z] == s.procs[z])
    && forall p, q | 0 <= p < |r| && 0 <= q < |r| && !(p == x && q == y) && !(p == y && q == x) ::
         SameBetween(s, a, s', a', p, q)
  }

  ghost predicate SameBetween(s: State, a: Aux, s': State, a': Aux, p: nat, q: nat) {
    s'.Chan(p, q) == s.Chan(p, q) && a'.Req(p, q) == a.Req(p, q) && a'.Dn(p, q) == a.Dn(p, q)
  }

  lemma Others(r: Round, s: State, a: Aux, s': State, a': Aux, x: nat, y: nat, p: nat, q: nat)
    requires |s.procs| == |s'.procs| == |r| && OnlyPair(r, s, a, s', a', x, y)
    requires p < |r| && q < |r| && x < |r| && y < |r| && !(p == x && q == y) && !(p == y && q == x)
    ensures ViewOf(r, s', a', p, q)
         == ViewOf(r, s, a, p, q).(ctl := s'.procs[p].ctl, doneSent := s'.procs[p].doneSent)
    ensures p != x ==> ViewOf(r, s', a', p, q) == ViewOf(r, s, a, p, q)
  {
    assert SameBetween(s, a, s', a', p, q) && SameBetween(s, a, s', a', q, p);
  }

  // The invariant holds again if it does for everything that involves x.
  lemma Conclude(r: Round, s: State, a: Aux, s': State, a': Aux, x: nat, y: nat)
    requires Inv(r, s, a) && |s'.procs| == |r| && OnlyPair(r, s, a, s', a', x, y) && x < |r| && y < |r|
    requires forall z | 0 <= z < |r| :: ViewOf(r, s', a', x, z).Ok()
    requires ViewOf(r, s', a', y, x).Ok()
    requires forall z | 0 <= z < |r| :: CountersOk(r, s', a', z)
    ensures Inv(r, s', a')
  {
    forall p, q | 0 <= p < |r| && 0 <= q < |r| ensures ViewOf(r, s', a', p, q).Ok() {
      if p != x && !(p == y && q == x) {
        Others(r, s, a, s', a', x, y, p, q);
      }
    }
  }

  // The control state does not concern q.
  ghost predicate Elsewhere(ctl: Control, q: nat) {
    match ctl
    case GotRequest(z) => z != q
    case Replying(z, _, _) => z != q
    case GotReply(z) => z != q
    case Corrupt => false
    case Sending(_, _) => false
    case SendingDone(i) => i != q
    case _ => true
  }

  // A process that is not sending turns from one thing that does not concern
  // q to another.
  ghost predicate Turns(ctl: Control, ctl': Control) {
    match ctl
    case SendingDone(i) => ctl' == SendingDone(i + 1)
    case _ => !ctl'.SendingDone?
  }

  lemma BystanderView(v: View, ctl': Control)
    requires v.Ok() && Elsewhere(v.ctl, v.q) && Turns(v.ctl, ctl')
    requires ctl'.SendingDone? || Elsewhere(ctl', v.q)
    ensures v.(ctl := ctl').Ok()
  {
  }

  // The two views of a pair.
  ghost predicate Opposite(v: View, w: View) {
    && v.p == w.q && v.q == w.p && v.mine == w.theirs && v.theirs == w.mine
    && (v.p == v.q ==> v == w)
  }

  // The views after v's process took the control state ctl, one request of
  // the pair (v's own one if mine) came to status st, and the channels from v
  // and to v hold out and in.
  ghost predicate Moved(v: View, w: View, v': View, w': View, mine: bool, st: Status, ctl: Control,
                        out: seq<Msg>, in_: seq<Msg>)
  {
    && v' == (if mine then v.(mine := st, theirs := if v.p == v.q then st else v.theirs, ctl := ctl, c := out)
              else v.(theirs := st, mine := if v.p == v.q then st else v.mine, ctl := ctl, c := out))
    && w' == (if v.p == v.q then v' else if mine then w.(theirs := st, c := in_) else w.(mine := st, c := in_))
  }

  // v's process adds a message, or takes the first one of w's channel.
  ghost predicate Pushes(v: View, w: View, v': View, w': View, mine: bool, st: Status, ctl: Control, m: Msg) {
    Moved(v, w, v', w', mine, st, ctl, v.c + [m], w.c)
  }

  ghost predicate Pops(v: View, w: View, v': View, w': View, mine: bool, st: Status, ctl: Control) {
    Moved(v, w, v', w', mine, st, ctl, if v.p == v.q then Tail(v.c) else v.c, Tail(w.c))
  }

  function Tail(c: seq<Msg>): seq<Msg> {
    if |c| == 0 then [] else c[1..]
  }

  // Sending the header of a request, and the piece behind it.
  lemma SendHeaderView(v: View, w: View, k: nat) returns (v': View, w': View)
    requires v.Ok() && w.Ok() && v.ctl == Sending(k, false) && v.slot == k && Opposite(v, w)
    ensures v.mine == Unsent && v'.Ok() && w'.Ok()
    ensures Pushes(v, w, v', w', true, HdrSent, Sending(k, true), Header(Request, v.p))
  {
    v' := v.(mine := HdrSent, theirs := if v.p == v.q then HdrSent else v.theirs,
             ctl := Sending(k, true), c := v.c + [Header(Request, v.p)]);
    w' := if v.p == v.q then v' else w.(theirs := HdrSent);
  }

  lemma SendInfoView(v: View, w: View, k: nat) returns (v': View, w': View)
    requires v.Ok() && w.Ok() && v.ctl == Sending(k, true) && v.slot == k && Opposite(v, w)
    ensures v.mine == HdrSent || v.mine == HdrTaken
    ensures v'.Ok() && w'.Ok() && (v'.mine == InFlight || v'.mine == InfoLeft) && Rank(v'.mine) < Rank(v.mine)
    ensures Pushes(v, w, v', w', true, v'.mine, Sending(k + 1, false), Info(v.info))
  {
    var st := if v.mine == HdrSent then InFlight else InfoLeft;
    v' := v.(mine := st, theirs := if v.p == v.q then st else v.theirs,
             ctl := Sending(k + 1, false), c := v.c + [Info(v.info)]);
    w' := if v.p == v.q then v' else w.(theirs := st);
  }

  // A process at the head of its loop finds a header at the head of every
  // channel, sent by the process at the other end.
  lemma HeaderFirst(v: View, w: View)
    requires v.Ok() && w.Ok() && v.ctl == Loop && Opposite(v, w) && w.c != []
    ensures w.c[0].Header? && w.c[0].sender == w.p
  {
  }

  // Where the header of a request can be.
  lemma RequestAhead(v: View, w: View)
    requires v.Ok() && w.Ok() && v.ctl == Loop && Opposite(v, w)
    requires w.c != [] && w.c[0].Header? && w.c[0].kind == Request
    ensures w.mine == HdrSent || w.mine == InFlight
  {
  }

  lemma TakeLoneHeaderView(v: View, w: View) returns (v': View, w': View)
    requires v.Ok() && w.Ok() && v.ctl == Loop && Opposite(v, w) && v.theirs == HdrSent
    requires w.c != [] && w.c[0].Header? && w.c[0].kind == Request
    ensures v'.theirs == HdrTaken && v'.Ok() && w'.Ok() && Pops(v, w, v', w', false, HdrTaken, GotRequest(v.q))
  {
    v' := v.(theirs := HdrTaken, mine := if v.p == v.q then HdrTaken else v.mine,
             ctl := GotRequest(v.q), c := if v.p == v.q then Tail(v.c) else v.c);
    w' := if v.p == v.q then v' else w.(mine := HdrTaken, c := Tail(w.c));
  }

  lemma TakeFollowedHeaderView(v: View, w: View) returns (v': View, w': View)
    requires v.Ok() && w.Ok() && v.ctl == Loop && Opposite(v, w) && v.theirs == InFlight
    requires w.c != [] && w.c[0].Header? && w.c[0].kind == Request
    ensures v'.theirs == InfoLeft && v'.Ok() && w'.Ok() && Pops(v, w, v', w', false, InfoLeft, GotRequest(v.q))
  {
    v' := v.(theirs := InfoLeft, mine := if v.p == v.q then InfoLeft else v.mine,
             ctl := GotRequest(v.q), c := if v.p == v.q then Tail(v.c) else v.c);
    w' := if v.p == v.q then v' else w.(mine := InfoLeft, c := Tail(w.c));
  }

  // Receiving the header of a request.
  lemma TakeRequestView(v: View, w: View) returns (v': View, w': View)
    requires v.Ok() && w.Ok() && v.ctl == Loop && Opposite(v, w)
    requires w.c != [] && w.c[0].Header? && w.c[0].kind == Request
    ensures v'.Ok() && w'.Ok() && Rank(v'.theirs) < Rank(v.theirs) && Delta(v.theirs, v'.theirs, 0)
    ensures Pops(v, w, v', w', false, v'.theirs, GotRequest(v.q))
  {
    RequestAhead(v, w);
    if v.theirs == HdrSent {
      v', w' := TakeLoneHeaderView(v, w);
    } else {
      v', w' := TakeFollowedHeaderView(v, w);
    }
  }

  lemma ReplyAhead(v: View, w: View)
    requires v.Ok() && w.Ok() && v.ctl == Loop && Opposite(v, w)
    requires w.c != [] && w.c[0].Header? && w.c[0].kind == Reply
    ensures w.theirs == RepHdr || w.theirs == RepFlight
    ensures RequestPart(w.mine, w.p, w.info) == []
    ensures w.theirs == RepHdr ==> Tail(w.c) == [] && w.d != Announced
    ensures w.theirs == RepFlight ==> Tail(w.c) == [Payload(w.answer)] + DonePart(w.d, w.p)
  {
  }

  // Receiving the header of a reply.
  lemma TakeReplyView(v: View, w: View) returns (v': View, w': View)
    requires v.Ok() && w.Ok() && v.ctl == Loop && Opposite(v, w)
    requires w.c != [] && w.c[0].Header? && w.c[0].kind == Reply
    ensures v'.Ok() && w'.Ok() && Rank(v'.mine) < Rank(v.mine) && Delta(v.mine, v'.mine, 0)
    ensures Pops(v, w, v', w', true, v'.mine, GotReply(v.q))
  {
    ReplyAhead(v, w);
    if v.mine == RepHdr {
      v' := v.(mine := RepHdrTaken, theirs := if v.p == v.q then RepHdrTaken else v.theirs,
               ctl := GotReply(v.q), c := if v.p == v.q then Tail(v.c) else v.c);
      w' := if v.p == v.q then v' else w.(theirs := RepHdrTaken, c := Tail(w.c));
    } else {
      v' := v.(mine := RepLeft, theirs := if v.p == v.q then RepLeft else v.theirs,
               ctl := GotReply(v.q), c := if v.p == v.q then Tail(v.c) else v.c);
      w' := if v.p == v.q then v' else w.(theirs := RepLeft, c := Tail(w.c));
    }
  }

  // Receiving an announcement; it never comes from the process itself.
  lemma TakeDoneView(v: View, w: View) returns (w': View)
    requires v.Ok() && w.Ok() && v.ctl == Loop && Opposite(v, w)
    requires w.c != [] && w.c[0].Header? && w.c[0].kind == Done
    ensures v.p != v.q && w.d == Announced && w' == w.(d := Heard, c := Tail(w.c)) && w'.Ok()
  {
    w' := w.(d := Heard, c := Tail(w.c));
  }

  // Receiving the piece behind the header of a request.
  lemma TakeInfoView(v: View, w: View) returns (v': View, w': View)
    requires v.Ok() && w.Ok() && v.ctl == GotRequest(v.q) && Opposite(v, w) && w.c != []
    ensures v.theirs == InfoLeft && w.c[0] == Info(w.info) && v'.Ok() && w'.Ok()
    ensures Pops(v, w, v', w', false, Serving, Replying(v.q, v.answer, false))
  {
    v' := v.(theirs := Serving, mine := if v.p == v.q then Serving else v.mine,
             ctl := Replying(v.q, v.answer, false), c := if v.p == v.q then Tail(v.c) else v.c);
    w' := if v.p == v.q then v' else w.(mine := Serving, c := Tail(w.c));
  }

  lemma ReplyHeaderView(v: View, w: View) returns (v': View, w': View)
    requires v.Ok() && w.Ok() && v.ctl == Replying(v.q, v.answer, false) && Opposite(v, w)
    ensures v.theirs == Serving && v'.Ok() && w'.Ok()
    ensures Pushes(v, w, v', w', false, RepHdr, Replying(v.q, v.answer, true), Header(Reply, v.p))
  {
    v' := v.(theirs := RepHdr, mine := if v.p == v.q then RepHdr else v.mine,
             ctl := Replying(v.q, v.answer, true), c := v.c + [Header(Reply, v.p)]);
    w' := if v.p == v.q then v' else w.(mine := RepHdr);
  }

  lemma ReplyDataView(v: View, w: View) returns (v': View, w': View)
    requires v.Ok() && w.Ok() && v.ctl == Replying(v.q, v.answer, true) && Opposite(v, w)
    ensures v'.Ok() && w'.Ok() && Rank(v'.theirs) < Rank(v.theirs) && Delta(v.theirs, v'.theirs, 0)
    ensures Pushes(v, w, v', w', false, v'.theirs, Loop, Payload(v.answer))
  {
    var st := if v.theirs == RepHdr then RepFlight else RepLeft;
    v' := v.(theirs := st, mine := if v.p == v.q then st else v.mine, ctl := Loop, c := v.c + [Payload(v.answer)]);
    w' := if v.p == v.q then v' else w.(mine := st);
  }

  // Receiving the data behind the header of a reply.
  lemma TakeDataView(v: View, w: View) returns (v': View, w': View)
    requires v.Ok() && w.Ok() && v.ctl == GotReply(v.q) && Opposite(v, w) && w.c != []
    ensures v.mine == RepLeft && w.c[0] == Payload(w.answer) && v'.Ok() && w'.Ok()
    ensures Pops(v, w, v', w', true, Completed, Loop)
  {
    v' := v.(mine := Completed, theirs := if v.p == v.q then Completed else v.theirs,
             ctl := Loop, c := if v.p == v.q then Tail(v.c) else v.c);
    w' := if v.p == v.q then v' else w.(theirs := Completed, c := Tail(w.c));
  }

  lemma AnnounceView(v: View) returns (v': View)
    requires v.Ok() && v.ctl == SendingDone(v.q)
    ensures v.d == Silent && v'.Ok()
    ensures v' == if v.p == v.q then v.(ctl := SendingDone(v.q + 1), d := Heard)
                  else v.(ctl := SendingDone(v.q + 1), d := Announced, c := v.c + [Header(Done, v.p)])
  {
    v' := if v.p == v.q then v.(ctl := SendingDone(v.q + 1), d := Heard)
          else v.(ctl := SendingDone(v.q + 1), d := Announced, c := v.c + [Header(Done, v.p)]);
  }

  // ------------------------------------------------- steps keep the invariant

  // The process x changed, with regard to y only.
  ghost predicate Local(r: Round, s: State, a: Aux, s': State, x: nat, y: nat) {
    && |s.procs| == |s'.procs| == |r| && x < |r|
    && OnlyPair(r, s, a, s', a, x, y)
    && s'.procs[x].doneSent == s.procs[x].doneSent && s'.procs[x].doneCount == s.procs[x].doneCount
    && PhaseMeasure(s'.procs) <= PhaseMeasure(s.procs)
    && PeerOk(s'.procs[x].ctl, |r|) && !s'.procs[x].ctl.Out?
    && forall z | 0 <= z < |r| && z != y :: ViewOf(r, s, a, x, z).(ctl := s'.procs[x].ctl).Ok()
  }

  ghost function SetStatus(a: Aux, x: nat, y: nat, mine: bool, st: Status): Aux {
    if mine then a.SetReq(x, y, st) else a.SetReq(y, x, st)
  }

  lemma MovedViews(r: Round, s: State, a: Aux, s': State, x: nat, y: nat, mine: bool, st: Status, v: View, w: View)
    requires |s.procs| == |r| && x < |r| && y < |r| && Local(r, s, a, s', x, y)
    requires Moved(ViewOf(r, s, a, x, y), ViewOf(r, s, a, y, x), v, w, mine, st,
                   s'.procs[x].ctl, s'.Chan(x, y), s'.Chan(y, x))
    ensures var a' := SetStatus(a, x, y, mine, st);
      OnlyPair(r, s, a, s', a', x, y) && ViewOf(r, s', a', x, y) == v && ViewOf(r, s', a', y, x) == w
  {
    var a' := SetStatus(a, x, y, mine, st);
    forall p, q | 0 <= p < |r| && 0 <= q < |r| && !(p == x && q == y) && !(p == y && q == x)
      ensures SameBetween(s, a, s', a', p, q)
    {
      assert SameBetween(s, a, s', a, p, q);
    }
  }

  // After a step of x the invariant holds, the measure is smaller, and only a
  // reply that x stored has completed a request.
  ghost predicate Better(r: Round, s: State, a: Aux, s': State, a': Aux, x: nat)
    requires x < |s.procs|
  {
    Inv(r, s', a') && Measure(r, s', a') < Measure(r, s, a) && NewlyStored(s, a, a', x)
  }

  ghost predicate NewlyStored(s: State, a: Aux, a': Aux, x: nat)
    requires x < |s.procs|
  {
    forall p: nat, q: nat | a'.Req(p, q) == Completed ::
      a.Req(p, q) == Completed || (p == x && s.procs[x].ctl == GotReply(q))
  }

  ghost predicate Delta(before: Status, after: Status, change: int) {
    change == (if Pending(after) then 1 else 0) - (if Pending(before) then 1 else 0)
  }

  // A step of x that moves one request of the pair.
  lemma Move(r: Round, s: State, a: Aux, s': State, x: nat, y: nat, mine: bool, st: Status, v: View, w: View)
    requires Inv(r, s, a) && x < |r| && y < |r| && Local(r, s, a, s', x, y) && v.Ok() && w.Ok()
    requires Moved(ViewOf(r, s, a, x, y), ViewOf(r, s, a, y, x), v, w, mine, st,
                   s'.procs[x].ctl, s'.Chan(x, y), s'.Chan(y, x))
    requires var change, before := s'.procs[x].remaining - s.procs[x].remaining, if mine then a.Req(x, y) else a.Req(y, x);
      Delta(before, st, change) && (!mine ==> change == 0) && Rank(st) < Rank(before)
    requires st == Completed ==> mine && s.procs[x].ctl == GotReply(y)
    ensures Better(r, s, a, s', SetStatus(a, x, y, mine, st), x)
  {
    var a' := SetStatus(a, x, y, mine, st);
    MovedViews(r, s, a, s', x, y, mine, st, v, w);
    MoveCounters(r, s, a, s', x, y, mine, st);
    MoveMeasure(r, s, a, s', x, y, mine, st);
    MoveStored(s, a, x, y, mine, st);
    forall z | 0 <= z < |r| && z != y ensures ViewOf(r, s', a', x, z).Ok() {
      Others(r, s, a, s', a', x, y, x, z);
    }
    Conclude(r, s, a, s', a', x, y);
  }

  lemma MoveCounters(r: Round, s: State, a: Aux, s': State, x: nat, y: nat, mine: bool, st: Status)
    requires Inv(r, s, a) && x < |r| && y < |r| && Local(r, s, a, s', x, y)
    requires var change, before := s'.procs[x].remaining - s.procs[x].remaining, if mine then a.Req(x, y) else a.Req(y, x);
      Delta(before, st, change) && (!mine ==> change == 0)
    ensures forall z | 0 <= z < |r| :: CountersOk(r, s', SetStatus(a, x, y, mine, st), z)
  {
    if mine {
      CountersAfterReq(r, s, a, x, y, st, s', x);
    } else {
      CountersAfterReq(r, s, a, y, x, st, s', x);
    }
  }

  lemma MoveMeasure(r: Round, s: State, a: Aux, s': State, x: nat, y: nat, mine: bool, st: Status)
    requires x < |r| && y < |r| && PhaseMeasure(s'.procs) <= PhaseMeasure(s.procs)
    requires Rank(st) < Rank(if mine then a.Req(x, y) else a.Req(y, x))
    ensures Measure(r, s', SetStatus(a, x, y, mine, st)) < Measure(r, s, a)
  {
    if mine {
      PairsSet(a, x, y, st, |r|, |r|);
    } else {
      PairsSet(a, y, x, st, |r|, |r|);
    }
  }

  lemma MoveStored(s: State, a: Aux, x: nat, y: nat, mine: bool, st: Status)
    requires x < |s.procs| && (st == Completed ==> mine && s.procs[x].ctl == GotReply(y))
    ensures NewlyStored(s, a, SetStatus(a, x, y, mine, st), x)
  {
  }

  lemma SendingBystanderView(v: View, k: nat, h: bool)
    requires v.Ok() && v.ctl == Sending(k, h) && v.slot != k
    ensures v.(ctl := if h then Sending(k + 1, false) else Sending(k, true)).Ok()
  {
  }

  lemma SendIsLocal(r: Round, s: State, a: Aux, x: nat, k: nat, h: bool)
    requires ValidRound(r) && Inv(r, s, a) && x < |r| && s.procs[x].ctl == Sending(k, h) && k < |r[x].requests|
    ensures Local(r, s, a, SendStep(r, s, x, k, h), x, r[x].requests[k].peer)
  {
    assert ValidRequests(r[x].requests, |r|, Dims(r));
    var y := r[x].requests[k].peer;
    var s' := SendStep(r, s, x, k, h);
    PhaseSet(s.procs, x, s'.procs[x]);
    forall z | 0 <= z < |r| && z != y ensures ViewOf(r, s, a, x, z).(ctl := s'.procs[x].ctl).Ok() {
      SendingBystanderView(ViewOf(r, s, a, x, z), k, h);
    }
  }

  // Control states of a process that is dealing with y.
  predicate DealsWith(ctl: Control, y: nat) {
    ctl == Loop || ctl == GotRequest(y) || ctl == GotReply(y) || (ctl.Replying? && ctl.to == y)
  }

  lemma DealingIsLocal(r: Round, s: State, a: Aux, s': State, x: nat, y: nat)
    requires Inv(r, s, a) && x < |r| && y < |r| && |s'.procs| == |r| && OnlyPair(r, s, a, s', a, x, y)
    requires DealsWith(s.procs[x].ctl, y) && DealsWith(s'.procs[x].ctl, y)
    requires s'.procs == s.procs[x := s'.procs[x]]
    requires s'.procs[x].doneSent == s.procs[x].doneSent && s'.procs[x].doneCount == s.procs[x].doneCount
    ensures Local(r, s, a, s', x, y)
  {
    PhaseSet(s.procs, x, s'.procs[x]);
    forall z | 0 <= z < |r| && z != y ensures ViewOf(r, s, a, x, z).(ctl := s'.procs[x].ctl).Ok() {
      BystanderView(ViewOf(r, s, a, x, z), s'.procs[x].ctl);
    }
  }

  lemma SendHeaderKeeps(r: Round, s: State, a: Aux, x: nat, k: nat) returns (a': Aux)
    requires ValidRound(r) && Inv(r, s, a) && x < |r| && s.procs[x].ctl == Sending(k, false) && k < |r[x].requests|
    ensures Better(r, s, a, SendStep(r, s, x, k, false), a', x)
  {
    assert ValidRequests(r[x].requests, |r|, Dims(r));
    var y, s' := r[x].requests[k].peer, SendStep(r, s, x, k, false);
    SlotOf(r[x].requests, k, |r|, Dims(r));
    SendIsLocal(r, s, a, x, k, false);
    var v, w := SendHeaderView(ViewOf(r, s, a, x, y), ViewOf(r, s, a, y, x), k);
    Move(r, s, a, s', x, y, true, HdrSent, v, w);
    a' := SetStatus(a, x, y, true, HdrSent);
  }

  lemma SendInfoKeeps(r: Round, s: State, a: Aux, x: nat, k: nat) returns (a': Aux)
    requires ValidRound(r) && Inv(r, s, a) && x < |r| && s.procs[x].ctl == Sending(k, true) && k < |r[x].requests|
    ensures Better(r, s, a, SendStep(r, s, x, k, true), a', x)
  {
    assert ValidRequests(r[x].requests, |r|, Dims(r));
    var y, s' := r[x].requests[k].peer, SendStep(r, s, x, k, true);
    SlotOf(r[x].requests, k, |r|, Dims(r));
    SendIsLocal(r, s, a, x, k, true);
    var v, w := SendInfoView(ViewOf(r, s, a, x, y), ViewOf(r, s, a, y, x), k);
    Move(r, s, a, s', x, y, true, v.mine, v, w);
    a' := SetStatus(a, x, y, true, v.mine);
  }

  lemma PopIsLocal(r: Round, s: State, a: Aux, x: nat, y: nat, pr: Proc)
    requires Inv(r, s, a) && x < |r| && y < |r| && s.Chan(y, x) != []
    requires DealsWith(s.procs[x].ctl, y) && DealsWith(pr.ctl, y)
    requires pr.doneSent == s.procs[x].doneSent && pr.doneCount == s.procs[x].doneCount
    ensures var s' := s.Pop(y, x).With(x, pr);
      && Local(r, s, a, s', x, y) && s'.Chan(y, x) == s.Chan(y, x)[1..]
      && s'.Chan(x, y) == if x == y then s.Chan(x, y)[1..] else s.Chan(x, y)
  {
    DealingIsLocal(r, s, a, s.Pop(y, x).With(x, pr), x, y);
  }

  // x takes the first message from y, which moves one request of the pair.
  lemma PopMove(r: Round, s: State, a: Aux, x: nat, y: nat, pr: Proc, mine: bool, st: Status, v: View, w: View)
    requires Inv(r, s, a) && x < |r| && y < |r| && s.Chan(y, x) != [] && v.Ok() && w.Ok()
    requires DealsWith(s.procs[x].ctl, y) && DealsWith(pr.ctl, y)
    requires pr.doneSent == s.procs[x].doneSent && pr.doneCount == s.procs[x].doneCount
    requires Pops(ViewOf(r, s, a, x, y), ViewOf(r, s, a, y, x), v, w, mine, st, pr.ctl)
    requires var change, before := pr.remaining - s.procs[x].remaining, if mine then a.Req(x, y) else a.Req(y, x);
      Delta(before, st, change) && (!mine ==> change == 0) && Rank(st) < Rank(before)
    requires st == Completed ==> mine && s.procs[x].ctl == GotReply(y)
    ensures Better(r, s, a, s.Pop(y, x).With(x, pr), SetStatus(a, x, y, mine, st), x)
  {
    PopIsLocal(r, s, a, x, y, pr);
    Move(r, s, a, s.Pop(y, x).With(x, pr), x, y, mine, st, v, w);
  }

  lemma PushMove(r: Round, s: State, a: Aux, x: nat, y: nat, m: Msg, pr: Proc, mine: bool, st: Status, v: View, w: View)
    requires Inv(r, s, a) && x < |r| && y < |r| && v.Ok() && w.Ok()
    requires Local(r, s, a, s.Push(x, y, m).With(x, pr), x, y)
    requires Pushes(ViewOf(r, s, a, x, y), ViewOf(r, s, a, y, x), v, w, mine, st, pr.ctl, m)
    requires var change, before := pr.remaining - s.procs[x].remaining, if mine then a.Req(x, y) else a.Req(y, x);
      Delta(before, st, change) && (!mine ==> change == 0) && Rank(st) < Rank(before)
    requires st == Completed ==> mine && s.procs[x].ctl == GotReply(y)
    ensures Better(r, s, a, s.Push(x, y, m).With(x, pr), SetStatus(a, x, y, mine, st), x)
  {
    Move(r, s, a, s.Push(x, y, m).With(x, pr), x, y, mine, st, v, w);
  }

  // Receiving a header, by its kind.
  lemma TakeRequestKeeps(r: Round, s: State, a: Aux, x: nat, y: nat) returns (a': Aux)
    requires Inv(r, s, a) && x < |r| && y < |r| && s.procs[x].ctl == Loop && s.Chan(y, x) != []
    requires s.Chan(y, x)[0].Header? && s.Chan(y, x)[0].kind == Request
    ensures Better(r, s, a, ReceiveStep(s, x, y), a', x)
  {
    HeaderFirst(ViewOf(r, s, a, x, y), ViewOf(r, s, a, y, x));
    var v, w := TakeRequestView(ViewOf(r, s, a, x, y), ViewOf(r, s, a, y, x));
    PopMove(r, s, a, x, y, s.procs[x].(ctl := GotRequest(y)), false, v.theirs, v, w);
    a' := SetStatus(a, x, y, false, v.theirs);
  }

  lemma TakeReplyKeeps(r: Round, s: State, a: Aux, x: nat, y: nat) returns (a': Aux)
    requires Inv(r, s, a) && x < |r| && y < |r| && s.procs[x].ctl == Loop && s.Chan(y, x) != []
    requires s.Chan(y, x)[0].Header? && s.Chan(y, x)[0].kind == Reply
    ensures Better(r, s, a, ReceiveStep(s, x, y), a', x)
  {
    HeaderFirst(ViewOf(r, s, a, x, y), ViewOf(r, s, a, y, x));
    var v, w := TakeReplyView(ViewOf(r, s, a, x, y), ViewOf(r, s, a, y, x));
    PopMove(r, s, a, x, y, s.procs[x].(ctl := GotReply(y)), true, v.mine, v, w);
    a' := SetStatus(a, x, y, true, v.mine);
  }

  // The process x after the receive in HandleFetchRequest.
  ghost function Answering(r: Round, s: State, x: nat, y: nat): Proc
    requires |s.procs| == |r| && x < |r| && y < |r|
  {
    s.procs[x].(ctl := Replying(y, AnswerOf(r, y, x), false))
  }

  lemma TakeInfoStep(r: Round, s: State, a: Aux, x: nat, y: nat)
    requires Inv(r, s, a) && x < |r| && y < |r| && s.procs[x].ctl == GotRequest(y) && s.Chan(y, x) != []
    ensures RequestStep(r, s, x, y) == s.Pop(y, x).With(x, Answering(r, s, x, y))
  {
    var v, w := TakeInfoView(ViewOf(r, s, a, x, y), ViewOf(r, s, a, y, x));
  }

  lemma TakeInfoKeeps(r: Round, s: State, a: Aux, x: nat, y: nat) returns (a': Aux)
    requires Inv(r, s, a) && x < |r| && y < |r| && s.procs[x].ctl == GotRequest(y) && s.Chan(y, x) != []
    ensures Better(r, s, a, s.Pop(y, x).With(x, Answering(r, s, x, y)), a', x)
  {
    var v, w := TakeInfoView(ViewOf(r, s, a, x, y), ViewOf(r, s, a, y, x));
    PopMove(r, s, a, x, y, Answering(r, s, x, y), false, Serving, v, w);
    a' := SetStatus(a, x, y, false, Serving);
  }

  lemma ReplyIsAnswer(r: Round, s: State, a: Aux, x: nat, y: nat, d: seq<Elem>, h: bool)
    requires Inv(r, s, a) && x < |r| && y < |r| && s.procs[x].ctl == Replying(y, d, h)
    ensures ViewOf(r, s, a, x, y).ctl == Replying(y, ViewOf(r, s, a, x, y).answer, h)
  {
    assert ViewOf(r, s, a, x, y).Ok();
  }

  lemma PushIsLocal(r: Round, s: State, a: Aux, x: nat, y: nat, m: Msg, pr: Proc)
    requires Inv(r, s, a) && x < |r| && y < |r| && DealsWith(s.procs[x].ctl, y) && DealsWith(pr.ctl, y)
    requires pr.doneSent == s.procs[x].doneSent && pr.doneCount == s.procs[x].doneCount
    ensures Local(r, s, a, s.Push(x, y, m).With(x, pr), x, y)
  {
    DealingIsLocal(r, s, a, s.Push(x, y, m).With(x, pr), x, y);
  }

  lemma PushReply(r: Round, s: State, a: Aux, x: nat, y: nat, m: Msg, pr: Proc, st: Status, v: View, w: View)
    requires Inv(r, s, a) && x < |r| && y < |r| && v.Ok() && w.Ok()
    requires DealsWith(s.procs[x].ctl, y) && DealsWith(pr.ctl, y)
    requires pr.doneSent == s.procs[x].doneSent && pr.doneCount == s.procs[x].doneCount && pr.remaining == s.procs[x].remaining
    requires Pushes(ViewOf(r, s, a, x, y), ViewOf(r, s, a, y, x), v, w, false, st, pr.ctl, m)
    requires Delta(a.Req(y, x), st, 0) && Rank(st) < Rank(a.Req(y, x)) && st != Completed
    ensures Better(r, s, a, s.Push(x, y, m).With(x, pr), SetStatus(a, x, y, false, st), x)
  {
    PushIsLocal(r, s, a, x, y, m, pr);
    PushMove(r, s, a, x, y, m, pr, false, st, v, w);
  }

  lemma ReplyHeaderKeeps(r: Round, s: State, a: Aux, x: nat, y: nat, d: seq<Elem>) returns (a': Aux)
    requires Inv(r, s, a) && x < |r| && y < |r| && s.procs[x].ctl == Replying(y, d, false)
    ensures Better(r, s, a, ReplyStep(s, x, y, d, false), a', x)
  {
    ReplyIsAnswer(r, s, a, x, y, d, false);
    var v, w := ReplyHeaderView(ViewOf(r, s, a, x, y), ViewOf(r, s, a, y, x));
    PushReply(r, s, a, x, y, Header(Reply, x), s.procs[x].(ctl := Replying(y, d, true)), RepHdr, v, w);
    a' := SetStatus(a, x, y, false, RepHdr);
  }

  lemma ReplyDataKeeps(r: Round, s: State, a: Aux, x: nat, y: nat, d: seq<Elem>) returns (a': Aux)
    requires Inv(r, s, a) && x < |r| && y < |r| && s.procs[x].ctl == Replying(y, d, true)
    ensures Better(r, s, a, ReplyStep(s, x, y, d, true), a', x)
  {
    ReplyIsAnswer(r, s, a, x, y, d, true);
    var v, w := ReplyDataView(ViewOf(r, s, a, x, y), ViewOf(r, s, a, y, x));
    PushReply(r, s, a, x, y, Payload(d), s.procs[x].(ctl := Loop), v.theirs, v, w);
    a' := SetStatus(a, x, y, false, v.theirs);
  }

  // The answer has the length that the requester expects.
  lemma AnswerFits(r: Round, p: nat, q: nat)
    requires ValidRound(r) && p < |r| && q < |r| && Slot(r[p].requests, q) >= 0
    ensures |AnswerOf(r, p, q)| == Volume(InfoOf(r, p, q).peerSize)
  {
    assert ValidRequests(r[p].requests, |r|, Dims(r));
    assert ValidFetch(r[p].requests[Slot(r[p].requests, q)], |r|, Dims(r));
  }

  // The process x after it stored the answer of y.
  ghost function Stored(r: Round, s: State, x: nat, y: nat): Proc
    requires |s.procs| == |r| && x < |r| && y < |r|
  {
    s.procs[x].(ctl := Loop, remaining := s.procs[x].remaining - 1,
                remote := Store(r[x], s.procs[x].remote, InfoOf(r, x, y), AnswerOf(r, x, y)))
  }

  lemma TakeDataStep(r: Round, s: State, a: Aux, x: nat, y: nat)
    requires ValidRound(r) && Inv(r, s, a) && x < |r| && y < |r|
    requires s.procs[x].ctl == GotReply(y) && s.Chan(y, x) != []
    ensures a.Req(x, y) == RepLeft && StoreStep(r, s, x, y) == s.Pop(y, x).With(x, Stored(r, s, x, y))
  {
    var v, w := TakeDataView(ViewOf(r, s, a, x, y), ViewOf(r, s, a, y, x));
    AnswerFits(r, x, y);
  }

  lemma TakeDataKeeps(r: Round, s: State, a: Aux, x: nat, y: nat)
    requires ValidRound(r) && Inv(r, s, a) && x < |r| && y < |r|
    requires s.procs[x].ctl == GotReply(y) && s.Chan(y, x) != []
    ensures Better(r, s, a, s.Pop(y, x).With(x, Stored(r, s, x, y)), a.SetReq(x, y, Completed), x)
  {
    var v, w := TakeDataView(ViewOf(r, s, a, x, y), ViewOf(r, s, a, y, x));
    PopMove(r, s, a, x, y, Stored(r, s, x, y), true, Completed, v, w);
  }

  // ------------------------------------------------- announcements and phases

  // A change of the control state that moves no message.
  lemma PhaseKeeps(r: Round, s: State, a: Aux, x: nat, pr: Proc)
    requires Inv(r, s, a) && x < |r| && Phase(pr) < Phase(s.procs[x])
    requires pr.remaining == s.procs[x].remaining && pr.doneCount == s.procs[x].doneCount
    requires PeerOk(pr.ctl, |r|) && (pr.ctl.Out? ==> pr.doneCount == |r|)
    requires forall z | 0 <= z < |r| :: ViewOf(r, s, a, x, z).(ctl := pr.ctl, doneSent := pr.doneSent).Ok()
    ensures Better(r, s, a, s.With(x, pr), a, x)
  {
    var s' := s.With(x, pr);
    PhaseSet(s.procs, x, pr);
    forall z | 0 <= z < |r| ensures ViewOf(r, s', a, x, z).Ok() {
      assert ViewOf(r, s', a, x, z) == ViewOf(r, s, a, x, z).(ctl := pr.ctl, doneSent := pr.doneSent);
    }
    forall z | 0 <= z < |r| ensures CountersOk(r, s', a, z) {
      assert CountersOk(r, s, a, z);
    }
    Conclude(r, s, a, s', a, x, x);
  }

  lemma EndSendingKeeps(r: Round, s: State, a: Aux, x: nat, k: nat, h: bool)
    requires Inv(r, s, a) && x < |r| && s.procs[x].ctl == Sending(k, h) && k >= |r[x].requests|
    ensures Better(r, s, a, s.With(x, s.procs[x].(ctl := Loop)), a, x)
  {
    forall z | 0 <= z < |r| ensures ViewOf(r, s, a, x, z).(ctl := Loop).Ok() {
      EndSendingView(ViewOf(r, s, a, x, z));
    }
    PhaseKeeps(r, s, a, x, s.procs[x].(ctl := Loop));
  }

  lemma EndSendingView(v: View)
    requires v.Ok() && v.ctl.Sending? && v.slot < v.ctl.k
    ensures v.(ctl := Loop).Ok()
  {
  }

  lemma LeaveKeeps(r: Round, s: State, a: Aux, x: nat)
    requires Inv(r, s, a) && x < |r| && s.procs[x].ctl == Loop && s.procs[x].doneCount == |r|
    ensures Better(r, s, a, s.With(x, s.procs[x].(ctl := Out)), a, x)
  {
    forall z | 0 <= z < |r| ensures ViewOf(r, s, a, x, z).(ctl := Out).Ok() {
      BystanderView(ViewOf(r, s, a, x, z), Out);
    }
    PhaseKeeps(r, s, a, x, s.procs[x].(ctl := Out));
  }

  // No pending request means that every request sent was completed.
  lemma {:induction false} NonePending(a: Aux, p: nat, m: nat, q: nat)
    requires PendingCount(a, p, m) == 0 && q < m
    ensures !Pending(a.Req(p, q))
  {
    if q < m - 1 {
      NonePending(a, p, m - 1, q);
    }
  }

  lemma StartDoneView(v: View)
    requires v.Ok() && v.ctl == Loop && !v.doneSent && !Pending(v.mine)
    ensures v.(ctl := SendingDone(0)).Ok()
  {
  }

  lemma StartDoneKeeps(r: Round, s: State, a: Aux, x: nat)
    requires Inv(r, s, a) && x < |r| && s.procs[x].ctl == Loop && s.procs[x].remaining == 0 && !s.procs[x].doneSent
    ensures Better(r, s, a, s.With(x, s.procs[x].(ctl := SendingDone(0))), a, x)
  {
    assert CountersOk(r, s, a, x);
    forall z | 0 <= z < |r| ensures ViewOf(r, s, a, x, z).(ctl := SendingDone(0)).Ok() {
      NonePending(a, x, |r|, z);
      StartDoneView(ViewOf(r, s, a, x, z));
    }
    PhaseKeeps(r, s, a, x, s.procs[x].(ctl := SendingDone(0)));
  }

  lemma EndDoneView(v: View)
    requires v.Ok() && v.ctl.SendingDone? && v.q < v.ctl.i
    ensures v.(ctl := Loop, doneSent := true).Ok()
  {
  }

  lemma EndDoneKeeps(r: Round, s: State, a: Aux, x: nat, i: nat)
    requires Inv(r, s, a) && x < |r| && s.procs[x].ctl == SendingDone(i) && i >= |r|
    ensures Better(r, s, a, s.With(x, s.procs[x].(ctl := Loop, doneSent := true)), a, x)
  {
    forall z | 0 <= z < |r| ensures ViewOf(r, s, a, x, z).(ctl := Loop, doneSent := true).Ok() {
      EndDoneView(ViewOf(r, s, a, x, z));
    }
    PhaseKeeps(r, s, a, x, s.procs[x].(ctl := Loop, doneSent := true));
  }

  lemma DoneViews(r: Round, s: State, a: Aux, s': State, p: nat, q: nat, d: DoneStatus, x: nat, y: nat)
    requires |s.procs| == |s'.procs| == |r| && p < |r| && q < |r| && OnlyPair(r, s, a, s', a, x, y)
    requires (x == p && y == q) || (x == q && y == p)
    requires s'.procs[x].doneSent == s.procs[x].doneSent
    ensures var a' := a.SetDone(p, q, d);
      && OnlyPair(r, s, a, s', a', x, y)
      && ViewOf(r, s', a', p, q) == ViewOf(r, s, a, p, q).(ctl := s'.procs[p].ctl, d := d, c := s'.Chan(p, q))
      && (p != q ==>
           ViewOf(r, s', a', q, p) == ViewOf(r, s, a, q, p).(ctl := s'.procs[q].ctl, c := s'.Chan(q, p)))
  {
    var a' := a.SetDone(p, q, d);
    forall p1, q1 | 0 <= p1 < |r| && 0 <= q1 < |r| && !(p1 == x && q1 == y) && !(p1 == y && q1 == x)
      ensures SameBetween(s, a, s', a', p1, q1)
    {
      assert SameBetween(s, a, s', a, p1, q1);
    }
  }

  // The announcement of p to q moves on; x, one of the two, takes a step.
  lemma MoveDone(r: Round, s: State, a: Aux, s': State, x: nat, p: nat, q: nat, d: DoneStatus, v: View, w: View)
    requires Inv(r, s, a) && |s'.procs| == |r| && p < |r| && q < |r| && (x == p || x == q)
    requires v.Ok() && w.Ok()
    requires var y := if x == p then q else p;
      && OnlyPair(r, s, a, s', a, x, y)
      && (forall z | 0 <= z < |r| && z != y :: ViewOf(r, s, a, x, z).(ctl := s'.procs[x].ctl).Ok())
      && v == ViewOf(r, s, a, p, q).(ctl := s'.procs[p].ctl, d := d, c := s'.Chan(p, q))
      && w == if p == q then v else ViewOf(r, s, a, q, p).(ctl := s'.procs[q].ctl, c := s'.Chan(q, p))
    requires s'.procs[x].doneSent == s.procs[x].doneSent && s'.procs[x].remaining == s.procs[x].remaining
    requires PhaseMeasure(s'.procs) <= PhaseMeasure(s.procs)
    requires PeerOk(s'.procs[x].ctl, |r|) && !s'.procs[x].ctl.Out?
    requires DoneRank(d) < DoneRank(a.Dn(p, q)) && a.Dn(p, q) != Heard
    requires s'.procs[x].doneCount == s.procs[x].doneCount + (if d == Heard then 1 else 0)
    requires d == Heard ==> x == q
    ensures Better(r, s, a, s', a.SetDone(p, q, d), x)
  {
    var a', y := a.SetDone(p, q, d), if x == p then q else p;
    CountersAfterDone(r, s, a, p, q, d, s', x);
    PairsSetDone(a, p, q, d, |r|, |r|);
    DoneViews(r, s, a, s', p, q, d, x, y);
    forall z | 0 <= z < |r| && z != y ensures ViewOf(r, s', a', x, z).Ok() {
      Others(r, s, a, s', a', x, y, x, z);
    }
    Conclude(r, s, a, s', a', x, y);
  }

  lemma PopCounts(r: Round, s: State, a: Aux, x: nat, y: nat, pr: Proc)
    requires Inv(r, s, a) && x < |r| && y < |r| && x != y && s.Chan(y, x) != []
    requires s.procs[x].ctl == Loop && pr == s.procs[x].(doneCount := pr.doneCount)
    ensures var s' := s.Pop(y, x).With(x, pr);
      && OnlyPair(r, s, a, s', a, x, y) && PhaseMeasure(s'.procs) == PhaseMeasure(s.procs)
      && s'.Chan(y, x) == s.Chan(y, x)[1..] && s'.Chan(x, y) == s.Chan(x, y)
    ensures forall z | 0 <= z < |r| :: ViewOf(r, s, a, x, z).(ctl := Loop) == ViewOf(r, s, a, x, z)
  {
    PhaseSet(s.procs, x, pr);
  }

  lemma TakeDoneKeeps(r: Round, s: State, a: Aux, x: nat, y: nat) returns (a': Aux)
    requires Inv(r, s, a) && x < |r| && y < |r| && s.procs[x].ctl == Loop && s.Chan(y, x) != []
    requires s.Chan(y, x)[0].Header? && s.Chan(y, x)[0].kind == Done
    ensures Better(r, s, a, s.Pop(y, x).With(x, s.procs[x].(doneCount := s.procs[x].doneCount + 1)), a', x)
  {
    var v, w := ViewOf(r, s, a, x, y), ViewOf(r, s, a, y, x);
    var pr := s.procs[x].(doneCount := s.procs[x].doneCount + 1);
    var s' := s.Pop(y, x).With(x, pr);
    var w' := TakeDoneView(v, w);
    PopCounts(r, s, a, x, y, pr);
    MoveDone(r, s, a, s', x, y, x, Heard, w', v);
    a' := a.SetDone(y, x, Heard);
  }

  lemma AnnounceBystander(v: View, i: nat)
    requires v.Ok() && v.ctl == SendingDone(i) && v.q != i
    ensures v.(ctl := SendingDone(i + 1)).Ok()
  {
  }

  lemma AnnounceIsQuiet(r: Round, s: State, a: Aux, x: nat, i: nat)
    requires Inv(r, s, a) && x < |r| && s.procs[x].ctl == SendingDone(i) && i < |r|
    ensures forall z | 0 <= z < |r| && z != i :: ViewOf(r, s, a, x, z).(ctl := SendingDone(i + 1)).Ok()
  {
    forall z | 0 <= z < |r| && z != i ensures ViewOf(r, s, a, x, z).(ctl := SendingDone(i + 1)).Ok() {
      AnnounceBystander(ViewOf(r, s, a, x, z), i);
    }
  }

  lemma AnnounceSelfKeeps(r: Round, s: State, a: Aux, x: nat)
    requires Inv(r, s, a) && x < |r| && s.procs[x].ctl == SendingDone(x)
    ensures Better(r, s, a, DoneStep(r, s, x, x), a.SetDone(x, x, Heard), x)
  {
    var s' := DoneStep(r, s, x, x);
    var v' := AnnounceView(ViewOf(r, s, a, x, x));
    PhaseSet(s.procs, x, s'.procs[x]);
    AnnounceIsQuiet(r, s, a, x, x);
    MoveDone(r, s, a, s', x, x, x, Heard, v', v');
  }

  lemma AnnounceOtherKeeps(r: Round, s: State, a: Aux, x: nat, i: nat)
    requires Inv(r, s, a) && x < |r| && s.procs[x].ctl == SendingDone(i) && i < |r| && i != x
    ensures Better(r, s, a, DoneStep(r, s, x, i), a.SetDone(x, i, Announced), x)
  {
    var s' := DoneStep(r, s, x, i);
    var v' := AnnounceView(ViewOf(r, s, a, x, i));
    PhaseSet(s.procs, x, s'.procs[x]);
    AnnounceIsQuiet(r, s, a, x, i);
    MoveDone(r, s, a, s', x, x, i, Announced, v', ViewOf(r, s, a, i, x));
  }

  lemma AnnounceKeeps(r: Round, s: State, a: Aux, x: nat, i: nat) returns (a': Aux)
    requires Inv(r, s, a) && x < |r| && s.procs[x].ctl == SendingDone(i) && i < |r|
    ensures Better(r, s, a, DoneStep(r, s, x, i), a', x)
  {
    if i == x {
      AnnounceSelfKeeps(r, s, a, x);
      a' := a.SetDone(x, x, Heard);
    } else {
      AnnounceOtherKeeps(r, s, a, x, i);
      a' := a.SetDone(x, i, Announced);
    }
  }

  // Every step keeps the invariant and brings the round closer to its end.
  lemma StepKeeps(r: Round, s: State, a: Aux, x: nat, src: nat) returns (a': Aux)
    requires ValidRound(r) && Inv(r, s, a) && Enabled(r, s, x, src)
    ensures Better(r, s, a, Step(r, s, x, src), a', x)
  {
    assert CountersOk(r, s, a, x);
    match s.procs[x].ctl {
      case Sending(k, h) =>
        if k >= |r[x].requests| {
          EndSendingKeeps(r, s, a, x, k, h);
          a' := a;
        } else if h {
          a' := SendInfoKeeps(r, s, a, x, k);
        } else {
          a' := SendHeaderKeeps(r, s, a, x, k);
        }
      case Loop => a' := LoopKeeps(r, s, a, x, src);
      case SendingDone(i) =>
        if i >= |r| {
          EndDoneKeeps(r, s, a, x, i);
          a' := a;
        } else {
          a' := AnnounceKeeps(r, s, a, x, i);
        }
      case GotRequest(q) =>
        TakeInfoStep(r, s, a, x, q);
        a' := TakeInfoKeeps(r, s, a, x, q);
      case Replying(q, d, h) =>
        if h {
          a' := ReplyDataKeeps(r, s, a, x, q, d);
        } else {
          a' := ReplyHeaderKeeps(r, s, a, x, q, d);
        }
      case GotReply(q) =>
        TakeDataStep(r, s, a, x, q);
        TakeDataKeeps(r, s, a, x, q);
        a' := a.SetReq(x, q, Completed);
    }
  }

  lemma LoopKeeps(r: Round, s: State, a: Aux, x: nat, src: nat) returns (a': Aux)
    requires ValidRound(r) && Inv(r, s, a) && Enabled(r, s, x, src) && s.procs[x].ctl == Loop
    ensures Better(r, s, a, Step(r, s, x, src), a', x)
  {
    if s.procs[x].doneCount == |r| {
      LeaveKeeps(r, s, a, x);
      a' := a;
    } else if s.procs[x].remaining == 0 && !s.procs[x].doneSent {
      StartDoneKeeps(r, s, a, x);
      a' := a;
    } else {
      HeaderFirst(ViewOf(r, s, a, x, src), ViewOf(r, s, a, src, x));
      match s.Chan(src, x)[0].kind {
        case Request => a' := TakeRequestKeeps(r, s, a, x, src);
        case Reply => a' := TakeReplyKeeps(r, s, a, x, src);
        case Done => a' := TakeDoneKeeps(r, s, a, x, src);
      }
    }
  }

  // At the start nothing has been sent.
  ghost function InitialAux(r: Round): (a: Aux)
    ensures forall p, q | 0 <= p < |r| && 0 <= q < |r| ::
      a.Req(p, q) == (if Slot(r[p].requests, q) >= 0 then Unsent else NoReq) && a.Dn(p, q) == Silent
  {
    Aux(map p: nat, q: nat | p < |r| && q < |r| :: (p, q) := if Slot(r[p].requests, q) >= 0 then Unsent else NoReq, map[])
  }

  lemma {:induction false} NothingCounted(a: Aux, n: nat, p: nat, m: nat)
    requires m <= n && forall q | 0 <= q < n :: !Pending(a.Req(p, q)) && a.Dn(q, p) == Silent
    ensures PendingCount(a, p, m) == 0 && HeardCount(a, p, m) == 0
  {
    if m > 0 {
      NothingCounted(a, n, p, m - 1);
    }
  }

  lemma InitialView(v: View)
    requires v.ctl == Sending(0, false) && !v.doneSent && v.c == [] && v.d == Silent && v.slot >= -1
    requires v.mine == (if v.slot >= 0 then Unsent else NoReq) && (v.theirs == Unsent || v.theirs == NoReq)
    requires v.p == v.q ==> v.mine == v.theirs
    ensures v.Ok()
  {
  }

  lemma InitPair(r: Round, s: State, p: nat, q: nat)
    requires Init(r, s) && p < |r| && q < |r|
    ensures ViewOf(r, s, InitialAux(r), p, q).Ok()
  {
    assert s.procs[p] == Proc(Sending(0, false), 0, 0, false, s.procs[p].remote);
    InitialView(ViewOf(r, s, InitialAux(r), p, q));
  }

  lemma InitHolds(r: Round, s: State)
    requires ValidRound(r) && Init(r, s)
    ensures Inv(r, s, InitialAux(r))
  {
    var a := InitialAux(r);
    forall p | 0 <= p < |r| ensures CountersOk(r, s, a, p) {
      NothingCounted(a, |r|, p, |r|);
    }
    forall p, q | 0 <= p < |r| && 0 <= q < |r| ensures ViewOf(r, s, a, p, q).Ok() {
      InitPair(r, s, p, q);
    }
  }
}
