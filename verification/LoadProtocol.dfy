// The message protocol of LoadSubgrid (runtime/grid_mpi.cc): every process
// sends its fetch requests, then serves the requests of others while waiting
// for its own replies, and leaves once every process has announced that it is
// done. Messages between two processes arrive in the order sent (section 3.5
// of MPI 2.2); a header and the payload behind it are separate messages.
module LoadProtocol {
  import opened MixedRadix
  import opened Subgrid
  import opened GridSpace

  // ---------------------------------------------------------------- round

  // One request: the piece to fetch and the rank that owns it.
  datatype Fetch = Fetch(peer: nat, info: FetchInfo)

  // What a process brings to a round: its local grid, the box of its remote
  // grid, and the requests it will send.
  datatype Party = Party(
    data: seq<Elem>, offset: IndexArray, size: IndexArray,
    remoteOffset: IndexArray, remoteSize: IndexArray,
    requests: seq<Fetch>)

  type Round = seq<Party>

  // The cells a process copies out for a request (HandleFetchRequest).
  ghost function Serve(me: Party, info: FetchInfo): seq<Elem> {
    var n := |me.size|;
    if n == |me.offset| == |info.peerOffset| == |info.peerSize| && NonNegative(info.peerSize)
    then Gather(me.data, me.size, Sub(info.peerOffset, me.offset), info.peerSize)
    else []
  }

  // A piece copied into the remote grid (HandleFetchReply).
  ghost function Store(me: Party, remote: seq<Elem>, info: FetchInfo, data: seq<Elem>): (r: seq<Elem>)
    ensures |r| == |remote|
  {
    if |me.remoteSize| == |me.remoteOffset| == |info.peerOffset| == |info.peerSize|
    then Scatter(remote, me.remoteSize, Sub(info.peerOffset, me.remoteOffset), info.peerSize, data)
    else remote
  }

  // The request sent to rank q, as kept in fetch_map.
  function Slot(requests: seq<Fetch>, q: nat): (j: int)
    ensures -1 <= j < |requests|
    ensures j >= 0 ==> requests[j].peer == q
    ensures j == -1 ==> forall k | 0 <= k < |requests| :: requests[k].peer != q
  {
    if |requests| == 0 then -1
    else if requests[|requests| - 1].peer == q then |requests| - 1
    else Slot(requests[..|requests| - 1], q)
  }

  function Dims(r: Round): nat { if |r| == 0 then 0 else |r[0].size| }

  // Requests go to distinct ranks and ask for something.
  ghost predicate ValidRequests(requests: seq<Fetch>, n: nat, dims: nat) {
    && (forall j | 0 <= j < |requests| :: ValidFetch(requests[j], n, dims))
    && (forall j, k | 0 <= j < k < |requests| :: requests[j].peer != requests[k].peer)
  }

  ghost predicate ValidFetch(f: Fetch, n: nat, dims: nat) {
    && f.peer < n && |f.info.peerOffset| == |f.info.peerSize| == dims
    && NonNegative(f.info.peerSize) && Volume(f.info.peerSize) != 0
  }

  ghost predicate ValidRound(r: Round) {
    forall p | 0 <= p < |r| ::
      && ValidRequests(r[p].requests, |r|, Dims(r))
      && |r[p].offset| == |r[p].size| == |r[p].remoteOffset| == |r[p].remoteSize| == Dims(r)
  }

  // ---------------------------------------------------------------- state

  datatype Kind = Request | Reply | Done

  datatype Msg = Header(kind: Kind, sender: nat) | Info(info: FetchInfo) | Payload(data: seq<Elem>)

  // Where a process is in LoadSubgrid.
  datatype Control =
    | Sending(k: nat, headerSent: bool)                        // the loop over fetch_requests
    | Loop                                                     // at the head of the receive loop
    | SendingDone(i: nat)                                      // the loop that announces DONE
    | GotRequest(requester: nat)                               // HandleFetchRequest, before its receive
    | Replying(to: nat, answer: seq<Elem>, replyHeaderSent: bool)   // HandleFetchRequest, sending
    | GotReply(owner: nat)                                     // HandleFetchReply, before its receive
    | Out                                                      // left LoadSubgrid
    | Corrupt                                                  // a receive took a message it did not expect

  datatype Proc = Proc(ctl: Control, remaining: int, doneCount: int, doneSent: bool, remote: seq<Elem>)

  datatype State = State(procs: seq<Proc>, chan: map<(nat, nat), seq<Msg>>) {
    // The messages in flight from one process to another.
    function Chan(src: nat, dst: nat): seq<Msg> {
      if (src, dst) in chan then chan[(src, dst)] else []
    }

    function Push(src: nat, dst: nat, m: Msg): State {
      State(procs, chan[(src, dst) := Chan(src, dst) + [m]])
    }

    function Pop(src: nat, dst: nat): State
      requires Chan(src, dst) != []
    {
      State(procs, chan[(src, dst) := Chan(src, dst)[1..]])
    }

    function With(p: nat, pr: Proc): State
      requires p < |procs|
    {
      State(procs[p := pr], chan)
    }
  }

  // At the start of a round no message is in flight.
  ghost predicate Init(r: Round, s: State) {
    && |s.procs| == |r| && s.chan == map[]
    && forall p | 0 <= p < |r| ::
        && s.procs[p] == Proc(Sending(0, false), 0, 0, false, s.procs[p].remote)
        && |s.procs[p].remote| == Volume(r[p].remoteSize)
  }

  // The process can take its next step; src is the process it receives from.
  ghost predicate Enabled(r: Round, s: State, p: nat, src: nat)
  {
    && |s.procs| == |r| && p < |r| && src < |r|
    && match s.procs[p].ctl
       case Loop => LeavesOrAnnounces(r, s.procs[p]) || s.Chan(src, p) != []
       case GotRequest(q) => s.Chan(q, p) != []
       case GotReply(q) => s.Chan(q, p) != []
       case Out => false
       case Corrupt => false
       case _ => true
  }

  ghost predicate LeavesOrAnnounces(r: Round, pr: Proc) {
    pr.doneCount == |r| || (pr.remaining == 0 && !pr.doneSent)
  }

  ghost function Step(r: Round, s: State, p: nat, src: nat): State
    requires Enabled(r, s, p, src)
  {
    match s.procs[p].ctl
    case Sending(k, h) => SendStep(r, s, p, k, h)
    case Loop => if LeavesOrAnnounces(r, s.procs[p]) then LoopStep(r, s, p) else ReceiveStep(s, p, src)
    case SendingDone(i) => DoneStep(r, s, p, i)
    case GotRequest(q) => RequestStep(r, s, p, q)
    case Replying(q, d, h) => ReplyStep(s, p, q, d, h)
    case GotReply(q) => StoreStep(r, s, p, q)
  }

  // The loop over fetch_requests: SendFetchRequest sends a header, then the
  // piece, and skips an empty piece.
  ghost function SendStep(r: Round, s: State, p: nat, k: nat, headerSent: bool): State
    requires |s.procs| == |r| && p < |r|
  {
    var pr := s.procs[p];
    if k >= |r[p].requests| then s.With(p, pr.(ctl := Loop))
    else
      var f := r[p].requests[k];
      if headerSent then
        s.Push(p, f.peer, Info(f.info)).With(p, pr.(ctl := Sending(k + 1, false), remaining := pr.remaining + 1))
      else if Volume(f.info.peerSize) == 0 then s.With(p, pr.(ctl := Sending(k + 1, false)))
      else s.Push(p, f.peer, Header(Request, p)).With(p, pr.(ctl := Sending(k, true)))
  }

  // The loop condition, and the start of the announcement.
  ghost function LoopStep(r: Round, s: State, p: nat): State
    requires |s.procs| == |r| && p < |r|
  {
    var pr := s.procs[p];
    if pr.doneCount == |r| then s.With(p, pr.(ctl := Out)) else s.With(p, pr.(ctl := SendingDone(0)))
  }

  // DONE is sent to every other process; the own one is counted at once.
  ghost function DoneStep(r: Round, s: State, p: nat, i: nat): State
    requires |s.procs| == |r| && p < |r|
  {
    var pr := s.procs[p];
    if i >= |r| then s.With(p, pr.(ctl := Loop, doneSent := true))
    else if i == p then s.With(p, pr.(ctl := SendingDone(i + 1), doneCount := pr.doneCount + 1))
    else s.Push(p, i, Header(Done, p)).With(p, pr.(ctl := SendingDone(i + 1)))
  }

  // RecvGridRequest, from any source: a message that is no header is misread.
  ghost function ReceiveStep(s: State, p: nat, src: nat): State
    requires p < |s.procs| && s.Chan(src, p) != []
  {
    var pr := s.procs[p];
    var popped := s.Pop(src, p);
    match s.Chan(src, p)[0]
    case Header(Done, _) => popped.With(p, pr.(doneCount := pr.doneCount + 1))
    case Header(Request, q) => popped.With(p, pr.(ctl := GotRequest(q)))
    case Header(Reply, q) => popped.With(p, pr.(ctl := GotReply(q)))
    case _ => popped.With(p, pr.(ctl := Corrupt))
  }

  // The receive in HandleFetchRequest, from the sender of the header.
  ghost function RequestStep(r: Round, s: State, p: nat, q: nat): State
    requires |s.procs| == |r| && p < |r| && s.Chan(q, p) != []
  {
    var pr := s.procs[p];
    var next := match s.Chan(q, p)[0]
                case Info(info) => Replying(q, Serve(r[p], info), false)
                case _ => Corrupt;
    s.Pop(q, p).With(p, pr.(ctl := next))
  }

  ghost function ReplyStep(s: State, p: nat, q: nat, answer: seq<Elem>, headerSent: bool): State
    requires p < |s.procs|
  {
    var pr := s.procs[p];
    if headerSent then s.Push(p, q, Payload(answer)).With(p, pr.(ctl := Loop))
    else s.Push(p, q, Header(Reply, p)).With(p, pr.(ctl := Replying(q, answer, true)))
  }

  // The receive in HandleFetchReply: the piece is looked up by rank, and its
  // size is what the receive expects.
  ghost function StoreStep(r: Round, s: State, p: nat, q: nat): State
    requires |s.procs| == |r| && p < |r| && s.Chan(q, p) != []
  {
    var pr := s.procs[p];
    var popped := s.Pop(q, p);
    var j := Slot(r[p].requests, q);
    match s.Chan(q, p)[0]
    case Payload(data) =>
      if j >= 0 && |data| == Volume(r[p].requests[j].info.peerSize) then
        popped.With(p, pr.(ctl := Loop, remaining := pr.remaining - 1,
                           remote := Store(r[p], pr.remote, r[p].requests[j].info, data)))
      else popped.With(p, pr.(ctl := Corrupt))
    case _ => popped.With(p, pr.(ctl := Corrupt))
  }

  ghost predicate Next(r: Round, s: State, s': State) {
    exists p: nat, src: nat :: Enabled(r, s, p, src) && s' == Step(r, s, p, src)
  }

  // A run: states connected by steps, from an initial one.
  ghost predicate Run(r: Round, run: seq<State>) {
    && |run| > 0 && Init(r, run[0])
    && forall i | 0 <= i < |run| - 1 :: Next(r, run[i], run[i + 1])
  }

  // ------------------------------------------------ progress of a request

  // How far the request of one process to another has come.
  datatype Status =
    | NoReq | Unsent
    | HdrSent       // header in flight, piece not yet sent
    | HdrTaken      // header received, piece not yet sent
    | InFlight      // header and piece in flight
    | InfoLeft      // header received, piece in flight
    | Serving       // piece received, nothing answered yet
    | RepHdr        // reply header in flight, data not yet sent
    | RepHdrTaken   // reply header received, data not yet sent
    | RepFlight     // reply header and data in flight
    | RepLeft       // reply header received, data in flight
    | Completed

  datatype DoneStatus = Silent | Announced | Heard

  datatype Aux = Aux(req: map<(nat, nat), Status>, done: map<(nat, nat), DoneStatus>) {
    function Req(p: nat, q: nat): Status { if (p, q) in req then req[(p, q)] else NoReq }

    function Dn(p: nat, q: nat): DoneStatus { if (p, q) in done then done[(p, q)] else Silent }

    function SetReq(p: nat, q: nat, st: Status): Aux { Aux(req[(p, q) := st], done) }

    function SetDone(p: nat, q: nat, d: DoneStatus): Aux { Aux(req, done[(p, q) := d]) }
  }

  // The request has been sent and its data not yet been stored.
  predicate Pending(st: Status) {
    match st
    case InFlight | InfoLeft | Serving | RepHdr | RepHdrTaken | RepFlight | RepLeft => true
    case _ => false
  }

  function PendingCount(a: Aux, p: nat, m: nat): nat {
    if m == 0 then 0 else PendingCount(a, p, m - 1) + (if Pending(a.Req(p, m - 1)) then 1 else 0)
  }

  function HeardCount(a: Aux, p: nat, m: nat): nat {
    if m == 0 then 0 else HeardCount(a, p, m - 1) + (if a.Dn(m - 1, p) == Heard then 1 else 0)
  }

  // Messages of a request, of a reply and of an announcement in a channel.
  function RequestPart(st: Status, sender: nat, info: FetchInfo): seq<Msg> {
    match st
    case HdrSent => [Header(Request, sender)]
    case InFlight => [Header(Request, sender), Info(info)]
    case InfoLeft => [Info(info)]
    case _ => []
  }

  function ReplyPart(st: Status, sender: nat, data: seq<Elem>): seq<Msg> {
    match st
    case RepHdr => [Header(Reply, sender)]
    case RepFlight => [Header(Reply, sender), Payload(data)]
    case RepLeft => [Payload(data)]
    case _ => []
  }

  function DonePart(d: DoneStatus, sender: nat): seq<Msg> {
    if d == Announced then [Header(Done, sender)] else []
  }

  // What the process p knows of the process q: p's request to q (mine, at
  // place slot of p's list), q's request to p (theirs), p's announcement to q,
  // and the messages in flight from p to q.
  datatype View = View(p: nat, q: nat, slot: int, info: FetchInfo, answer: seq<Elem>,
                       ctl: Control, doneSent: bool, c: seq<Msg>, mine: Status, theirs: Status, d: DoneStatus)
  {
    // A payload is always directly behind its header, and at the head of the
    // channel once the header was taken.
    ghost predicate ChanOk() {
      var A, B, D := RequestPart(mine, p, info), ReplyPart(theirs, p, answer), DonePart(d, p);
      match theirs
      case RepLeft => A == [] && c == B + D
      case RepHdrTaken => A == [] && D == [] && c == []
      case RepHdr => c == A + D + B
      case RepFlight => c == A + D + B || c == A + B + D
      case _ => c == A + D
    }

    // The control state agrees with the status of both requests.
    ghost predicate ControlOk() {
      && (ctl == GotRequest(q) <==> theirs == HdrTaken || theirs == InfoLeft)
      && (ctl == Replying(q, answer, false) <==> theirs == Serving)
      && (ctl == Replying(q, answer, true) <==> theirs == RepHdr || theirs == RepHdrTaken)
      && (ctl == GotReply(q) <==> mine == RepHdrTaken || mine == RepLeft)
      && (ctl.Replying? && ctl.to == q ==> ctl.answer == answer)
      && (ctl.Sending? ==> mine != Completed && theirs != RepFlight && theirs != RepLeft && theirs != Completed)
      && (!ctl.Sending? ==> mine != Unsent && mine != HdrSent && mine != HdrTaken)
    }

    // While p is sending, its place in the list tells how far its request is.
    ghost predicate SlotOk() {
      && (slot == -1 <==> mine == NoReq)
      && (ctl.Sending? ==>
          if slot < ctl.k then mine != Unsent && mine != HdrSent && mine != HdrTaken
          else if slot == ctl.k && ctl.headerSent then mine == HdrSent || mine == HdrTaken
          else mine == Unsent)
    }

    // A process announces that it is done only when all its data is stored.
    ghost predicate DoneOk() {
      && (doneSent || ctl.SendingDone? ==> mine == NoReq || mine == Completed)
      && (ctl.Sending? ==> !doneSent)
      && (if ctl.SendingDone? then !doneSent && (d == Silent <==> q >= ctl.i)
          else doneSent <==> d != Silent)
      && (p == q ==> d != Announced && mine == theirs)
    }

    ghost predicate Ok() { ChanOk() && ControlOk() && SlotOk() && DoneOk() }
  }

  ghost function ViewOf(r: Round, s: State, a: Aux, p: nat, q: nat): View
    requires |s.procs| == |r| && p < |r| && q < |r|
  {
    View(p, q, Slot(r[p].requests, q), InfoOf(r, p, q), AnswerOf(r, q, p), s.procs[p].ctl, s.procs[p].doneSent,
         s.Chan(p, q), a.Req(p, q), a.Req(q, p), a.Dn(p, q))
  }

  // The piece p requests from q, and q's answer to it.
  function InfoOf(r: Round, p: nat, q: nat): FetchInfo
    requires p < |r|
  {
    var j := Slot(r[p].requests, q);
    if j >= 0 then r[p].requests[j].info else FetchInfo([], [], [])
  }

  ghost function AnswerOf(r: Round, p: nat, q: nat): seq<Elem>
    requires p < |r| && q < |r|
  {
    Serve(r[q], InfoOf(r, p, q))
  }

  // The counters of p are exact: remaining_requests counts the requests sent
  // and not yet stored, done_count the announcements heard.
  ghost predicate CountersOk(r: Round, s: State, a: Aux, p: nat)
    requires |s.procs| == |r| && p < |r|
  {
    var pr := s.procs[p];
    && pr.remaining == PendingCount(a, p, |r|) && pr.doneCount == HeardCount(a, p, |r|)
    && (pr.ctl.Out? ==> pr.doneCount == |r|)
    && PeerOk(pr.ctl, |r|)
  }

  ghost predicate PeerOk(ctl: Control, n: nat) {
    match ctl
    case Sending(k, h) => true
    case SendingDone(i) => i <= n
    case GotRequest(q) => q < n
    case Replying(q, _, _) => q < n
    case GotReply(q) => q < n
    case Loop => true
    case Out => true
    case Corrupt => false
  }

  ghost predicate Inv(r: Round, s: State, a: Aux) {
    && |s.procs| == |r|
    && (forall p, q | 0 <= p < |r| && 0 <= q < |r| :: ViewOf(r, s, a, p, q).Ok())
    && (forall p | 0 <= p < |r| :: CountersOk(r, s, a, p))
  }
}
