// Processes that run one program of phases, each at its own pace: in a phase a
// process sends to others, waits for as many messages from each as it expects,
// and computes its next state from them. Messages are data without any mark,
// in one queue per pair of processes. If in every phase what is sent is as
// many messages as are waited for when all processes move in step, then they
// end in that state under every schedule.
module Schedule {
  datatype Phase<!L, !M> = Phase(
    send: (nat, L, nat) -> seq<M>,      // by a process, in a state, to a process
    waits: (nat, nat) -> nat,           // of a process, for a process
    next: (nat, L, seq<seq<M>>) -> L)   // of a process, from the messages of all

  // ------------------------------------------------------ moving in step

  ghost function Arrive<L, M>(p: Phase<L, M>, w: seq<L>, r: nat): (got: seq<seq<M>>)
    ensures |got| == |w| && forall q | 0 <= q < |w| :: got[q] == p.send(q, w[q], r)
  {
    seq(|w|, q requires 0 <= q < |w| => p.send(q, w[q], r))
  }

  ghost function After<L, M>(p: Phase<L, M>, w: seq<L>): (w': seq<L>)
    ensures |w'| == |w| && forall r | 0 <= r < |w| :: w'[r] == p.next(r, w[r], Arrive(p, w, r))
  {
    seq(|w|, r requires 0 <= r < |w| => p.next(r, w[r], Arrive(p, w, r)))
  }

  // The states of all processes after the first k phases.
  ghost function InStep<L, M>(program: seq<Phase<L, M>>, w: seq<L>, k: nat): (w': seq<L>)
    requires k <= |program|
    ensures |w'| == |w|
  {
    if k == 0 then w else After(program[k - 1], InStep(program, w, k - 1))
  }

  ghost predicate Matched<L, M>(p: Phase<L, M>, w: seq<L>) {
    forall q: nat, r: nat | q < |w| && r < |w| :: |p.send(q, w[q], r)| == p.waits(r, q)
  }

  ghost predicate AllMatched<L, M>(program: seq<Phase<L, M>>, w: seq<L>) {
    forall k: nat | k < |program| :: Matched(program[k], InStep(program, w, k))
  }

  // In step, the program leads from w to w', and all messages match.
  ghost predicate Leads<L, M>(program: seq<Phase<L, M>>, w: seq<L>, w': seq<L>) {
    if program == [] then w' == w else Matched(program[0], w) && Leads(program[1..], After(program[0], w), w')
  }

  lemma LeadsOnce<L, M>(p: Phase<L, M>, w: seq<L>, w': seq<L>)
    requires Matched(p, w) && w' == After(p, w)
    ensures Leads([p], w, w')
  {
    assert Leads([p][1..], After(p, w), w');
  }

  lemma {:induction false} LeadsOn<L, M>(a: seq<Phase<L, M>>, b: seq<Phase<L, M>>, w: seq<L>, v: seq<L>, u: seq<L>)
    requires Leads(a, w, v) && Leads(b, v, u)
    ensures Leads(a + b, w, u)
  {
    if a == [] {
      assert a + b == b;
    } else {
      LeadsOn(a[1..], b, After(a[0], w), v, u);
      assert (a + b)[1..] == a[1..] + b;
    }
  }

  lemma {:induction false} InStepTail<L, M>(program: seq<Phase<L, M>>, w: seq<L>, k: nat)
    requires 0 < k <= |program|
    ensures InStep(program, w, k) == InStep(program[1..], After(program[0], w), k - 1)
  {
    if k > 1 {
      InStepTail(program, w, k - 1);
    } else {
      assert InStep(program, w, 0) == w;
    }
  }

  lemma {:induction false} LeadsMatched<L, M>(program: seq<Phase<L, M>>, w: seq<L>, w': seq<L>, k: nat)
    returns (p: Phase<L, M>, v: seq<L>)
    requires Leads(program, w, w') && k < |program|
    ensures p == program[k] && v == InStep(program, w, k) && Matched(p, v)
  {
    if k == 0 {
      p, v := program[0], w;
    } else {
      p, v := LeadsMatched(program[1..], After(program[0], w), w', k - 1);
      InStepTail(program, w, k);
    }
  }

  lemma {:induction false} LeadsTo<L, M>(program: seq<Phase<L, M>>, w: seq<L>, w': seq<L>)
    requires Leads(program, w, w')
    ensures InStep(program, w, |program|) == w'
  {
    if program != [] {
      LeadsTo(program[1..], After(program[0], w), w');
      InStepTail(program, w, |program|);
    }
  }

  lemma LeadsAllMatched<L, M>(program: seq<Phase<L, M>>, w: seq<L>, w': seq<L>)
    requires Leads(program, w, w')
    ensures AllMatched(program, w)
  {
    forall k: nat | k < |program| ensures Matched(program[k], InStep(program, w, k)) {
      var p, v := LeadsMatched(program, w, w', k);
    }
  }

  // ---------------------------------------------------------------- steps

  // A process has finished pos phases, and sent, if sent, the messages of the
  // next one.
  datatype Proc<L> = Proc(pos: nat, sent: bool, local: L)

  datatype State<L, M> = State(procs: seq<Proc<L>>, chan: (nat, nat) -> seq<M>)

  ghost predicate StateOk<L, M>(program: seq<Phase<L, M>>, s: State<L, M>) {
    forall r | 0 <= r < |s.procs| :: SentTo(s.procs[r]) <= |program|
  }

  // The phases whose messages a process has sent.
  function SentTo<L>(p: Proc<L>): nat { if p.sent then p.pos + 1 else p.pos }

  ghost predicate CanSend<L, M>(program: seq<Phase<L, M>>, s: State<L, M>, r: nat) {
    r < |s.procs| && s.procs[r].pos < |program| && !s.procs[r].sent
  }

  ghost predicate CanReceive<L, M>(program: seq<Phase<L, M>>, s: State<L, M>, r: nat) {
    && r < |s.procs| && s.procs[r].pos < |program| && s.procs[r].sent
    && forall q: nat | q < |s.procs| :: program[s.procs[r].pos].waits(r, q) <= |s.chan(q, r)|
  }

  ghost function SendStep<L, M>(program: seq<Phase<L, M>>, s: State<L, M>, r: nat): State<L, M>
    requires CanSend(program, s, r)
  {
    var p := s.procs[r];
    State(s.procs[r := p.(sent := true)],
          (q: nat, x: nat) => if q == r then s.chan(q, x) + program[p.pos].send(r, p.local, x) else s.chan(q, x))
  }

  // The first messages of every queue, as many as are expected.
  ghost function Taken<L, M>(program: seq<Phase<L, M>>, s: State<L, M>, r: nat): (got: seq<seq<M>>)
    requires CanReceive(program, s, r)
    ensures |got| == |s.procs|
  {
    seq(|s.procs|, q requires 0 <= q < |s.procs| => s.chan(q, r)[..program[s.procs[r].pos].waits(r, q)])
  }

  ghost function ReceiveStep<L, M>(program: seq<Phase<L, M>>, s: State<L, M>, r: nat): State<L, M>
    requires CanReceive(program, s, r)
  {
    var p := s.procs[r];
    State(s.procs[r := Proc(p.pos + 1, false, program[p.pos].next(r, p.local, Taken(program, s, r)))],
          (q: nat, x: nat) =>
            if x == r && program[p.pos].waits(r, q) <= |s.chan(q, r)| then s.chan(q, r)[program[p.pos].waits(r, q)..]
            else s.chan(q, x))
  }

  ghost predicate Init<L, M>(w: seq<L>, s: State<L, M>) {
    && |s.procs| == |w| && (forall r | 0 <= r < |w| :: s.procs[r] == Proc(0, false, w[r]))
    && forall q, x :: s.chan(q, x) == []
  }

  ghost predicate Next<L, M>(program: seq<Phase<L, M>>, s: State<L, M>, s': State<L, M>) {
    exists r: nat :: (CanSend(program, s, r) && s' == SendStep(program, s, r))
                     || (CanReceive(program, s, r) && s' == ReceiveStep(program, s, r))
  }

  ghost predicate Run<L, M>(program: seq<Phase<L, M>>, w: seq<L>, run: seq<State<L, M>>) {
    |run| > 0 && Init(w, run[0]) && forall i | 0 <= i < |run| - 1 :: Next(program, run[i], run[i + 1])
  }

  ghost predicate Finished<L, M>(program: seq<Phase<L, M>>, s: State<L, M>) {
    forall r | 0 <= r < |s.procs| :: s.procs[r].pos == |program|
  }

  // ---------------------------------------------------------------- queues

  // The messages of phases lo up to hi - 1.
  ghost function Stream<M>(messages: nat -> seq<M>, lo: nat, hi: nat): seq<M>
    decreases hi - lo
  {
    if hi <= lo then [] else messages(lo) + Stream(messages, lo + 1, hi)
  }

  lemma {:induction false} StreamMore<M>(messages: nat -> seq<M>, lo: nat, hi: nat)
    requires lo <= hi
    ensures Stream(messages, lo, hi + 1) == Stream(messages, lo, hi) + messages(hi)
    decreases hi - lo
  {
    if lo < hi {
      StreamMore(messages, lo + 1, hi);
    }
  }

  // What a queue holds: what has been sent and not yet been taken, where the
  // receiver must not be ahead of the sender in a phase in which something is
  // sent.
  datatype Queue<M> = Early | Holds(messages: seq<M>)

  ghost function QueueIn<M>(messages: nat -> seq<M>, lo: nat, hi: nat): Queue<M> {
    if forall k: nat | hi <= k < lo :: messages(k) == [] then Holds(Stream(messages, lo, hi)) else Early
  }

  lemma QueueGrows<M>(messages: nat -> seq<M>, lo: nat, hi: nat, c: seq<M>)
    requires QueueIn(messages, lo, hi) == Holds(c)
    ensures QueueIn(messages, lo, hi + 1) == Holds(c + messages(hi))
  {
    if lo <= hi {
      StreamMore(messages, lo, hi);
    }
  }

  lemma QueueShrinks<M>(messages: nat -> seq<M>, lo: nat, hi: nat, c: seq<M>)
    requires QueueIn(messages, lo, hi) == Holds(c) && |messages(lo)| <= |c|
    ensures QueueIn(messages, lo + 1, hi) == Holds(c[|messages(lo)|..]) && messages(lo) == c[..|messages(lo)|]
  {
    if lo < hi {
      assert c == messages(lo) + Stream(messages, lo + 1, hi);
    }
  }

  lemma QueueLong<M>(messages: nat -> seq<M>, lo: nat, hi: nat, c: seq<M>)
    requires QueueIn(messages, lo, hi) == Holds(c) && lo < hi
    ensures |messages(lo)| <= |c|
  {
  }

  // ------------------------------------------------------------- invariant

  // What q sends to x when all move in step.
  ghost function Messages<L, M>(program: seq<Phase<L, M>>, w: seq<L>, q: nat, x: nat): nat -> seq<M>
    requires q < |w|
  {
    (k: nat) => if k < |program| then program[k].send(q, InStep(program, w, k)[q], x) else []
  }

  ghost function QueueOf<L, M>(program: seq<Phase<L, M>>, w: seq<L>, q: nat, x: nat, lo: nat, hi: nat): Queue<M>
    requires q < |w|
  {
    QueueIn(Messages(program, w, q, x), lo, hi)
  }

  ghost predicate LocalsOk<L, M>(program: seq<Phase<L, M>>, w: seq<L>, s: State<L, M>)
    requires |s.procs| == |w| && StateOk(program, s)
  {
    forall r | 0 <= r < |w| :: s.procs[r].local == InStep(program, w, s.procs[r].pos)[r]
  }

  ghost predicate QueuesOk<L, M>(program: seq<Phase<L, M>>, w: seq<L>, s: State<L, M>)
    requires |s.procs| == |w|
  {
    forall q: nat, x: nat | q < |w| && x < |w| ::
      QueueOf(program, w, q, x, s.procs[x].pos, SentTo(s.procs[q])) == Holds(s.chan(q, x))
  }

  ghost predicate Inv<L, M>(program: seq<Phase<L, M>>, w: seq<L>, s: State<L, M>) {
    |s.procs| == |w| && StateOk(program, s) && LocalsOk(program, w, s) && QueuesOk(program, w, s)
  }

  lemma InitHolds<L, M>(program: seq<Phase<L, M>>, w: seq<L>, s: State<L, M>)
    requires Init(w, s)
    ensures Inv(program, w, s)
  {
  }

  lemma SendQueue<L, M>(program: seq<Phase<L, M>>, w: seq<L>, s: State<L, M>, r: nat, q: nat, x: nat)
    requires Inv(program, w, s) && CanSend(program, s, r) && q < |w| && x < |w|
    ensures var s' := SendStep(program, s, r);
      QueueOf(program, w, q, x, s.procs[x].pos, SentTo(s'.procs[q])) == Holds(s'.chan(q, x))
  {
    assert QueueOf(program, w, q, x, s.procs[x].pos, SentTo(s.procs[q])) == Holds(s.chan(q, x));
    if q == r {
      QueueGrows(Messages(program, w, r, x), s.procs[x].pos, s.procs[r].pos, s.chan(r, x));
    }
  }

  lemma SendKeeps<L, M>(program: seq<Phase<L, M>>, w: seq<L>, s: State<L, M>, r: nat, s': State<L, M>)
    requires Inv(program, w, s) && CanSend(program, s, r) && s' == SendStep(program, s, r)
    ensures Inv(program, w, s')
  {
    forall q: nat, x: nat | q < |w| && x < |w|
      ensures QueueOf(program, w, q, x, s'.procs[x].pos, SentTo(s'.procs[q])) == Holds(s'.chan(q, x))
    {
      SendQueue(program, w, s, r, q, x);
    }
  }

  // What arrives is what is expected.
  lemma ReceiveQueue<L, M>(program: seq<Phase<L, M>>, w: seq<L>, s: State<L, M>, r: nat, q: nat, n: nat)
    requires AllMatched(program, w) && Inv(program, w, s) && CanReceive(program, s, r) && q < |w|
    requires n == program[s.procs[r].pos].waits(r, q)
    ensures n <= |s.chan(q, r)|
    ensures s.chan(q, r)[..n] == Arrive(program[s.procs[r].pos], InStep(program, w, s.procs[r].pos), r)[q]
    ensures QueueOf(program, w, q, r, s.procs[r].pos + 1, SentTo(s.procs[q])) == Holds(s.chan(q, r)[n..])
  {
    var k := s.procs[r].pos;
    assert QueueOf(program, w, q, r, k, SentTo(s.procs[q])) == Holds(s.chan(q, r));
    assert Matched(program[k], InStep(program, w, k));
    QueueShrinks(Messages(program, w, q, r), k, SentTo(s.procs[q]), s.chan(q, r));
  }

  lemma ReceiveLocal<L, M>(program: seq<Phase<L, M>>, w: seq<L>, s: State<L, M>, r: nat)
    requires AllMatched(program, w) && Inv(program, w, s) && CanReceive(program, s, r)
    ensures ReceiveStep(program, s, r).procs[r].local == InStep(program, w, s.procs[r].pos + 1)[r]
  {
    var k := s.procs[r].pos;
    var got := Arrive(program[k], InStep(program, w, k), r);
    forall q: nat | q < |w| ensures Taken(program, s, r)[q] == got[q] {
      ReceiveQueue(program, w, s, r, q, program[k].waits(r, q));
    }
    assert Taken(program, s, r) == got;
  }

  lemma QueueAfter<L, M>(program: seq<Phase<L, M>>, w: seq<L>, s: State<L, M>, r: nat, q: nat, x: nat)
    requires AllMatched(program, w) && Inv(program, w, s) && CanReceive(program, s, r) && q < |w| && x < |w|
    ensures QueueOf(program, w, q, x, if x == r then s.procs[r].pos + 1 else s.procs[x].pos, SentTo(s.procs[q]))
         == Holds(ReceiveStep(program, s, r).chan(q, x))
  {
    if x == r {
      ReceiveQueue(program, w, s, r, q, program[s.procs[r].pos].waits(r, q));
    } else {
      assert QueueOf(program, w, q, x, s.procs[x].pos, SentTo(s.procs[q])) == Holds(s.chan(q, x));
    }
  }

  lemma ReceiveProcs<L, M>(program: seq<Phase<L, M>>, s: State<L, M>, r: nat) returns (s': State<L, M>)
    requires CanReceive(program, s, r)
    ensures s' == ReceiveStep(program, s, r) && |s'.procs| == |s.procs|
    ensures forall x | 0 <= x < |s.procs| :: SentTo(s'.procs[x]) == SentTo(s.procs[x])
    ensures forall x | 0 <= x < |s.procs| :: s'.procs[x].pos == if x == r then s.procs[r].pos + 1 else s.procs[x].pos
    ensures forall x | 0 <= x < |s.procs| && x != r :: s'.procs[x].local == s.procs[x].local
  {
    s' := ReceiveStep(program, s, r);
  }

  lemma ReceiveKeeps<L, M>(program: seq<Phase<L, M>>, w: seq<L>, s: State<L, M>, r: nat, s': State<L, M>)
    requires AllMatched(program, w) && Inv(program, w, s) && CanReceive(program, s, r) && s' == ReceiveStep(program, s, r)
    ensures Inv(program, w, s')
  {
    var after := ReceiveProcs(program, s, r);
    ReceiveLocal(program, w, s, r);
    forall q: nat, x: nat | q < |w| && x < |w|
      ensures QueueOf(program, w, q, x, s'.procs[x].pos, SentTo(s'.procs[q])) == Holds(s'.chan(q, x))
    {
      QueueAfter(program, w, s, r, q, x);
    }
  }

  // ------------------------------------------------------------- theorems

  // The number of steps that have been taken.
  ghost function Steps<L>(procs: seq<Proc<L>>): nat {
    if |procs| == 0 then 0
    else Steps(procs[..|procs| - 1]) + procs[|procs| - 1].pos + SentTo(procs[|procs| - 1])
  }

  lemma {:induction false} StepsAfter<L>(procs: seq<Proc<L>>, r: nat, p: Proc<L>)
    requires r < |procs|
    ensures Steps(procs[r := p]) == Steps(procs) - procs[r].pos - SentTo(procs[r]) + p.pos + SentTo(p)
  {
    var n := |procs| - 1;
    if r < n {
      StepsAfter(procs[..n], r, p);
      assert procs[r := p][..n] == procs[..n][r := p];
    } else {
      assert procs[r := p][..n] == procs[..n];
    }
  }

  lemma {:induction false} StepsAtStart<L>(procs: seq<Proc<L>>)
    requires forall r | 0 <= r < |procs| :: procs[r].pos == 0 && !procs[r].sent
    ensures Steps(procs) == 0
  {
    if |procs| > 0 {
      StepsAtStart(procs[..|procs| - 1]);
    }
  }

  lemma {:induction false} StepsBound<L>(procs: seq<Proc<L>>, n: nat)
    requires forall r | 0 <= r < |procs| :: SentTo(procs[r]) <= n
    ensures Steps(procs) <= 2 * n * |procs|
  {
    if |procs| > 0 {
      StepsBound(procs[..|procs| - 1], n);
      assert 2 * n * (|procs| - 1) + 2 * n == 2 * n * |procs|;
    }
  }

  lemma NextKeeps<L, M>(program: seq<Phase<L, M>>, w: seq<L>, s: State<L, M>, s': State<L, M>)
    requires AllMatched(program, w) && Inv(program, w, s) && Next(program, s, s')
    ensures Inv(program, w, s') && Steps(s'.procs) == Steps(s.procs) + 1
  {
    var r: nat :| (CanSend(program, s, r) && s' == SendStep(program, s, r))
                  || (CanReceive(program, s, r) && s' == ReceiveStep(program, s, r));
    StepsAfter(s.procs, r, s'.procs[r]);
    if CanSend(program, s, r) {
      SendKeeps(program, w, s, r, s');
    } else {
      ReceiveKeeps(program, w, s, r, s');
    }
  }

  lemma {:induction false} RunInvariant<L, M>(program: seq<Phase<L, M>>, w: seq<L>, run: seq<State<L, M>>)
    returns (s: State<L, M>)
    requires AllMatched(program, w) && Run(program, w, run)
    ensures s == run[|run| - 1] && Inv(program, w, s) && Steps(s.procs) == |run| - 1
    decreases |run|
  {
    var n := |run|;
    s := run[n - 1];
    if n == 1 {
      InitHolds(program, w, s);
      StepsAtStart(s.procs);
    } else {
      var before := RunInvariant(program, w, run[..n - 1]);
      NextKeeps(program, w, before, s);
    }
  }

  // In every state of every run, a process that has finished some phases is in
  // the state in which it is after them when all processes move in step.
  lemma Independent<L, M>(program: seq<Phase<L, M>>, w: seq<L>, run: seq<State<L, M>>, r: nat)
    requires AllMatched(program, w) && Run(program, w, run) && r < |w|
    ensures var s := run[|run| - 1];
      |s.procs| == |w| && s.procs[r].pos <= |program| && s.procs[r].local == InStep(program, w, s.procs[r].pos)[r]
  {
    var s := RunInvariant(program, w, run);
  }

  // Every run has at most two steps for every process and phase.
  lemma Ends<L, M>(program: seq<Phase<L, M>>, w: seq<L>, run: seq<State<L, M>>)
    requires AllMatched(program, w) && Run(program, w, run)
    ensures |run| - 1 <= 2 * |program| * |w|
  {
    var s := RunInvariant(program, w, run);
    StepsBound(s.procs, |program|);
  }

  // A process that is furthest behind.
  lemma {:induction false} Last<L>(procs: seq<Proc<L>>) returns (r: nat)
    requires |procs| > 0
    ensures r < |procs| && forall q | 0 <= q < |procs| :: procs[r].pos <= procs[q].pos
  {
    if |procs| == 1 {
      r := 0;
    } else {
      r := Last(procs[..|procs| - 1]);
      if procs[|procs| - 1].pos < procs[r].pos {
        r := |procs| - 1;
      }
    }
  }

  lemma Arrived<L, M>(program: seq<Phase<L, M>>, w: seq<L>, s: State<L, M>, r: nat, q: nat)
    requires AllMatched(program, w) && Inv(program, w, s) && r < |w| && q < |w| && s.procs[r].pos < |program|
    requires s.procs[r].pos < SentTo(s.procs[q])
    ensures program[s.procs[r].pos].waits(r, q) <= |s.chan(q, r)|
  {
    var k := s.procs[r].pos;
    assert QueueOf(program, w, q, r, k, SentTo(s.procs[q])) == Holds(s.chan(q, r));
    assert Matched(program[k], InStep(program, w, k));
    QueueLong(Messages(program, w, q, r), k, SentTo(s.procs[q]), s.chan(q, r));
  }

  lemma AllArrived<L, M>(program: seq<Phase<L, M>>, w: seq<L>, s: State<L, M>, r: nat)
    requires AllMatched(program, w) && Inv(program, w, s) && r < |w| && s.procs[r].pos < |program| && s.procs[r].sent
    requires forall q | 0 <= q < |w| :: s.procs[r].pos < SentTo(s.procs[q])
    ensures CanReceive(program, s, r)
  {
    forall q: nat | q < |s.procs| ensures program[s.procs[r].pos].waits(r, q) <= |s.chan(q, r)| {
      Arrived(program, w, s, r, q);
    }
  }

  // As long as a process has not finished, some process can take a step.
  lemma Progress<L, M>(program: seq<Phase<L, M>>, w: seq<L>, run: seq<State<L, M>>, s: State<L, M>) returns (r: nat)
    requires AllMatched(program, w) && Run(program, w, run) && s == run[|run| - 1] && !Finished(program, s)
    ensures CanSend(program, s, r) || CanReceive(program, s, r)
  {
    var s' := RunInvariant(program, w, run);
    r := Last(s.procs);
    if q: nat :| q < |s.procs| && s.procs[q].pos == s.procs[r].pos && !s.procs[q].sent {
      r := q;
    } else {
      AllArrived(program, w, s, r);
    }
  }

  lemma Drained<L, M>(program: seq<Phase<L, M>>, w: seq<L>, s: State<L, M>, q: nat, x: nat)
    requires Inv(program, w, s) && Finished(program, s) && q < |w| && x < |w|
    ensures s.chan(q, x) == []
  {
    assert SentTo(s.procs[q]) == s.procs[x].pos;
    assert QueueOf(program, w, q, x, s.procs[x].pos, SentTo(s.procs[q])) == Holds(s.chan(q, x));
  }

  lemma AtEnd<L, M>(program: seq<Phase<L, M>>, w: seq<L>, w': seq<L>, run: seq<State<L, M>>, s: State<L, M>)
    requires Leads(program, w, w') && Run(program, w, run) && s == run[|run| - 1] && Finished(program, s)
    ensures Inv(program, w, s) && |w'| == |w| && forall r | 0 <= r < |w'| :: s.procs[r].local == w'[r]
  {
    LeadsAllMatched(program, w, w');
    LeadsTo(program, w, w');
    var s' := RunInvariant(program, w, run);
  }

  // When all have finished, they are in the state in which the program ends
  // when all move in step, and no message is left.
  lemma Result<L, M>(program: seq<Phase<L, M>>, w: seq<L>, w': seq<L>, run: seq<State<L, M>>, s: State<L, M>)
    requires Leads(program, w, w') && Run(program, w, run) && s == run[|run| - 1] && Finished(program, s)
    ensures |s.procs| == |w'| && forall r | 0 <= r < |w'| :: s.procs[r].local == w'[r]
    ensures forall q: nat, x: nat | q < |w'| && x < |w'| :: s.chan(q, x) == []
  {
    AtEnd(program, w, w', run, s);
    forall q: nat, x: nat | q < |w'| && x < |w'| ensures s.chan(q, x) == [] {
      Drained(program, w, s, q, x);
    }
  }
}
