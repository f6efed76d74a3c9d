/** The pool as the threads that share it: workers, submitters and the sweeper
    (internal/queue/queue.go). What a thread does between taking the lock and releasing it or going
    to sleep on the condition variable is one step, and so is each handler call, made without the
    lock. A woken thread has to take the lock again before it looks at anything. */
module PoolRuns {
  import opened Queue
  import Seqs

  datatype Maybe = Nobody | Popped(task: Task)

  datatype Thread =
    // a worker: about to lock, asleep, woken, answering what pop gave it, or returned
    | WReady | WAsleep | WWoken
    | WHolding(dead: seq<Task>, popped: Maybe, more: bool)
    | WGone
    // a call of Submit
    | SArrived(own: Task)                 // deadline not looked at yet
    | SSweeping(own: Task)                // about to collect expired tasks
    | SReplying(own: Task, dead: seq<Task>)
    | SAsleep(own: Task)
    | SWoken(own: Task, timedOut: bool)
    | SWaitReplying(own: Task, timedOut: bool, dead: seq<Task>)
    | SExpiring(own: Task) | SShedding(own: Task)
    | SDone
    // the sweeper
    | KIdle | KReplying(dead: seq<Task>) | KStopped

  /** done and turned are the tasks answered after having been queued and without it. */
  datatype State = State(
    q: seq<Task>, stopping: bool, closed: bool, threads: seq<Thread>,
    arrived: multiset<Task>, accepted: seq<Task>, popped: seq<Task>,
    done: multiset<Task>, turned: multiset<Task>, normal: nat, shed: nat, expired: nat)

  predicate Asleep(t: Thread) { t.WAsleep? || t.SAsleep? }

  function Wake(t: Thread): Thread {
    match t
    case WAsleep => WWoken
    case SAsleep(own) => SWoken(own, false)
    case _ => t
  }

  /** Broadcast. */
  function WakeAll(ts: seq<Thread>): (us: seq<Thread>)
    ensures |us| == |ts|
  {
    seq(|ts|, i requires 0 <= i < |ts| => Wake(ts[i]))
  }

  /** Signal wakes some sleeper, whichever pick says, if there is one. */
  predicate Signalled(ts: seq<Thread>, pick: nat) {
    (pick < |ts| && Asleep(ts[pick])) || forall i | 0 <= i < |ts| :: !Asleep(ts[i])
  }

  function Signal(ts: seq<Thread>, pick: nat): (us: seq<Thread>)
    ensures |us| == |ts|
  {
    if pick < |ts| && Asleep(ts[pick]) then ts[pick := Wake(ts[pick])] else ts
  }

  datatype Action =
    | Arrive(task: Task)
    | Act(i: nat, now: int, pick: nat)
    | Timer(i: nat)
    | StopSweeper(i: nat)
    | BeginClose
    | Close

  function Set(s: State, i: nat, t: Thread): State
    requires i < |s.threads|
  {
    s.(threads := s.threads[i := t])
  }

  /** takeExpiredLocked: everyone is woken when something was taken out. */
  function Sweep(c: Config, s: State, now: int): (State, seq<Task>) {
    var dead := Dead(c, s.q, now);
    (s.(q := Live(c, s.q, now), threads := if dead == [] then s.threads else WakeAll(s.threads)), dead)
  }

  function Enqueue(s: State, i: nat, t: Task, pick: nat): State
    requires i < |s.threads|
  {
    s.(q := s.q + [t], accepted := s.accepted + [t], threads := Signal(s.threads[i := SDone], pick))
  }

  function AnswerQueued(s: State, t: Task, late: bool): State {
    if late then s.(done := s.done + multiset{t}, expired := s.expired + 1)
    else s.(done := s.done + multiset{t}, normal := s.normal + 1)
  }

  function PopHead(s: State, i: nat, dead: seq<Task>): State
    requires i < |s.threads| && s.q != []
  {
    Set(s.(q := s.q[1..], popped := s.popped + [s.q[0]], threads := WakeAll(s.threads)),
        i, WHolding(dead, Popped(s.q[0]), true))
  }

  /** pop: sweep, then the head, the end, the dead alone, or sleep. */
  function WorkerLocks(c: Config, s: State, i: nat, now: int): State
    requires i < |s.threads|
  {
    var (s', dead) := Sweep(c, s, now);
    if s'.q != [] then PopHead(s', i, dead)
    else if s.closed then Set(s', i, WHolding(dead, Nobody, false))
    else if dead != [] then Set(s', i, WHolding(dead, Nobody, true))
    else Set(s', i, WAsleep)
  }

  function WorkerAnswers(c: Config, s: State, i: nat, now: int): State
    requires i < |s.threads| && s.threads[i].WHolding?
  {
    var w := s.threads[i];
    if w.dead != [] then Set(AnswerQueued(s, w.dead[0], true), i, WHolding(w.dead[1..], w.popped, w.more))
    else if w.popped.Popped? then
      Set(AnswerQueued(s, w.popped.task, c.Late(w.popped.task, now)), i, WHolding([], Nobody, w.more))
    else Set(s, i, if w.more then WReady else WGone)
  }

  /** One turn of submitWaitLocked's loop, from taking the lock to releasing it or sleeping. */
  function WaitLoop(c: Config, s: State, i: nat, own: Task, timedOut: bool, now: int, pick: nat): State
    requires i < |s.threads|
  {
    if |s.q| >= c.depth && !timedOut && !s.closed then
      var (s', dead) := Sweep(c, s, now);
      if dead != [] then Set(s', i, SWaitReplying(own, false, dead)) else Set(s', i, SAsleep(own))
    else if s.closed then Set(s, i, SExpiring(own))
    else if |s.q| < c.depth then Enqueue(s, i, own, pick)
    else Set(s, i, SExpiring(own))
  }

  /** Submit after its own sweep: closed, room, wait or drop. */
  function Admit(c: Config, s: State, i: nat, own: Task, now: int, pick: nat): State
    requires i < |s.threads|
  {
    if s.closed then Set(s, i, SExpiring(own))
    else if |s.q| < c.depth then Enqueue(s, i, own, pick)
    else if c.full == Drop then Set(s, i, SShedding(own))
    else if c.Late(own, now) then Set(s, i, SExpiring(own))
    else WaitLoop(c, s, i, own, false, now, pick)
  }

  function SubmitterActs(c: Config, s: State, i: nat, now: int, pick: nat): State
    requires i < |s.threads|
  {
    match s.threads[i]
    case SArrived(own) => Set(s, i, if c.Late(own, now) then SExpiring(own) else SSweeping(own))
    case SSweeping(own) => var (s', dead) := Sweep(c, s, now); Set(s', i, SReplying(own, dead))
    case SReplying(own, dead) =>
      if dead != [] then Set(AnswerQueued(s, dead[0], true), i, SReplying(own, dead[1..]))
      else Admit(c, s, i, own, now, pick)
    case SWoken(own, timedOut) => WaitLoop(c, s, i, own, timedOut, now, pick)
    case SWaitReplying(own, timedOut, dead) =>
      if dead != [] then Set(AnswerQueued(s, dead[0], true), i, SWaitReplying(own, timedOut, dead[1..]))
      else WaitLoop(c, s, i, own, timedOut, now, pick)
    case SExpiring(own) => Set(s.(turned := s.turned + multiset{own}, expired := s.expired + 1), i, SDone)
    case SShedding(own) => Set(s.(turned := s.turned + multiset{own}, shed := s.shed + 1), i, SDone)
    case _ => s
  }

  function SweeperActs(c: Config, s: State, i: nat, now: int): State
    requires i < |s.threads|
  {
    match s.threads[i]
    case KIdle => var (s', dead) := Sweep(c, s, now); Set(s', i, KReplying(dead))
    case KReplying(dead) =>
      if dead != [] then Set(AnswerQueued(s, dead[0], true), i, KReplying(dead[1..])) else Set(s, i, KIdle)
    case _ => s
  }

  function Step(c: Config, s: State, a: Action): State {
    match a
    case Arrive(t) => s.(arrived := s.arrived + multiset{t}, threads := s.threads + [SArrived(t)])
    case Act(i, now, pick) =>
      if i >= |s.threads| then s
      else
        var t := s.threads[i];
        if t.WReady? || t.WWoken? then WorkerLocks(c, s, i, now)
        else if t.WHolding? then WorkerAnswers(c, s, i, now)
        else if t.KIdle? || t.KReplying? then SweeperActs(c, s, i, now)
        else SubmitterActs(c, s, i, now, pick)
    case Timer(i) =>
      if i >= |s.threads| then s
      else
        var s' := s.(threads := WakeAll(s.threads));
        (match s'.threads[i]
         case SWoken(own, _) => Set(s', i, SWoken(own, true))
         case SWaitReplying(own, _, dead) => Set(s', i, SWaitReplying(own, true, dead))
         case _ => s')
    case StopSweeper(i) =>
      if i < |s.threads| && s.threads[i].KIdle? && s.stopping then Set(s, i, KStopped) else s
    case BeginClose => s.(stopping := true)
    case Close => if s.stopping then s.(closed := true, threads := WakeAll(s.threads)) else s
  }

  /** A signal sent during the step wakes a sleeper if anyone sleeps once the signaller is gone. */
  predicate Allowed(c: Config, s: State, a: Action) {
    match a
    case Act(i, _, pick) => i < |s.threads| ==> Signalled(s.threads[i := SDone], pick)
    case _ => true
  }

  /** New: workers about to lock and an idle sweeper. */
  function Initial(workers: nat): State {
    State([], false, false, seq(workers, _ => WReady) + [KIdle], multiset{}, [], [], multiset{}, multiset{}, 0, 0, 0)
  }

  function Run(c: Config, workers: nat, acts: seq<Action>): State {
    if acts == [] then Initial(workers) else Step(c, Run(c, workers, acts[..|acts| - 1]), acts[|acts| - 1])
  }

  predicate AllowedRun(c: Config, workers: nat, acts: seq<Action>) {
    acts == [] || (AllowedRun(c, workers, acts[..|acts| - 1])
                   && Allowed(c, Run(c, workers, acts[..|acts| - 1]), acts[|acts| - 1]))
  }

  // What the threads hold between them, counted for one task x at a time.

  /** Accepted tasks taken off the queue and not answered yet. */
  function Taken(t: Thread, x: Task): nat {
    match t
    case WHolding(dead, popped, _) => multiset(dead)[x] + if popped == Popped(x) then 1 else 0
    case SReplying(_, dead) => multiset(dead)[x]
    case SWaitReplying(_, _, dead) => multiset(dead)[x]
    case KReplying(dead) => multiset(dead)[x]
    case _ => 0
  }

  /** Whatever a submitter was called with, as long as it is neither queued nor answered. */
  function Own(t: Thread, x: Task): nat {
    if t.SArrived? || t.SSweeping? || t.SReplying? || t.SAsleep? || t.SWoken? || t.SWaitReplying? || t.SExpiring?
       || t.SShedding?
    then if t.own == x then 1 else 0
    else 0
  }

  function TakenBy(ts: seq<Thread>, x: Task): nat {
    if ts == [] then 0 else TakenBy(ts[..|ts| - 1], x) + Taken(ts[|ts| - 1], x)
  }

  function OwnBy(ts: seq<Thread>, x: Task): nat {
    if ts == [] then 0 else OwnBy(ts[..|ts| - 1], x) + Own(ts[|ts| - 1], x)
  }

  lemma {:induction false} SumUpdate(ts: seq<Thread>, i: nat, t: Thread, x: Task)
    requires i < |ts|
    ensures TakenBy(ts[i := t], x) == TakenBy(ts, x) - Taken(ts[i], x) + Taken(t, x)
    ensures OwnBy(ts[i := t], x) == OwnBy(ts, x) - Own(ts[i], x) + Own(t, x)
  {
    hide Taken, Own;
    var n := |ts| - 1;
    if i < n {
      SumUpdate(ts[..n], i, t, x);
      assert ts[i := t][..n] == ts[..n][i := t];
    } else {
      assert ts[i := t][..n] == ts[..n];
    }
  }

  lemma {:induction false} SumSame(ts: seq<Thread>, us: seq<Thread>, x: Task)
    requires |ts| == |us|
    requires forall i | 0 <= i < |ts| :: us[i] == ts[i] || us[i] == Wake(ts[i])
    ensures TakenBy(ts, x) == TakenBy(us, x) && OwnBy(ts, x) == OwnBy(us, x)
  {
    if ts != [] {
      SumSame(ts[..|ts| - 1], us[..|us| - 1], x);
    }
  }

  // Conservation.

  /** Every accepted task is answered, queued or in somebody's hands, and every task that came is
      accepted, turned away or still with its submitter. */
  ghost predicate Conserved(s: State, x: Task) {
    && multiset(s.accepted)[x] == s.done[x] + multiset(s.q)[x] + TakenBy(s.threads, x)
    && s.arrived[x] == multiset(s.accepted)[x] + s.turned[x] + OwnBy(s.threads, x)
  }

  lemma SetConserves(s: State, i: nat, t: Thread, x: Task)
    requires Conserved(s, x) && i < |s.threads|
    requires Taken(t, x) == Taken(s.threads[i], x) && Own(t, x) == Own(s.threads[i], x)
    ensures Conserved(Set(s, i, t), x)
  {
    hide Taken, Own;
    SumUpdate(s.threads, i, t, x);
  }

  lemma EnqueueConserves(s: State, i: nat, t: Task, pick: nat, x: Task)
    requires Conserved(s, x) && i < |s.threads|
    requires Taken(s.threads[i], x) == 0 && Own(s.threads[i], x) == if t == x then 1 else 0
    ensures Conserved(Enqueue(s, i, t, pick), x)
  {
    var ts := s.threads[i := SDone];
    SumUpdate(s.threads, i, SDone, x);
    SumSame(ts, Signal(ts, pick), x);
    hide TakenBy, OwnBy, Signal;
    Seqs.Bag(s.q, t);
    Seqs.Bag(s.accepted, t);
  }

  /** A thread answers one of the queued tasks it holds. */
  lemma ReplyConserves(s: State, i: nat, y: Task, late: bool, t: Thread, x: Task)
    requires Conserved(s, x) && i < |s.threads|
    requires Taken(s.threads[i], x) == Taken(t, x) + (if y == x then 1 else 0) && Own(t, x) == Own(s.threads[i], x)
    ensures Conserved(Set(AnswerQueued(s, y, late), i, t), x)
  {
    hide Taken, Own;
    SumUpdate(s.threads, i, t, x);
  }

  /** A thread answers what it was called with. */
  lemma TurnConserves(s: State, i: nat, own: Task, s': State, x: Task)
    requires Conserved(s, x) && i < |s.threads|
    requires Taken(s.threads[i], x) == 0 && Own(s.threads[i], x) == if own == x then 1 else 0
    requires s'.q == s.q && s'.accepted == s.accepted && s'.done == s.done && s'.arrived == s.arrived
    requires s'.turned == s.turned + multiset{own} && s'.threads == s.threads[i := SDone]
    ensures Conserved(s', x)
  {
    SumUpdate(s.threads, i, SDone, x);
    hide TakenBy, OwnBy;
  }

  lemma HeadOf(q: seq<Task>, x: Task)
    requires q != []
    ensures multiset(q)[x] == multiset(q[1..])[x] + if q[0] == x then 1 else 0
  {
    assert q == [q[0]] + q[1..];
  }

  /** A thread that held nothing queued sweeps and keeps what it took. */
  lemma SweepConserves(c: Config, s: State, i: nat, now: int, t: Thread, x: Task)
    requires Conserved(s, x) && i < |s.threads| && !Asleep(s.threads[i])
    requires Taken(s.threads[i], x) == 0 && Own(t, x) == Own(s.threads[i], x)
    requires Taken(t, x) == multiset(Dead(c, s.q, now))[x]
    ensures Conserved(Set(Sweep(c, s, now).0, i, t), x)
  {
    hide TakenBy, OwnBy, Taken, Own, Dead, Live;
    var s' := Sweep(c, s, now).0;
    Partition(c, s.q, now);
    SumSame(s.threads, s'.threads, x);
    SumUpdate(s'.threads, i, t, x);
  }

  lemma WakeThenSet(ts: seq<Thread>, i: nat, t: Thread, u: Thread)
    requires i < |ts|
    ensures WakeAll(ts[i := t])[i := u] == WakeAll(ts)[i := u]
  {
  }

  /** A worker that has just swept takes the head as well. */
  lemma PopConserves(s: State, i: nat, dead: seq<Task>, x: Task)
    requires i < |s.threads| && s.q != []
    requires Conserved(Set(s, i, WHolding(dead, Nobody, true)), x)
    ensures Conserved(PopHead(s, i, dead), x)
  {
    hide TakenBy, OwnBy, WakeAll;
    var before := s.threads[i := WHolding(dead, Nobody, true)];
    var t := WHolding(dead, Popped(s.q[0]), true);
    WakeThenSet(s.threads, i, WHolding(dead, Nobody, true), t);
    SumWake(before, x);
    SumUpdate(WakeAll(before), i, t, x);
    WakeAt(before, i);
    HeadOf(s.q, x);
  }

  lemma SumWake(ts: seq<Thread>, x: Task)
    ensures TakenBy(WakeAll(ts), x) == TakenBy(ts, x) && OwnBy(WakeAll(ts), x) == OwnBy(ts, x)
  {
    SumSame(ts, WakeAll(ts), x);
  }

  lemma WakeAt(ts: seq<Thread>, i: nat)
    requires i < |ts|
    ensures WakeAll(ts)[i] == Wake(ts[i])
  {
  }

  lemma WorkerLocksConserves(c: Config, s: State, i: nat, now: int, x: Task)
    requires Conserved(s, x) && i < |s.threads| && (s.threads[i].WReady? || s.threads[i].WWoken?)
    ensures Conserved(WorkerLocks(c, s, i, now), x)
  {
    hide TakenBy, OwnBy, Dead, Live, WakeAll;
    var (s', dead) := Sweep(c, s, now);
    if s'.q != [] {
      SweepConserves(c, s, i, now, WHolding(dead, Nobody, true), x);
      PopConserves(s', i, dead, x);
    } else if s.closed || dead != [] {
      SweepConserves(c, s, i, now, WHolding(dead, Nobody, !s.closed), x);
    } else {
      SweepConserves(c, s, i, now, WAsleep, x);
    }
  }

  lemma WorkerAnswersConserves(c: Config, s: State, i: nat, now: int, x: Task)
    requires Conserved(s, x) && i < |s.threads| && s.threads[i].WHolding?
    ensures Conserved(WorkerAnswers(c, s, i, now), x)
  {
    var w := s.threads[i];
    if w.dead != [] {
      HeadOf(w.dead, x);
      ReplyConserves(s, i, w.dead[0], true, WHolding(w.dead[1..], w.popped, w.more), x);
    } else if w.popped.Popped? {
      ReplyConserves(s, i, w.popped.task, c.Late(w.popped.task, now), WHolding([], Nobody, w.more), x);
    } else {
      SetConserves(s, i, if w.more then WReady else WGone, x);
    }
  }

  lemma WaitLoopConserves(c: Config, s: State, i: nat, own: Task, timedOut: bool, now: int, pick: nat, x: Task)
    requires Conserved(s, x) && i < |s.threads| && !Asleep(s.threads[i])
    requires Taken(s.threads[i], x) == 0 && Own(s.threads[i], x) == if own == x then 1 else 0
    ensures Conserved(WaitLoop(c, s, i, own, timedOut, now, pick), x)
  {
    hide Conserved, Dead, Live, Enqueue, WakeAll;
    var dead := Dead(c, s.q, now);
    if |s.q| >= c.depth && !timedOut && !s.closed {
      if dead != [] {
        SweepConserves(c, s, i, now, SWaitReplying(own, false, dead), x);
      } else {
        SweepConserves(c, s, i, now, SAsleep(own), x);
      }
    } else if !s.closed && |s.q| < c.depth {
      EnqueueConserves(s, i, own, pick, x);
    } else {
      SetConserves(s, i, SExpiring(own), x);
    }
  }

  lemma AdmitConserves(c: Config, s: State, i: nat, own: Task, now: int, pick: nat, x: Task)
    requires Conserved(s, x) && i < |s.threads| && s.threads[i] == SReplying(own, [])
    ensures Conserved(Admit(c, s, i, own, now, pick), x)
  {
    hide Conserved, Dead, Live, Enqueue, WakeAll, WaitLoop;
    SetConserves(s, i, SExpiring(own), x);
    SetConserves(s, i, SShedding(own), x);
    EnqueueConserves(s, i, own, pick, x);
    WaitLoopConserves(c, s, i, own, false, now, pick, x);
  }

  lemma SubmitterReplies(c: Config, s: State, i: nat, now: int, pick: nat, x: Task)
    requires Conserved(s, x) && i < |s.threads|
    requires (s.threads[i].SReplying? || s.threads[i].SWaitReplying?) && s.threads[i].dead != []
    ensures Conserved(SubmitterActs(c, s, i, now, pick), x)
  {
    hide TakenBy, OwnBy, Dead, Live, WaitLoop, Admit;
    var t := s.threads[i];
    HeadOf(t.dead, x);
    var next := if t.SReplying? then SReplying(t.own, t.dead[1..]) else SWaitReplying(t.own, t.timedOut, t.dead[1..]);
    ReplyConserves(s, i, t.dead[0], true, next, x);
  }

  lemma SubmitterConserves(c: Config, s: State, i: nat, now: int, pick: nat, x: Task)
    requires Conserved(s, x) && i < |s.threads|
    ensures Conserved(SubmitterActs(c, s, i, now, pick), x)
  {
    hide TakenBy, OwnBy, Dead, Live, WaitLoop, Admit, AnswerQueued;
    var t := s.threads[i];
    if (t.SReplying? || t.SWaitReplying?) && t.dead != [] {
      SubmitterReplies(c, s, i, now, pick, x);
    } else if t.SArrived? {
      SetConserves(s, i, if c.Late(t.own, now) then SExpiring(t.own) else SSweeping(t.own), x);
    } else if t.SSweeping? {
      SweepConserves(c, s, i, now, SReplying(t.own, Dead(c, s.q, now)), x);
    } else if t.SReplying? {
      AdmitConserves(c, s, i, t.own, now, pick, x);
    } else if t.SWoken? || t.SWaitReplying? {
      WaitLoopConserves(c, s, i, t.own, t.timedOut, now, pick, x);
    } else if t.SExpiring? || t.SShedding? {
      TurnConserves(s, i, t.own, SubmitterActs(c, s, i, now, pick), x);
    }
  }

  lemma SweeperConserves(c: Config, s: State, i: nat, now: int, x: Task)
    requires Conserved(s, x) && i < |s.threads|
    ensures Conserved(SweeperActs(c, s, i, now), x)
  {
    hide TakenBy, OwnBy, Dead, Live, AnswerQueued;
    match s.threads[i]
    case KIdle => SweepConserves(c, s, i, now, KReplying(Dead(c, s.q, now)), x);
    case KReplying(dead) =>
      if dead != [] {
        HeadOf(dead, x);
        ReplyConserves(s, i, dead[0], true, KReplying(dead[1..]), x);
      } else {
        SetConserves(s, i, KIdle, x);
      }
    case _ =>
  }

  lemma ArriveConserves(s: State, t: Task, x: Task)
    requires Conserved(s, x)
    ensures Conserved(s.(arrived := s.arrived + multiset{t}, threads := s.threads + [SArrived(t)]), x)
  {
    var ts := s.threads + [SArrived(t)];
    assert ts[..|ts| - 1] == s.threads;
  }

  lemma WakeConserves(s: State, x: Task)
    requires Conserved(s, x)
    ensures Conserved(s.(threads := WakeAll(s.threads)), x)
  {
    SumWake(s.threads, x);
  }

  lemma TimerConserves(s: State, i: nat, x: Task)
    requires Conserved(s, x)
    ensures forall c: Config :: Conserved(Step(c, s, Timer(i)), x)
  {
    WakeConserves(s, x);
    if i < |s.threads| {
      hide Conserved, WakeAll;
      var s' := s.(threads := WakeAll(s.threads));
      match s'.threads[i] {
        case SWoken(own, _) => SetConserves(s', i, SWoken(own, true), x);
        case SWaitReplying(own, _, dead) => SetConserves(s', i, SWaitReplying(own, true, dead), x);
        case _ =>
      }
    }
  }

  lemma StepConserves(c: Config, s: State, a: Action, x: Task)
    requires Conserved(s, x)
    ensures Conserved(Step(c, s, a), x)
  {
    match a
    case Arrive(t) => ArriveConserves(s, t, x);
    case Act(i, now, pick) =>
      if i < |s.threads| {
        var t := s.threads[i];
        if t.WReady? || t.WWoken? {
          WorkerLocksConserves(c, s, i, now, x);
        } else if t.WHolding? {
          WorkerAnswersConserves(c, s, i, now, x);
        } else if t.KIdle? || t.KReplying? {
          SweeperConserves(c, s, i, now, x);
        } else {
          SubmitterConserves(c, s, i, now, pick, x);
        }
        hide Conserved, WorkerLocks, WorkerAnswers, SweeperActs, SubmitterActs;
      }
    case Timer(i) => TimerConserves(s, i, x);
    case StopSweeper(i) => if i < |s.threads| && s.threads[i].KIdle? { SetConserves(s, i, KStopped, x); }
    case BeginClose =>
    case Close => WakeConserves(s, x);
  }
}
