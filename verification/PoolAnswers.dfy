/** Which answer a queued entry gets, and what the admission modes exclude (internal/queue/queue.go). */
module PoolAnswers {
  import opened Queue
  import opened PoolRuns

  /** The entries a thread took off the queue as expired. */
  function DeadOf(t: Thread): seq<Task> {
    match t
    case WHolding(dead, _, _) => dead
    case SReplying(_, dead) => dead
    case SWaitReplying(_, _, dead) => dead
    case KReplying(dead) => dead
    case _ => []
  }

  /** Whatever was taken off as expired is out of time. */
  ghost predicate Honest(c: Config, s: State, now: int) {
    forall i, x | 0 <= i < |s.threads| && x in DeadOf(s.threads[i]) :: c.Late(x, now)
  }

  /** A submitter is turned away for a full queue only in drop mode, and waits only in wait mode. */
  predicate InMode(c: Config, t: Thread) {
    && (t.SShedding? ==> c.full == Drop)
    && (t.SAsleep? || t.SWoken? || t.SWaitReplying? ==> c.full == Wait)
  }

  ghost predicate ModeKept(c: Config, s: State) {
    && (forall i | 0 <= i < |s.threads| :: InMode(c, s.threads[i]))
    && (c.full == Wait ==> s.shed == 0)
  }

  ghost predicate Good(c: Config, s: State, now: int) { Honest(c, s, now) && ModeKept(c, s) }

  /** What time takes away it does not give back. */
  lemma LaterIsLater(c: Config, s: State, now: int, later: int)
    requires Good(c, s, now) && now <= later
    ensures Good(c, s, later)
  {
    forall i, x | 0 <= i < |s.threads| && x in DeadOf(s.threads[i]) ensures c.Late(x, later) {
      assert c.Late(x, now);
    }
  }

  lemma SetGood(c: Config, s: State, i: nat, t: Thread, now: int)
    requires Good(c, s, now) && i < |s.threads| && InMode(c, t) && forall x | x in DeadOf(t) :: c.Late(x, now)
    ensures Good(c, Set(s, i, t), now)
  {
  }

  lemma WakeAllGood(c: Config, s: State, now: int)
    requires Good(c, s, now)
    ensures Good(c, s.(threads := WakeAll(s.threads)), now)
  {
    forall i | 0 <= i < |s.threads|
      ensures DeadOf(WakeAll(s.threads)[i]) == DeadOf(s.threads[i]) && InMode(c, WakeAll(s.threads)[i])
    {
      assert InMode(c, s.threads[i]);
    }
  }

  lemma SweepGood(c: Config, s: State, now: int)
    requires Good(c, s, now)
    ensures Good(c, Sweep(c, s, now).0, now) && forall x | x in Sweep(c, s, now).1 :: c.Late(x, now)
    ensures |Sweep(c, s, now).0.threads| == |s.threads|
  {
    hide Live, Dead;
    WakeAllGood(c, s, now);
    SidesAreRight(c, s.q, now);
  }

  lemma EnqueueGood(c: Config, s: State, i: nat, t: Task, pick: nat, now: int)
    requires Good(c, s, now) && i < |s.threads|
    ensures Good(c, Enqueue(s, i, t, pick), now)
  {
    SetGood(c, s, i, SDone, now);
    var ts := s.threads[i := SDone];
    if pick < |ts| && Asleep(ts[pick]) {
      assert InMode(c, ts[pick]);
      SetGood(c, Set(s, i, SDone), pick, Wake(ts[pick]), now);
    }
  }

  lemma WorkerGood(c: Config, s: State, i: nat, now: int)
    requires Good(c, s, now) && i < |s.threads|
    ensures Good(c, WorkerLocks(c, s, i, now), now)
  {
    hide Live, Dead, Honest, ModeKept, Sweep;
    SweepGood(c, s, now);
    var (s', dead) := Sweep(c, s, now);
    if s'.q != [] {
      WakeAllGood(c, s', now);
      var w := s'.(threads := WakeAll(s'.threads));
      SetGood(c, w, i, WHolding(dead, Popped(s'.q[0]), true), now);
      OnlyThreads(c, Set(w, i, WHolding(dead, Popped(s'.q[0]), true)), PopHead(s', i, dead), now);
    } else {
      SetGood(c, s', i, WHolding(dead, Nobody, false), now);
      SetGood(c, s', i, WHolding(dead, Nobody, true), now);
      SetGood(c, s', i, WAsleep, now);
    }
  }

  lemma OnlyThreads(c: Config, s: State, s': State, now: int)
    requires Good(c, s, now) && s'.threads == s.threads && s'.shed == s.shed
    ensures Good(c, s', now)
  {
  }

  lemma AnswerGood(c: Config, s: State, i: nat, x: Task, late: bool, t: Thread, now: int)
    requires Good(c, s, now) && i < |s.threads| && InMode(c, t) && forall y | y in DeadOf(t) :: c.Late(y, now)
    ensures Good(c, Set(AnswerQueued(s, x, late), i, t), now)
  {
    OnlyThreads(c, s, AnswerQueued(s, x, late), now);
    SetGood(c, AnswerQueued(s, x, late), i, t, now);
  }

  lemma RestIsLate(c: Config, s: State, i: nat, now: int)
    requires Good(c, s, now) && i < |s.threads|
    ensures forall x | x in DeadOf(s.threads[i]) :: c.Late(x, now)
    ensures DeadOf(s.threads[i]) != [] ==>
              c.Late(DeadOf(s.threads[i])[0], now) && forall x | x in DeadOf(s.threads[i])[1..] :: c.Late(x, now)
    ensures InMode(c, s.threads[i])
  {
  }

  lemma WorkerAnswersGood(c: Config, s: State, i: nat, now: int)
    requires Good(c, s, now) && i < |s.threads| && s.threads[i].WHolding?
    ensures Good(c, WorkerAnswers(c, s, i, now), now)
  {
    hide Good, AnswerQueued;
    RestIsLate(c, s, i, now);
    var w := s.threads[i];
    if w.dead != [] {
      AnswerGood(c, s, i, w.dead[0], true, WHolding(w.dead[1..], w.popped, w.more), now);
    } else if w.popped.Popped? {
      AnswerGood(c, s, i, w.popped.task, c.Late(w.popped.task, now), WHolding([], Nobody, w.more), now);
    } else {
      SetGood(c, s, i, if w.more then WReady else WGone, now);
    }
  }

  lemma WaitLoopGood(c: Config, s: State, i: nat, own: Task, timedOut: bool, now: int, pick: nat)
    requires Good(c, s, now) && i < |s.threads| && c.full == Wait
    ensures Good(c, WaitLoop(c, s, i, own, timedOut, now, pick), now)
  {
    hide Good, Sweep, Enqueue;
    if |s.q| >= c.depth && !timedOut && !s.closed {
      SweepGood(c, s, now);
      var (s', dead) := Sweep(c, s, now);
      SetGood(c, s', i, SWaitReplying(own, false, dead), now);
      SetGood(c, s', i, SAsleep(own), now);
    } else {
      SetGood(c, s, i, SExpiring(own), now);
      EnqueueGood(c, s, i, own, pick, now);
    }
  }

  lemma AdmitGood(c: Config, s: State, i: nat, own: Task, now: int, pick: nat)
    requires Good(c, s, now) && i < |s.threads|
    ensures Good(c, Admit(c, s, i, own, now, pick), now)
  {
    hide Good, Enqueue, WaitLoop;
    SetGood(c, s, i, SExpiring(own), now);
    EnqueueGood(c, s, i, own, pick, now);
    if c.full == Drop { SetGood(c, s, i, SShedding(own), now); } else { WaitLoopGood(c, s, i, own, false, now, pick); }
  }

  lemma TurnGood(c: Config, s: State, i: nat, own: Task, now: int)
    requires Good(c, s, now) && i < |s.threads|
    ensures Good(c, Set(s.(turned := s.turned + multiset{own}, expired := s.expired + 1), i, SDone), now)
    ensures c.full == Drop ==> Good(c, Set(s.(turned := s.turned + multiset{own}, shed := s.shed + 1), i, SDone), now)
  {
    var e := s.(turned := s.turned + multiset{own}, expired := s.expired + 1);
    OnlyThreads(c, s, e, now);
    SetGood(c, e, i, SDone, now);
    if c.full == Drop {
      var d := s.(turned := s.turned + multiset{own}, shed := s.shed + 1);
      assert Good(c, d, now);
      SetGood(c, d, i, SDone, now);
    }
  }

  lemma SubmitterGood(c: Config, s: State, i: nat, now: int, pick: nat)
    requires Good(c, s, now) && i < |s.threads|
    ensures Good(c, SubmitterActs(c, s, i, now, pick), now)
  {
    hide Good, Sweep, Enqueue, WaitLoop, Admit, AnswerQueued;
    RestIsLate(c, s, i, now);
    match s.threads[i]
    case SArrived(own) => SetGood(c, s, i, if c.Late(own, now) then SExpiring(own) else SSweeping(own), now);
    case SSweeping(own) =>
      SweepGood(c, s, now);
      SetGood(c, Sweep(c, s, now).0, i, SReplying(own, Sweep(c, s, now).1), now);
    case SReplying(own, dead) =>
      if dead != [] { AnswerGood(c, s, i, dead[0], true, SReplying(own, dead[1..]), now); }
      else { AdmitGood(c, s, i, own, now, pick); }
    case SWoken(own, timedOut) => WaitLoopGood(c, s, i, own, timedOut, now, pick);
    case SWaitReplying(own, timedOut, dead) =>
      if dead != [] { AnswerGood(c, s, i, dead[0], true, SWaitReplying(own, timedOut, dead[1..]), now); }
      else { WaitLoopGood(c, s, i, own, timedOut, now, pick); }
    case SExpiring(own) => TurnGood(c, s, i, own, now);
    case SShedding(own) => TurnGood(c, s, i, own, now);
    case _ =>
  }

  lemma SweeperGood(c: Config, s: State, i: nat, now: int)
    requires Good(c, s, now) && i < |s.threads|
    ensures Good(c, SweeperActs(c, s, i, now), now)
  {
    hide Good, Sweep, AnswerQueued;
    RestIsLate(c, s, i, now);
    match s.threads[i]
    case KIdle =>
      SweepGood(c, s, now);
      SetGood(c, Sweep(c, s, now).0, i, KReplying(Sweep(c, s, now).1), now);
    case KReplying(dead) =>
      if dead != [] { AnswerGood(c, s, i, dead[0], true, KReplying(dead[1..]), now); }
      else { SetGood(c, s, i, KIdle, now); }
    case _ =>
  }

  lemma TimerGood(c: Config, s: State, i: nat, now: int)
    requires Good(c, s, now)
    ensures Good(c, Step(c, s, Timer(i)), now)
  {
    if i < |s.threads| {
      WakeAllGood(c, s, now);
      var s' := s.(threads := WakeAll(s.threads));
      RestIsLate(c, s', i, now);
      hide Good, WakeAll;
      match s'.threads[i] {
        case SWoken(own, _) => SetGood(c, s', i, SWoken(own, true), now);
        case SWaitReplying(own, _, dead) => SetGood(c, s', i, SWaitReplying(own, true, dead), now);
        case _ =>
      }
    }
  }

  lemma ArriveGood(c: Config, s: State, t: Task, now: int)
    requires Good(c, s, now)
    ensures Good(c, Step(c, s, Arrive(t)), now)
  {
  }

  /** The moment of a step: the clock does not go back. */
  function Moment(a: Action, now: int): int { if a.Act? && a.now > now then a.now else now }

  lemma StepGood(c: Config, s: State, a: Action, now: int)
    requires Good(c, s, now) && (a.Act? ==> now <= a.now)
    ensures Good(c, Step(c, s, a), Moment(a, now))
  {
    hide Good, WorkerLocks, WorkerAnswers, SweeperActs, SubmitterActs, WakeAll;
    match a
    case Arrive(t) => ArriveGood(c, s, t, now);
    case Act(i, at, pick) =>
      LaterIsLater(c, s, now, at);
      if i < |s.threads| {
        WorkerGood(c, s, i, at);
        if s.threads[i].WHolding? { WorkerAnswersGood(c, s, i, at); }
        SweeperGood(c, s, i, at);
        SubmitterGood(c, s, i, at, pick);
      }
    case Timer(i) => TimerGood(c, s, i, now);
    case StopSweeper(i) => if i < |s.threads| { SetGood(c, s, i, KStopped, now); }
    case BeginClose => OnlyThreads(c, s, Step(c, s, a), now);
    case Close =>
      WakeAllGood(c, s, now);
      OnlyThreads(c, s.(threads := WakeAll(s.threads)), s.(closed := true, threads := WakeAll(s.threads)), now);
  }

  /** The time reached by a run that starts at zero. */
  function Reached(acts: seq<Action>): int {
    if acts == [] then 0 else Moment(acts[|acts| - 1], Reached(acts[..|acts| - 1]))
  }

  predicate Clocked(acts: seq<Action>) {
    acts == [] || (Clocked(acts[..|acts| - 1])
                   && (acts[|acts| - 1].Act? ==> Reached(acts[..|acts| - 1]) <= acts[|acts| - 1].now))
  }

  lemma {:induction false} RunGood(c: Config, workers: nat, acts: seq<Action>)
    requires Clocked(acts)
    ensures Good(c, Run(c, workers, acts), Reached(acts))
  {
    if acts != [] {
      hide Good, Step;
      RunGood(c, workers, acts[..|acts| - 1]);
      StepGood(c, Run(c, workers, acts[..|acts| - 1]), acts[|acts| - 1], Reached(acts[..|acts| - 1]));
    }
  }

  /** In wait mode nobody is ever turned away for a full queue, and in drop mode no submitter waits. */
  lemma ModesExclude(c: Config, workers: nat, acts: seq<Action>)
    requires Clocked(acts)
    ensures var s := Run(c, workers, acts);
            && (c.full == Wait ==> s.shed == 0)
            && (c.full == Drop ==> forall i | 0 <= i < |s.threads| :: !s.threads[i].SAsleep?)
  {
    RunGood(c, workers, acts);
    var s := Run(c, workers, acts);
    forall i | 0 <= i < |s.threads| && s.threads[i].SAsleep? ensures c.full == Wait {
      assert InMode(c, s.threads[i]);
    }
  }

  /** Whichever thread answers an entry that was queued, it is refused as expired exactly when it is
      out of time at that moment, and handled otherwise. */
  lemma AnsweredByItsTime(c: Config, workers: nat, acts: seq<Action>, i: nat, now: int, pick: nat, x: Task)
    requires Clocked(acts) && Reached(acts) <= now
    requires Step(c, Run(c, workers, acts), Act(i, now, pick)).done[x] > Run(c, workers, acts).done[x]
    ensures var s := Run(c, workers, acts);
            var s' := Step(c, s, Act(i, now, pick));
            && (c.Late(x, now) <==> s'.expired == s.expired + 1)
            && (!c.Late(x, now) <==> s'.normal == s.normal + 1)
  {
    hide Run;
    RunGood(c, workers, acts);
    var s := Run(c, workers, acts);
    LaterIsLater(c, s, Reached(acts), now);
    if i < |s.threads| {
      RestIsLate(c, s, i, now);
      AnswerStep(c, s, i, now, pick, x);
    }
  }

  /** s' is s with y answered. */
  predicate Answers(s: State, s': State, y: Task, late: bool) {
    s'.done == s.done + multiset{y} && s'.expired == s.expired + (if late then 1 else 0)
    && s'.normal == s.normal + (if late then 0 else 1)
  }

  /** s' answers nothing that was queued, or the first expired entry of thread i, or the popped one. */
  predicate OneAnswer(c: Config, s: State, s': State, i: nat, now: int)
    requires i < |s.threads|
  {
    || s'.done == s.done
    || (DeadOf(s.threads[i]) != [] && Answers(s, s', DeadOf(s.threads[i])[0], true))
    || (s.threads[i].WHolding? && s.threads[i].popped.Popped?
        && Answers(s, s', s.threads[i].popped.task, c.Late(s.threads[i].popped.task, now)))
  }

  lemma LocksAnswerNone(c: Config, s: State, i: nat, now: int)
    requires i < |s.threads|
    ensures WorkerLocks(c, s, i, now).done == s.done
  {
    hide Live, Dead, WakeAll;
  }

  lemma SweeperAnswersOne(c: Config, s: State, i: nat, now: int)
    requires i < |s.threads|
    ensures OneAnswer(c, s, SweeperActs(c, s, i, now), i, now)
  {
    hide Live, Dead, WakeAll;
  }

  lemma WorkerAnswersOne(c: Config, s: State, i: nat, now: int)
    requires i < |s.threads| && s.threads[i].WHolding?
    ensures OneAnswer(c, s, WorkerAnswers(c, s, i, now), i, now)
  {
  }

  lemma WaitAnswersNone(c: Config, s: State, i: nat, own: Task, timedOut: bool, now: int, pick: nat)
    requires i < |s.threads|
    ensures WaitLoop(c, s, i, own, timedOut, now, pick).done == s.done
    ensures Admit(c, s, i, own, now, pick).done == s.done
  {
    hide Live, Dead, WakeAll, Signal;
  }

  lemma SubmitterAnswersOne(c: Config, s: State, i: nat, now: int, pick: nat)
    requires i < |s.threads|
    ensures OneAnswer(c, s, SubmitterActs(c, s, i, now, pick), i, now)
  {
    hide Live, Dead, WakeAll, Signal, WaitLoop, Admit;
    match s.threads[i]
    case SReplying(own, _) => WaitAnswersNone(c, s, i, own, false, now, pick);
    case SWoken(own, timedOut) => WaitAnswersNone(c, s, i, own, timedOut, now, pick);
    case SWaitReplying(own, timedOut, _) => WaitAnswersNone(c, s, i, own, timedOut, now, pick);
    case _ =>
  }

  lemma AnswerStep(c: Config, s: State, i: nat, now: int, pick: nat, x: Task)
    requires i < |s.threads| && Step(c, s, Act(i, now, pick)).done[x] > s.done[x]
    requires DeadOf(s.threads[i]) != [] ==> c.Late(DeadOf(s.threads[i])[0], now)
    ensures var s' := Step(c, s, Act(i, now, pick));
            && (c.Late(x, now) <==> s'.expired == s.expired + 1)
            && (!c.Late(x, now) <==> s'.normal == s.normal + 1)
  {
    hide WorkerLocks, WorkerAnswers, SweeperActs, SubmitterActs;
    LocksAnswerNone(c, s, i, now);
    SweeperAnswersOne(c, s, i, now);
    if s.threads[i].WHolding? { WorkerAnswersOne(c, s, i, now); }
    SubmitterAnswersOne(c, s, i, now, pick);
    assert OneAnswer(c, s, Step(c, s, Act(i, now, pick)), i, now);
  }
}
