/** What Close leaves behind, said in terms of the moment it is called (internal/queue/queue.go). */
module PoolCloses {
  import opened Queue
  import opened PoolRuns
  import opened PoolSafety
  import opened PoolAnswers
  import opened PoolDrains

  /** A call of Submit that holds expired entries, or may still find some to take: it has not swept yet,
      nor given up, and there is something queued. */
  predicate CanOwe(c: Config, s: State, t: Thread, now: int) {
    Owes(t) || (s.q != [] && (t.SSweeping? || (t.SArrived? && !c.Late(t.own, now))))
  }

  predicate MayForget(c: Config, s: State, now: int) {
    exists i :: 0 <= i < |s.threads| && CanOwe(c, s, s.threads[i], now)
  }

  /** Nothing arrives any more, and the clock goes on from now. */
  predicate Aftermath(more: seq<Action>, now: int) {
    more == [] ||
    (!more[|more| - 1].Arrive? && Aftermath(more[..|more| - 1], now)
     && (more[|more| - 1].Act? ==> Since(more[..|more| - 1], now) <= more[|more| - 1].now))
  }

  function Since(more: seq<Action>, now: int): int {
    if more == [] then now else Moment(more[|more| - 1], Since(more[..|more| - 1], now))
  }

  // Where nobody can owe, nobody ever does.

  ghost predicate Settling(c: Config, s: State, now: int) {
    s.closed && !MayForget(c, s, now)
  }

  lemma CannotOwe(c: Config, s: State, i: nat, now: int)
    requires Settling(c, s, now) && i < |s.threads|
    ensures !CanOwe(c, s, s.threads[i], now)
  {
  }

  lemma LaterSettles(c: Config, s: State, now: int, later: int)
    requires Settling(c, s, now) && now <= later
    ensures Settling(c, s, later)
  {
    forall i | 0 <= i < |s.threads| ensures !CanOwe(c, s, s.threads[i], later) {
      CannotOwe(c, s, i, now);
    }
  }

  /** s' has the same or fewer entries queued, and what its threads became owes nothing. */
  lemma StillSettles(c: Config, s: State, s': State, now: int)
    requires Settling(c, s, now) && s'.closed && |s'.threads| == |s.threads| && (s.q == [] ==> s'.q == [])
    requires forall i | 0 <= i < |s.threads| ::
               || s'.threads[i] == s.threads[i] || s'.threads[i] == Wake(s.threads[i])
               || !CanOwe(c, s', s'.threads[i], now)
    ensures Settling(c, s', now)
  {
    forall i | 0 <= i < |s.threads| ensures !CanOwe(c, s', s'.threads[i], now) {
      CannotOwe(c, s, i, now);
    }
  }

  lemma WorkerSettles(c: Config, s: State, i: nat, now: int)
    requires Settling(c, s, now) && i < |s.threads|
    ensures Settling(c, WorkerLocks(c, s, i, now), now)
  {
    SweepWork(c, s, now);
    StillClosed(c, s, now);
    hide Sweep, Settling, Tasks, CanOwe;
    var s' := WorkerLocks(c, s, i, now);
    forall k | 0 <= k < |s.threads|
      ensures s'.threads[k] == s.threads[k] || s'.threads[k] == Wake(s.threads[k]) || !CanOwe(c, s', s'.threads[k], now)
    {
      if k == i { WorkersOweNothing(c, s', s'.threads[i], now); }
    }
    StillSettles(c, s, s', now);
  }

  lemma WorkersOweNothing(c: Config, s: State, t: Thread, now: int)
    ensures IsWorker(t) || IsSweeper(t) ==> !CanOwe(c, s, t, now)
  {
  }

  lemma AnswerShape(c: Config, s: State, i: nat, now: int) returns (t: Thread)
    requires i < |s.threads| && s.threads[i].WHolding?
    ensures var s' := WorkerAnswers(c, s, i, now);
            s'.threads == s.threads[i := t] && s'.q == s.q && s'.closed == s.closed && IsWorker(t)
  {
    t := WorkerAnswers(c, s, i, now).threads[i];
  }

  lemma AnswerSettles(c: Config, s: State, i: nat, now: int)
    requires Settling(c, s, now) && i < |s.threads| && s.threads[i].WHolding?
    ensures Settling(c, WorkerAnswers(c, s, i, now), now)
  {
    StillClosed(c, s, now);
    hide Settling, CanOwe, WorkerAnswers;
    var s' := WorkerAnswers(c, s, i, now);
    var t := AnswerShape(c, s, i, now);
    WorkersOweNothing(c, s', t, now);
    StillSettles(c, s, s', now);
  }

  lemma SweeperSettles(c: Config, s: State, i: nat, now: int)
    requires Settling(c, s, now) && i < |s.threads|
    ensures Settling(c, SweeperActs(c, s, i, now), now)
  {
    SweepWork(c, s, now);
    StillClosed(c, s, now);
    hide Sweep, Settling, Tasks, CanOwe;
    var s' := SweeperActs(c, s, i, now);
    WorkersOweNothing(c, s', s'.threads[i], now);
    StillSettles(c, s, s', now);
  }

  lemma StillClosed(c: Config, s: State, now: int)
    requires Settling(c, s, now)
    ensures s.closed && Sweep(c, s, now).0.closed
  {
  }

  lemma ClosedTurnsAway(c: Config, s: State, i: nat, own: Task, timedOut: bool, now: int, pick: nat)
    requires s.closed && i < |s.threads|
    ensures WaitLoop(c, s, i, own, timedOut, now, pick) == Set(s, i, SExpiring(own)) == Admit(c, s, i, own, now, pick)
  {
    hide Enqueue, Sweep;
  }

  /** What a submitter turns into when the pool is closed. */
  function ClosedTurn(c: Config, s: State, t: Thread, now: int): Thread {
    match t
    case SArrived(own) => if c.Late(own, now) then SExpiring(own) else SSweeping(own)
    case SSweeping(own) => SReplying(own, Sweep(c, s, now).1)
    case SReplying(own, dead) => if dead != [] then SReplying(own, dead[1..]) else SExpiring(own)
    case SWoken(own, _) => SExpiring(own)
    case SWaitReplying(own, timedOut, dead) =>
      if dead != [] then SWaitReplying(own, timedOut, dead[1..]) else SExpiring(own)
    case SExpiring(_) => SDone
    case SShedding(_) => SDone
    case _ => t
  }

  lemma ClosedTurnOwes(c: Config, s: State, q: seq<Task>, t: Thread, now: int)
    requires !CanOwe(c, s, t, now) && (s.q == [] ==> q == [] && Sweep(c, s, now).1 == [])
    ensures !CanOwe(c, s.(q := q), ClosedTurn(c, s, t, now), now)
  {
    hide Sweep;
  }

  lemma SweeperTurns(c: Config, s: State, i: nat, now: int, pick: nat)
    requires i < |s.threads| && s.threads[i].SSweeping?
    ensures var s', from := SubmitterActs(c, s, i, now, pick), Sweep(c, s, now).0;
            && i < |from.threads| && s'.threads == from.threads[i := ClosedTurn(c, s, s.threads[i], now)]
            && s'.q == from.q && s'.closed == s.closed
  {
    hide Live, Dead, WakeAll;
  }

  lemma OtherTurns(c: Config, s: State, i: nat, now: int, pick: nat)
    requires s.closed && i < |s.threads| && !s.threads[i].SSweeping?
    ensures var s' := SubmitterActs(c, s, i, now, pick);
            s'.threads == s.threads[i := ClosedTurn(c, s, s.threads[i], now)] && s'.q == s.q && s'.closed
  {
    hide Sweep, Enqueue, WaitLoop, Admit;
    var t := s.threads[i];
    if t.SReplying? || t.SWoken? || t.SWaitReplying? { ClosedTurnsAway(c, s, i, t.own, false, now, pick); }
    if t.SWoken? || t.SWaitReplying? { ClosedTurnsAway(c, s, i, t.own, t.timedOut, now, pick); }
  }

  lemma SubmitterSettles(c: Config, s: State, i: nat, now: int, pick: nat)
    requires Settling(c, s, now) && i < |s.threads|
    ensures Settling(c, SubmitterActs(c, s, i, now, pick), now)
  {
    CannotOwe(c, s, i, now);
    StillClosed(c, s, now);
    SweepWork(c, s, now);
    hide Sweep, Settling, SubmitterActs, ClosedTurn, Tasks;
    var s', t := SubmitterActs(c, s, i, now, pick), ClosedTurn(c, s, s.threads[i], now);
    if s.threads[i].SSweeping? { SweeperTurns(c, s, i, now, pick); } else { OtherTurns(c, s, i, now, pick); }
    ClosedTurnOwes(c, s, s'.q, s.threads[i], now);
    assert !CanOwe(c, s', t, now);
    hide CanOwe;
    StillSettles(c, s, s', now);
  }

  lemma TimerSettles(c: Config, s: State, i: nat, now: int)
    requires Settling(c, s, now)
    ensures Settling(c, Step(c, s, Timer(i)), now)
  {
    assert s.closed;
    var s' := Step(c, s, Timer(i));
    forall k | 0 <= k < |s.threads| ensures !CanOwe(c, s', s'.threads[k], now) {
      CannotOwe(c, s, k, now);
    }
  }

  lemma StepSettles(c: Config, s: State, a: Action, now: int)
    requires Settling(c, s, now) && !a.Arrive? && (a.Act? ==> now <= a.now)
    ensures Settling(c, Step(c, s, a), Moment(a, now))
  {
    StillClosed(c, s, now);
    hide Settling, WorkerLocks, WorkerAnswers, SweeperActs, SubmitterActs;
    match a
    case Act(i, at, pick) =>
      LaterSettles(c, s, now, at);
      if i < |s.threads| {
        WorkerSettles(c, s, i, at);
        if s.threads[i].WHolding? { AnswerSettles(c, s, i, at); }
        SweeperSettles(c, s, i, at);
        SubmitterSettles(c, s, i, at, pick);
      }
    case Timer(i) => TimerSettles(c, s, i, now);
    case StopSweeper(i) => StillSettles(c, s, Step(c, s, a), now);
    case BeginClose => StillSettles(c, s, Step(c, s, a), now);
    case Close => StillSettles(c, s, Step(c, s, a), now);
  }

  lemma {:induction false} AftermathSettles(c: Config, workers: nat, acts: seq<Action>, more: seq<Action>, now: int)
    requires Settling(c, Run(c, workers, acts), now) && Aftermath(more, now)
    ensures Settling(c, Run(c, workers, acts + more), Since(more, now))
  {
    if more == [] {
      assert acts + more == acts;
    } else {
      hide Settling, Step, Run;
      var rest, last := more[..|more| - 1], more[|more| - 1];
      AftermathSettles(c, workers, acts, rest, now);
      OneMoreAct(c, workers, acts, more);
      StepSettles(c, Run(c, workers, acts + rest), last, Since(rest, now));
    }
  }

  /** The caller's side: if at the time of Close no call of Submit is under way that could still sweep or
      owes answers, and nothing arrives any more, every accepted entry has been answered by the time
      Close returns. */
  lemma CloseForgetsNothing(c: Config, workers: nat, acts: seq<Action>, more: seq<Action>, now: int)
    requires c.depth > 0 && workers > 0 && AllowedRun(c, workers, acts + more)
    requires Run(c, workers, acts).closed && !MayForget(c, Run(c, workers, acts), now) && Aftermath(more, now)
    requires CloseReturned(workers, Run(c, workers, acts + more))
    ensures var s := Run(c, workers, acts + more);
            multiset(s.accepted) == s.done
  {
    AftermathSettles(c, workers, acts, more, now);
    AnsweredWhenCloseReturns(c, workers, acts + more);
    var s := Run(c, workers, acts + more);
    hide Run, AllowedRun;
    forall i | 0 <= i < |s.threads| ensures !Owes(s.threads[i]) {
      CannotOwe(c, s, i, Since(more, now));
    }
  }

  /** What the call finds is what it is asked about: Close itself makes nobody owe. */
  lemma CloseChangesNothing(c: Config, s: State, now: int)
    ensures MayForget(c, Step(c, s, Close), now) <==> MayForget(c, s, now)
  {
    var s' := Step(c, s, Close);
    forall i | 0 <= i < |s.threads| ensures CanOwe(c, s', s'.threads[i], now) <==> CanOwe(c, s, s.threads[i], now) {
    }
    if MayForget(c, s, now) {
      var i :| 0 <= i < |s.threads| && CanOwe(c, s, s.threads[i], now);
      assert CanOwe(c, s', s'.threads[i], now);
    }
  }

  // Where somebody can owe, somebody may.

  /** Only a Close that has begun closes. */
  lemma {:induction false} ClosedIsStopping(c: Config, workers: nat, acts: seq<Action>)
    ensures Run(c, workers, acts).closed ==> Run(c, workers, acts).stopping
  {
    if acts != [] {
      var s := Run(c, workers, acts[..|acts| - 1]);
      ClosedIsStopping(c, workers, acts[..|acts| - 1]);
      StepIsStopping(c, s, acts[|acts| - 1]);
      hide Step;
    }
  }

  lemma StepIsStopping(c: Config, s: State, a: Action)
    ensures var s' := Step(c, s, a);
            && (s.stopping ==> s'.stopping) && (s.closed ==> s'.closed) && (s'.closed ==> s.closed || s.stopping)
            && ((a.Act? || a.StopSweeper?) ==> s'.stopping == s.stopping && s'.closed == s.closed)
  {
    hide Live, Dead, WakeAll, Signal;
  }

  /** With nobody asleep a thread changes nobody but itself. */
  lemma OthersStay(c: Config, s: State, i: nat, now: int, pick: nat)
    requires i < |s.threads| && NobodySleeps(s.threads) && (IsWorker(s.threads[i]) || IsSweeper(s.threads[i]))
    ensures var s' := Step(c, s, Act(i, now, pick));
            |s'.threads| == |s.threads| && forall k | 0 <= k < |s.threads| && k != i :: s'.threads[k] == s.threads[k]
  {
    hide Sweep, WakeAll, Tasks;
    SweepWakesNone(c, s, now);
    WakesNone(s.threads);
    var t := s.threads[i];
    if t.WReady? || t.WWoken? {
      assert Step(c, s, Act(i, now, pick)) == WorkerLocks(c, s, i, now);
    }
  }

  lemma WakesNone(ts: seq<Thread>)
    requires NobodySleeps(ts)
    ensures WakeAll(ts) == ts
  {
    forall i | 0 <= i < |ts| ensures WakeAll(ts)[i] == ts[i] {
      assert !Asleep(ts[i]);
    }
  }

  lemma SweepWakesNone(c: Config, s: State, now: int)
    requires NobodySleeps(s.threads)
    ensures Sweep(c, s, now).0.threads == s.threads
  {
    hide Live, Dead;
    WakesNone(s.threads);
  }

  /** Once closed, the workers and the sweeper come to their end whatever the submitters do. */
  lemma CloseReturns(c: Config, workers: nat, acts: seq<Action>, t: int) returns (more: seq<Action>)
    requires c.depth > 0 && workers > 0 && AllowedRun(c, workers, acts) && Run(c, workers, acts).closed
    ensures AllowedRun(c, workers, acts + more) && CloseReturned(workers, Run(c, workers, acts + more))
    ensures var s, s' := Run(c, workers, acts), Run(c, workers, acts + more);
            |s'.threads| == |s.threads| && forall k | workers < k < |s.threads| :: s'.threads[k] == s.threads[k]
    ensures forall now | now <= t :: Aftermath(more, now)
  {
    hide Run, AllowedRun, Step, Measure, NoLostWakeup, Tidy, Conserved;
    more := [];
    assert acts + more == acts;
    ghost var threads := Run(c, workers, acts).threads;
    Awake(c, workers, acts);
    while exists i :: 0 <= i <= workers && Busy(Run(c, workers, acts + more).threads[i])
      invariant AllowedRun(c, workers, acts + more) && Run(c, workers, acts + more).closed
      invariant workers < |threads| == |Run(c, workers, acts + more).threads|
      invariant forall k | workers < k < |threads| :: Run(c, workers, acts + more).threads[k] == threads[k]
      invariant forall k | 0 <= k < |more| :: more[k].Act? && more[k].now == t
      decreases Measure(Run(c, workers, acts + more))
    {
      var s := Run(c, workers, acts + more);
      var i :| 0 <= i <= workers && Busy(s.threads[i]);
      Awake(c, workers, acts + more);
      var a := Act(i, t, Sleeper(s.threads[i := SDone]));
      OneMoreAct(c, workers, acts, more + [a]);
      assert (more + [a])[..|more|] == more;
      BusyStep(c, s, a.i, a.now, a.pick);
      OthersStay(c, s, a.i, a.now, a.pick);
      StepIsStopping(c, s, a);
      more := more + [a];
    }
    Awake(c, workers, acts + more);
    ClosedIsStopping(c, workers, acts + more);
    SteadyAftermath(more, t);
    if Run(c, workers, acts + more).threads[workers].KIdle? {
      var s := Run(c, workers, acts + more);
      OneMoreAct(c, workers, acts, more + [StopSweeper(workers)]);
      assert (more + [StopSweeper(workers)])[..|more|] == more;
      SweeperStops(c, s, workers);
      more := more + [StopSweeper(workers)];
    }
  }

  lemma SweeperStops(c: Config, s: State, i: nat)
    requires i < |s.threads| && s.threads[i].KIdle? && s.stopping
    ensures Step(c, s, StopSweeper(i)) == Set(s, i, KStopped) && Allowed(c, s, StopSweeper(i))
  {
  }

  lemma {:induction false} SteadyAftermath(more: seq<Action>, t: int)
    requires forall k | 0 <= k < |more| :: more[k].Act? && more[k].now == t
    ensures forall now | now <= t :: Aftermath(more, now) && Since(more, now) <= t
  {
    if more != [] {
      var rest := more[..|more| - 1];
      assert forall k | 0 <= k < |rest| :: rest[k] == more[k];
      SteadyAftermath(rest, t);
    }
  }

  /** In a closed pool nobody sleeps, and the first threads are the workers and the sweeper. */
  lemma Awake(c: Config, workers: nat, acts: seq<Action>)
    requires c.depth > 0 && AllowedRun(c, workers, acts) && Run(c, workers, acts).closed
    ensures NobodySleeps(Run(c, workers, acts).threads) && Roles(workers, Run(c, workers, acts))
  {
    RunKeeps(c, workers, acts);
  }

  /** One act more, in its time. */
  lemma ActLater(c: Config, workers: nat, acts: seq<Action>, more: seq<Action>, now: int, i: nat, t: int)
    returns (a: Action)
    requires AllowedRun(c, workers, acts + more) && Aftermath(more, now) && Since(more, now) <= t
    requires i < |Run(c, workers, acts + more).threads|
    ensures a.Act? && a.i == i && a.now == t && Aftermath(more + [a], now) && Since(more + [a], now) == t
    ensures AllowedRun(c, workers, acts + (more + [a]))
    ensures Run(c, workers, acts + (more + [a])) == Step(c, Run(c, workers, acts + more), a)
  {
    hide Run, AllowedRun, Step;
    a := Act(i, t, Sleeper(Run(c, workers, acts + more).threads[i := SDone]));
    OneMoreAct(c, workers, acts, more + [a]);
    assert (more + [a])[..|more|] == more;
    OneMoreLater(more, a, now);
  }

  /** A call of Submit can come to owe an answer. */
  lemma ComesToOwe(c: Config, workers: nat, acts: seq<Action>, now: int) returns (more: seq<Action>, t: int, i: nat)
    requires AllowedRun(c, workers, acts) && MayForget(c, Run(c, workers, acts), now)
    requires Run(c, workers, acts).closed
    ensures AllowedRun(c, workers, acts + more) && Run(c, workers, acts + more).closed && Aftermath(more, now)
    ensures Since(more, now) <= t
    ensures i < |Run(c, workers, acts + more).threads| && Owes(Run(c, workers, acts + more).threads[i])
  {
    hide Run, AllowedRun, Step, Aftermath, Since;
    var s := Run(c, workers, acts);
    i :| 0 <= i < |s.threads| && CanOwe(c, s, s.threads[i], now);
    more := [];
    assert acts + more == acts;
    AtOnce(now);
    if Owes(s.threads[i]) { return more, now, i; }
    if s.threads[i].SArrived? {
      var a := ActLater(c, workers, acts, more, now, i, now);
      GoesToSweep(c, s, a.i, now, a.pick);
      more := more + [a];
    }
    t := TooLate(c, s.q[0], now);
    var s' := Run(c, workers, acts + more);
    var a := ActLater(c, workers, acts, more, now, i, t);
    SweepsSome(c, s', a.i, t, a.pick);
    more := more + [a];
  }

  lemma AtOnce(now: int)
    ensures Aftermath([], now) && Since([], now) == now
  {
  }

  lemma OneMoreLater(more: seq<Action>, a: Action, now: int)
    requires Aftermath(more, now) && a.Act? && Since(more, now) <= a.now
    ensures Aftermath(more + [a], now) && Since(more + [a], now) == a.now
  {
    assert (more + [a])[..|more|] == more;
  }

  lemma TooLate(c: Config, x: Task, now: int) returns (t: int)
    ensures t >= now && c.Late(x, t)
  {
    t := x.deadline + x.enqueued - c.reserve - c.minBudget + 1;
    if t < now { t := now; }
  }

  lemma GoesToSweep(c: Config, s: State, i: nat, now: int, pick: nat)
    requires i < |s.threads| && s.threads[i].SArrived? && !c.Late(s.threads[i].own, now)
    ensures Step(c, s, Act(i, now, pick)) == Set(s, i, SSweeping(s.threads[i].own))
  {
  }

  lemma SweepsSome(c: Config, s: State, i: nat, now: int, pick: nat)
    requires i < |s.threads| && s.threads[i].SSweeping? && s.q != [] && c.Late(s.q[0], now)
    ensures var s' := Step(c, s, Act(i, now, pick));
            i < |s'.threads| && Owes(s'.threads[i]) && s'.closed == s.closed
  {
    SidesAreRight(c, s.q, now);
    Partition(c, s.q, now);
    hide Live, Dead;
    assert s.q[0] in multiset(s.q) && s.q[0] !in Live(c, s.q, now);
    assert s.q[0] in multiset(Dead(c, s.q, now));
  }

  /** Exactly then: in a closed pool some continuation without arrivals ends with Close returned and an
      accepted entry unanswered if and only if some call of Submit owes answers, or can still sweep
      while something is queued. */
  lemma CloseForgetsExactly(c: Config, workers: nat, acts: seq<Action>, now: int)
    requires c.depth > 0 && workers > 0 && AllowedRun(c, workers, acts) && Run(c, workers, acts).closed
    ensures MayForget(c, Run(c, workers, acts), now) <==> exists more :: Forgets(c, workers, acts, more, now)
  {
    hide Run, AllowedRun;
    if MayForget(c, Run(c, workers, acts), now) {
      var more, t, i := ComesToOwe(c, workers, acts, now);
      var last := CloseReturns(c, workers, acts + more, t);
      assert (acts + more) + last == acts + (more + last);
      Awake(c, workers, acts + more);
      OwerIsSubmitter(c, workers, Run(c, workers, acts + more), i);
      AnsweredWhenCloseReturns(c, workers, acts + (more + last));
      JoinAftermath(more, last, now);
      assert Forgets(c, workers, acts, more + last, now);
    } else {
      forall more ensures !Forgets(c, workers, acts, more, now) {
        if Forgets(c, workers, acts, more, now) { CloseForgetsNothing(c, workers, acts, more, now); }
      }
    }
  }

  /** A continuation in which Close returns too early. */
  ghost predicate Forgets(c: Config, workers: nat, acts: seq<Action>, more: seq<Action>, now: int) {
    && AllowedRun(c, workers, acts + more) && Aftermath(more, now)
    && CloseReturned(workers, Run(c, workers, acts + more))
    && multiset(Run(c, workers, acts + more).accepted) != Run(c, workers, acts + more).done
  }

  lemma OwerIsSubmitter(c: Config, workers: nat, s: State, i: nat)
    requires Roles(workers, s) && i < |s.threads| && Owes(s.threads[i])
    ensures workers < i
  {
  }

  lemma {:induction false} JoinAftermath(more: seq<Action>, last: seq<Action>, now: int)
    requires Aftermath(more, now) && Aftermath(last, Since(more, now))
    ensures Aftermath(more + last, now) && Since(more + last, now) == Since(last, Since(more, now))
  {
    if last == [] {
      assert more + last == more;
    } else {
      JoinAftermath(more, last[..|last| - 1], now);
      assert (more + last)[..|more + last| - 1] == more + last[..|last| - 1];
    }
  }
}
