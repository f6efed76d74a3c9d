/** What every run of the pool keeps (internal/queue/queue.go). */
module PoolSafety {
  import opened Queue
  import opened PoolRuns
  import Seqs

  // Wakeups.

  /** Workers that were woken and have not had the lock since. */
  function WokenWorkers(ts: seq<Thread>): nat {
    if ts == [] then 0 else WokenWorkers(ts[..|ts| - 1]) + if ts[|ts| - 1].WWoken? then 1 else 0
  }

  lemma {:induction false} WokenUpdate(ts: seq<Thread>, i: nat, t: Thread)
    requires i < |ts|
    ensures WokenWorkers(ts[i := t]) ==
            WokenWorkers(ts) - (if ts[i].WWoken? then 1 else 0) + if t.WWoken? then 1 else 0
  {
    var n := |ts| - 1;
    if i < n {
      WokenUpdate(ts[..n], i, t);
      assert ts[i := t][..n] == ts[..n][i := t];
    } else {
      assert ts[i := t][..n] == ts[..n];
    }
  }

  ghost predicate NobodySleeps(ts: seq<Thread>) {
    forall i | 0 <= i < |ts| :: !Asleep(ts[i])
  }

  /** A submitter sleeps only on a full queue, a worker only while enough others are on their way. */
  ghost predicate NoLostWakeup(c: Config, s: State) {
    && |s.q| <= c.depth
    && (s.closed ==> NobodySleeps(s.threads))
    && (forall i | 0 <= i < |s.threads| && s.threads[i].SAsleep? :: |s.q| == c.depth)
    && (forall i | 0 <= i < |s.threads| && s.threads[i].WAsleep? :: WokenWorkers(s.threads) >= |s.q|)
  }

  lemma AwakeIsEnough(c: Config, s: State)
    requires |s.q| <= c.depth && NobodySleeps(s.threads)
    ensures NoLostWakeup(c, s)
  {
  }

  lemma SetWakeups(c: Config, s: State, i: nat, t: Thread)
    requires NoLostWakeup(c, s) && i < |s.threads| && !s.threads[i].WWoken? && !Asleep(t)
    ensures NoLostWakeup(c, Set(s, i, t))
  {
    WokenUpdate(s.threads, i, t);
  }

  lemma SweepWakeups(c: Config, s: State, now: int)
    requires NoLostWakeup(c, s)
    ensures var (s', dead) := Sweep(c, s, now);
            && NoLostWakeup(c, s') && |s'.q| <= |s.q| && (s.q == [] ==> dead == [])
            && if dead == [] then s' == s else NobodySleeps(s'.threads)
  {
    NothingLate(c, s.q, now);
    var (s', dead) := Sweep(c, s, now);
    if dead != [] {
      hide WokenWorkers, Live, Dead;
      assert NobodySleeps(s'.threads);
      AwakeIsEnough(c, s');
    }
  }

  /** The one place that signals: no submitter can be asleep there, so a worker gets the signal. */
  lemma SignalReachesWorker(c: Config, s: State, pick: nat)
    requires NoLostWakeup(c, s) && |s.q| < c.depth
    ensures pick < |s.threads| && Asleep(s.threads[pick]) ==> s.threads[pick].WAsleep?
  {
  }

  lemma EnqueueWakeups(c: Config, s: State, i: nat, t: Task, pick: nat)
    requires NoLostWakeup(c, s) && i < |s.threads| && |s.q| < c.depth && !s.closed
    requires !s.threads[i].WWoken? && !Asleep(s.threads[i])
    requires Signalled(s.threads[i := SDone], pick)
    ensures NoLostWakeup(c, Enqueue(s, i, t, pick))
  {
    var ts := s.threads[i := SDone];
    WokenUpdate(s.threads, i, SDone);
    SignalReachesWorker(c, s, pick);
    if pick < |ts| && Asleep(ts[pick]) {
      WokenUpdate(ts, pick, WWoken);
      hide WokenWorkers;
      assert Enqueue(s, i, t, pick).threads == ts[pick := WWoken];
    }
  }

  lemma WorkerLocksWakeups(c: Config, s: State, i: nat, now: int)
    requires c.depth > 0 && NoLostWakeup(c, s) && i < |s.threads|
    ensures NoLostWakeup(c, WorkerLocks(c, s, i, now))
  {
    hide Dead, Live, WokenWorkers;
    SweepWakeups(c, s, now);
    var (s', dead) := Sweep(c, s, now);
    var r := WorkerLocks(c, s, i, now);
    if s'.q != [] || s.closed || dead != [] {
      assert NobodySleeps(r.threads);
    }
  }

  lemma WaitLoopWakeups(c: Config, s: State, i: nat, own: Task, timedOut: bool, now: int, pick: nat)
    requires NoLostWakeup(c, s) && i < |s.threads|
    requires !s.threads[i].WWoken? && !Asleep(s.threads[i])
    requires Signalled(s.threads[i := SDone], pick)
    ensures NoLostWakeup(c, WaitLoop(c, s, i, own, timedOut, now, pick))
  {
    hide Dead, Live, WokenWorkers;
    SweepWakeups(c, s, now);
    var (s', dead) := Sweep(c, s, now);
    if |s.q| >= c.depth && !timedOut && !s.closed {
      if dead == [] {
        WokenUpdate(s.threads, i, SAsleep(own));
      } else {
        assert NobodySleeps(s'.threads[i := SWaitReplying(own, false, dead)]);
      }
    } else if !s.closed && |s.q| < c.depth {
      EnqueueWakeups(c, s, i, own, pick);
    } else {
      SetWakeups(c, s, i, SExpiring(own));
    }
  }

  lemma AdmitWakeups(c: Config, s: State, i: nat, own: Task, now: int, pick: nat)
    requires NoLostWakeup(c, s) && i < |s.threads| && s.threads[i] == SReplying(own, [])
    requires Signalled(s.threads[i := SDone], pick)
    ensures NoLostWakeup(c, Admit(c, s, i, own, now, pick))
  {
    SetWakeups(c, s, i, SExpiring(own));
    SetWakeups(c, s, i, SShedding(own));
    WaitLoopWakeups(c, s, i, own, false, now, pick);
    if |s.q| < c.depth && !s.closed { EnqueueWakeups(c, s, i, own, pick); }
    hide NoLostWakeup, WaitLoop, Enqueue;
  }

  lemma SweptWakeups(c: Config, s: State, i: nat, now: int, t: Thread)
    requires NoLostWakeup(c, s) && i < |s.threads| && !s.threads[i].WWoken? && !Asleep(s.threads[i]) && !Asleep(t)
    ensures NoLostWakeup(c, Set(Sweep(c, s, now).0, i, t))
  {
    SweepWakeups(c, s, now);
    var s' := Sweep(c, s, now).0;
    assert s'.threads[i] == s.threads[i];
    SetWakeups(c, s', i, t);
  }

  lemma SubmitterWakeups(c: Config, s: State, i: nat, now: int, pick: nat)
    requires NoLostWakeup(c, s) && i < |s.threads| && Signalled(s.threads[i := SDone], pick)
    ensures NoLostWakeup(c, SubmitterActs(c, s, i, now, pick))
  {
    hide WokenWorkers, Dead, Live, WaitLoop, Admit, Signalled;
    var t := s.threads[i];
    if (t.SReplying? || t.SWaitReplying?) && t.dead != [] {
      SetWakeups(c, AnswerQueued(s, t.dead[0], true), i,
                 if t.SReplying? then SReplying(t.own, t.dead[1..]) else SWaitReplying(t.own, t.timedOut, t.dead[1..]));
    } else if t.SArrived? {
      SetWakeups(c, s, i, if c.Late(t.own, now) then SExpiring(t.own) else SSweeping(t.own));
    } else if t.SSweeping? {
      SweptWakeups(c, s, i, now, SReplying(t.own, Dead(c, s.q, now)));
    } else if t.SReplying? {
      AdmitWakeups(c, s, i, t.own, now, pick);
    } else if t.SWoken? || t.SWaitReplying? {
      WaitLoopWakeups(c, s, i, t.own, t.timedOut, now, pick);
    } else if t.SExpiring? || t.SShedding? {
      SetWakeups(c, s, i, SDone);
    }
  }

  lemma SameWakeups(c: Config, s: State, s': State)
    requires NoLostWakeup(c, s) && s'.q == s.q && s'.closed == s.closed && s'.threads == s.threads
    ensures NoLostWakeup(c, s')
  {
  }

  lemma WorkerAnswersWakeups(c: Config, s: State, i: nat, now: int)
    requires NoLostWakeup(c, s) && i < |s.threads| && s.threads[i].WHolding?
    ensures NoLostWakeup(c, WorkerAnswers(c, s, i, now))
  {
    hide WokenWorkers;
    var s' := WorkerAnswers(c, s, i, now);
    SetWakeups(c, s, i, s'.threads[i]);
    SameWakeups(c, Set(s, i, s'.threads[i]), s');
  }

  lemma SweeperWakeups(c: Config, s: State, i: nat, now: int)
    requires NoLostWakeup(c, s) && i < |s.threads| && (s.threads[i].KIdle? || s.threads[i].KReplying?)
    ensures NoLostWakeup(c, SweeperActs(c, s, i, now))
  {
    hide WokenWorkers, Dead, Live;
    if s.threads[i].KIdle? {
      SweptWakeups(c, s, i, now, KReplying(Dead(c, s.q, now)));
    } else {
      var s' := SweeperActs(c, s, i, now);
      SetWakeups(c, s, i, s'.threads[i]);
      SameWakeups(c, Set(s, i, s'.threads[i]), s');
    }
  }

  lemma TimerWakeups(c: Config, s: State, i: nat)
    requires NoLostWakeup(c, s)
    ensures NoLostWakeup(c, Step(c, s, Timer(i)))
  {
    hide WokenWorkers;
    if i < |s.threads| { AwakeIsEnough(c, Step(c, s, Timer(i))); }
  }

  lemma StepWakeups(c: Config, s: State, a: Action)
    requires c.depth > 0 && NoLostWakeup(c, s) && Allowed(c, s, a)
    ensures NoLostWakeup(c, Step(c, s, a))
  {
    match a
    case Arrive(t) =>
      var ts := s.threads + [SArrived(t)];
      assert ts[..|ts| - 1] == s.threads;
    case Act(i, now, pick) =>
      if i < |s.threads| {
        var t := s.threads[i];
        WorkerLocksWakeups(c, s, i, now);
        if t.WHolding? { WorkerAnswersWakeups(c, s, i, now); }
        if t.KIdle? || t.KReplying? { SweeperWakeups(c, s, i, now); }
        SubmitterWakeups(c, s, i, now, pick);
        hide NoLostWakeup, WorkerLocks, WorkerAnswers, SweeperActs, SubmitterActs;
      }
    case Timer(i) => TimerWakeups(c, s, i);
    case StopSweeper(i) => if i < |s.threads| && s.threads[i].KIdle? { SetWakeups(c, s, i, KStopped); }
    case BeginClose =>
    case Close => AwakeIsEnough(c, s.(threads := WakeAll(s.threads)));
  }

  // Order, counters, and what a returned worker means.

  ghost predicate Ordered(s: State) {
    Subsequence(s.popped + s.q, s.accepted)
  }

  ghost predicate Counted(s: State) {
    |s.done| + |s.turned| == s.normal + s.shed + s.expired
  }

  predicate Ended(t: Thread) {
    t.WGone? || (t.WHolding? && !t.more)
  }

  /** A worker ends only on an empty queue that nothing can enter any more. */
  ghost predicate EndsEmpty(s: State) {
    forall i | 0 <= i < |s.threads| && Ended(s.threads[i]) :: s.closed && s.q == []
  }

  predicate IsWorker(t: Thread) { t.WReady? || t.WAsleep? || t.WWoken? || t.WHolding? || t.WGone? }
  predicate IsSweeper(t: Thread) { t.KIdle? || t.KReplying? || t.KStopped? }

  /** The first threads are the workers, then the sweeper, then one per call of Submit. */
  ghost predicate Roles(workers: nat, s: State) {
    && |s.threads| > workers
    && forall i | 0 <= i < |s.threads| ::
         (IsWorker(s.threads[i]) <==> i < workers) && (IsSweeper(s.threads[i]) <==> i == workers)
  }

  ghost predicate Tidy(workers: nat, s: State) {
    Ordered(s) && Counted(s) && EndsEmpty(s) && Roles(workers, s)
  }

  /** Neither the queue nor the answers change, and the thread stays in its role. */
  lemma SetTidy(workers: nat, s: State, i: nat, t: Thread)
    requires Tidy(workers, s) && i < |s.threads|
    requires IsWorker(t) == IsWorker(s.threads[i]) && IsSweeper(t) == IsSweeper(s.threads[i])
    requires Ended(t) ==> s.closed && s.q == []
    ensures Tidy(workers, Set(s, i, t))
  {
    hide Subsequence;
  }

  lemma AnswerTidy(workers: nat, s: State, t: Task, late: bool)
    requires Tidy(workers, s)
    ensures Tidy(workers, AnswerQueued(s, t, late))
  {
    hide Subsequence, Roles, EndsEmpty;
    SameThreads(workers, s, AnswerQueued(s, t, late));
  }

  lemma SameThreads(workers: nat, s: State, s': State)
    requires Roles(workers, s) && EndsEmpty(s)
    requires s'.threads == s.threads && s'.closed == s.closed && s'.q == s.q
    ensures Roles(workers, s') && EndsEmpty(s')
  {
  }

  lemma WakeTidy(workers: nat, s: State)
    requires Tidy(workers, s)
    ensures Tidy(workers, s.(threads := WakeAll(s.threads)))
  {
    hide Subsequence;
  }

  lemma SweepTidy(c: Config, workers: nat, s: State, now: int)
    requires Tidy(workers, s)
    ensures Tidy(workers, Sweep(c, s, now).0)
  {
    LiveIsSubsequence(c, s.popped, s.q, now);
    SubsequenceTrans(s.popped + Live(c, s.q, now), s.popped + s.q, s.accepted);
    hide Subsequence, Dead;
  }

  lemma EnqueueRoles(workers: nat, s: State, i: nat, t: Task, pick: nat)
    requires Roles(workers, s) && EndsEmpty(s) && !s.closed && i < |s.threads|
    requires !IsWorker(s.threads[i]) && !IsSweeper(s.threads[i])
    ensures Roles(workers, Enqueue(s, i, t, pick)) && EndsEmpty(Enqueue(s, i, t, pick))
  {
    assert forall j | 0 <= j < |s.threads| :: !Ended(s.threads[j]);
    var ts := Enqueue(s, i, t, pick).threads;
    forall j | 0 <= j < |ts|
      ensures ts[j] == s.threads[j] || ts[j] == Wake(s.threads[j]) || (j == i && ts[j] == SDone)
    {
    }
  }

  lemma EnqueueTidy(workers: nat, s: State, i: nat, t: Task, pick: nat)
    requires Tidy(workers, s) && !s.closed && i < |s.threads|
    requires !IsWorker(s.threads[i]) && !IsSweeper(s.threads[i])
    ensures Tidy(workers, Enqueue(s, i, t, pick))
  {
    SubsequenceSnoc(s.popped + s.q, s.accepted, t);
    Seqs.Assoc(s.popped, s.q, [t]);
    EnqueueRoles(workers, s, i, t, pick);
    hide Subsequence, Roles, EndsEmpty, Signal;
  }

  /** A submitter answers its own task and is done. */
  lemma TurnTidy(c: Config, workers: nat, s: State, i: nat, now: int, pick: nat)
    requires Tidy(workers, s) && i < |s.threads| && (s.threads[i].SExpiring? || s.threads[i].SShedding?)
    ensures Tidy(workers, SubmitterActs(c, s, i, now, pick))
  {
    hide Subsequence;
    var s' := SubmitterActs(c, s, i, now, pick);
    SetTidy(workers, s, i, SDone);
    SameThreads(workers, Set(s, i, SDone), s');
  }

  lemma WorkerLocksTidy(c: Config, workers: nat, s: State, i: nat, now: int)
    requires Tidy(workers, s) && i < |s.threads| && (s.threads[i].WReady? || s.threads[i].WWoken?)
    ensures Tidy(workers, WorkerLocks(c, s, i, now))
  {
    hide Subsequence, Dead, Live;
    SweepTidy(c, workers, s, now);
    var (s', dead) := Sweep(c, s, now);
    if s'.q != [] {
      Seqs.HeadTail(s'.q);
      Seqs.Assoc(s'.popped, [s'.q[0]], s'.q[1..]);
    }
  }

  lemma WaitLoopTidy(c: Config, workers: nat, s: State, i: nat, own: Task, timedOut: bool, now: int, pick: nat)
    requires Tidy(workers, s) && i < |s.threads| && !IsWorker(s.threads[i]) && !IsSweeper(s.threads[i])
    ensures Tidy(workers, WaitLoop(c, s, i, own, timedOut, now, pick))
  {
    var (s', dead) := Sweep(c, s, now);
    SweepTidy(c, workers, s, now);
    SetTidy(workers, s', i, SAsleep(own));
    SetTidy(workers, s', i, SWaitReplying(own, false, dead));
    SetTidy(workers, s, i, SExpiring(own));
    if !s.closed { EnqueueTidy(workers, s, i, own, pick); }
    hide Tidy, Sweep, Enqueue;
  }

  lemma SubmitterTidy(c: Config, workers: nat, s: State, i: nat, now: int, pick: nat)
    requires Tidy(workers, s) && i < |s.threads| && !IsWorker(s.threads[i]) && !IsSweeper(s.threads[i])
    ensures Tidy(workers, SubmitterActs(c, s, i, now, pick))
  {
    hide Subsequence, Ordered, Dead, Live, WaitLoop, Enqueue;
    var t := s.threads[i];
    if (t.SReplying? || t.SWaitReplying?) && t.dead != [] {
      AnswerTidy(workers, s, t.dead[0], true);
      SetTidy(workers, AnswerQueued(s, t.dead[0], true), i,
              if t.SReplying? then SReplying(t.own, t.dead[1..]) else SWaitReplying(t.own, t.timedOut, t.dead[1..]));
    } else if t.SArrived? {
      SetTidy(workers, s, i, if c.Late(t.own, now) then SExpiring(t.own) else SSweeping(t.own));
    } else if t.SSweeping? {
      SweepTidy(c, workers, s, now);
      SetTidy(workers, Sweep(c, s, now).0, i, SReplying(t.own, Dead(c, s.q, now)));
    } else if t.SReplying? {
      SetTidy(workers, s, i, SExpiring(t.own));
      SetTidy(workers, s, i, SShedding(t.own));
      WaitLoopTidy(c, workers, s, i, t.own, false, now, pick);
      if !s.closed { EnqueueTidy(workers, s, i, t.own, pick); }
    } else if t.SWoken? || t.SWaitReplying? {
      WaitLoopTidy(c, workers, s, i, t.own, t.timedOut, now, pick);
    } else if t.SExpiring? || t.SShedding? {
      TurnTidy(c, workers, s, i, now, pick);
    }
  }

  lemma WorkerAnswersTidy(c: Config, workers: nat, s: State, i: nat, now: int)
    requires Tidy(workers, s) && i < |s.threads| && s.threads[i].WHolding?
    ensures Tidy(workers, WorkerAnswers(c, s, i, now))
  {
    hide Subsequence, Ordered, AnswerQueued;
    var w := s.threads[i];
    if w.dead != [] {
      AnswerTidy(workers, s, w.dead[0], true);
      AnsweredElsewhere(s, w.dead[0], true);
      SetTidy(workers, AnswerQueued(s, w.dead[0], true), i, WHolding(w.dead[1..], w.popped, w.more));
    } else if w.popped.Popped? {
      var late := c.Late(w.popped.task, now);
      AnswerTidy(workers, s, w.popped.task, late);
      AnsweredElsewhere(s, w.popped.task, late);
      SetTidy(workers, AnswerQueued(s, w.popped.task, late), i, WHolding([], Nobody, w.more));
    } else {
      SetTidy(workers, s, i, if w.more then WReady else WGone);
    }
  }

  /** Answering changes neither the queue nor the threads. */
  lemma AnsweredElsewhere(s: State, t: Task, late: bool)
    ensures AnswerQueued(s, t, late).threads == s.threads
    ensures AnswerQueued(s, t, late).q == s.q && AnswerQueued(s, t, late).closed == s.closed
  {
  }

  lemma SweeperTidy(c: Config, workers: nat, s: State, i: nat, now: int)
    requires Tidy(workers, s) && i < |s.threads| && (s.threads[i].KIdle? || s.threads[i].KReplying?)
    ensures Tidy(workers, SweeperActs(c, s, i, now))
  {
    hide Subsequence, Ordered, Dead, Live;
    var t := s.threads[i];
    if t.KIdle? {
      SweepTidy(c, workers, s, now);
      SetTidy(workers, Sweep(c, s, now).0, i, KReplying(Dead(c, s.q, now)));
    } else if t.dead != [] {
      AnswerTidy(workers, s, t.dead[0], true);
      SetTidy(workers, AnswerQueued(s, t.dead[0], true), i, KReplying(t.dead[1..]));
    } else {
      SetTidy(workers, s, i, KIdle);
    }
  }

  lemma StepTidy(c: Config, workers: nat, s: State, a: Action)
    requires Tidy(workers, s)
    ensures Tidy(workers, Step(c, s, a))
  {
    hide Subsequence;
    match a
    case Arrive(t) =>
    case Act(i, now, pick) =>
      if i < |s.threads| {
        var t := s.threads[i];
        if t.WHolding? { WorkerAnswersTidy(c, workers, s, i, now); }
        if t.KIdle? || t.KReplying? { SweeperTidy(c, workers, s, i, now); }
        if t.WReady? || t.WWoken? { WorkerLocksTidy(c, workers, s, i, now); }
        if !IsWorker(t) && !IsSweeper(t) { SubmitterTidy(c, workers, s, i, now, pick); }
        hide Tidy, WorkerLocks, WorkerAnswers, SweeperActs, SubmitterActs;
      }
    case Timer(i) =>
      WakeTidy(workers, s);
      if i < |s.threads| {
        var s' := s.(threads := WakeAll(s.threads));
        match s'.threads[i] {
          case SWoken(own, _) => SetTidy(workers, s', i, SWoken(own, true));
          case SWaitReplying(own, _, dead) => SetTidy(workers, s', i, SWaitReplying(own, true, dead));
          case _ =>
        }
      }
    case StopSweeper(i) => if i < |s.threads| && s.threads[i].KIdle? { SetTidy(workers, s, i, KStopped); }
    case BeginClose =>
    case Close => WakeTidy(workers, s);
  }

  // Whole runs.

  ghost predicate Kept(c: Config, workers: nat, s: State) {
    NoLostWakeup(c, s) && Tidy(workers, s) && forall x :: Conserved(s, x)
  }

  lemma {:induction false} NothingHeldAtStart(n: nat, x: Task)
    ensures var ws := seq(n, _ => WReady); TakenBy(ws, x) == 0 && OwnBy(ws, x) == 0 && WokenWorkers(ws) == 0
  {
    if n > 0 {
      NothingHeldAtStart(n - 1, x);
      assert seq<Thread>(n, _ => WReady)[..n - 1] == seq<Thread>(n - 1, _ => WReady);
    }
  }

  lemma InitialKept(c: Config, workers: nat)
    ensures Kept(c, workers, Initial(workers))
  {
    var ws, s := seq<Thread>(workers, _ => WReady), Initial(workers);
    assert s.threads[..|s.threads| - 1] == ws;
    forall x ensures Conserved(s, x) {
      NothingHeldAtStart(workers, x);
    }
  }

  /** Whatever the threads, the clock and the choices of Signal do. */
  lemma {:induction false} RunKeeps(c: Config, workers: nat, acts: seq<Action>)
    requires c.depth > 0 && AllowedRun(c, workers, acts)
    ensures Kept(c, workers, Run(c, workers, acts))
  {
    if acts == [] {
      InitialKept(c, workers);
    } else {
      hide NoLostWakeup, Tidy, Conserved, Step, Allowed;
      var n := |acts| - 1;
      var s := Run(c, workers, acts[..n]);
      RunKeeps(c, workers, acts[..n]);
      StepWakeups(c, s, acts[n]);
      StepTidy(c, workers, s, acts[n]);
      forall x ensures Conserved(Step(c, s, acts[n]), x) {
        StepConserves(c, s, acts[n], x);
      }
    }
  }

  lemma {:induction false} WokenWitness(ts: seq<Thread>)
    requires WokenWorkers(ts) > 0
    ensures exists i :: 0 <= i < |ts| && ts[i].WWoken?
  {
    if ts[|ts| - 1].WWoken? {
    } else {
      WokenWitness(ts[..|ts| - 1]);
      var i :| 0 <= i < |ts| - 1 && ts[..|ts| - 1][i].WWoken?;
      assert ts[i].WWoken?;
    }
  }

  /** With a task queued some worker is up: running, woken or about to take the lock. And a submitter
      that sleeps sleeps on a full queue, so then too. */
  lemma SomeWorkerIsUp(c: Config, workers: nat, acts: seq<Action>)
    requires c.depth > 0 && workers > 0 && AllowedRun(c, workers, acts)
    ensures var s := Run(c, workers, acts);
            (s.q != [] || exists i :: 0 <= i < |s.threads| && s.threads[i].SAsleep?) ==>
              exists i :: 0 <= i < workers && i < |s.threads| && IsWorker(s.threads[i])
                          && !Asleep(s.threads[i]) && !s.threads[i].WGone?
  {
    RunKeeps(c, workers, acts);
    var s := Run(c, workers, acts);
    if s.q != [] || exists i :: 0 <= i < |s.threads| && s.threads[i].SAsleep? {
      assert s.q != [];
      assert IsWorker(s.threads[0]) && !Ended(s.threads[0]);
      if s.threads[0].WAsleep? {
        WokenWitness(s.threads);
        var i :| 0 <= i < |s.threads| && s.threads[i].WWoken?;
        assert IsWorker(s.threads[i]);
      }
    }
  }

  predicate EmptyHanded(t: Thread) {
    match t
    case WReady => true
    case WAsleep => true
    case WWoken => true
    case WHolding(dead, popped, _) => dead == [] && popped == Nobody
    case WGone => true
    case SDone => true
    case KIdle => true
    case KReplying(dead) => dead == []
    case KStopped => true
    case _ => false
  }

  ghost predicate Quiet(s: State) {
    s.q == [] && forall i | 0 <= i < |s.threads| :: EmptyHanded(s.threads[i])
  }

  lemma {:induction false} EmptyHandsHoldNothing(ts: seq<Thread>, x: Task)
    requires forall i | 0 <= i < |ts| :: EmptyHanded(ts[i])
    ensures TakenBy(ts, x) == 0 && OwnBy(ts, x) == 0
  {
    if ts != [] {
      EmptyHandsHoldNothing(ts[..|ts| - 1], x);
      assert EmptyHanded(ts[|ts| - 1]);
    }
  }

  /** At any moment no task has been answered more often than it was submitted; when all is quiet
      every task has been answered exactly as often, and the counters add up to the submissions. */
  lemma ExactlyOnce(c: Config, workers: nat, acts: seq<Action>)
    requires c.depth > 0 && AllowedRun(c, workers, acts)
    ensures var s := Run(c, workers, acts);
            && (forall x :: s.done[x] + s.turned[x] <= s.arrived[x])
            && (Quiet(s) ==> s.arrived == s.done + s.turned && |s.arrived| == s.normal + s.shed + s.expired)
  {
    RunKeeps(c, workers, acts);
    var s := Run(c, workers, acts);
    hide TakenBy, OwnBy;
    forall x ensures s.done[x] + s.turned[x] <= s.arrived[x] {
      assert Conserved(s, x);
    }
    if Quiet(s) {
      forall x ensures s.arrived[x] == (s.done + s.turned)[x] {
        assert Conserved(s, x);
        EmptyHandsHoldNothing(s.threads, x);
      }
      assert s.arrived == s.done + s.turned;
    }
  }

  /** Workers get tasks in the order of acceptance: what was popped and what is still queued, in
      that order, is the accepted tasks with some left out. The queue never outgrows its depth. */
  lemma FirstInFirstOut(c: Config, workers: nat, acts: seq<Action>)
    requires c.depth > 0 && AllowedRun(c, workers, acts)
    ensures var s := Run(c, workers, acts); Subsequence(s.popped + s.q, s.accepted) && |s.q| <= c.depth
  {
    RunKeeps(c, workers, acts);
  }

  // Close.

  /** What Close waits for: every worker and the sweeper have returned. */
  ghost predicate CloseReturned(workers: nat, s: State) {
    && workers < |s.threads|
    && (forall i | 0 <= i < workers :: s.threads[i].WGone?)
    && s.threads[workers].KStopped?
  }

  /** Expired tasks a call of Submit has taken off the queue and still has to answer. */
  predicate Owes(t: Thread) {
    (t.SReplying? || t.SWaitReplying?) && t.dead != []
  }

  lemma {:induction false} NoDebtNothingTaken(ts: seq<Thread>, x: Task)
    requires forall i | 0 <= i < |ts| :: IsWorker(ts[i]) || IsSweeper(ts[i]) ==> ts[i].WGone? || ts[i].KStopped?
    requires forall i | 0 <= i < |ts| :: !Owes(ts[i])
    ensures TakenBy(ts, x) == 0
  {
    if ts != [] {
      NoDebtNothingTaken(ts[..|ts| - 1], x);
      assert !Owes(ts[|ts| - 1]);
    }
  }

  lemma {:induction false} DebtIsTaken(ts: seq<Thread>, i: nat)
    requires i < |ts| && Owes(ts[i])
    ensures TakenBy(ts, ts[i].dead[0]) > 0
  {
    if i < |ts| - 1 {
      DebtIsTaken(ts[..|ts| - 1], i);
    }
  }

  /** When Close returns the queue is empty; every accepted task has been answered exactly when no
      call of Submit is still busy answering the expired tasks it collected. */
  lemma AnsweredWhenCloseReturns(c: Config, workers: nat, acts: seq<Action>)
    requires c.depth > 0 && workers > 0 && AllowedRun(c, workers, acts)
    requires CloseReturned(workers, Run(c, workers, acts))
    ensures var s := Run(c, workers, acts);
            && s.q == []
            && (multiset(s.accepted) == s.done <==> forall i | 0 <= i < |s.threads| :: !Owes(s.threads[i]))
  {
    RunKeeps(c, workers, acts);
    var s := Run(c, workers, acts);
    assert Ended(s.threads[0]);
    assert s.q == [];
    Settled(workers, s);
  }

  lemma Settled(workers: nat, s: State)
    requires Roles(workers, s) && CloseReturned(workers, s) && s.q == []
    requires forall x :: Conserved(s, x)
    ensures multiset(s.accepted) == s.done <==> forall i | 0 <= i < |s.threads| :: !Owes(s.threads[i])
  {
    hide TakenBy, OwnBy;
    if i :| 0 <= i < |s.threads| && Owes(s.threads[i]) {
      DebtIsTaken(s.threads, i);
      assert Conserved(s, s.threads[i].dead[0]);
    } else {
      forall x ensures multiset(s.accepted)[x] == s.done[x] {
        NoDebtNothingTaken(s.threads, x);
        assert Conserved(s, x);
      }
    }
  }

  // A run of Close that leaves a task behind.

  const TIGHT := Config(1, Drop, 0, 0)
  const FIRST := Task(0, 10, 0)
  const SECOND := Task(1, 100, 0)
  const HELD := SReplying(SECOND, [FIRST])

  function Scene(threads: seq<Thread>, q: seq<Task>, accepted: seq<Task>, stopping: bool, closed: bool): State {
    State(q, stopping, closed, threads,
          multiset(if |threads| == 2 then [] else if |threads| == 3 then [FIRST] else [FIRST, SECOND]),
          accepted, [], multiset{}, multiset{}, 0, 0, 0)
  }

  predicate Reached(acts: seq<Action>, s: State) {
    AllowedRun(TIGHT, 1, acts) && Run(TIGHT, 1, acts) == s
  }

  lemma Next(acts: seq<Action>, s: State, a: Action, s': State) returns (more: seq<Action>)
    requires Reached(acts, s) && Allowed(TIGHT, s, a) && Step(TIGHT, s, a) == s'
    ensures Reached(more, s')
  {
    more := acts + [a];
    assert more[..|more| - 1] == acts;
  }

  lemma FirstArrives() returns (acts: seq<Action>)
    ensures Reached(acts, Scene([WReady, KIdle, SArrived(FIRST)], [], [], false, false))
  {
    var s0 := Scene([WReady, KIdle], [], [], false, false);
    assert Initial(1) == s0 by { assert Initial(1).threads == [WReady, KIdle]; }
    StartReached(s0);
    hide Reached, Run, AllowedRun, WorkerLocks, WorkerAnswers, SweeperActs, SubmitterActs;
    assert s0.threads + [SArrived(FIRST)] == [WReady, KIdle, SArrived(FIRST)];
    acts := Next([], s0, Arrive(FIRST), Scene([WReady, KIdle, SArrived(FIRST)], [], [], false, false));
  }

  lemma FirstIsInTime(before: seq<Action>) returns (acts: seq<Action>)
    requires Reached(before, Scene([WReady, KIdle, SArrived(FIRST)], [], [], false, false))
    ensures Reached(acts, Scene([WReady, KIdle, SSweeping(FIRST)], [], [], false, false))
  {
    hide Reached, Run, AllowedRun, WorkerLocks, WorkerAnswers, SweeperActs, WaitLoop, Admit, Sweep;
    var s1 := Scene([WReady, KIdle, SArrived(FIRST)], [], [], false, false);
    acts := Next(before, s1, Act(2, 0, 0), Scene([WReady, KIdle, SSweeping(FIRST)], [], [], false, false));
  }

  lemma FirstIsAccepted(before: seq<Action>) returns (acts: seq<Action>)
    requires Reached(before, Scene([WReady, KIdle, SSweeping(FIRST)], [], [], false, false))
    ensures Reached(acts, Scene([WReady, KIdle, SDone], [FIRST], [FIRST], false, false))
  {
    hide Reached, Run, AllowedRun, WorkerLocks, WorkerAnswers, SweeperActs, WaitLoop;
    var s1 := Scene([WReady, KIdle, SSweeping(FIRST)], [], [], false, false);
    var s2 := Scene([WReady, KIdle, SReplying(FIRST, [])], [], [], false, false);
    acts := Next(before, s1, Act(2, 0, 0), s2);
    acts := Next(acts, s2, Act(2, 0, 0), Scene([WReady, KIdle, SDone], [FIRST], [FIRST], false, false));
  }

  lemma StartReached(s: State)
    requires Initial(1) == s
    ensures Reached([], s)
  {
  }

  lemma SecondArrives(before: seq<Action>) returns (acts: seq<Action>)
    requires Reached(before, Scene([WReady, KIdle, SDone], [FIRST], [FIRST], false, false))
    ensures Reached(acts, Scene([WReady, KIdle, SDone, SSweeping(SECOND)], [FIRST], [FIRST], false, false))
  {
    hide Reached, Run, AllowedRun, WorkerLocks, WorkerAnswers, SweeperActs, SubmitterActs;
    var s0 := Scene([WReady, KIdle, SDone], [FIRST], [FIRST], false, false);
    var s1 := Scene([WReady, KIdle, SDone, SArrived(SECOND)], [FIRST], [FIRST], false, false);
    assert s0.threads + [SArrived(SECOND)] == s1.threads;
    acts := Next(before, s0, Arrive(SECOND), s1);
    acts := SecondIsInTime(acts);
  }

  lemma SecondIsInTime(before: seq<Action>) returns (acts: seq<Action>)
    requires Reached(before, Scene([WReady, KIdle, SDone, SArrived(SECOND)], [FIRST], [FIRST], false, false))
    ensures Reached(acts, Scene([WReady, KIdle, SDone, SSweeping(SECOND)], [FIRST], [FIRST], false, false))
  {
    hide Reached, Run, AllowedRun, WorkerLocks, WorkerAnswers, SweeperActs, WaitLoop, Admit, Sweep;
    var s1 := Scene([WReady, KIdle, SDone, SArrived(SECOND)], [FIRST], [FIRST], false, false);
    acts := Next(before, s1, Act(3, 0, 0),
                 Scene([WReady, KIdle, SDone, SSweeping(SECOND)], [FIRST], [FIRST], false, false));
  }

  lemma SecondCollects(before: seq<Action>) returns (acts: seq<Action>)
    requires Reached(before, Scene([WReady, KIdle, SDone, SSweeping(SECOND)], [FIRST], [FIRST], false, false))
    ensures Reached(acts, Scene([WReady, KIdle, SDone, HELD], [], [FIRST], false, false))
  {
    hide Reached, Run, AllowedRun, WorkerLocks, WorkerAnswers, SweeperActs, WaitLoop, Admit;
    var s0 := Scene([WReady, KIdle, SDone, SSweeping(SECOND)], [FIRST], [FIRST], false, false);
    assert TIGHT.Late(FIRST, 20);
    assert Dead(TIGHT, [], 20) == [] && Live(TIGHT, [], 20) == [];
    PartitionStep(TIGHT, [FIRST], 20);
    assert [FIRST][..0] == [] && [] + [FIRST] == [FIRST];
    assert WakeAll(s0.threads) == s0.threads;
    hide Dead, Live, WakeAll;
    assert Sweep(TIGHT, s0, 20) == (s0.(q := []), [FIRST]);
    acts := Next(before, s0, Act(3, 20, 0), Scene([WReady, KIdle, SDone, HELD], [], [FIRST], false, false));
  }

  lemma CloseIsCalled(before: seq<Action>) returns (acts: seq<Action>)
    requires Reached(before, Scene([WReady, KIdle, SDone, HELD], [], [FIRST], false, false))
    ensures Reached(acts, Scene([WReady, KIdle, SDone, HELD], [], [FIRST], true, true))
  {
    hide Reached, Run, AllowedRun, WorkerLocks, WorkerAnswers, SweeperActs, SubmitterActs;
    var s1 := Scene([WReady, KIdle, SDone, HELD], [], [FIRST], true, false);
    acts := Next(before, Scene([WReady, KIdle, SDone, HELD], [], [FIRST], false, false), BeginClose, s1);
    assert WakeAll(s1.threads) == s1.threads;
    acts := Next(acts, s1, Close, Scene([WReady, KIdle, SDone, HELD], [], [FIRST], true, true));
  }

  lemma WorkerFindsNothing(before: seq<Action>) returns (acts: seq<Action>)
    requires Reached(before, Scene([WReady, KIdle, SDone, HELD], [], [FIRST], true, true))
    ensures Reached(acts, Scene([WHolding([], Nobody, false), KIdle, SDone, HELD], [], [FIRST], true, true))
  {
    hide Reached, Run, AllowedRun, SweeperActs, SubmitterActs, WorkerAnswers, WakeAll;
    acts := Next(before, Scene([WReady, KIdle, SDone, HELD], [], [FIRST], true, true), Act(0, 20, 0),
                 Scene([WHolding([], Nobody, false), KIdle, SDone, HELD], [], [FIRST], true, true));
  }

  lemma ThreadsReturn(before: seq<Action>) returns (acts: seq<Action>)
    requires Reached(before, Scene([WReady, KIdle, SDone, HELD], [], [FIRST], true, true))
    ensures Reached(acts, Scene([WGone, KStopped, SDone, HELD], [], [FIRST], true, true))
  {
    hide Reached, Run, AllowedRun, SweeperActs, SubmitterActs, WorkerLocks, WakeAll;
    acts := WorkerFindsNothing(before);
    var s3 := Scene([WHolding([], Nobody, false), KIdle, SDone, HELD], [], [FIRST], true, true);
    var s4 := Scene([WGone, KIdle, SDone, HELD], [], [FIRST], true, true);
    acts := Next(acts, s3, Act(0, 20, 0), s4);
    acts := Next(acts, s4, StopSweeper(1), Scene([WGone, KStopped, SDone, HELD], [], [FIRST], true, true));
  }

  ghost predicate LeavesTaskBehind(s: State) {
    CloseReturned(1, s) && multiset(s.accepted) != s.done
  }

  /** Close does return with an accepted task unanswered: its deadline passes in the queue, another
      call of Submit collects it, and everything closes before that call answers. */
  lemma CloseCanReturnEarly()
    ensures exists acts :: AllowedRun(TIGHT, 1, acts) && LeavesTaskBehind(Run(TIGHT, 1, acts))
  {
    hide Run, AllowedRun;
    var acts := FirstArrives();
    acts := FirstIsInTime(acts);
    acts := FirstIsAccepted(acts);
    acts := SecondArrives(acts);
    acts := SecondCollects(acts);
    acts := CloseIsCalled(acts);
    acts := ThreadsReturn(acts);
    LastScene();
  }

  lemma LastScene()
    ensures LeavesTaskBehind(Scene([WGone, KStopped, SDone, HELD], [], [FIRST], true, true))
  {
    assert multiset([FIRST])[FIRST] == 1;
  }
}
