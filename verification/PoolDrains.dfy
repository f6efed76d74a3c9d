/** Why the pool comes to rest, and what Close leaves behind (internal/queue/queue.go). */
module PoolDrains {
  import opened Queue
  import opened PoolRuns
  import opened PoolSafety

  // A measure of what is left to do.

  /** Moves left for the entries a thread has: its own counts three until it is queued or turned away. */
  function TaskWork(t: Thread): nat {
    match t
    case WHolding(dead, popped, _) => |dead| + if popped.Popped? then 1 else 0
    case SReplying(_, dead) => 3 + |dead|
    case SWaitReplying(_, _, dead) => 3 + |dead|
    case KReplying(dead) => |dead|
    case SArrived(_) => 3
    case SSweeping(_) => 3
    case SAsleep(_) => 3
    case SWoken(_, _) => 3
    case SExpiring(_) => 3
    case SShedding(_) => 3
    case _ => 0
  }

  /** Turns left for a thread until it sleeps, ends or waits for a tick. */
  function TurnWork(t: Thread): (n: nat)
    ensures n <= 5
  {
    match t
    case SArrived(_) => 5
    case SSweeping(_) => 4
    case SReplying(_, _) => 3
    case SWoken(_, _) => 2
    case SWaitReplying(_, _, _) => 2
    case SExpiring(_) => 1
    case SShedding(_) => 1
    case WHolding(_, _, more) => if more then 3 else 1
    case WReady => 2
    case WWoken => 2
    case KReplying(_) => 1
    case _ => 0
  }

  /** It will do something as soon as it is scheduled. */
  predicate Busy(t: Thread) { TurnWork(t) > 0 }

  function Tasks(ts: seq<Thread>): nat {
    if ts == [] then 0 else Tasks(ts[..|ts| - 1]) + TaskWork(ts[|ts| - 1])
  }

  function Turns(ts: seq<Thread>): (n: nat)
    ensures n <= 5 * |ts|
  {
    if ts == [] then 0 else Turns(ts[..|ts| - 1]) + TurnWork(ts[|ts| - 1])
  }

  function Entries(s: State): nat { 2 * |s.q| + Tasks(s.threads) }

  /** How many more times a busy thread can be scheduled. */
  function Measure(s: State): nat { Entries(s) * (5 * |s.threads| + 1) + Turns(s.threads) }

  lemma {:induction false} SetWork(ts: seq<Thread>, i: nat, t: Thread)
    requires i < |ts|
    ensures Tasks(ts[i := t]) == Tasks(ts) - TaskWork(ts[i]) + TaskWork(t)
    ensures Turns(ts[i := t]) == Turns(ts) - TurnWork(ts[i]) + TurnWork(t)
  {
    hide TaskWork, TurnWork;
    var n := |ts| - 1;
    if i < n {
      SetWork(ts[..n], i, t);
      assert ts[i := t][..n] == ts[..n][i := t];
    } else {
      assert ts[i := t][..n] == ts[..n];
    }
  }

  lemma {:induction false} SameTasks(ts: seq<Thread>, us: seq<Thread>)
    requires |ts| == |us|
    requires forall i | 0 <= i < |ts| :: us[i] == ts[i] || us[i] == Wake(ts[i])
    ensures Tasks(ts) == Tasks(us)
  {
    if ts != [] { SameTasks(ts[..|ts| - 1], us[..|us| - 1]); }
  }

  /** Fewer moves, or as many and fewer turns. */
  ghost predicate Less(s': State, s: State) {
    && |s'.threads| == |s.threads|
    && (Entries(s') < Entries(s) || (Entries(s') == Entries(s) && Turns(s'.threads) < Turns(s.threads)))
  }

  lemma Lexicographic(e: nat, t: nat, e': nat, t': nat, n: nat)
    requires t' < n && (e' < e || (e' == e && t' < t))
    ensures e' * n + t' < e * n + t
  {
    if e' < e { Scaled(e' + 1, e, n); }
  }

  lemma Scaled(a: nat, b: nat, n: nat)
    requires a <= b
    ensures a * n <= b * n
  {
  }

  lemma LessMeasures(s': State, s: State)
    requires Less(s', s)
    ensures Measure(s') < Measure(s)
  {
    Lexicographic(Entries(s), Turns(s.threads), Entries(s'), Turns(s'.threads), 5 * |s.threads| + 1);
    hide Entries;
  }

  /** Sweeping moves what it takes off the queue nearer to its answer. */
  lemma SweepWork(c: Config, s: State, now: int)
    ensures var (s', dead) := Sweep(c, s, now);
            && |s'.threads| == |s.threads| && |s'.q| + |dead| == |s.q| && Tasks(s'.threads) == Tasks(s.threads)
            && (dead == [] ==> s' == s)
            && forall i | 0 <= i < |s.threads| :: s'.threads[i] == s.threads[i] || s'.threads[i] == Wake(s.threads[i])
  {
    NothingLate(c, s.q, now);
    Partition(c, s.q, now);
    assert |multiset(s.q)| == |multiset(Live(c, s.q, now)) + multiset(Dead(c, s.q, now))|;
    hide Live, Dead, Tasks;
    SameTasks(s.threads, WakeAll(s.threads));
  }

  /** Thread i becomes t in what sweeping or waking made of s. */
  lemma BecomesLess(s: State, s': State, i: nat, t: Thread)
    requires i < |s.threads| == |s'.threads| && s'.threads[i] == s.threads[i]
    requires Tasks(s'.threads) == Tasks(s.threads)
    requires var moves := 2 * |s'.q| + TaskWork(t) - 2 * |s.q| - TaskWork(s.threads[i]);
             moves < 0 || (moves == 0 && s' == s && TurnWork(t) < TurnWork(s.threads[i]))
    ensures Less(Set(s', i, t), s)
  {
    hide TaskWork, TurnWork, Tasks, Turns;
    SetWork(s'.threads, i, t);
  }

  /** Counters and records play no part. */
  lemma SameLess(s: State, a: State, b: State)
    requires Less(a, s) && a.q == b.q && a.threads == b.threads
    ensures Less(b, s)
  {
  }

  lemma WorkerLocksLess(c: Config, s: State, i: nat, now: int)
    requires i < |s.threads| && (s.threads[i].WReady? || s.threads[i].WWoken?)
    ensures Less(WorkerLocks(c, s, i, now), s)
  {
    SweepWork(c, s, now);
    hide Sweep, Tasks, Turns, Less;
    var (s', dead) := Sweep(c, s, now);
    if s'.q != [] {
      SameTasks(s'.threads, WakeAll(s'.threads));
      var w := s'.(q := s'.q[1..], threads := WakeAll(s'.threads));
      var t := WHolding(dead, Popped(s'.q[0]), true);
      BecomesLess(s, w, i, t);
      SameLess(s, Set(w, i, t), PopHead(s', i, dead));
    } else if s.closed {
      BecomesLess(s, s', i, WHolding(dead, Nobody, false));
    } else if dead != [] {
      BecomesLess(s, s', i, WHolding(dead, Nobody, true));
    } else {
      BecomesLess(s, s', i, WAsleep);
    }
  }

  lemma WorkerAnswersLess(c: Config, s: State, i: nat, now: int)
    requires i < |s.threads| && s.threads[i].WHolding?
    ensures Less(WorkerAnswers(c, s, i, now), s)
  {
    hide Tasks, Turns, Less;
    var w := s.threads[i];
    var t := if w.dead != [] then WHolding(w.dead[1..], w.popped, w.more)
             else if w.popped.Popped? then WHolding([], Nobody, w.more)
             else if w.more then WReady else WGone;
    BecomesLess(s, s, i, t);
    SameLess(s, Set(s, i, t), WorkerAnswers(c, s, i, now));
  }

  lemma EnqueueLess(c: Config, s: State, i: nat, own: Task, pick: nat)
    requires i < |s.threads| && TaskWork(s.threads[i]) == 3
    ensures Less(Enqueue(s, i, own, pick), s)
  {
    var ts := s.threads[i := SDone];
    SetWork(s.threads, i, SDone);
    SameTasks(ts, Signal(ts, pick));
    hide Tasks, Turns, Signal;
  }

  lemma WaitLoopLess(c: Config, s: State, i: nat, own: Task, timedOut: bool, now: int, pick: nat)
    requires i < |s.threads| && TaskWork(s.threads[i]) == 3 && TurnWork(s.threads[i]) >= 2
    requires s.threads[i].SWoken? || s.threads[i].SWaitReplying? || s.threads[i].SReplying?
    ensures Less(WaitLoop(c, s, i, own, timedOut, now, pick), s)
  {
    SweepWork(c, s, now);
    EnqueueLess(c, s, i, own, pick);
    hide Sweep, Enqueue, Tasks, Turns, Less;
    if |s.q| >= c.depth && !timedOut && !s.closed {
      var (s', dead) := Sweep(c, s, now);
      if dead != [] { MayBeWoken(s, s', i); BecomesLess(s, s', i, SWaitReplying(own, false, dead)); }
      else { BecomesLess(s, s', i, SAsleep(own)); }
    } else {
      BecomesLess(s, s, i, SExpiring(own));
    }
  }

  /** A sweep wakes sleepers only. */
  lemma MayBeWoken(s: State, s': State, i: nat)
    requires i < |s.threads| == |s'.threads| && !Asleep(s.threads[i])
    requires s'.threads[i] == s.threads[i] || s'.threads[i] == Wake(s.threads[i])
    ensures s'.threads[i] == s.threads[i]
  {
  }

  /** Thread i turns into t with its answers counted. */
  lemma CountedLess(s: State, s': State, i: nat, t: Thread)
    requires i < |s.threads| && s'.q == s.q && s'.threads == s.threads[i := t]
    requires var was := s.threads[i];
             TaskWork(t) < TaskWork(was) || (TaskWork(t) == TaskWork(was) && TurnWork(t) < TurnWork(was))
    ensures Less(s', s)
  {
    SetWork(s.threads, i, t);
    hide TaskWork, TurnWork, Tasks, Turns;
  }

  lemma AdmitLess(c: Config, s: State, i: nat, own: Task, now: int, pick: nat)
    requires i < |s.threads| && s.threads[i] == SReplying(own, [])
    ensures Less(Admit(c, s, i, own, now, pick), s)
  {
    EnqueueLess(c, s, i, own, pick);
    WaitLoopLess(c, s, i, own, false, now, pick);
    CountedLess(s, Set(s, i, SExpiring(own)), i, SExpiring(own));
    CountedLess(s, Set(s, i, SShedding(own)), i, SShedding(own));
    hide Less, Enqueue, WaitLoop;
  }

  lemma FirstTurnsLess(c: Config, s: State, i: nat, now: int, pick: nat)
    requires i < |s.threads|
    requires s.threads[i].SArrived? || s.threads[i].SSweeping? || s.threads[i].SExpiring? || s.threads[i].SShedding?
    ensures Less(SubmitterActs(c, s, i, now, pick), s)
  {
    hide Sweep, Tasks, Turns, Less;
    var s' := SubmitterActs(c, s, i, now, pick);
    match s.threads[i]
    case SArrived(own) => CountedLess(s, s', i, if c.Late(own, now) then SExpiring(own) else SSweeping(own));
    case SSweeping(own) =>
      SweepWork(c, s, now);
      BecomesLess(s, Sweep(c, s, now).0, i, SReplying(own, Sweep(c, s, now).1));
    case SExpiring(own) => CountedLess(s, s', i, SDone);
    case SShedding(own) => CountedLess(s, s', i, SDone);
  }

  lemma RepliesLess(c: Config, s: State, i: nat, now: int, pick: nat)
    requires i < |s.threads| && (s.threads[i].SReplying? || s.threads[i].SWaitReplying?) && s.threads[i].dead != []
    ensures Less(SubmitterActs(c, s, i, now, pick), s)
  {
    hide Tasks, Turns, Less;
    var s' := SubmitterActs(c, s, i, now, pick);
    match s.threads[i]
    case SReplying(own, dead) => CountedLess(s, s', i, SReplying(own, dead[1..]));
    case SWaitReplying(own, timedOut, dead) => CountedLess(s, s', i, SWaitReplying(own, timedOut, dead[1..]));
  }

  lemma SubmitterLess(c: Config, s: State, i: nat, now: int, pick: nat)
    requires i < |s.threads| && Busy(s.threads[i])
    requires !s.threads[i].WReady? && !s.threads[i].WWoken? && !s.threads[i].WHolding? && !s.threads[i].KReplying?
    ensures Less(SubmitterActs(c, s, i, now, pick), s)
  {
    hide Sweep, WaitLoop, Admit, AnswerQueued, Less;
    var t := s.threads[i];
    if t.SReplying? || t.SWaitReplying? {
      if t.dead != [] { RepliesLess(c, s, i, now, pick); }
      else if t.SReplying? { AdmitLess(c, s, i, t.own, now, pick); }
      else { WaitLoopLess(c, s, i, t.own, t.timedOut, now, pick); }
    } else if t.SWoken? {
      WaitLoopLess(c, s, i, t.own, t.timedOut, now, pick);
    } else {
      FirstTurnsLess(c, s, i, now, pick);
    }
  }

  lemma SweeperLess(c: Config, s: State, i: nat, now: int)
    requires i < |s.threads| && s.threads[i].KReplying?
    ensures Less(SweeperActs(c, s, i, now), s)
  {
    hide Tasks, Turns, Less;
    var dead := s.threads[i].dead;
    var t := if dead != [] then KReplying(dead[1..]) else KIdle;
    BecomesLess(s, s, i, t);
    SameLess(s, Set(s, i, t), SweeperActs(c, s, i, now));
  }

  /** Whichever busy thread is scheduled, at whatever time, whoever a signal picks: there is less to do. */
  lemma BusyStep(c: Config, s: State, i: nat, now: int, pick: nat)
    requires i < |s.threads| && Busy(s.threads[i])
    ensures var s' := Step(c, s, Act(i, now, pick));
            Measure(s') < Measure(s) && |s'.threads| == |s.threads|
  {
    hide Less, WorkerLocks, WorkerAnswers, SubmitterActs, SweeperActs, Measure;
    var t := s.threads[i];
    if t.WReady? || t.WWoken? {
      WorkerLocksLess(c, s, i, now);
    } else if t.WHolding? {
      WorkerAnswersLess(c, s, i, now);
    } else if t.KReplying? {
      SweeperLess(c, s, i, now);
    } else {
      SubmitterLess(c, s, i, now, pick);
    }
    var s' := Step(c, s, Act(i, now, pick));
    LessMeasures(s', s);
    SameLength(s', s);
  }

  lemma SameLength(s': State, s: State)
    requires Less(s', s)
    ensures |s'.threads| == |s.threads|
  {
  }

  // Coming to rest.

  /** more schedules busy threads only: nothing arrives, no timer fires, nobody closes. */
  ghost predicate BusyRun(c: Config, workers: nat, acts: seq<Action>, more: seq<Action>) {
    more == [] ||
    (var last := more[|more| - 1];
     var s := Run(c, workers, acts + more[..|more| - 1]);
     BusyRun(c, workers, acts, more[..|more| - 1]) && Allowed(c, s, last)
     && last.Act? && last.i < |s.threads| && Busy(s.threads[last.i]))
  }

  lemma OneMoreAct(c: Config, workers: nat, acts: seq<Action>, more: seq<Action>)
    requires more != []
    ensures var last, rest := more[|more| - 1], more[..|more| - 1];
            && Run(c, workers, acts + more) == Step(c, Run(c, workers, acts + rest), last)
            && (AllowedRun(c, workers, acts + more) <==>
                  AllowedRun(c, workers, acts + rest) && Allowed(c, Run(c, workers, acts + rest), last))
  {
    hide Step, Allowed;
    var all := acts + more;
    assert all[..|all| - 1] == acts + more[..|more| - 1];
  }

  /** However the busy threads are scheduled, and whatever the clock says: after as many turns as the
      measure counts there is none left. */
  lemma {:induction false} BusyRunsEnd(c: Config, workers: nat, acts: seq<Action>, more: seq<Action>)
    requires AllowedRun(c, workers, acts) && BusyRun(c, workers, acts, more)
    ensures AllowedRun(c, workers, acts + more)
    ensures |more| + Measure(Run(c, workers, acts + more)) <= Measure(Run(c, workers, acts))
  {
    if more == [] {
      assert acts + more == acts;
    } else {
      hide Run, AllowedRun, Step, Measure, Allowed;
      var rest, last := more[..|more| - 1], more[|more| - 1];
      BusyRunsEnd(c, workers, acts, rest);
      OneMoreAct(c, workers, acts, more);
      BusyStep(c, Run(c, workers, acts + rest), last.i, last.now, last.pick);
    }
  }

  /** And then all is quiet: whoever sleeps sleeps for want of work. */
  lemma NobodyBusyIsQuiet(c: Config, workers: nat, acts: seq<Action>)
    requires c.depth > 0 && workers > 0 && AllowedRun(c, workers, acts) && !AnyBusy(Run(c, workers, acts))
    ensures Quiet(Run(c, workers, acts))
  {
    SomeWorkerIsUp(c, workers, acts);
    hide Run, AllowedRun;
  }

  function Sleeper(ts: seq<Thread>): (pick: nat)
    ensures Signalled(ts, pick)
  {
    if exists i :: 0 <= i < |ts| && Asleep(ts[i]) then
      FirstAsleep(ts)
    else 0
  }

  function FirstAsleep(ts: seq<Thread>): (i: nat)
    requires exists i :: 0 <= i < |ts| && Asleep(ts[i])
    ensures i < |ts| && Asleep(ts[i])
  {
    if Asleep(ts[|ts| - 1]) then |ts| - 1
    else
      var i :| 0 <= i < |ts| && Asleep(ts[i]);
      assert ts[..|ts| - 1][i] == ts[i];
      FirstAsleep(ts[..|ts| - 1])
  }

  ghost predicate AnyBusy(s: State) {
    exists i :: 0 <= i < |s.threads| && Busy(s.threads[i])
  }

  /** One busy thread more. */
  lemma DrainOnce(c: Config, workers: nat, acts: seq<Action>, more: seq<Action>, now: int) returns (a: Action)
    requires AllowedRun(c, workers, acts + more) && BusyRun(c, workers, acts, more)
    requires AnyBusy(Run(c, workers, acts + more))
    ensures a.Act? && a.now == now && BusyRun(c, workers, acts, more + [a])
    ensures AllowedRun(c, workers, acts + (more + [a]))
    ensures Measure(Run(c, workers, acts + (more + [a]))) < Measure(Run(c, workers, acts + more))
  {
    hide Run, AllowedRun, Step, Measure;
    var s := Run(c, workers, acts + more);
    var i :| 0 <= i < |s.threads| && Busy(s.threads[i]);
    a := Act(i, now, Sleeper(s.threads[i := SDone]));
    assert (more + [a])[..|more|] == more;
    OneMoreAct(c, workers, acts, more + [a]);
    BusyStep(c, s, a.i, a.now, a.pick);
  }

  ghost predicate Paced(more: seq<Action>, clock: nat -> int) {
    forall k | 0 <= k < |more| :: more[k].Act? && more[k].now == clock(k)
  }

  lemma {:induction false} DrainOn(c: Config, workers: nat, acts: seq<Action>, more: seq<Action>, clock: nat -> int)
    returns (all: seq<Action>)
    requires AllowedRun(c, workers, acts + more) && BusyRun(c, workers, acts, more) && Paced(more, clock)
    ensures AllowedRun(c, workers, acts + all) && BusyRun(c, workers, acts, all) && Paced(all, clock)
    ensures !AnyBusy(Run(c, workers, acts + all))
    decreases Measure(Run(c, workers, acts + more))
  {
    hide Run, AllowedRun, Measure, BusyRun, AnyBusy;
    if AnyBusy(Run(c, workers, acts + more)) {
      var a := DrainOnce(c, workers, acts, more, clock(|more|));
      all := DrainOn(c, workers, acts, more + [a], clock);
    } else {
      all := more;
    }
  }

  /** From every reachable state the threads alone, at any pace of the clock, bring everything to an
      answer: no deadlock, nothing left waiting for the next arrival. */
  lemma AlwaysDrains(c: Config, workers: nat, acts: seq<Action>, clock: nat -> int) returns (more: seq<Action>)
    requires c.depth > 0 && workers > 0 && AllowedRun(c, workers, acts)
    ensures BusyRun(c, workers, acts, more) && AllowedRun(c, workers, acts + more)
    ensures Paced(more, clock) && Quiet(Run(c, workers, acts + more))
  {
    assert BusyRun(c, workers, acts, []) && acts + [] == acts;
    hide Run, AllowedRun, Quiet, BusyRun, AnyBusy;
    more := DrainOn(c, workers, acts, [], clock);
    NobodyBusyIsQuiet(c, workers, acts + more);
  }
}
