/** What a call of Submit gets: accepted, shed, made to wait or refused as expired (internal/queue/queue.go). */
module PoolAdmits {
  import opened Queue
  import opened PoolRuns
  import opened PoolAnswers
  import Seqs

  /** No counter moved and nobody was answered. */
  predicate Unanswered(s: State, s': State) {
    && s'.done == s.done && s'.turned == s.turned
    && s'.normal == s.normal && s'.shed == s.shed && s'.expired == s.expired
  }

  /** The one thing that came of a submit's turn. */
  datatype Fate = Accepted | Sheds | Sleeps | Collects | Expires

  /** own is queued last and accepted, for good. */
  predicate IsAccepted(s: State, s': State, i: nat, own: Task) {
    s'.q == s.q + [own] && s'.accepted == s.accepted + [own] && i < |s'.threads| && s'.threads[i] == SDone
  }

  /** Nothing is queued, and the thread goes on as t. */
  predicate GoesOnAs(s: State, s': State, i: nat, t: Thread, q: seq<Task>) {
    s'.q == q && s'.accepted == s.accepted && i < |s'.threads| && s'.threads[i] == t
  }

  /** Exactly the given fate came of it. */
  ghost predicate Met(c: Config, s: State, s': State, i: nat, own: Task, now: int, fate: Fate) {
    && Unanswered(s, s')
    && match fate
       case Accepted => IsAccepted(s, s', i, own)
       case Sheds => GoesOnAs(s, s', i, SShedding(own), s.q)
       case Sleeps => GoesOnAs(s, s', i, SAsleep(own), Live(c, s.q, now))
       case Collects => GoesOnAs(s, s', i, SWaitReplying(own, false, Dead(c, s.q, now)), Live(c, s.q, now))
       case Expires => GoesOnAs(s, s', i, SExpiring(own), s.q)
  }

  /** A submit past its own sweep, in any state: each fate exactly under its condition. */
  lemma AdmitsExactly(c: Config, s: State, i: nat, own: Task, now: int, pick: nat)
    requires i < |s.threads| && s.threads[i] == SReplying(own, [])
    ensures var s' := Step(c, s, Act(i, now, pick));
            var open, room, waits := !s.closed, |s.q| < c.depth, c.full == Wait && !c.Late(own, now);
            && (Met(c, s, s', i, own, now, Accepted) <==> open && room)
            && (Met(c, s, s', i, own, now, Sheds) <==> open && !room && c.full == Drop)
            && (Met(c, s, s', i, own, now, Sleeps) <==> open && !room && waits && Dead(c, s.q, now) == [])
            && (Met(c, s, s', i, own, now, Collects) <==> open && !room && waits && Dead(c, s.q, now) != [])
            && (Met(c, s, s', i, own, now, Expires) <==> !open || (!room && c.full == Wait && c.Late(own, now)))
  {
    hide Live, Dead;
  }

  /** A waiting submit that is up again: the timer counts only while there is no room. */
  lemma WaitsExactly(c: Config, s: State, i: nat, own: Task, timedOut: bool, now: int, pick: nat)
    requires i < |s.threads|
    requires s.threads[i] == SWoken(own, timedOut) || s.threads[i] == SWaitReplying(own, timedOut, [])
    ensures var s' := Step(c, s, Act(i, now, pick));
            var open, room := !s.closed, |s.q| < c.depth;
            && (Met(c, s, s', i, own, now, Accepted) <==> open && room)
            && (Met(c, s, s', i, own, now, Sleeps) <==> open && !room && !timedOut && Dead(c, s.q, now) == [])
            && (Met(c, s, s', i, own, now, Collects) <==> open && !room && !timedOut && Dead(c, s.q, now) != [])
            && (Met(c, s, s', i, own, now, Expires) <==> !open || (!room && timedOut))
  {
    hide Live, Dead;
  }

  /** A submit that has just come expires at once exactly when it is late, and otherwise sweeps. */
  lemma ArrivesExactly(c: Config, s: State, i: nat, own: Task, now: int, pick: nat)
    requires i < |s.threads| && s.threads[i] == SArrived(own)
    ensures var s' := Step(c, s, Act(i, now, pick));
            && Unanswered(s, s') && GoesOnAs(s, s', i, s'.threads[i], s.q)
            && (s'.threads[i] == SExpiring(own) <==> c.Late(own, now))
            && (s'.threads[i] == SSweeping(own) <==> !c.Late(own, now))
  {
  }

  /** Shed is answered and counted as shed, expired as expired; neither was ever queued. */
  lemma TurnedAwayExactly(c: Config, s: State, i: nat, now: int, pick: nat, own: Task)
    requires i < |s.threads| && (s.threads[i] == SExpiring(own) || s.threads[i] == SShedding(own))
    ensures var s' := Step(c, s, Act(i, now, pick));
            && s'.turned == s.turned + multiset{own} && s'.done == s.done && s'.threads == s.threads[i := SDone]
            && s'.normal == s.normal && s'.q == s.q && s'.accepted == s.accepted
            && s'.shed == s.shed + (if s.threads[i].SShedding? then 1 else 0)
            && s'.expired == s.expired + (if s.threads[i].SExpiring? then 1 else 0)
  {
  }

  // A whole call of Submit with nobody in between.

  function Acting(c: Config, s: State, i: nat, now: int, pick: nat, n: nat): State
    decreases n
  {
    if n == 0 then s else Acting(c, Step(c, s, Act(i, now, pick)), i, now, pick, n - 1)
  }

  /** Expired entries are all answered, as expired. */
  ghost predicate Replied(s: State, s': State, i: nat, dead: seq<Task>, t: Thread) {
    && s'.done == s.done + multiset(dead) && s'.expired == s.expired + |dead| && s'.normal == s.normal
    && s'.shed == s.shed && s'.turned == s.turned && s'.q == s.q && s'.accepted == s.accepted && s'.closed == s.closed
    && i < |s'.threads| && s'.threads[i] == t
  }

  lemma RepliesOne(c: Config, s: State, i: nat, own: Task, dead: seq<Task>, now: int, pick: nat)
    requires i < |s.threads| && s.threads[i] == SReplying(own, dead) && dead != []
    ensures Replied(s, Step(c, s, Act(i, now, pick)), i, [dead[0]], SReplying(own, dead[1..]))
  {
  }

  lemma RepliesJoin(s: State, s1: State, s': State, i: nat, dead: seq<Task>, t1: Thread, t: Thread)
    requires dead != [] && Replied(s, s1, i, [dead[0]], t1) && Replied(s1, s', i, dead[1..], t)
    ensures Replied(s, s', i, dead, t)
  {
    Seqs.HeadTail(dead);
    assert multiset(dead) == multiset([dead[0]] + dead[1..]) == multiset{dead[0]} + multiset(dead[1..]);
  }

  lemma {:induction false} RepliesAll(c: Config, s: State, i: nat, own: Task, dead: seq<Task>, now: int, pick: nat)
    requires i < |s.threads| && s.threads[i] == SReplying(own, dead)
    ensures Replied(s, Acting(c, s, i, now, pick, |dead|), i, dead, SReplying(own, []))
    decreases |dead|
  {
    if dead != [] {
      hide Step;
      RepliesOne(c, s, i, own, dead, now, pick);
      var s1 := Step(c, s, Act(i, now, pick));
      RepliesAll(c, s1, i, own, dead[1..], now, pick);
      RepliesJoin(s, s1, Acting(c, s, i, now, pick, |dead|), i, dead, SReplying(own, dead[1..]), SReplying(own, []));
    }
  }

  lemma {:induction false} ActingJoins(c: Config, s: State, i: nat, now: int, pick: nat, n: nat, m: nat)
    ensures Acting(c, s, i, now, pick, n + m) == Acting(c, Acting(c, s, i, now, pick, n), i, now, pick, m)
    decreases n
  {
    if n > 0 { ActingJoins(c, Step(c, s, Act(i, now, pick)), i, now, pick, n - 1, m); }
  }

  lemma SweepsFirst(c: Config, s: State, i: nat, own: Task, now: int, pick: nat)
    requires i < |s.threads| && s.threads[i] == SArrived(own) && !c.Late(own, now)
    ensures var s', dead := Acting(c, s, i, now, pick, 2), Dead(c, s.q, now);
            && Unanswered(s, s') && GoesOnAs(s, s', i, SReplying(own, dead), Live(c, s.q, now)) && s'.closed == s.closed
  {
    hide Live, Dead;
    var s1 := Step(c, s, Act(i, now, pick));
    assert Acting(c, s, i, now, pick, 2) == Acting(c, s1, i, now, pick, 1) == Step(c, s1, Act(i, now, pick)) by {
      hide Step;
      assert Acting(c, Step(c, s1, Act(i, now, pick)), i, now, pick, 0) == Step(c, s1, Act(i, now, pick));
    }
  }

  lemma OneLater(c: Config, q: seq<Task>, t: Task, now: int)
    ensures Live(c, q + [t], now) == Live(c, q, now) + if c.Late(t, now) then [] else [t]
    ensures Dead(c, q + [t], now) == Dead(c, q, now) + if c.Late(t, now) then [t] else []
  {
    assert (q + [t])[..|q|] == q;
  }

  lemma {:induction false} LiveLives(c: Config, q: seq<Task>, now: int)
    ensures Live(c, Live(c, q, now), now) == Live(c, q, now) && Dead(c, Live(c, q, now), now) == []
  {
    if q != [] {
      var t, live := q[|q| - 1], Live(c, q[..|q| - 1], now);
      LiveLives(c, q[..|q| - 1], now);
      OneLater(c, live, t, now);
      assert live + [] == live;
    }
  }

  /** What has come of a submit that arrived in time: the expired entries are answered, and own is where it is to be. */
  ghost predicate Settled(c: Config, s: State, s': State, i: nat, own: Task, now: int) {
    var dead, live := Dead(c, s.q, now), Live(c, s.q, now);
    && s'.done == s.done + multiset(dead) && s'.expired == s.expired + |dead| && s'.shed == s.shed
    && s'.turned == s.turned && s'.normal == s.normal
    && if s.closed then GoesOnAs(s, s', i, SExpiring(own), live)
       else if |live| < c.depth then
         s'.q == live + [own] && s'.accepted == s.accepted + [own] && i < |s'.threads| && s'.threads[i] == SDone
       else GoesOnAs(s, s', i, if c.full == Drop then SShedding(own) else SAsleep(own), live)
  }

  lemma AdmitSettles(c: Config, s: State, s1: State, s2: State, i: nat, own: Task, now: int, pick: nat)
    requires !c.Late(own, now) && Unanswered(s, s1) && s1.closed == s.closed
    requires GoesOnAs(s, s1, i, SReplying(own, Dead(c, s.q, now)), Live(c, s.q, now))
    requires Replied(s1, s2, i, Dead(c, s.q, now), SReplying(own, []))
    ensures Settled(c, s, Step(c, s2, Act(i, now, pick)), i, own, now)
  {
    hide Step, Live, Dead;
    LiveLives(c, s.q, now);
    AdmitsExactly(c, s2, i, own, now, pick);
  }

  /** A submit in time, with nobody in between: it answers the expired entries; then an open pool takes it exactly if
      the entries still alive leave room, and a full one sheds it or has it wait, as configured; a closed
      one refuses it. */
  lemma AloneExactly(c: Config, s: State, i: nat, own: Task, now: int, pick: nat)
    requires i < |s.threads| && s.threads[i] == SArrived(own) && !c.Late(own, now)
    ensures Settled(c, s, Acting(c, s, i, now, pick, 2 + |Dead(c, s.q, now)| + 1), i, own, now)
  {
    hide Step, Live, Dead, Settled, Replied, Unanswered;
    var dead := Dead(c, s.q, now);
    SweepsFirst(c, s, i, own, now, pick);
    var s1 := Acting(c, s, i, now, pick, 2);
    RepliesAll(c, s1, i, own, dead, now, pick);
    var s2 := Acting(c, s1, i, now, pick, |dead|);
    AdmitSettles(c, s, s1, s2, i, own, now, pick);
    ActingJoins(c, s, i, now, pick, 2, |dead| + 1);
    ActingJoins(c, s1, i, now, pick, |dead|, 1);
    var s3 := Step(c, s2, Act(i, now, pick));
    assert Acting(c, s2, i, now, pick, 1) == Acting(c, s3, i, now, pick, 0) == s3;
  }

  // Over runs: who is refused as expired.

  predicate TimedOut(t: Thread) { (t.SWoken? || t.SWaitReplying?) && t.timedOut }

  /** A step changes only its own thread, but for waking others. */
  ghost predicate OthersWake(s: State, s': State, i: nat) {
    |s'.threads| == |s.threads| && s'.closed == s.closed
    && forall k | 0 <= k < |s.threads| && k != i ::
         s'.threads[k] == s.threads[k] || s'.threads[k] == Wake(s.threads[k])
  }

  lemma SweepWakes(c: Config, s: State, i: nat, now: int)
    ensures OthersWake(s, Sweep(c, s, now).0, i)
  {
    hide Live, Dead;
  }

  /** The thread that moved is not about to expire, or for a reason; nor timed out, unless it was. */
  ghost predicate HasReason(c: Config, s: State, s': State, i: nat, now: int)
    requires i < |s.threads| && |s'.threads| == |s.threads|
  {
    var t, t' := s.threads[i], s'.threads[i];
    && (t'.SExpiring? ==> s.closed || c.Late(t'.own, now) || (TimedOut(t) && c.full == Wait))
    && (TimedOut(t') ==> TimedOut(t))
  }

  lemma WorkerWakes(c: Config, s: State, i: nat, now: int)
    requires i < |s.threads|
    ensures OthersWake(s, WorkerLocks(c, s, i, now), i) && HasReason(c, s, WorkerLocks(c, s, i, now), i, now)
  {
    hide Sweep;
    SweepWakes(c, s, i, now);
    var s' := Sweep(c, s, now).0;
    assert forall k | 0 <= k < |s.threads| :: Wake(s'.threads[k]) == Wake(s.threads[k]) || k == i;
  }

  lemma AdmitWakes(c: Config, s: State, i: nat, own: Task, timedOut: bool, now: int, pick: nat)
    requires i < |s.threads| && (timedOut ==> TimedOut(s.threads[i]) && c.full == Wait)
    ensures var s' := WaitLoop(c, s, i, own, timedOut, now, pick); OthersWake(s, s', i) && HasReason(c, s, s', i, now)
    ensures var s' := Admit(c, s, i, own, now, pick); OthersWake(s, s', i) && HasReason(c, s, s', i, now)
  {
    hide Sweep;
    SweepWakes(c, s, i, now);
  }

  /** A thread that only answers, or goes on. */
  lemma SetWakes(c: Config, s: State, s': State, i: nat, t: Thread, now: int)
    requires i < |s.threads| && s'.threads == s.threads[i := t] && s'.closed == s.closed
    requires t.SExpiring? ==> s.closed || c.Late(t.own, now) || (TimedOut(s.threads[i]) && c.full == Wait)
    requires TimedOut(t) ==> TimedOut(s.threads[i])
    ensures OthersWake(s, s', i) && HasReason(c, s, s', i, now)
  {
  }

  lemma SweepingWakes(c: Config, s: State, i: nat, own: Task, now: int, pick: nat)
    requires i < |s.threads| && s.threads[i] == SSweeping(own)
    ensures var s' := SubmitterActs(c, s, i, now, pick); OthersWake(s, s', i) && HasReason(c, s, s', i, now)
  {
    hide Sweep, Admit, WaitLoop;
    SweepWakes(c, s, i, now);
  }

  lemma LoopWakes(c: Config, s: State, i: nat, own: Task, timedOut: bool, now: int, pick: nat)
    requires i < |s.threads| && InMode(c, s.threads[i])
    requires || s.threads[i] == SReplying(own, []) || s.threads[i] == SWoken(own, timedOut)
             || s.threads[i] == SWaitReplying(own, timedOut, [])
    ensures var s' := SubmitterActs(c, s, i, now, pick); OthersWake(s, s', i) && HasReason(c, s, s', i, now)
  {
    hide Admit, WaitLoop, OthersWake, HasReason;
    AdmitWakes(c, s, i, own, !s.threads[i].SReplying? && timedOut, now, pick);
  }

  lemma SubmitterWakes(c: Config, s: State, i: nat, now: int, pick: nat)
    requires i < |s.threads| && InMode(c, s.threads[i]) && IsSubmit(s.threads[i])
    ensures var s' := SubmitterActs(c, s, i, now, pick); OthersWake(s, s', i) && HasReason(c, s, s', i, now)
  {
    hide Admit, WaitLoop, Sweep, OthersWake, HasReason;
    var s', t := SubmitterActs(c, s, i, now, pick), s.threads[i];
    if t.SSweeping? { SweepingWakes(c, s, i, t.own, now, pick); }
    else if t.SWoken? || (t.SReplying? && t.dead == []) || (t.SWaitReplying? && t.dead == []) {
      LoopWakes(c, s, i, t.own, !t.SReplying? && t.timedOut, now, pick);
    } else {
      SetWakes(c, s, s', i, s'.threads[i], now);
    }
  }

  predicate IsSubmit(t: Thread) {
    t.SArrived? || t.SSweeping? || t.SReplying? || t.SWoken? || t.SWaitReplying? || t.SExpiring? || t.SShedding?
  }

  lemma SweeperWakes(c: Config, s: State, i: nat, now: int)
    requires i < |s.threads| && (s.threads[i].KIdle? || s.threads[i].KReplying?)
    ensures OthersWake(s, SweeperActs(c, s, i, now), i) && HasReason(c, s, SweeperActs(c, s, i, now), i, now)
  {
    hide Sweep;
    SweepWakes(c, s, i, now);
  }

  lemma WorkerAnswersWakes(c: Config, s: State, i: nat, now: int)
    requires i < |s.threads| && s.threads[i].WHolding?
    ensures OthersWake(s, WorkerAnswers(c, s, i, now), i) && HasReason(c, s, WorkerAnswers(c, s, i, now), i, now)
  {
  }

  /** Whoever is about to be refused as expired is late, met a closed pool, or waited until its timer fired. */
  ghost predicate Excused(c: Config, s: State, now: int, fired: set<nat>) {
    forall i | 0 <= i < |s.threads| ::
      var t := s.threads[i];
      && (t.SExpiring? ==> c.Late(t.own, now) || s.closed || (c.full == Wait && i in fired))
      && (TimedOut(t) ==> i in fired)
  }

  /** The threads whose timers fired. */
  function Fired(acts: seq<Action>): set<nat> {
    set k | 0 <= k < |acts| && acts[k].Timer? :: acts[k].i
  }

  lemma ActExcused(c: Config, s: State, i: nat, now: int, later: int, pick: nat, fired: set<nat>)
    requires Excused(c, s, now, fired) && now <= later && ModeKept(c, s)
    ensures Excused(c, Step(c, s, Act(i, later, pick)), later, fired)
  {
    hide WorkerLocks, WorkerAnswers, SweeperActs, SubmitterActs, ModeKept;
    if i < |s.threads| {
      assert InMode(c, s.threads[i]) by { ModeOf(c, s, i); }
      WorkerWakes(c, s, i, later);
      if IsSubmit(s.threads[i]) { SubmitterWakes(c, s, i, later, pick); }
      if s.threads[i].WHolding? { WorkerAnswersWakes(c, s, i, later); }
      if s.threads[i].KIdle? || s.threads[i].KReplying? { SweeperWakes(c, s, i, later); }
      if Still(s.threads[i]) { ElsewiseStill(c, s, i, later, pick); }
    }
  }

  predicate Still(t: Thread) { Asleep(t) || t.SDone? || t.WGone? || t.KStopped? }

  /** Threads that sleep or are through do nothing. */
  lemma ElsewiseStill(c: Config, s: State, i: nat, now: int, pick: nat)
    requires i < |s.threads| && Still(s.threads[i])
    ensures Step(c, s, Act(i, now, pick)) == s
  {
  }

  lemma ModeOf(c: Config, s: State, i: nat)
    requires ModeKept(c, s) && i < |s.threads|
    ensures InMode(c, s.threads[i])
  {
  }

  lemma StepExcused(c: Config, s: State, a: Action, now: int, fired: set<nat>)
    requires Excused(c, s, now, fired) && ModeKept(c, s) && (a.Act? ==> now <= a.now)
    ensures Excused(c, Step(c, s, a), Moment(a, now), fired + if a.Timer? then {a.i} else {})
  {
    if a.Act? { ActExcused(c, s, a.i, now, a.now, a.pick, fired); }
    hide WorkerLocks, WorkerAnswers, SweeperActs, SubmitterActs, ModeKept;
  }

  lemma {:induction false} RunExcused(c: Config, workers: nat, acts: seq<Action>)
    requires Clocked(acts)
    ensures Excused(c, Run(c, workers, acts), Reached(acts), Fired(acts))
  {
    if acts != [] {
      hide Excused, Step, Honest, ModeKept;
      var rest, a := acts[..|acts| - 1], acts[|acts| - 1];
      RunExcused(c, workers, rest);
      RunGood(c, workers, rest);
      StepExcused(c, Run(c, workers, rest), a, Reached(rest), Fired(rest));
      assert Fired(acts) == Fired(rest) + if a.Timer? then {a.i} else {};
    } else {
      hide Step;
    }
  }

  /** Over every run: who is refused as expired without having been queued is out of time, or met a closed pool, or
      its timer fired while it waited, which happens in wait mode only. A full queue alone is never a reason. */
  lemma NeverExpiredForRoom(c: Config, workers: nat, acts: seq<Action>, i: nat, now: int, pick: nat, x: Task)
    requires Clocked(acts) && Reached(acts) <= now
    requires var s := Run(c, workers, acts);
             var s' := Step(c, s, Act(i, now, pick));
             s'.turned[x] > s.turned[x] && s'.expired > s.expired
    ensures c.Late(x, now) || Run(c, workers, acts).closed || (c.full == Wait && Timer(i) in acts)
  {
    RunExcused(c, workers, acts);
    var s := Run(c, workers, acts);
    hide Run, Reached, Clocked;
    if i < |s.threads| { WhoTurns(c, s, i, now, pick, x); }
  }

  lemma WhoTurns(c: Config, s: State, i: nat, now: int, pick: nat, x: Task)
    requires i < |s.threads|
    requires var s' := Step(c, s, Act(i, now, pick)); s'.turned[x] > s.turned[x] && s'.expired > s.expired
    ensures s.threads[i] == SExpiring(x)
  {
    hide Live, Dead, WakeAll, Signal;
  }
}
