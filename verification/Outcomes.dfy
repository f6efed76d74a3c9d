/** What the outcome of a password check does to counters and locks (rejected, accepted and what they call,
    cmd/http/login.go). */
module Outcomes {
  import opened Roster
  import opened SignIn
  import opened Submit

  /** One of the submit's counts of x was the last one allowed, or beyond. */
  ghost predicate Spent(c: Config, scopes: seq<Scope>, counts: seq<nat>, x: Scope)
    requires |counts| == |scopes|
  {
    exists i :: 0 <= i < |scopes| && scopes[i] == x && counts[i] >= c.attempts
  }

  /** The book says the same of x. */
  ghost predicate SameOn(b: Book<Scope>, b': Book<Scope>, x: Scope) {
    && (x in b'.fails <==> x in b.fails) && (x in b.fails ==> b'.fails[x] == b.fails[x])
    && (x in b'.locks <==> x in b.locks) && (x in b.locks ==> b'.locks[x] == b.locks[x])
  }

  /** x is locked, by the call made for one of its scopes, and its counter is dropped. */
  ghost predicate LockedBy(c: Config, b: Book<Scope>, scopes: seq<Scope>, counts: seq<nat>, times: nat -> int, x: Scope)
    requires |counts| == |scopes|
  {
    && x !in b.fails && x in b.locks
    && exists i :: 0 <= i < |scopes| && scopes[i] == x && counts[i] >= c.attempts && b.locks[x] == times(i) + c.lock
  }

  lemma {:induction false} LockedMeans(c: Config, b: Book<Scope>, scopes: seq<Scope>, counts: seq<nat>,
                                       times: nat -> int, x: Scope)
    requires |counts| == |scopes|
    ensures var b' := Submit.Locked(c, b, scopes, counts, times);
            && b'.burned == b.burned
            && if Spent(c, scopes, counts, x) then LockedBy(c, b', scopes, counts, times, x) else SameOn(b, b', x)
  {
    if scopes != [] {
      var k := |scopes| - 1;
      LockedMeans(c, b, scopes[..k], counts[..k], times, x);
      assert forall i | 0 <= i < k :: scopes[..k][i] == scopes[i] && counts[..k][i] == counts[i];
      if scopes[k] == x && counts[k] >= c.attempts { assert Spent(c, scopes, counts, x); }
    }
  }

  lemma {:induction false} ResetMeans(b: Book<Scope>, scopes: seq<Scope>, x: Scope)
    ensures var b' := Reset(b, scopes);
            && b'.burned == b.burned
            && if x in scopes then x !in b'.fails && x !in b'.locks else SameOn(b, b', x)
  {
    if scopes != [] {
      var k := |scopes| - 1;
      ResetMeans(b, scopes[..k], x);
      assert scopes == scopes[..k] + [scopes[k]];
    }
  }

  lemma CheckStep(c: Config, s: State, j: nat, t: int, outcome: Outcome, n: nat, now: int, b: Book<Scope>,
                  scopes: seq<Scope>, counts: seq<nat>, over: bool)
    requires Stands(s, j, n, now, b, scopes, Checking, counts, over) && now <= t
    ensures exists stage :: Stands(StepAt(c, s, (t, Act(j, true, outcome))), j, n, t, b, scopes, stage, counts, over)
                            && stage == match outcome
                                        case Accept => Clearing(0)
                                        case Reject => Rejecting(0)
                                        case Unavailable => Done
  {
    var stage := if outcome == Accept then Clearing(0) else if outcome == Reject then Rejecting(0) else Done;
    assert Stands(StepAt(c, s, (t, Act(j, true, outcome))), j, n, t, b, scopes, stage, counts, over);
  }

  /** The submit's own steps from the check to its end, with nobody in between. */
  function Concluded(c: Config, s: State, j: nat, outcome: Outcome, t: int, times: nat -> int, k: nat): State {
    AloneAfter(c, StepAt(c, s, (t, Act(j, true, outcome))), j, times, k)
  }

  /** A rejected password locks exactly the scopes whose counts are spent and drops their counters; whatever else
      the roster knows stays as it was. */
  lemma RejectedLocksTheSpent(c: Config, s: State, j: nat, t: int, times: nat -> int, n: nat, now: int,
                              scopes: seq<Scope>, counts: seq<nat>, over: bool, x: Scope)
    requires c.attempts > 0 && Stands(s, j, n, now, s.book, scopes, Checking, counts, over)
    requires now <= t <= times(0) && forall i: nat :: times(i) <= times(i + 1)
    ensures |counts| == |scopes|
    ensures var b := Concluded(c, s, j, Reject, t, times, |scopes|).book;
            && b.burned == s.book.burned
            && if Spent(c, scopes, counts, x) then LockedBy(c, b, scopes, counts, times, x) else SameOn(s.book, b, x)
  {
    var s1 := StepAt(c, s, (t, Act(j, true, Reject)));
    CheckStep(c, s, j, t, Reject, n, now, s.book, scopes, counts, over);
    hide StepAt, Submit.Locked;
    RejectIsTheRun(c, s1, j, times, |scopes|, n, t, scopes, counts, over);
    LockedMeans(c, s.book, scopes, counts, times, x);
    assert scopes[..|scopes|] == scopes && counts[..|scopes|] == counts;
  }

  /** An accepted one clears counter and lock of all its scopes, and locks none. */
  lemma AcceptedClearsAll(c: Config, s: State, j: nat, t: int, times: nat -> int, n: nat, now: int,
                          scopes: seq<Scope>, counts: seq<nat>, over: bool, x: Scope)
    requires Stands(s, j, n, now, s.book, scopes, Checking, counts, over)
    requires now <= t <= times(0) && forall i: nat :: times(i) <= times(i + 1)
    ensures var b := Concluded(c, s, j, Accept, t, times, |scopes|).book;
            && b.burned == s.book.burned
            && if x in scopes then x !in b.fails && x !in b.locks else SameOn(s.book, b, x)
  {
    var s1 := StepAt(c, s, (t, Act(j, true, Accept)));
    CheckStep(c, s, j, t, Accept, n, now, s.book, scopes, counts, over);
    CountFits(s, j, n, now, s.book, scopes, Checking, counts, over);
    hide StepAt, Reset;
    AcceptIsTheRun(c, s1, j, times, |scopes|, n, t, scopes, counts, over);
    ResetMeans(s.book, scopes, x);
    assert scopes[..|scopes|] == scopes;
  }

  lemma DoneStep(c: Config, s: State, j: nat, t: int, n: nat, now: int, b: Book<Scope>, scopes: seq<Scope>,
                 counts: seq<nat>, over: bool)
    requires Stands(s, j, n, now, b, scopes, Done, counts, over) && now <= t
    ensures Stands(StepAt(c, s, (t, Act(j, true, Reject))), j, n, t, b, scopes, Done, counts, over)
  {
  }

  /** One that could not be checked leaves the book as it is: the attempt stays counted. */
  lemma {:induction false} UnavailableLeavesAll(c: Config, s: State, j: nat, t: int, times: nat -> int, n: nat,
                                                now: int, scopes: seq<Scope>, counts: seq<nat>, over: bool, k: nat)
    requires Stands(s, j, n, now, s.book, scopes, Checking, counts, over)
    requires now <= t <= times(0) && forall i: nat :: times(i) <= times(i + 1)
    ensures Stands(Concluded(c, s, j, Unavailable, t, times, k), j, n, if k == 0 then t else times(k - 1), s.book,
                   scopes, Done, counts, over)
  {
    if k == 0 {
      CheckStep(c, s, j, t, Unavailable, n, now, s.book, scopes, counts, over);
    } else {
      hide StepAt, Stands;
      UnavailableLeavesAll(c, s, j, t, times, n, now, scopes, counts, over, k - 1);
      DoneStep(c, Concluded(c, s, j, Unavailable, t, times, k - 1), j, times(k - 1), n,
               if k == 1 then t else times(k - 2), s.book, scopes, counts, over);
    }
  }

  // Calls that fail, and slots that are not there.

  /** The stage after a call for scope i, whether it answered or not. */
  function Onward(stage: Stage): Stage
    requires stage.Counting? || stage.Locking? || stage.Reading? || stage.Rejecting? || stage.Clearing?
  {
    if stage.Rejecting? then Rejecting(stage.i + 1)
    else if stage.Clearing? then Clearing(stage.i + 1)
    else Counting(stage.i + 1)
  }

  /** A roster call that fails is passed over: the submit goes on to its next scope, neither more nor less over than
      before, and the roster knows what it knew. */
  lemma FailedCallsArePassedOver(c: Config, s: State, j: nat, t: int, n: nat, now: int, scopes: seq<Scope>,
                                 stage: Stage, counts: seq<nat>, over: bool, outcome: Outcome)
    requires Stands(s, j, n, now, s.book, scopes, stage, counts, over) && now <= t
    requires stage.Counting? || stage.Locking? || stage.Reading? || stage.Rejecting? || stage.Clearing?
    requires stage.i < |scopes|
    ensures Stands(StepAt(c, s, (t, Act(j, false, outcome))), j, n, t, s.book, scopes, Onward(stage), counts, over)
  {
    hide Fail, Lock, LockedFor, Clear, Lived;
  }

  /** Once all scopes are counted: who is over is refused, who finds no slot ends unchecked, everybody else is checked,
      then and there. */
  lemma CheckedExactly(c: Config, s: State, j: nat, t: int, slot: bool, outcome: Outcome)
    requires j < |s.submits| && s.clock <= t && |s.submits[j].counts| == |s.submits[j].scopes|
    requires s.submits[j].stage.Counting? && s.submits[j].stage.i >= |s.submits[j].scopes| && !s.submits[j].checked
    ensures var u, s' := s.submits[j], StepAt(c, s, (t, Act(j, slot, outcome)));
            && |s'.submits| == |s.submits| && s'.book == s.book
            && var u' := s'.submits[j];
            && (u'.checked <==> !u.over && slot) && (u'.checked ==> u'.stage == Checking && u'.checkedAt == t)
            && (u.over ==> u'.stage == Refused) && (!u.over && !slot ==> u'.stage == Done)
  {
  }

  // Over runs: who is forgiven, and who is let off.

  /** The roster fails a call a submit makes for x. */
  ghost predicate RosterFails(c: Config, s: State, event: (int, Action), x: Scope) {
    && event.1.Act? && !event.1.ok && event.1.j < |s.submits|
    && var u := s.submits[event.1.j];
    && (u.stage.Counting? || u.stage.Locking? || u.stage.Reading? || (u.stage.Rejecting? && c.attempts > 0))
    && u.stage.i < |u.scopes| && u.scopes[u.stage.i] == x
  }

  /** The password of a submit with x among its scopes is found right. */
  ghost predicate Accepts(s: State, event: (int, Action), j: nat, scopes: seq<Scope>) {
    event.1.Act? && event.1.j == j < |s.submits| && event.1.outcome == Accept
    && s.submits[j].stage == Checking && s.submits[j].scopes == scopes
  }

  ghost predicate AcceptedBefore(c: Config, events: seq<(int, Action)>, j: nat, scopes: seq<Scope>) {
    exists k :: 0 <= k < |events| && Accepts(Run(c, events[..k]), events[k], j, scopes)
  }

  ghost predicate FailedBefore(c: Config, events: seq<(int, Action)>, x: Scope) {
    exists k :: 0 <= k < |events| && RosterFails(c, Run(c, events[..k]), events[k], x)
  }

  lemma StillBefore(c: Config, events: seq<(int, Action)>, j: nat, scopes: seq<Scope>, x: Scope)
    requires events != []
    ensures AcceptedBefore(c, events[..|events| - 1], j, scopes) ==> AcceptedBefore(c, events, j, scopes)
    ensures FailedBefore(c, events[..|events| - 1], x) ==> FailedBefore(c, events, x)
  {
    hide Run, RosterFails, Accepts;
    var rest := events[..|events| - 1];
    assert forall k | 0 <= k < |rest| :: rest[..k] == events[..k] && rest[k] == events[k];
  }

  lemma NowBefore(c: Config, events: seq<(int, Action)>, j: nat, scopes: seq<Scope>, x: Scope)
    requires events != []
    ensures var s, event := Run(c, events[..|events| - 1]), events[|events| - 1];
            && (Accepts(s, event, j, scopes) ==> AcceptedBefore(c, events, j, scopes))
            && (RosterFails(c, s, event, x) ==> FailedBefore(c, events, x))
  {
    hide Run, RosterFails, Accepts;
  }

  /** Submit k alone moves on, to its clearing only from there or accepted. */
  ghost predicate MovesOn(s: State, s': State, k: nat, accepted: bool)
    requires k < |s.submits|
  {
    && |s'.submits| == |s.submits|
    && (forall i | 0 <= i < |s.submits| && i != k :: s'.submits[i] == s.submits[i])
    && s'.submits[k].scopes == s.submits[k].scopes
    && (s'.submits[k].stage.Clearing? ==> s.submits[k].stage.Clearing? || (s.submits[k].stage == Checking && accepted))
  }

  lemma LoopsMoveOn(c: Config, s: State, k: nat, i: nat, ok: bool, accepted: bool)
    requires k < |s.submits| && i < |s.submits[k].scopes| == |s.submits[k].counts|
    ensures MovesOn(s, Count(c, s, k, i), k, accepted) && MovesOn(s, ReadLock(s, k, i, ok), k, accepted)
    ensures MovesOn(s, LockOver(c, s, k, i, ok), k, accepted)
  {
    hide Fail, Lock, LockedFor, Lived;
  }

  lemma EndsMoveOn(c: Config, s: State, k: nat, i: nat, ok: bool, accepted: bool)
    requires k < |s.submits| && i < |s.submits[k].scopes| == |s.submits[k].counts|
    ensures MovesOn(s, LockSpent(c, s, k, i, ok), k, accepted)
    ensures s.submits[k].stage.Clearing? ==> MovesOn(s, ClearScope(s, k, i, ok), k, accepted)
  {
    hide Lock, Clear;
  }

  lemma RestMovesOn(s: State, k: nat, slot: bool, outcome: Outcome)
    requires k < |s.submits|
    ensures MovesOn(s, EndCount(s, k, slot), k, outcome == Accept) && MovesOn(s, Finish(s, k), k, outcome == Accept)
    ensures s.submits[k].stage == Checking ==> MovesOn(s, EndCheck(s, k, outcome), k, outcome == Accept)
    ensures MovesOn(s, s, k, outcome == Accept)
  {
  }

  lemma SkipMovesOn(s: State, k: nat, i: nat, accepted: bool)
    requires k < |s.submits| && i < |s.submits[k].scopes|
    ensures MovesOn(s, Forgive(Put(s, k, s.submits[k].(stage := Counting(i + 1))), s.submits[k].scopes[i]), k, accepted)
  {
  }

  lemma ActMovesOn(c: Config, s: State, k: nat, ok: bool, outcome: Outcome)
    requires k < |s.submits| && |s.submits[k].counts| == |s.submits[k].scopes|
    ensures MovesOn(s, ActOf(c, s, k, ok, outcome), k, outcome == Accept)
  {
    hide MovesOn, Count, LockOver, ReadLock, LockSpent, ClearScope, EndCount, EndCheck, Finish, Forgive;
    RestMovesOn(s, k, ok, outcome);
    var u := s.submits[k];
    if (u.stage.Counting? || u.stage.Locking? || u.stage.Reading? || u.stage.Rejecting? || u.stage.Clearing?)
       && u.stage.i < |u.scopes| {
      LoopsMoveOn(c, s, k, u.stage.i, ok, outcome == Accept);
      EndsMoveOn(c, s, k, u.stage.i, ok, outcome == Accept);
      SkipMovesOn(s, k, u.stage.i, outcome == Accept);
    }
  }

  /** A submit that comes to clear was clearing, or is accepted. */
  lemma ComesToClear(c: Config, s: State, event: (int, Action), j: nat)
    requires j < |StepAt(c, s, event).submits| && StepAt(c, s, event).submits[j].stage.Clearing?
    ensures var scopes := StepAt(c, s, event).submits[j].scopes;
            || (j < |s.submits| && s.submits[j].stage.Clearing? && s.submits[j].scopes == scopes)
            || Accepts(s, event, j, scopes)
  {
    hide ActOf, LockedFor;
    var (now, a) := event;
    var t := Tick(s, if now < s.clock then s.clock else now);
    if a.Act? && a.j < |t.submits| && |t.submits[a.j].counts| == |t.submits[a.j].scopes| {
      ActMovesOn(c, t, a.j, a.ok, a.outcome);
    }
  }

  /** Who is forgiven by a step was failed by the roster, or is cleared. */
  lemma ComesToBeForgiven(c: Config, s: State, event: (int, Action), x: Scope)
    requires x in StepAt(c, s, event).forgiven && x !in s.forgiven
    ensures || RosterFails(c, s, event, x)
            || exists j :: 0 <= j < |s.submits| && s.submits[j].stage.Clearing? && x in s.submits[j].scopes
  {
    hide Fail, Lock, LockedFor, Clear, Lived;
  }

  /** Who is clearing was accepted. */
  lemma {:induction false} ClearingWasAccepted(c: Config, events: seq<(int, Action)>, j: nat)
    requires j < |Run(c, events).submits| && Run(c, events).submits[j].stage.Clearing?
    ensures AcceptedBefore(c, events, j, Run(c, events).submits[j].scopes)
  {
    if events != [] {
      hide StepAt, Accepts, AcceptedBefore;
      var rest := events[..|events| - 1];
      var scopes := Run(c, events).submits[j].scopes;
      ComesToClear(c, Run(c, rest), events[|events| - 1], j);
      StillBefore(c, events, j, scopes, Ip("", ""));
      NowBefore(c, events, j, scopes, Ip("", ""));
      if !Accepts(Run(c, rest), events[|events| - 1], j, scopes) { ClearingWasAccepted(c, rest, j); }
    }
  }

  /** Over every run, counter and lock of a scope are set aside only for a right password given with it, or
      because the roster failed a call for it: no wrong password ever does that. */
  lemma {:induction false} ForgivenForAReason(c: Config, events: seq<(int, Action)>, x: Scope)
    requires x in Run(c, events).forgiven
    ensures FailedBefore(c, events, x) || exists j, scopes :: x in scopes && AcceptedBefore(c, events, j, scopes)
  {
    if events != [] {
      hide StepAt, RosterFails, AcceptedBefore, FailedBefore;
      var rest, event := events[..|events| - 1], events[|events| - 1];
      var s := Run(c, rest);
      if x in s.forgiven {
        ForgivenForAReason(c, rest, x);
        StillBefore(c, events, 0, [], x);
        if j, scopes :| x in scopes && AcceptedBefore(c, rest, j, scopes) { StillBefore(c, events, j, scopes, x); }
      } else {
        ComesToBeForgiven(c, s, event, x);
        NowBefore(c, events, 0, [], x);
        if j :| 0 <= j < |s.submits| && s.submits[j].stage.Clearing? && x in s.submits[j].scopes {
          ClearingWasAccepted(c, rest, j);
          StillBefore(c, events, j, s.submits[j].scopes, x);
        }
      }
    }
  }

  /** A lock of x has run out, or was over when it was set; or its counter went quiet for a whole window. */
  ghost predicate TimeLetsOff(c: Config, s: State, event: (int, Action), x: Scope) {
    var now := if event.0 < s.clock then s.clock else event.0;
    || (x in s.standing && s.standing[x] <= now)
    || (event.1.Act? && event.1.j < |s.submits|
        && var u := s.submits[event.1.j];
        && (u.stage.Counting? || u.stage.Locking? || u.stage.Rejecting?)
        && u.stage.i < |u.scopes| && u.scopes[u.stage.i] == x
        && if u.stage.Counting? then x in s.book.fails && now > s.book.fails[x].until else c.lock <= 0)
  }

  ghost predicate LetOffBefore(c: Config, events: seq<(int, Action)>, x: Scope) {
    exists k :: 0 <= k < |events| && TimeLetsOff(c, Run(c, events[..k]), events[k], x)
  }

  lemma ComesToBeLetOff(c: Config, s: State, event: (int, Action), x: Scope)
    requires x in StepAt(c, s, event).amnesty && x !in s.amnesty
    ensures TimeLetsOff(c, s, event, x) || x in StepAt(c, s, event).forgiven
  {
    hide Fail, Lock, LockedFor, Clear, Lived;
  }

  lemma StaysForgiven(c: Config, s: State, event: (int, Action), x: Scope)
    requires x in s.forgiven
    ensures x in StepAt(c, s, event).forgiven
  {
    hide Fail, Lock, LockedFor, Clear, Lived;
  }

  /** Over every run an amnesty has its reason: time passed over a lock or a whole window, or the scope was forgiven. */
  lemma {:induction false} AmnestyForAReason(c: Config, events: seq<(int, Action)>, x: Scope)
    requires x in Run(c, events).amnesty
    ensures LetOffBefore(c, events, x) || x in Run(c, events).forgiven
  {
    if events != [] {
      hide StepAt, TimeLetsOff;
      var rest, event := events[..|events| - 1], events[|events| - 1];
      var s := Run(c, rest);
      assert forall k | 0 <= k < |rest| :: rest[..k] == events[..k] && rest[k] == events[k];
      if x in s.amnesty {
        AmnestyForAReason(c, rest, x);
        if x in s.forgiven { StaysForgiven(c, s, event, x); }
      } else {
        ComesToBeLetOff(c, s, event, x);
      }
    }
  }
}
