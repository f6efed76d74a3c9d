/** The loops of one sign-in over its scopes (reserve, lockSpent and the reset after a sign-in, cmd/http/login.go),
    against the roster in memory. Every roster call reads the clock for itself: times gives what it read. */
module Submit {
  import opened Roster
  import opened SignIn

  type Times = nat -> (int, int)

  /** One turn of reserve: count, then lock or read the lock. */
  function Turn(c: Config, b: Book<Scope>, scope: Scope, t: (int, int)): (Book<Scope>, nat, bool) {
    var (counted, n) := Fail(b, scope, t.0, c.window);
    if n > c.attempts then (Lock(counted, scope, t.1, c.lock), n, true)
    else
      var (seen, left) := LockedFor(counted, scope, t.1);
      (seen, n, left > 0)
  }

  function Reserved(c: Config, b: Book<Scope>, scopes: seq<Scope>, times: Times): (r: (Book<Scope>, seq<nat>, bool))
    ensures |r.1| == |scopes|
  {
    if scopes == [] then (b, [], false)
    else
      var k := |scopes| - 1;
      var before := Reserved(c, b, scopes[..k], times);
      var turn := Turn(c, before.0, scopes[k], times(k));
      (turn.0, before.1 + [turn.1], before.2 || turn.2)
  }

  method Reserve(c: Config, m: Memory<Scope>, scopes: seq<Scope>, times: Times) returns (counts: seq<nat>, over: bool)
    modifies m
    ensures (m.Value(), counts, over) ==
            if c.attempts == 0 then (old(m.Value()), seq(|scopes|, _ => 0), false)
            else Reserved(c, old(m.Value()), scopes, times)
  {
    counts, over := seq(|scopes|, _ => 0), false;
    if c.attempts == 0 { return; }
    for i := 0 to |scopes|
      invariant |counts| == |scopes|
      invariant (m.Value(), counts[..i], over) == Reserved(c, old(m.Value()), scopes[..i], times)
    {
      assert scopes[..i + 1][..i] == scopes[..i];
      var n := m.CountFailure(scopes[i], times(i).0, c.window);
      counts := counts[i := n];
      assert counts[..i + 1] == counts[..i] + [n];
      if n > c.attempts {
        over := true;
        m.SetLock(scopes[i], times(i).1, c.lock);
      } else {
        var left := m.LockLeft(scopes[i], times(i).1);
        if left > 0 { over := true; }
      }
    }
    assert scopes[..|scopes|] == scopes && counts[..|scopes|] == counts;
  }

  /** The locks a rejected submit leaves behind. */
  function Locked(c: Config, b: Book<Scope>, scopes: seq<Scope>, counts: seq<nat>, times: nat -> int): Book<Scope>
    requires |counts| == |scopes|
  {
    if scopes == [] then b
    else
      var k := |scopes| - 1;
      var before := Locked(c, b, scopes[..k], counts[..k], times);
      if counts[k] >= c.attempts then Lock(before, scopes[k], times(k), c.lock) else before
  }

  method LockWhatIsSpent(c: Config, m: Memory<Scope>, scopes: seq<Scope>, counts: seq<nat>, times: nat -> int)
    requires |counts| == |scopes|
    modifies m
    ensures m.Value() == if c.attempts == 0 then old(m.Value()) else Locked(c, old(m.Value()), scopes, counts, times)
  {
    if c.attempts == 0 { return; }
    for i := 0 to |scopes|
      invariant m.Value() == Locked(c, old(m.Value()), scopes[..i], counts[..i], times)
    {
      assert scopes[..i + 1][..i] == scopes[..i] && counts[..i + 1][..i] == counts[..i];
      if counts[i] >= c.attempts { m.SetLock(scopes[i], times(i), c.lock); }
    }
    assert scopes[..|scopes|] == scopes && counts[..|scopes|] == counts;
  }

  /** The reset after a sign-in: counters and locks of all its scopes are gone. */
  function Reset(b: Book<Scope>, scopes: seq<Scope>): Book<Scope> {
    if scopes == [] then b else Clear(Reset(b, scopes[..|scopes| - 1]), scopes[|scopes| - 1])
  }

  method ResetAll(m: Memory<Scope>, scopes: seq<Scope>)
    modifies m
    ensures m.Value() == Reset(old(m.Value()), scopes)
    ensures forall x | x in scopes :: x !in m.fails && x !in m.locks
    ensures forall x | x !in scopes ::
              (x in m.fails <==> x in old(m.fails)) && (x in m.locks <==> x in old(m.locks))
  {
    for i := 0 to |scopes|
      invariant m.Value() == Reset(old(m.Value()), scopes[..i])
      invariant forall x | x in scopes[..i] :: x !in m.fails && x !in m.locks
      invariant forall x | x !in scopes ::
                  (x in m.fails <==> x in old(m.fails)) && (x in m.locks <==> x in old(m.locks))
    {
      assert scopes[..i + 1][..i] == scopes[..i];
      assert scopes[..i + 1] == scopes[..i] + [scopes[i]];
      m.Forget(scopes[i]);
    }
    assert scopes[..|scopes|] == scopes;
  }

  /** lockedFor: the longest lock standing on any of the scopes. */
  method LongestLock(m: Memory<Scope>, scopes: seq<Scope>, times: nat -> int) returns (worst: int)
    requires forall i, k :: 0 <= i < k < |scopes| ==> times(i) <= times(k)
    modifies m
    ensures worst >= 0
    ensures worst > 0 <==>
              exists i :: 0 <= i < |scopes| && scopes[i] in old(m.locks) && old(m.locks)[scopes[i]] > times(i)
    ensures forall i | 0 <= i < |scopes| && scopes[i] in old(m.locks) :: old(m.locks)[scopes[i]] - times(i) <= worst
    ensures worst > 0 ==> exists i :: 0 <= i < |scopes| && scopes[i] in old(m.locks)
                                      && old(m.locks)[scopes[i]] - times(i) == worst
    ensures m.fails == old(m.fails) && m.burned == old(m.burned)
  {
    worst := 0;
    for i := 0 to |scopes|
      invariant worst >= 0 && m.fails == old(m.fails) && m.burned == old(m.burned)
      invariant forall k | 0 <= k < i && scopes[k] in old(m.locks) :: old(m.locks)[scopes[k]] - times(k) <= worst
      invariant worst > 0 ==> exists k :: 0 <= k < i && scopes[k] in old(m.locks)
                                          && old(m.locks)[scopes[k]] - times(k) == worst
      invariant forall x | x in m.locks :: x in old(m.locks) && m.locks[x] == old(m.locks)[x]
      invariant forall x | x in old(m.locks) && x !in m.locks ::
                  exists k :: 0 <= k < i && scopes[k] == x && old(m.locks)[x] <= times(k)
    {
      var left := m.LockLeft(scopes[i], times(i));
      if left > worst { worst := left; }
    }
  }

  // Alone, the steps of the run are these loops.

  /** Two roster calls a scope, with nobody in between. */
  function Alone(c: Config, s: State, j: nat, times: Times, k: nat): State {
    if k == 0 then s
    else
      var act := Act(j, true, Reject);
      StepAt(c, StepAt(c, Alone(c, s, j, times, k - 1), (times(k - 1).0, act)), (times(k - 1).1, act))
  }

  /** Submit j as reserve sees it. */
  ghost predicate Stands(s: State, j: nat, n: nat, now: int, book: Book<Scope>, scopes: seq<Scope>, stage: Stage,
                         counts: seq<nat>, over: bool) {
    && j < |s.submits| == n && s.clock == now && s.book == book && |counts| == |scopes|
    && s.submits[j].scopes == scopes && s.submits[j].stage == stage && s.submits[j].counts == counts
    && s.submits[j].over == over
  }

  lemma CountStep(c: Config, s: State, j: nat, i: nat, t: int, n: nat, now: int, b: Book<Scope>, scopes: seq<Scope>,
                  counts: seq<nat>, over: bool)
    requires Stands(s, j, n, now, b, scopes, Counting(i), counts, over) && i < |scopes| && now <= t
    ensures var (book, count) := Fail(b, scopes[i], t, c.window);
            Stands(StepAt(c, s, (t, Act(j, true, Reject))), j, n, t, book, scopes,
                   if count > c.attempts then Locking(i) else Reading(i), counts[i := count],
                   over || count > c.attempts)
  {
    hide Fail, LockOver, ReadLock, LockSpent, ClearScope, EndCount, EndCheck, Finish;
  }

  lemma LockStep(c: Config, s: State, j: nat, i: nat, t: int, n: nat, now: int, b: Book<Scope>, scopes: seq<Scope>,
                 counts: seq<nat>, over: bool)
    requires Stands(s, j, n, now, b, scopes, Locking(i), counts, over) && i < |scopes| && now <= t
    ensures Stands(StepAt(c, s, (t, Act(j, true, Reject))), j, n, t, Lock(b, scopes[i], t, c.lock), scopes,
                   Counting(i + 1), counts, over)
  {
    hide Lock, Count, ReadLock, LockSpent, ClearScope, EndCount, EndCheck, Finish;
  }

  lemma ReadStep(c: Config, s: State, j: nat, i: nat, t: int, n: nat, now: int, b: Book<Scope>, scopes: seq<Scope>,
                 counts: seq<nat>, over: bool)
    requires Stands(s, j, n, now, b, scopes, Reading(i), counts, over) && i < |scopes| && now <= t
    ensures var (book, left) := LockedFor(b, scopes[i], t);
            Stands(StepAt(c, s, (t, Act(j, true, Reject))), j, n, t, book, scopes, Counting(i + 1), counts,
                   over || left > 0)
  {
    hide LockedFor, Count, LockOver, LockSpent, ClearScope, EndCount, EndCheck, Finish;
  }

  /** One turn is two steps of the submit. */
  lemma TurnIsTwoSteps(c: Config, s: State, j: nat, i: nat, t: (int, int), n: nat, now: int, b: Book<Scope>,
                       scopes: seq<Scope>, counts: seq<nat>, over: bool)
    requires Stands(s, j, n, now, b, scopes, Counting(i), counts, over) && i < |scopes| && now <= t.0 <= t.1
    ensures var act, turn := Act(j, true, Reject), Turn(c, b, scopes[i], t);
            Stands(StepAt(c, StepAt(c, s, (t.0, act)), (t.1, act)), j, n, t.1, turn.0, scopes, Counting(i + 1),
                   counts[i := turn.1], over || turn.2)
  {
    hide StepAt, Stands, Fail, Lock, LockedFor;
    CountStep(c, s, j, i, t.0, n, now, b, scopes, counts, over);
    CountFits(s, j, n, now, b, scopes, Counting(i), counts, over);
    var s' := StepAt(c, s, (t.0, Act(j, true, Reject)));
    var (book, count) := Fail(b, scopes[i], t.0, c.window);
    if count > c.attempts {
      LockStep(c, s', j, i, t.1, n, t.0, book, scopes, counts[i := count], true);
    } else {
      ReadStep(c, s', j, i, t.1, n, t.0, book, scopes, counts[i := count], over);
    }
  }

  lemma CountFits(s: State, j: nat, n: nat, now: int, b: Book<Scope>, scopes: seq<Scope>, stage: Stage,
                  counts: seq<nat>, over: bool)
    requires Stands(s, j, n, now, b, scopes, stage, counts, over)
    ensures |counts| == |scopes|
  {
  }

  lemma Fill(a: seq<nat>, all: seq<nat>, n: nat)
    requires |a| < |all|
    ensures (a + all[|a|..])[|a| := n] == (a + [n]) + all[|a| + 1..]
  {
  }

  /** A submit nobody interleaves with counts, locks and decides as reserve does. */
  lemma {:induction false} ReserveIsTheRun(c: Config, s: State, j: nat, times: Times, k: nat, n: nat, now: int,
                                           scopes: seq<Scope>, counts: seq<nat>)
    requires c.attempts > 0 && Stands(s, j, n, now, s.book, scopes, Counting(0), counts, false)
    requires k <= |scopes| == |counts| && now <= times(0).0
    requires forall i: nat :: times(i).0 <= times(i).1 <= times(i + 1).0
    ensures var (book, counted, over) := Reserved(c, s.book, scopes[..k], times);
            Stands(Alone(c, s, j, times, k), j, n, if k == 0 then now else times(k - 1).1, book, scopes, Counting(k),
                   counted + counts[k..], over)
  {
    hide StepAt, Turn, Stands;
    if k == 0 {
      assert [] + counts[0..] == counts;
    } else {
      var (book, counted, over) := Reserved(c, s.book, scopes[..k - 1], times);
      ReserveIsTheRun(c, s, j, times, k - 1, n, now, scopes, counts);
      TurnIsTwoSteps(c, Alone(c, s, j, times, k - 1), j, k - 1, times(k - 1), n,
                     if k == 1 then now else times(k - 2).1, book, scopes, counted + counts[k - 1..], over);
      assert scopes[..k][..k - 1] == scopes[..k - 1];
      Fill(counted, counts, Turn(c, book, scopes[k - 1], times(k - 1)).1);
    }
  }

  /** The steps that follow the check, one roster call a scope, with nobody in between. */
  function AloneAfter(c: Config, s: State, j: nat, times: nat -> int, k: nat): State {
    if k == 0 then s else StepAt(c, AloneAfter(c, s, j, times, k - 1), (times(k - 1), Act(j, true, Reject)))
  }

  lemma SpentStep(c: Config, s: State, j: nat, i: nat, t: int, n: nat, now: int, b: Book<Scope>, scopes: seq<Scope>,
                  counts: seq<nat>, over: bool)
    requires Stands(s, j, n, now, b, scopes, Rejecting(i), counts, over) && i < |scopes| && now <= t
    ensures Stands(StepAt(c, s, (t, Act(j, true, Reject))), j, n, t,
                   if c.attempts > 0 && counts[i] >= c.attempts then Lock(b, scopes[i], t, c.lock) else b, scopes,
                   Rejecting(i + 1), counts, over)
  {
    hide Lock, Count, LockOver, ReadLock, ClearScope, EndCount, EndCheck, Finish;
  }

  lemma ClearStep(c: Config, s: State, j: nat, i: nat, t: int, n: nat, now: int, b: Book<Scope>, scopes: seq<Scope>,
                  counts: seq<nat>, over: bool)
    requires Stands(s, j, n, now, b, scopes, Clearing(i), counts, over) && i < |scopes| && now <= t
    ensures Stands(StepAt(c, s, (t, Act(j, true, Reject))), j, n, t, Clear(b, scopes[i]), scopes,
                   Clearing(i + 1), counts, over)
  {
    hide Clear, Count, LockOver, ReadLock, LockSpent, EndCount, EndCheck, Finish;
  }

  /** A rejected submit nobody interleaves with locks what its loop locks. */
  lemma {:induction false} RejectIsTheRun(c: Config, s: State, j: nat, times: nat -> int, k: nat, n: nat, now: int,
                                          scopes: seq<Scope>, counts: seq<nat>, over: bool)
    requires c.attempts > 0 && Stands(s, j, n, now, s.book, scopes, Rejecting(0), counts, over)
    requires k <= |scopes| == |counts| && now <= times(0) && forall i: nat :: times(i) <= times(i + 1)
    ensures Stands(AloneAfter(c, s, j, times, k), j, n, if k == 0 then now else times(k - 1),
                   Locked(c, s.book, scopes[..k], counts[..k], times), scopes, Rejecting(k), counts, over)
  {
    hide StepAt, Stands;
    if k > 0 {
      RejectIsTheRun(c, s, j, times, k - 1, n, now, scopes, counts, over);
      SpentStep(c, AloneAfter(c, s, j, times, k - 1), j, k - 1, times(k - 1), n, if k == 1 then now else times(k - 2),
                Locked(c, s.book, scopes[..k - 1], counts[..k - 1], times), scopes, counts, over);
      assert scopes[..k][..k - 1] == scopes[..k - 1] && counts[..k][..k - 1] == counts[..k - 1];
    }
  }

  /** An accepted submit nobody interleaves with resets what its loop resets. */
  lemma {:induction false} AcceptIsTheRun(c: Config, s: State, j: nat, times: nat -> int, k: nat, n: nat, now: int,
                                          scopes: seq<Scope>, counts: seq<nat>, over: bool)
    requires Stands(s, j, n, now, s.book, scopes, Clearing(0), counts, over)
    requires k <= |scopes| == |counts| && now <= times(0) && forall i: nat :: times(i) <= times(i + 1)
    ensures Stands(AloneAfter(c, s, j, times, k), j, n, if k == 0 then now else times(k - 1),
                   Reset(s.book, scopes[..k]), scopes, Clearing(k), counts, over)
  {
    hide StepAt, Stands;
    if k > 0 {
      AcceptIsTheRun(c, s, j, times, k - 1, n, now, scopes, counts, over);
      ClearStep(c, AloneAfter(c, s, j, times, k - 1), j, k - 1, times(k - 1), n, if k == 1 then now else times(k - 2),
                Reset(s.book, scopes[..k - 1]), scopes, counts, over);
      assert scopes[..k][..k - 1] == scopes[..k - 1];
    }
  }
}
