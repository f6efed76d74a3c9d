/** How often a scope's password can be guessed over time (cmd/http/login.go). */
module GuessRate {
  import opened Roster
  import opened SignIn
  import opened Spacing

  /** No counted attempt is late, and a counter outlives its last attempt by a window. */
  ghost predicate Dated(c: Config, s: State, x: Scope) {
    forall j | 0 <= j < |s.submits| ::
      var u := s.submits[j];
      && (x in u.seen ==> u.seen[x] <= s.clock)
      && (x in u.tickets ==>
            && u.tickets[x].at <= s.clock && 0 < u.tickets[x].life <= Life(s, x)
            && (x in s.book.fails ==> u.tickets[x].at + c.window <= s.book.fails[x].until))
  }

  /** A counter that was dropped was dropped for a lock that outlasts every attempt so far. */
  ghost predicate Dropped(c: Config, s: State, x: Scope) {
    x !in s.book.fails && Life(s, x) > 0 ==>
      && x in s.standing
      && forall j | 0 <= j < |s.submits| && x in s.submits[j].tickets ::
           s.submits[j].tickets[x].at + c.lock <= s.standing[x]
  }

  /** Whoever is not over read the lock a lock before that moment, or not before it. */
  ghost predicate Misses(c: Config, u: Submit, x: Scope, moment: int) {
    x in u.seen && !u.over ==> u.seen[x] + c.lock <= moment || u.seen[x] >= moment
  }

  /** A life opens more than a window after an attempt of an earlier one, or a lock after it, in which
      nobody got past. */
  ghost predicate OpensAfter(c: Config, u: Submit, x: Scope, opening: int)
    requires x in u.tickets
  {
    u.tickets[x].at + c.window < opening || (u.tickets[x].at + c.lock <= opening && Misses(c, u, x, opening))
  }

  ghost predicate Spaced(c: Config, s: State, x: Scope) {
    forall j, l | 0 <= j < |s.submits| && x in s.submits[j].tickets && s.submits[j].tickets[x].life <= l < Life(s, x) ::
      OpensAfter(c, s.submits[j], x, Lives(s, x)[l])
  }

  /** A life that has not opened yet is under a standing lock, and locks only ever reach further. */
  ghost predicate Shut(c: Config, s: State, x: Scope) {
    && (x in s.standing ==>
          && s.standing[x] <= s.clock + c.lock
          && forall j | 0 <= j < |s.submits| :: Misses(c, s.submits[j], x, s.standing[x]))
    && forall opening | opening in Lives(s, x) && opening > s.clock :: x in s.standing && opening <= s.standing[x]
  }

  /** Whoever got past the lock did so once its life was open, and was checked after that. */
  ghost predicate Passed(s: State, x: Scope) {
    forall j | 0 <= j < |s.submits| && x in s.submits[j].tickets && x in s.submits[j].seen && !s.submits[j].over ::
      var u := s.submits[j];
      && 0 < u.tickets[x].life <= Life(s, x) && u.seen[x] >= Lives(s, x)[u.tickets[x].life - 1]
      && (u.checked ==> u.seen[x] <= u.checkedAt)
  }

  /** Whoever is through with a scope was counted there, and read its lock or is over. */
  ghost predicate Through(s: State, x: Scope) {
    forall j | 0 <= j < |s.submits| ::
      var u := s.submits[j];
      && (forall i | 0 <= i < |u.scopes| && i < Progress(u) && u.scopes[i] == x :: x in u.tickets)
      && (x in u.tickets && x !in u.seen && !u.over ==>
            u.stage.Reading? && u.stage.i < |u.scopes| && u.scopes[u.stage.i] == x)
  }

  ghost predicate Paced(c: Config, s: State, x: Scope) {
    x !in s.forgiven ==>
      Dated(c, s, x) && Dropped(c, s, x) && Spaced(c, s, x) && Shut(c, s, x) && Passed(s, x) && Through(s, x)
  }

  /** What concerns x is as before, except that submits go on. */
  ghost predicate Quiet(s: State, s': State, x: Scope) {
    && s'.clock == s.clock && Lives(s', x) == Lives(s, x) && (x in s.forgiven ==> x in s'.forgiven)
    && (x in s'.standing <==> x in s.standing) && (x in s.standing ==> s'.standing[x] == s.standing[x])
    && (x in s'.book.fails <==> x in s.book.fails) && (x in s.book.fails ==> s'.book.fails[x] == s.book.fails[x])
    && |s'.submits| == |s.submits|
    && forall j | 0 <= j < |s.submits| :: Goes(s.submits[j], s'.submits[j], x, s.clock)
  }

  ghost predicate Goes(u: Submit, u': Submit, x: Scope, now: int) {
    && (u'.checked ==> if u.checked then u'.checkedAt == u.checkedAt else u'.checkedAt == now)
    && u'.scopes == u.scopes && (u.over ==> u'.over)
    && (x in u'.tickets <==> x in u.tickets) && (x in u.tickets ==> u'.tickets[x] == u.tickets[x])
    && (x in u'.seen <==> x in u.seen) && (x in u.seen ==> u'.seen[x] == u.seen[x])
    && (forall i | 0 <= i < |u.scopes| && i < Progress(u') && u.scopes[i] == x :: i < Progress(u))
    && (u.stage.Reading? && u.stage.i < |u.scopes| && u.scopes[u.stage.i] == x ==> u'.stage == u.stage || u'.over)
  }

  lemma GoesNowhere(u: Submit, x: Scope, now: int)
    ensures Goes(u, u, x, now)
  {
  }

  lemma QuietPaced(c: Config, s: State, s': State, x: Scope)
    requires Paced(c, s, x) && Quiet(s, s', x)
    ensures Paced(c, s', x)
  {
    if x !in s'.forgiven {
      QuietTimes(c, s, s', x);
      QuietThrough(s, s', x);
    }
    hide Dated, Dropped, Spaced, Shut, Passed, Through, Goes;
  }

  lemma QuietTimes(c: Config, s: State, s': State, x: Scope)
    requires Quiet(s, s', x)
    requires Dated(c, s, x) && Dropped(c, s, x) && Spaced(c, s, x) && Shut(c, s, x) && Passed(s, x)
    ensures Dated(c, s', x) && Dropped(c, s', x) && Spaced(c, s', x) && Shut(c, s', x) && Passed(s', x)
  {
  }

  lemma QuietThrough(s: State, s': State, x: Scope)
    requires Quiet(s, s', x) && Through(s, x)
    ensures Through(s', x)
  {
  }

  lemma TickPaced(c: Config, s: State, now: int, x: Scope)
    requires Paced(c, s, x) && s.clock <= now
    ensures Paced(c, Tick(s, now), x)
  {
    assert Lives(Tick(s, now), x) == Lives(s, x);
  }

  /** Setting a lock drops the counter and closes the scope for a lock's length. */
  lemma SetLockPaced(c: Config, s: State, scope: Scope, x: Scope)
    requires Paced(c, s, x)
    ensures Paced(c, SetLock(c, s, scope), x)
  {
    assert Lives(SetLock(c, s, scope), x) == Lives(s, x);
  }

  lemma ForgivePaced(c: Config, s: State, scope: Scope, x: Scope)
    requires Paced(c, s, x) || scope == x
    ensures Paced(c, Forgive(s, scope), x)
  {
    if scope != x { QuietPaced(c, s, Forgive(s, scope), x); }
    hide Dated, Dropped, Spaced, Shut, Passed, Through;
  }

  lemma CountGoes(c: Config, s: State, j: nat, i: nat, x: Scope)
    requires j < |s.submits| && i < |s.submits[j].scopes| == |s.submits[j].counts|
    requires s.submits[j].stage == Counting(i) && s.submits[j].scopes[i] != x
    ensures Goes(s.submits[j], Count(c, s, j, i).submits[j], x, s.clock)
  {
    hide Fail, Lived;
  }

  lemma CountQuiet(c: Config, s: State, j: nat, i: nat, x: Scope)
    requires Paced(c, s, x) && j < |s.submits| && i < |s.submits[j].scopes| == |s.submits[j].counts|
    requires s.submits[j].stage == Counting(i) && s.submits[j].scopes[i] != x
    ensures Paced(c, Count(c, s, j, i), x)
  {
    hide Paced, Lived, Goes;
    CountGoes(c, s, j, i, x);
    forall k | 0 <= k < |s.submits| ensures Goes(s.submits[k], s.submits[k], x, s.clock) {
      GoesNowhere(s.submits[k], x, s.clock);
    }
    QuietPaced(c, s, Count(c, s, j, i), x);
  }

  lemma CountDated(c: Config, s: State, j: nat, i: nat, x: Scope)
    requires Dated(c, s, x) && Dropped(c, s, x) && Shut(c, s, x)
    requires j < |s.submits| && i < |s.submits[j].scopes| == |s.submits[j].counts| && s.submits[j].scopes[i] == x
    requires x in s.book.fails ==> s.book.fails[x].n > 0 && Life(s, x) > 0
    ensures var s' := Count(c, s, j, i);
            Dated(c, s', x) && Dropped(c, s', x) && Shut(c, s', x)
  {
  }

  /** The lives before stay, and a new one opens after all that was counted before it. */
  lemma CountOpens(c: Config, s: State, j: nat, i: nat, x: Scope)
    requires Dated(c, s, x) && Dropped(c, s, x) && Shut(c, s, x)
    requires j < |s.submits| && i < |s.submits[j].scopes| == |s.submits[j].counts| && s.submits[j].scopes[i] == x
    requires x in s.book.fails ==> s.book.fails[x].n > 0 && Life(s, x) > 0
    ensures var before, after := Lives(s, x), Lives(Count(c, s, j, i), x);
            && before <= after && |after| <= |before| + 1
            && forall k | 0 <= k < |s.submits| && x in s.submits[k].tickets && |after| > |before| ::
                 OpensAfter(c, s.submits[k], x, after[|before|])
  {
  }

  lemma CountSpaced(c: Config, s: State, j: nat, i: nat, x: Scope)
    requires Dated(c, s, x) && Dropped(c, s, x) && Spaced(c, s, x) && Shut(c, s, x) && Passed(s, x)
    requires j < |s.submits| && i < |s.submits[j].scopes| == |s.submits[j].counts| && s.submits[j].scopes[i] == x
    requires x in s.book.fails ==> s.book.fails[x].n > 0 && Life(s, x) > 0
    ensures Spaced(c, Count(c, s, j, i), x) && Passed(Count(c, s, j, i), x)
  {
    CountOpens(c, s, j, i, x);
    CountDated(c, s, j, i, x);
    hide Lived, Fail, Dropped, Shut, OpensAfter;
    var s' := Count(c, s, j, i);
    forall k, l | 0 <= k < |s'.submits| && x in s'.submits[k].tickets
                  && s'.submits[k].tickets[x].life <= l < Life(s', x)
      ensures OpensAfter(c, s'.submits[k], x, Lives(s', x)[l])
    {
      assert k != j;
      assert l < Life(s, x) ==> Lives(s', x)[l] == Lives(s, x)[l];
    }
    forall k | 0 <= k < |s.submits| && x in s'.submits[k].tickets && x in s'.submits[k].seen && !s'.submits[k].over
      ensures s'.submits[k].seen[x] >= Lives(s', x)[s'.submits[k].tickets[x].life - 1]
    {
      assert k != j;
    }
  }

  lemma CountThrough(c: Config, s: State, j: nat, i: nat, x: Scope)
    requires Through(s, x) && j < |s.submits| && i < |s.submits[j].scopes| == |s.submits[j].counts|
    requires s.submits[j].stage == Counting(i) && s.submits[j].scopes[i] == x
    ensures Through(Count(c, s, j, i), x)
  {
    hide Lived, Fail;
  }

  lemma CountPaced(c: Config, s: State, j: nat, i: nat, x: Scope)
    requires Paced(c, s, x) && Numbered(s, x) && j < |s.submits| && i < |s.submits[j].scopes| == |s.submits[j].counts|
    requires s.submits[j].stage == Counting(i)
    ensures Paced(c, Count(c, s, j, i), x)
  {
    if s.submits[j].scopes[i] != x {
      CountQuiet(c, s, j, i, x);
    } else if x !in s.forgiven {
      CountDated(c, s, j, i, x);
      CountSpaced(c, s, j, i, x);
      CountThrough(c, s, j, i, x);
      hide Dated, Dropped, Spaced, Shut, Passed, Through, Lived, Fail;
    }
  }

  /** Reading the lock: whoever is not over after it read no standing lock, so its life was open. */
  lemma ReadPaced(c: Config, s: State, j: nat, i: nat, ok: bool, x: Scope)
    requires Paced(c, s, x) && Meets(s, x) && Strict(c, s, x) && j < |s.submits| && i < |s.submits[j].scopes|
    requires s.submits[j].stage == Reading(i)
    ensures Paced(c, ReadLock(s, j, i, ok), x)
  {
    var s' := ReadLock(s, j, i, ok);
    if !ok {
      UnreadPaced(c, s, j, i, x);
    } else if s.submits[j].scopes[i] != x {
      hide Paced;
      QuietPaced(c, s, s', x);
    } else if x !in s.forgiven {
      ReadTimes(c, s, j, i, x);
      ReadThrough(s, j, i, x);
    }
    hide Dated, Dropped, Spaced, Shut, Passed, Through, LockedFor, Strict;
  }

  lemma ReadTimes(c: Config, s: State, j: nat, i: nat, x: Scope)
    requires Dated(c, s, x) && Dropped(c, s, x) && Spaced(c, s, x) && Shut(c, s, x) && Passed(s, x) && Meets(s, x)
    requires j < |s.submits| && i < |s.submits[j].scopes| && s.submits[j].scopes[i] == x && !s.submits[j].checked
    ensures var s' := ReadLock(s, j, i, true);
            Dated(c, s', x) && Dropped(c, s', x) && Spaced(c, s', x) && Shut(c, s', x) && Passed(s', x)
  {
    ReadMeets(c, s, j, i, x);
    ReadKeepsDates(c, s, j, i, x);
    ReadKeepsSpaces(c, s, j, i, x);
    ReadPasses(c, s, j, i, x);
    hide Dated, Dropped, Spaced, Shut, Passed, LockedFor;
  }

  /** Who is not over after reading met no standing lock, and no life is left to open. */
  lemma ReadMeets(c: Config, s: State, j: nat, i: nat, x: Scope)
    requires Shut(c, s, x) && Meets(s, x)
    requires j < |s.submits| && i < |s.submits[j].scopes| && s.submits[j].scopes[i] == x
    ensures var s' := ReadLock(s, j, i, true);
            !s'.submits[j].over ==>
              && (x in s.standing ==> s.standing[x] <= s.clock)
              && forall opening | opening in Lives(s, x) :: opening <= s.clock
  {
  }

  lemma ReadKeepsDates(c: Config, s: State, j: nat, i: nat, x: Scope)
    requires Dated(c, s, x) && Dropped(c, s, x)
    requires j < |s.submits| && i < |s.submits[j].scopes| && s.submits[j].scopes[i] == x
    ensures Dated(c, ReadLock(s, j, i, true), x) && Dropped(c, ReadLock(s, j, i, true), x)
  {
    hide LockedFor;
    assert LockedFor(s.book, x, s.clock).0.fails == s.book.fails by { LockReadAside(s.book, x, s.clock); }
    assert Lives(ReadLock(s, j, i, true), x) == Lives(s, x);
  }

  lemma LockReadAside(b: Book<Scope>, x: Scope, now: int)
    ensures LockedFor(b, x, now).0.fails == b.fails
  {
  }

  lemma ReadKeepsSpaces(c: Config, s: State, j: nat, i: nat, x: Scope)
    requires Dated(c, s, x) && Spaced(c, s, x) && Shut(c, s, x)
    requires j < |s.submits| && i < |s.submits[j].scopes| && s.submits[j].scopes[i] == x
    requires var s' := ReadLock(s, j, i, true);
             !s'.submits[j].over ==>
               && (x in s.standing ==> s.standing[x] <= s.clock)
               && forall opening | opening in Lives(s, x) :: opening <= s.clock
    ensures Spaced(c, ReadLock(s, j, i, true), x) && Shut(c, ReadLock(s, j, i, true), x)
  {
    hide LockedFor;
    var s' := ReadLock(s, j, i, true);
    assert Lives(s', x) == Lives(s, x);
    forall k, l | 0 <= k < |s'.submits| && x in s'.submits[k].tickets
                  && s'.submits[k].tickets[x].life <= l < Life(s', x)
      ensures OpensAfter(c, s'.submits[k], x, Lives(s', x)[l])
    {
      assert OpensAfter(c, s.submits[k], x, Lives(s, x)[l]);
      assert Lives(s, x)[l] in Lives(s, x);
    }
  }

  lemma ReadPasses(c: Config, s: State, j: nat, i: nat, x: Scope)
    requires Dated(c, s, x) && Passed(s, x)
    requires j < |s.submits| && i < |s.submits[j].scopes| && s.submits[j].scopes[i] == x && !s.submits[j].checked
    requires !ReadLock(s, j, i, true).submits[j].over ==> forall opening | opening in Lives(s, x) :: opening <= s.clock
    ensures Passed(ReadLock(s, j, i, true), x)
  {
    hide LockedFor;
    var s' := ReadLock(s, j, i, true);
    assert Lives(s', x) == Lives(s, x);
    if x in s.submits[j].tickets && !s'.submits[j].over {
      assert Lives(s, x)[s.submits[j].tickets[x].life - 1] in Lives(s, x);
    }
  }

  lemma ReadThrough(s: State, j: nat, i: nat, x: Scope)
    requires Through(s, x) && j < |s.submits| && i < |s.submits[j].scopes| && s.submits[j].stage == Reading(i)
    requires s.submits[j].scopes[i] == x
    ensures Through(ReadLock(s, j, i, true), x)
  {
    hide LockedFor;
  }

  lemma UnreadPaced(c: Config, s: State, j: nat, i: nat, x: Scope)
    requires Paced(c, s, x) && j < |s.submits| && i < |s.submits[j].scopes| && s.submits[j].stage == Reading(i)
    ensures Paced(c, ReadLock(s, j, i, false), x)
  {
    var s' := Put(s, j, s.submits[j].(stage := Counting(i + 1)));
    var scope := s.submits[j].scopes[i];
    if scope != x {
      QuietPaced(c, s, s', x);
    }
    ForgivePaced(c, s', scope, x);
    hide Paced, Forgive;
  }

  /** Going on to another stage. */
  lemma StagePaced(c: Config, s: State, j: nat, stage: Stage, x: Scope)
    requires Paced(c, s, x) && j < |s.submits| && !s.submits[j].stage.Reading?
    requires var u := s.submits[j];
             Progress(u) >= |u.scopes| || Progress(u.(stage := stage)) <= Progress(u)
    ensures Paced(c, Put(s, j, s.submits[j].(stage := stage)), x)
  {
    hide Paced;
    QuietPaced(c, s, Put(s, j, s.submits[j].(stage := stage)), x);
  }

  lemma EndCountPaced(c: Config, s: State, j: nat, slot: bool, x: Scope)
    requires Paced(c, s, x) && Strict(c, s, x) && j < |s.submits| && s.submits[j].stage.Counting?
    requires s.submits[j].stage.i >= |s.submits[j].scopes|
    ensures Paced(c, EndCount(s, j, slot), x)
  {
    hide Paced;
    QuietPaced(c, s, EndCount(s, j, slot), x);
  }

  lemma LockOverPaced(c: Config, s: State, j: nat, i: nat, ok: bool, x: Scope)
    requires Paced(c, s, x) && j < |s.submits| && i < |s.submits[j].scopes| && s.submits[j].stage == Locking(i)
    ensures Paced(c, LockOver(c, s, j, i, ok), x)
  {
    hide Paced, SetLock, Forgive;
    StagePaced(c, s, j, Counting(i + 1), x);
    var s' := Put(s, j, s.submits[j].(stage := Counting(i + 1)));
    if ok { SetLockPaced(c, s', s.submits[j].scopes[i], x); } else { ForgivePaced(c, s', s.submits[j].scopes[i], x); }
  }

  lemma LockSpentPaced(c: Config, s: State, j: nat, i: nat, ok: bool, x: Scope)
    requires Paced(c, s, x) && j < |s.submits| && i < |s.submits[j].scopes| == |s.submits[j].counts|
    requires s.submits[j].stage == Rejecting(i)
    ensures Paced(c, LockSpent(c, s, j, i, ok), x)
  {
    hide Paced, SetLock, Forgive;
    StagePaced(c, s, j, Rejecting(i + 1), x);
    var s' := Put(s, j, s.submits[j].(stage := Rejecting(i + 1)));
    SetLockPaced(c, s', s.submits[j].scopes[i], x);
    ForgivePaced(c, s', s.submits[j].scopes[i], x);
  }

  lemma ClearPaced(c: Config, s: State, scope: Scope, x: Scope)
    requires Paced(c, s, x)
    ensures Paced(c, Forgive(s.(book := Clear(s.book, scope), standing := s.standing - {scope}), scope), x)
  {
    var s' := s.(book := Clear(s.book, scope), standing := s.standing - {scope});
    if scope != x { QuietPaced(c, s, s', x); }
    ForgivePaced(c, s', scope, x);
    hide Paced, Forgive;
  }

  lemma ClearScopePaced(c: Config, s: State, j: nat, i: nat, ok: bool, x: Scope)
    requires Paced(c, s, x) && j < |s.submits| && i < |s.submits[j].scopes| && s.submits[j].stage == Clearing(i)
    ensures Paced(c, ClearScope(s, j, i, ok), x)
  {
    hide Paced, Forgive, Clear;
    StagePaced(c, s, j, Clearing(i + 1), x);
    ClearPaced(c, Put(s, j, s.submits[j].(stage := Clearing(i + 1))), s.submits[j].scopes[i], x);
  }

  lemma SkipPaced(c: Config, s: State, j: nat, i: nat, x: Scope)
    requires Paced(c, s, x) && j < |s.submits| && i < |s.submits[j].scopes| && s.submits[j].stage == Counting(i)
    ensures Paced(c, Forgive(Put(s, j, s.submits[j].(stage := Counting(i + 1))), s.submits[j].scopes[i]), x)
  {
    var s' := Put(s, j, s.submits[j].(stage := Counting(i + 1)));
    var scope := s.submits[j].scopes[i];
    if scope != x { QuietPaced(c, s, s', x); }
    ForgivePaced(c, s', scope, x);
    hide Paced, Forgive;
  }

  lemma ActPaced(c: Config, s: State, j: nat, ok: bool, outcome: Outcome, x: Scope)
    requires Paced(c, s, x) && Numbered(s, x) && Meets(s, x) && Strict(c, s, x)
    requires j < |s.submits| && |s.submits[j].counts| == |s.submits[j].scopes|
    ensures Paced(c, ActOf(c, s, j, ok, outcome), x)
  {
    hide Paced, Numbered, Meets, Strict, Count, LockOver, ReadLock, LockSpent, ClearScope, EndCount;
    var n := |s.submits[j].scopes|;
    match s.submits[j].stage
    case Counting(i) =>
      if i >= n { EndCountPaced(c, s, j, ok, x); }
      else if ok { CountPaced(c, s, j, i, x); }
      else { SkipPaced(c, s, j, i, x); }
    case Locking(i) => if i < n { LockOverPaced(c, s, j, i, ok, x); }
    case Reading(i) => if i < n { ReadPaced(c, s, j, i, ok, x); }
    case Checking => StagePaced(c, s, j, EndCheck(s, j, outcome).submits[j].stage, x);
    case Rejecting(i) => if i < n { LockSpentPaced(c, s, j, i, ok, x); } else { StagePaced(c, s, j, Done, x); }
    case Clearing(i) => if i < n { ClearScopePaced(c, s, j, i, ok, x); } else { StagePaced(c, s, j, Done, x); }
    case Refused =>
    case Done =>
  }

  lemma BeginPaced(c: Config, s: State, scopes: seq<Scope>, x: Scope)
    requires c.attempts > 0 && Paced(c, s, x)
    ensures Paced(c, Step(c, s, Begin(scopes)), x)
  {
    if x !in s.forgiven {
      BeginTimes(c, s, scopes, x);
      BeginThrough(c, s, scopes, x);
    }
    hide Dated, Dropped, Spaced, Shut, Passed, Through, Begun;
  }

  lemma BeginTimes(c: Config, s: State, scopes: seq<Scope>, x: Scope)
    requires Dated(c, s, x) && Dropped(c, s, x) && Spaced(c, s, x) && Shut(c, s, x) && Passed(s, x)
    ensures var s' := Step(c, s, Begin(scopes));
            Dated(c, s', x) && Dropped(c, s', x) && Spaced(c, s', x) && Shut(c, s', x) && Passed(s', x)
  {
    BeginDates(c, s, scopes, x);
    assert Lives(Step(c, s, Begin(scopes)), x) == Lives(s, x);
    hide Dated, Dropped;
  }

  lemma BeginDates(c: Config, s: State, scopes: seq<Scope>, x: Scope)
    requires Dated(c, s, x) && Dropped(c, s, x)
    ensures Dated(c, Step(c, s, Begin(scopes)), x) && Dropped(c, Step(c, s, Begin(scopes)), x)
  {
    assert Lives(Step(c, s, Begin(scopes)), x) == Lives(s, x);
  }

  lemma BeginThrough(c: Config, s: State, scopes: seq<Scope>, x: Scope)
    requires c.attempts > 0 && Through(s, x)
    ensures Through(Step(c, s, Begin(scopes)), x)
  {
  }

  lemma StepPaced(c: Config, s: State, event: (int, Action), x: Scope)
    requires c.attempts > 0 && Paced(c, s, x) && Kept(c, s, x)
    ensures Paced(c, StepAt(c, s, event), x)
  {
    hide Paced, ActOf, Numbered, Strict, Locked;
    var (now, a) := event;
    var now' := if now < s.clock then s.clock else now;
    TickPaced(c, s, now', x);
    TickKept(c, s, now', x);
    var t := Tick(s, now');
    match a
    case Begin(scopes) => BeginPaced(c, t, scopes, x);
    case Peek(scope) => QuietPaced(c, t, Step(c, t, a), x);
    case Act(j, ok, outcome) =>
      if j < |t.submits| && |t.submits[j].counts| == |t.submits[j].scopes| { ActPaced(c, t, j, ok, outcome, x); }
  }

  lemma {:induction false} RunPaced(c: Config, events: seq<(int, Action)>, x: Scope)
    requires c.attempts > 0
    ensures Paced(c, Run(c, events), x)
  {
    if events != [] {
      hide Paced, StepAt, Kept;
      RunPaced(c, events[..|events| - 1], x);
      RunKept(c, events[..|events| - 1], x);
      StepPaced(c, Run(c, events[..|events| - 1]), events[|events| - 1], x);
    }
  }

  // From spaced lives to a rate.

  /** A checked submit of a scope that got no amnesty was counted there, read its lock and is not over. */
  lemma CheckedWentThrough(c: Config, events: seq<(int, Action)>, x: Scope, j: nat)
    requires c.attempts > 0 && x !in Run(c, events).forgiven
    requires j < |Run(c, events).submits| && Run(c, events).submits[j].checked && x in Run(c, events).submits[j].scopes
    ensures var u := Run(c, events).submits[j]; x in u.tickets && x in u.seen && !u.over
  {
    RunKept(c, events, x);
    RunPaced(c, events, x);
    var s := Run(c, events);
    hide Run, Numbered, Locked, Meets, Dated, Dropped, Spaced, Shut, Passed;
    var u := s.submits[j];
    var i :| 0 <= i < |u.scopes| && u.scopes[i] == x;
  }

  /** What lies between two checked submits of different lives: the later one read its lock, and was checked,
      only after its life opened, and it opened late enough. */
  lemma LivesApart(c: Config, events: seq<(int, Action)>, x: Scope, j: nat, k: nat)
    requires c.attempts > 0
    requires var s := Run(c, events);
             && x !in s.forgiven
             && j < |s.submits| && x in s.submits[j].scopes && s.submits[j].checked
             && k < |s.submits| && x in s.submits[k].scopes && s.submits[k].checked
             && LifeOf(s, x, j) < LifeOf(s, x, k)
    ensures var s := Run(c, events);
            && x in s.submits[j].tickets && x in s.submits[j].seen && x in s.submits[k].seen
            && var at, seen, later := s.submits[j].tickets[x].at, s.submits[j].seen[x], s.submits[k].seen[x];
            && later <= s.submits[k].checkedAt
            && (at + c.window < later || (at + c.lock <= later && (seen + c.lock <= later || seen >= at + c.lock)))
  {
    RunPaced(c, events, x);
    CheckedWentThrough(c, events, x, j);
    CheckedWentThrough(c, events, x, k);
    var s := Run(c, events);
    hide Run, Dated, Dropped, Shut, Through;
    assert OpensAfter(c, s.submits[j], x, Lives(s, x)[s.submits[k].tickets[x].life - 1]);
  }

  function LifeOf(s: State, x: Scope, j: nat): nat {
    if j < |s.submits| && x in s.submits[j].tickets then s.submits[j].tickets[x].life else 0
  }

  function SeenOf(s: State, x: Scope, j: nat): int {
    if j < |s.submits| && x in s.submits[j].seen then s.submits[j].seen[x] else 0
  }

  function CheckOf(s: State, j: nat): int {
    if j < |s.submits| then s.submits[j].checkedAt else 0
  }

  /** The checked submits with x among their scopes that read the lock of x in a span of time. */
  ghost function ReadsIn(s: State, x: Scope, from: int, span: nat): set<nat> {
    set j: nat | j < |s.submits| && s.submits[j].checked && x in s.submits[j].scopes
                 && x in s.submits[j].seen && from <= s.submits[j].seen[x] <= from + span
  }

  /** The submits with x among their scopes whose password was checked in a span of time. */
  ghost function ChecksIn(s: State, x: Scope, from: int, span: nat): set<nat> {
    set j: nat | j < |s.submits| && s.submits[j].checked && x in s.submits[j].scopes
                 && from <= s.submits[j].checkedAt <= from + span
  }

  /** No submit takes longer than delay from counting at x to reading the lock of x. */
  ghost predicate ReadsPromptly(s: State, x: Scope, delay: nat) {
    forall j | 0 <= j < |s.submits| && x in s.submits[j].tickets && x in s.submits[j].seen ::
      s.submits[j].seen[x] <= s.submits[j].tickets[x].at + delay
  }

  /** No submit takes longer than delay from counting at x to the password check. */
  ghost predicate ChecksPromptly(s: State, x: Scope, delay: nat) {
    forall j | 0 <= j < |s.submits| && x in s.submits[j].tickets && s.submits[j].checked ::
      s.submits[j].checkedAt <= s.submits[j].tickets[x].at + delay
  }

  /** As many lock reads as the limit for every h of a span: a late read costs the window, not the lock, as
      long as it is not a whole lock late. */
  lemma ReadsAreFew(c: Config, events: seq<(int, Action)>, x: Scope, from: int, span: nat, delay: nat, h: nat)
    requires c.attempts > 0 && x !in Run(c, events).forgiven && ReadsPromptly(Run(c, events), x, delay)
    requires 0 < h <= c.lock && delay < c.lock && h + delay <= c.window + 1
    ensures |ReadsIn(Run(c, events), x, from, span)| <= c.attempts * (1 + span / h)
  {
    var s := Run(c, events);
    var js := ReadsIn(s, x, from, span);
    hide Run;
    forall j, k | j in js && k in js && LifeOf(s, x, j) < LifeOf(s, x, k)
      ensures SeenOf(s, x, j) + h <= SeenOf(s, x, k)
    {
      LivesApart(c, events, x, j, k);
    }
    var life, seen := (j: nat) => LifeOf(s, x, j), (j: nat) => SeenOf(s, x, j);
    FewPerLife(c, events, x, js, life);
    SpacedGroups(js, life, seen, c.attempts, from, span, h);
  }

  /** As many checks as the limit for every h of a span, dated by the check itself. */
  lemma ChecksAreFew(c: Config, events: seq<(int, Action)>, x: Scope, from: int, span: nat, delay: nat, h: nat)
    requires c.attempts > 0 && x !in Run(c, events).forgiven && ChecksPromptly(Run(c, events), x, delay)
    requires h > 0 && h + delay <= c.lock && h + delay <= c.window + 1
    ensures |ChecksIn(Run(c, events), x, from, span)| <= c.attempts * (1 + span / h)
  {
    var s := Run(c, events);
    var js := ChecksIn(s, x, from, span);
    hide Run;
    forall j, k | j in js && k in js && LifeOf(s, x, j) < LifeOf(s, x, k) ensures CheckOf(s, j) + h <= CheckOf(s, k) {
      LivesApart(c, events, x, j, k);
    }
    var life, at := (j: nat) => LifeOf(s, x, j), (j: nat) => CheckOf(s, j);
    FewPerLife(c, events, x, js, life);
    SpacedGroups(js, life, at, c.attempts, from, span, h);
  }

  lemma FewPerLife(c: Config, events: seq<(int, Action)>, x: Scope, js: set<nat>, life: nat -> nat)
    requires c.attempts > 0 && x !in Run(c, events).forgiven
    requires forall j | j in js :: var s := Run(c, events);
               j < |s.submits| && s.submits[j].checked && x in s.submits[j].scopes
    requires forall j :: life(j) == LifeOf(Run(c, events), x, j)
    ensures forall l: nat :: |Fibre(js, life, l)| <= c.attempts
  {
    var s := Run(c, events);
    hide Run;
    forall l: nat ensures |Fibre(js, life, l)| <= c.attempts {
      GuessesPerLife(c, events, x, l);
      forall j | j in Fibre(js, life, l) ensures j in CheckedIn(s, x, l) { CheckedWentThrough(c, events, x, j); }
      SubsetSize(Fibre(js, life, l), CheckedIn(s, x, l));
    }
  }
}
