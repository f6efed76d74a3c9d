/** Why no better rate of guesses holds: schedules with twice the limit at once (cmd/http/login.go). */
module Bursts {
  import opened Roster
  import opened SignIn
  import opened GuessRate
  import opened Spacing

  const X := Ip("gate", "10.0.0.1")

  // Where a submit of X stands: counted, past the lock, checked.

  predicate IsCounted(u: Submit, at: int) {
    && u.scopes == [X] && |u.counts| == 1 && !u.over && !u.checked && u.stage == Reading(0)
    && X in u.tickets && u.tickets[X].at == at && X !in u.seen
  }

  predicate IsRead(u: Submit, at: int, seen: int) {
    && u.scopes == [X] && |u.counts| == 1 && !u.over && !u.checked && u.stage == Counting(1)
    && X in u.tickets && u.tickets[X].at == at && X in u.seen && u.seen[X] == seen
  }

  predicate IsChecked(u: Submit, at: int, seen: int, checked: int) {
    && u.scopes == [X] && !u.over && u.checked && u.checkedAt == checked
    && X in u.tickets && u.tickets[X].at == at && X in u.seen && u.seen[X] == seen
  }

  /** The one too many. */
  predicate IsTurnedAway(u: Submit) { u.over && !u.checked && X !in u.seen }

  /** Only submits from lo to hi have moved on. */
  ghost predicate Besides(s: State, s': State, lo: nat, hi: nat) {
    && |s'.submits| == |s.submits| && s'.forgiven == s.forgiven
    && forall j | 0 <= j < |s.submits| && !(lo <= j < hi) :: s'.submits[j] == s.submits[j]
  }

  lemma Extend(c: Config, events: seq<(int, Action)>, e: (int, Action))
    ensures Run(c, events + [e]) == StepAt(c, Run(c, events), e)
  {
    assert (events + [e])[..|events|] == events;
  }

  lemma Begins(c: Config, s: State, t: int)
    requires s.clock <= t
    ensures var s' := StepAt(c, s, (t, Begin([X])));
            && s'.clock == t && s'.book == s.book && s'.forgiven == s.forgiven
            && s'.submits == s.submits + [Begun(c, [X])]
  {
  }

  lemma Counts(c: Config, s: State, t: int, j: nat)
    requires c.attempts > 0 && s.clock <= t && j < |s.submits| && s.submits[j] == Begun(c, [X])
    ensures var s', n := StepAt(c, s, (t, Act(j, true, Reject))), Standing(s.book, X, t) + 1;
            && s'.clock == t && s'.book.locks == s.book.locks && Besides(s, s', j, j + 1)
            && X in s'.book.fails && s'.book.fails[X] == Counter(n, t + c.window)
            && (n <= c.attempts ==> IsCounted(s'.submits[j], t))
            && (n > c.attempts ==> IsTurnedAway(s'.submits[j]) && s'.submits[j].stage == Locking(0)
                                   && s'.submits[j].scopes == [X] && |s'.submits[j].counts| == 1)
  {
  }

  lemma Locks(c: Config, s: State, t: int, j: nat)
    requires s.clock <= t && j < |s.submits| && IsTurnedAway(s.submits[j]) && s.submits[j].stage == Locking(0)
    requires s.submits[j].scopes == [X] && |s.submits[j].counts| == 1
    ensures var s' := StepAt(c, s, (t, Act(j, true, Reject)));
            && s'.clock == t && X !in s'.book.fails && X in s'.book.locks && s'.book.locks[X] == t + c.lock
            && Besides(s, s', j, j + 1) && IsTurnedAway(s'.submits[j])
  {
  }

  lemma ReadsOn(c: Config, s: State, t: int, j: nat, at: int)
    requires s.clock <= t && j < |s.submits| && IsCounted(s.submits[j], at)
    requires X in s.book.locks ==> s.book.locks[X] <= t
    ensures var s' := StepAt(c, s, (t, Act(j, true, Reject)));
            && s'.clock == t && s'.book.fails == s.book.fails && X !in s'.book.locks
            && Besides(s, s', j, j + 1) && IsRead(s'.submits[j], at, t)
  {
  }

  lemma ChecksOn(c: Config, s: State, t: int, j: nat, at: int, seen: int)
    requires s.clock <= t && j < |s.submits| && IsRead(s.submits[j], at, seen)
    ensures var s' := StepAt(c, s, (t, Act(j, true, Reject)));
            && s'.clock == t && s'.book == s.book && Besides(s, s', j, j + 1) && IsChecked(s'.submits[j], at, seen, t)
  {
  }

  // The same for n submits in a row.

  /** One more submit is counted. */
  lemma CountMore(c: Config, events: seq<(int, Action)>, t: int) returns (all: seq<(int, Action)>)
    requires c.attempts > 0 && Run(c, events).clock <= t && Standing(Run(c, events).book, X, t) < c.attempts
    ensures var s, s' := Run(c, events), Run(c, all);
            && s.submits <= s'.submits && |s'.submits| == |s.submits| + 1 && s'.clock == t
            && s'.forgiven == s.forgiven && s'.book.locks == s.book.locks && IsCounted(s'.submits[|s.submits|], t)
            && X in s'.book.fails && s'.book.fails[X] == Counter(Standing(s.book, X, t) + 1, t + c.window)
  {
    hide Run, StepAt, Begun, IsCounted, IsTurnedAway, Standing;
    var s := Run(c, events);
    Begins(c, s, t);
    Extend(c, events, (t, Begin([X])));
    all := events + [(t, Begin([X]))];
    Counts(c, Run(c, all), t, |s.submits|);
    Extend(c, all, (t, Act(|s.submits|, true, Reject)));
    all := all + [(t, Act(|s.submits|, true, Reject))];
  }

  lemma StandsAfter(b: Book<Scope>, t: int, n: nat, window: int)
    requires X in b.fails && b.fails[X] == Counter(n, t + window)
    ensures Standing(b, X, t) == if window >= 0 then n else 0
  {
  }

  /** s' is s with n more submits counted at one moment. */
  ghost predicate CountedMore(c: Config, s: State, s': State, t: int, n: nat) {
    && s.submits <= s'.submits && |s'.submits| == |s.submits| + n && s'.clock <= t
    && s'.forgiven == s.forgiven && s'.book.locks == s.book.locks
    && (forall j | |s.submits| <= j < |s'.submits| :: IsCounted(s'.submits[j], t))
    && (n == 0 ==> s' == s)
    && (n > 0 ==> X in s'.book.fails && s'.book.fails[X].until == t + c.window)
    && (c.window >= 0 ==> Standing(s'.book, X, t) == Standing(s.book, X, t) + n)
  }

  lemma OneMoreCounted(c: Config, s: State, s1: State, s2: State, t: int, n: nat)
    requires CountedMore(c, s, s1, t, n) && s1.submits <= s2.submits && |s2.submits| == |s1.submits| + 1
    requires s2.clock == t
    requires s2.forgiven == s1.forgiven && s2.book.locks == s1.book.locks && IsCounted(s2.submits[|s1.submits|], t)
    requires X in s2.book.fails && s2.book.fails[X] == Counter(Standing(s1.book, X, t) + 1, t + c.window)
    ensures CountedMore(c, s, s2, t, n + 1)
  {
    hide Standing, IsCounted;
    StandsAfter(s2.book, t, Standing(s1.book, X, t) + 1, c.window);
    forall j | |s.submits| <= j < |s2.submits| ensures IsCounted(s2.submits[j], t) {
      if j < |s1.submits| { assert s2.submits[j] == s1.submits[j]; }
    }
  }

  /** n more submits are counted at one moment, within the limit. */
  lemma {:induction false} CountBlock(c: Config, events: seq<(int, Action)>, t: int, n: nat)
    returns (all: seq<(int, Action)>)
    requires c.attempts > 0 && Run(c, events).clock <= t
    requires c.window < 0 || Standing(Run(c, events).book, X, t) + n <= c.attempts
    requires Standing(Run(c, events).book, X, t) < c.attempts
    ensures CountedMore(c, Run(c, events), Run(c, all), t, n)
  {
    all := events;
    if n > 0 {
      hide Run, IsCounted, Standing, CountedMore;
      all := CountBlock(c, events, t, n - 1);
      ghost var s1 := Run(c, all);
      FewYet(c, Run(c, events), s1, t, n - 1);
      all := CountMore(c, all, t);
      OneMoreCounted(c, Run(c, events), s1, Run(c, all), t, n - 1);
    }
  }

  lemma FewYet(c: Config, s: State, s1: State, t: int, n: nat)
    requires CountedMore(c, s, s1, t, n) && c.attempts > 0 && Standing(s.book, X, t) < c.attempts
    requires c.window < 0 || Standing(s.book, X, t) + n < c.attempts
    ensures s1.clock <= t && Standing(s1.book, X, t) < c.attempts
  {
  }

  /** One more finds the limit reached, and locks. */
  lemma LockIt(c: Config, events: seq<(int, Action)>, t: int) returns (all: seq<(int, Action)>)
    requires c.attempts > 0 && Run(c, events).clock <= t && Standing(Run(c, events).book, X, t) >= c.attempts
    ensures var s, s' := Run(c, events), Run(c, all);
            && s.submits <= s'.submits && |s'.submits| == |s.submits| + 1 && s'.clock <= t
            && IsTurnedAway(s'.submits[|s.submits|]) && s'.forgiven == s.forgiven
            && X !in s'.book.fails && X in s'.book.locks && s'.book.locks[X] == t + c.lock
  {
    hide Run, StepAt, Begun, IsCounted, IsTurnedAway, Standing;
    var s := Run(c, events);
    var act := (t, Act(|s.submits|, true, Reject));
    Begins(c, s, t);
    Extend(c, events, (t, Begin([X])));
    all := events + [(t, Begin([X]))];
    Counts(c, Run(c, all), t, |s.submits|);
    Extend(c, all, act);
    all := all + [act];
    Locks(c, Run(c, all), t, |s.submits|);
    Extend(c, all, act);
    all := all + [act];
  }

  /** Submits from lo to hi read the lock at one moment at which none stands. */
  lemma {:induction false} ReadBlock(c: Config, events: seq<(int, Action)>, t: int, lo: nat, hi: nat, at: int)
    returns (all: seq<(int, Action)>)
    requires lo <= hi <= |Run(c, events).submits| && Run(c, events).clock <= t
    requires forall j | lo <= j < hi :: IsCounted(Run(c, events).submits[j], at)
    requires X in Run(c, events).book.locks ==> Run(c, events).book.locks[X] <= t
    ensures var s, s' := Run(c, events), Run(c, all);
            && Besides(s, s', lo, hi) && s'.clock <= t && s'.book.fails == s.book.fails
            && (X in s'.book.locks ==> X in s.book.locks && s'.book.locks[X] == s.book.locks[X])
            && forall j | lo <= j < hi :: IsRead(s'.submits[j], at, t)
    decreases hi - lo
  {
    all := events;
    if lo < hi {
      hide Run, StepAt, IsCounted, IsRead;
      all := ReadBlock(c, events, t, lo, hi - 1, at);
      ReadsOn(c, Run(c, all), t, hi - 1, at);
      Extend(c, all, (t, Act(hi - 1, true, Reject)));
      all := all + [(t, Act(hi - 1, true, Reject))];
    }
  }

  /** Their passwords are checked at one moment. */
  lemma {:induction false} CheckBlock(c: Config, events: seq<(int, Action)>, t: int, lo: nat, hi: nat, at: int,
                                      seen: int)
    returns (all: seq<(int, Action)>)
    requires lo <= hi <= |Run(c, events).submits| && Run(c, events).clock <= t
    requires forall j | lo <= j < hi :: IsRead(Run(c, events).submits[j], at, seen)
    ensures var s, s' := Run(c, events), Run(c, all);
            && Besides(s, s', lo, hi) && s'.clock <= t && s'.book == s.book
            && forall j | lo <= j < hi :: IsChecked(s'.submits[j], at, seen, t)
    decreases hi - lo
  {
    all := events;
    if lo < hi {
      hide Run, StepAt, IsRead, IsChecked;
      all := CheckBlock(c, events, t, lo, hi - 1, at, seen);
      ChecksOn(c, Run(c, all), t, hi - 1, at, seen);
      Extend(c, all, (t, Act(hi - 1, true, Reject)));
      all := all + [(t, Act(hi - 1, true, Reject))];
    }
  }

  /** A whole limit of submits at one moment, from count to check. */
  lemma FullBlock(c: Config, events: seq<(int, Action)>, t: int) returns (all: seq<(int, Action)>)
    requires c.attempts > 0 && Run(c, events).clock <= t
    requires Standing(Run(c, events).book, X, t) == 0
    requires X in Run(c, events).book.locks ==> Run(c, events).book.locks[X] <= t
    ensures var s, s' := Run(c, events), Run(c, all);
            && s.submits <= s'.submits && |s'.submits| == |s.submits| + c.attempts && s'.forgiven == s.forgiven
            && forall j | |s.submits| <= j < |s'.submits| :: IsChecked(s'.submits[j], t, t, t)
  {
    hide Run, IsCounted, IsRead, IsChecked, Standing;
    var s := Run(c, events);
    all := CountBlock(c, events, t, c.attempts);
    all := ReadBlock(c, all, t, |s.submits|, |s.submits| + c.attempts, t);
    all := CheckBlock(c, all, t, |s.submits|, |s.submits| + c.attempts, t, t);
  }

  // Two limits of checks close together.

  /** The first limit of submits was counted at 0, read its lock at seen and was checked at checked; the last did all
      of it at last. */
  ghost predicate Twice(c: Config, s: State, seen: int, checked: int, last: int) {
    && X !in s.forgiven && |s.submits| >= 2 * c.attempts
    && (forall j | 0 <= j < c.attempts :: IsChecked(s.submits[j], 0, seen, checked))
    && (forall j | c.attempts <= j < |s.submits| - c.attempts :: IsTurnedAway(s.submits[j]))
    && forall j | |s.submits| - c.attempts <= j < |s.submits| :: IsChecked(s.submits[j], last, last, last)
  }

  /** Where a window has passed since the count a new one is free, however late the reading. */
  lemma AfterWindow(c: Config, seen: nat, checked: nat, last: nat) returns (events: seq<(int, Action)>)
    requires c.attempts > 0 && seen <= checked <= last && c.window < last + if c.window < 0 then 1 else 0
    ensures Twice(c, Run(c, events), seen, checked, last)
  {
    hide Run, IsCounted, IsRead, IsChecked, IsTurnedAway;
    Starts(c);
    events := CountBlock(c, [], 0, c.attempts);
    events := ReadBlock(c, events, seen, 0, c.attempts, 0);
    events := CheckBlock(c, events, checked, 0, c.attempts, 0, seen);
    events := FullBlock(c, events, last);
  }

  /** A lock set between count and reading is over for both when it runs out. */
  lemma AfterLockUnread(c: Config, last: nat) returns (events: seq<(int, Action)>)
    requires c.attempts > 0 && c.window >= 0 && c.lock <= last
    ensures Twice(c, Run(c, events), last, last, last)
  {
    hide Run, IsCounted, IsRead, IsChecked, IsTurnedAway;
    Starts(c);
    events := CountBlock(c, [], 0, c.attempts);
    events := LockIt(c, events, 0);
    events := ReadBlock(c, events, last, 0, c.attempts, 0);
    events := CheckBlock(c, events, last, 0, c.attempts, 0, last);
    events := FullBlock(c, events, last);
  }

  /** A lock set after the reading stops no check that is still to come. */
  lemma AfterLockRead(c: Config, checked: nat, last: nat) returns (events: seq<(int, Action)>)
    requires c.attempts > 0 && c.window >= 0 && c.lock <= last && checked <= last
    ensures Twice(c, Run(c, events), 0, checked, last)
  {
    hide Run, IsCounted, IsRead, IsChecked, IsTurnedAway;
    Starts(c);
    events := CountBlock(c, [], 0, c.attempts);
    events := ReadBlock(c, events, 0, 0, c.attempts, 0);
    events := LockIt(c, events, 0);
    events := CheckBlock(c, events, checked, 0, c.attempts, 0, 0);
    events := FullBlock(c, events, last);
  }

  lemma Starts(c: Config)
    ensures Run(c, []) == START
  {
  }

  ghost function Block(lo: nat, n: nat): (js: set<nat>)
    ensures |js| == n && forall j :: j in js <==> lo <= j < lo + n
  {
    if n == 0 then {} else Block(lo, n - 1) + {lo + n - 1}
  }

  lemma TwoBlocks(js: set<nat>, lo: nat, n: nat)
    requires n <= lo && forall j: nat | j < n || lo <= j < lo + n :: j in js
    ensures |js| >= 2 * n
  {
    assert Block(0, n) !! Block(lo, n);
    SubsetSize(Block(0, n) + Block(lo, n), js);
  }

  lemma BothBlocks(c: Config, s: State, seen: int, checked: int, last: int)
    requires Twice(c, s, seen, checked, last)
    ensures X !in s.forgiven
    ensures seen <= last ==> |ReadsIn(s, X, seen, last - seen)| >= 2 * c.attempts
    ensures checked <= last ==> |ChecksIn(s, X, checked, last - checked)| >= 2 * c.attempts
  {
    var n := |s.submits| - c.attempts;
    if seen <= last { TwoBlocks(ReadsIn(s, X, seen, last - seen), n, c.attempts); }
    if checked <= last { TwoBlocks(ChecksIn(s, X, checked, last - checked), n, c.attempts); }
  }

  lemma PromptEnough(c: Config, s: State, seen: int, checked: int, last: int, delay: nat)
    requires Twice(c, s, seen, checked, last)
    ensures seen <= delay ==> ReadsPromptly(s, X, delay)
    ensures checked <= delay ==> ChecksPromptly(s, X, delay)
  {
  }

  // The exact rates.

  /** Whatever happens, at most the limit of lock reads for every h of a span, and once more. */
  ghost predicate ReadsKeepRate(c: Config, delay: nat, h: nat)
    requires h > 0
  {
    forall events, x, from, span: nat | x !in Run(c, events).forgiven && ReadsPromptly(Run(c, events), x, delay) ::
      |ReadsIn(Run(c, events), x, from, span)| <= c.attempts * (1 + span / h)
  }

  /** The same for the checks themselves. */
  ghost predicate ChecksKeepRate(c: Config, delay: nat, h: nat)
    requires h > 0
  {
    forall events, x, from, span: nat | x !in Run(c, events).forgiven && ChecksPromptly(Run(c, events), x, delay) ::
      |ChecksIn(Run(c, events), x, from, span)| <= c.attempts * (1 + span / h)
  }

  lemma WithinOne(a: nat, span: nat, h: nat)
    requires span < h && a > 0
    ensures 2 * a > a * (1 + span / h)
  {
    assert span / h == 0;
  }

  lemma ReadsOverRun(c: Config, delay: nat, h: nat, events: seq<(int, Action)>, seen: nat, checked: int, last: nat)
    requires c.attempts > 0 && h > 0 && Twice(c, Run(c, events), seen, checked, last)
    requires seen <= delay && seen <= last < seen + h
    ensures !ReadsKeepRate(c, delay, h)
  {
    hide Run, Twice;
    var s := Run(c, events);
    BothBlocks(c, s, seen, checked, last);
    PromptEnough(c, s, seen, checked, last, delay);
    WithinOne(c.attempts, last - seen, h);
  }

  lemma ChecksOverRun(c: Config, delay: nat, h: nat, events: seq<(int, Action)>, seen: int, checked: nat, last: nat)
    requires c.attempts > 0 && h > 0 && Twice(c, Run(c, events), seen, checked, last)
    requires checked <= delay && checked <= last < checked + h
    ensures !ChecksKeepRate(c, delay, h)
  {
    hide Run, Twice;
    var s := Run(c, events);
    BothBlocks(c, s, seen, checked, last);
    PromptEnough(c, s, seen, checked, last, delay);
    WithinOne(c.attempts, last - checked, h);
  }

  function Later(a: int, b: int): int { if a < b then b else a }

  /** At most the limit of lock reads for every h that passes, if submits take at most delay from count to
      reading: that holds exactly as long as the reading is not a lock late, and neither the lock nor, less
      the delay, the window is shorter than h. */
  lemma RateOfReads(c: Config, delay: nat, h: nat)
    requires c.attempts > 0 && h > 0
    ensures ReadsKeepRate(c, delay, h) <==> delay < c.lock && h <= c.lock && h + delay <= c.window + 1
  {
    hide Run, Twice;
    if delay < c.lock && h <= c.lock && h + delay <= c.window + 1 {
      forall events, x, from, span: nat | x !in Run(c, events).forgiven && ReadsPromptly(Run(c, events), x, delay)
        ensures |ReadsIn(Run(c, events), x, from, span)| <= c.attempts * (1 + span / h)
      {
        ReadsAreFew(c, events, x, from, span, delay, h);
      }
    } else if h + delay > c.window + 1 {
      var last := Later(delay, c.window + 1);
      var events := AfterWindow(c, delay, delay, last);
      ReadsOverRun(c, delay, h, events, delay, delay, last);
    } else if delay >= c.lock {
      var events := AfterLockUnread(c, delay);
      ReadsOverRun(c, delay, h, events, delay, delay, delay);
    } else {
      var events := AfterLockRead(c, 0, c.lock);
      ReadsOverRun(c, delay, h, events, 0, 0, c.lock);
    }
  }

  /** The same for password checks, if submits take at most delay from count to check: exactly as long as lock
      and window, both less the delay, are not shorter than h. */
  lemma RateOfChecks(c: Config, delay: nat, h: nat)
    requires c.attempts > 0 && h > 0
    ensures ChecksKeepRate(c, delay, h) <==> h + delay <= c.lock && h + delay <= c.window + 1
  {
    hide Run, Twice;
    if h + delay <= c.lock && h + delay <= c.window + 1 {
      forall events, x, from, span: nat | x !in Run(c, events).forgiven && ChecksPromptly(Run(c, events), x, delay)
        ensures |ChecksIn(Run(c, events), x, from, span)| <= c.attempts * (1 + span / h)
      {
        ChecksAreFew(c, events, x, from, span, delay, h);
      }
    } else if h + delay > c.window + 1 {
      var last := Later(delay, c.window + 1);
      var events := AfterWindow(c, delay, delay, last);
      ChecksOverRun(c, delay, h, events, delay, delay, last);
    } else {
      var last := Later(delay, c.lock);
      var events := AfterLockRead(c, delay, last);
      ChecksOverRun(c, delay, h, events, 0, delay, last);
    }
  }
}
