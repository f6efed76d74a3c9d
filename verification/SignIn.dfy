/** Parallel submits against one roster (cmd/http/login.go). Each roster call is one step, and the
    steps of any number of submits interleave as they please. Beside what the program keeps, a state
    records the lives of each counter and which scopes were given an amnesty. */
module SignIn {
  import opened Roster

  /** attempts == 0: there is no lockout. */
  datatype Config = Config(attempts: nat, window: int, lock: int)

  datatype Scope = Ip(source: string, addr: string) | User(source: string, login: string)

  /** Where a submit stands: reserve's loop over its scopes, the password check, what follows it. */
  datatype Stage =
    | Counting(i: nat) | Locking(i: nat) | Reading(i: nat)
    | Refused
    | Checking
    | Rejecting(i: nat) | Clearing(i: nat)
    | Done

  /** The attempt as it was counted: in which life of the counter, as which one, and when. */
  datatype Ticket = Ticket(life: nat, n: nat, at: int)

  datatype Submit = Submit(scopes: seq<Scope>, stage: Stage, counts: seq<nat>, over: bool,
                           checked: bool, checkedAt: int, tickets: map<Scope, Ticket>, seen: map<Scope, int>)

  /** standing holds the locks set and not cleared since. lives has an entry for every time a counter was
      started: the moment before which nobody counted in that life can get past the lock. A submit's
      seen tells when it read which lock. */
  datatype State = State(book: Book<Scope>, clock: int, submits: seq<Submit>, lives: map<Scope, seq<int>>,
                         standing: map<Scope, int>, amnesty: set<Scope>, forgiven: set<Scope>)

  datatype Outcome = Accept | Reject | Unavailable

  /** ok says whether the roster answers, or, before the check, whether there is a slot for it. */
  datatype Action =
    | Begin(scopes: seq<Scope>)
    | Peek(scope: Scope)
    | Act(j: nat, ok: bool, outcome: Outcome)

  function Lives(s: State, scope: Scope): seq<int> {
    if scope in s.lives then s.lives[scope] else []
  }

  /** The counter's current life. */
  function Life(s: State, scope: Scope): nat { |Lives(s, scope)| }

  /** Time moves: locks that have run out are an amnesty for their scopes. */
  function Tick(s: State, now: int): State {
    s.(clock := now, amnesty := s.amnesty + set x | x in s.standing && s.standing[x] <= now)
  }

  function Put(s: State, j: nat, u: Submit): State
    requires j < |s.submits|
  {
    s.(submits := s.submits[j := u])
  }

  function Pardon(s: State, scope: Scope): State {
    s.(amnesty := s.amnesty + {scope})
  }

  /** A scope the roster failed, or cleared after a sign-in. */
  function Forgive(s: State, scope: Scope): State {
    s.(amnesty := s.amnesty + {scope}, forgiven := s.forgiven + {scope})
  }

  function SetLock(c: Config, s: State, scope: Scope): State {
    s.(book := Lock(s.book, scope, s.clock, c.lock), standing := s.standing[scope := s.clock + c.lock],
       amnesty := s.amnesty + if c.lock > 0 then {} else {scope})
  }

  /** Whether the next attempt finds a counter that went quiet. */
  predicate Lapsed(s: State, scope: Scope) {
    scope in s.book.fails && s.clock > s.book.fails[scope].until
  }

  /** The lives of a counter once an attempt was counted as number n. */
  function Lived(s: State, scope: Scope, n: nat): seq<int> {
    if n != 1 then Lives(s, scope)
    else if !Lapsed(s, scope) && scope in s.standing then Lives(s, scope) + [s.standing[scope]]
    else Lives(s, scope) + [s.clock]
  }

  function Count(c: Config, s: State, j: nat, i: nat): State
    requires j < |s.submits| && i < |s.submits[j].scopes| == |s.submits[j].counts|
  {
    var u := s.submits[j];
    var scope := u.scopes[i];
    var (book, n) := Fail(s.book, scope, s.clock, c.window);
    var lives := Lived(s, scope, n);
    var u' := u.(counts := u.counts[i := n], tickets := u.tickets[scope := Ticket(|lives|, n, s.clock)],
                 seen := u.seen - {scope}, over := u.over || n > c.attempts,
                 stage := if n > c.attempts then Locking(i) else Reading(i));
    var s' := Put(s.(book := book, lives := s.lives[scope := lives]), j, u');
    if Lapsed(s, scope) then Pardon(s', scope) else s'
  }

  /** reserve is through: refused, on to the password check, or turned away for want of a slot. */
  function EndCount(s: State, j: nat, slot: bool): State
    requires j < |s.submits|
  {
    var u := s.submits[j];
    Put(s, j, if u.over then u.(stage := Refused)
              else if !slot then u.(stage := Done)
              else u.(stage := Checking, checked := true, checkedAt := s.clock))
  }

  function LockOver(c: Config, s: State, j: nat, i: nat, ok: bool): State
    requires j < |s.submits| && i < |s.submits[j].scopes|
  {
    var u := s.submits[j];
    var s' := Put(s, j, u.(stage := Counting(i + 1)));
    if ok then SetLock(c, s', u.scopes[i]) else Forgive(s', u.scopes[i])
  }

  function ReadLock(s: State, j: nat, i: nat, ok: bool): State
    requires j < |s.submits| && i < |s.submits[j].scopes|
  {
    var u := s.submits[j];
    if ok then
      var (book, left) := LockedFor(s.book, u.scopes[i], s.clock);
      Put(s.(book := book), j, u.(over := u.over || left > 0, seen := u.seen[u.scopes[i] := s.clock],
                                  stage := Counting(i + 1)))
    else Forgive(Put(s, j, u.(stage := Counting(i + 1))), u.scopes[i])
  }

  function LockSpent(c: Config, s: State, j: nat, i: nat, ok: bool): State
    requires j < |s.submits| && i < |s.submits[j].scopes| == |s.submits[j].counts|
  {
    var u := s.submits[j];
    var s' := Put(s, j, u.(stage := Rejecting(i + 1)));
    if c.attempts == 0 || u.counts[i] < c.attempts then s'
    else if ok then SetLock(c, s', u.scopes[i])
    else Forgive(s', u.scopes[i])
  }

  function ClearScope(s: State, j: nat, i: nat, ok: bool): State
    requires j < |s.submits| && i < |s.submits[j].scopes|
  {
    var u := s.submits[j];
    var s' := Put(s, j, u.(stage := Clearing(i + 1)));
    if !ok then s'
    else
      var scope := u.scopes[i];
      Forgive(s'.(book := Clear(s.book, scope), standing := s.standing - {scope}), scope)
  }

  function Finish(s: State, j: nat): State
    requires j < |s.submits|
  {
    Put(s, j, s.submits[j].(stage := Done))
  }

  function EndCheck(s: State, j: nat, outcome: Outcome): State
    requires j < |s.submits|
  {
    var next := if outcome == Accept then Clearing(0) else if outcome == Reject then Rejecting(0) else Done;
    Put(s, j, s.submits[j].(stage := next))
  }

  function ActOf(c: Config, s: State, j: nat, ok: bool, outcome: Outcome): State
    requires j < |s.submits| && |s.submits[j].counts| == |s.submits[j].scopes|
  {
    var n := |s.submits[j].scopes|;
    match s.submits[j].stage
    case Counting(i) =>
      if i >= n then EndCount(s, j, ok)
      else if ok then Count(c, s, j, i)
      else Forgive(Put(s, j, s.submits[j].(stage := Counting(i + 1))), s.submits[j].scopes[i])
    case Locking(i) => if i < n then LockOver(c, s, j, i, ok) else s
    case Reading(i) => if i < n then ReadLock(s, j, i, ok) else s
    case Checking => EndCheck(s, j, outcome)
    case Rejecting(i) => if i < n then LockSpent(c, s, j, i, ok) else Finish(s, j)
    case Clearing(i) => if i < n then ClearScope(s, j, i, ok) else Finish(s, j)
    case Refused => s
    case Done => s
  }

  /** A submit at reserve: without a lockout that is over at once. */
  function Begun(c: Config, scopes: seq<Scope>): Submit {
    Submit(scopes, Counting(if c.attempts == 0 then |scopes| else 0), seq(|scopes|, _ => 0), false, false, 0,
           map[], map[])
  }

  function Step(c: Config, s: State, a: Action): State {
    match a
    case Begin(scopes) => s.(submits := s.submits + [Begun(c, scopes)])
    case Peek(scope) => s.(book := LockedFor(s.book, scope, s.clock).0)
    case Act(j, ok, outcome) =>
      if j < |s.submits| && |s.submits[j].counts| == |s.submits[j].scopes| then ActOf(c, s, j, ok, outcome) else s
  }

  const START := State(Empty(), 0, [], map[], map[], {}, {})

  /** Action a at time now; a clock never goes back. */
  function StepAt(c: Config, s: State, event: (int, Action)): State {
    var (now, a) := event;
    Step(c, Tick(s, if now < s.clock then s.clock else now), a)
  }

  function Run(c: Config, events: seq<(int, Action)>): State {
    if events == [] then START
    else StepAt(c, Run(c, events[..|events| - 1]), events[|events| - 1])
  }

  // What every run keeps, for one scope x.

  /** Tickets of one life carry different numbers, and none above the running count. */
  ghost predicate Numbered(s: State, x: Scope) {
    && (x in s.book.fails ==> s.book.fails[x].n > 0 && Life(s, x) > 0)
    && (forall j | 0 <= j < |s.submits| && x in s.submits[j].tickets ::
          var t := s.submits[j].tickets[x];
          && 0 < t.n && 0 < t.life <= Life(s, x)
          && (t.life == Life(s, x) && x in s.book.fails ==> t.n <= s.book.fails[x].n))
    && (forall j, k | 0 <= j < k < |s.submits| && x in s.submits[j].tickets && x in s.submits[k].tickets ::
          s.submits[j].tickets[x].life == s.submits[k].tickets[x].life ==>
            s.submits[j].tickets[x].n != s.submits[k].tickets[x].n)
  }

  /** Whoever was counted above the limit is over, and nobody who is over gets a check. */
  ghost predicate Strict(c: Config, s: State, x: Scope) {
    forall j | 0 <= j < |s.submits| ::
      var u := s.submits[j];
      && |u.counts| == |u.scopes|
      && (x in u.tickets && u.tickets[x].n > c.attempts ==> u.over)
      && (u.checked ==> !u.over)
      && (u.stage.Counting? || u.stage.Locking? || u.stage.Reading? || u.stage.Refused? ==> !u.checked)
  }

  /** How many of a submit's scopes it has been through. */
  function Progress(u: Submit): nat {
    match u.stage
    case Counting(i) => i
    case Locking(i) => i + 1
    case Reading(i) => i + 1
    case _ => |u.scopes|
  }

  /** Without an amnesty: a spent counter has its lock standing, and whoever was counted in a later
      life is over, or is about to read that lock. */
  ghost predicate Locked(s: State, x: Scope) {
    x !in s.amnesty ==>
      && (x in s.standing ==> s.standing[x] > s.clock && x in s.book.locks && s.book.locks[x] == s.standing[x])
      && (Life(s, x) > 1 || (Life(s, x) == 1 && x !in s.book.fails) ==> x in s.standing)
      && forall j | 0 <= j < |s.submits| ::
           var u := s.submits[j];
           && (forall i | 0 <= i < |u.scopes| && i < Progress(u) && u.scopes[i] == x :: x in u.tickets)
           && (x in u.tickets && u.tickets[x].life > 1 && !u.over ==>
                 u.stage.Reading? && u.stage.i < |u.scopes| && u.scopes[u.stage.i] == x)
  }

  ghost predicate Kept(c: Config, s: State, x: Scope) {
    Numbered(s, x) && Strict(c, s, x) && Locked(s, x) && Meets(s, x)
  }

  /** A lock set, not cleared and not run out is in the roster, amnesty or not. */
  ghost predicate Meets(s: State, x: Scope) {
    x in s.standing && s.standing[x] > s.clock ==> x in s.book.locks && s.book.locks[x] == s.standing[x]
  }

  lemma TickKept(c: Config, s: State, now: int, x: Scope)
    requires Kept(c, s, x) && s.clock <= now
    ensures Kept(c, Tick(s, now), x)
  {
  }

  /** Steps that count nothing leave tickets and lives alone, and at most drop the counter. */
  ghost predicate SameTickets(s: State, s': State, x: Scope) {
    && |s'.submits| == |s.submits| && Life(s', x) == Life(s, x)
    && (forall j | 0 <= j < |s.submits| ::
          var t, t' := s.submits[j].tickets, s'.submits[j].tickets;
          (x in t' <==> x in t) && (x in t' ==> t'[x] == t[x]))
    && (x in s'.book.fails ==> x in s.book.fails && s'.book.fails[x] == s.book.fails[x])
  }

  lemma NumberedKept(s: State, s': State, x: Scope)
    requires Numbered(s, x) && SameTickets(s, s', x)
    ensures Numbered(s', x)
  {
  }

  lemma CountNumbered(c: Config, s: State, j: nat, i: nat, x: Scope)
    requires Numbered(s, x) && j < |s.submits| && i < |s.submits[j].scopes| == |s.submits[j].counts|
    ensures Numbered(Count(c, s, j, i), x)
  {
    var scope := s.submits[j].scopes[i];
    var s' := Count(c, s, j, i);
    if scope == x {
      var t := s'.submits[j].tickets[x];
      forall k | 0 <= k < |s.submits| && k != j && x in s.submits[k].tickets
        ensures s.submits[k].tickets[x].life == t.life ==> s.submits[k].tickets[x].n < t.n
      {
      }
    } else {
      NumberedKept(s, s', x);
    }
  }

  lemma CountStrict(c: Config, s: State, j: nat, i: nat, x: Scope)
    requires Strict(c, s, x) && j < |s.submits| && i < |s.submits[j].scopes| && s.submits[j].stage == Counting(i)
    ensures Strict(c, Count(c, s, j, i), x)
  {
  }

  lemma CountLocked(c: Config, s: State, j: nat, i: nat, x: Scope)
    requires Locked(s, x) && Numbered(s, x) && Strict(c, s, x) && j < |s.submits|
    requires i < |s.submits[j].scopes| && s.submits[j].stage == Counting(i)
    ensures Locked(Count(c, s, j, i), x)
  {
    if s.submits[j].scopes[i] == x { CountLocksOwn(c, s, j, i, x); } else { CountLocksOther(c, s, j, i, x); }
    hide Locked, Numbered, Strict, Count;
  }

  lemma CountLocksOwn(c: Config, s: State, j: nat, i: nat, x: Scope)
    requires Locked(s, x) && Numbered(s, x) && Strict(c, s, x) && j < |s.submits|
    requires i < |s.submits[j].scopes| && s.submits[j].stage == Counting(i) && s.submits[j].scopes[i] == x
    ensures Locked(Count(c, s, j, i), x)
  {
    var s' := Count(c, s, j, i);
    if x !in s'.amnesty {
      assert Life(s', x) > 1 ==> x in s.standing;
    }
  }

  lemma CountLocksOther(c: Config, s: State, j: nat, i: nat, x: Scope)
    requires Locked(s, x) && Strict(c, s, x) && j < |s.submits|
    requires i < |s.submits[j].scopes| && s.submits[j].stage == Counting(i) && s.submits[j].scopes[i] != x
    ensures Locked(Count(c, s, j, i), x)
  {
    hide Lived;
    var s' := Count(c, s, j, i);
    if x !in s'.amnesty {
      assert Life(s', x) == Life(s, x) && (x in s'.book.fails <==> x in s.book.fails);
    }
  }

  lemma CountKept(c: Config, s: State, j: nat, i: nat, x: Scope)
    requires Kept(c, s, x) && j < |s.submits| && i < |s.submits[j].scopes| && s.submits[j].stage == Counting(i)
    ensures Kept(c, Count(c, s, j, i), x)
  {
    CountNumbered(c, s, j, i, x);
    CountStrict(c, s, j, i, x);
    CountLocked(c, s, j, i, x);
    assert Meets(Count(c, s, j, i), x);
    hide Numbered, Strict, Locked, Count, Meets;
  }

  lemma SkipKept(c: Config, s: State, j: nat, i: nat, x: Scope)
    requires Kept(c, s, x) && j < |s.submits| && i < |s.submits[j].scopes| && s.submits[j].stage == Counting(i)
    ensures Kept(c, Forgive(Put(s, j, s.submits[j].(stage := Counting(i + 1))), s.submits[j].scopes[i]), x)
  {
    NumberedKept(s, Forgive(Put(s, j, s.submits[j].(stage := Counting(i + 1))), s.submits[j].scopes[i]), x);
  }

  lemma EndCountKept(c: Config, s: State, j: nat, slot: bool, x: Scope)
    requires Kept(c, s, x) && j < |s.submits| && s.submits[j].stage.Counting?
    requires s.submits[j].stage.i >= |s.submits[j].scopes|
    ensures Kept(c, EndCount(s, j, slot), x)
  {
    NumberedKept(s, EndCount(s, j, slot), x);
  }

  /** From setting a lock on to the next scope. */
  lemma AdvanceKept(c: Config, s: State, j: nat, i: nat, x: Scope)
    requires Kept(c, s, x) && j < |s.submits| && s.submits[j].stage == Locking(i)
    ensures Kept(c, Put(s, j, s.submits[j].(stage := Counting(i + 1))), x)
  {
    NumberedKept(s, Put(s, j, s.submits[j].(stage := Counting(i + 1))), x);
  }

  lemma LockOverKept(c: Config, s: State, j: nat, i: nat, ok: bool, x: Scope)
    requires Kept(c, s, x) && j < |s.submits| && i < |s.submits[j].scopes| && s.submits[j].stage == Locking(i)
    ensures Kept(c, LockOver(c, s, j, i, ok), x)
  {
    hide Kept, SetLock, Forgive;
    var u := s.submits[j];
    var s' := Put(s, j, u.(stage := Counting(i + 1)));
    AdvanceKept(c, s, j, i, x);
    if ok { SetLockKept(c, s', u.scopes[i], x); } else { ForgiveKept(c, s', u.scopes[i], x); }
  }

  /** A submit has read its lock. */
  lemma ReadKept(c: Config, s: State, j: nat, i: nat, locked: bool, x: Scope)
    requires Kept(c, s, x) && j < |s.submits| && i < |s.submits[j].scopes| && s.submits[j].stage == Reading(i)
    requires s.submits[j].scopes[i] in s.standing && s.standing[s.submits[j].scopes[i]] > s.clock ==>
               locked || s.submits[j].scopes[i] != x
    ensures var u := s.submits[j];
            Kept(c, Put(s, j, u.(over := u.over || locked, seen := u.seen[u.scopes[i] := s.clock],
                                 stage := Counting(i + 1))), x)
  {
    var u := s.submits[j];
    NumberedKept(s, Put(s, j, u.(over := u.over || locked, seen := u.seen[u.scopes[i] := s.clock],
                                 stage := Counting(i + 1))), x);
  }

  lemma ReadLockKept(c: Config, s: State, j: nat, i: nat, ok: bool, x: Scope)
    requires Kept(c, s, x) && j < |s.submits| && i < |s.submits[j].scopes| && s.submits[j].stage == Reading(i)
    ensures Kept(c, ReadLock(s, j, i, ok), x)
  {
    var scope := s.submits[j].scopes[i];
    var (book, left) := LockedFor(s.book, scope, s.clock);
    if ok {
      PeekKept(c, s, scope, x);
      assert scope == x && x in s.standing && s.standing[x] > s.clock ==> left > 0;
      ReadKept(c, s.(book := book), j, i, left > 0, x);
    } else {
      UnreadKept(c, s, j, i, x);
    }
    hide Kept;
  }

  lemma UnreadKept(c: Config, s: State, j: nat, i: nat, x: Scope)
    requires Kept(c, s, x) && j < |s.submits| && i < |s.submits[j].scopes| && s.submits[j].stage == Reading(i)
    ensures Kept(c, Forgive(Put(s, j, s.submits[j].(stage := Counting(i + 1))), s.submits[j].scopes[i]), x)
  {
    NumberedKept(s, Forgive(Put(s, j, s.submits[j].(stage := Counting(i + 1))), s.submits[j].scopes[i]), x);
  }

  lemma LockSpentKept(c: Config, s: State, j: nat, i: nat, ok: bool, x: Scope)
    requires Kept(c, s, x) && j < |s.submits| && i < |s.submits[j].scopes| && s.submits[j].stage == Rejecting(i)
    ensures Kept(c, LockSpent(c, s, j, i, ok), x)
  {
    var u := s.submits[j];
    var s' := Put(s, j, u.(stage := Rejecting(i + 1)));
    EndKept(c, s, j, Rejecting(i + 1), x);
    if c.attempts > 0 && u.counts[i] >= c.attempts {
      if ok { SetLockKept(c, s', u.scopes[i], x); } else { ForgiveKept(c, s', u.scopes[i], x); }
    }
    hide Kept;
  }

  lemma SetLockKept(c: Config, s: State, scope: Scope, x: Scope)
    requires Kept(c, s, x)
    ensures Kept(c, SetLock(c, s, scope), x)
  {
    NumberedKept(s, SetLock(c, s, scope), x);
  }

  lemma ForgiveKept(c: Config, s: State, scope: Scope, x: Scope)
    requires Kept(c, s, x)
    ensures Kept(c, Forgive(s, scope), x)
  {
    NumberedKept(s, Forgive(s, scope), x);
  }

  lemma ClearedKept(c: Config, s: State, scope: Scope, x: Scope)
    requires Kept(c, s, x)
    ensures Kept(c, Forgive(s.(book := Clear(s.book, scope), standing := s.standing - {scope}), scope), x)
  {
    NumberedKept(s, Forgive(s.(book := Clear(s.book, scope), standing := s.standing - {scope}), scope), x);
  }

  lemma ClearScopeKept(c: Config, s: State, j: nat, i: nat, ok: bool, x: Scope)
    requires Kept(c, s, x) && j < |s.submits| && i < |s.submits[j].scopes| && s.submits[j].stage == Clearing(i)
    ensures Kept(c, ClearScope(s, j, i, ok), x)
  {
    hide Kept, Forgive, Clear;
    EndKept(c, s, j, Clearing(i + 1), x);
    ClearedKept(c, Put(s, j, s.submits[j].(stage := Clearing(i + 1))), s.submits[j].scopes[i], x);
  }

  lemma EndKept(c: Config, s: State, j: nat, stage: Stage, x: Scope)
    requires Kept(c, s, x) && j < |s.submits|
    requires s.submits[j].stage.Checking? || s.submits[j].stage.Rejecting? || s.submits[j].stage.Clearing?
    requires stage.Rejecting? || stage.Clearing? || stage.Done?
    ensures Kept(c, Put(s, j, s.submits[j].(stage := stage)), x)
  {
    NumberedKept(s, Put(s, j, s.submits[j].(stage := stage)), x);
  }

  lemma ActKept(c: Config, s: State, j: nat, ok: bool, outcome: Outcome, x: Scope)
    requires Kept(c, s, x) && j < |s.submits| && |s.submits[j].counts| == |s.submits[j].scopes|
    ensures Kept(c, ActOf(c, s, j, ok, outcome), x)
  {
    hide Kept, Count, LockOver, ReadLock, LockSpent, ClearScope, EndCount;
    var n := |s.submits[j].scopes|;
    match s.submits[j].stage
    case Counting(i) =>
      if i >= n { EndCountKept(c, s, j, ok, x); }
      else if ok { CountKept(c, s, j, i, x); }
      else { SkipKept(c, s, j, i, x); }
    case Locking(i) => if i < n { LockOverKept(c, s, j, i, ok, x); }
    case Reading(i) => if i < n { ReadLockKept(c, s, j, i, ok, x); }
    case Checking => EndKept(c, s, j, EndCheck(s, j, outcome).submits[j].stage, x);
    case Rejecting(i) => if i < n { LockSpentKept(c, s, j, i, ok, x); } else { EndKept(c, s, j, Done, x); }
    case Clearing(i) => if i < n { ClearScopeKept(c, s, j, i, ok, x); } else { EndKept(c, s, j, Done, x); }
    case Refused =>
    case Done =>
  }

  lemma BeginKept(c: Config, s: State, scopes: seq<Scope>, x: Scope)
    requires c.attempts > 0 && Kept(c, s, x)
    ensures Kept(c, Step(c, s, Begin(scopes)), x)
  {
  }

  lemma PeekKept(c: Config, s: State, scope: Scope, x: Scope)
    requires Kept(c, s, x)
    ensures Kept(c, Step(c, s, Peek(scope)), x)
  {
    NumberedKept(s, Step(c, s, Peek(scope)), x);
  }

  lemma StepKept(c: Config, s: State, event: (int, Action), x: Scope)
    requires c.attempts > 0 && Kept(c, s, x)
    ensures Kept(c, StepAt(c, s, event), x)
  {
    hide Kept, ActOf;
    var (now, a) := event;
    var now' := if now < s.clock then s.clock else now;
    TickKept(c, s, now', x);
    var t := Tick(s, now');
    match a
    case Begin(scopes) => BeginKept(c, t, scopes, x);
    case Peek(scope) => PeekKept(c, t, scope, x);
    case Act(j, ok, outcome) =>
      if j < |t.submits| && |t.submits[j].counts| == |t.submits[j].scopes| { ActKept(c, t, j, ok, outcome, x); }
  }

  lemma {:induction false} RunKept(c: Config, events: seq<(int, Action)>, x: Scope)
    requires c.attempts > 0
    ensures Kept(c, Run(c, events), x)
  {
    if events != [] {
      hide Kept, StepAt;
      RunKept(c, events[..|events| - 1], x);
      StepKept(c, Run(c, events[..|events| - 1]), events[|events| - 1], x);
    }
  }

  // Guesses.

  /** The submits that reached the password check having been counted in one life of x. */
  ghost function CheckedIn(s: State, x: Scope, life: nat): set<nat> {
    set j: nat | j < |s.submits| && s.submits[j].checked
                 && x in s.submits[j].tickets && s.submits[j].tickets[x].life == life
  }

  /** The submits that reached the password check at all, with x among their scopes. */
  ghost function CheckedFor(s: State, x: Scope): set<nat> {
    set j: nat | j < |s.submits| && s.submits[j].checked && x in s.submits[j].scopes
  }

  /** A set that can be numbered within 1..n has at most n members. */
  lemma {:induction false} Pigeonhole(js: set<nat>, number: nat -> nat, n: nat)
    requires forall j | j in js :: 0 < number(j) <= n
    requires forall j, k | j in js && k in js && j != k :: number(j) != number(k)
    ensures |js| <= n
    decreases n
  {
    if j :| j in js && number(j) == n {
      Pigeonhole(js - {j}, number, n - 1);
    } else if n > 0 {
      Pigeonhole(js, number, n - 1);
    } else {
      assert js == {};
    }
  }

  /** Over every interleaving one life of a counter admits at most as many checks as the limit says. */
  lemma GuessesPerLife(c: Config, events: seq<(int, Action)>, x: Scope, life: nat)
    requires c.attempts > 0
    ensures |CheckedIn(Run(c, events), x, life)| <= c.attempts
  {
    var s := Run(c, events);
    RunKept(c, events, x);
    var js := CheckedIn(s, x, life);
    var number: nat -> nat :=
      (j: nat) => if j < |s.submits| && x in s.submits[j].tickets then s.submits[j].tickets[x].n else 0;
    forall j | j in js ensures 0 < number(j) <= c.attempts {
    }
    forall j, k | j in js && k in js && j != k ensures number(j) != number(k) {
      if j < k { } else { }
    }
    Pigeonhole(js, number, c.attempts);
  }

  /** As long as x got no amnesty — no successful sign-in cleared it, its counter did not go quiet for
      a whole window, no lock of it ran out, the roster answered — all submits together got no more
      checks than the limit, however many ran in parallel. */
  lemma ParallelSubmitsBuyNothing(c: Config, events: seq<(int, Action)>, x: Scope)
    requires c.attempts > 0 && x !in Run(c, events).amnesty
    ensures |CheckedFor(Run(c, events), x)| <= c.attempts
  {
    var s := Run(c, events);
    RunKept(c, events, x);
    GuessesPerLife(c, events, x, 1);
    forall j | j in CheckedFor(s, x) ensures j in CheckedIn(s, x, 1) {
      var u := s.submits[j];
      var i :| 0 <= i < |u.scopes| && u.scopes[i] == x;
      assert x in u.tickets;
    }
    assert CheckedFor(s, x) <= CheckedIn(s, x, 1);
    SubsetSize(CheckedFor(s, x), CheckedIn(s, x, 1));
  }

  lemma {:induction false} SubsetSize(a: set<nat>, b: set<nat>)
    requires a <= b
    ensures |a| <= |b|
  {
    assert b == a + (b - a);
  }

  // A lock, once met, is final.

  /** A submit that reads a standing lock before it runs out is over. */
  lemma StandingLockIsMet(c: Config, events: seq<(int, Action)>, now: int, j: nat, i: nat)
    requires c.attempts > 0
    requires var s := Tick(Run(c, events), now);
             && Run(c, events).clock <= now
             && j < |s.submits| && s.submits[j].stage == Reading(i) && i < |s.submits[j].scopes|
             && s.submits[j].scopes[i] in s.standing && s.standing[s.submits[j].scopes[i]] > now
    ensures ReadLock(Tick(Run(c, events), now), j, i, true).submits[j].over
  {
    var s := Tick(Run(c, events), now);
    var x := s.submits[j].scopes[i];
    RunKept(c, events, x);
    TickKept(c, Run(c, events), now, x);
  }

  /** s' is s with submit k changed, and not from over to not over. */
  ghost predicate KeepsOver(s: State, s': State, k: nat)
    requires k < |s.submits|
  {
    && |s'.submits| == |s.submits|
    && (forall i | 0 <= i < |s.submits| && i != k :: s'.submits[i] == s.submits[i])
    && (s.submits[k].over ==> s'.submits[k].over)
  }

  lemma StagesKeepOver(c: Config, s: State, k: nat, i: nat, ok: bool)
    requires k < |s.submits| && i < |s.submits[k].scopes| == |s.submits[k].counts|
    ensures KeepsOver(s, LockOver(c, s, k, i, ok), k) && KeepsOver(s, LockSpent(c, s, k, i, ok), k)
    ensures KeepsOver(s, ClearScope(s, k, i, ok), k)
  {
    hide Lock, Clear;
  }

  lemma LoopKeepsOver(c: Config, s: State, k: nat, i: nat, ok: bool)
    requires k < |s.submits| && i < |s.submits[k].scopes| == |s.submits[k].counts|
    ensures KeepsOver(s, Count(c, s, k, i), k) && KeepsOver(s, ReadLock(s, k, i, ok), k)
  {
    hide Fail, LockedFor;
  }

  lemma ActKeepsOver(c: Config, s: State, k: nat, ok: bool, outcome: Outcome)
    requires k < |s.submits| && |s.submits[k].counts| == |s.submits[k].scopes|
    ensures KeepsOver(s, ActOf(c, s, k, ok, outcome), k)
  {
    var u := s.submits[k];
    if (u.stage.Counting? || u.stage.Locking? || u.stage.Reading? || u.stage.Rejecting? || u.stage.Clearing?)
       && u.stage.i < |u.scopes| {
      StagesKeepOver(c, s, k, u.stage.i, ok);
      LoopKeepsOver(c, s, k, u.stage.i, ok);
    }
    hide Count, LockOver, ReadLock, LockSpent, ClearScope;
  }

  lemma StaysOver(c: Config, s: State, event: (int, Action), j: nat)
    requires j < |s.submits| && s.submits[j].over
    ensures j < |StepAt(c, s, event).submits| && StepAt(c, s, event).submits[j].over
  {
    hide ActOf, LockedFor;
    var (now, a) := event;
    var t := Tick(s, if now < s.clock then s.clock else now);
    if a.Act? && a.j < |t.submits| && |t.submits[a.j].counts| == |t.submits[a.j].scopes| {
      ActKeepsOver(c, t, a.j, a.ok, a.outcome);
    }
  }

  /** Whoever is over stays over, and never gets a password check. */
  lemma {:induction false} OverForGood(c: Config, events: seq<(int, Action)>, more: seq<(int, Action)>, j: nat)
    requires c.attempts > 0 && j < |Run(c, events).submits| && Run(c, events).submits[j].over
    ensures var s := Run(c, events + more);
            j < |s.submits| && s.submits[j].over && !s.submits[j].checked
  {
    hide StepAt;
    var all := events + more;
    if more == [] {
      assert all == events;
    } else {
      OverForGood(c, events, more[..|more| - 1], j);
      assert all[..|all| - 1] == events + more[..|more| - 1];
      StaysOver(c, Run(c, all[..|all| - 1]), all[|all| - 1], j);
    }
    RunKept(c, all, Ip("", ""));
    hide Numbered, Locked, Meets, Run;
    StrictMeans(c, Run(c, all), j);
  }

  lemma StrictMeans(c: Config, s: State, j: nat)
    requires Strict(c, s, Ip("", "")) && j < |s.submits| && s.submits[j].over
    ensures !s.submits[j].checked
  {
  }

  // Without a lockout.

  /** Not refused; who was not checked is still to be, or found no slot. */
  predicate Free(u: Submit) {
    && !u.over && (u.stage.Counting? ==> u.stage.i >= |u.scopes|)
    && !u.stage.Locking? && !u.stage.Reading? && !u.stage.Refused?
    && (u.checked || u.stage.Counting? || u.stage.Done?)
  }

  /** Nothing is counted, nothing locked, and nobody refused. */
  ghost predicate Open(s: State) {
    && s.book.fails == map[] && s.book.locks == map[]
    && forall j | 0 <= j < |s.submits| :: Free(s.submits[j])
  }

  lemma FreeStaysOpen(s: State, s': State, j: nat)
    requires Open(s) && j < |s.submits| && s'.book.fails == map[] && s'.book.locks == map[]
    requires exists u :: s'.submits == s.submits[j := u] && Free(u)
    ensures Open(s')
  {
  }

  lemma ClearStaysOpen(s: State, j: nat, i: nat, ok: bool)
    requires Open(s) && j < |s.submits| && s.submits[j].stage == Clearing(i) && i < |s.submits[j].scopes|
    ensures Open(ClearScope(s, j, i, ok))
  {
    var s', scope := ClearScope(s, j, i, ok), s.submits[j].scopes[i];
    assert s.book.fails - {scope} == map[] && s.book.locks - {scope} == map[];
    assert s'.submits == s.submits[j := s'.submits[j]] && Free(s'.submits[j]);
    FreeStaysOpen(s, s', j);
  }

  lemma SpentStaysOpen(c: Config, s: State, j: nat, i: nat, ok: bool)
    requires c.attempts == 0 && Open(s) && j < |s.submits| && s.submits[j].stage == Rejecting(i)
    requires i < |s.submits[j].scopes| == |s.submits[j].counts|
    ensures Open(LockSpent(c, s, j, i, ok))
  {
    hide SetLock, Forgive;
    var s' := LockSpent(c, s, j, i, ok);
    assert s'.submits == s.submits[j := s'.submits[j]] && Free(s'.submits[j]);
    FreeStaysOpen(s, s', j);
  }

  lemma ActStaysOpen(c: Config, s: State, j: nat, ok: bool, outcome: Outcome)
    requires c.attempts == 0 && Open(s) && j < |s.submits| && |s.submits[j].counts| == |s.submits[j].scopes|
    ensures Open(ActOf(c, s, j, ok, outcome))
    ensures s.submits[j].stage.Counting? && ok ==> ActOf(c, s, j, ok, outcome).submits[j].checked
  {
    hide Count, LockOver, ReadLock, LockSpent, ClearScope;
    var s', stage := ActOf(c, s, j, ok, outcome), s.submits[j].stage;
    assert Free(s.submits[j]);
    if stage.Clearing? && stage.i < |s.submits[j].scopes| {
      ClearStaysOpen(s, j, stage.i, ok);
    } else if stage.Rejecting? && stage.i < |s.submits[j].scopes| {
      SpentStaysOpen(c, s, j, stage.i, ok);
    } else {
      assert s'.submits == s.submits[j := s'.submits[j]] && Free(s'.submits[j]);
      FreeStaysOpen(s, s', j);
    }
  }

  /** A configuration without attempts counts and locks nothing, and refuses nobody: whoever finds a slot
      gets the check. */
  lemma {:induction false} WithoutLockout(c: Config, events: seq<(int, Action)>)
    requires c.attempts == 0
    ensures Open(Run(c, events))
  {
    if events != [] {
      hide ActOf;
      WithoutLockout(c, events[..|events| - 1]);
      var s := Run(c, events[..|events| - 1]);
      var (now, a) := events[|events| - 1];
      var t := Tick(s, if now < s.clock then s.clock else now);
      if a.Act? && a.j < |t.submits| && |t.submits[a.j].counts| == |t.submits[a.j].scopes| {
        ActStaysOpen(c, t, a.j, a.ok, a.outcome);
      }
    }
  }
}
