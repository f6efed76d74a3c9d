/** One deployment from rest, whatever the reloads beside it do (internal/config/profiles.go,
    internal/desired/desired.go). */
module OneDeployment {
  import opened Deploy
  import opened Polling
  import opened Stale
  import opened Overlaps

  // Deployments during which no reload begins.

  /** What shows is nothing, or carries the fingerprint the store has; what loads changes nothing. */
  ghost predicate Dull<S(!new)>(w: World<S>, move: Move<S>, current: S, mark: string) {
    match move
    case Show(live) => live.Some? ==> w.stamp(live.value) == mark
    case Name(isLive) => isLive
    case Load(s, m) => s == current && m == mark
  }

  ghost predicate Asleep<S(!new)>(w: World<S>, s: State<S>, was: Tree, current: S, mark: string) {
    && (forall k | 0 <= k < |s.polls| :: s.polls[k].Idle?)
    && s.node.host.readsLive && s.node.host.current == current && s.mark == mark
    && (s.node.host.live.Some? ==> w.stamp(s.node.host.live.value) == mark)
    && (forall i | 0 <= i < |s.todo| :: Dull(w, s.todo[i], current, mark))
    && Played(s.node.host, s.todo).live == Some(was)
  }

  lemma StaysAsleep<S(!new)>(w: World<S>, s: State<S>, a: Action, was: Tree, current: S, mark: string)
    requires Asleep(w, s, was, current, mark) && !a.Begin?
    ensures Asleep(w, Next(w, s, a), was, current, mark)
  {
    if a.Reload? && a.k < |s.polls| {
      assert Turn(w, s.node.host, s.mark, s.polls[a.k]) == Idle;
    }
  }

  lemma {:induction false} SleepsOn<S(!new)>(w: World<S>, s: State<S>, acts: seq<Action>, was: Tree, current: S,
                                             mark: string)
    requires Asleep(w, s, was, current, mark) && Quiet(acts)
    ensures Asleep(w, Course(w, s, acts), was, current, mark)
  {
    if acts != [] {
      hide Asleep, Next;
      SleepsOn(w, s, acts[..|acts| - 1], was, current, mark);
      StaysAsleep(w, Course(w, s, acts[..|acts| - 1]), acts[|acts| - 1], was, current, mark);
    }
  }

  lemma AsleepIsCurrent<S(!new)>(w: World<S>, s: State<S>, was: Tree, current: S, mark: string)
    requires Asleep(w, s, was, current, mark) && s.todo == [] && w.parse(was) == Some(current)
    ensures Current(w, s.node.host)
  {
  }

  // Deployments that put a new tree there.

  function LiveAfter(was: Tree, next: Tree, n: nat): Option<Tree> {
    if n < 1 then Some(was) else if n < 2 then None else if n < 5 then Some(next) else if n < 6 then None else Some(was)
  }

  /** After n moves: what a reload has read so far. */
  ghost predicate Fits<S(!new)>(was: Tree, next: Tree, n: nat, right: S, p: Poll<S>) {
    match p
    case Sourced(fromLive, sources) =>
      fromLive && (sources == Sources(next) || (n >= 5 && (sources == map[] || sources == Sources(was))))
    case Both(fromLive, sources, others) =>
      var read := sources + others;
      fromLive && (read == next || (n >= 5 && (read == was || read in Readings(was, next))))
    case Ready(s, _) => s == right
    case _ => true
  }

  ghost predicate Beside<S(!new)>(w: World<S>, s: State<S>, moves: seq<Move<S>>, n: nat, was: Tree, next: Tree,
                                  right: S)
  {
    && n <= |moves| && s.todo == moves[n..]
    && s.node.host.readsLive && s.node.host.live == LiveAfter(was, next, n)
    && (n == |moves| || |moves| == 8 ==> s.node.host.current == right)
    && (n < 2 ==> s.mark == w.stamp(was) && forall k | 0 <= k < |s.polls| :: s.polls[k].Idle?)
    && forall k | 0 <= k < |s.polls| :: Fits(was, next, n, right, s.polls[k])
  }

  /** The moves of a deployment that succeeds, or that goes back; nothing that can be read says anything else
      than what is right at its end. */
  ghost predicate Benign<S(!new)>(w: World<S>, moves: seq<Move<S>>, was: Tree, next: Tree, right: S) {
    && (w.parse(next).Some? ==> w.parse(next).value == right)
    && if |moves| == 8 then
         && moves[7] in {Name(true), Load(right, w.stamp(was))} && moves == UnreadMoves(was, next, moves[7])
         && w.parse(was) == Some(right)
         && forall read | read in Readings(was, next) && w.parse(read).Some? :: w.parse(read).value == right
       else w.parse(next).Some? && moves == SmoothMoves(w, next)
  }

  lemma TurnFits<S(!new)>(w: World<S>, h: Host<S>, mark: string, p: Poll<S>, moves: seq<Move<S>>, n: nat, was: Tree,
                          next: Tree, right: S)
    requires Benign(w, moves, was, next, right) && n <= |moves| && Fits(was, next, n, right, p)
    requires h.readsLive && h.live == LiveAfter(was, next, n)
    requires n < 2 ==> p.Idle? && mark == w.stamp(was)
    ensures Fits(was, next, n, right, Turn(w, h, mark, p)) && (n < 2 ==> Turn(w, h, mark, p) == Idle)
  {
    Halves(was);
    Halves(next);
    assert map[] + Others(was) == Others(was);
  }

  lemma ReloadStaysBeside<S(!new)>(w: World<S>, s: State<S>, k: nat, fails: bool, moves: seq<Move<S>>, n: nat,
                                   was: Tree, next: Tree, right: S)
    requires Benign(w, moves, was, next, right) && Beside(w, s, moves, n, was, next, right)
    ensures Beside(w, Next(w, s, Reload(k, fails)), moves, n, was, next, right)
  {
    if k < |s.polls| { TurnFits(w, s.node.host, s.mark, s.polls[k], moves, n, was, next, right); }
    hide Turn, Benign, LiveAfter;
  }

  lemma MovePlays<S(!new)>(w: World<S>, h: Host<S>, moves: seq<Move<S>>, n: nat, was: Tree, next: Tree, right: S)
    requires Benign(w, moves, was, next, right) && n < |moves| && h.readsLive && h.live == LiveAfter(was, next, n)
    requires |moves| == 8 ==> h.current == right
    ensures var h' := Playing(h, moves[n]);
            && h'.readsLive && h'.live == LiveAfter(was, next, n + 1)
            && (n + 1 == |moves| || |moves| == 8 ==> h'.current == right)
    ensures n < 2 ==> !moves[n].Load?
  {
    hide Readings;
  }

  lemma FitsOn<S(!new)>(was: Tree, next: Tree, n: nat, right: S, p: Poll<S>)
    requires Fits(was, next, n, right, p)
    ensures Fits(was, next, n + 1, right, p)
  {
    hide Readings;
  }

  lemma AdvanceStaysBeside<S(!new)>(w: World<S>, s: State<S>, moves: seq<Move<S>>, n: nat, was: Tree, next: Tree,
                                    right: S)
    requires Benign(w, moves, was, next, right) && Beside(w, s, moves, n, was, next, right) && n < |moves|
    ensures Beside(w, Next(w, s, Advance), moves, n + 1, was, next, right)
  {
    hide Benign, Fits, LiveAfter;
    assert moves[n..][1..] == moves[n + 1..];
    MovePlays(w, s.node.host, moves, n, was, next, right);
    forall k | 0 <= k < |s.polls| ensures Fits(was, next, n + 1, right, s.polls[k]) {
      FitsOn(was, next, n, right, s.polls[k]);
    }
  }

  lemma {:induction false} RunsBeside<S(!new)>(w: World<S>, s: State<S>, acts: seq<Action>, moves: seq<Move<S>>,
                                               was: Tree, next: Tree, right: S)
    returns (n: nat)
    requires Benign(w, moves, was, next, right) && Beside(w, s, moves, 0, was, next, right) && Quiet(acts)
    ensures Beside(w, Course(w, s, acts), moves, n, was, next, right)
  {
    n := 0;
    if acts != [] {
      hide Benign, Fits, LiveAfter;
      n := RunsBeside(w, s, acts[..|acts| - 1], moves, was, next, right);
      var s', a := Course(w, s, acts[..|acts| - 1]), acts[|acts| - 1];
      if a.Reload? {
        ReloadStaysBeside(w, s', a.k, a.fails, moves, n, was, next, right);
      } else if s'.todo != [] {
        AdvanceStaysBeside(w, s', moves, n, was, next, right);
        n := n + 1;
      }
    }
  }

  lemma BesideIsCurrent<S(!new)>(w: World<S>, s: State<S>, moves: seq<Move<S>>, n: nat, was: Tree, next: Tree, right: S)
    requires Benign(w, moves, was, next, right) && Beside(w, s, moves, n, was, next, right) && s.todo == []
    ensures Current(w, s.node.host)
  {
  }

  // When one deployment can leave the store wrong.

  /** Beside the deployment the reloads can leave a store that does not say what its directory says. */
  ghost predicate CanBeSpoiled<S(!new)>(w: World<S>, s: State<S>, m: Manifest, f: Faults) {
    exists acts | Quiet(acts) :: Spoilt(w, Course(w, Next(w, s, Begin(m, f)), acts))
  }

  /** The same, and no reload will ever put that right. */
  ghost predicate CanBeLost<S(!new)>(w: World<S>, s: State<S>, m: Manifest, f: Faults) {
    exists acts | Quiet(acts) :: Lost(w, Course(w, Next(w, s, Begin(m, f)), acts))
  }

  /** The deployment is through, and the store is wrong. */
  ghost predicate Spoilt<S(!new)>(w: World<S>, s: State<S>) {
    s.todo == [] && !Current(w, s.node.host)
  }

  ghost predicate Lost<S(!new)>(w: World<S>, s: State<S>) {
    s.todo == [] && !CanMend(w, s)
  }

  lemma LostIsSpoilt<S(!new)>(w: World<S>, s: State<S>)
    requires Lost(w, s)
    ensures Spoilt(w, s)
  {
    var none: seq<Action> := [];
    assert Course(w, s, none) == s;
  }

  /** Something an overlapping reload may read says something else than the store does. */
  ghost predicate Misread<S(!new)>(w: World<S>, h: Host<S>, next: Tree)
    requires h.live.Some?
  {
    exists read | read in Readings(h.live.value, next) :: w.parse(read).Some? && w.parse(read).value != h.current
  }

  /** From rest a deployment whose way back works can leave the store wrong, for some timing of the reloads beside
      it, exactly when the new tree has another fingerprint, goes live but is not read, and the new tree itself,
      its sources with the old profiles, or the old profiles alone say something else than the store did; and
      then no later reload need put that right. A single deployment that succeeds is never spoiled. */
  lemma SpoiledExactly<S(!new)>(w: World<S>, s: State<S>, m: Manifest, f: Faults)
    requires AtRest(w, s) && Undoable(f)
    ensures CanBeSpoiled(w, s, m, f) <==>
            && s.node.status != Status(m.hash, m.rev, Ok) && Unread(s.node.host, w.parse, m, f)
            && w.stamp(TreeOf(m)) != s.mark && Misread(w, s.node.host, TreeOf(m))
    ensures CanBeLost(w, s, m, f) <==> CanBeSpoiled(w, s, m, f)
  {
    var h, next := s.node.host, TreeOf(m);
    hide Course, Next, TreeOf, CanMend;
    if && !Known(s.node.status, m) && Unread(h, w.parse, m, f) && w.stamp(next) != s.mark && Misread(w, h, next) {
      var read :| read in Readings(h.live.value, next) && w.parse(read).Some? && w.parse(read).value != h.current;
      var acts := OverlapMixes(w, s, m, f, read);
      assert Spoilt(w, Course(w, Next(w, s, Begin(m, f)), acts)) && Lost(w, Course(w, Next(w, s, Begin(m, f)), acts));
    } else {
      forall acts | Quiet(acts)
        ensures var s' := Course(w, Next(w, s, Begin(m, f)), acts); !Spoilt(w, s') && !Lost(w, s')
      {
        NotSpoiled(w, s, m, f, acts);
        if Lost(w, Course(w, Next(w, s, Begin(m, f)), acts)) {
          LostIsSpoilt(w, Course(w, Next(w, s, Begin(m, f)), acts));
        }
      }
    }
  }

  /** The moves of a deployment from rest. */
  lemma Shapes<S(!new)>(h: Host<S>, parse: Reader<S>, stamp: Stamp, m: Manifest, f: Faults)
    requires Undoable(f) && h.live.Some? && !Unread(h, parse, m, f)
    ensures var moves := Moves(h, parse, stamp, m, f);
            || moves == [] || moves == [Show(None), Show(h.live)]
            || (parse(TreeOf(m)).Some?
                && moves == [Show(None), Show(Some(TreeOf(m))), Name(true),
                             Load(parse(TreeOf(m)).value, stamp(TreeOf(m)))])
  {
    hide TreeOf;
    assert map[] + TreeOf(m) == TreeOf(m);
  }

  lemma NotSpoiled<S(!new)>(w: World<S>, s: State<S>, m: Manifest, f: Faults, acts: seq<Action>)
    requires AtRest(w, s) && Undoable(f) && Quiet(acts)
    requires Known(s.node.status, m) || !Unread(s.node.host, w.parse, m, f) || w.stamp(TreeOf(m)) == s.mark
             || !Misread(w, s.node.host, TreeOf(m))
    ensures !Spoilt(w, Course(w, Next(w, s, Begin(m, f)), acts))
  {
    hide TreeOf, Course, Applied, Moves, Spoilt, Misread, Unread;
    if Known(s.node.status, m) { NotAwake(w, s, s, [], acts); }
    else if Unread(s.node.host, w.parse, m, f) { UnreadNotSpoiled(w, s, m, f, acts); }
    else { ReadNotSpoiled(w, s, m, f, acts); }
  }

  lemma UnreadNotSpoiled<S(!new)>(w: World<S>, s: State<S>, m: Manifest, f: Faults, acts: seq<Action>)
    requires AtRest(w, s) && Quiet(acts) && !Known(s.node.status, m) && Unread(s.node.host, w.parse, m, f)
    requires w.stamp(TreeOf(m)) == s.mark || !Misread(w, s.node.host, TreeOf(m))
    ensures !Spoilt(w, Course(w, Next(w, s, Begin(m, f)), acts))
  {
    hide TreeOf, Course, Applied, Moves, Unread;
    var h, next, s0 := s.node.host, TreeOf(m), Next(w, s, Begin(m, f));
    var was, last := h.live.value, if f.reload then Name(true) else Load(h.current, s.mark);
    TheseMoves(h, w.parse, w.stamp, m, f);
    if w.stamp(next) == s.mark {
      UnreadEnds(s0.node.host, was, next, last);
      NotAwake(w, s, s0, UnreadMoves(was, next, last), acts);
    } else {
      NotBeside(w, s, s0, UnreadMoves(was, next, last), next, h.current, acts);
    }
  }

  lemma UnreadEnds<S(!new)>(h: Host<S>, was: Tree, next: Tree, last: Move<S>)
    requires !last.Show?
    ensures Played(h, UnreadMoves(was, next, last)).live == Some(was)
  {
    var first: seq<Move<S>> := [Show(None), Show(Some(next)), Name(true), Name(true), Show(None)];
    var rest := [Name(true), last];
    var g := Played(h, first);
    assert UnreadMoves(was, next, last) == first + ([Show(Some(was))] + rest);
    hide Played;
    PlayedJoin(h, first, [Show(Some(was))] + rest);
    OnePlay(g, Show(Some(was)), rest);
    PlayedTwo(Playing(g, Show(Some(was))), Name(true), last);
  }

  lemma ReadNotSpoiled<S(!new)>(w: World<S>, s: State<S>, m: Manifest, f: Faults, acts: seq<Action>)
    requires AtRest(w, s) && Undoable(f) && Quiet(acts) && !Known(s.node.status, m)
    requires !Unread(s.node.host, w.parse, m, f)
    ensures !Spoilt(w, Course(w, Next(w, s, Begin(m, f)), acts))
  {
    hide TreeOf, Course, Applied, Moves, Unread, Played;
    var h, next, s0 := s.node.host, TreeOf(m), Next(w, s, Begin(m, f));
    Shapes(h, w.parse, w.stamp, m, f);
    if |s0.todo| <= 2 {
      PlayedTwo(s0.node.host, Show(None), Show(h.live));
      NothingPlayed(s0.node.host);
      NotAwake(w, s, s0, s0.todo, acts);
    } else {
      NotBeside(w, s, s0, SmoothMoves(w, next), next, w.parse(next).value, acts);
    }
  }

  lemma NothingPlayed<S(!new)>(h: Host<S>)
    ensures Played(h, []) == h
  {
  }

  /** s0 is s with moves to make. */
  ghost predicate Starting<S(!new)>(s: State<S>, s0: State<S>, moves: seq<Move<S>>) {
    && s0.todo == moves && s0.polls == s.polls && s0.mark == s.mark
    && s0.node.host.live == s.node.host.live && s0.node.host.readsLive == s.node.host.readsLive
    && s0.node.host.current == s.node.host.current
  }

  lemma NotAwake<S(!new)>(w: World<S>, s: State<S>, s0: State<S>, moves: seq<Move<S>>, acts: seq<Action>)
    requires AtRest(w, s) && Starting(s, s0, moves) && Quiet(acts)
    requires forall i | 0 <= i < |moves| :: Dull(w, moves[i], s.node.host.current, s.mark)
    requires Played(s0.node.host, moves).live == s.node.host.live
    ensures !Spoilt(w, Course(w, s0, acts))
  {
    hide Course, Played, Dull;
    var h := s.node.host;
    SleepsOn(w, s0, acts, h.live.value, h.current, s.mark);
    if Course(w, s0, acts).todo == [] {
      AsleepIsCurrent(w, Course(w, s0, acts), h.live.value, h.current, s.mark);
    }
  }

  lemma NotBeside<S(!new)>(w: World<S>, s: State<S>, s0: State<S>, moves: seq<Move<S>>, next: Tree, right: S,
                           acts: seq<Action>)
    requires AtRest(w, s) && Starting(s, s0, moves) && Quiet(acts) && moves != []
    requires Benign(w, moves, s.node.host.live.value, next, right) && (|moves| == 8 ==> s.node.host.current == right)
    ensures !Spoilt(w, Course(w, s0, acts))
  {
    hide Course, Benign;
    var was := s.node.host.live.value;
    assert Beside(w, s0, moves, 0, was, next, right);
    var n := RunsBeside(w, s0, acts, moves, was, next, right);
    if Course(w, s0, acts).todo == [] { BesideIsCurrent(w, Course(w, s0, acts), moves, n, was, next, right); }
  }
}
