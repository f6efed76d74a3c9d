/** Reloads that overlap a deployment, run by run (internal/config/profiles.go, internal/desired/desired.go). */
module Overlaps {
  import opened Deploy
  import opened Polling
  import opened Stale

  /** A service at rest: it read what is live, and no reload is under way. */
  ghost predicate AtRest<S(!new)>(w: World<S>, s: State<S>) {
    && s.todo == [] && s.polls != [] && (forall k | 0 <= k < |s.polls| :: s.polls[k].Idle?)
    && s.node.host.live.Some? && s.node.host.readsLive
    && w.parse(s.node.host.live.value) == Some(s.node.host.current) && s.mark == w.stamp(s.node.host.live.value)
  }

  // How the node, the moves of a deployment and the first poll stand while the others are idle.

  datatype View<+S> = View(status: Status, live: Option<Tree>, current: S, mark: string, done: nat, poll: Poll<S>)

  ghost predicate Shows<S(!new)>(s: State<S>, moves: seq<Move<S>>, v: View<S>) {
    && s.node.status == v.status && s.node.host.live == v.live && s.node.host.readsLive
    && s.node.host.current == v.current && s.mark == v.mark
    && v.done <= |moves| && s.todo == moves[v.done..]
    && s.polls != [] && s.polls[0] == v.poll && forall k | 0 < k < |s.polls| :: s.polls[k].Idle?
  }

  function Advanced<S>(v: View<S>, move: Move<S>): View<S> {
    match move
    case Show(live) => v.(live := live, done := v.done + 1)
    case Name(_) => v.(done := v.done + 1)
    case Load(s, mark) => v.(current := s, mark := mark, done := v.done + 1)
  }

  /** The first poll goes on. */
  function Turned<S>(w: World<S>, v: View<S>): View<S> {
    var poll := Turn(w, Host(None, None, v.live, true, v.current), v.mark, v.poll);
    if v.poll.Ready? then v.(poll := poll, current := v.poll.s, mark := v.poll.mark) else v.(poll := poll)
  }

  lemma Extends<S(!new)>(w: World<S>, s: State<S>, acts: seq<Action>, a: Action)
    ensures Course(w, s, acts + [a]) == Next(w, Course(w, s, acts), a)
  {
    assert (acts + [a])[..|acts|] == acts;
  }

  lemma NextAdvanced<S(!new)>(w: World<S>, s: State<S>, moves: seq<Move<S>>, v: View<S>)
    requires Shows(s, moves, v) && v.done < |moves| && (moves[v.done].Name? ==> moves[v.done].isLive)
    ensures Shows(Next(w, s, Advance), moves, Advanced(v, moves[v.done]))
  {
    assert moves[v.done..][1..] == moves[v.done + 1..];
  }

  lemma NextTurned<S(!new)>(w: World<S>, s: State<S>, moves: seq<Move<S>>, v: View<S>)
    requires Shows(s, moves, v)
    ensures Shows(Next(w, s, Reload(0, false)), moves, Turned(w, v))
  {
  }

  /** The deployment makes its next move. */
  lemma Go<S(!new)>(w: World<S>, s: State<S>, acts: seq<Action>, moves: seq<Move<S>>, v: View<S>)
    returns (more: seq<Action>)
    requires Shows(Course(w, s, acts), moves, v) && Quiet(acts)
    requires v.done < |moves| && (moves[v.done].Name? ==> moves[v.done].isLive)
    ensures Shows(Course(w, s, more), moves, Advanced(v, moves[v.done])) && Quiet(more)
  {
    hide Shows, Advanced, Next, Course;
    NextAdvanced(w, Course(w, s, acts), moves, v);
    Extends(w, s, acts, Advance);
    more := acts + [Advance];
  }

  /** The first poll takes its next step. */
  lemma Look<S(!new)>(w: World<S>, s: State<S>, acts: seq<Action>, moves: seq<Move<S>>, v: View<S>)
    returns (more: seq<Action>)
    requires Shows(Course(w, s, acts), moves, v) && Quiet(acts)
    ensures Shows(Course(w, s, more), moves, Turned(w, v)) && Quiet(more)
  {
    hide Shows, Turned, Next, Course;
    NextTurned(w, Course(w, s, acts), moves, v);
    Extends(w, s, acts, Reload(0, false));
    more := acts + [Reload(0, false)];
  }

  // A deployment whose new tree is not read.

  /** It gets as far as reading the new tree, and all the way back. */
  predicate Unread<S(!new)>(h: Host<S>, parse: Reader<S>, m: Manifest, f: Faults) {
    Undoable(f) && Applied(h, parse, m, f).1 == Some(Reading)
  }

  function UnreadMoves<S>(was: Tree, next: Tree, last: Move<S>): seq<Move<S>> {
    [Show(None), Show(Some(next)), Name(true), Name(true), Show(None), Show(Some(was)), Name(true), last]
  }

  lemma TheseMoves<S(!new)>(h: Host<S>, parse: Reader<S>, stamp: Stamp, m: Manifest, f: Faults)
    requires Unread(h, parse, m, f) && h.live.Some? && h.readsLive && parse(h.live.value) == Some(h.current)
    ensures Moves(h, parse, stamp, m, f) ==
            UnreadMoves(h.live.value, TreeOf(m), if f.reload then Name(true) else Load(h.current, stamp(h.live.value)))
  {
    hide TreeOf;
    assert map[] + TreeOf(m) == TreeOf(m);
  }

  /** As far as the deployment alone has come after n moves. */
  function Midway<S>(s: State<S>, next: Tree, n: nat, poll: Poll<S>): View<S> {
    var h := s.node.host;
    var live := if n < 1 then h.live else if n < 2 then None else if n < 5 then Some(next)
                else if n < 6 then None else h.live;
    View(s.node.status.(word := Failed), live, h.current, s.mark, n, poll)
  }

  function MovesOf<S>(s: State<S>, next: Tree, f: Faults): seq<Move<S>>
    requires s.node.host.live.Some?
  {
    UnreadMoves(s.node.host.live.value, next, if f.reload then Name(true) else Load(s.node.host.current, s.mark))
  }

  lemma BeginsUnread<S(!new)>(w: World<S>, s: State<S>, m: Manifest, f: Faults)
    requires AtRest(w, s) && Unread(s.node.host, w.parse, m, f) && !Known(s.node.status, m)
    ensures Shows(Next(w, s, Begin(m, f)), MovesOf(s, TreeOf(m), f), Midway(s, TreeOf(m), 0, Idle))
  {
    TheseMoves(s.node.host, w.parse, w.stamp, m, f);
    hide Moves, Applied, TreeOf;
  }

  lemma MidwayGoes<S(!new)>(s: State<S>, next: Tree, f: Faults, n: nat, poll: Poll<S>)
    requires s.node.host.live.Some? && n < 8
    ensures var move := MovesOf(s, next, f)[n];
            (move.Name? ==> move.isLive) && Advanced(Midway(s, next, n, poll), move) == Midway(s, next, n + 1, poll)
  {
  }

  /** The deployment goes on to its n-th move. */
  lemma {:induction false} GoTo<S(!new)>(w: World<S>, s: State<S>, s0: State<S>, acts: seq<Action>, next: Tree,
                                         f: Faults, lo: nat, hi: nat, poll: Poll<S>)
    returns (more: seq<Action>)
    requires s.node.host.live.Some? && lo <= hi <= 8
    requires Shows(Course(w, s0, acts), MovesOf(s, next, f), Midway(s, next, lo, poll)) && Quiet(acts)
    ensures Shows(Course(w, s0, more), MovesOf(s, next, f), Midway(s, next, hi, poll)) && Quiet(more)
    decreases hi - lo
  {
    more := acts;
    if lo < hi {
      hide Shows, Course, Midway, Advanced;
      MidwayGoes(s, next, f, lo, poll);
      more := Go(w, s0, acts, MovesOf(s, next, f), Midway(s, next, lo, poll));
      more := GoTo(w, s, s0, more, next, f, lo + 1, hi, poll);
    }
  }

  /** Begun, and looked at by a reload while the new tree is live. */
  lemma LooksAtNext<S(!new)>(w: World<S>, s: State<S>, m: Manifest, f: Faults) returns (acts: seq<Action>)
    requires AtRest(w, s) && Unread(s.node.host, w.parse, m, f) && !Known(s.node.status, m)
    requires w.stamp(TreeOf(m)) != s.mark
    ensures Shows(Course(w, Next(w, s, Begin(m, f)), acts), MovesOf(s, TreeOf(m), f), Midway(s, TreeOf(m), 2, Looked))
    ensures Quiet(acts)
  {
    hide Shows, Next, TreeOf, Unread;
    var s0, next := Next(w, s, Begin(m, f)), TreeOf(m);
    BeginsUnread(w, s, m, f);
    acts := GoTo(w, s, s0, [], next, f, 0, 2, Idle);
    acts := Look(w, s0, acts, MovesOf(s, next, f), Midway(s, next, 2, Idle));
  }

  /** What a reload that overlaps may have read: the new tree, though the deployment could not; new sources with
      the old profiles; or no sources, from while there was no tree, with the old profiles. */
  function Readings(was: Tree, next: Tree): set<Tree> {
    {next, Sources(next) + Others(was), Others(was)}
  }

  /** The reload reads on while the deployment goes back, and looks at the fingerprint when it has. */
  lemma ReadsNext<S(!new)>(w: World<S>, s: State<S>, m: Manifest, f: Faults) returns (acts: seq<Action>)
    requires AtRest(w, s) && Unread(s.node.host, w.parse, m, f) && !Known(s.node.status, m)
    requires w.stamp(TreeOf(m)) != s.mark
    ensures Shows(Course(w, Next(w, s, Begin(m, f)), acts), MovesOf(s, TreeOf(m), f),
                  Midway(s, TreeOf(m), 8, Both(true, Sources(TreeOf(m)), Others(TreeOf(m)))))
    ensures Quiet(acts)
  {
    hide Shows, Next, TreeOf, Unread, Course;
    var s0, next := Next(w, s, Begin(m, f)), TreeOf(m);
    acts := LooksAtNext(w, s, m, f);
    acts := Look(w, s0, acts, MovesOf(s, next, f), Midway(s, next, 2, Looked));
    acts := Look(w, s0, acts, MovesOf(s, next, f), Midway(s, next, 2, Sourced(true, Sources(next))));
    acts := GoTo(w, s, s0, acts, next, f, 2, 8, Both(true, Sources(next), Others(next)));
  }

  lemma ReadsSources<S(!new)>(w: World<S>, s: State<S>, m: Manifest, f: Faults) returns (acts: seq<Action>)
    requires AtRest(w, s) && Unread(s.node.host, w.parse, m, f) && !Known(s.node.status, m)
    requires w.stamp(TreeOf(m)) != s.mark
    ensures Shows(Course(w, Next(w, s, Begin(m, f)), acts), MovesOf(s, TreeOf(m), f),
                  Midway(s, TreeOf(m), 8, Both(true, Sources(TreeOf(m)), Others(s.node.host.live.value))))
    ensures Quiet(acts)
  {
    hide Shows, Next, TreeOf, Unread, Course;
    var s0, next := Next(w, s, Begin(m, f)), TreeOf(m);
    acts := LooksAtNext(w, s, m, f);
    acts := Look(w, s0, acts, MovesOf(s, next, f), Midway(s, next, 2, Looked));
    acts := GoTo(w, s, s0, acts, next, f, 2, 8, Sourced(true, Sources(next)));
    acts := Look(w, s0, acts, MovesOf(s, next, f), Midway(s, next, 8, Sourced(true, Sources(next))));
  }

  lemma ReadsNoSources<S(!new)>(w: World<S>, s: State<S>, m: Manifest, f: Faults) returns (acts: seq<Action>)
    requires AtRest(w, s) && Unread(s.node.host, w.parse, m, f) && !Known(s.node.status, m)
    requires w.stamp(TreeOf(m)) != s.mark
    ensures Shows(Course(w, Next(w, s, Begin(m, f)), acts), MovesOf(s, TreeOf(m), f),
                  Midway(s, TreeOf(m), 8, Both(true, map[], Others(s.node.host.live.value))))
    ensures Quiet(acts)
  {
    hide Shows, Next, TreeOf, Unread, Course;
    var s0, next := Next(w, s, Begin(m, f)), TreeOf(m);
    acts := LooksAtNext(w, s, m, f);
    acts := GoTo(w, s, s0, acts, next, f, 2, 5, Looked);
    acts := Look(w, s0, acts, MovesOf(s, next, f), Midway(s, next, 5, Looked));
    acts := GoTo(w, s, s0, acts, next, f, 5, 8, Sourced(true, map[]));
    acts := Look(w, s0, acts, MovesOf(s, next, f), Midway(s, next, 8, Sourced(true, map[])));
  }

  /** Any of them: the deployment has gone back, and the reload has read. */
  lemma ReadsAny<S(!new)>(w: World<S>, s: State<S>, m: Manifest, f: Faults, read: Tree)
    returns (acts: seq<Action>, both: Poll<S>)
    requires AtRest(w, s) && Unread(s.node.host, w.parse, m, f) && !Known(s.node.status, m)
    requires w.stamp(TreeOf(m)) != s.mark && read in Readings(s.node.host.live.value, TreeOf(m))
    ensures both.Both? && both.fromLive && both.sources + both.others == read
    ensures Shows(Course(w, Next(w, s, Begin(m, f)), acts), MovesOf(s, TreeOf(m), f), Midway(s, TreeOf(m), 8, both))
    ensures Quiet(acts)
  {
    hide Shows, Next, TreeOf, Unread, Course, Midway;
    var next, was := TreeOf(m), s.node.host.live.value;
    if read == next {
      acts := ReadsNext(w, s, m, f);
      both := Both(true, Sources(next), Others(next));
      Halves(next);
    } else if read == Sources(next) + Others(was) {
      acts := ReadsSources(w, s, m, f);
      both := Both(true, Sources(next), Others(was));
    } else {
      acts := ReadsNoSources(w, s, m, f);
      both := Both(true, map[], Others(was));
      assert map[] + Others(was) == Others(was);
    }
  }

  /** Apply has reported the failure, every step back has worked and the tree is the old one, yet the store holds
      what an overlapping reload read; and where that is something else, no later reload repairs it. */
  lemma OverlapMixes<S(!new)>(w: World<S>, s: State<S>, m: Manifest, f: Faults, read: Tree) returns (acts: seq<Action>)
    requires AtRest(w, s) && Unread(s.node.host, w.parse, m, f) && !Known(s.node.status, m)
    requires w.stamp(TreeOf(m)) != s.mark
    requires read in Readings(s.node.host.live.value, TreeOf(m)) && w.parse(read).Some?
    ensures Quiet(acts)
    ensures var h, s' := s.node.host, Course(w, Next(w, s, Begin(m, f)), acts);
            && Shows(s', MovesOf(s, TreeOf(m), f), Midway(s, TreeOf(m), 8, Idle).(current := w.parse(read).value))
            && s'.todo == [] && s'.node.host.live == h.live && s'.node.status == s.node.status.(word := Failed)
            && (w.parse(read).value == h.current <==> Current(w, s'.node.host))
            && (w.parse(read).value == h.current <==> CanMend(w, s'))
  {
    hide Shows, Next, TreeOf, Unread, Course, CanMend;
    var s0, next := Next(w, s, Begin(m, f)), TreeOf(m);
    var both: Poll<S>;
    acts, both := ReadsAny(w, s, m, f, read);
    var moves := MovesOf(s, next, f);
    acts := Look(w, s0, acts, moves, Midway(s, next, 8, both));
    acts := Look(w, s0, acts, moves, Midway(s, next, 8, Ready(w.parse(read).value, s.mark)));
    EndsAtRest(w, Course(w, s0, acts), moves, Midway(s, next, 8, Idle).(current := w.parse(read).value));
  }

  /** A store beside its tree, under that tree's fingerprint and with nobody reading, stays as it is. */
  lemma EndsAtRest<S(!new)>(w: World<S>, s: State<S>, moves: seq<Move<S>>, v: View<S>)
    requires Shows(s, moves, v) && v.done == |moves| && v.poll == Idle
    requires v.live.Some? && w.parse(v.live.value).Some? && v.mark == w.stamp(v.live.value)
    ensures s.todo == [] && s.node.host.live == v.live && s.node.host.current == v.current && s.mark == v.mark
    ensures s.node.status == v.status
    ensures w.parse(v.live.value).value == v.current <==> Current(w, s.node.host)
    ensures w.parse(v.live.value).value == v.current <==> CanMend(w, s)
  {
    if w.parse(v.live.value).value == v.current {
      var none: seq<Action> := [];
      assert Current(w, Course(w, s, none).node.host);
    } else {
      MendsExactly(w, s);
    }
  }

  // Deployments that succeed.

  /** Nothing fails on the way to the new tree. */
  predicate Smooth<S(!new)>(parse: Reader<S>, m: Manifest, f: Faults) {
    && !f.dataDir && f.clearStaging.Removed? && f.write.None? && f.clearPrev.Removed? && !f.park && !f.promote
    && !f.load && parse(TreeOf(m)).Some?
  }

  function SmoothMoves<S>(w: World<S>, next: Tree): seq<Move<S>>
    requires w.parse(next).Some?
  {
    [Show(None), Show(Some(next)), Name(true), Load(w.parse(next).value, w.stamp(next))]
  }

  lemma BeginsSmooth<S(!new)>(w: World<S>, s: State<S>, moves: seq<Move<S>>, v: View<S>, m: Manifest, f: Faults)
    requires Shows(s, moves, v) && v.done == |moves| && v.live.Some? && Smooth(w.parse, m, f) && !Known(v.status, m)
    ensures Shows(Next(w, s, Begin(m, f)), SmoothMoves(w, TreeOf(m)),
                  v.(status := Status(m.hash, m.rev, Ok), done := 0))
  {
    SmoothlyApplied(s.node.host, w.parse, w.stamp, m, f);
    hide Moves, Applied, TreeOf;
  }

  lemma SmoothlyApplied<S(!new)>(h: Host<S>, parse: Reader<S>, stamp: Stamp, m: Manifest, f: Faults)
    requires Smooth(parse, m, f) && h.live.Some?
    ensures Applied(h, parse, m, f).1.None?
    ensures Moves(h, parse, stamp, m, f) ==
            [Show(None), Show(Some(TreeOf(m))), Name(true), Load(parse(TreeOf(m)).value, stamp(TreeOf(m)))]
  {
    hide TreeOf;
    assert map[] + TreeOf(m) == TreeOf(m);
  }

  /** The first two moves: the new tree is live. */
  lemma GoesLive<S(!new)>(w: World<S>, s0: State<S>, acts: seq<Action>, next: Tree, v: View<S>)
    returns (more: seq<Action>)
    requires w.parse(next).Some? && v.done == 0 && Quiet(acts) && Shows(Course(w, s0, acts), SmoothMoves(w, next), v)
    ensures Shows(Course(w, s0, more), SmoothMoves(w, next), v.(live := Some(next), done := 2)) && Quiet(more)
  {
    hide Shows, Course;
    more := Go(w, s0, acts, SmoothMoves(w, next), v);
    more := Go(w, s0, more, SmoothMoves(w, next), v.(live := None, done := 1));
  }

  /** The last two: it is read and stored. */
  lemma GetsRead<S(!new)>(w: World<S>, s0: State<S>, acts: seq<Action>, next: Tree, v: View<S>)
    returns (more: seq<Action>)
    requires w.parse(next).Some? && v.done == 2 && Quiet(acts) && Shows(Course(w, s0, acts), SmoothMoves(w, next), v)
    ensures Quiet(more)
    ensures Shows(Course(w, s0, more), SmoothMoves(w, next),
                  v.(current := w.parse(next).value, mark := w.stamp(next), done := 4))
  {
    hide Shows, Course;
    more := Go(w, s0, acts, SmoothMoves(w, next), v);
    more := Go(w, s0, more, SmoothMoves(w, next), v.(done := 3));
  }

  /** A deployment succeeds while a reload reads its tree to the end, but for the fingerprint. */
  lemma SucceedsBesideReload<S(!new)>(w: World<S>, s: State<S>, m: Manifest, f: Faults) returns (acts: seq<Action>)
    requires AtRest(w, s) && Smooth(w.parse, m, f) && !Known(s.node.status, m) && w.stamp(TreeOf(m)) != s.mark
    ensures Quiet(acts)
    ensures var next := TreeOf(m);
            Shows(Course(w, Next(w, s, Begin(m, f)), acts), SmoothMoves(w, next),
                  View(Status(m.hash, m.rev, Ok), Some(next), w.parse(next).value, w.stamp(next), 4,
                       Both(true, Sources(next), Others(next))))
  {
    var next, s0 := TreeOf(m), Next(w, s, Begin(m, f));
    var moves := SmoothMoves(w, next);
    var v := View(s.node.status, s.node.host.live, s.node.host.current, s.mark, 0, Idle);
    BeginsSmooth(w, s, [], v, m, f);
    v := v.(status := Status(m.hash, m.rev, Ok));
    hide Shows, Next, TreeOf, Course;
    acts := GoesLive(w, s0, [], next, v);
    v := v.(live := Some(next), done := 2);
    acts := Look(w, s0, acts, moves, v);
    acts := Look(w, s0, acts, moves, v.(poll := Looked));
    acts := Look(w, s0, acts, moves, v.(poll := Sourced(true, Sources(next))));
    acts := GetsRead(w, s0, acts, next, v.(poll := Both(true, Sources(next), Others(next))));
  }

  /** Two deployments that succeed, one after the other, and a reload that read the first tree but not yet its
      fingerprint: the second is live and reported, the first is in the store, and stays there unless both
      read the same. */
  lemma Overtaken<S(!new)>(w: World<S>, s: State<S>, m: Manifest, f: Faults, m': Manifest, f': Faults)
    returns (before: seq<Action>, after: seq<Action>)
    requires AtRest(w, s) && Smooth(w.parse, m, f) && Smooth(w.parse, m', f')
    requires !Known(s.node.status, m) && !Known(Status(m.hash, m.rev, Ok), m') && w.stamp(TreeOf(m)) != s.mark
    ensures Quiet(before) && Quiet(after)
    ensures var between := Course(w, Next(w, s, Begin(m, f)), before);
            var s' := Course(w, Next(w, between, Begin(m', f')), after);
            && between.todo == [] && between.node.host.live == Some(TreeOf(m)) && Current(w, between.node.host)
            && s'.todo == [] && s'.node.host.live == Some(TreeOf(m')) && s'.node.status == Status(m'.hash, m'.rev, Ok)
            && Some(s'.node.host.current) == w.parse(TreeOf(m)) && s'.mark == w.stamp(TreeOf(m'))
            && (w.parse(TreeOf(m)) == w.parse(TreeOf(m')) <==> Current(w, s'.node.host))
            && (w.parse(TreeOf(m)) == w.parse(TreeOf(m')) <==> CanMend(w, s'))
  {
    var next, last := TreeOf(m), TreeOf(m');
    before := SucceedsBesideReload(w, s, m, f);
    var s1 := Course(w, Next(w, s, Begin(m, f)), before);
    var both: Poll<S> := Both(true, Sources(next), Others(next));
    var v := View(Status(m.hash, m.rev, Ok), Some(next), w.parse(next).value, w.stamp(next), 4, both);
    ShowsCurrent(w, s1, SmoothMoves(w, next), v);
    BeginsSmooth(w, s1, SmoothMoves(w, next), v, m', f');
    var s2, moves := Next(w, s1, Begin(m', f')), SmoothMoves(w, last);
    v := v.(status := Status(m'.hash, m'.rev, Ok), done := 0);
    hide Shows, Next, TreeOf, Course, CanMend, Smooth;
    after := GoesLive(w, s2, [], last, v);
    after := GetsRead(w, s2, after, last, v.(live := Some(last), done := 2));
    v := v.(live := Some(last), current := w.parse(last).value, mark := w.stamp(last), done := 4);
    Halves(next);
    after := Look(w, s2, after, moves, v);
    after := Look(w, s2, after, moves, v.(poll := Ready(w.parse(next).value, w.stamp(last))));
    EndsAtRest(w, Course(w, s2, after), moves, v.(current := w.parse(next).value, poll := Idle));
  }

  lemma ShowsCurrent<S(!new)>(w: World<S>, s: State<S>, moves: seq<Move<S>>, v: View<S>)
    requires Shows(s, moves, v) && v.done == |moves| && v.live.Some? && w.parse(v.live.value) == Some(v.current)
    ensures s.todo == [] && s.node.host.live == v.live && Current(w, s.node.host)
  {
  }

  // Both happen: a tree of one source and one profile, read as it is.

  const SOURCE := Path(Key(SOURCES, "users"), "users.yaml")
  const PROFILE := Path(Key("profiles", "default"), "default.yaml")
  const PLAIN: World<Tree> := World(t => Some(t), t => if SOURCE in t then t[SOURCE] else "", map[])

  function OneOfEach(text: string): Manifest {
    Manifest(text, 1, map[SOURCE.key := [File(SOURCE.file, text)], PROFILE.key := [File(PROFILE.file, text)]])
  }

  lemma OneOfEachIs(text: string)
    ensures TreeOf(OneOfEach(text)) == map[SOURCE := text, PROFILE := text]
  {
    hide Part;
    var m := OneOfEach(text);
    forall p: Path
      ensures p in TreeOf(m) <==> p == SOURCE || p == PROFILE
      ensures p in TreeOf(m) ==> TreeOf(m)[p] == text
    {
      PartHas(m, m.entries.Keys, p);
      FilesTreeOne(p.key, SOURCE.file, text);
      FilesTreeOne(p.key, PROFILE.file, text);
    }
  }

  lemma FilesTreeOne(k: Key, name: string, text: string)
    ensures FilesTree(k, [File(name, text)]) == map[Path(k, name) := text]
  {
    var files := [File(name, text)];
    assert files[..0] == [];
    assert FilesTree(k, files[..0]) == map[];
  }

  function Unhurt(load: bool): Faults {
    Faults(false, Removed, None, Removed, Removed, false, Removed, false, false, Removed, load, Removed, false, false,
           Removed)
  }

  function Resting(): State<Tree> {
    var t := TreeOf(OneOfEach("1"));
    State(Node(Host(None, None, Some(t), true, t), Status("1", 1, Ok)), PLAIN.stamp(t), [], [Idle])
  }

  /** The store ends with the new source beside the old profile, for good. */
  lemma MixingHappens() returns (acts: seq<Action>)
    ensures Quiet(acts)
    ensures var m, f := OneOfEach("2"), Unhurt(true);
            var s' := Course(PLAIN, Next(PLAIN, Resting(), Begin(m, f)), acts);
            && AtRest(PLAIN, Resting()) && Unread(Resting().node.host, PLAIN.parse, m, f)
            && s'.todo == [] && s'.node.host.live == Some(map[SOURCE := "1", PROFILE := "1"])
            && s'.node.host.current == map[SOURCE := "2", PROFILE := "1"] && !CanMend(PLAIN, s')
  {
    OneOfEachIs("1");
    OneOfEachIs("2");
    var was, next := TreeOf(OneOfEach("1")), TreeOf(OneOfEach("2"));
    hide TreeOf, Course, Next, CanMend;
    assert Sources(next) + Others(was) == map[SOURCE := "2", PROFILE := "1"];
    acts := OverlapMixes(PLAIN, Resting(), OneOfEach("2"), Unhurt(true), Sources(next) + Others(was));
  }

  lemma OvertakingHappens() returns (before: seq<Action>, after: seq<Action>)
    ensures Quiet(before) && Quiet(after)
    ensures var between := Course(PLAIN, Next(PLAIN, Resting(), Begin(OneOfEach("2"), Unhurt(false))), before);
            var s' := Course(PLAIN, Next(PLAIN, between, Begin(OneOfEach("3"), Unhurt(false))), after);
            && AtRest(PLAIN, Resting()) && between.todo == [] && Current(PLAIN, between.node.host)
            && s'.todo == [] && s'.node.host.live == Some(map[SOURCE := "3", PROFILE := "3"])
            && s'.node.status == Status("3", 1, Ok)
            && s'.node.host.current == map[SOURCE := "2", PROFILE := "2"] && !CanMend(PLAIN, s')
  {
    OneOfEachIs("1");
    OneOfEachIs("2");
    OneOfEachIs("3");
    hide TreeOf, Course, Next, CanMend;
    before, after := Overtaken(PLAIN, Resting(), OneOfEach("2"), Unhurt(false), OneOfEach("3"), Unhurt(false));
  }
}
