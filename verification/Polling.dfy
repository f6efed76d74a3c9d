/** The other writer of the store: reloads, by the poller of each process and on a signal, read the live
    directory while a deployment swaps it (internal/config/profiles.go, internal/desired/desired.go). */
module Polling {
  import opened Deploy

  // What the rest of the process sees of a deployment, move by move.

  datatype Move<+S> = Show(live: Option<Tree>) | Name(isLive: bool) | Load(s: S, mark: string)

  /** The fingerprint of a tree: names, sizes and times of its files. */
  type Stamp = Tree -> string

  function Playing<S>(h: Host<S>, move: Move<S>): Host<S> {
    match move
    case Show(live) => h.(live := live)
    case Name(isLive) => h.(readsLive := isLive)
    case Load(s, _) => h.(current := s)
  }

  function Played<S>(h: Host<S>, moves: seq<Move<S>>): Host<S>
    decreases |moves|
  {
    if moves == [] then h else Played(Playing(h, moves[0]), moves[1..])
  }

  /** ReloadFrom(live): the directory is named before the read and taken back where the read fails. */
  function LoadMoves<S>(was: bool, tree: Option<Tree>, parse: Reader<S>, stamp: Stamp, fails: bool): seq<Move<S>> {
    if fails || tree.None? || parse(tree.value).None? then [Name(true), Name(was)]
    else [Name(true), Load(parse(tree.value).value, stamp(tree.value))]
  }

  /** The moves of Apply, from parking on. */
  function SwapMoves<S>(h: Host<S>, parse: Reader<S>, stamp: Stamp, f: Faults): seq<Move<S>>
    requires h.staging.Some?
  {
    var parked := Rename(h.live, h.prev, f.park);
    if parked == Refused then []
    else
      var lived := parked == Done;
      (if lived then [Show(None)] else [])
      + if f.promote then (if lived && !f.unpark then [Show(h.live)] else [])
        else
          [Show(h.staging)] + LoadMoves(h.readsLive, h.staging, parse, stamp, f.load)
          + if !f.load && parse(h.staging.value).Some? then []
            else UndoMoves(h, parse, stamp, lived, f)
  }

  function UndoMoves<S>(h: Host<S>, parse: Reader<S>, stamp: Stamp, lived: bool, f: Faults): seq<Move<S>> {
    var residue := Left(h.staging, f.clearLive);
    [Show(residue)]
    + if lived && Rename(h.live, residue, f.restore) == Done
      then [Show(h.live)] + LoadMoves(h.readsLive, h.live, parse, stamp, f.reload)
      else []
  }

  function Moves<S>(h: Host<S>, parse: Reader<S>, stamp: Stamp, m: Manifest, f: Faults): seq<Move<S>> {
    if f.dataDir || f.write.Some? then []
    else
      SwapMoves(h.(staging := Some(Base(h, f) + TreeOf(m)), prev := Left(h.prev, f.clearPrev)), parse, stamp, f)
  }

  /** The two hosts look the same to the rest of the process. */
  predicate Alike<S(==)>(a: Host<S>, b: Host<S>) {
    a.live == b.live && a.readsLive == b.readsLive && a.current == b.current
  }

  lemma {:induction false} PlayedJoin<S>(h: Host<S>, a: seq<Move<S>>, b: seq<Move<S>>)
    ensures Played(h, a + b) == Played(Played(h, a), b)
    decreases |a|
  {
    if a == [] {
      assert a + b == b;
    } else {
      assert (a + b)[1..] == a[1..] + b;
      PlayedJoin(Playing(h, a[0]), a[1..], b);
    }
  }

  lemma PlayedTwo<S>(h: Host<S>, a: Move<S>, b: Move<S>)
    ensures Played(h, [a, b]) == Playing(Playing(h, a), b) && Played(h, [a]) == Playing(h, a)
  {
    assert [a, b][1..] == [b] && [b][1..] == [] && [a][1..] == [];
    assert Played(Playing(h, a), [b]) == Played(Playing(Playing(h, a), b), []);
  }

  lemma LoadPlays<S(!new)>(h: Host<S>, parse: Reader<S>, stamp: Stamp, fails: bool)
    ensures Played(h, LoadMoves(h.readsLive, h.live, parse, stamp, fails)) == ReloadLive(h, parse, fails).0
  {
    var moves := LoadMoves(h.readsLive, h.live, parse, stamp, fails);
    PlayedTwo(h, moves[0], moves[1]);
    assert moves == [moves[0], moves[1]];
  }

  lemma OnePlay<S(!new)>(h: Host<S>, move: Move<S>, rest: seq<Move<S>>)
    ensures Played(h, [move] + rest) == Played(Playing(h, move), rest)
  {
    assert ([move] + rest)[1..] == rest;
  }

  /** Alike hosts stay alike. */
  lemma {:induction false} AlikePlays<S(!new)>(a: Host<S>, b: Host<S>, moves: seq<Move<S>>)
    requires Alike(a, b)
    ensures Alike(Played(a, moves), Played(b, moves))
    decreases |moves|
  {
    if moves != [] { AlikePlays(Playing(a, moves[0]), Playing(b, moves[0]), moves[1..]); }
  }

  lemma UndoPlays<S(!new)>(h: Host<S>, g: Host<S>, parse: Reader<S>, stamp: Stamp, lived: bool, f: Faults)
    requires g.live == h.staging && g.readsLive == h.readsLive && (lived ==> g.prev == h.live)
    ensures Alike(Played(g, UndoMoves(h, parse, stamp, lived, f)), Undone(g, parse, lived, f))
  {
    hide LoadMoves, ReloadLive, Left;
    var residue := Left(h.staging, f.clearLive);
    var g1 := g.(live := residue);
    if lived && Rename(h.live, residue, f.restore) == Done {
      var load := LoadMoves(h.readsLive, h.live, parse, stamp, f.reload);
      OnePlay(g, Show(residue), [Show(h.live)] + load);
      OnePlay(g1, Show(h.live), load);
      assert [Show(residue)] + ([Show(h.live)] + load) == UndoMoves(h, parse, stamp, lived, f);
      LoadPlays(g.(live := h.live), parse, stamp, f.reload);
      AlikeReloads(g.(live := h.live), g.(live := h.live, prev := None), parse, f.reload);
    } else {
      OnePlay(g, Show(residue), []);
      assert [Show(residue)] + [] == UndoMoves(h, parse, stamp, lived, f);
    }
  }

  lemma AlikeReloads<S(!new)>(a: Host<S>, b: Host<S>, parse: Reader<S>, fails: bool)
    requires Alike(a, b)
    ensures Alike(ReloadLive(a, parse, fails).0, ReloadLive(b, parse, fails).0)
    ensures ReloadLive(a, parse, fails).1 == ReloadLive(b, parse, fails).1
  {
  }

  /** From the promotion on; g is h with its live tree parked. */
  lemma PromotedPlays<S(!new)>(h: Host<S>, g: Host<S>, parse: Reader<S>, stamp: Stamp, lived: bool, f: Faults)
    requires h.staging.Some? && g == (if lived then h.(prev := h.live, live := None) else h) && !f.promote
    ensures var load := LoadMoves(h.readsLive, h.staging, parse, stamp, f.load);
            var undo := if !f.load && parse(h.staging.value).Some? then [] else UndoMoves(h, parse, stamp, lived, f);
            Alike(Played(g, [Show(h.staging)] + load + undo), Promoted(g, parse, lived, f).0)
  {
    hide UndoMoves, Undone;
    var load := LoadMoves(h.readsLive, h.staging, parse, stamp, f.load);
    var undo := if !f.load && parse(h.staging.value).Some? then [] else UndoMoves(h, parse, stamp, lived, f);
    var n := g.(live := h.staging, staging := None);
    var shown := g.(live := h.staging);
    assert [Show(h.staging)] + load + undo == [Show(h.staging)] + (load + undo);
    OnePlay(g, Show(h.staging), load + undo);
    PlayedJoin(shown, load, undo);
    LoadPlays(shown, parse, stamp, f.load);
    AlikeReloads(shown, n, parse, f.load);
    if !f.load && parse(h.staging.value).Some? {
      assert Played(shown, load + undo) == Played(shown, load) by { assert load + undo == load; }
    } else {
      UndoPlays(h, n, parse, stamp, lived, f);
      AlikePlays(shown, n, undo);
    }
  }

  /** Played one after the other the moves come to what Apply comes to. */
  lemma MovesAreApplied<S(!new)>(h: Host<S>, parse: Reader<S>, stamp: Stamp, m: Manifest, f: Faults)
    ensures Alike(Played(h, Moves(h, parse, stamp, m, f)), Applied(h, parse, m, f).0)
  {
    hide LoadMoves, UndoMoves, Promoted, TreeOf, Left, Base;
    if !f.dataDir && f.write.None? {
      var g := h.(staging := Some(Base(h, f) + TreeOf(m)), prev := Left(h.prev, f.clearPrev));
      SwapPlays(g, parse, stamp, f);
      AlikePlays(h, g, SwapMoves(g, parse, stamp, f));
    }
  }

  lemma SwapPlays<S(!new)>(h: Host<S>, parse: Reader<S>, stamp: Stamp, f: Faults)
    requires h.staging.Some?
    ensures Alike(Played(h, SwapMoves(h, parse, stamp, f)), Swapped(h, parse, f).0)
  {
    hide LoadMoves, UndoMoves, Left;
    var parked := Rename(h.live, h.prev, f.park);
    if parked != Refused {
      var lived := parked == Done;
      var g := if lived then h.(prev := h.live, live := None) else h;
      var first := if lived then [Show(None)] else [];
      var shown := h.(live := g.live);
      if f.promote {
        var second := if lived && !f.unpark then [Show(h.live)] else [];
        PlayedJoin(h, first, second);
        PlayedTwo(h, Show(None), Show(None));
        PlayedTwo(shown, Show(h.live), Show(None));
      } else {
        var load := LoadMoves(h.readsLive, h.staging, parse, stamp, f.load);
        var undo := if !f.load && parse(h.staging.value).Some? then [] else UndoMoves(h, parse, stamp, lived, f);
        var rest := [Show(h.staging)] + load + undo;
        assert SwapMoves(h, parse, stamp, f) == first + rest;
        PlayedJoin(h, first, rest);
        PlayedTwo(h, Show(None), Show(None));
        PromotedPlays(h, g, parse, stamp, lived, f);
        AlikePlays(shown, g, rest);
      }
    }
  }

  // Reloads in between.

  const SOURCES := "sources"

  function Sources(t: Tree): Tree { map p | p in t && p.key.section == SOURCES :: t[p] }

  function Others(t: Tree): Tree { map p | p in t && p.key.section != SOURCES :: t[p] }

  lemma Halves(t: Tree)
    ensures Sources(t) + Others(t) == t
  {
  }

  /** Where a Reload stands: fingerprint looked at, sources read, profiles read, all read. */
  datatype Poll<+S> =
    | Idle
    | Looked
    | Sourced(fromLive: bool, sources: Tree)
    | Both(fromLive: bool, sources: Tree, others: Tree)
    | Ready(s: S, mark: string)

  /** mark is the fingerprint that goes with what the store read last. boot, where the service was
      started from, never changes. */
  datatype State<+S> = State(node: Node<S>, mark: string, todo: seq<Move<S>>, polls: seq<Poll<S>>)

  datatype World<!S> = World(parse: Reader<S>, stamp: Stamp, boot: Tree)

  datatype Action = Begin(m: Manifest, f: Faults) | Advance | Reload(k: nat, fails: bool)

  function TreeAt<S>(w: World<S>, h: Host<S>, fromLive: bool): Option<Tree> {
    if fromLive then h.live else Some(w.boot)
  }

  /** The next step of a Reload that does not fail. */
  function Turn<S>(w: World<S>, h: Host<S>, mark: string, p: Poll<S>): Poll<S> {
    match p
    case Idle =>
      var t := TreeAt(w, h, h.readsLive);
      if t.None? || w.stamp(t.value) == mark then Idle else Looked
    case Looked =>
      var t := TreeAt(w, h, h.readsLive);
      Sourced(h.readsLive, if t.None? then map[] else Sources(t.value))
    case Sourced(fromLive, sources) =>
      var t := TreeAt(w, h, fromLive);
      if t.None? then Idle else Both(fromLive, sources, Others(t.value))
    case Both(fromLive, sources, others) =>
      var t, read := TreeAt(w, h, fromLive), w.parse(sources + others);
      if t.None? || read.None? then Idle else Ready(read.value, w.stamp(t.value))
    case Ready(_, _) => Idle
  }

  function Next<S>(w: World<S>, s: State<S>, a: Action): State<S> {
    var h := s.node.host;
    match a
    case Begin(m, f) =>
      if s.todo != [] || Known(s.node.status, m) then s
      else
        var after := Handle(s.node, w.parse, m, f);
        var unseen := after.host.(live := h.live, readsLive := h.readsLive, current := h.current);
        s.(node := after.(host := unseen), todo := Moves(h, w.parse, w.stamp, m, f))
    case Advance =>
      if s.todo == [] then s
      else
        s.(node := s.node.(host := Playing(h, s.todo[0])), todo := s.todo[1..],
           mark := if s.todo[0].Load? then s.todo[0].mark else s.mark)
    case Reload(k, fails) =>
      if k >= |s.polls| then s
      else
        var p := s.polls[k];
        var s' := s.(polls := s.polls[k := if fails then Idle else Turn(w, h, s.mark, p)]);
        if !fails && p.Ready? then s'.(node := s.node.(host := h.(current := p.s)), mark := p.mark) else s'
  }

  function Course<S>(w: World<S>, start: State<S>, actions: seq<Action>): State<S> {
    if actions == [] then start else Next(w, Course(w, start, actions[..|actions| - 1]), actions[|actions| - 1])
  }

  predicate Reads(p: Poll) { p.Sourced? || p.Both? || p.Ready? }

  /** No reload reads or stores while a deployment moves, and none has read when one begins to. */
  predicate Calm<S>(s: State<S>, a: Action) {
    match a
    case Begin(_, _) => forall k | 0 <= k < |s.polls| :: !Reads(s.polls[k])
    case Advance => true
    case Reload(k, _) => k < |s.polls| && !s.polls[k].Idle? ==> s.todo == []
  }

  predicate CalmRun<S>(w: World<S>, start: State<S>, actions: seq<Action>) {
    actions == [] ||
    (CalmRun(w, start, actions[..|actions| - 1])
     && Calm(Course(w, start, actions[..|actions| - 1]), actions[|actions| - 1]))
  }

  /** The deployments of a run that the node took up. */
  function Begun<S>(w: World<S>, start: State<S>, actions: seq<Action>): seq<(Manifest, Faults)> {
    if actions == [] then []
    else
      var rest, a := actions[..|actions| - 1], actions[|actions| - 1];
      Begun(w, start, rest)
      + if a.Begin? && Course(w, start, rest).todo == [] then [(a.m, a.f)] else []
  }

  /** What a reload has read is what is there. */
  ghost predicate Fresh<S>(w: World<S>, h: Host<S>, p: Poll<S>) {
    match p
    case Sourced(fromLive, sources) =>
      fromLive == h.readsLive
      && sources == if TreeAt(w, h, fromLive).None? then map[] else Sources(TreeAt(w, h, fromLive).value)
    case Both(fromLive, sources, others) =>
      fromLive == h.readsLive && TreeAt(w, h, fromLive).Some? && sources + others == TreeAt(w, h, fromLive).value
    case Ready(s, _) => s == h.current
    case _ => true
  }

  /** The store says what its directory says, if that can be read. */
  ghost predicate Current<S(!new)>(w: World<S>, h: Host<S>) {
    var t := TreeAt(w, h, h.readsLive);
    t.Some? && w.parse(t.value).Some? ==> w.parse(t.value).value == h.current
  }

  /** While a deployment moves nobody reads; otherwise whoever reads has read what is there. */
  ghost predicate Apart<S(!new)>(w: World<S>, s: State<S>) {
    if s.todo != [] then forall k | 0 <= k < |s.polls| :: !Reads(s.polls[k])
    else Current(w, s.node.host) && forall k | 0 <= k < |s.polls| :: Fresh(w, s.node.host, s.polls[k])
  }

  lemma TurnStaysFresh<S(!new)>(w: World<S>, h: Host<S>, mark: string, p: Poll<S>)
    requires Current(w, h) && Fresh(w, h, p)
    ensures Fresh(w, h, Turn(w, h, mark, p))
  {
    var t := TreeAt(w, h, h.readsLive);
    if t.Some? { Halves(t.value); }
  }

  lemma ReloadStaysApart<S(!new)>(w: World<S>, s: State<S>, k: nat, fails: bool)
    requires Apart(w, s) && Calm(s, Reload(k, fails))
    ensures var s' := Next(w, s, Reload(k, fails));
            Apart(w, s') && s'.node == s.node && s'.todo == s.todo
  {
    hide Current, TreeAt;
    if k < |s.polls| {
      if s.todo == [] { TurnStaysFresh(w, s.node.host, s.mark, s.polls[k]); }
      else { LooksOnly(w, s.node.host, s.mark); }
    }
    hide Turn;
  }

  lemma LooksOnly<S>(w: World<S>, h: Host<S>, mark: string)
    ensures !Reads(Turn(w, h, mark, Idle))
  {
  }

  /** The node is where the deployments alone would have it, but for the moves still to come. */
  ghost predicate Tracks<S(!new)>(s: State<S>, n: Node<S>) {
    && s.node.status == n.status && s.node.host.staging == n.host.staging && s.node.host.prev == n.host.prev
    && Alike(Played(s.node.host, s.todo), n.host)
  }

  /** Where nothing moves that is the same node. */
  lemma TracksAtRest<S(!new)>(s: State<S>, n: Node<S>)
    requires Tracks(s, n) && s.todo == []
    ensures s.node == n
  {
  }

  lemma AdvanceTracks<S(!new)>(w: World<S>, s: State<S>, n: Node<S>)
    requires Tracks(s, n)
    ensures Tracks(Next(w, s, Advance), n)
  {
  }

  lemma BeginTracks<S(!new)>(w: World<S>, s: State<S>, m: Manifest, f: Faults)
    requires s.todo == []
    ensures Tracks(Next(w, s, Begin(m, f)), Handle(s.node, w.parse, m, f))
  {
    hide Moves, Applied;
    var h := s.node.host;
    var s' := Next(w, s, Begin(m, f));
    if !Known(s.node.status, m) {
      MovesAreApplied(h, w.parse, w.stamp, m, f);
      AlikePlays(h, s'.node.host, Moves(h, w.parse, w.stamp, m, f));
    }
  }

  lemma BeginStaysApart<S(!new)>(w: World<S>, s: State<S>, m: Manifest, f: Faults)
    requires Apart(w, s) && Calm(s, Begin(m, f))
    ensures Apart(w, Next(w, s, Begin(m, f)))
  {
    hide Moves, Applied;
  }

  /** What the service was started with is what its first store reads. */
  ghost predicate Started<S(!new)>(w: World<S>, start: State<S>) {
    && start.todo == [] && Agrees(start.node.host, w.parse) && start.node.status.word == Never
    && (!start.node.host.readsLive && w.parse(w.boot).Some? ==> w.parse(w.boot).value == start.node.host.current)
    && forall k | 0 <= k < |start.polls| :: start.polls[k].Idle?
  }

  lemma SettledIsCurrent<S(!new)>(w: World<S>, start: State<S>, n: Node<S>, good: Option<Manifest>)
    requires Started(w, start) && Settled(start.node, n, w.parse, good)
    ensures Current(w, n.host)
  {
    hide TreeOf;
  }

  lemma {:induction false} RunStaysApart<S(!new)>(w: World<S>, start: State<S>, actions: seq<Action>)
    requires Started(w, start) && CalmRun(w, start, actions)
    requires forall b | b in Begun(w, start, actions) :: Undoable(b.1)
    ensures Apart(w, Course(w, start, actions))
    ensures Tracks(Course(w, start, actions), Deploy.Run(start.node, w.parse, Begun(w, start, actions)))
  {
    if actions == [] {
      SettledIsCurrent(w, start, start.node, None);
    } else {
      hide Next, Apart, Tracks, Calm, Settled, Started, Handle;
      var rest, a := actions[..|actions| - 1], actions[|actions| - 1];
      var s, begun := Course(w, start, rest), Begun(w, start, rest);
      RunStaysApart(w, start, rest);
      var n := Deploy.Run(start.node, w.parse, begun);
      var s' := Next(w, s, a);
      match a
      case Begin(m, f) =>
        BeginStaysApart(w, s, m, f);
        if s.todo == [] {
          TracksAtRest(s, n);
          BeginTracks(w, s, m, f);
          assert (begun + [(m, f)])[..|begun|] == begun;
        } else {
          Unmoved(w, s, m, f);
          assert Begun(w, start, actions) == begun;
        }
      case Reload(k, fails) =>
        ReloadStaysApart(w, s, k, fails);
        assert Begun(w, start, actions) == begun;
        SameTracks(s, s', n);
      case Advance =>
        assert Begun(w, start, actions) == begun;
        AdvanceTracks(w, s, n);
        AdvanceStaysApart(w, start, s, begun);
    }
  }

  lemma Unmoved<S>(w: World<S>, s: State<S>, m: Manifest, f: Faults)
    requires s.todo != []
    ensures Next(w, s, Begin(m, f)) == s
  {
  }

  lemma SameTracks<S(!new)>(s: State<S>, s': State<S>, n: Node<S>)
    requires Tracks(s, n) && s'.node == s.node && s'.todo == s.todo
    ensures Tracks(s', n)
  {
  }

  lemma AdvanceStaysApart<S(!new)>(w: World<S>, start: State<S>, s: State<S>, begun: seq<(Manifest, Faults)>)
    requires Started(w, start) && Apart(w, s) && Tracks(s, Deploy.Run(start.node, w.parse, begun))
    requires forall b | b in begun :: Undoable(b.1)
    ensures Apart(w, Next(w, s, Advance))
  {
    var s', n := Next(w, s, Advance), Deploy.Run(start.node, w.parse, begun);
    AdvanceTracks(w, s, n);
    if s.todo != [] && s'.todo == [] {
      hide Settled, Deploy.Run, Good;
      TracksAtRest(s', n);
      AllOrNothing(start.node, w.parse, begun);
      SettledIsCurrent(w, start, n, Good(start.node, w.parse, begun));
    }
  }

  /** As long as no reload overlaps a deployment's swap the reloads change nothing: whenever no deployment
      is under way the node, and so what is live, loaded and reported, is what the deployments alone
      make of it. */
  lemma ReloadsApartHarmNothing<S(!new)>(w: World<S>, start: State<S>, actions: seq<Action>)
    requires Started(w, start) && CalmRun(w, start, actions) && Course(w, start, actions).todo == []
    requires forall b | b in Begun(w, start, actions) :: Undoable(b.1)
    ensures var begun := Begun(w, start, actions);
            && Course(w, start, actions).node == Deploy.Run(start.node, w.parse, begun)
            && Settled(start.node, Course(w, start, actions).node, w.parse, Good(start.node, w.parse, begun))
  {
    RunStaysApart(w, start, actions);
    TracksAtRest(Course(w, start, actions), Deploy.Run(start.node, w.parse, Begun(w, start, actions)));
    AllOrNothing(start.node, w.parse, Begun(w, start, actions));
  }

  lemma {:induction false} CourseSplits<S>(w: World<S>, s: State<S>, a: seq<Action>, b: seq<Action>)
    ensures Course(w, s, a + b) == Course(w, Course(w, s, a), b)
  {
    if b == [] {
      assert a + b == a;
    } else {
      CourseSplits(w, s, a, b[..|b| - 1]);
      assert (a + b)[..|a + b| - 1] == a + b[..|b| - 1];
    }
  }

  lemma CourseOne<S>(w: World<S>, s: State<S>, a: Action)
    ensures Course(w, s, [a]) == Next(w, s, a)
  {
    assert [a][..0] == [];
  }
}
