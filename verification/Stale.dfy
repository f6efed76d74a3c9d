/** What reloads under way can still make of the store when no deployment moves
    (internal/config/profiles.go). */
module Stale {
  import opened Deploy
  import opened Polling

  /** What reading comes to once the files are read: a snapshot under the fingerprint the directory has then. */
  function Finished<S>(w: World<S>, t: Tree, read: Tree): Option<(S, string)> {
    if w.parse(read).None? then None else Some((w.parse(read).value, w.stamp(t)))
  }

  /** What a reload under way will store if the directories stay as they are. */
  function Completion<S>(w: World<S>, h: Host<S>, p: Poll<S>): Option<(S, string)> {
    match p
    case Idle => None
    case Looked =>
      var t := TreeAt(w, h, h.readsLive);
      if t.None? then None else Finished(w, t.value, t.value)
    case Sourced(fromLive, sources) =>
      var t := TreeAt(w, h, fromLive);
      if t.None? then None else Finished(w, t.value, sources + Others(t.value))
    case Both(fromLive, sources, others) =>
      var t := TreeAt(w, h, fromLive);
      if t.None? then None else Finished(w, t.value, sources + others)
    case Ready(s, mark) => Some((s, mark))
  }

  /** What the store's directory says, under its fingerprint. */
  function Says<S>(w: World<S>, h: Host<S>): Option<(S, string)> {
    var t := TreeAt(w, h, h.readsLive);
    if t.None? then None else Finished(w, t.value, t.value)
  }

  /** Until a deployment has gone live that is what the service was started with, then the live tree. */
  lemma SaysExactly<S(!new)>(w: World<S>, h: Host<S>)
    ensures !h.readsLive ==> Says(w, h) == match w.parse(w.boot)
                                           case None => None
                                           case Some(x) => Some((x, w.stamp(w.boot)))
    ensures h.readsLive && h.live.None? ==> Says(w, h) == None
    ensures h.readsLive && h.live.Some? ==> Says(w, h) == match w.parse(h.live.value)
                                                          case None => None
                                                          case Some(x) => Some((x, w.stamp(h.live.value)))
  {
  }

  /** No deployment begins. */
  predicate Quiet(actions: seq<Action>) { forall i | 0 <= i < |actions| :: !actions[i].Begin? }

  /** At rest but for the reloads, a state changes in what is stored and in the reloads only. */
  ghost predicate Lasting<S(!new)>(s: State<S>, s': State<S>) {
    && s'.todo == s.todo == [] && |s'.polls| == |s.polls| && s'.node.status == s.node.status
    && s'.node.host == s.node.host.(current := s'.node.host.current)
  }

  /** Going on does not change what a reload comes to; one that begins reads what is there. */
  lemma TurnCompletes<S(!new)>(w: World<S>, h: Host<S>, mark: string, p: Poll<S>)
    ensures !p.Idle? && !p.Ready? ==> Completion(w, h, Turn(w, h, mark, p)) == Completion(w, h, p)
    ensures p.Ready? ==> Turn(w, h, mark, p) == Idle
    ensures p.Idle? ==> var q := Turn(w, h, mark, p);
              if TreeAt(w, h, h.readsLive).Some? && w.stamp(TreeAt(w, h, h.readsLive).value) != mark
              then q == Looked && Completion(w, h, q) == Says(w, h) else q == Idle
  {
    var t := TreeAt(w, h, h.readsLive);
    if t.Some? { Halves(t.value); }
  }

  lemma NextLasts<S(!new)>(w: World<S>, s: State<S>, a: Action)
    requires s.todo == [] && !a.Begin?
    ensures Lasting(s, Next(w, s, a))
  {
    hide Turn;
  }

  // What every continuation keeps.

  /** P holds of what is stored and of what every reload will store. */
  ghost predicate Holds<S(!new)>(w: World<S>, s: State<S>, P: ((S, string)) -> bool) {
    && P((s.node.host.current, s.mark))
    && forall k | 0 <= k < |s.polls| && Completion(w, s.node.host, s.polls[k]).Some? ::
         P(Completion(w, s.node.host, s.polls[k]).value)
  }

  /** P holds of what the directory says, if under P a reload can begin at all. */
  ghost predicate Closed<S(!new)>(w: World<S>, h: Host<S>, P: ((S, string)) -> bool) {
    Says(w, h).Some? ==> P(Says(w, h).value) || forall x | P(x) :: x.1 == Says(w, h).value.1
  }

  lemma SameCompletion<S(!new)>(w: World<S>, s: State<S>, s': State<S>, p: Poll<S>)
    requires Lasting(s, s')
    ensures Completion(w, s'.node.host, p) == Completion(w, s.node.host, p)
    ensures Says(w, s'.node.host) == Says(w, s.node.host)
  {
  }

  lemma NextHolds<S(!new)>(w: World<S>, s: State<S>, a: Action, P: ((S, string)) -> bool)
    requires s.todo == [] && !a.Begin? && Closed(w, s.node.host, P) && Holds(w, s, P)
    ensures Holds(w, Next(w, s, a), P)
  {
    hide Turn, Completion, Says;
    var s' := Next(w, s, a);
    NextLasts(w, s, a);
    if a.Reload? && a.k < |s.polls| {
      TurnCompletes(w, s.node.host, s.mark, s.polls[a.k]);
      ReadyCompletes(w, s.node.host, s.polls[a.k]);
      SaysReads(w, s.node.host);
      forall k | 0 <= k < |s.polls| && Completion(w, s'.node.host, s'.polls[k]).Some?
        ensures P(Completion(w, s'.node.host, s'.polls[k]).value)
      {
        SameCompletion(w, s, s', s'.polls[k]);
        ReadyCompletes(w, s.node.host, s'.polls[k]);
        if k == a.k { SameCompletion(w, s, s', s.polls[k]); }
      }
    }
  }

  lemma ReadyCompletes<S(!new)>(w: World<S>, h: Host<S>, p: Poll<S>)
    ensures p.Ready? ==> Completion(w, h, p) == Some((p.s, p.mark))
    ensures p.Idle? ==> Completion(w, h, p) == None
  {
  }

  lemma SaysReads<S(!new)>(w: World<S>, h: Host<S>)
    ensures Says(w, h).Some? ==> TreeAt(w, h, h.readsLive).Some?
                                 && Says(w, h).value.1 == w.stamp(TreeAt(w, h, h.readsLive).value)
  {
  }

  lemma {:induction false} CourseHolds<S(!new)>(w: World<S>, s: State<S>, actions: seq<Action>,
                                                P: ((S, string)) -> bool)
    requires s.todo == [] && Quiet(actions) && Closed(w, s.node.host, P) && Holds(w, s, P)
    ensures Lasting(s, Course(w, s, actions)) && Holds(w, Course(w, s, actions), P)
  {
    if actions != [] {
      hide Next, Holds, Says;
      var rest := actions[..|actions| - 1];
      CourseHolds(w, s, rest, P);
      var s' := Course(w, s, rest);
      SameCompletion(w, s, s', Idle);
      NextHolds(w, s', actions[|actions| - 1], P);
      NextLasts(w, s', actions[|actions| - 1]);
    }
  }

  // What a reload can be brought to.

  lemma OneFirst<S(!new)>(w: World<S>, s: State<S>, a: Action, rest: seq<Action>)
    ensures Course(w, s, [a] + rest) == Course(w, Next(w, s, a), rest)
  {
    hide Next;
    CourseSplits(w, s, [a], rest);
    CourseOne(w, s, a);
  }

  function Rank<S>(p: Poll<S>): nat {
    match p
    case Idle => 4
    case Looked => 3
    case Sourced(_, _) => 2
    case Both(_, _, _) => 1
    case Ready(_, _) => 0
  }

  lemma TurnGoesOn<S(!new)>(w: World<S>, h: Host<S>, mark: string, p: Poll<S>)
    requires Completion(w, h, p).Some? && !p.Ready?
    ensures Rank(Turn(w, h, mark, p)) < Rank(p)
  {
  }

  /** A reload under way, left to itself, stores its completion. */
  lemma {:induction false} Finishes<S(!new)>(w: World<S>, s: State<S>, k: nat) returns (actions: seq<Action>)
    requires s.todo == [] && k < |s.polls| && Completion(w, s.node.host, s.polls[k]).Some?
    ensures Quiet(actions)
    ensures var s', (x, mark) := Course(w, s, actions), Completion(w, s.node.host, s.polls[k]).value;
            Lasting(s, s') && s'.node.host.current == x && s'.mark == mark && s'.polls == s.polls[k := Idle]
    decreases Rank(s.polls[k])
  {
    hide Turn, Completion;
    var p, a := s.polls[k], Reload(k, false);
    var s' := Next(w, s, a);
    NextLasts(w, s, a);
    TurnCompletes(w, s.node.host, s.mark, p);
    ReadyCompletes(w, s.node.host, p);
    if p.Ready? {
      actions := [a];
      CourseOne(w, s, a);
    } else {
      TurnGoesOn(w, s.node.host, s.mark, p);
      SameCompletion(w, s, s', s'.polls[k]);
      var rest := Finishes(w, s', k);
      actions := [a] + rest;
      OneFirst(w, s, a, rest);
    }
  }

  lemma Fails<S(!new)>(w: World<S>, s: State<S>, k: nat)
    requires s.todo == [] && k < |s.polls|
    ensures var s' := Next(w, s, Reload(k, true));
            Lasting(s, s') && s'.node == s.node && s'.mark == s.mark && s'.polls == s.polls[k := Idle]
  {
    hide Turn;
  }

  /** Reloads fail one after the other. */
  lemma {:induction false} Silences<S(!new)>(w: World<S>, s: State<S>, n: nat) returns (actions: seq<Action>)
    requires s.todo == [] && n <= |s.polls|
    ensures Quiet(actions)
    ensures var s' := Course(w, s, actions);
            && Lasting(s, s') && s'.node == s.node && s'.mark == s.mark
            && (forall k | 0 <= k < n :: s'.polls[k] == Idle)
  {
    actions := [];
    if n > 0 {
      hide Next, Course;
      actions := Silences(w, s, n - 1);
      var a := Reload(n - 1, true);
      Fails(w, Course(w, s, actions), n - 1);
      CourseSplits(w, s, actions, [a]);
      CourseOne(w, Course(w, s, actions), a);
      actions := actions + [a];
    }
  }

  // What the reloads can still do.

  /** Some continuation leaves the store without what its directory says. */
  ghost predicate CanSpoil<S(!new)>(w: World<S>, s: State<S>) {
    exists actions | Quiet(actions) :: !Current(w, Course(w, s, actions).node.host)
  }

  /** Some continuation has the store say what its directory says. */
  ghost predicate CanMend<S(!new)>(w: World<S>, s: State<S>) {
    exists actions | Quiet(actions) :: Current(w, Course(w, s, actions).node.host)
  }

  /** A reload under way will store something else than the directory says. */
  ghost predicate Straying<S(!new)>(w: World<S>, h: Host<S>, p: Poll<S>) {
    Says(w, h).Some? && Completion(w, h, p).Some? && Completion(w, h, p).value.0 != Says(w, h).value.0
  }

  lemma CurrentMeans<S(!new)>(w: World<S>, h: Host<S>)
    ensures Current(w, h) <==> Says(w, h).None? || Says(w, h).value.0 == h.current
  {
  }

  /** A store that is right can become wrong without any further deployment exactly when a reload under way
      has read something that, read on, says something else than its directory. */
  lemma SpoilsExactly<S(!new)>(w: World<S>, s: State<S>)
    requires s.todo == [] && Current(w, s.node.host)
    ensures CanSpoil(w, s) <==> exists k | 0 <= k < |s.polls| :: Straying(w, s.node.host, s.polls[k])
  {
    hide Current, Completion, Says;
    var h := s.node.host;
    CurrentMeans(w, h);
    if k :| 0 <= k < |s.polls| && Straying(w, h, s.polls[k]) {
      var actions := Finishes(w, s, k);
      var s' := Course(w, s, actions);
      SameCompletion(w, s, s', Idle);
      CurrentMeans(w, s'.node.host);
    } else {
      var P := (x: (S, string)) => Says(w, h).Some? ==> x.0 == Says(w, h).value.0;
      forall actions | Quiet(actions) ensures Current(w, Course(w, s, actions).node.host) {
        CourseHolds(w, s, actions, P);
        SameCompletion(w, s, Course(w, s, actions), Idle);
        CurrentMeans(w, Course(w, s, actions).node.host);
      }
    }
  }

  /** A reload can begin, or one under way stores what the directory says or under another fingerprint. */
  ghost predicate Mending<S(!new)>(w: World<S>, s: State<S>)
    requires Says(w, s.node.host).Some?
  {
    var (right, mark) := Says(w, s.node.host).value;
    || (s.polls != [] && s.mark != mark)
    || exists k | 0 <= k < |s.polls| && Completion(w, s.node.host, s.polls[k]).Some? ::
         var x := Completion(w, s.node.host, s.polls[k]).value;
         x.0 == right || x.1 != mark
  }

  /** A store that is wrong can become right by reloads alone exactly when one can begin, or one under way
      stores what is right, or stores under another fingerprint so that the next can begin. */
  lemma MendsExactly<S(!new)>(w: World<S>, s: State<S>)
    requires s.todo == [] && !Current(w, s.node.host)
    ensures Says(w, s.node.host).Some? && (CanMend(w, s) <==> Mending(w, s))
  {
    hide Current, Completion, Says;
    var h := s.node.host;
    CurrentMeans(w, h);
    if Mending(w, s) {
      Mends(w, s);
    } else {
      var (right, mark) := Says(w, h).value;
      var P := (x: (S, string)) => x.0 != right && x.1 == mark;
      NotMending(w, s);
      forall actions | Quiet(actions) ensures !Current(w, Course(w, s, actions).node.host) {
        if s.polls == [] { NobodyReads(w, s, actions); } else { CourseHolds(w, s, actions, P); }
        SameCompletion(w, s, Course(w, s, actions), Idle);
        CurrentMeans(w, Course(w, s, actions).node.host);
      }
    }
  }

  lemma Mends<S(!new)>(w: World<S>, s: State<S>)
    requires s.todo == [] && Says(w, s.node.host).Some? && Mending(w, s)
    ensures CanMend(w, s)
  {
    hide Current, Completion, Says;
    var h := s.node.host;
    var (right, mark) := Says(w, h).value;
    if k :| 0 <= k < |s.polls| && Completion(w, h, s.polls[k]).Some?
            && (Completion(w, h, s.polls[k]).value.0 == right || Completion(w, h, s.polls[k]).value.1 != mark) {
      var first := Finishes(w, s, k);
      var s' := Course(w, s, first);
      SameCompletion(w, s, s', Idle);
      CurrentMeans(w, s'.node.host);
      if s'.node.host.current != right {
        var rest := Refreshes(w, s', k);
        Joined(w, s, first, rest);
      }
    } else {
      var first := Silences(w, s, |s.polls|);
      var s' := Course(w, s, first);
      var rest := Refreshes(w, s', 0);
      Joined(w, s, first, rest);
    }
  }

  lemma Joined<S(!new)>(w: World<S>, s: State<S>, first: seq<Action>, rest: seq<Action>)
    requires Quiet(first) && Quiet(rest) && Current(w, Course(w, Course(w, s, first), rest).node.host)
    ensures CanMend(w, s)
  {
    hide Current, Course;
    CourseSplits(w, s, first, rest);
    assert Quiet(first + rest);
  }

  /** Where the fingerprint differs a reload reads what is there. */
  lemma Refreshes<S(!new)>(w: World<S>, s: State<S>, k: nat) returns (actions: seq<Action>)
    requires s.todo == [] && k < |s.polls| && s.polls[k] == Idle
    requires Says(w, s.node.host).Some? && s.mark != Says(w, s.node.host).value.1
    ensures Quiet(actions) && Current(w, Course(w, s, actions).node.host)
  {
    hide Current, Completion, Says, Turn;
    var a := Reload(k, false);
    var s' := Next(w, s, a);
    NextLasts(w, s, a);
    SaysReads(w, s.node.host);
    TurnCompletes(w, s.node.host, s.mark, Idle);
    SameCompletion(w, s, s', s'.polls[k]);
    var rest := Finishes(w, s', k);
    actions := [a] + rest;
    OneFirst(w, s, a, rest);
    var s'' := Course(w, s', rest);
    SameCompletion(w, s', s'', Idle);
    CurrentMeans(w, s''.node.host);
  }

  lemma {:induction false} NobodyReads<S(!new)>(w: World<S>, s: State<S>, actions: seq<Action>)
    requires s.todo == [] && s.polls == [] && Quiet(actions)
    ensures Course(w, s, actions) == s
  {
    if actions != [] { NobodyReads(w, s, actions[..|actions| - 1]); }
  }

  /** With nobody reading, a store that has its tree's fingerprint stays as it is, whatever it holds. */
  lemma {:induction false} StaysMixed<S(!new)>(w: World<S>, s: State<S>, actions: seq<Action>)
    requires s.todo == [] && (forall k | 0 <= k < |s.polls| :: s.polls[k].Idle?) && Quiet(actions)
    requires Says(w, s.node.host).Some? && s.mark == Says(w, s.node.host).value.1
    ensures Course(w, s, actions) == s
  {
    if actions != [] {
      StaysMixed(w, s, actions[..|actions| - 1]);
      var a := actions[|actions| - 1];
      if a.Reload? && a.k < |s.polls| { assert s.polls[a.k := Idle] == s.polls; }
    }
  }

  lemma NotMending<S(!new)>(w: World<S>, s: State<S>)
    requires s.todo == [] && !Current(w, s.node.host) && Says(w, s.node.host).Some? && !Mending(w, s)
    ensures var (right, mark) := Says(w, s.node.host).value;
            s.polls != [] ==> Holds(w, s, (x: (S, string)) => x.0 != right && x.1 == mark)
  {
    hide Current, Completion, Says;
    CurrentMeans(w, s.node.host);
  }

  /** Some continuation leaves the store wrong, and no reload after it puts that right. */
  ghost predicate CanSpoilForGood<S(!new)>(w: World<S>, s: State<S>) {
    exists actions | Quiet(actions) :: !CanMend(w, Course(w, s, actions))
  }

  /** A reload under way will store something wrong, under the fingerprint of what is right. */
  ghost predicate Sticking<S(!new)>(w: World<S>, h: Host<S>, p: Poll<S>) {
    Straying(w, h, p) && Completion(w, h, p).value.1 == Says(w, h).value.1
  }

  /** That can happen exactly when a reload under way will store something wrong under the right fingerprint. */
  lemma SpoilsForGoodExactly<S(!new)>(w: World<S>, s: State<S>)
    requires s.todo == [] && Current(w, s.node.host)
    ensures CanSpoilForGood(w, s) <==>
            exists k | 0 <= k < |s.polls| :: Sticking(w, s.node.host, s.polls[k])
  {
    hide Current, Sticking, CanMend;
    if k :| 0 <= k < |s.polls| && Sticking(w, s.node.host, s.polls[k]) {
      var actions := SpoilsForGood(w, s, k);
    } else {
      forall actions | Quiet(actions) ensures CanMend(w, Course(w, s, actions)) { StaysMendable(w, s, actions); }
    }
  }

  /** It stores, and all others fail. */
  lemma SpoilsForGood<S(!new)>(w: World<S>, s: State<S>, k: nat) returns (actions: seq<Action>)
    requires s.todo == [] && k < |s.polls| && Sticking(w, s.node.host, s.polls[k])
    ensures Quiet(actions) && !CanMend(w, Course(w, s, actions))
  {
    hide Current, Completion, Says, CanMend;
    var first := Finishes(w, s, k);
    var s1 := Course(w, s, first);
    var rest := Silences(w, s1, |s1.polls|);
    var s2 := Course(w, s1, rest);
    CourseSplits(w, s, first, rest);
    actions := first + rest;
    SameCompletion(w, s, s1, Idle);
    SameCompletion(w, s1, s2, Idle);
    CurrentMeans(w, s2.node.host);
    ReadyCompletes(w, s2.node.host, Idle);
    MendsExactly(w, s2);
  }

  lemma StaysMendable<S(!new)>(w: World<S>, s: State<S>, actions: seq<Action>)
    requires s.todo == [] && Current(w, s.node.host) && Quiet(actions)
    requires forall k | 0 <= k < |s.polls| :: !Sticking(w, s.node.host, s.polls[k])
    ensures CanMend(w, Course(w, s, actions))
  {
    hide Current, Completion, Says;
    var h, s' := s.node.host, Course(w, s, actions);
    CurrentMeans(w, h);
    var P := (x: (S, string)) => Says(w, h).Some? ==> x.0 == Says(w, h).value.0 || x.1 != Says(w, h).value.1;
    CourseHolds(w, s, actions, P);
    SameCompletion(w, s, s', Idle);
    CurrentMeans(w, s'.node.host);
    if Current(w, s'.node.host) {
      var none: seq<Action> := [];
      assert Current(w, Course(w, s', none).node.host);
    } else {
      if s.polls == [] { NobodyReads(w, s, actions); }
      MendsExactly(w, s');
    }
  }
}
