/** Revoking a session (cmd/http/server.go, internal/decide/decide.go). The form puts list changes on the
    wire; a sequencer orders what arrives; the form and the inspectors each follow that order with a
    mirror of their own. One source, one list. */
module Revocation {
  import opened Clock
  import opened Renewal
  import Seqs

  datatype Op = Add(sid: string, until: int) | Remove(sid: string)

  datatype Config = Config(source: Renewal.Config, listTtl: int, grace: int)

  /** form and inspector are how much of the log each mirror has taken in. tokens are all that were ever
      issued, inFlight the renewals that passed their checks and have not issued yet. */
  datatype State = State(clock: int, log: seq<Op>, wire: seq<Op>, form: nat, inspector: nat,
                         tokens: set<Session>, inFlight: seq<Session>, used: set<string>)

  datatype Action =
    | Login(sid: string, cred: string)
    | RenewCheck(token: Session, account: Account, ready: bool)
    | RenewIssue(k: nat)
    | Revoke(sid: string)
    | Sequence(k: nat)
    | Lose(k: nat)
    | FormMoves(to: nat)
    | InspectorMoves(to: nat)

  /** The last word of the log on a session. */
  function Latest(log: seq<Op>, sid: string): (n: int)
    ensures -1 <= n < |log|
    ensures n >= 0 ==> log[n].sid == sid && forall i | n < i < |log| :: log[i].sid != sid
    ensures n == -1 ==> forall i | 0 <= i < |log| :: log[i].sid != sid
  {
    if log == [] then -1
    else if log[|log| - 1].sid == sid then |log| - 1
    else Latest(log[..|log| - 1], sid)
  }

  /** Contains: what a mirror at some position says of a session. */
  predicate Listed(log: seq<Op>, at: nat, sid: string, now: int)
    requires at <= |log|
  {
    var n := Latest(log[..at], sid);
    n >= 0 && log[n].Add? && now < log[n].until
  }

  predicate InGrace(c: Config, t: Session, now: int) { now - t.issued * SECOND <= c.grace }

  /** alive, and the same test in the inspector's open. */
  predicate Lives(c: Config, s: State, at: nat, t: Session, ready: bool)
    requires at <= |s.log|
  {
    InGrace(c, t, s.clock) || (ready && Listed(s.log, at, t.sid, s.clock))
  }

  predicate FormAccepts(c: Config, s: State, t: Session, ready: bool)
    requires s.form <= |s.log|
  {
    Opens(t, s.clock) && Lives(c, s, s.form, t, ready)
  }

  predicate InspectorAccepts(c: Config, s: State, t: Session, ready: bool)
    requires s.inspector <= |s.log|
  {
    Opens(t, s.clock) && Lives(c, s, s.inspector, t, ready)
  }

  function Listing(c: Config, t: Session, now: int): Op {
    Add(t.sid, if t.expiry * SECOND - now > c.listTtl then now + c.listTtl else t.expiry * SECOND)
  }

  /** issue and remember. */
  function Issue(c: Config, s: State, t: Session): State {
    s.(tokens := s.tokens + {t}, wire := s.wire + [Listing(c, t, s.clock)])
  }

  function Forget(s: State, sid: string): State {
    if sid == "" then s else s.(wire := s.wire + [Remove(sid)], used := s.used + {sid})
  }

  function Drop<T>(xs: seq<T>, k: nat): seq<T>
    requires k < |xs|
  {
    xs[..k] + xs[k + 1..]
  }

  predicate Possible(s: State, a: Action) {
    && s.form <= |s.log| && s.inspector <= |s.log|
    && match a
       case Login(sid, _) => sid != "" && sid !in s.used
       case RenewCheck(t, _, _) => t in s.tokens
       case RenewIssue(k) => k < |s.inFlight|
       case Revoke(_) => true
       case Sequence(k) => k < |s.wire|
       case Lose(k) => k < |s.wire|
       case FormMoves(to) => to <= |s.log|
       case InspectorMoves(to) => to <= |s.log|
  }

  function Step(c: Config, s: State, a: Action): State
    requires Possible(s, a)
  {
    match a
    case Login(sid, cred) =>
      Issue(c, s.(used := s.used + {sid}), SignedIn(c.source, sid, cred, s.clock))
    case RenewCheck(t, account, ready) =>
      if !FormAccepts(c, s, t, ready) then s
      else if WhySpent(c.source, t, account, s.clock).Spent? then Forget(s, t.sid)
      else s.(inFlight := s.inFlight + [Renewed(c.source, t, s.clock)])
    case RenewIssue(k) =>
      Issue(c, s.(inFlight := Drop(s.inFlight, k)), s.inFlight[k])
    case Revoke(sid) => Forget(s, sid)
    case Sequence(k) => s.(log := s.log + [s.wire[k]], wire := Drop(s.wire, k))
    case Lose(k) => s.(wire := Drop(s.wire, k))
    case FormMoves(to) => s.(form := to)
    case InspectorMoves(to) => s.(inspector := to)
  }

  function Tick(s: State, now: int): State { s.(clock := if now < s.clock then s.clock else now) }

  // What the steps mean.

  /** The last word of the first at entries on sid adds it, for longer than now. */
  lemma ListedExactly(log: seq<Op>, at: nat, sid: string, now: int)
    requires at <= |log|
    ensures Listed(log, at, sid, now) <==>
              exists n :: 0 <= n < at && log[n].Add? && log[n].sid == sid && log[n].until > now
                          && forall i | n < i < at :: log[i].sid != sid
  {
    var l, n := log[..at], Latest(log[..at], sid);
    assert forall i | 0 <= i < at :: l[i] == log[i];
    hide Latest;
    forall m | 0 <= m < at && log[m].sid == sid && forall i | m < i < at :: log[i].sid != sid ensures m == n {
      assert l[m].sid == sid;
    }
  }

  /** A token is listed until it expires, but for no longer than the list keeps entries. */
  lemma ListingExactly(c: Config, t: Session, now: int)
    ensures var op := Listing(c, t, now);
            && op.Add? && op.sid == t.sid && op.until <= t.expiry * SECOND && op.until <= now + c.listTtl
            && (op.until == t.expiry * SECOND || op.until == now + c.listTtl)
  {
  }

  /** s' is s with a token given out and its listing on the wire. */
  ghost predicate GivesOut(c: Config, s: State, s': State, t: Session) {
    && s'.tokens == s.tokens + {t} && |s'.wire| == |s.wire| + 1 && s.wire <= s'.wire
    && s'.wire[|s.wire|] == Listing(c, t, s.clock)
    && s'.log == s.log && s'.form == s.form && s'.inspector == s.inspector && s'.clock == s.clock
  }

  /** s' is s with a removal on the wire. */
  ghost predicate Removes(s: State, s': State, sid: string) {
    && |s'.wire| == |s.wire| + 1 && s.wire <= s'.wire && s'.wire[|s.wire|] == Remove(sid)
    && s'.tokens == s.tokens && s'.log == s.log && s'.form == s.form && s'.inspector == s.inspector
    && s'.inFlight == s.inFlight && s'.clock == s.clock && sid in s'.used
  }

  /** What the form does: a sign-in gives out a new token; a renewal asked for with a token it does not honour does
      nothing, with a spent one it removes the session, and else a token of the same session is on its way,
      which is given out in the end; a revocation removes the session, unless it names none. */
  lemma FormSteps(c: Config, s: State, a: Action)
    requires Possible(s, a)
    ensures var s' := Step(c, s, a);
            match a
            case Login(sid, cred) =>
              GivesOut(c, s, s', SignedIn(c.source, sid, cred, s.clock)) && s'.inFlight == s.inFlight && sid in s'.used
            case RenewCheck(t, account, ready) =>
              var honoured := t.sid != "" && t.expiry != 0 && Unix(s.clock) < t.expiry
                              && (s.clock <= t.issued * SECOND + c.grace
                                  || (ready && Listed(s.log, s.form, t.sid, s.clock)));
              if !honoured then s' == s
              else if WhySpent(c.source, t, account, s.clock) != Alive then Removes(s, s', t.sid)
              else
                |s'.inFlight| == |s.inFlight| + 1 && s.inFlight <= s'.inFlight
                && s' == s.(inFlight := s'.inFlight)
                && var next := s'.inFlight[|s.inFlight|];
                   next.sid == t.sid && next.cred == t.cred && next.issued == Unix(s.clock)
                   && next.born == if t.born != 0 then t.born else t.issued
            case RenewIssue(k) =>
              GivesOut(c, s, s', s.inFlight[k]) && s'.inFlight == s.inFlight[..k] + s.inFlight[k + 1..]
            case Revoke(sid) => if sid == "" then s' == s else Removes(s, s', sid)
            case _ => true
  {
  }

  /** What the wire and the mirrors do: an entry is sequenced at the log's end or lost, and a mirror moves. */
  lemma WireSteps(c: Config, s: State, a: Action)
    requires Possible(s, a)
    ensures var s' := Step(c, s, a);
            match a
            case Sequence(k) =>
              s' == s.(log := s'.log, wire := s'.wire) && s'.log == s.log + [s.wire[k]]
              && s'.wire == s.wire[..k] + s.wire[k + 1..]
            case Lose(k) => s' == s.(wire := s'.wire) && s'.wire == s.wire[..k] + s.wire[k + 1..]
            case FormMoves(to) => s' == s.(form := to)
            case InspectorMoves(to) => s' == s.(inspector := to)
            case _ => s'.log == s.log && s'.form == s.form && s'.inspector == s.inspector
  {
  }

  /** The clock shows the latest moment there was. */
  lemma ClockShows(s: State, now: int)
    ensures Tick(s, now).clock >= now && Tick(s, now).clock >= s.clock && Tick(s, now).clock in {now, s.clock}
    ensures Tick(s, now) == s.(clock := Tick(s, now).clock)
  {
  }

  ghost predicate Follows(c: Config, s: State, events: seq<(int, Action)>)
    decreases |events|
  {
    events == [] ||
    (Possible(Tick(s, events[0].0), events[0].1) &&
     Follows(c, Step(c, Tick(s, events[0].0), events[0].1), events[1..]))
  }

  /** Where a run ends. */
  ghost function After(c: Config, s: State, events: seq<(int, Action)>): State
    requires Follows(c, s, events)
    decreases |events|
  {
    if events == [] then s else After(c, Step(c, Tick(s, events[0].0), events[0].1), events[1..])
  }

  /** The removal at r is the last word on sid and the form knows it; nothing that would list sid again
      is under way, and every token of it is out of the grace window. */
  ghost predicate Quiet(c: Config, s: State, sid: string, r: nat) {
    && r < |s.log| && s.log[r] == Remove(sid) && s.form <= |s.log| && s.inspector <= |s.log|
    && (forall i | r < i < |s.log| && s.log[i].sid == sid :: s.log[i].Remove?)
    && r < s.form
    && (forall i | 0 <= i < |s.wire| && s.wire[i].sid == sid :: s.wire[i].Remove?)
    && (forall i | 0 <= i < |s.inFlight| :: s.inFlight[i].sid != sid)
    && (forall t | t in s.tokens && t.sid == sid :: !InGrace(c, t, s.clock))
    && sid in s.used
  }

  lemma NotListed(c: Config, s: State, sid: string, r: nat, at: nat)
    requires Quiet(c, s, sid, r) && r < at <= |s.log|
    ensures !Listed(s.log, at, sid, s.clock)
  {
    var n := Latest(s.log[..at], sid);
    assert s.log[..at][r].sid == sid;
    assert n >= r && s.log[..at][n] == s.log[n];
  }

  ghost function TokensOf(s: State, sid: string): set<Session> {
    set t | t in s.tokens && t.sid == sid
  }

  lemma StepKeepsQuiet(c: Config, s: State, now: int, a: Action, sid: string, r: nat)
    requires Quiet(c, s, sid, r) && Possible(Tick(s, now), a)
    requires a.FormMoves? ==> a.to > r
    ensures var s' := Step(c, Tick(s, now), a);
            Quiet(c, s', sid, r) && TokensOf(s', sid) == TokensOf(s, sid)
  {
    var t := Tick(s, now);
    assert Quiet(c, t, sid, r);
    if a.RenewCheck? && a.token.sid == sid {
      NotListed(c, t, sid, r, t.form);
    }
    hide Listed, Opens;
  }

  /** Revocation is final: once quiet, whatever follows with the form's mirror not falling back before
      the removal, sid is not issued, renewed or listed again, and no inspector whose mirror has passed
      the removal accepts a token of it. */
  lemma {:induction false} RevocationIsFinal(c: Config, s: State, events: seq<(int, Action)>, sid: string, r: nat)
    requires Quiet(c, s, sid, r) && Follows(c, s, events)
    requires forall i | 0 <= i < |events| && events[i].1.FormMoves? :: events[i].1.to > r
    ensures var s' := After(c, s, events);
            && Quiet(c, s', sid, r) && TokensOf(s', sid) == TokensOf(s, sid)
            && (forall at | r < at <= |s'.log| :: !Listed(s'.log, at, sid, s'.clock))
            && (forall t, ready | t in TokensOf(s, sid) ::
                  && !FormAccepts(c, s', t, ready)
                  && (r < s'.inspector ==> !InspectorAccepts(c, s', t, ready)))
    decreases |events|
  {
    hide Step, Listed, Opens;
    if events == [] {
      forall at | r < at <= |s.log| ensures !Listed(s.log, at, sid, s.clock) {
        NotListed(c, s, sid, r, at);
      }
    } else {
      StepKeepsQuiet(c, s, events[0].0, events[0].1, sid, r);
      RevocationIsFinal(c, Step(c, Tick(s, events[0].0), events[0].1), events[1..], sid, r);
    }
  }

  // Exactly when a session can come back.

  /** Some request of this token would be renewed, here or with the form's mirror further on. */
  ghost predicate Renewable(c: Config, s: State, t: Session) {
    && Opens(t, s.clock) && WhySpent(c.source, t, Foreign, s.clock).Alive?
    && (InGrace(c, t, s.clock) || exists q :: s.form <= q <= |s.log| && Listed(s.log, q, t.sid, s.clock))
  }

  ghost predicate Closed(c: Config, s: State, sid: string) {
    && sid in s.used
    && (forall i | 0 <= i < |s.wire| && s.wire[i].sid == sid :: s.wire[i].Remove?)
    && (forall i | 0 <= i < |s.inFlight| :: s.inFlight[i].sid != sid)
    && (forall t | t in s.tokens && t.sid == sid :: !Renewable(c, s, t))
  }

  /** The form's mirror only moves on. */
  ghost predicate Forward(c: Config, s: State, events: seq<(int, Action)>)
    requires Follows(c, s, events)
    decreases |events|
  {
    events != [] ==>
      && (events[0].1.FormMoves? ==> events[0].1.to >= s.form)
      && Forward(c, Step(c, Tick(s, events[0].0), events[0].1), events[1..])
  }

  /** The sequencer took an addition of sid. */
  ghost predicate Returned(s: State, s': State, sid: string) {
    exists i :: |s.log| <= i < |s'.log| && s'.log[i].Add? && s'.log[i].sid == sid
  }

  /** A run that moves the form's mirror only forward and has sid added again. */
  ghost predicate BringsBack(c: Config, s: State, events: seq<(int, Action)>, sid: string) {
    Follows(c, s, events) && Forward(c, s, events) && Returned(s, After(c, s, events), sid)
  }

  lemma TickClosed(c: Config, s: State, now: int, sid: string)
    requires Closed(c, s, sid)
    ensures Closed(c, Tick(s, now), sid)
  {
    var t := Tick(s, now);
    forall x | x in s.tokens && x.sid == sid ensures !Renewable(c, t, x) {
      if q :| t.form <= q <= |t.log| && Listed(t.log, q, sid, t.clock) {
        assert Listed(s.log, q, sid, s.clock);
      }
    }
  }

  /** Taking in an op that is not an addition of sid lists sid nowhere new. */
  lemma NothingNew(log: seq<Op>, op: Op, sid: string, q: nat, now: int)
    requires q <= |log| + 1 && (op.sid == sid ==> op.Remove?)
    ensures Listed(log + [op], q, sid, now) ==> Listed(log, if q <= |log| then q else |log|, sid, now)
  {
    if q <= |log| {
      assert (log + [op])[..q] == log[..q];
    } else {
      assert (log + [op])[..q] == log + [op] && log[..|log|] == log;
    }
  }

  lemma SequenceClosed(c: Config, s: State, k: nat, sid: string)
    requires Closed(c, s, sid) && k < |s.wire| && s.form <= |s.log|
    ensures Closed(c, s.(log := s.log + [s.wire[k]], wire := Drop(s.wire, k)), sid)
  {
    var s' := s.(log := s.log + [s.wire[k]], wire := Drop(s.wire, k));
    forall t | t in s.tokens && t.sid == sid ensures !Renewable(c, s', t) {
      if q :| s'.form <= q <= |s'.log| && Listed(s'.log, q, sid, s.clock) {
        NothingNew(s.log, s.wire[k], sid, q, s.clock);
      }
    }
    hide Listed, Opens, WhySpent;
  }

  lemma StepClosed(c: Config, s: State, a: Action, sid: string)
    requires Closed(c, s, sid) && Possible(s, a) && (a.FormMoves? ==> a.to >= s.form)
    ensures Closed(c, Step(c, s, a), sid)
    ensures |s.log| <= |Step(c, s, a).log| && !Returned(s, Step(c, s, a), sid)
  {
    hide Listed, Opens;
    if a.Sequence? {
      SequenceClosed(c, s, a.k, sid);
    } else if a.RenewCheck? && a.token.sid == sid && FormAccepts(c, s, a.token, a.ready) {
      assert InGrace(c, a.token, s.clock) || Listed(s.log, s.form, sid, s.clock);
    }
  }

  lemma {:induction false} ClosedForGood(c: Config, s: State, events: seq<(int, Action)>, sid: string)
    requires Closed(c, s, sid) && Follows(c, s, events) && Forward(c, s, events)
    ensures var s' := After(c, s, events);
            && Closed(c, s', sid) && !Returned(s, s', sid)
            && |s.log| <= |s'.log| && s'.log[..|s.log|] == s.log
    decreases |events|
  {
    if events != [] {
      var t := Tick(s, events[0].0);
      TickClosed(c, s, events[0].0, sid);
      StepClosed(c, t, events[0].1, sid);
      var next := Step(c, t, events[0].1);
      assert next.log[..|s.log|] == s.log;
      ClosedForGood(c, next, events[1..], sid);
      var last := After(c, next, events[1..]);
      assert last.log[..|s.log|] == next.log[..|s.log|];
      assert forall i | |s.log| <= i < |next.log| :: last.log[i] == next.log[i];
    }
    hide Closed, Step;
  }

  /** Revocation holds for good exactly when closed: in every run that moves the form's mirror only
      forward no addition of sid is sequenced again, and as long as it is not closed some run brings
      the session back. */
  lemma ReturnsExactly(c: Config, s: State, sid: string)
    requires s.form <= |s.log| && s.inspector <= |s.log| && sid in s.used
    ensures (exists events :: BringsBack(c, s, events, sid)) <==> !Closed(c, s, sid)
  {
    if Closed(c, s, sid) {
      forall events | Follows(c, s, events) && Forward(c, s, events) ensures !BringsBack(c, s, events, sid) {
        ClosedForGood(c, s, events, sid);
      }
    } else {
      var events := WayBack(c, s, sid);
      assert BringsBack(c, s, events, sid);
    }
  }

  lemma WayBack(c: Config, s: State, sid: string) returns (events: seq<(int, Action)>)
    requires !Closed(c, s, sid) && s.form <= |s.log| && s.inspector <= |s.log| && sid in s.used
    ensures Follows(c, s, events) && Forward(c, s, events) && Returned(s, After(c, s, events), sid)
  {
    if i :| 0 <= i < |s.wire| && s.wire[i].sid == sid && s.wire[i].Add? {
      events := FromWire(c, s, i);
    } else if k :| 0 <= k < |s.inFlight| && s.inFlight[k].sid == sid {
      events := FromIssue(c, s, k);
    } else {
      var t :| t in s.tokens && t.sid == sid && Renewable(c, s, t);
      events := FromToken(c, s, t);
    }
  }

  lemma FromWire(c: Config, s: State, i: nat) returns (events: seq<(int, Action)>)
    requires i < |s.wire| && s.wire[i].Add? && s.form <= |s.log| && s.inspector <= |s.log|
    ensures Follows(c, s, events) && Forward(c, s, events) && Returned(s, After(c, s, events), s.wire[i].sid)
  {
    events := [(s.clock, Sequence(i))];
    var s' := Step(c, s, Sequence(i));
    assert Tick(s, s.clock) == s && events[1..] == [];
    assert After(c, s, events) == s';
    assert s'.log[|s.log|] == s.wire[i];
  }

  /** One more event in front. */
  lemma Before(c: Config, s: State, a: Action, events: seq<(int, Action)>, sid: string)
    requires Possible(s, a) && (a.FormMoves? ==> a.to >= s.form) && Step(c, s, a).log == s.log
    requires Follows(c, Step(c, s, a), events) && Forward(c, Step(c, s, a), events)
    requires Returned(Step(c, s, a), After(c, Step(c, s, a), events), sid)
    ensures var all := [(s.clock, a)] + events;
            Follows(c, s, all) && Forward(c, s, all) && Returned(s, After(c, s, all), sid)
  {
    hide Step;
    var all := [(s.clock, a)] + events;
    assert all[1..] == events && Tick(s, s.clock) == s;
  }

  lemma FromIssue(c: Config, s: State, k: nat) returns (events: seq<(int, Action)>)
    requires k < |s.inFlight| && s.form <= |s.log| && s.inspector <= |s.log|
    ensures Follows(c, s, events) && Forward(c, s, events) && Returned(s, After(c, s, events), s.inFlight[k].sid)
  {
    var s' := Step(c, s, RenewIssue(k));
    var rest := FromWire(c, s', |s.wire|);
    Before(c, s, RenewIssue(k), rest, s.inFlight[k].sid);
    events := [(s.clock, RenewIssue(k))] + rest;
  }

  lemma FromToken(c: Config, s: State, t: Session) returns (events: seq<(int, Action)>)
    requires t in s.tokens && Renewable(c, s, t) && s.form <= |s.log| && s.inspector <= |s.log|
    ensures Follows(c, s, events) && Forward(c, s, events) && Returned(s, After(c, s, events), t.sid)
  {
    var q := if InGrace(c, t, s.clock) then s.form
             else var q :| s.form <= q <= |s.log| && Listed(s.log, q, t.sid, s.clock); q;
    var move, ask := FormMoves(q), RenewCheck(t, Foreign, true);
    var moved := Step(c, s, move);
    var asked := Step(c, moved, ask);
    assert FormAccepts(c, moved, t, true);
    assert asked.inFlight[|s.inFlight|] == Renewed(c.source, t, s.clock);
    var rest := FromIssue(c, asked, |s.inFlight|);
    Before(c, moved, ask, rest, t.sid);
    Before(c, s, move, [(s.clock, ask)] + rest, t.sid);
    events := [(s.clock, move)] + ([(s.clock, ask)] + rest);
  }

  lemma QuietIsClosed(c: Config, s: State, sid: string, r: nat)
    requires Quiet(c, s, sid, r)
    ensures Closed(c, s, sid)
  {
    forall q | s.form <= q <= |s.log| ensures !Listed(s.log, q, sid, s.clock) {
      NotListed(c, s, sid, r, q);
    }
  }

  // What the list is for.

  /** The list never keeps a session longer than its token, nor longer than the list's own term. */
  lemma ListingEnds(c: Config, t: Session, now: int)
    ensures var op := Listing(c, t, now);
            op.until <= t.expiry * SECOND && op.until <= now + c.listTtl
            && (op.until == t.expiry * SECOND || op.until == now + c.listTtl)
  {
  }

  lemma LatestAtEnd(log: seq<Op>, op: Op)
    ensures Latest(log + [op], op.sid) == |log|
  {
  }

  /** A session signed in and sequenced is honoured by every mirror that took the addition in, past the
      grace window and until the earlier of its expiry and the list's term. */
  lemma SignedInIsHonoured(c: Config, s: State, sid: string, cred: string, later: int)
    requires s.form <= |s.log| && s.inspector <= |s.log| && sid != "" && sid !in s.used && s.clock >= 0
    requires var t := SignedIn(c.source, sid, cred, s.clock);
             s.clock <= later && later < t.expiry * SECOND && later < s.clock + c.listTtl
    ensures var s1 := Step(c, s, Login(sid, cred));
            var s2 := Step(c, s1, Sequence(|s1.wire| - 1));
            var s3 := Step(c, s2, InspectorMoves(|s2.log|));
            InspectorAccepts(c, Tick(s3, later), SignedIn(c.source, sid, cred, s.clock), true)
  {
    var s1 := Step(c, s, Login(sid, cred));
    var op := s1.wire[|s1.wire| - 1];
    LatestAtEnd(s.log, op);
    ListingEnds(c, SignedIn(c.source, sid, cred, s.clock), s.clock);
    assert (s.log + [op])[..|s.log| + 1] == s.log + [op];
  }

  /** A revocation, once sequenced, takes the session off every mirror that took it in. */
  lemma RevokedIsUnlisted(c: Config, s: State, sid: string, now: int)
    requires s.form <= |s.log| && s.inspector <= |s.log| && sid != ""
    ensures var s1 := Step(c, s, Revoke(sid));
            var s2 := Step(c, s1, Sequence(|s1.wire| - 1));
            !Listed(s2.log, |s2.log|, sid, now) && s2.wire == s.wire
  {
    LatestAtEnd(s.log, Remove(sid));
    assert (s.log + [Remove(sid)])[..|s.log| + 1] == s.log + [Remove(sid)];
    Seqs.Split(s.wire, [Remove(sid)]);
  }

  /** The form's side of one request: what it answers, and what it puts on the wire. */
  class Form {
    var wire: seq<Op>

    constructor ()
      ensures wire == []
    {
      wire := [];
    }

    method Remember(c: Config, t: Session, now: int)
      modifies this
      ensures wire == old(wire) + [Listing(c, t, now)]
    {
      var ttl := t.expiry * SECOND - now;
      if ttl > c.listTtl { ttl := c.listTtl; }
      wire := wire + [Add(t.sid, now + ttl)];
    }

    method PutRemoval(sid: string)
      modifies this
      ensures wire == old(wire) + if sid == "" then [] else [Remove(sid)]
    {
      if sid == "" { return; }
      wire := wire + [Remove(sid)];
    }

    /** renew. The session is opened, alive says what the list or the grace window make of it; a spent
        one is taken off the list, a renewed one put on it anew. */
    method RenewRequest(c: Config, cookie: Session, alive: bool, account: Account, now: int) returns (out: Outcome)
      modifies this
      ensures out == if Granted(c.source, cookie, Request(now, account, alive))
                     then Outcome.Token(Renewed(c.source, cookie, now)) else Refused
      ensures wire == old(wire) +
                      if out.Token? then [Listing(c, out.s, now)]
                      else if Opens(cookie, now) && alive then [Remove(cookie.sid)]
                      else []
    {
      if !Opens(cookie, now) || !alive { return Refused; }
      var token := new Renewal.Token(cookie);
      var why := token.Renew(c.source, account, now);
      if why.Spent? {
        PutRemoval(cookie.sid);
        return Refused;
      }
      Remember(c, token.Value(), now);
      return Outcome.Token(token.Value());
    }

    /** closeGate: signing out removes whatever session still opens. */
    method CloseGate(cookie: Session, now: int)
      modifies this
      ensures wire == old(wire) + if Opens(cookie, now) then [Remove(cookie.sid)] else []
    {
      if Opens(cookie, now) { PutRemoval(cookie.sid); }
    }
  }

  /** A renewal request alone is a check and an issue of the run. */
  lemma RequestIsTwoSteps(c: Config, s: State, cookie: Session, account: Account, ready: bool)
    requires cookie in s.tokens && s.form <= |s.log| && s.inspector <= |s.log| && s.inFlight == []
    ensures var alive := Lives(c, s, s.form, cookie, ready);
            var s' := Step(c, s, RenewCheck(cookie, account, ready));
            if Granted(c.source, cookie, Request(s.clock, account, alive)) then
              && s'.inFlight == [Renewed(c.source, cookie, s.clock)]
              && Step(c, s', RenewIssue(0)).wire == s.wire + [Listing(c, Renewed(c.source, cookie, s.clock), s.clock)]
              && Step(c, s', RenewIssue(0)).inFlight == []
            else
              && s'.inFlight == []
              && s'.wire == s.wire + if Opens(cookie, s.clock) && alive then [Remove(cookie.sid)] else []
  {
    hide Listed;
  }
}
