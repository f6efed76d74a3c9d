/** The life of one session (cmd/http/server.go, internal/token/token.go). */
module Renewal {
  import opened Clock

  datatype Config = Config(ttl: int, renewAfter: int, maxTtl: int) {
    /** What a source is validated for. */
    predicate Valid() {
      ttl > 0 && (renewAfter != 0 ==> renewAfter < ttl) && (maxTtl != 0 ==> maxTtl >= ttl)
    }
  }

  datatype Session = Session(sid: string, issued: int, expiry: int, renew: int, born: int, cred: string)

  /** The local user behind a session when it comes to renew. */
  datatype Account = Foreign | Removed | Disabled | Active(cred: string)

  datatype Reason = MaxTtl | UserRemoved | UserDisabled | PasswordChanged

  datatype Spent = Alive | Spent(why: Reason)

  function ExpiryOf(c: Config, now: int, born: int): int {
    var expiry := now + c.ttl;
    Unix(if c.maxTtl > 0 && born * SECOND + c.maxTtl < expiry then born * SECOND + c.maxTtl else expiry)
  }

  function RenewAt(c: Config, now: int): int {
    if c.renewAfter <= 0 then 0 else Unix(now + c.renewAfter)
  }

  /** Sessions issued before births were recorded carry zero. */
  function BornOf(s: Session): int { if s.born == 0 then s.issued else s.born }

  function WhySpent(c: Config, s: Session, account: Account, now: int): Spent {
    if c.maxTtl > 0 && now - BornOf(s) * SECOND >= c.maxTtl then Spent(MaxTtl)
    else
      match account
      case Foreign => Alive
      case Removed => Spent(UserRemoved)
      case Disabled => Spent(UserDisabled)
      case Active(cred) => if s.cred != "" && s.cred != cred then Spent(PasswordChanged) else Alive
  }

  /** A session is spent exactly when it has lived its whole life, counted from its birth or, where none is recorded,
      from its issue; or when its local user is gone, disabled, or has another password than it was signed in
      with. The first of these is the reason given. */
  lemma SpentExactly(c: Config, s: Session, account: Account, now: int)
    ensures var first := if s.born != 0 then s.born else s.issued;
            var why, outlived := WhySpent(c, s, account, now), c.maxTtl > 0 && first * SECOND + c.maxTtl <= now;
            && (why == Spent(MaxTtl) <==> outlived)
            && (why == Spent(UserRemoved) <==> !outlived && account.Removed?)
            && (why == Spent(UserDisabled) <==> !outlived && account.Disabled?)
            && (why == Spent(PasswordChanged) <==>
                  !outlived && account.Active? && s.cred != "" && account.cred != s.cred)
            && (why == Alive <==>
                  !outlived && (account.Foreign? || (account.Active? && s.cred in {"", account.cred})))
  {
  }

  predicate Opens(s: Session, now: int) { s.sid != "" && s.expiry != 0 && Unix(now) < s.expiry }

  predicate NeedsRenew(s: Session, now: int) { s.renew != 0 && Unix(now) >= s.renew }

  function SignedIn(c: Config, sid: string, cred: string, now: int): Session {
    Session(sid, Unix(now), ExpiryOf(c, now, Unix(now)), RenewAt(c, now), Unix(now), cred)
  }

  /** A token just signed in is born and issued now, runs out with its term or the whole life, whichever is earlier, to
      the second, and is to be renewed after the time set for it, if one is. */
  lemma SignedInExactly(c: Config, sid: string, cred: string, now: int)
    ensures var s := SignedIn(c, sid, cred, now);
            var whole := s.born * SECOND + c.maxTtl;
            var ends := if c.maxTtl > 0 && whole < now + c.ttl then whole else now + c.ttl;
            && s.sid == sid && s.cred == cred && s.born == s.issued
            && s.issued * SECOND <= now < (s.issued + 1) * SECOND
            && s.expiry * SECOND <= ends < (s.expiry + 1) * SECOND
            && if c.renewAfter <= 0 then s.renew == 0
               else s.renew * SECOND <= now + c.renewAfter < (s.renew + 1) * SECOND
  {
  }

  function Renewed(c: Config, s: Session, now: int): Session {
    Session(s.sid, Unix(now), ExpiryOf(c, now, BornOf(s)), RenewAt(c, now), BornOf(s), s.cred)
  }

  /** The token a renewal works on, changed in place. */
  class Token {
    const sid: string
    const cred: string
    var issued: int
    var expiry: int
    var renew: int
    var born: int

    function Value(): Session
      reads this
    {
      Session(sid, issued, expiry, renew, born, cred)
    }

    constructor (s: Session)
      ensures Value() == s
    {
      sid, issued, expiry, renew, born, cred := s.sid, s.issued, s.expiry, s.renew, s.born, s.cred;
    }

    method Renew(c: Config, account: Account, now: int) returns (why: Spent)
      modifies this
      ensures why == WhySpent(c, old(Value()), account, now)
      ensures Value() == if why.Alive? then Renewed(c, old(Value()), now) else old(Value())
    {
      why := WhySpent(c, Value(), account, now);
      if why.Spent? { return; }
      if born == 0 { born := issued; }
      issued := Unix(now);
      expiry := ExpiryOf(c, now, born);
      renew := RenewAt(c, now);
    }
  }

  /** A request to renew; alive says whether the session list still has the session. */
  datatype Request = Request(now: int, account: Account, alive: bool)

  predicate Granted(c: Config, s: Session, r: Request) {
    Opens(s, r.now) && r.alive && WhySpent(c, s, r.account, r.now).Alive?
  }

  datatype Outcome = Token(s: Session) | Refused

  /** Renewal after renewal, starting from one token. */
  function Chain(c: Config, first: Session, rs: seq<Request>): Outcome {
    if rs == [] then Token(first)
    else
      var before, r := Chain(c, first, rs[..|rs| - 1]), rs[|rs| - 1];
      if before.Token? && Granted(c, before.s, r) then Token(Renewed(c, before.s, r.now)) else Refused
  }

  /** One more renewal is granted exactly if the ones before were, the token opens, its session is still listed, and it
      is not spent; it is then reissued. */
  lemma OneMoreRenewal(c: Config, first: Session, rs: seq<Request>, r: Request)
    ensures var before, after := Chain(c, first, rs), Chain(c, first, rs + [r]);
            && (after.Token? <==> before.Token? && Opens(before.s, r.now) && r.alive
                                  && WhySpent(c, before.s, r.account, r.now) == Alive)
            && (after.Token? ==> after.s == Renewed(c, before.s, r.now))
  {
    assert (rs + [r])[..|rs|] == rs;
  }

  /** Whatever the sequence of renewals, identity and birth stay, and the expiry is the earlier of the
      renewal's own term and the end of the whole life. */
  lemma {:induction false} ChainIsBounded(c: Config, first: Session, rs: seq<Request>)
    requires rs != [] && Chain(c, first, rs).Token? && BornOf(first) != 0
    ensures var s, now := Chain(c, first, rs).s, rs[|rs| - 1].now;
            && s.sid == first.sid && s.cred == first.cred
            && s.born == BornOf(first) == BornOf(s)
            && s.issued == Unix(now)
            && s.expiry * SECOND <= now + c.ttl
            && (c.maxTtl > 0 ==> s.expiry * SECOND <= s.born * SECOND + c.maxTtl && now < s.born * SECOND + c.maxTtl)
            && (s.expiry + 1) * SECOND > if c.maxTtl > 0 && s.born * SECOND + c.maxTtl < now + c.ttl
                                         then s.born * SECOND + c.maxTtl else now + c.ttl
  {
    var rest := rs[..|rs| - 1];
    if rest != [] { ChainIsBounded(c, first, rest); }
  }

  /** From Born + max_ttl on a session signed in under this source neither opens nor renews, however
      often and by whatever route its token was renewed before. */
  lemma WholeLifeEnds(c: Config, sid: string, cred: string, start: int, rs: seq<Request>, r: Request)
    requires c.maxTtl > 0 && Unix(start) != 0
    requires var first := SignedIn(c, sid, cred, start);
             Chain(c, first, rs).Token? && r.now >= Unix(start) * SECOND + c.maxTtl
    ensures var s := Chain(c, SignedIn(c, sid, cred, start), rs).s;
            && !Opens(s, r.now) && !Granted(c, s, r)
            && WhySpent(c, s, r.account, r.now) == Spent(MaxTtl)
  {
    if rs != [] { ChainIsBounded(c, SignedIn(c, sid, cred, start), rs); }
  }

  /** Once the user is gone, disabled or has another password, every token still in the world runs out
      within one ttl. */
  lemma AccountLossEnds(c: Config, sid: string, cred: string, start: int, rs: seq<Request>, gone: int, now: int)
    requires c.Valid() && cred != "" && start <= gone && Unix(start) != 0
    requires forall r | r in rs && r.now >= gone ::
               r.account == Removed || r.account == Disabled || (r.account.Active? && r.account.cred != cred)
    requires Chain(c, SignedIn(c, sid, cred, start), rs).Token? && now >= gone + c.ttl
    ensures !Opens(Chain(c, SignedIn(c, sid, cred, start), rs).s, now)
  {
    var first := SignedIn(c, sid, cred, start);
    if rs != [] {
      var before := rs[..|rs| - 1];
      ChainIsBounded(c, first, rs);
      if before != [] { ChainIsBounded(c, first, before); }
      assert rs[|rs| - 1] in rs;
    }
  }

  /** A session just renewed is sent to renew at once exactly when renew_after does not reach into the
      next second; from one second on it never is. */
  lemma RenewLoop(c: Config, s: Session, now: int)
    requires now >= SECOND
    ensures NeedsRenew(Renewed(c, s, now), now) <==> c.renewAfter > 0 && now % SECOND + c.renewAfter < SECOND
    ensures c.renewAfter >= SECOND ==> !NeedsRenew(Renewed(c, s, now), now)
  {
  }

  /** The moment a token issued now is good for at most. */
  function Last(c: Config, s: Session, now: int): int {
    var end := BornOf(s) * SECOND + c.maxTtl;
    if c.maxTtl > 0 && end < now + c.ttl then end else now + c.ttl
  }

  /** A renewed token opens at all exactly when its remaining term reaches into the next second. */
  lemma RenewedOpens(c: Config, s: Session, now: int)
    requires s.sid != "" && now >= 0
    ensures Opens(Renewed(c, s, now), now) <==> now % SECOND + (Last(c, s, now) - now) >= SECOND
  {
    assert ExpiryOf(c, now, BornOf(s)) == Unix(Last(c, s, now));
  }
}
