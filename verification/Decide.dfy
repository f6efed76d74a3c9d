/** The gate's answer to one request (internal/decide/decide.go) under one profile
    (internal/config/profile.go). Opening what is sealed, hashing and subnet arithmetic are inputs. */
module Decide {
  import opened Clock
  import opened Asks
  import Query
  import Renewal
  import Revocation

  datatype Mode = Enforce | Observe | Off
  datatype Verdict = Allow | Deny | Redirect | Error
  datatype Code =
    | Ok | SwitchedOff | Self | Observed | Renew | Reauth | Skipped
    | NoSession | SessionBad | SessionExpired | SessionBind | SessionScope | SessionSource | SessionRevoked
    | ListUnavailable | Forbidden | UnknownProfile

  datatype Provider = Form | Jwt(leeway: int, issuer: string, audience: string, verifies: bool) | App

  datatype List = List(sessions: string, grace: int)

  datatype Source = Source(name: string, provider: Provider, loginUri: string, cookie: string, list: Option<List>,
                           appList: string, bindsNet: bool, bindsUa: bool, learns: set<string>)

  datatype Profile = Profile(mode: Mode, src: Option<Source>, rules: seq<Rule>, reauthAfter: int,
                             redirectMethods: seq<string>, redirectStatus: int, denyResponse: string,
                             forbiddenResponse: string, htmlOnly: bool, groups: seq<string>, inline: bool)

  datatype Session = Session(life: Renewal.Session, sub: string, scope: string, iss: string, net: string, ua: string,
                             groups: seq<string>, amr: seq<string>)

  /** hash names the cookie in the application's list, sealed is what this service's key opens it to. */
  datatype Cookie = Absent | Raw(hash: string, sealed: Option<Session>)

  datatype Claims = Claims(expiry: Option<int>, notBefore: Option<int>, issuer: string, audience: seq<string>,
                           id: string, user: string, issued: int, groups: seq<string>)
  datatype Bearer = NoToken | Malformed | Parsed(signed: bool, claims: Claims)

  datatype Entry = Entry(user: string, expires: int)
  datatype Mirror = NoMirror | NotReady | Ready(entries: map<string, Entry>)

  datatype Request = Request(ask: string, meth: string, uri: string, args: string,
                             cookie: Cookie, bearer: Bearer, net: string, ua: string, dest: string,
                         upgrades: bool, acceptsHtml: bool, prior: seq<Prior>, storeDown: string, now: int,
                         mirror: Mirror, nonce: string, seals: bool, fold: string -> string)

  datatype Finding = Finding(code: string, rule: string)

  /** What goes into the audit beside the answer. */
  datatype Engine = Engine(passive: bool, self: bool, forbidden: bool, reauth: bool, renew: bool, inline: bool,
                           would: Option<(Verdict, Code)>, outcomes: seq<Outcome>)

  datatype Event = Quiet | Anonymous | Authenticated | Invalid | WrongGroup

  datatype Ticket = Ticket(nonce: string, back: string, scope: string)

  datatype Result = Result(verdict: Verdict, code: Code, response: string, url: string, status: int,
                           ticket: Option<Ticket>, inline: bool, session: Option<Session>,
                           findings: seq<Finding>, engine: Engine, event: Event)

  const NO_ENGINE := Engine(false, false, false, false, false, false, None, [])

  // Opening the session (open, openJWT, openApp).

  datatype Opened = Held(s: Session) | Closed(code: Code, findings: seq<Finding>)

  function Bad(rule: string): seq<Finding> { [Finding("auth-session-bad", rule)] }

  function ListDown(src: string): seq<Finding> { [Finding("auth-list-unavailable", src)] }

  function AbsentFindings(storeDown: string): seq<Finding> {
    if storeDown == "" then [] else [Finding("auth-store-unavailable", storeDown)]
  }

  function NoneGiven(r: Request): Opened { Closed(NoSession, AbsentFindings(r.storeDown)) }

  /** A bind counts where both sides have one. */
  predicate Binds(want: string, has: string) { want == "" || has == "" || want == has }

  function OpenForm(r: Request, src: Source): Opened {
    if r.cookie.Absent? then NoneGiven(r)
    else if r.cookie.sealed.None? then Closed(SessionBad, Bad("signature"))
    else
      var s := r.cookie.sealed.value;
      if s.life.sid == "" || s.life.expiry == 0 then Closed(SessionBad, Bad("signature"))
      else if Unix(r.now) >= s.life.expiry then Closed(SessionExpired, [])
      else if !Binds(if src.bindsNet then r.net else "", s.net) then Closed(SessionBind, Bad("bind"))
      else if !Binds(if src.bindsUa then r.ua else "", s.ua) then Closed(SessionBind, Bad("bind"))
      else if s.scope != "" && s.scope != src.cookie then Closed(SessionScope, [])
      else if s.iss != src.name then Closed(SessionSource, [])
      else if src.list.Some? && r.now - s.life.issued * SECOND > src.list.value.grace then
        var name := src.list.value.sessions;
        match r.mirror
        case NoMirror => Closed(ListUnavailable, ListDown(name))
        case NotReady => Closed(ListUnavailable, ListDown(name))
        case Ready(entries) =>
          if s.life.sid in entries then Held(s)
          else Closed(SessionRevoked, [Finding("auth-session-revoked", s.life.sid)])
      else Held(s)
  }

  function OpenJwt(r: Request, src: Source, leeway: int, issuer: string, audience: string, verifies: bool): Opened {
    match r.bearer
    case NoToken => NoneGiven(r)
    case Malformed => Closed(SessionBad, Bad("malformed"))
    case Parsed(signed, claims) =>
      if verifies && !signed then Closed(SessionBad, Bad("signature"))
      else if claims.expiry.Some? && Unix(r.now) > claims.expiry.value + leeway then Closed(SessionExpired, [])
      else if claims.notBefore.Some? && Unix(r.now) < claims.notBefore.value - leeway
      then Closed(SessionBad, Bad("nbf"))
      else if issuer != "" && claims.issuer != issuer then Closed(SessionSource, Bad("issuer"))
      else if audience != "" && audience !in claims.audience then Closed(SessionScope, Bad("audience"))
      else
        var expiry := if claims.expiry.Some? then claims.expiry.value else 0;
        var life := Renewal.Session(claims.id, claims.issued, expiry, 0, 0, "");
        Held(Session(life, claims.user, "", src.name, "", "", claims.groups, ["jwt"]))
  }

  /** Whole seconds of milliseconds, cut off toward zero. */
  function Seconds(ms: int): int { if ms >= 0 then ms / 1000 else -(-ms / 1000) }

  function OpenApp(r: Request, src: Source): Opened {
    if r.cookie.Absent? then NoneGiven(r)
    else
      match r.mirror
      case NoMirror => Closed(ListUnavailable, ListDown(src.appList))
      case NotReady => Closed(ListUnavailable, ListDown(src.appList))
      case Ready(entries) =>
        if r.cookie.hash !in entries then Closed(NoSession, [])
        else
          var e := entries[r.cookie.hash];
          var life := Renewal.Session(r.cookie.hash, 0, Seconds(e.expires), 0, 0, "");
          Held(Session(life, e.user, "", src.name, "", "", [], ["app"]))
  }

  function Open(r: Request, src: Source): Opened {
    match src.provider
    case Form => OpenForm(r, src)
    case Jwt(leeway, issuer, audience, verifies) => OpenJwt(r, src, leeway, issuer, audience, verifies)
    case App => OpenApp(r, src)
  }

  // Where a request is sent.

  predicate Printable(c: char) { '!' <= c <= '~' && c != '\\' }

  predicate AllPrintable(s: string) { forall c | c in s :: Printable(c) }

  /** "//host" would leave this host. */
  predicate OtherHost(path: string) { |path| >= 2 && path[0] == '/' && path[1] == '/' }

  function ReturnPath(uri: string, args: string): (back: string)
    ensures AllPrintable(back)
  {
    if uri == "" || uri[0] != '/' || OtherHost(uri) then ""
    else
      var out := if args == "" then uri else uri + "?" + args;
      if |out| > 1024 || !AllPrintable(out) then "" else out
  }

  function TrimSlashes(s: string): string {
    if s != "" && s[|s| - 1] == '/' then TrimSlashes(s[..|s| - 1]) else s
  }

  /** What the form makes of a return path it is handed back (localPath in cmd/http/server.go). */
  function LocalPath(raw: string): string {
    if raw == "" || raw[0] != '/' || OtherHost(raw) || |raw| > 1024 || !AllPrintable(raw) then ""
    else raw
  }

  predicate OwnPath(p: Profile, uri: string) {
    && p.src.Some?
    && (uri in p.src.value.learns
        || (p.src.value.loginUri != ""
            && (uri == p.src.value.loginUri || TrimSlashes(p.src.value.loginUri) + "/" <= uri)))
  }

  predicate ShowsPage(r: Request) {
    if r.dest == "" then r.upgrades || r.acceptsHtml else r.dest in ["document", "iframe", "frame"]
  }

  predicate Navigational(r: Request, p: Profile) {
    r.meth in p.redirectMethods && (p.htmlOnly ==> ShowsPage(r))
  }

  predicate External(src: Source) { !src.provider.Form? }

  /** Group names count as the same when trimming and case folding make the same of them. */
  predicate InGroups(fold: string -> string, groups: seq<string>, want: seq<string>) {
    want == [] || exists g, w :: g in groups && w in want && fold(g) == fold(w)
  }

  predicate ReauthDue(r: Request, p: Profile, s: Session) {
    p.reauthAfter == 0 || Unix(r.now) >= s.life.issued + Whole(p.reauthAfter)
  }

  /** Seconds of a duration, cut off toward zero. */
  function Whole(d: int): int { if d >= 0 then d / SECOND else -(-d / SECOND) }

  // The answer.

  function Allowing(s: Option<Session>, code: Code, findings: seq<Finding>, e: Engine): Result {
    Result(Allow, code, "", "", 0, None, false, s, findings, e, Quiet)
  }

  function Denying(code: Code, response: string, findings: seq<Finding>, e: Engine): Result {
    Result(Deny, code, response, "", 0, None, false, None, findings, e, Quiet)
  }

  function Target(uri: string, back: string): string
    requires AllPrintable(back)
  {
    if back == "" then uri else uri + "?rd=" + Query.Escape(back)
  }

  function RedirectTo(r: Request, p: Profile, src: Source, code: Code, e: Engine): Result {
    if External(src) then
      if src.loginUri == "" then Denying(code, p.denyResponse, [], e)
      else Result(Redirect, code, "", src.loginUri, p.redirectStatus, None, false, None, [], e, Quiet)
    else if !r.seals then Denying(code, p.denyResponse, [], e)
    else
      var back := ReturnPath(r.uri, r.args);
      Result(Redirect, code, "", Target(src.loginUri, back), p.redirectStatus, Some(Ticket(r.nonce, back, src.name)),
             false, None, [], e, Quiet)
  }

  function Gate(r: Request, p: Profile, src: Source, code: Code, e: Engine): Result {
    var res := RedirectTo(r, p, src, code, e);
    if p.inline && res.verdict == Redirect then
      res.(verdict := Deny, response := p.denyResponse, inline := true, engine := e.(inline := true))
    else res
  }

  function RenewTo(r: Request, p: Profile, src: Source, e: Engine): Result {
    var url := Target(TrimSlashes(src.loginUri) + "/renew", ReturnPath(r.uri, r.args));
    Result(Redirect, Renew, "", url, p.redirectStatus, None, false, None, [], e.(renew := true), Quiet)
  }

  /** Observe mode lets pass what it would not have. */
  function WouldHave(s: Option<Session>, v: Verdict, code: Code, findings: seq<Finding>, e: Engine): Result {
    Allowing(s, Observed, findings, e.(would := Some((v, code))))
  }

  function WouldBe(r: Request, p: Profile): Verdict { if Navigational(r, p) then Redirect else Deny }

  function TurnAway(r: Request, p: Profile, src: Source, s: Option<Session>, code: Code, findings: seq<Finding>,
                    e: Engine): Result {
    if p.mode == Observe then WouldHave(s, WouldBe(r, p), code, findings, e)
    else if Navigational(r, p) then Gate(r, p, src, code, e).(findings := findings)
    else Denying(code, p.denyResponse, findings, e)
  }

  function ForbiddenFinding(s: Session): seq<Finding> { [Finding("auth-forbidden", s.sub)] }

  function OnSession(r: Request, p: Profile, src: Source, a: Ask, s: Session, e: Engine): Result {
    if !InGroups(r.fold, s.groups, p.groups) then
      var e := e.(forbidden := true);
      if p.mode == Observe then WouldHave(Some(s), Deny, Forbidden, ForbiddenFinding(s), e)
      else Denying(Forbidden, p.forbiddenResponse, ForbiddenFinding(s), e)
    else if a.reauth && !a.skip && ReauthDue(r, p, s) then
      TurnAway(r, p, src, Some(s), Reauth, [], e.(reauth := true))
    else if Renewal.NeedsRenew(s.life, r.now) && Navigational(r, p) then
      if p.mode == Observe then WouldHave(Some(s), Redirect, Renew, [], e.(renew := true))
      else RenewTo(r, p, src, e)
    else Allowing(Some(s), Ok, [], e)
  }

  function OnNoSession(r: Request, p: Profile, src: Source, a: Ask, code: Code, findings: seq<Finding>,
                       e: Engine): Result {
    if code == ListUnavailable then Result(Error, code, "", "", 0, None, false, None, findings, e, Quiet)
    else if a.skip then Allowing(None, Skipped, findings, e)
    else TurnAway(r, p, src, None, code, findings, e)
  }

  function Answer(r: Request, p: Profile, src: Source, a: Ask, o: Opened, e: Engine): Result {
    if o.Held? then OnSession(r, p, src, a, o.s, e) else OnNoSession(r, p, src, a, o.code, o.findings, e)
  }

  function EventOf(o: Opened, forbidden: bool): Event {
    if forbidden then WrongGroup
    else if o.Held? then Authenticated
    else if o.code == NoSession then Anonymous
    else if o.code == ListUnavailable then Quiet
    else Invalid
  }

  /** Profiles are loaded so that only one switched off may lack a source. */
  predicate Wired(p: Profile) { p.mode == Off || p.src.Some? }

  /** No profile: the request named one that is not there. */
  function Check(profile: Option<Profile>, r: Request): Result
    requires profile.Some? ==> Wired(profile.value)
  {
    if profile.None? then
      var findings := [Finding("auth-unknown-profile", r.ask)];
      Result(Error, UnknownProfile, "", "", 0, None, false, None, findings, NO_ENGINE, Quiet)
    else
      var p := profile.value;
      var e := NO_ENGINE.(passive := p.mode == Observe);
      if p.mode == Off then Allowing(None, SwitchedOff, [], e)
      else if OwnPath(p, r.uri) then Allowing(None, Self, [], e.(self := true))
      else
        var src, a, o := p.src.value, AskOf(r.prior, p.rules), Open(r, p.src.value);
        var res := Answer(r, p, src, a, o, e.(outcomes := a.outcomes));
        res.(event := EventOf(o, res.engine.forbidden))
  }

  // Observe against enforce.

  /** There is nowhere to send a request to. */
  predicate NoForm(r: Request, src: Source) {
    if External(src) then src.loginUri == "" else !r.seals
  }

  /** Where a redirect to the form is not what comes out. */
  predicate Degrades(r: Request, p: Profile)
    requires p.src.Some?
  {
    p.inline || NoForm(r, p.src.value)
  }

  /** o is a dry run of e: the same error, the same permission, or a permission that records the refusal's
      code; always with the same findings and outcomes. The recorded verdict is the one of e exactly
      unless e is one of the gate's redirects to the form that come out as something else. */
  ghost predicate DryRun(r: Request, p: Profile, o: Result, e: Result)
    requires p.src.Some?
  {
    && o.findings == e.findings && o.engine.outcomes == e.engine.outcomes && o.engine.forbidden == e.engine.forbidden
    && (e.verdict == Error || e.verdict == Allow ==>
          o == e.(engine := e.engine.(passive := true)) && o.engine.would.None?)
    && (e.verdict == Deny || e.verdict == Redirect ==>
          && o.verdict == Allow && o.code == Observed
          && o.engine.would.Some? && o.engine.would.value.1 == e.code
          && (o.engine.would.value.0 == e.verdict <==>
                !(Navigational(r, p) && Degrades(r, p) && e.code != Forbidden && e.code != Renew)))
  }

  lemma RedirectMeans(r: Request, p: Profile, code: Code, e: Engine)
    requires p.src.Some?
    ensures var res := RedirectTo(r, p, p.src.value, code, e);
            && res.verdict == (if NoForm(r, p.src.value) then Deny else Redirect)
            && res.code == code && res.engine == e
  {
    hide ReturnPath, Target;
  }

  lemma GateMeans(r: Request, p: Profile, code: Code, e: Engine)
    requires p.src.Some?
    ensures var res := Gate(r, p, p.src.value, code, e);
            && res.verdict == (if Degrades(r, p) then Deny else Redirect)
            && res.code == code && res.engine == e.(inline := res.engine.inline)
  {
    hide RedirectTo;
    RedirectMeans(r, p, code, e);
  }

  lemma TurnAwayDry(r: Request, p: Profile, s: Option<Session>, code: Code, findings: seq<Finding>, e: Engine)
    requires p.src.Some? && code != Forbidden && code != Renew && e.would.None?
    ensures DryRun(r, p, TurnAway(r, p.(mode := Observe), p.src.value, s, code, findings, e.(passive := true)),
                   TurnAway(r, p.(mode := Enforce), p.src.value, s, code, findings, e))
  {
    hide DryRun, Navigational, Gate, Degrades, WouldHave, WouldBe;
    ModeAside(r, p);
    TurnAwayRefuses(r, p.(mode := Enforce), s, code, findings, e);
    RefusalDry(r, p, s, WouldBe(r, p), e.(passive := true),
               TurnAway(r, p.(mode := Enforce), p.src.value, s, code, findings, e));
  }

  lemma TurnAwayRefuses(r: Request, p: Profile, s: Option<Session>, code: Code, findings: seq<Finding>, e: Engine)
    requires p.src.Some? && p.mode == Enforce && code != Forbidden && code != Renew
    ensures var res := TurnAway(r, p, p.src.value, s, code, findings, e);
            && (res.verdict == Deny || res.verdict == Redirect) && res.code == code && res.findings == findings
            && res.engine.outcomes == e.outcomes && res.engine.forbidden == e.forbidden
            && (WouldBe(r, p) == res.verdict <==> !(Navigational(r, p) && Degrades(r, p)))
  {
    hide Navigational, Gate, Degrades;
    if Navigational(r, p) { GateMeans(r, p, code, e); }
  }

  /** What was refused, and would have been. */
  lemma RefusalDry(r: Request, p: Profile, s: Option<Session>, v: Verdict, eng: Engine, e: Result)
    requires p.src.Some? && (e.verdict == Deny || e.verdict == Redirect)
    requires eng.outcomes == e.engine.outcomes && eng.forbidden == e.engine.forbidden
    requires v == e.verdict <==> !(Navigational(r, p) && Degrades(r, p) && e.code != Forbidden && e.code != Renew)
    ensures DryRun(r, p, WouldHave(s, v, e.code, e.findings, eng), e)
  {
    hide Navigational, Degrades;
  }

  lemma ModeAside(r: Request, p: Profile)
    requires p.src.Some?
    ensures Degrades(r, p.(mode := Enforce)) == Degrades(r, p)
    ensures Navigational(r, p.(mode := Enforce)) == Navigational(r, p)
    ensures WouldBe(r, p.(mode := Observe)) == WouldBe(r, p) == WouldBe(r, p.(mode := Enforce))
  {
  }

  lemma ForbiddenDry(r: Request, p: Profile, s: Session, e: Engine)
    requires p.src.Some? && e.would.None?
    ensures DryRun(r, p, WouldHave(Some(s), Deny, Forbidden, ForbiddenFinding(s), e.(passive := true)),
                   Denying(Forbidden, p.forbiddenResponse, ForbiddenFinding(s), e))
  {
  }

  lemma RenewDry(r: Request, p: Profile, s: Session, e: Engine)
    requires p.src.Some? && e.would.None?
    ensures DryRun(r, p, WouldHave(Some(s), Redirect, Renew, [], e.(passive := true, renew := true)),
                   RenewTo(r, p.(mode := Enforce), p.src.value, e))
  {
    hide ReturnPath, Target, TrimSlashes;
  }

  lemma SameDry(r: Request, p: Profile, s: Option<Session>, code: Code, findings: seq<Finding>, e: Engine)
    requires p.src.Some? && e.would.None?
    ensures DryRun(r, p, Allowing(s, code, findings, e.(passive := true)), Allowing(s, code, findings, e))
  {
  }

  lemma OnSessionDry(r: Request, p: Profile, a: Ask, s: Session, e: Engine)
    requires p.src.Some? && e.would.None?
    ensures DryRun(r, p, OnSession(r, p.(mode := Observe), p.src.value, a, s, e.(passive := true)),
                   OnSession(r, p.(mode := Enforce), p.src.value, a, s, e))
  {
    hide DryRun, TurnAway, WouldHave, Denying, RenewTo, Allowing, InGroups, ShowsPage;
    ForbiddenDry(r, p, s, e.(forbidden := true));
    TurnAwayDry(r, p, Some(s), Reauth, [], e.(reauth := true));
    RenewDry(r, p, s, e);
    SameDry(r, p, Some(s), Ok, [], e);
  }

  lemma ErrorDry(r: Request, p: Profile, code: Code, findings: seq<Finding>, e: Engine)
    requires p.src.Some? && e.would.None?
    ensures var a := Ask(false, false, []);
            var o := OnNoSession(r, p, p.src.value, a, ListUnavailable, findings, e.(passive := true));
            DryRun(r, p, o, o.(engine := e))
  {
  }

  lemma OnNoSessionDry(r: Request, p: Profile, a: Ask, code: Code, findings: seq<Finding>, e: Engine)
    requires p.src.Some? && e.would.None? && code != Forbidden && code != Renew
    ensures DryRun(r, p, OnNoSession(r, p.(mode := Observe), p.src.value, a, code, findings, e.(passive := true)),
                   OnNoSession(r, p.(mode := Enforce), p.src.value, a, code, findings, e))
  {
    hide DryRun, TurnAway, Allowing;
    TurnAwayDry(r, p, None, code, findings, e);
    SameDry(r, p, None, Skipped, findings, e);
    ErrorDry(r, p, code, findings, e);
  }

  lemma ClosedCodes(r: Request, src: Source)
    ensures Open(r, src).Closed? ==> Open(r, src).code != Forbidden && Open(r, src).code != Renew
  {
  }

  lemma AnswerDry(r: Request, p: Profile, a: Ask, e: Engine)
    requires p.src.Some? && e.would.None?
    ensures var o := Open(r, p.src.value);
            DryRun(r, p, Answer(r, p.(mode := Observe), p.src.value, a, o, e.(passive := true)),
                   Answer(r, p.(mode := Enforce), p.src.value, a, o, e))
  {
    hide DryRun, OnSession, OnNoSession, Open;
    var o := Open(r, p.src.value);
    if o.Held? {
      OnSessionDry(r, p, a, o.s, e);
    } else {
      ClosedCodes(r, p.src.value);
      OnNoSessionDry(r, p, a, o.code, o.findings, e);
    }
  }

  lemma StampDry(r: Request, p: Profile, o: Result, e: Result, x: Opened)
    requires p.src.Some? && DryRun(r, p, o, e)
    ensures var v := EventOf(x, e.engine.forbidden);
            DryRun(r, p, o.(event := EventOf(x, o.engine.forbidden)), e.(event := v))
            && EventOf(x, o.engine.forbidden) == v
  {
    hide Navigational, Degrades, EventOf;
  }

  /** Observe mode is a dry run of enforce mode, with the same event. */
  lemma ObserveIsDryRun(r: Request, p: Profile)
    requires p.src.Some?
    ensures var o, e := Check(Some(p.(mode := Observe)), r), Check(Some(p.(mode := Enforce)), r);
            DryRun(r, p, o, e) && o.event == e.event
  {
    hide DryRun, Answer, Open, AskOf, EventOf, TrimSlashes;
    var src, a, o := p.src.value, AskOf(r.prior, p.rules), Open(r, p.src.value);
    var e := NO_ENGINE.(outcomes := a.outcomes);
    assert OwnPath(p.(mode := Observe), r.uri) == OwnPath(p.(mode := Enforce), r.uri);
    SameDry(r, p, None, Self, [], NO_ENGINE.(self := true));
    AnswerDry(r, p, a, e);
    StampDry(r, p, Answer(r, p.(mode := Observe), src, a, o, e.(passive := true)),
             Answer(r, p.(mode := Enforce), src, a, o, e), o);
  }

  /** Nothing is ever turned away in observe mode. */
  lemma ObserveNeverBlocks(r: Request, p: Profile)
    requires Wired(p) && p.mode == Observe
    ensures var res := Check(Some(p), r);
            res.verdict == Allow || (res.verdict == Error && res.code == ListUnavailable)
  {
    hide Open, AskOf, Navigational, ReauthDue, InGroups, OwnPath;
  }

  // When a request is let through.

  /** Nothing known of both sides tells them apart. */
  predicate SameClient(now: string, sealed: string) { now != "" && sealed != "" ==> now == sealed }

  /** A session of the sign-in form is honoured exactly when it is this source's own, opens now on the
      same client, and is still listed or within the grace of its issue. */
  lemma HeldExactly(r: Request, src: Source, s: Session)
    requires src.provider.Form?
    ensures Open(r, src) == Held(s) <==>
              && r.cookie.Raw? && r.cookie.sealed == Some(s)
              && Renewal.Opens(s.life, r.now)
              && (src.bindsNet ==> SameClient(r.net, s.net)) && (src.bindsUa ==> SameClient(r.ua, s.ua))
              && (s.scope == "" || s.scope == src.cookie) && s.iss == src.name
              && (src.list.Some? ==> r.now - s.life.issued * SECOND <= src.list.value.grace
                                     || (r.mirror.Ready? && s.life.sid in r.mirror.entries))
  {
  }

  /** A session sealed for this source that opens now on this client. */
  predicate Fit(r: Request, src: Source, s: Session) {
    && r.cookie.Raw? && r.cookie.sealed == Some(s) && Renewal.Opens(s.life, r.now)
    && (src.bindsNet ==> SameClient(r.net, s.net)) && (src.bindsUa ==> SameClient(r.ua, s.ua))
    && (s.scope == "" || s.scope == src.cookie) && s.iss == src.name
  }

  /** What it takes for the list to be asked. */
  predicate AsksList(r: Request, src: Source, s: Session) {
    Fit(r, src, s) && src.list.Some? && r.now - s.life.issued * SECOND > src.list.value.grace
  }

  /** Why a session of the sign-in form is not honoured: each reason exactly when it applies. */
  lemma RefusalsExactly(r: Request, src: Source, code: Code)
    requires src.provider.Form?
    ensures var o := Open(r, src);
            var refused := o.Closed? && o.code == code;
            && (code == NoSession ==> (refused <==> r.cookie.Absent?))
            && (code == SessionExpired ==>
                  (refused <==> r.cookie.Raw? && r.cookie.sealed.Some?
                                && var s := r.cookie.sealed.value;
                                   s.life.sid != "" && s.life.expiry != 0 && Unix(r.now) >= s.life.expiry))
            && (code == SessionRevoked ==>
                  (refused <==> r.cookie.Raw? && r.cookie.sealed.Some?
                                && var s := r.cookie.sealed.value;
                                   AsksList(r, src, s) && r.mirror.Ready? && s.life.sid !in r.mirror.entries))
            && (code == ListUnavailable ==>
                  (refused <==> r.cookie.Raw? && r.cookie.sealed.Some?
                                && AsksList(r, src, r.cookie.sealed.value) && !r.mirror.Ready?))
  {
  }

  /** What an inspector's mirror says is the list at its position. */
  ghost predicate Mirrors(m: Mirror, st: Revocation.State) {
    && st.inspector <= |st.log|
    && (m.Ready? ==> forall sid :: sid in m.entries ==> Revocation.Listed(st.log, st.inspector, sid, st.clock))
  }

  /** After a revocation has come to rest, in whatever run follows, the gate honours no token of that
      session once its mirror has passed the removal. */
  lemma RevokedIsRefused(c: Revocation.Config, st: Revocation.State, events: seq<(int, Revocation.Action)>,
                         sid: string, removal: nat, r: Request, src: Source, s: Session)
    requires Revocation.Quiet(c, st, sid, removal) && Revocation.Follows(c, st, events)
    requires forall k | 0 <= k < |events| && events[k].1.FormMoves? :: events[k].1.to > removal
    requires var after := Revocation.After(c, st, events);
             removal < after.inspector && r.now == after.clock && Mirrors(r.mirror, after)
    requires src.provider.Form? && src.list.Some? && src.list.value.grace == c.grace
    requires s.life.sid == sid && s.life in Revocation.After(c, st, events).tokens
    ensures Open(r, src) != Held(s)
  {
    hide Revocation.Listed, Revocation.After, Revocation.Follows, Open;
    Revocation.RevocationIsFinal(c, st, events, sid, removal);
    HeldExactly(r, src, s);
  }

  /** In enforce mode a request passes exactly on the gate's own pages, with a session in the right groups
      that owes neither a new sign-in nor, on a page, a renewal, or without one when a named sender
      asked to skip and the list is there to be asked. */
  lemma AllowsExactly(r: Request, p: Profile)
    requires p.mode == Enforce && p.src.Some? && Validated(p.rules)
    ensures var o := Open(r, p.src.value);
            var skips := exists i, k, j :: NamedBy(r.prior, p.rules, "skip", i, k, j);
            Check(Some(p), r).verdict == Allow <==>
              || OwnPath(p, r.uri)
              || (o.Held? && InGroups(r.fold, o.s.groups, p.groups)
                  && !(Granted(r.prior, p.rules, "reauth") && !skips && ReauthDue(r, p, o.s))
                  && !(Renewal.NeedsRenew(o.s.life, r.now) && Navigational(r, p)))
              || (o.Closed? && o.code != ListUnavailable && skips)
  {
    hide NamedBy, Granted, Validated, OwnPath, InGroups, ReauthDue, Navigational, Open, AskOf, Answer, EventOf;
    SkipIsNamed(r.prior, p.rules);
    AskIs(r.prior, p.rules);
    var src, a := p.src.value, AskOf(r.prior, p.rules);
    AnswerAllows(r, p, src, a, Open(r, src), NO_ENGINE.(outcomes := a.outcomes));
  }

  lemma AnswerAllows(r: Request, p: Profile, src: Source, a: Ask, o: Opened, e: Engine)
    requires p.mode != Off
    ensures Answer(r, p, src, a, o, e).verdict == Allow <==>
              if o.Held? then
                p.mode == Observe ||
                (InGroups(r.fold, o.s.groups, p.groups) && !(a.reauth && !a.skip && ReauthDue(r, p, o.s))
                 && !(Renewal.NeedsRenew(o.s.life, r.now) && Navigational(r, p)))
              else o.code != ListUnavailable && (p.mode == Observe || a.skip)
  {
    hide InGroups, ReauthDue, Navigational, ReturnPath, TrimSlashes;
  }

  /** The event a request raises tells who made it, in either mode: somebody signed in and in the right
      groups, somebody signed in and not, nobody, somebody with a session not honoured. */
  lemma EventsExactly(r: Request, p: Profile)
    requires p.mode != Off && p.src.Some? && !OwnPath(p, r.uri)
    ensures var o, event := Open(r, p.src.value), Check(Some(p), r).event;
            && (event == WrongGroup <==> o.Held? && !InGroups(r.fold, o.s.groups, p.groups))
            && (event == Authenticated <==> o.Held? && InGroups(r.fold, o.s.groups, p.groups))
            && (event == Anonymous <==> o.Closed? && o.code == NoSession)
            && (event == Quiet <==> o.Closed? && o.code == ListUnavailable)
    ensures p.src.value.provider.Form? ==>
              var event := Check(Some(p), r).event;
              && (event == Anonymous <==> r.cookie.Absent?)
              && (event == Quiet <==> r.cookie.Raw? && r.cookie.sealed.Some?
                                      && AsksList(r, p.src.value, r.cookie.sealed.value) && !r.mirror.Ready?)
  {
    hide Open, AskOf, OwnPath, InGroups, AsksList;
    if p.src.value.provider.Form? {
      RefusalsExactly(r, p.src.value, NoSession);
      RefusalsExactly(r, p.src.value, ListUnavailable);
    }
    var a, o := AskOf(r.prior, p.rules), Open(r, p.src.value);
    ForbiddenMeans(r, p, a, o, NO_ENGINE.(passive := p.mode == Observe, outcomes := a.outcomes));
    hide Answer;
  }

  lemma ForbiddenMeans(r: Request, p: Profile, a: Ask, o: Opened, e: Engine)
    requires p.src.Some? && !e.forbidden
    ensures Answer(r, p, p.src.value, a, o, e).engine.forbidden <==> o.Held? && !InGroups(r.fold, o.s.groups, p.groups)
  {
    hide InGroups, Navigational, ReauthDue, ReturnPath, Target, TrimSlashes, TurnAway;
    if o.Held? {
      TurnAwayForbidsNone(r, p, p.src.value, Some(o.s), Reauth, [], e.(reauth := true));
    } else {
      TurnAwayForbidsNone(r, p, p.src.value, None, o.code, o.findings, e);
    }
  }

  lemma TurnAwayForbidsNone(r: Request, p: Profile, src: Source, s: Option<Session>, code: Code, findings: seq<Finding>,
                            e: Engine)
    requires p.src == Some(src)
    ensures TurnAway(r, p, src, s, code, findings, e).engine.forbidden == e.forbidden
  {
    hide Navigational, Gate, Degrades;
    GateMeans(r, p, code, e);
  }

  // More asks.

  /** None of the asks heard is of this kind. */
  ghost predicate Never(prior: seq<Prior>, do: string) {
    forall i, k | 0 <= i < |prior| && prior[i].phase in {"", "request"} && 0 <= k < |prior[i].actions| ::
      prior[i].actions[k].do != do
  }

  lemma {:induction false} MoreAsks(prior: seq<Prior>, more: seq<Prior>, rules: seq<Rule>)
    ensures var a, b := AskOf(prior, rules), AskOf(prior + more, rules);
            && (a.skip ==> b.skip) && (a.reauth ==> b.reauth)
            && (Never(more, "skip") ==> b.skip == a.skip)
            && (Never(more, "reauth") ==> b.reauth == a.reauth)
  {
    var all := prior + more;
    AskIs(prior, rules);
    AskIs(all, rules);
    StillGranted(prior, more, rules, "skip");
    StillGranted(prior, more, rules, "reauth");
    hide AskOf, Granted, Never;
  }

  lemma StillGranted(prior: seq<Prior>, more: seq<Prior>, rules: seq<Rule>, do: string)
    ensures Granted(prior, rules, do) ==> Granted(prior + more, rules, do)
    ensures Never(more, do) && Granted(prior + more, rules, do) ==> Granted(prior, rules, do)
  {
    hide Lets;
    if i, k, j :| GrantedBy(prior, rules, do, i, k, j) {
      assert GrantedBy(prior + more, rules, do, i, k, j);
    }
    if i, k, j :| GrantedBy(prior + more, rules, do, i, k, j) {
      if i < |prior| {
        assert GrantedBy(prior, rules, do, i, k, j);
      } else {
        assert (prior + more)[i] == more[i - |prior|];
      }
    }
  }

  /** Further asks that demand no new sign-in turn no permission into anything else, whatever the profile. */
  lemma SkipsOnlyWeaken(r: Request, p: Profile, more: seq<Prior>)
    requires Wired(p) && Never(more, "reauth") && Check(Some(p), r).verdict == Allow
    ensures Check(Some(p), r.(prior := r.prior + more)).verdict == Allow
  {
    hide Never, Open, AskOf, Answer, EventOf, OwnPath;
    if p.mode != Off && !OwnPath(p, r.uri) {
      var r' := r.(prior := r.prior + more);
      MoreAsks(r.prior, more, p.rules);
      AllowsBoth(r, r', p);
    }
  }

  /** Further asks that let nobody skip turn no other verdict into a permission. */
  lemma ReauthsOnlyTighten(r: Request, p: Profile, more: seq<Prior>)
    requires Wired(p) && Never(more, "skip") && Check(Some(p), r).verdict != Allow
    ensures Check(Some(p), r.(prior := r.prior + more)).verdict != Allow
  {
    hide Never, Open, AskOf, Answer, EventOf, OwnPath;
    var r' := r.(prior := r.prior + more);
    MoreAsks(r.prior, more, p.rules);
    AllowsBoth(r, r', p);
  }

  /** Two requests that differ in what was asked before them. */
  lemma AllowsBoth(r: Request, r': Request, p: Profile)
    requires p.mode != Off && p.src.Some? && !OwnPath(p, r.uri) && r' == r.(prior := r'.prior)
    ensures var a, b := AskOf(r.prior, p.rules), AskOf(r'.prior, p.rules);
            var x, y := Check(Some(p), r).verdict == Allow, Check(Some(p), r').verdict == Allow;
            && ((a.skip ==> b.skip) && a.reauth == b.reauth && x ==> y)
            && (a.skip == b.skip && (a.reauth ==> b.reauth) && y ==> x)
  {
    hide AskOf, Answer, EventOf, OwnPath;
    var src := p.src.value;
    var a, b := AskOf(r.prior, p.rules), AskOf(r'.prior, p.rules);
    var e := NO_ENGINE.(passive := p.mode == Observe);
    AnswerAllows(r, p, src, a, Open(r, src), e.(outcomes := a.outcomes));
    AnswerAllows(r', p, src, b, Open(r', src), e.(outcomes := b.outcomes));
    SameOpen(r, r', src);
    hide Open, InGroups;
  }

  lemma SameOpen(r: Request, r': Request, src: Source)
    requires r' == r.(prior := r'.prior)
    ensures Open(r, src) == Open(r', src)
  {
  }

  // Redirects.

  /** The page a redirect goes to, whatever return path is handed along. */
  ghost predicate LeadsTo(res: Result, p: Profile, path: string) {
    OwnPath(p, path) && exists back :: AllPrintable(back) && res.url == Target(path, back)
  }

  ghost predicate LeadsOut(res: Result, p: Profile) {
    exists path :: LeadsTo(res, p, path)
  }

  lemma FormLeadsOut(r: Request, p: Profile, src: Source, code: Code, e: Engine)
    requires p.src == Some(src) && (External(src) || src.loginUri != "")
    ensures Gate(r, p, src, code, e).verdict == Redirect ==> LeadsOut(Gate(r, p, src, code, e), p)
  {
    var res := Gate(r, p, src, code, e);
    if res.verdict == Redirect {
      var back := if External(src) then "" else ReturnPath(r.uri, r.args);
      assert AllPrintable(back) && res.url == Target(src.loginUri, back);
      assert LeadsTo(res, p, src.loginUri);
    }
  }

  lemma RenewLeadsOut(r: Request, p: Profile, src: Source, e: Engine)
    requires p.src == Some(src) && src.loginUri != ""
    ensures LeadsOut(RenewTo(r, p, src, e), p)
  {
    var base := TrimSlashes(src.loginUri);
    var res := RenewTo(r, p, src, e);
    assert base + "/renew" == base + "/" + "renew";
    assert base + "/" <= base + "/renew";
    var back := ReturnPath(r.uri, r.args);
    assert AllPrintable(back) && res.url == Target(base + "/renew", back);
    assert LeadsTo(res, p, base + "/renew");
  }

  /** Sessions of other providers never owe a renewal. */
  lemma OnlyFormsRenew(r: Request, src: Source)
    requires External(src) && Open(r, src).Held?
    ensures !Renewal.NeedsRenew(Open(r, src).s.life, r.now)
  {
  }

  /** Wherever the gate redirects is a page it lets everyone through to, so no redirect loops. */
  lemma RedirectsLeadOut(r: Request, p: Profile, r': Request)
    requires Wired(p) && Check(Some(p), r).verdict == Redirect
    requires p.src.Some? && !External(p.src.value) ==> p.src.value.loginUri != ""
    ensures LeadsOut(Check(Some(p), r), p)
    ensures LeadsTo(Check(Some(p), r), p, r'.uri) ==> Check(Some(p), r').verdict == Allow
  {
    hide Gate, RenewTo, LeadsOut, AskOf, Open, EventOf, InGroups, ReauthDue, Navigational;
    var src, a, o := p.src.value, AskOf(r.prior, p.rules), Open(r, p.src.value);
    var e := NO_ENGINE.(passive := p.mode == Observe, outcomes := a.outcomes);
    var res := Answer(r, p, src, a, o, e);
    AnswerLeadsOut(r, p, src, a, o, e);
    assert LeadsOut(res.(event := Check(Some(p), r).event), p) by { EventAside(res, p, Check(Some(p), r).event); }
  }

  lemma EventAside(res: Result, p: Profile, v: Event)
    requires LeadsOut(res, p)
    ensures LeadsOut(res.(event := v), p)
  {
    var path :| LeadsTo(res, p, path);
    assert LeadsTo(res.(event := v), p, path);
  }

  lemma AnswerLeadsOut(r: Request, p: Profile, src: Source, a: Ask, o: Opened, e: Engine)
    requires p.src == Some(src) && (External(src) || src.loginUri != "") && o == Open(r, src)
    ensures Answer(r, p, src, a, o, e).verdict == Redirect ==> LeadsOut(Answer(r, p, src, a, o, e), p)
  {
    hide Gate, RenewTo, LeadsOut, Open, InGroups, ReauthDue, Navigational;
    if o.Held? {
      FormLeadsOut(r, p, src, Reauth, e.(reauth := true));
      if External(src) { OnlyFormsRenew(r, src); } else { RenewLeadsOut(r, p, src, e); }
      FindingsAside(Gate(r, p, src, Reauth, e.(reauth := true)), p, []);
    } else {
      FormLeadsOut(r, p, src, o.code, e);
      FindingsAside(Gate(r, p, src, o.code, e), p, o.findings);
    }
  }

  lemma FindingsAside(res: Result, p: Profile, findings: seq<Finding>)
    ensures LeadsOut(res, p) ==> LeadsOut(res.(findings := findings), p)
  {
    if path :| LeadsTo(res, p, path) {
      assert LeadsTo(res.(findings := findings), p, path);
    }
  }

  /** A return path is on this host and printable, and the form takes it as it is. */
  lemma ReturnPathIsTaken(uri: string, args: string)
    ensures var back := ReturnPath(uri, args);
            && LocalPath(back) == back
            && (back != "" ==> uri != "" && uri <= back && back[0] == '/' && !OtherHost(back) && |back| <= 1024
                               && AllPrintable(back))
  {
    var back := ReturnPath(uri, args);
    if back != "" {
      assert args != "" ==> back == uri + ("?" + args);
      assert |back| >= 2 && |uri| < 2 ==> back[1] == '?';
    }
  }

  /** The form serves a ticket of its own source as long as it leads where the page is asked to lead back to
      (page in cmd/http/server.go); otherwise it makes a fresh one. */
  predicate FormKeeps(t: Ticket, source: string, rd: string) {
    t.scope == source && t.back == if LocalPath(rd) == "" then t.back else LocalPath(rd)
  }

  ghost predicate Keeps(res: Result, src: Source) {
    res.ticket.Some? ==>
      && AllPrintable(res.ticket.value.back) && res.url == Target(src.loginUri, res.ticket.value.back)
      && Query.Unescape(Query.Escape(res.ticket.value.back)) == Query.Ok(res.ticket.value.back)
      && FormKeeps(res.ticket.value, src.name, res.ticket.value.back)
  }

  lemma ReturnsKept(r: Request, src: Source)
    ensures var back := ReturnPath(r.uri, r.args);
            FormKeeps(Ticket(r.nonce, back, src.name), src.name, back)
  {
    hide LocalPath, ReturnPath;
    ReturnPathIsTaken(r.uri, r.args);
  }

  lemma GateKeeps(r: Request, p: Profile, src: Source, code: Code, e: Engine, findings: seq<Finding>)
    ensures Keeps(Gate(r, p, src, code, e).(findings := findings), src)
  {
    hide FormKeeps, ReturnPath, Target, Query.Escape, Query.Unescape;
    ReturnsKept(r, src);
    Query.EscapeReadsBack(ReturnPath(r.uri, r.args));
  }

  lemma AnswerKeeps(r: Request, p: Profile, src: Source, a: Ask, o: Opened, e: Engine)
    ensures Keeps(Answer(r, p, src, a, o, e), src)
  {
    hide Navigational, InGroups, ReauthDue, Gate, FormKeeps;
    if o.Held? {
      GateKeeps(r, p, src, Reauth, e.(reauth := true), []);
    } else {
      GateKeeps(r, p, src, o.code, e, o.findings);
    }
  }

  /** The ticket set along with a redirect is the one the form goes on with. */
  lemma TicketIsKept(r: Request, p: Profile)
    requires Wired(p) && p.src.Some?
    ensures Keeps(Check(Some(p), r), p.src.value)
  {
    hide Answer, AskOf, Open, EventOf, OwnPath, FormKeeps;
    var src, a, o := p.src.value, AskOf(r.prior, p.rules), Open(r, p.src.value);
    AnswerKeeps(r, p, src, a, o, NO_ENGINE.(passive := p.mode == Observe, outcomes := a.outcomes));
  }

  /** After signing in anew nobody is asked to again at once, exactly when the profile gives a second's
      peace or more. */
  lemma ReauthSettles(r: Request, p: Profile, s: Session)
    requires s.life.issued == Unix(r.now)
    ensures !ReauthDue(r, p, s) <==> p.reauthAfter >= SECOND
  {
  }
}
