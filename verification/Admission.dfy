/** Who is let in, told from the request alone (internal/decide/decide.go): which sessions are honoured under each
    provider, why the others are not, and what each of them is answered. */
module Admission {
  import opened Clock
  import opened Asks
  import opened Decide
  import Renewal

  // The gate's own pages.

  ghost predicate Slashes(s: string) { forall k | 0 <= k < |s| :: s[k] == '/' }

  /** base is the sign-in page's path without the slashes at its end. */
  ghost predicate IsBase(login: string, base: string) {
    && base <= login && Slashes(login[|base|..]) && (base != "" ==> base[|base| - 1] != '/')
  }

  lemma {:induction false} TrimIsBase(login: string)
    ensures IsBase(login, TrimSlashes(login))
  {
    if login != "" && login[|login| - 1] == '/' {
      TrimIsBase(login[..|login| - 1]);
    }
  }

  /** Exactly the source's learning paths, its sign-in page, and what lies below that page belong to the gate; a
      path that only begins with the same letters does not. */
  lemma OwnPathsAre(p: Profile, uri: string)
    requires p.src.Some?
    ensures var src := p.src.value;
            OwnPath(p, uri) <==>
              || uri in src.learns
              || (src.loginUri != "" && uri == src.loginUri)
              || (src.loginUri != "" && exists base, rest :: IsBase(src.loginUri, base) && uri == base + "/" + rest)
  {
    var login := p.src.value.loginUri;
    var base := TrimSlashes(login);
    TrimIsBase(login);
    if base + "/" <= uri { assert uri == base + "/" + uri[|base| + 1..]; }
    forall other, rest | IsBase(login, other) && uri == other + "/" + rest ensures base + "/" <= uri {
      OneBase(login, base, other);
    }
  }

  lemma OneBase(login: string, a: string, b: string)
    requires IsBase(login, a) && IsBase(login, b)
    ensures a == b
  {
  }

  // Sessions.

  /** The claims of a bearer token this source takes: signed where it verifies, in its time give or take the
      leeway, and from and for whom the source says. */
  predicate Trusted(r: Request, src: Source)
    requires src.provider.Jwt?
  {
    && r.bearer.Parsed?
    && var claims, jwt := r.bearer.claims, src.provider;
    && (jwt.verifies ==> r.bearer.signed)
    && (claims.expiry.Some? ==> Unix(r.now) <= claims.expiry.value + jwt.leeway)
    && (claims.notBefore.Some? ==> Unix(r.now) + jwt.leeway >= claims.notBefore.value)
    && (jwt.issuer != "" ==> claims.issuer == jwt.issuer)
    && (jwt.audience != "" ==> jwt.audience in claims.audience)
  }

  /** s says of its holder what the token says. */
  predicate Carries(s: Session, claims: Claims) {
    && s.life.sid == claims.id && s.sub == claims.user && s.groups == claims.groups
    && s.life.issued == claims.issued && s.life.expiry == (if claims.expiry.Some? then claims.expiry.value else 0)
    && s.amr == ["jwt"]
  }

  /** A session kept elsewhere knows neither scope, client nor renewal. */
  predicate Bare(s: Session, src: Source) {
    && s.iss == src.name && s.scope == "" && s.net == "" && s.ua == ""
    && s.life.renew == 0 && s.life.born == 0 && s.life.cred == ""
  }

  /** The application's list knows the cookie, and s is what it knows of it. */
  predicate KnownTo(r: Request, s: Session) {
    && r.cookie.Raw? && r.mirror.Ready? && r.cookie.hash in r.mirror.entries
    && s.life.sid == r.cookie.hash && s.sub == r.mirror.entries[r.cookie.hash].user
    && s.life.expiry == Seconds(r.mirror.entries[r.cookie.hash].expires) && s.life.issued == 0
    && s.groups == [] && s.amr == ["app"]
  }

  /** A session this source honours. */
  predicate Genuine(r: Request, src: Source, s: Session) {
    match src.provider
    case Form => Fit(r, src, s) && (AsksList(r, src, s) ==> r.mirror.Ready? && s.life.sid in r.mirror.entries)
    case Jwt(_, _, _, _) => Trusted(r, src) && Carries(s, r.bearer.claims) && Bare(s, src)
    case App => KnownTo(r, s) && Bare(s, src)
  }

  /** The list would decide, and cannot be asked. */
  predicate Unlistable(r: Request, src: Source) {
    && !r.mirror.Ready? && r.cookie.Raw?
    && match src.provider
       case Form => r.cookie.sealed.Some? && AsksList(r, src, r.cookie.sealed.value)
       case Jwt(_, _, _, _) => false
       case App => true
  }

  /** Under every provider, a session is honoured exactly when it is genuine. */
  lemma OpensExactly(r: Request, src: Source, s: Session)
    ensures Open(r, src) == Held(s) <==> Genuine(r, src, s)
  {
    if src.provider.Form? {
      HeldExactly(r, src, s);
    } else if src.provider.Jwt? && Genuine(r, src, s) {
      assert s.life == Renewal.Session(s.life.sid, s.life.issued, s.life.expiry, 0, 0, "");
    }
  }

  /** Nothing given: no cookie, or no token. */
  predicate NothingGiven(r: Request, src: Source) {
    if src.provider.Jwt? then r.bearer.NoToken? else r.cookie.Absent?
  }

  /** The audit hears what is wrong with the session. */
  predicate Tells(findings: seq<Finding>, what: string) { findings == [Finding("auth-session-bad", what)] }

  /** The audit hears of a store that is down, and of nothing else. */
  predicate TellsOfStore(r: Request, findings: seq<Finding>) {
    if r.storeDown != "" then findings == [Finding("auth-store-unavailable", r.storeDown)] else findings == []
  }

  /** A bearer token that is not taken, reason by reason in the order they are looked for: it is no token, it is
      forged, over, not yet valid, from or for somebody else. */
  lemma JwtRefusals(r: Request, src: Source, code: Code, findings: seq<Finding>)
    requires src.provider.Jwt?
    ensures var jwt, now := src.provider, Unix(r.now);
            var refused := Open(r, src) == Closed(code, findings);
            var forged := r.bearer.Parsed? && jwt.verifies && !r.bearer.signed;
            var over := r.bearer.Parsed? && r.bearer.claims.expiry.Some?
                        && now > r.bearer.claims.expiry.value + jwt.leeway;
            var early := r.bearer.Parsed? && r.bearer.claims.notBefore.Some?
                         && now + jwt.leeway < r.bearer.claims.notBefore.value;
            var alien := r.bearer.Parsed? && jwt.issuer != "" && r.bearer.claims.issuer != jwt.issuer;
            var others := r.bearer.Parsed? && jwt.audience != "" && jwt.audience !in r.bearer.claims.audience;
            && (code == NoSession ==> (refused <==> r.bearer.NoToken? && TellsOfStore(r, findings)))
            && (code == SessionBad ==>
                  (refused <==> || (r.bearer.Malformed? && Tells(findings, "malformed"))
                                || (forged && Tells(findings, "signature"))
                                || (early && !forged && !over && Tells(findings, "nbf"))))
            && (code == SessionExpired ==> (refused <==> over && !forged && findings == []))
            && (code == SessionSource ==>
                  (refused <==> alien && !forged && !over && !early && Tells(findings, "issuer")))
            && (code == SessionScope ==>
                  (refused <==> others && !forged && !over && !early && !alien && Tells(findings, "audience")))
            && (refused ==> code in {NoSession, SessionBad, SessionExpired, SessionSource, SessionScope})
  {
  }

  /** A cookie of the application: absent, not to be looked up, or not listed. */
  lemma AppRefusals(r: Request, src: Source, code: Code, findings: seq<Finding>)
    requires src.provider.App?
    ensures var refused := Open(r, src) == Closed(code, findings);
            && (code == NoSession ==>
                  (refused <==> || (r.cookie.Absent? && TellsOfStore(r, findings))
                                || (r.cookie.Raw? && r.mirror.Ready? && r.cookie.hash !in r.mirror.entries
                                    && findings == [])))
            && (code == ListUnavailable ==>
                  (refused <==> r.cookie.Raw? && !r.mirror.Ready?
                                && findings == [Finding("auth-list-unavailable", src.appList)]))
            && (refused ==> code == NoSession || code == ListUnavailable)
  {
  }

  /** The sign-in form's, with RefusalsExactly all of them and with what goes into the audit. */
  lemma FormRefusals(r: Request, src: Source, code: Code, findings: seq<Finding>)
    requires src.provider.Form?
    ensures var refused := Open(r, src) == Closed(code, findings);
            var sealed := r.cookie.Raw? && r.cookie.sealed.Some?;
            var usable := sealed && Renewal.Opens(r.cookie.sealed.value.life, r.now);
            var moved := usable && var s := r.cookie.sealed.value;
                         || (src.bindsNet && !SameClient(r.net, s.net)) || (src.bindsUa && !SameClient(r.ua, s.ua));
            var strange := usable && r.cookie.sealed.value.scope !in {"", src.cookie};
            && (code == SessionBad ==>
                  (refused <==> r.cookie.Raw? && Tells(findings, "signature")
                                && (!sealed || r.cookie.sealed.value.life.sid == ""
                                    || r.cookie.sealed.value.life.expiry == 0)))
            && (code == SessionBind ==> (refused <==> moved && Tells(findings, "bind")))
            && (code == SessionScope ==> (refused <==> strange && !moved && findings == []))
            && (code == SessionSource ==>
                  (refused <==> usable && r.cookie.sealed.value.iss != src.name && !moved && !strange
                                && findings == []))
            && (refused && code == NoSession ==> TellsOfStore(r, findings))
            && (refused && code == SessionExpired ==> findings == [])
            && (refused && code == SessionRevoked ==>
                  sealed && findings == [Finding("auth-session-revoked", r.cookie.sealed.value.life.sid)])
            && (refused && code == ListUnavailable ==>
                  src.list.Some? && findings == [Finding("auth-list-unavailable", src.list.value.sessions)])
            && (refused ==> code in {NoSession, SessionBad, SessionExpired, SessionBind, SessionScope, SessionSource,
                                     SessionRevoked, ListUnavailable})
  {
  }

  lemma UnlistableExactly(r: Request, src: Source)
    ensures (Open(r, src).Closed? && Open(r, src).code == ListUnavailable) <==> Unlistable(r, src)
  {
    match src.provider
    case Form => RefusalsExactly(r, src, ListUnavailable);
    case Jwt(_, _, _, _) =>
    case App =>
  }

  // Answers.

  /** Somebody this source honours, in the right groups. */
  predicate Welcome(r: Request, p: Profile, s: Session)
    requires p.src.Some?
  {
    Genuine(r, p.src.value, s) && InGroups(r.fold, s.groups, p.groups)
  }

  /** A new sign-in is asked for, not skipped, and due. */
  ghost predicate OwesReauth(r: Request, p: Profile, s: Session) {
    Granted(r.prior, p.rules, "reauth") && !Granted(r.prior, p.rules, "skip") && ReauthDue(r, p, s)
  }

  /** A page with a session to be renewed. */
  predicate OwesRenewal(r: Request, p: Profile, s: Session) {
    Renewal.NeedsRenew(s.life, r.now) && Navigational(r, p)
  }

  /** Nobody this source honours, and it could tell. */
  ghost predicate Stranger(r: Request, src: Source) {
    !Unlistable(r, src) && forall s :: !Genuine(r, src, s)
  }

  /** In enforce mode, off the gate's own pages: who gets in and who is told what. */
  lemma AnswersExactly(r: Request, p: Profile)
    requires p.mode == Enforce && p.src.Some? && !OwnPath(p, r.uri)
    ensures var code := Check(Some(p), r).code;
            && (code == Ok <==> exists s :: Welcome(r, p, s) && !OwesReauth(r, p, s) && !OwesRenewal(r, p, s))
            && (code == Forbidden <==>
                  exists s :: Genuine(r, p.src.value, s) && !InGroups(r.fold, s.groups, p.groups))
            && (code == Reauth <==> exists s :: Welcome(r, p, s) && OwesReauth(r, p, s))
            && (code == Renew <==> exists s :: Welcome(r, p, s) && !OwesReauth(r, p, s) && OwesRenewal(r, p, s))
            && (code == ListUnavailable <==> Unlistable(r, p.src.value))
            && (code == Skipped <==> Stranger(r, p.src.value) && Granted(r.prior, p.rules, "skip"))
            && (code in {Ok, Forbidden, Reauth, Renew, ListUnavailable, Skipped}
                || (Open(r, p.src.value).Closed? && code == Open(r, p.src.value).code))
  {
    hide Granted, Genuine, OwnPath, InGroups, ReauthDue, Navigational, Open, AskOf, Unlistable;
    AskIs(r.prior, p.rules);
    var src, a, o := p.src.value, AskOf(r.prior, p.rules), Open(r, p.src.value);
    CodeOf(r, p, src, a, o, NO_ENGINE.(outcomes := a.outcomes));
    UnlistableExactly(r, src);
    RefusalCodes(r, src);
    forall s ensures o == Held(s) <==> Genuine(r, src, s) { OpensExactly(r, src, s); }
    if o.Held? {
      assert Genuine(r, src, o.s);
      assert forall s | Genuine(r, src, s) :: s == o.s;
      assert Welcome(r, p, o.s) <==> InGroups(r.fold, o.s.groups, p.groups);
    }
    hide Answer;
  }

  lemma RefusalCodes(r: Request, src: Source)
    ensures Open(r, src).Closed? ==> Open(r, src).code !in {Ok, Forbidden, Reauth, Renew, Skipped}
  {
  }

  lemma CodeOf(r: Request, p: Profile, src: Source, a: Ask, o: Opened, e: Engine)
    requires p.mode == Enforce && p.src == Some(src)
    ensures Answer(r, p, src, a, o, e).code ==
            match o
            case Closed(code, _) => if code == ListUnavailable then code else if a.skip then Skipped else code
            case Held(s) =>
              if !InGroups(r.fold, s.groups, p.groups) then Forbidden
              else if a.reauth && !a.skip && ReauthDue(r, p, s) then Reauth
              else if Renewal.NeedsRenew(s.life, r.now) && Navigational(r, p) then Renew
              else Ok
  {
    hide InGroups, ReauthDue, Navigational, ReturnPath, Target, TrimSlashes;
    if o.Held? {
      TurnAwayMeans(r, p, src, Some(o.s), Reauth, [], e.(reauth := true));
    } else {
      TurnAwayMeans(r, p, src, None, o.code, o.findings, e);
    }
    hide TurnAway, RenewTo;
    RenewMeans(r, p, src, e);
  }

  lemma RenewMeans(r: Request, p: Profile, src: Source, e: Engine)
    ensures RenewTo(r, p, src, e).code == Renew && RenewTo(r, p, src, e).verdict == Redirect
  {
  }

  /** Turned away: to the form, where the request is a page and there is one to go to, else refused. */
  lemma TurnAwayMeans(r: Request, p: Profile, src: Source, s: Option<Session>, code: Code, findings: seq<Finding>,
                      e: Engine)
    requires p.mode == Enforce && p.src == Some(src)
    ensures var res := TurnAway(r, p, src, s, code, findings, e);
            && res.code == code && res.findings == findings
            && res.verdict == (if Navigational(r, p) && !Degrades(r, p) then Redirect else Deny)
            && (res.verdict == Deny ==> res.response == p.denyResponse)
            && (res.verdict == Redirect ==> res.status == p.redirectStatus)
  {
    hide Navigational, ReturnPath, Target;
  }

  /** And how: allowed, refused with the response for it, or redirected with the status for it. */
  lemma VerdictsExactly(r: Request, p: Profile)
    requires p.mode == Enforce && p.src.Some? && !OwnPath(p, r.uri)
    ensures var res := Check(Some(p), r);
            && (res.verdict == Allow <==> res.code in {Ok, Skipped})
            && (res.verdict == Error <==> res.code == ListUnavailable)
            && (res.verdict == Redirect <==>
                  res.code == Renew
                  || (res.code !in {Ok, Skipped, ListUnavailable, Forbidden} && Navigational(r, p) && !Degrades(r, p)))
            && (res.verdict == Deny ==>
                  res.response == if res.code == Forbidden then p.forbiddenResponse else p.denyResponse)
            && (res.verdict == Redirect ==> res.status == p.redirectStatus)
            && (Open(r, p.src.value).Closed? ==> res.findings == Open(r, p.src.value).findings)
            && (res.code in {Ok, Reauth, Renew} ==> res.findings == [])
  {
    hide OwnPath, InGroups, ReauthDue, Navigational, Open, AskOf, Degrades;
    RefusalCodes(r, p.src.value);
    var src, a, o := p.src.value, AskOf(r.prior, p.rules), Open(r, p.src.value);
    AnswerMeans(r, p, src, a, o, NO_ENGINE.(outcomes := a.outcomes));
    hide Answer;
  }

  lemma AnswerMeans(r: Request, p: Profile, src: Source, a: Ask, o: Opened, e: Engine)
    requires p.mode == Enforce && p.src == Some(src)
    requires o.Closed? ==> o.code !in {Ok, Forbidden, Reauth, Renew, Skipped}
    ensures var res := Answer(r, p, src, a, o, e);
            && (res.verdict == Allow <==> res.code in {Ok, Skipped})
            && (res.verdict == Error <==> res.code == ListUnavailable)
            && (res.verdict == Redirect <==>
                  res.code == Renew
                  || (res.code !in {Ok, Skipped, ListUnavailable, Forbidden} && Navigational(r, p) && !Degrades(r, p)))
            && (res.verdict == Deny ==>
                  res.response == if res.code == Forbidden then p.forbiddenResponse else p.denyResponse)
            && (res.verdict == Redirect ==> res.status == p.redirectStatus)
            && (o.Closed? ==> res.findings == o.findings)
            && (res.code in {Ok, Reauth, Renew} ==> res.findings == [])
  {
    hide InGroups, ReauthDue, Navigational, ReturnPath, Target, TrimSlashes, TurnAway, Degrades;
    if o.Held? {
      TurnAwayMeans(r, p, src, Some(o.s), Reauth, [], e.(reauth := true));
    } else {
      TurnAwayMeans(r, p, src, None, o.code, o.findings, e);
    }
  }

  /** In enforce mode a request passes exactly on the gate's own pages, with a genuine session in the right groups that
      owes neither a new sign-in nor, on a page, a renewal, or where nobody genuine came, that could be told,
      and a named sender's ask to skip was granted. */
  lemma LetsInExactly(r: Request, p: Profile)
    requires p.mode == Enforce && p.src.Some? && Validated(p.rules)
    ensures Check(Some(p), r).verdict == Allow <==>
              || OwnPath(p, r.uri)
              || (exists s :: Welcome(r, p, s) && !OwesReauth(r, p, s) && !OwesRenewal(r, p, s))
              || (Stranger(r, p.src.value) && exists i, k, j :: NamedBy(r.prior, p.rules, "skip", i, k, j))
  {
    SkipIsNamed(r.prior, p.rules);
    AskIs(r.prior, p.rules);
    if !OwnPath(p, r.uri) {
      VerdictsExactly(r, p);
      AnswersExactly(r, p);
      hide Check;
    } else {
      hide Answer;
    }
    hide Granted, Welcome, OwnPath, Stranger, OwesReauth, OwesRenewal, NamedBy, AskOf;
  }

  /** No token but a trusted one, and no cookie but one the application's list knows, opens the gate: whoever is
      let in without it is on one of the gate's own pages or was asked to be skipped. */
  lemma OnlyGenuineEnter(r: Request, p: Profile)
    requires p.mode == Enforce && p.src.Some? && Check(Some(p), r).verdict == Allow
    ensures || OwnPath(p, r.uri)
            || Granted(r.prior, p.rules, "skip")
            || match p.src.value.provider
               case Form => r.cookie.Raw? && r.cookie.sealed.Some? && Fit(r, p.src.value, r.cookie.sealed.value)
               case Jwt(_, _, _, _) => Trusted(r, p.src.value)
               case App => r.cookie.Raw? && r.mirror.Ready? && r.cookie.hash in r.mirror.entries
  {
    if !OwnPath(p, r.uri) {
      hide Granted, OwnPath, InGroups, ReauthDue, Navigational, Open, AskOf, Check;
      VerdictsExactly(r, p);
      AnswersExactly(r, p);
    }
  }

  /** The event, in either mode and under every provider, from the request alone. */
  lemma EventsTell(r: Request, p: Profile)
    requires p.mode != Off && p.src.Some? && !OwnPath(p, r.uri)
    ensures var src, event := p.src.value, Check(Some(p), r).event;
            && (event == Authenticated <==> exists s :: Welcome(r, p, s))
            && (event == WrongGroup <==> exists s :: Genuine(r, src, s) && !InGroups(r.fold, s.groups, p.groups))
            && (event == Quiet <==> Unlistable(r, src))
            && (event == Anonymous <==>
                  || NothingGiven(r, src)
                  || (src.provider.App? && r.mirror.Ready? && r.cookie.hash !in r.mirror.entries))
  {
    hide Genuine, OwnPath, InGroups, Open, Unlistable, Check;
    var src, o := p.src.value, Open(r, p.src.value);
    EventsExactly(r, p);
    UnlistableExactly(r, src);
    AnonymousMeans(r, src);
    forall s ensures o == Held(s) <==> Genuine(r, src, s) { OpensExactly(r, src, s); }
    if o.Held? {
      assert Genuine(r, src, o.s) && forall s | Genuine(r, src, s) :: s == o.s;
      assert Welcome(r, p, o.s) <==> InGroups(r.fold, o.s.groups, p.groups);
    }
  }

  lemma AnonymousMeans(r: Request, src: Source)
    ensures (Open(r, src).Closed? && Open(r, src).code == NoSession) <==>
              || NothingGiven(r, src)
              || (src.provider.App? && r.mirror.Ready? && r.cookie.hash !in r.mirror.entries)
  {
    if src.provider.Form? { RefusalsExactly(r, src, NoSession); }
  }
}
