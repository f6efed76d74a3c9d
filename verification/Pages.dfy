/** Where a request is sent, and what goes with it (internal/decide/decide.go): which requests are pages, which return
    paths are kept, what address, ticket and notes an answer carries. */
module Pages {
  import opened Clock
  import opened Asks
  import opened Decide
  import opened Admission
  import Query
  import Renewal

  /** A path on this host of printable characters without a backslash, not too long. */
  predicate Safe(s: string) {
    && s != "" && s[0] == '/' && (|s| > 1 ==> s[1] != '/') && |s| <= 1024
    && forall c | c in s :: 33 <= c as int <= 126 && c as int != 92
  }

  /** The address asked for, with its arguments, is led back to exactly if that is safe. */
  lemma ReturnPathExactly(uri: string, args: string)
    ensures var wanted := uri + if args != "" then "?" + args else "";
            ReturnPath(uri, args) == if Safe(wanted) then wanted else ""
  {
    var wanted := uri + if args != "" then "?" + args else "";
    assert uri + "?" + args == uri + ("?" + args) && uri + "" == uri;
    assert '?' as int == 63;
    PrintableIs(wanted);
  }

  lemma PrintableIs(s: string)
    ensures AllPrintable(s) <==> forall c | c in s :: 33 <= c as int <= 126 && c as int != 92
  {
    assert forall c: char :: Printable(c) <==> 33 <= c as int <= 126 && c as int != 92;
  }

  /** So does the form take a path it is handed back. */
  lemma LocalPathExactly(raw: string)
    ensures LocalPath(raw) == if Safe(raw) then raw else ""
  {
    PrintableIs(raw);
  }

  /** The form goes on with a ticket of its own source, unless a safe path other than the ticket's is asked for. */
  lemma FormKeepsExactly(t: Ticket, source: string, rd: string)
    ensures FormKeeps(t, source, rd) <==> t.scope == source && (Safe(rd) ==> t.back == rd)
  {
    LocalPathExactly(rd);
  }

  /** Pages are the requests with a method to redirect and, if the profile wants that, made by a browser to be shown:
      by their destination, or where none is given by what they accept. */
  lemma PagesExactly(r: Request, p: Profile)
    ensures Navigational(r, p) <==>
              && r.meth in p.redirectMethods
              && (!p.htmlOnly || r.dest in {"document", "iframe", "frame"}
                  || (r.dest == "" && (r.acceptsHtml || r.upgrades)))
  {
  }

  /** Everybody is in no group; else one name in common counts, as trimming and folding make of it. */
  lemma GroupsExactly(fold: string -> string, groups: seq<string>, want: seq<string>)
    ensures InGroups(fold, groups, want) <==>
              |want| == 0 || exists i, j :: 0 <= i < |groups| && 0 <= j < |want| && fold(groups[i]) == fold(want[j])
  {
    if i, j :| 0 <= i < |groups| && 0 <= j < |want| && fold(groups[i]) == fold(want[j]) {
      assert groups[i] in groups && want[j] in want;
    }
    if g, w :| g in groups && w in want && fold(g) == fold(w) {
      var i :| 0 <= i < |groups| && groups[i] == g;
      var j :| 0 <= j < |want| && want[j] == w;
    }
  }

  /** Whole seconds are cut off toward zero. */
  lemma WholeExactly(d: int)
    ensures d >= 0 ==> Whole(d) * SECOND <= d < (Whole(d) + 1) * SECOND
    ensures d <= 0 ==> (Whole(d) - 1) * SECOND < d <= Whole(d) * SECOND
  {
  }

  lemma SecondsExactly(ms: int)
    ensures ms >= 0 ==> Seconds(ms) * 1000 <= ms < (Seconds(ms) + 1) * 1000
    ensures ms <= 0 ==> (Seconds(ms) - 1) * 1000 < ms <= Seconds(ms) * 1000
  {
  }

  /** A new sign-in is due as soon as the whole seconds the profile allows have passed on the nanosecond clock, always
      where it allows none. */
  lemma DueExactly(r: Request, p: Profile, s: Session)
    ensures ReauthDue(r, p, s) <==> p.reauthAfter == 0 || r.now >= (s.life.issued + Whole(p.reauthAfter)) * SECOND
  {
    hide Whole;
  }

  /** The return path in an address. */
  function Asking(back: string): string
    requires AllPrintable(back)
  {
    if back != "" then "?rd=" + Query.Escape(back) else ""
  }

  /** Who is sent away, and not just refused or told to renew. */
  predicate SentAway(code: Code) { code !in {Ok, Skipped, ListUnavailable, Forbidden, Renew} }

  /** The form comes in the answer itself. */
  predicate FormInside(r: Request, p: Profile, code: Code)
    requires p.src.Some?
  {
    SentAway(code) && p.inline && Navigational(r, p) && !NoForm(r, p.src.value)
  }

  /** What an answer in enforce mode carries. */
  ghost predicate Carried(r: Request, p: Profile, res: Result)
    requires p.src.Some?
  {
    var src, back := p.src.value, ReturnPath(r.uri, r.args);
    var form := Asking(back);
    && (res.inline <==> FormInside(r, p, res.code)) && (res.engine.inline <==> res.inline)
    && (res.verdict == Redirect && res.code == Renew ==>
          res.url == TrimSlashes(src.loginUri) + "/renew" + form && res.ticket.None?)
    && ((res.verdict == Redirect && res.code != Renew) || res.inline ==>
          if External(src) then res.url == src.loginUri && res.ticket.None?
          else res.url == src.loginUri + form && res.ticket == Some(Ticket(r.nonce, back, src.name)))
    && (res.verdict != Redirect && !res.inline ==> res.url == "" && res.ticket.None? && res.status == 0)
    && (res.engine.reauth <==> res.code == Reauth) && (res.engine.renew <==> res.code == Renew)
    && (res.engine.forbidden <==> res.code == Forbidden) && res.engine.would.None?
    && (res.session.Some? <==> res.code == Ok)
  }

  lemma RedirectCarries(r: Request, p: Profile, src: Source, code: Code, e: Engine)
    requires p.src == Some(src)
    ensures var res, back := RedirectTo(r, p, src, code, e), ReturnPath(r.uri, r.args);
            && res.code == code && res.engine == e && !res.inline && res.session.None?
            && if NoForm(r, src) then res.verdict == Deny && res.url == "" && res.ticket.None? && res.status == 0
               else
                 res.verdict == Redirect
                 && if External(src) then res.url == src.loginUri && res.ticket.None?
                    else res.url == src.loginUri + Asking(back) && res.ticket == Some(Ticket(r.nonce, back, src.name))
  {
    hide ReturnPath, Query.Escape;
    var back := ReturnPath(r.uri, r.args);
    assert src.loginUri + "?rd=" + Query.Escape(back) == src.loginUri + ("?rd=" + Query.Escape(back));
    assert src.loginUri + "" == src.loginUri;
  }

  lemma GateCarries(r: Request, p: Profile, src: Source, code: Code, e: Engine)
    requires p.src == Some(src) && SentAway(code) && Navigational(r, p)
    requires e == NO_ENGINE.(reauth := code == Reauth, outcomes := e.outcomes)
    ensures Carried(r, p, Gate(r, p, src, code, e)) && Gate(r, p, src, code, e).code == code
    ensures Gate(r, p, src, code, e).engine.passive == Gate(r, p, src, code, e).engine.self == false
  {
    hide Navigational, ReturnPath, TrimSlashes, RedirectTo, NoForm, Asking, External;
    RedirectCarries(r, p, src, code, e);
  }

  lemma FindingsCarried(r: Request, p: Profile, res: Result, findings: seq<Finding>, v: Event)
    requires p.src.Some? && Carried(r, p, res)
    ensures Carried(r, p, res.(findings := findings)) && Carried(r, p, res.(event := v))
  {
    hide Navigational, ReturnPath, TrimSlashes, NoForm, Query.Escape;
  }

  lemma TurnAwayCarries(r: Request, p: Profile, src: Source, s: Option<Session>, code: Code, findings: seq<Finding>,
                        e: Engine)
    requires p.mode == Enforce && p.src == Some(src) && SentAway(code)
    requires e == NO_ENGINE.(reauth := code == Reauth, outcomes := e.outcomes)
    ensures Carried(r, p, TurnAway(r, p, src, s, code, findings, e))
  {
    hide Gate, Navigational, ReturnPath, TrimSlashes, Query.Escape;
    if Navigational(r, p) {
      GateCarries(r, p, src, code, e);
      FindingsCarried(r, p, Gate(r, p, src, code, e), findings, Quiet);
      hide Carried;
    }
  }

  lemma RenewCarries(r: Request, p: Profile, src: Source, e: Engine)
    requires p.src == Some(src) && e == NO_ENGINE.(outcomes := e.outcomes)
    ensures Carried(r, p, RenewTo(r, p, src, e))
  {
    hide Navigational, ReturnPath, TrimSlashes, NoForm;
    var base, form := TrimSlashes(src.loginUri), Asking(ReturnPath(r.uri, r.args));
    assert base + "/renew" + form == (base + "/renew") + form;
  }

  lemma AnswerCarries(r: Request, p: Profile, src: Source, a: Ask, o: Opened, e: Engine)
    requires p.mode == Enforce && p.src == Some(src) && e == NO_ENGINE.(outcomes := e.outcomes)
    requires o.Closed? ==> o.code !in {Ok, Forbidden, Reauth, Renew, Skipped}
    ensures Carried(r, p, Answer(r, p, src, a, o, e))
  {
    hide InGroups, ReauthDue, Navigational, ReturnPath, TrimSlashes, TurnAway, RenewTo, NoForm, Query.Escape;
    RenewCarries(r, p, src, e);
    if o.Held? {
      TurnAwayCarries(r, p, src, Some(o.s), Reauth, [], e.(reauth := true));
    } else if o.code != ListUnavailable {
      TurnAwayCarries(r, p, src, None, o.code, o.findings, e);
    }
  }

  /** In enforce mode, off the gate's own pages, every answer carries exactly the address, the ticket, the form and the
      notes that go with its code. */
  lemma AnswersCarry(r: Request, p: Profile)
    requires p.mode == Enforce && p.src.Some? && !OwnPath(p, r.uri)
    ensures Carried(r, p, Check(Some(p), r))
    ensures Check(Some(p), r).engine.outcomes == AskOf(r.prior, p.rules).outcomes
  {
    hide OwnPath, Open, AskOf, Answer, EventOf, Carried;
    var src, a, o := p.src.value, AskOf(r.prior, p.rules), Open(r, p.src.value);
    RefusalCodes(r, src);
    var e := NO_ENGINE.(outcomes := a.outcomes);
    AnswerCarries(r, p, src, a, o, e);
    FindingsCarried(r, p, Answer(r, p, src, a, o, e), [], Check(Some(p), r).event);
    OutcomesCarried(r, p, src, a, o, e);
  }

  lemma GateKeepsOutcomes(r: Request, p: Profile, src: Source, code: Code, e: Engine)
    requires p.src == Some(src)
    ensures Gate(r, p, src, code, e).engine.outcomes == e.outcomes
  {
    hide RedirectTo;
    RedirectCarries(r, p, src, code, e);
  }

  lemma TurnAwayKeepsOutcomes(r: Request, p: Profile, src: Source, s: Option<Session>, code: Code,
                              findings: seq<Finding>, e: Engine)
    requires p.src == Some(src)
    ensures TurnAway(r, p, src, s, code, findings, e).engine.outcomes == e.outcomes
  {
    hide Gate, Navigational;
    GateKeepsOutcomes(r, p, src, code, e);
  }

  lemma RenewKeepsOutcomes(r: Request, p: Profile, src: Source, e: Engine)
    ensures RenewTo(r, p, src, e).engine.outcomes == e.outcomes
  {
  }

  lemma OnSessionKeepsOutcomes(r: Request, p: Profile, src: Source, a: Ask, s: Session, e: Engine)
    requires p.src == Some(src)
    ensures OnSession(r, p, src, a, s, e).engine.outcomes == e.outcomes
  {
    hide InGroups, ReauthDue, Navigational, TurnAway, RenewTo;
    TurnAwayKeepsOutcomes(r, p, src, Some(s), Reauth, [], e.(reauth := true));
    RenewKeepsOutcomes(r, p, src, e);
  }

  lemma OutcomesCarried(r: Request, p: Profile, src: Source, a: Ask, o: Opened, e: Engine)
    requires p.src == Some(src)
    ensures Answer(r, p, src, a, o, e).engine.outcomes == e.outcomes
  {
    hide OnSession, TurnAway;
    if o.Held? { OnSessionKeepsOutcomes(r, p, src, a, o.s, e); }
    else { TurnAwayKeepsOutcomes(r, p, src, None, o.code, o.findings, e); }
  }

  /** What is off lets everything pass, and the gate's own pages pass always: with nothing opened and nobody asked. */
  lemma UncheckedPass(r: Request, p: Profile)
    requires Wired(p) && (p.mode == Off || OwnPath(p, r.uri))
    ensures var res := Check(Some(p), r);
            && res.verdict == Allow && res.code == (if p.mode == Off then SwitchedOff else Self)
            && res.session.None? && res.findings == [] && res.event == Quiet && res.ticket.None? && res.url == ""
            && (res.engine.self <==> p.mode != Off) && (res.engine.passive <==> p.mode == Observe)
            && res.engine.outcomes == [] && res.engine.would.None?
  {
    hide OwnPath, Open, AskOf, Answer;
  }

  /** A profile that is not there is an error that names it. */
  lemma UnknownProfiles(r: Request)
    ensures var res := Check(None, r);
            && res.verdict == Error && res.code == UnknownProfile && !res.inline && res.session.None?
            && res.ticket.None? && res.findings == [Finding("auth-unknown-profile", r.ask)]
            && res.event == Quiet && res.url == ""
  {
  }
}
