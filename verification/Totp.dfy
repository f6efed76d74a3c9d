/** Time-based codes at sign-in: the window search of internal/provider/code.go, and the burning of a
    used code (burnCode in cmd/http/login.go). */
module Totp {
  import opened Clock
  import opened Roster
  import Otp

  datatype Config = Config(period: nat, skew: nat) {
    /** Whole seconds of a step. */
    function Step(): nat { period / SECOND }

    predicate Counts() { Step() > 0 }

    /** How long a used code stays burned. */
    function Window(): nat { period * (2 * skew + 2) }

    /** How much later than its check a code may be burned. */
    function Slack(): int { Window() - (2 * skew + 1) * Step() * SECOND }
  }

  /** The counter of a moment. */
  function Now(c: Config, t: nat): nat
    requires c.Counts()
  {
    Unix(t) / c.Step()
  }

  /** Which is what the code's counter says. */
  lemma NowIsCounter(c: Config, t: nat)
    requires c.Counts()
    ensures Otp.Counter(Unix(t), c.period) == Otp.Done(Now(c, t))
  {
  }

  /** Step k is within the skew of counter n. */
  predicate Near(c: Config, n: nat, k: int) { n - c.skew <= k <= n + c.skew }

  /** Some step near the moment shows the entered code. */
  ghost predicate Matches(c: Config, codes: (string, int) -> string, subject: string, t: nat, entered: string)
    requires c.Counts()
  {
    exists k :: Near(c, Now(c, t), k) && codes(subject, k) == entered
  }

  method Search(c: Config, codes: (string, int) -> string, subject: string, t: nat, entered: string) returns (ok: bool)
    requires c.Counts()
    ensures ok <==> Matches(c, codes, subject, t, entered)
  {
    NowIsCounter(c, t);
    var counter := Otp.Counter(Unix(t), c.period).value;
    var d: int := 0 - c.skew;
    while d <= c.skew
      invariant 0 <= d + c.skew <= 2 * c.skew + 1
      invariant forall k :: counter - c.skew <= k < counter + d ==> codes(subject, k) != entered
    {
      if codes(subject, counter + d) == entered {
        assert Near(c, Now(c, t), counter + d);
        return true;
      }
      d := d + 1;
    }
    return false;
  }

  function Key(subject: string, code: string): string { "totp:" + subject + ":" + code }

  /** A submit of one code: when it was checked, and when the roster was asked to burn it. */
  datatype Attempt = Attempt(subject: string, code: string, checked: nat, burned: nat)

  /** Checked, then burned: the code is accepted if it matched and nobody had burned it. */
  ghost function Accept<Id>(c: Config, codes: (string, int) -> string, b: Book<Id>, a: Attempt): (Book<Id>, bool)
    requires c.Counts()
  {
    if Matches(c, codes, a.subject, a.checked, a.code) then Burn(b, Key(a.subject, a.code), a.burned, c.Window())
    else (b, false)
  }

  /** The last steps of a sign-in, against the roster in memory. */
  method Submit<Id(==)>(c: Config, codes: (string, int) -> string, m: Memory<Id>, a: Attempt) returns (ok: bool)
    requires c.Counts()
    modifies m
    ensures (m.Value(), ok) == Accept(c, codes, old(m.Value()), a)
  {
    ok := Search(c, codes, a.subject, a.checked, a.code);
    if ok { ok := m.TryBurn(Key(a.subject, a.code), a.burned, c.Window()); }
  }

  // Whole runs. Other burns (form nonces, codes of other sources) share the roster.

  datatype Event = Code(a: Attempt) | Other(key: string, at: nat, ttl: nat)

  function TimeOf(e: Event): nat { if e.Code? then e.a.burned else e.at }

  /** A code is burned after it is checked, at most delay later, and the roster's clock never goes back. */
  ghost predicate Timed(events: seq<Event>, delay: nat) {
    && (forall i | 0 <= i < |events| && events[i].Code? ::
          events[i].a.checked <= events[i].a.burned <= events[i].a.checked + delay)
    && (forall i, j | 0 <= i < j < |events| :: TimeOf(events[i]) <= TimeOf(events[j]))
  }

  datatype State = State(book: Book<string>, accepted: seq<Attempt>)

  ghost function Next(c: Config, codes: (string, int) -> string, s: State, e: Event): State
    requires c.Counts()
  {
    match e
    case Code(a) =>
      var (book, ok) := Accept(c, codes, s.book, a);
      State(book, if ok then s.accepted + [a] else s.accepted)
    case Other(key, at, ttl) => s.(book := Burn(s.book, key, at, ttl).0)
  }

  ghost function Run(c: Config, codes: (string, int) -> string, events: seq<Event>): State
    requires c.Counts()
  {
    if events == [] then State(Empty(), [])
    else Next(c, codes, Run(c, codes, events[..|events| - 1]), events[|events| - 1])
  }

  /** a and b both used the code of step k, while it could match. */
  ghost predicate SameStep(c: Config, codes: (string, int) -> string, a: Attempt, b: Attempt, k: int)
    requires c.Counts()
  {
    && a.subject == b.subject && a.code == b.code == codes(a.subject, k)
    && Near(c, Now(c, a.checked), k) && Near(c, Now(c, b.checked), k)
  }

  /** No two accepted attempts of one subject used the same step. */
  ghost predicate OncePerStep(c: Config, codes: (string, int) -> string, accepted: seq<Attempt>)
    requires c.Counts()
  {
    forall i, j, k | 0 <= i < j < |accepted| :: !SameStep(c, codes, accepted[i], accepted[j], k)
  }

  /** The moments at which one step can match span less than 2 * skew + 1 steps. */
  lemma MatchingSpan(c: Config, s: nat, t: nat, k: int)
    requires c.Counts() && Near(c, Now(c, s), k) && Near(c, Now(c, t), k)
    ensures t - s < (2 * c.skew + 1) * c.Step() * SECOND
  {
    var p := c.Step();
    var m, n := Now(c, s), Now(c, t);
    var us, ut := s / SECOND, t / SECOND;
    assert n <= m + 2 * c.skew;
    assert us >= m * p && ut < n * p + p;
    assert n * p <= (m + 2 * c.skew) * p by { Scale(n, m + 2 * c.skew, p); }
    assert (m + 2 * c.skew) * p + p == m * p + (2 * c.skew + 1) * p;
    assert ut - us < (2 * c.skew + 1) * p;
  }

  lemma Scale(a: int, b: int, p: nat)
    requires a <= b
    ensures a * p <= b * p
  {
  }

  /** A code once accepted stays burned for a whole window. */
  ghost predicate Guarded(c: Config, s: State, now: nat) {
    forall i | 0 <= i < |s.accepted| ::
      var a := s.accepted[i];
      a.burned <= now && Key(a.subject, a.code) in s.book.burned
      && a.burned + c.Window() <= s.book.burned[Key(a.subject, a.code)]
  }

  lemma NextKeeps(c: Config, codes: (string, int) -> string, s: State, e: Event, now: nat, delay: nat)
    requires c.Counts() && Guarded(c, s, now) && now <= TimeOf(e) && OncePerStep(c, codes, s.accepted)
    requires delay <= c.Slack() && (e.Code? ==> e.a.checked <= e.a.burned <= e.a.checked + delay)
    requires forall i | 0 <= i < |s.accepted| :: s.accepted[i].checked <= s.accepted[i].burned
    ensures Guarded(c, Next(c, codes, s, e), TimeOf(e)) && OncePerStep(c, codes, Next(c, codes, s, e).accepted)
  {
    if e.Code? {
      forall i, k | 0 <= i < |s.accepted| && SameStep(c, codes, s.accepted[i], e.a, k)
        ensures Next(c, codes, s, e).accepted == s.accepted
      {
        MatchingSpan(c, s.accepted[i].checked, e.a.checked, k);
      }
    }
  }

  lemma {:induction false} RunKeeps(c: Config, codes: (string, int) -> string, events: seq<Event>, delay: nat)
    requires c.Counts() && Timed(events, delay) && delay <= c.Slack()
    ensures var s := Run(c, codes, events);
            && OncePerStep(c, codes, s.accepted)
            && Guarded(c, s, if events == [] then 0 else TimeOf(events[|events| - 1]))
            && forall i | 0 <= i < |s.accepted| :: s.accepted[i].checked <= s.accepted[i].burned
  {
    if events != [] {
      var before, e := events[..|events| - 1], events[|events| - 1];
      RunKeeps(c, codes, before, delay);
      NextKeeps(c, codes, Run(c, codes, before), e, if before == [] then 0 else TimeOf(before[|before| - 1]), delay);
    }
  }

  /** As long as every code is burned within the slack of its check, one step's code is accepted at
      most once per subject (section 5.2 of RFC 6238), whatever else the roster burns. */
  lemma AtMostOnce(c: Config, codes: (string, int) -> string, events: seq<Event>, delay: nat)
    requires c.Counts() && Timed(events, delay) && delay <= c.Slack()
    ensures OncePerStep(c, codes, Run(c, codes, events).accepted)
  {
    RunKeeps(c, codes, events, delay);
  }

  /** A longer delay lets the same step through twice. */
  lemma AcceptedTwice(c: Config, codes: (string, int) -> string, subject: string, delay: nat)
    returns (events: seq<Event>)
    requires c.Counts() && delay > c.Slack()
    ensures Timed(events, delay) && !OncePerStep(c, codes, Run(c, codes, events).accepted)
  {
    var p, k := c.Step(), c.skew;
    var late := (2 * k + 1) * p * SECOND - 1;
    assert late >= 0 by { assert (2 * k + 1) * p >= 1; }
    var code := codes(subject, k);
    var a, b := Attempt(subject, code, 0, 0), Attempt(subject, code, late, late + delay);
    LastMoment(p, 2 * k + 1);
    assert Near(c, Now(c, 0), k) && Near(c, Now(c, late), k);
    assert late + delay >= c.Window();
    events := [Code(a), Code(b)];
    BothAccepted(c, codes, a, b, k);
    var accepted := Run(c, codes, events).accepted;
    assert SameStep(c, codes, accepted[0], accepted[1], k);
  }

  lemma BothAccepted(c: Config, codes: (string, int) -> string, a: Attempt, b: Attempt, k: int)
    requires c.Counts() && SameStep(c, codes, a, b, k) && a.burned + c.Window() <= b.burned
    ensures Run(c, codes, [Code(a), Code(b)]).accepted == [a, b]
  {
    hide Now, Near, Key;
    var events := [Code(a), Code(b)];
    var none, one := Run(c, codes, []), Run(c, codes, [Code(a)]);
    assert [Code(a)][..0] == [] && events[..1] == [Code(a)];
    assert Matches(c, codes, a.subject, a.checked, a.code) && Matches(c, codes, b.subject, b.checked, b.code);
    assert one == Next(c, codes, none, Code(a));
    assert one.accepted == [] + [a];
  }

  lemma LastMoment(p: nat, n: nat)
    requires p > 0 && n > 0
    ensures n * p > 0 && (n * p * SECOND - 1) / SECOND / p == n - 1
  {
    assert n * p > 0;
    assert (n * p * SECOND - 1) / SECOND == n * p - 1;
    assert n * p - 1 == (n - 1) * p + (p - 1);
    Otp.DivMod(n * p - 1, p, n - 1, p - 1);
    assert ((n * p - 1) / p - (n - 1)) * p == 0;
    Otp.Multiple((n * p - 1) / p - (n - 1), p, 0);
  }

  /** Codes are accepted at most once per step in every run exactly when the delay is within the
      slack. With a period of whole seconds the slack is one period. */
  lemma OnceExactly(c: Config, codes: (string, int) -> string, delay: nat)
    requires c.Counts()
    ensures (forall events | Timed(events, delay) :: OncePerStep(c, codes, Run(c, codes, events).accepted))
            <==> delay <= c.Slack()
    ensures c.period % SECOND == 0 ==> c.Slack() == c.period
  {
    if delay <= c.Slack() {
      forall events | Timed(events, delay) ensures OncePerStep(c, codes, Run(c, codes, events).accepted) {
        AtMostOnce(c, codes, events, delay);
      }
    } else {
      var events := AcceptedTwice(c, codes, "", delay);
    }
    if c.period % SECOND == 0 {
      assert c.Step() * SECOND == c.period;
      assert (2 * c.skew + 1) * c.Step() * SECOND == (2 * c.skew + 1) * c.period;
      assert c.period * (2 * c.skew + 2) == (2 * c.skew + 1) * c.period + c.period;
    }
  }

  /** Where a code has no colon, burning one subject's code touches no other subject or code. */
  lemma KeysAreApart(subject: string, code: string, subject': string, code': string)
    requires ':' !in code && ':' !in code'
    ensures Key(subject, code) == Key(subject', code') <==> subject == subject' && code == code'
  {
    Ends(subject, code, subject', code');
    Ends(subject', code', subject, code);
    var key, key' := Key(subject, code), Key(subject', code');
    if |code| == |code'| && key == key' {
      assert code == key[|key| - |code|..] && code' == key'[|key| - |code|..];
      assert subject == key[5..|key| - |code| - 1] && subject' == key'[5..|key| - |code| - 1];
    }
  }

  lemma Ends(subject: string, code: string, subject': string, code': string)
    requires ':' !in code'
    ensures |code| < |code'| ==> Key(subject, code) != Key(subject', code')
  {
    var key, key' := Key(subject, code), Key(subject', code');
    if |key| == |key'| && |code| < |code'| {
      var n := |key| - |code| - 1;
      assert key[n] == ':';
      assert key'[n] == code'[n - (|key'| - |code'|)];
    }
  }
}
