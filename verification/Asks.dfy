/** What earlier inspectors ask of this one, and which of it a profile lets them have
    (internal/decide/decide.go, internal/config/profile.go). */
module Asks {
  import Seqs

  datatype Option<+T> = None | Some(value: T)

  datatype Rule = Rule(from: string, accept: seq<string>, apply: seq<string>, codes: seq<string>)
  datatype Act = Act(do: string, axis: string, code: string, value: int, delta: int)
  datatype Prior = Prior(phase: string, inspector: string, actions: seq<Act>)
  datatype Outcome = Outcome(from: string, act: Act, applied: bool)

  /** In a rule: any sender. */
  const ANY := "*"

  function Axis(act: Act): string { if act.axis == "" then "request" else act.axis }

  predicate Hits(r: Rule, from: string, act: Act) {
    && (r.from == ANY || r.from == from)
    && act.do in r.accept
    && (r.apply == [] || Axis(act) in r.apply)
    && (r.codes == [] || act.code in r.codes)
  }

  predicate Applied(rules: seq<Rule>, from: string, act: Act) {
    exists i :: 0 <= i < |rules| && Hits(rules[i], from, act)
  }

  datatype Ask = Ask(reauth: bool, skip: bool, outcomes: seq<Outcome>)

  function Deliver(a: Ask, from: string, act: Act, rules: seq<Rule>): Ask {
    var hit := Applied(rules, from, act);
    Ask(a.reauth || (hit && act.do == "reauth"), a.skip || (hit && act.do == "skip"),
        a.outcomes + [Outcome(from, act, hit)])
  }

  /** The actions of one verdict, if it belongs to the request phase. */
  predicate Heard(v: Prior) { v.phase == "" || v.phase == "request" }

  function DeliverAll(a: Ask, from: string, acts: seq<Act>, rules: seq<Rule>): Ask {
    if acts == [] then a
    else Deliver(DeliverAll(a, from, acts[..|acts| - 1], rules), from, acts[|acts| - 1], rules)
  }

  function AskOf(prior: seq<Prior>, rules: seq<Rule>): Ask {
    if prior == [] then Ask(false, false, [])
    else
      var a, v := AskOf(prior[..|prior| - 1], rules), prior[|prior| - 1];
      if Heard(v) then DeliverAll(a, v.inspector, v.actions, rules) else a
  }

  /** The asks as they are collected, action by action and rule by rule. */
  class Asked {
    var reauth: bool
    var skip: bool
    var outcomes: seq<Outcome>

    function Value(): Ask
      reads this
    {
      Ask(reauth, skip, outcomes)
    }

    constructor ()
      ensures Value() == Ask(false, false, [])
    {
      reauth, skip, outcomes := false, false, [];
    }

    method Take(from: string, act: Act, rules: seq<Rule>)
      modifies this
      ensures Value() == Deliver(old(Value()), from, act, rules)
    {
      var applied := false;
      for i := 0 to |rules|
        invariant applied <==> exists j :: 0 <= j < i && Hits(rules[j], from, act)
        invariant Value() == Ask(old(reauth) || (applied && act.do == "reauth"),
                                 old(skip) || (applied && act.do == "skip"), old(outcomes))
      {
        if Hits(rules[i], from, act) {
          if act.do == "reauth" { reauth := true; }
          if act.do == "skip" { skip := true; }
          applied := true;
        }
      }
      outcomes := outcomes + [Outcome(from, act, applied)];
    }

    method TakeAll(prior: seq<Prior>, rules: seq<Rule>)
      requires Value() == Ask(false, false, [])
      modifies this
      ensures Value() == AskOf(prior, rules)
    {
      for i := 0 to |prior|
        invariant Value() == AskOf(prior[..i], rules)
      {
        assert prior[..i + 1][..i] == prior[..i];
        var v := prior[i];
        if Heard(v) {
          ghost var a := Value();
          for k := 0 to |v.actions|
            invariant Value() == DeliverAll(a, v.inspector, v.actions[..k], rules)
          {
            assert v.actions[..k + 1][..k] == v.actions[..k];
            Take(v.inspector, v.actions[k], rules);
          }
          assert v.actions[..|v.actions|] == v.actions;
        }
      }
      assert prior[..|prior|] == prior;
    }
  }

  /** A rule lets a sender have an ask: it is for that sender or for any, takes the verb, and, where it names axes or
      codes, the ask's; an ask without an axis is about the request. */
  predicate Lets(r: Rule, from: string, act: Act) {
    && r.from in {"*", from} && act.do in r.accept
    && (r.apply != [] ==> (act.axis == "" && "request" in r.apply) || (act.axis != "" && act.axis in r.apply))
    && (r.codes != [] ==> act.code in r.codes)
  }

  /** Somebody asked for it and a rule lets them. */
  ghost predicate Granted(prior: seq<Prior>, rules: seq<Rule>, do: string) {
    exists i, k, j :: GrantedBy(prior, rules, do, i, k, j)
  }

  ghost predicate GrantedBy(prior: seq<Prior>, rules: seq<Rule>, do: string, i: int, k: int, j: int) {
    && 0 <= i < |prior| && prior[i].phase in {"", "request"}
    && 0 <= k < |prior[i].actions| && prior[i].actions[k].do == do
    && 0 <= j < |rules| && Lets(rules[j], prior[i].inspector, prior[i].actions[k])
  }

  lemma {:induction false} DeliverAllIs(a: Ask, from: string, acts: seq<Act>, rules: seq<Rule>)
    ensures DeliverAll(a, from, acts, rules).skip <==>
              a.skip || exists k :: 0 <= k < |acts| && acts[k].do == "skip" && Applied(rules, from, acts[k])
    ensures DeliverAll(a, from, acts, rules).reauth <==>
              a.reauth || exists k :: 0 <= k < |acts| && acts[k].do == "reauth" && Applied(rules, from, acts[k])
  {
    if acts != [] {
      var rest := acts[..|acts| - 1];
      DeliverAllIs(a, from, rest, rules);
      assert forall k | 0 <= k < |rest| :: rest[k] == acts[k];
      hide Applied;
    }
  }

  lemma {:induction false} AskIs(prior: seq<Prior>, rules: seq<Rule>)
    ensures AskOf(prior, rules).skip <==> Granted(prior, rules, "skip")
    ensures AskOf(prior, rules).reauth <==> Granted(prior, rules, "reauth")
  {
    if prior != [] {
      var rest, v := prior[..|prior| - 1], prior[|prior| - 1];
      AskIs(rest, rules);
      DeliverAllIs(AskOf(rest, rules), v.inspector, v.actions, rules);
      GrantedStep(rest, v, rules, "skip");
      GrantedStep(rest, v, rules, "reauth");
      assert prior == rest + [v];
      hide Granted, Applied;
    }
  }

  lemma HitsAre(v: Prior, rules: seq<Rule>)
    ensures forall r, act :: Hits(r, v.inspector, act) <==> Lets(r, v.inspector, act)
  {
  }

  lemma GrantedStep(rest: seq<Prior>, v: Prior, rules: seq<Rule>, do: string)
    ensures Granted(rest + [v], rules, do) <==>
              Granted(rest, rules, do) ||
              (Heard(v) && exists k :: 0 <= k < |v.actions| && v.actions[k].do == do
                                       && Applied(rules, v.inspector, v.actions[k]))
  {
    var prior := rest + [v];
    HitsAre(v, rules);
    hide Hits, Lets;
    if i, k, j :| GrantedBy(rest, rules, do, i, k, j) {
      assert GrantedBy(prior, rules, do, i, k, j);
    }
    if Heard(v) {
      if k :| 0 <= k < |v.actions| && v.actions[k].do == do && Applied(rules, v.inspector, v.actions[k]) {
        var j :| 0 <= j < |rules| && Hits(rules[j], v.inspector, v.actions[k]);
        assert GrantedBy(prior, rules, do, |rest|, k, j);
      }
    }
    if i, k, j :| GrantedBy(prior, rules, do, i, k, j) {
      if i < |rest| { assert GrantedBy(rest, rules, do, i, k, j); }
    }
  }

  // What is recorded.

  /** The asks of the request phase, in order, each with its sender. */
  function AllHeard(prior: seq<Prior>): seq<(string, Act)> {
    if prior == [] then []
    else
      var v := prior[|prior| - 1];
      AllHeard(prior[..|prior| - 1])
      + if v.phase !in {"", "request"} then []
        else seq(|v.actions|, k requires 0 <= k < |v.actions| => (v.inspector, v.actions[k]))
  }

  /** Each ask is recorded as it was made, with whether some rule lets its sender have it. */
  ghost predicate Records(outcomes: seq<Outcome>, asks: seq<(string, Act)>, rules: seq<Rule>) {
    && |outcomes| == |asks|
    && forall k | 0 <= k < |asks| ::
         var o := outcomes[k];
         && o.from == asks[k].0 && o.act == asks[k].1
         && (o.applied <==> exists j :: 0 <= j < |rules| && Lets(rules[j], o.from, o.act))
  }

  lemma RecordsJoin(a: seq<Outcome>, asks: seq<(string, Act)>, b: seq<Outcome>, more: seq<(string, Act)>,
                    rules: seq<Rule>)
    requires Records(a, asks, rules) && Records(b, more, rules)
    ensures Records(a + b, asks + more, rules)
  {
    hide Lets;
  }

  lemma AppliedExactly(rules: seq<Rule>, from: string, act: Act)
    ensures Applied(rules, from, act) <==> exists j :: 0 <= j < |rules| && Lets(rules[j], from, act)
  {
    HitsAre(Prior("", from, []), rules);
    hide Hits, Lets;
  }

  lemma {:induction false} ActsRecorded(a: Ask, from: string, acts: seq<Act>, rules: seq<Rule>,
                                        asks: seq<(string, Act)>)
    requires Records(a.outcomes, asks, rules)
    ensures Records(DeliverAll(a, from, acts, rules).outcomes,
                    asks + seq(|acts|, k requires 0 <= k < |acts| => (from, acts[k])), rules)
  {
    if acts == [] {
      assert asks + [] == asks;
    } else {
      hide Applied, Lets, Hits, Records;
      var n := |acts| - 1;
      ActsRecorded(a, from, acts[..n], rules, asks);
      var before := asks + seq(n, k requires 0 <= k < n => (from, acts[..n][k]));
      OneRecorded(from, acts[n], rules);
      RecordsJoin(DeliverAll(a, from, acts[..n], rules).outcomes, before,
                  [Outcome(from, acts[n], Applied(rules, from, acts[n]))], [(from, acts[n])], rules);
      assert before + [(from, acts[n])] == asks + seq(|acts|, k requires 0 <= k < |acts| => (from, acts[k]));
    }
  }

  lemma OneRecorded(from: string, act: Act, rules: seq<Rule>)
    ensures Records([Outcome(from, act, Applied(rules, from, act))], [(from, act)], rules)
  {
    AppliedExactly(rules, from, act);
    hide Applied, Lets;
  }

  /** All asks of the request phase are recorded, in order, applied exactly where a rule lets their sender have them. */
  lemma {:induction false} AllRecorded(prior: seq<Prior>, rules: seq<Rule>)
    ensures Records(AskOf(prior, rules).outcomes, AllHeard(prior), rules)
  {
    if prior != [] {
      hide Records, DeliverAll;
      var rest, v := prior[..|prior| - 1], prior[|prior| - 1];
      AllRecorded(rest, rules);
      ActsRecorded(AskOf(rest, rules), v.inspector, v.actions, rules, AllHeard(rest));
      assert AllHeard(rest) + [] == AllHeard(rest);
    }
  }

  // What a profile is validated for.

  datatype Fault = NoSender | NoVerbs | NotOurs(verb: string) | UnknownVerb(verb: string)
                 | UnknownAxis(axis: string) | IdleAxis(axis: string) | AnyMaySkip

  function AxesOf(verb: string): seq<string> {
    if verb == "reauth" then ["session"]
    else if verb == "note" then ["request", "ip", "asn", "session"]
    else if verb == "active" || verb == "passive" || verb == "off" || verb == "vote" then ["request", "conn"]
    else if verb == "audit" || verb == "archive" then ["request", "response"]
    else ["request"]
  }

  predicate AxisFits(verbs: seq<string>, axis: string) {
    exists i :: 0 <= i < |verbs| && axis in AxesOf(verbs[i])
  }

  function VerbFault(verbs: seq<string>): Option<Fault> {
    if verbs == [] then None
    else if verbs[0] == "reauth" || verbs[0] == "skip" then VerbFault(verbs[1..])
    else if verbs[0] == "challenge" || verbs[0] == "threshold" || verbs[0] == "note" then Some(NotOurs(verbs[0]))
    else Some(UnknownVerb(verbs[0]))
  }

  function AxisFault(verbs: seq<string>, axes: seq<string>): Option<Fault> {
    if axes == [] then None
    else if axes[0] !in ["request", "ip", "asn", "session"] then Some(UnknownAxis(axes[0]))
    else if !AxisFits(verbs, axes[0]) then Some(IdleAxis(axes[0]))
    else AxisFault(verbs, axes[1..])
  }

  function RuleFault(r: Rule): Option<Fault> {
    if r.from == "" then Some(NoSender)
    else if r.accept == [] then Some(NoVerbs)
    else if VerbFault(r.accept).Some? then VerbFault(r.accept)
    else if AxisFault(r.accept, r.apply).Some? then AxisFault(r.accept, r.apply)
    else if r.from == ANY && "skip" in r.accept then Some(AnyMaySkip)
    else None
  }

  ghost predicate Validated(rules: seq<Rule>) { forall r | r in rules :: RuleFault(r).None? }

  lemma {:induction false} VerbsAreOurs(verbs: seq<string>)
    ensures VerbFault(verbs).None? <==> forall v | v in verbs :: v == "reauth" || v == "skip"
  {
    if verbs != [] {
      VerbsAreOurs(verbs[1..]);
      assert verbs[0] in verbs;
      assert forall v | v in verbs :: v == verbs[0] || v in verbs[1..];
      assert forall v | v in verbs[1..] :: v in verbs;
    }
  }

  predicate Occurs(verbs: seq<string>, axis: string) {
    (axis == "session" && "reauth" in verbs) || (axis == "request" && "skip" in verbs)
  }

  lemma FitsMeans(verbs: seq<string>, axis: string)
    requires forall v | v in verbs :: v == "reauth" || v == "skip"
    ensures AxisFits(verbs, axis) <==> Occurs(verbs, axis)
  {
    if i :| 0 <= i < |verbs| && axis in AxesOf(verbs[i]) {
      assert verbs[i] in verbs;
    }
    if Occurs(verbs, axis) {
      var i :| 0 <= i < |verbs| && verbs[i] == if axis == "session" then "reauth" else "skip";
      assert axis in AxesOf(verbs[i]);
    }
  }

  lemma {:induction false} AxesOccur(verbs: seq<string>, axes: seq<string>)
    requires forall v | v in verbs :: v == "reauth" || v == "skip"
    ensures AxisFault(verbs, axes).None? <==> forall a | a in axes :: Occurs(verbs, a)
  {
    hide AxisFits;
    if axes != [] {
      AxesOccur(verbs, axes[1..]);
      FitsMeans(verbs, axes[0]);
      Seqs.HeadTail(axes);
      assert forall a :: a in axes <==> a == axes[0] || a in axes[1..];
    }
  }

  /** A rule is accepted exactly when it names its senders, asks only for what this gate can do, on axes
      where that occurs, and lets only a named sender skip. */
  lemma ValidatedMeans(r: Rule)
    ensures RuleFault(r).None? <==>
              && r.from != "" && r.accept != []
              && (forall v | v in r.accept :: v == "reauth" || v == "skip")
              && (forall a | a in r.apply :: Occurs(r.accept, a))
              && (r.from == ANY ==> "skip" !in r.accept)
  {
    VerbsAreOurs(r.accept);
    if VerbFault(r.accept).None? { AxesOccur(r.accept, r.apply); }
  }

  /** The verbs before i are this gate's, the one at i is not. */
  ghost predicate FirstForeign(verbs: seq<string>, i: int) {
    0 <= i < |verbs| && verbs[i] !in {"reauth", "skip"} && forall k | 0 <= k < i :: verbs[k] in {"reauth", "skip"}
  }

  /** The first verb that is not this gate's is told, and whether it is another's. */
  lemma {:induction false} VerbFaultTells(verbs: seq<string>)
    ensures forall i | FirstForeign(verbs, i) ::
              VerbFault(verbs) == Some(if verbs[i] in {"challenge", "threshold", "note"} then NotOurs(verbs[i])
                                       else UnknownVerb(verbs[i]))
  {
    if verbs != [] && verbs[0] in {"reauth", "skip"} {
      VerbFaultTells(verbs[1..]);
      forall i | FirstForeign(verbs, i) ensures FirstForeign(verbs[1..], i - 1) && verbs[1..][i - 1] == verbs[i] {
        assert forall k | 0 <= k < i - 1 :: verbs[1..][k] == verbs[k + 1];
      }
    }
  }

  /** The axes before i occur with the verbs, the one at i does not. */
  ghost predicate FirstIdle(verbs: seq<string>, axes: seq<string>, i: int) {
    0 <= i < |axes| && !Occurs(verbs, axes[i]) && forall k | 0 <= k < i :: Occurs(verbs, axes[k])
  }

  lemma {:induction false} AxisFaultTells(verbs: seq<string>, axes: seq<string>)
    requires forall v | v in verbs :: v == "reauth" || v == "skip"
    ensures forall i | FirstIdle(verbs, axes, i) ::
              AxisFault(verbs, axes) == Some(if axes[i] in {"request", "ip", "asn", "session"} then IdleAxis(axes[i])
                                             else UnknownAxis(axes[i]))
  {
    hide AxisFits;
    if axes != [] {
      FitsMeans(verbs, axes[0]);
      AxisFaultTells(verbs, axes[1..]);
      forall i | FirstIdle(verbs, axes, i) && i > 0
        ensures FirstIdle(verbs, axes[1..], i - 1) && axes[1..][i - 1] == axes[i]
      {
        assert forall k | 0 <= k < i - 1 :: axes[1..][k] == axes[k + 1];
      }
    }
  }

  /** An action a named rule was written for. */
  ghost predicate NamedBy(prior: seq<Prior>, rules: seq<Rule>, do: string, i: int, k: int, j: int) {
    GrantedBy(prior, rules, do, i, k, j) && rules[j].from == prior[i].inspector
  }

  /** Under a validated profile a skip is one asked for by the very sender a rule names. */
  lemma SkipIsNamed(prior: seq<Prior>, rules: seq<Rule>)
    requires Validated(rules)
    ensures AskOf(prior, rules).skip <==> exists i, k, j :: NamedBy(prior, rules, "skip", i, k, j)
  {
    AskIs(prior, rules);
    if i, k, j :| GrantedBy(prior, rules, "skip", i, k, j) {
      assert rules[j] in rules;
      ValidatedMeans(rules[j]);
      assert NamedBy(prior, rules, "skip", i, k, j);
    }
  }
}
