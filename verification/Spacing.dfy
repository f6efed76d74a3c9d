/** How many moments fit into a span of time that keep a distance, alone or in groups. */
module Spacing {

  lemma {:induction false} Largest(ls: set<nat>) returns (m: nat)
    requires ls != {}
    ensures m in ls && forall l | l in ls :: l <= m
  {
    var l :| l in ls;
    if ls == {l} { return l; }
    var k := Largest(ls - {l});
    m := if k < l then l else k;
    assert forall i | i in ls :: i == l || i in ls - {l};
  }

  lemma OneGapMore(n: int, h: nat, d: int)
    requires (n - 1) * h <= d - h
    ensures n * h <= d
  {
  }

  /** Moments at least h apart: not more than fit in the span. */
  lemma {:induction false} SpacedFit(ls: set<nat>, at: nat -> int, from: int, to: int, h: nat)
    requires h > 0 && forall l | l in ls :: from <= at(l) <= to
    requires forall k, l | k in ls && l in ls && k < l :: at(k) + h <= at(l)
    ensures ls != {} ==> (|ls| - 1) * h <= to - from
  {
    if ls != {} {
      var m := Largest(ls);
      var rest := ls - {m};
      assert |ls| == |rest| + 1;
      SpacedFit(rest, at, from, at(m) - h, h);
      if rest != {} { OneGapMore(|rest|, h, at(m) - from); }
    }
  }

  ghost function Fibre(js: set<nat>, group: nat -> nat, l: nat): set<nat> {
    set j | j in js && group(j) == l
  }

  lemma TakeFibre(js: set<nat>, group: nat -> nat, l: nat)
    ensures var rest := js - Fibre(js, group, l);
            && |js| == |Fibre(js, group, l)| + |rest|
            && (forall k | k != l :: Fibre(rest, group, k) == Fibre(js, group, k))
            && forall j | j in rest :: j in js && group(j) != l
  {
    var here := Fibre(js, group, l);
    assert js == here + (js - here);
  }

  /** As many as n for each of the groups. */
  lemma {:induction false} ByGroups(js: set<nat>, group: nat -> nat, ls: set<nat>, n: nat)
    requires forall j | j in js :: group(j) in ls
    requires forall l | l in ls :: |Fibre(js, group, l)| <= n
    ensures |js| <= n * |ls|
    decreases |ls|
  {
    if ls == {} {
      assert js == {};
    } else {
      var l :| l in ls;
      TakeFibre(js, group, l);
      hide Fibre;
      ByGroups(js - Fibre(js, group, l), group, ls - {l}, n);
      OneMore(n, |ls| - 1, |Fibre(js, group, l)|, |js - Fibre(js, group, l)|);
    }
  }

  lemma OneMore(n: nat, m: nat, here: nat, rest: nat)
    requires here <= n && rest <= n * m
    ensures here + rest <= n * (m + 1)
  {
  }

  lemma Monotone(a: nat, m: int, n: int)
    ensures m <= n ==> a * m <= a * n
  {
  }

  lemma Rounds(n: nat, h: nat, d: nat)
    requires h > 0 && n * h <= d
    ensures n <= d / h
  {
    Monotone(h, d / h + 1, n);
  }

  /** A moment of some member of each group. */
  ghost function MomentOf(js: set<nat>, group: nat -> nat, at: nat -> int, l: nat): int {
    if j :| j in js && group(j) == l then at(j) else 0
  }

  lemma Moments(js: set<nat>, group: nat -> nat, at: nat -> int, h: nat, k: nat, l: nat)
    requires forall i, j | i in js && j in js && group(i) < group(j) :: at(i) + h <= at(j)
    requires k < l && (exists i :: i in js && group(i) == k) && exists j :: j in js && group(j) == l
    ensures MomentOf(js, group, at, k) + h <= MomentOf(js, group, at, l)
  {
  }

  /** Groups of at most n whose moments all lie h before those of later groups. */
  lemma SpacedGroups(js: set<nat>, group: nat -> nat, at: nat -> int, n: nat, from: int, span: nat, h: nat)
    requires h > 0 && forall j | j in js :: from <= at(j) <= from + span
    requires forall j, k | j in js && k in js && group(j) < group(k) :: at(j) + h <= at(k)
    requires forall l: nat :: |Fibre(js, group, l)| <= n
    ensures |js| <= n * (1 + span / h)
  {
    hide Fibre;
    var ls := set j | j in js :: group(j);
    var moment := (l: nat) => MomentOf(js, group, at, l);
    forall k, l | k in ls && l in ls && k < l ensures moment(k) + h <= moment(l) {
      Moments(js, group, at, h, k, l);
    }
    SpacedFit(ls, moment, from, from + span, h);
    ByGroups(js, group, ls, n);
    if ls != {} { Rounds(|ls| - 1, h, span); }
    Monotone(n, |ls|, 1 + span / h);
  }
}
