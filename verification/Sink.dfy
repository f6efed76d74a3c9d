/** Audit events on their way out (internal/audit/sink.go): a bounded buffer that drops its oldest, emptied
    in batches, one message a subject. */
module Sink {
  import Seqs

  const MAX_ITEMS := 256
  const MAX_SIZE := 512 * 1024
  const MAX_PENDING := 50000

  datatype Item = Item(subject: string, body: string)
  datatype Batch = Batch(subject: string, items: seq<Item>)

  /** What became of an item that is no longer pending. */
  datatype Fate = Handed(it: Item) | Dropped(it: Item)

  function SizeOf(items: seq<Item>): nat {
    if items == [] then 0 else |items[0].body| + 2 + SizeOf(items[1..])
  }

  /** The items of one subject, in order. */
  function Of(items: seq<Item>, subject: string): (r: seq<Item>)
    ensures forall it | it in r :: it.subject == subject
  {
    if items == [] then []
    else
      var last := items[|items| - 1];
      Of(items[..|items| - 1], subject) + if last.subject == subject then [last] else []
  }

  /** The subjects in order of first appearance. */
  function Subjects(items: seq<Item>): (r: seq<string>)
    ensures forall x :: x in r <==> exists k :: 0 <= k < |items| && items[k].subject == x
  {
    if items == [] then []
    else
      var before, x := Subjects(items[..|items| - 1]), items[|items| - 1].subject;
      if x in before then before else before + [x]
  }

  function Batches(items: seq<Item>, subjects: seq<string>): seq<Batch> {
    if subjects == [] then []
    else
      var x := subjects[|subjects| - 1];
      Batches(items, subjects[..|subjects| - 1]) + [Batch(x, Of(items, x))]
  }

  lemma {:induction false} SizeOfAppend(items: seq<Item>, it: Item)
    ensures SizeOf(items + [it]) == SizeOf(items) + |it.body| + 2
  {
    if items == [] {
      assert items + [it] == [it];
    } else {
      SizeOfAppend(items[1..], it);
      assert (items + [it])[1..] == items[1..] + [it];
    }
  }

  method Measure(items: seq<Item>) returns (n: nat)
    ensures n == SizeOf(items)
  {
    n := 0;
    for k := 0 to |items|
      invariant n == SizeOf(items[..k])
    {
      SizeOfAppend(items[..k], items[k]);
      assert items[..k + 1] == items[..k] + [items[k]];
      n := n + |items[k].body| + 2;
    }
    assert items[..|items|] == items;
  }

  method GroupBySubject(items: seq<Item>) returns (order: seq<string>, bySubject: map<string, seq<Item>>)
    ensures order == Subjects(items)
    ensures forall x :: x in bySubject <==> x in order
    ensures forall x | x in bySubject :: bySubject[x] == Of(items, x)
  {
    hide Of, Subjects;
    order, bySubject := [], map[];
    NothingYet(items);
    for k := 0 to |items|
      invariant order == Subjects(items[..k])
      invariant forall x :: x in bySubject <==> x in order
      invariant forall x :: Of(items[..k], x) == if x in bySubject then bySubject[x] else []
    {
      var it := items[k];
      OneItemMore(items, k);
      if it.subject !in bySubject { order := order + [it.subject]; }
      var so := if it.subject in bySubject then bySubject[it.subject] else [];
      bySubject := bySubject[it.subject := so + [it]];
    }
    assert items[..|items|] == items;
  }

  lemma NothingYet(items: seq<Item>)
    ensures Subjects(items[..0]) == [] && forall x :: Of(items[..0], x) == []
  {
  }

  lemma OneItemMore(items: seq<Item>, k: nat)
    requires k < |items|
    ensures var it, before, now := items[k], items[..k], items[..k + 1];
            && Subjects(now) == (if it.subject in Subjects(before) then Subjects(before)
                                 else Subjects(before) + [it.subject])
            && forall x :: Of(now, x) == if it.subject == x then Of(before, x) + [it] else Of(before, x)
  {
    hide Of, Subjects;
    assert items[..k + 1] == items[..k] + [items[k]];
    forall x ensures Of(items[..k + 1], x)
                  == if items[k].subject == x then Of(items[..k], x) + [items[k]] else Of(items[..k], x)
    {
      OneItem(items[..k], items[k], x);
    }
    OneItem(items[..k], items[k], "");
  }

  /** How the buffer stands, with what became of everything that left it. */
  datatype State = State(pending: seq<Item>, fates: seq<Fate>, sent: seq<Batch>)

  const START := State([], [], [])

  function AddTo(s: State, it: Item): State {
    var grown := s.pending + [it];
    if |grown| > MAX_PENDING then s.(pending := grown[1..], fates := s.fates + [Dropped(grown[0])])
    else s.(pending := grown)
  }

  function HandedAll(items: seq<Item>): (fs: seq<Fate>)
    ensures |fs| == |items| && forall k | 0 <= k < |items| :: fs[k] == Handed(items[k])
  {
    seq(|items|, k requires 0 <= k < |items| => Handed(items[k]))
  }

  /** One round of a flush. */
  function TakeFrom(s: State): State {
    var n := if |s.pending| > MAX_ITEMS then MAX_ITEMS else |s.pending|;
    var take := s.pending[..n];
    State(s.pending[n..], s.fates + HandedAll(take), s.sent + Batches(take, Subjects(take)))
  }

  class Buffer {
    var pending: seq<Item>
    var size: nat
    var dropped: nat
    ghost var fates: seq<Fate>
    ghost var sent: seq<Batch>

    ghost function Value(): State
      reads this
    {
      State(pending, fates, sent)
    }

    ghost predicate Valid()
      reads this
    {
      size == SizeOf(pending) && |pending| <= MAX_PENDING && dropped == |DroppedOf(fates)|
    }

    constructor ()
      ensures Valid() && Value() == START && dropped == 0
    {
      pending, size, dropped, fates, sent := [], 0, 0, [], [];
    }

    /** full asks for a flush right away. */
    method Add(it: Item) returns (full: bool)
      requires Valid()
      modifies this
      ensures Valid() && Value() == AddTo(old(Value()), it)
      ensures full <==> |pending| >= MAX_ITEMS || SizeOf(pending) >= MAX_SIZE
    {
      SizeOfAppend(pending, it);
      pending := pending + [it];
      size := size + |it.body| + 2;
      if |pending| > MAX_PENDING {
        var cut := |pending| - MAX_PENDING;
        dropped := dropped + cut;
        fates := fates + [Dropped(pending[0])];
        pending := pending[cut..];
        size := Measure(pending);
      }
      full := |pending| >= MAX_ITEMS || size >= MAX_SIZE;
    }

    method Publish(items: seq<Item>)
      requires items != []
      modifies this`sent
      ensures sent == old(sent) + Batches(items, Subjects(items))
    {
      if |items| == 1 {
        One(items);
        sent := sent + [Batch(items[0].subject, items)];
        return;
      }
      var order, bySubject := GroupBySubject(items);
      for k := 0 to |order|
        invariant sent == old(sent) + Batches(items, order[..k])
      {
        ghost var message := Batch(order[k], Of(items, order[k]));
        OneMore(items, order, k);
        Seqs.Assoc(old(sent), Batches(items, order[..k]), [message]);
        sent := sent + [Batch(order[k], bySubject[order[k]])];
      }
      assert order[..|order|] == order;
    }

    method Round()
      requires Valid() && pending != []
      modifies this
      ensures Valid() && Value() == TakeFrom(old(Value()))
    {
      var n := if |pending| > MAX_ITEMS then MAX_ITEMS else |pending|;
      var take := pending[..n];
      HandedOfHanded(fates, take);
      fates := fates + HandedAll(take);
      pending := pending[n..];
      size := Measure(pending);
      Publish(take);
    }

    /** As long as nothing arrives meanwhile a flush ends with the buffer empty and everything handed on. */
    method Flush()
      requires Valid()
      modifies this
      ensures Valid() && pending == [] && dropped == old(dropped)
      ensures HandedOf(fates) == HandedOf(old(fates)) + old(pending)
      ensures forall x :: SentOf(sent, x) == SentOf(old(sent), x) + Of(old(pending), x)
    {
      hide SentOf, Of, HandedOf, HandedAll, Batches, Subjects, DroppedOf;
      while pending != []
        invariant Valid() && dropped == old(dropped)
        invariant forall x :: SentOf(sent, x) + Of(pending, x) == SentOf(old(sent), x) + Of(old(pending), x)
        invariant HandedOf(fates) + pending == HandedOf(old(fates)) + old(pending)
        decreases |pending|
      {
        ghost var was, n := Value(), if |pending| > MAX_ITEMS then MAX_ITEMS else |pending|;
        HandedOfHanded(fates, pending[..n]);
        forall x
          ensures SentOf(TakeFrom(was).sent, x) + Of(TakeFrom(was).pending, x)
               == SentOf(was.sent, x) + Of(was.pending, x)
        {
          RoundSends(was, x);
        }
        Seqs.Join(pending, n);
        Seqs.Assoc(HandedOf(fates), pending[..n], pending[n..]);
        Round();
      }
      forall x ensures Of(pending, x) == [] { Nothing(x); }
    }
  }

  lemma OneMore(items: seq<Item>, xs: seq<string>, k: nat)
    requires k < |xs|
    ensures Batches(items, xs[..k + 1]) == Batches(items, xs[..k]) + [Batch(xs[k], Of(items, xs[k]))]
  {
    assert xs[..k + 1][..k] == xs[..k];
  }

  lemma OneItem(items: seq<Item>, it: Item, x: string)
    ensures Of(items + [it], x) == if it.subject == x then Of(items, x) + [it] else Of(items, x)
    ensures Subjects(items + [it]) == if it.subject in Subjects(items) then Subjects(items)
                                      else Subjects(items) + [it.subject]
  {
    assert (items + [it])[..|items|] == items;
  }

  lemma One(items: seq<Item>)
    requires |items| == 1
    ensures Batches(items, Subjects(items)) == [Batch(items[0].subject, items)]
  {
    hide Of, Batches;
    Nothing(items[0].subject);
    assert [] + [items[0]] == items;
    OneItem([], items[0], items[0].subject);
    assert Of(items, items[0].subject) == items;
    var xs := [items[0].subject];
    assert Subjects(items) == xs;
    OneMore(items, xs, 0);
    assert xs[..1] == xs && xs[..0] == [];
    NoBatches(items);
  }

  lemma Nothing(x: string)
    ensures Of([], x) == [] && Subjects([]) == []
  {
  }

  lemma NoBatches(items: seq<Item>)
    ensures Batches(items, []) == []
  {
  }

  function HandedOf(fs: seq<Fate>): seq<Item> {
    if fs == [] then []
    else HandedOf(fs[..|fs| - 1]) + if fs[|fs| - 1].Handed? then [fs[|fs| - 1].it] else []
  }

  function DroppedOf(fs: seq<Fate>): seq<Item> {
    if fs == [] then []
    else DroppedOf(fs[..|fs| - 1]) + if fs[|fs| - 1].Dropped? then [fs[|fs| - 1].it] else []
  }

  lemma HandedAllLast(fs: seq<Fate>, items: seq<Item>)
    requires items != []
    ensures fs + HandedAll(items) == (fs + HandedAll(items[..|items| - 1])) + [Handed(items[|items| - 1])]
  {
  }

  lemma OneFate(fs: seq<Fate>, f: Fate)
    ensures HandedOf(fs + [f]) == if f.Handed? then HandedOf(fs) + [f.it] else HandedOf(fs)
    ensures DroppedOf(fs + [f]) == if f.Dropped? then DroppedOf(fs) + [f.it] else DroppedOf(fs)
  {
    assert (fs + [f])[..|fs|] == fs;
  }

  lemma {:induction false} HandedOfHanded(fs: seq<Fate>, items: seq<Item>)
    ensures HandedOf(fs + HandedAll(items)) == HandedOf(fs) + items
    ensures DroppedOf(fs + HandedAll(items)) == DroppedOf(fs)
  {
    if items == [] {
      assert fs + HandedAll(items) == fs;
    } else {
      hide HandedOf, DroppedOf, HandedAll;
      var rest, last := items[..|items| - 1], items[|items| - 1];
      HandedOfHanded(fs, rest);
      HandedAllLast(fs, items);
      OneFate(fs + HandedAll(rest), Handed(last));
      Seqs.InitLast(items);
      Seqs.Assoc(HandedOf(fs), rest, [last]);
    }
  }

  // Whole runs: arrivals and rounds in any order.

  datatype Action = Arrive(it: Item) | Round

  function Step(s: State, a: Action): State {
    match a
    case Arrive(it) => AddTo(s, it)
    case Round => if s.pending == [] then s else TakeFrom(s)
  }

  /** A round hands on the oldest items, as many as fit one message round, and leaves the rest; an arrival hands on
      nothing. */
  lemma RoundsHandOn(s: State, a: Action)
    ensures var s' := Step(s, a);
            match a
            case Arrive(_) => HandedOf(s'.fates) == HandedOf(s.fates) && s'.sent == s.sent
            case Round =>
              exists n: nat :: n <= |s.pending| && n == (if |s.pending| < 256 then |s.pending| else 256)
                && HandedOf(s'.fates) == HandedOf(s.fates) + s.pending[..n] && s'.pending == s.pending[n..]
  {
    var n := if |s.pending| > MAX_ITEMS then MAX_ITEMS else |s.pending|;
    if a.Round? {
      HandedOfHanded(s.fates, s.pending[..n]);
      assert HandedOf(s.fates) + [] == HandedOf(s.fates);
    } else {
      OneFate(s.fates, Dropped((s.pending + [a.it])[0]));
    }
    hide HandedOf, Batches, Subjects, HandedAll;
  }

  function Run(actions: seq<Action>): State {
    if actions == [] then START else Step(Run(actions[..|actions| - 1]), actions[|actions| - 1])
  }

  function Arrivals(actions: seq<Action>): seq<Item> {
    if actions == [] then []
    else
      var a := actions[|actions| - 1];
      Arrivals(actions[..|actions| - 1]) + if a.Arrive? then [a.it] else []
  }

  function Items(fs: seq<Fate>): (items: seq<Item>)
    ensures |items| == |fs| && forall k | 0 <= k < |fs| :: items[k] == fs[k].it
  {
    seq(|fs|, k requires 0 <= k < |fs| => fs[k].it)
  }

  /** Nothing is lost or invented: what arrived is what was handed on or dropped, in that order, and then
      what is pending. So whatever is dropped is the oldest there was, and the buffer stays bounded. */
  lemma {:induction false} Conserved(actions: seq<Action>)
    ensures var s := Run(actions);
            Items(s.fates) + s.pending == Arrivals(actions) && |s.pending| <= MAX_PENDING
  {
    if actions != [] {
      Conserved(actions[..|actions| - 1]);
      var s, a := Run(actions[..|actions| - 1]), actions[|actions| - 1];
      StepConserves(s, a);
      hide Step, Items;
      if a.Arrive? { Seqs.Assoc(Items(s.fates), s.pending, [a.it]); }
    }
  }

  lemma StepConserves(s: State, a: Action)
    requires |s.pending| <= MAX_PENDING
    ensures var s' := Step(s, a);
            && Items(s'.fates) + s'.pending == Items(s.fates) + (s.pending + if a.Arrive? then [a.it] else [])
            && |s'.pending| <= MAX_PENDING
  {
    var s' := Step(s, a);
    var all := s.pending + if a.Arrive? then [a.it] else [];
    var gone := |all| - |s'.pending|;
    assert s'.pending == all[gone..];
    assert Items(s'.fates) == Items(s.fates) + all[..gone];
    Seqs.Assoc(Items(s.fates), all[..gone], all[gone..]);
    Seqs.Join(all, gone);
  }

  /** The counts add up. */
  lemma CountsAddUp(actions: seq<Action>)
    ensures var s := Run(actions);
            |HandedOf(s.fates)| + |DroppedOf(s.fates)| + |s.pending| == |Arrivals(actions)|
  {
    Conserved(actions);
    Split(Run(actions).fates);
  }

  lemma {:induction false} Split(fs: seq<Fate>)
    ensures |HandedOf(fs)| + |DroppedOf(fs)| == |fs|
  {
    if fs != [] { Split(fs[..|fs| - 1]); }
  }

  /** Everything sent under one subject, message after message. */
  function SentOf(sent: seq<Batch>, x: string): seq<Item> {
    if sent == [] then []
    else
      var b := sent[|sent| - 1];
      SentOf(sent[..|sent| - 1], x) + if b.subject == x then b.items else []
  }

  lemma {:induction false} SentOfJoin(a: seq<Batch>, b: seq<Batch>, x: string)
    ensures SentOf(a + b, x) == SentOf(a, x) + SentOf(b, x)
  {
    if b == [] {
      assert a + b == a;
    } else {
      var rest, last := b[..|b| - 1], b[|b| - 1];
      SentOfJoin(a, rest, x);
      assert (a + b)[..|a + b| - 1] == a + rest;
      Seqs.Assoc(SentOf(a, x), SentOf(rest, x), if last.subject == x then last.items else []);
    }
  }

  lemma {:induction false} OfJoin(a: seq<Item>, b: seq<Item>, x: string)
    ensures Of(a + b, x) == Of(a, x) + Of(b, x)
  {
    hide Of, Subjects;
    if b == [] {
      assert a + b == a;
      Nothing(x);
    } else {
      var rest, last := b[..|b| - 1], b[|b| - 1];
      OfJoin(a, rest, x);
      Seqs.InitLast(b);
      Seqs.Assoc(a, rest, [last]);
      OneItem(rest, last, x);
      OneItem(a + rest, last, x);
      Seqs.Assoc(Of(a, x), Of(rest, x), [last]);
    }
  }

  ghost predicate Distinct(xs: seq<string>) {
    forall j, k | 0 <= j < k < |xs| :: xs[j] != xs[k]
  }

  lemma {:induction false} SubjectsAreDistinct(items: seq<Item>)
    ensures Distinct(Subjects(items))
  {
    if items != [] { SubjectsAreDistinct(items[..|items| - 1]); }
  }

  lemma {:induction false} NoneOf(items: seq<Item>, x: string)
    ensures Of(items, x) == [] <==> x !in Subjects(items)
  {
    if items != [] { NoneOf(items[..|items| - 1], x); }
  }

  lemma OneMessage(sent: seq<Batch>, b: Batch, x: string)
    ensures SentOf(sent + [b], x) == if b.subject == x then SentOf(sent, x) + b.items else SentOf(sent, x)
  {
    assert (sent + [b])[..|sent|] == sent;
  }

  lemma DistinctSplits(xs: seq<string>, k: nat)
    requires Distinct(xs) && |xs| == k + 1
    ensures Distinct(xs[..k]) && xs[k] !in xs[..k] && xs[..k + 1] == xs
    ensures forall x :: x in xs <==> x in xs[..k] || x == xs[k]
  {
    assert xs == xs[..k] + [xs[k]];
  }

  lemma {:induction false} BatchesOf(items: seq<Item>, xs: seq<string>, x: string)
    requires Distinct(xs)
    ensures SentOf(Batches(items, xs), x) == if x in xs then Of(items, x) else []
  {
    if xs != [] {
      hide Of, Batches, SentOf, Distinct;
      var k := |xs| - 1;
      DistinctSplits(xs, k);
      BatchesOf(items, xs[..k], x);
      OneMore(items, xs, k);
      OneMessage(Batches(items, xs[..k]), Batch(xs[k], Of(items, xs[k])), x);
      Seqs.NothingBefore(Of(items, x));
    }
  }

  /** A message goes out for every subject of the round exactly once and holds all its items, so grouping
      is a stable partition. */
  lemma GroupingIsStable(items: seq<Item>, x: string)
    ensures SentOf(Batches(items, Subjects(items)), x) == Of(items, x)
  {
    SubjectsAreDistinct(items);
    BatchesOf(items, Subjects(items), x);
    NoneOf(items, x);
  }

  /** One round keeps what was sent of a subject and what was handed on of it the same. */
  lemma RoundOrder(s: State, x: string)
    requires SentOf(s.sent, x) == Of(HandedOf(s.fates), x)
    ensures SentOf(TakeFrom(s).sent, x) == Of(HandedOf(TakeFrom(s).fates), x)
  {
    hide SentOf, Of, HandedOf, Batches, Subjects, HandedAll;
    var take := s.pending[..if |s.pending| > MAX_ITEMS then MAX_ITEMS else |s.pending|];
    SentOfJoin(s.sent, Batches(take, Subjects(take)), x);
    GroupingIsStable(take, x);
    HandedOfHanded(s.fates, take);
    OfJoin(HandedOf(s.fates), take, x);
  }

  /** What a round sends of a subject is what it takes of it. */
  lemma RoundSends(s: State, x: string)
    ensures SentOf(TakeFrom(s).sent, x) + Of(TakeFrom(s).pending, x) == SentOf(s.sent, x) + Of(s.pending, x)
  {
    hide SentOf, Of, Batches, Subjects, HandedAll;
    var n := if |s.pending| > MAX_ITEMS then MAX_ITEMS else |s.pending|;
    var take := s.pending[..n];
    SentOfJoin(s.sent, Batches(take, Subjects(take)), x);
    GroupingIsStable(take, x);
    OfJoin(take, s.pending[n..], x);
    Seqs.Join(s.pending, n);
    Seqs.Assoc(SentOf(s.sent, x), Of(take, x), Of(s.pending[n..], x));
  }

  /** Over any run the items of one subject go out in the order they arrived in, none twice and none
      missing but the dropped ones. */
  lemma {:induction false} SubjectOrder(actions: seq<Action>, x: string)
    ensures SentOf(Run(actions).sent, x) == Of(HandedOf(Run(actions).fates), x)
  {
    if actions != [] {
      hide SentOf, Of, HandedOf, TakeFrom;
      SubjectOrder(actions[..|actions| - 1], x);
      var s, a := Run(actions[..|actions| - 1]), actions[|actions| - 1];
      if a.Round? {
        RoundOrder(s, x);
      } else {
        OneFate(s.fates, Dropped((s.pending + [a.it])[0]));
      }
    } else {
      assert SentOf([], x) == [] && Of([], x) == [] && HandedOf([]) == [];
    }
  }

  /** Every message holds between one and 256 items, all of its subject. */
  ghost predicate WellFormed(b: Batch) {
    0 < |b.items| <= MAX_ITEMS && forall it | it in b.items :: it.subject == b.subject
  }

  lemma {:induction false} OfIsShort(items: seq<Item>, x: string)
    ensures |Of(items, x)| <= |items|
  {
    if items != [] { OfIsShort(items[..|items| - 1], x); }
  }

  lemma {:induction false} BatchesWellFormed(items: seq<Item>, xs: seq<string>)
    requires |items| <= MAX_ITEMS && forall x | x in xs :: x in Subjects(items)
    ensures forall b | b in Batches(items, xs) :: WellFormed(b)
  {
    if xs != [] {
      var x := xs[|xs| - 1];
      BatchesWellFormed(items, xs[..|xs| - 1]);
      assert x in xs;
      OfIsShort(items, x);
      NoneOf(items, x);
    }
  }

  lemma {:induction false} MessagesAreWellFormed(actions: seq<Action>)
    ensures forall b | b in Run(actions).sent :: WellFormed(b)
  {
    if actions != [] {
      MessagesAreWellFormed(actions[..|actions| - 1]);
      var s, a := Run(actions[..|actions| - 1]), actions[|actions| - 1];
      if a.Round? && s.pending != [] {
        var take := s.pending[..if |s.pending| > MAX_ITEMS then MAX_ITEMS else |s.pending|];
        BatchesWellFormed(take, Subjects(take));
      }
    }
  }

  /** Nothing is dropped as long as the buffer has room: drops happen only at 50000 pending. */
  lemma DropsOnlyWhenFull(s: State, a: Action)
    requires |s.pending| <= MAX_PENDING
    ensures var s' := Step(s, a);
            if a.Arrive? && |s.pending| == MAX_PENDING then DroppedOf(s'.fates) == DroppedOf(s.fates) + [s.pending[0]]
            else DroppedOf(s'.fates) == DroppedOf(s.fates)
  {
    if a.Arrive? {
      assert |s.pending| == MAX_PENDING ==> (s.pending + [a.it])[0] == s.pending[0];
      if |s.pending| == MAX_PENDING { OneFate(s.fates, Dropped(s.pending[0])); }
    } else if s.pending != [] {
      HandedOfHanded(s.fates, s.pending[..if |s.pending| > MAX_ITEMS then MAX_ITEMS else |s.pending|]);
    }
  }
}
