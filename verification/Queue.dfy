/** The bounded task queue and the steps taken under its lock (internal/queue/queue.go). */
module Queue {
  import Seqs

  datatype Full = Drop | Wait

  /** deadline is the request's budget, enqueued the time Submit stamped; all times in nanoseconds. */
  datatype Task = Task(id: nat, deadline: int, enqueued: int)

  datatype Config = Config(depth: nat, full: Full, reserve: int, minBudget: int) {
    function Left(t: Task, now: int): int {
      t.deadline - (now - t.enqueued) - reserve
    }

    predicate Late(t: Task, now: int) {
      Left(t, now) < minBudget
    }
  }

  /** A task is late from the moment on at which less than the least budget is left before its deadline, counted from
      when it was submitted, less the reserve. */
  lemma LateExactly(c: Config, t: Task, now: int)
    ensures c.Late(t, now) <==> now > t.enqueued + t.deadline - c.reserve - c.minBudget
  {
  }

  /** The tasks of q that still have time, in order. */
  function Live(c: Config, q: seq<Task>, now: int): (kept: seq<Task>)
    ensures |kept| <= |q|
  {
    if q == [] then []
    else
      var t := q[|q| - 1];
      Live(c, q[..|q| - 1], now) + if c.Late(t, now) then [] else [t]
  }

  /** The tasks of q that do not, in order. */
  function Dead(c: Config, q: seq<Task>, now: int): seq<Task> {
    if q == [] then []
    else
      var t := q[|q| - 1];
      Dead(c, q[..|q| - 1], now) + if c.Late(t, now) then [t] else []
  }

  /** Filtering splits the queue: nothing is lost, nothing doubled. */
  lemma {:induction false} Partition(c: Config, q: seq<Task>, now: int)
    ensures multiset(q) == multiset(Live(c, q, now)) + multiset(Dead(c, q, now))
  {
    if q != [] {
      hide Live, Dead;
      var n := |q| - 1;
      Partition(c, q[..n], now);
      PartitionStep(c, q, now);
      Seqs.InitLast(q);
      var live, dead := Live(c, q[..n], now), Dead(c, q[..n], now);
      if c.Late(q[n], now) { Seqs.Bag(dead, q[n]); } else { Seqs.Bag(live, q[n]); }
    }
  }

  lemma {:induction false} NothingLate(c: Config, q: seq<Task>, now: int)
    ensures Dead(c, q, now) == [] ==> Live(c, q, now) == q
  {
    if q != [] {
      NothingLate(c, q[..|q| - 1], now);
      PartitionStep(c, q, now);
      Seqs.InitLast(q);
    }
  }

  lemma {:induction false} SidesAreRight(c: Config, q: seq<Task>, now: int)
    ensures forall t | t in Live(c, q, now) :: !c.Late(t, now)
    ensures forall t | t in Dead(c, q, now) :: c.Late(t, now)
  {
    if q != [] {
      SidesAreRight(c, q[..|q| - 1], now);
    }
  }

  lemma PartitionStep(c: Config, q: seq<Task>, now: int)
    requires q != []
    ensures var n := |q| - 1;
            if c.Late(q[n], now)
            then Live(c, q, now) == Live(c, q[..n], now) && Dead(c, q, now) == Dead(c, q[..n], now) + [q[n]]
            else Live(c, q, now) == Live(c, q[..n], now) + [q[n]] && Dead(c, q, now) == Dead(c, q[..n], now)
  {
    assert Live(c, q[..|q| - 1], now) + [] == Live(c, q[..|q| - 1], now);
    assert Dead(c, q[..|q| - 1], now) + [] == Dead(c, q[..|q| - 1], now);
  }

  lemma NothingYet(c: Config, q: seq<Task>, now: int)
    ensures Live(c, q[..0], now) == [] && Dead(c, q[..0], now) == []
  {
  }

  /** One entry more. */
  lemma PrefixStep(c: Config, q: seq<Task>, i: nat, now: int)
    requires i < |q|
    ensures Live(c, q[..i + 1], now) ==
            if c.Late(q[i], now) then Live(c, q[..i], now) else Live(c, q[..i], now) + [q[i]]
    ensures Dead(c, q[..i + 1], now) ==
            if c.Late(q[i], now) then Dead(c, q[..i], now) + [q[i]] else Dead(c, q[..i], now)
  {
    assert q[..i + 1][..i] == q[..i];
    PartitionStep(c, q[..i + 1], now);
    hide Live, Dead;
  }

  // Order is kept: being a subsequence.

  predicate Subsequence<T(==)>(s: seq<T>, of: seq<T>) {
    if s == [] then true
    else if of == [] then false
    else
      var n, m := |s| - 1, |of| - 1;
      (s[n] == of[m] && Subsequence(s[..n], of[..m])) || Subsequence(s, of[..m])
  }

  lemma {:induction false} SubsequenceSelf<T>(s: seq<T>)
    ensures Subsequence(s, s)
  {
    if s != [] { SubsequenceSelf(s[..|s| - 1]); }
  }

  lemma SubsequenceSnoc<T>(s: seq<T>, of: seq<T>, x: T)
    requires Subsequence(s, of)
    ensures Subsequence(s + [x], of + [x]) && Subsequence(s, of + [x])
  {
    assert (s + [x])[..|s|] == s && (of + [x])[..|of|] == of;
  }

  lemma {:induction false} SubsequenceTrans<T>(a: seq<T>, b: seq<T>, c: seq<T>)
    requires Subsequence(a, b) && Subsequence(b, c)
    ensures Subsequence(a, c)
    decreases |b| + |c|
  {
    if a != [] {
      var i, j, k := |a| - 1, |b| - 1, |c| - 1;
      if b[j] == c[k] && Subsequence(b[..j], c[..k]) {
        if a[i] == b[j] && Subsequence(a[..i], b[..j]) {
          SubsequenceTrans(a[..i], b[..j], c[..k]);
        } else {
          SubsequenceTrans(a, b[..j], c[..k]);
        }
      } else {
        SubsequenceTrans(a, b, c[..k]);
      }
    }
  }

  /** A common beginning does not disturb the order. */
  lemma {:induction false} LiveIsSubsequence(c: Config, head: seq<Task>, q: seq<Task>, now: int)
    ensures Subsequence(head + Live(c, q, now), head + q)
  {
    if q == [] {
      assert head + [] == head;
      SubsequenceSelf(head);
    } else {
      var n := |q| - 1;
      var t, kept := q[n], Live(c, q[..n], now);
      LiveIsSubsequence(c, head, q[..n], now);
      PartitionStep(c, q, now);
      SubsequenceSnoc(head + kept, head + q[..n], t);
      hide Live, Subsequence;
      Seqs.InitLast(q);
      Seqs.Assoc(head, q[..n], [t]);
      Seqs.Assoc(head, kept, [t]);
    }
  }

  /** The slice p.q over its backing array: n tasks from lo on. */
  class Pool {
    const c: Config
    var buf: array<Task>
    var lo: nat
    var n: nat

    ghost predicate Valid()
      reads this
    {
      lo + n <= buf.Length && n <= c.depth && c.depth > 0
    }

    ghost function Q(): seq<Task>
      reads this, buf
      requires Valid()
    {
      buf[lo..lo + n]
    }

    constructor (c: Config)
      requires c.depth > 0
      ensures Valid() && Q() == [] && this.c == c && fresh(buf)
    {
      this.c := c;
      buf := new Task[c.depth](_ => Task(0, 0, 0));
      lo, n := 0, 0;
    }

    /** Appends in place, or into a larger array when the slice has reached the end of its own. */
    method Enqueue(t: Task)
      requires Valid() && n < c.depth
      modifies this, buf
      ensures Valid() && Q() == old(Q()) + [t]
      ensures buf == old(buf) || fresh(buf)
    {
      if lo + n == buf.Length { Grow(t); }
      Put(t);
    }

    /** Room in the array behind the slice. */
    method Put(t: Task)
      requires Valid() && n < c.depth && lo + n < buf.Length
      modifies this`n, buf
      ensures Valid() && Q() == old(Q()) + [t]
    {
      buf[lo + n] := t;
      n := n + 1;
    }

    method Grow(fill: Task)
      requires Valid()
      modifies this`buf, this`lo
      ensures Valid() && Q() == old(Q()) && lo + n < buf.Length && fresh(buf)
    {
      var more := new Task[2 * n + 1](_ => fill);
      for i := 0 to n
        modifies more
        invariant forall j | 0 <= j < i :: more[j] == buf[lo + j]
      {
        more[i] := buf[lo + i];
      }
      buf, lo := more, 0;
    }

    /** Late tasks are taken out and the rest kept in order, in the very slice that is being read. */
    method TakeExpired(now: int) returns (dead: seq<Task>)
      requires Valid()
      modifies this, buf
      ensures Valid() && buf == old(buf)
      ensures Q() == Live(c, old(Q()), now) && dead == Dead(c, old(Q()), now)
    {
      hide Live, Dead;
      ghost var q := Q();
      var kept: nat;
      dead, kept := Sift(now, q);
      n := kept;
      assert Q() == Live(c, q, now);
    }

    /** The loop of it: kept tasks move to the front, over ones already read. */
    method Sift(now: int, ghost q: seq<Task>) returns (dead: seq<Task>, kept: nat)
      requires lo + n <= buf.Length && |q| == n && forall j | 0 <= j < n :: buf[lo + j] == q[j]
      modifies buf
      ensures kept == |Live(c, q, now)| && forall j | 0 <= j < kept :: buf[lo + j] == Live(c, q, now)[j]
      ensures dead == Dead(c, q, now)
    {
      hide Live, Dead;
      dead, kept := [], 0;
      NothingYet(c, q, now);
      for i := 0 to n
        invariant kept == |Live(c, q[..i], now)| <= i
        invariant forall j | 0 <= j < kept :: buf[lo + j] == Live(c, q[..i], now)[j]
        invariant dead == Dead(c, q[..i], now)
        invariant forall j | i <= j < n :: buf[lo + j] == q[j]
      {
        var t := buf[lo + i];
        PrefixStep(c, q, i, now);
        if c.Late(t, now) {
          dead := dead + [t];
        } else {
          buf[lo + kept] := t;
          kept := kept + 1;
        }
      }
      assert q[..n] == q;
    }

    /** The head leaves, the slice moves on. */
    method Pop() returns (t: Task)
      requires Valid() && n > 0
      modifies this
      ensures Valid() && buf == old(buf)
      ensures old(Q()) == [t] + Q()
    {
      t := buf[lo];
      lo, n := lo + 1, n - 1;
    }
  }
}
