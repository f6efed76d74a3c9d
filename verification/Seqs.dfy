/** Facts about sequences, kept apart so that proofs about long concatenations stay cheap. */
module Seqs {

  lemma HeadTail<T>(s: seq<T>)
    requires s != []
    ensures [s[0]] + s[1..] == s
  {
  }

  lemma Assoc<T>(a: seq<T>, b: seq<T>, c: seq<T>)
    ensures (a + b) + c == a + (b + c)
  {
  }

  lemma NothingBefore<T>(s: seq<T>)
    ensures [] + s == s
  {
  }

  lemma Split<T>(a: seq<T>, b: seq<T>)
    ensures (a + b)[..|a|] == a && (a + b)[|a|..] == b
  {
  }

  lemma Join<T>(s: seq<T>, n: nat)
    requires n <= |s|
    ensures s[..n] + s[n..] == s
  {
  }

  /** Dropping a then b elements. */
  lemma DropDrop<T>(s: seq<T>, a: nat, b: nat)
    requires a + b <= |s|
    ensures s[a..][b..] == s[a + b..] && s[a..][..b] == s[a..a + b]
  {
  }

  /** Cutting a concatenation inside its second part. */
  lemma Cut<T>(a: seq<T>, b: seq<T>, k: nat)
    requires k <= |a| + |b|
    ensures |a| <= k ==> (a + b)[..k] == a + b[..k - |a|] && (a + b)[..k][|a|..] == b[..k - |a|]
    ensures k <= |a| ==> (a + b)[..k] == a[..k]
  {
  }

  lemma Grow<T>(s: seq<T>, at: nat, n: nat)
    requires at + n <= |s|
    ensures s[..at] + s[at..at + n] == s[..at + n]
  {
  }

  /** What a concatenation holds where f was put. */
  lemma Middle<T>(a: seq<T>, f: seq<T>, b: seq<T>)
    ensures (a + f + b)[|a|..|a| + |f|] == f
  {
  }

  lemma InitLast<T>(s: seq<T>)
    requires s != []
    ensures s[..|s| - 1] + [s[|s| - 1]] == s
    ensures multiset(s) == multiset(s[..|s| - 1]) + multiset{s[|s| - 1]}
  {
    assert s == s[..|s| - 1] + [s[|s| - 1]];
  }

  lemma Bag<T>(s: seq<T>, x: T)
    ensures multiset(s + [x]) == multiset(s) + multiset{x}
  {
  }
}
