/** What a run of records comes to, read off the records themselves: for every value and prefix the last
    record on it counts (internal/livelist/livelist.go). */
module Records {
  import opened Bytes
  import opened Net
  import opened Wafs
  import opened Composition
  import opened Mirror
  import opened Replica
  import Seqs

  /** The last record on a value, and the last on a prefix. */
  ghost predicate LastOn(recs: seq<Rec>, v: bytes, i: int) {
    0 <= i < |recs| && recs[i].value == v && forall j | i < j < |recs| :: recs[j].value != v
  }

  ghost predicate LastOnNet(recs: seq<Rec>, p: Prefix, i: int) {
    0 <= i < |recs| && recs[i].prefix == p && forall j | i < j < |recs| :: recs[j].prefix != p
  }

  /** A value is listed exactly as its record says. */
  ghost predicate ListedBy(c: Comp, v: bytes, r: Rec) {
    (v in c.entries <==> r.op == REC_ADD) && (r.op == REC_ADD ==> c.entries[v] == Entry(r.exp, r.reason))
  }

  ghost predicate StoredBy(c: Comp, p: Prefix, r: Rec) {
    (p in c.nets <==> r.op == REC_ADD) && (r.op == REC_ADD ==> c.nets[p] == r.exp)
  }

  ghost predicate SameOn(c: Comp, c': Comp, v: bytes) {
    (v in c'.entries <==> v in c.entries) && (v in c.entries ==> c'.entries[v] == c.entries[v])
  }

  ghost predicate SameOnNet(c: Comp, c': Comp, p: Prefix) {
    (p in c'.nets <==> p in c.nets) && (p in c.nets ==> c'.nets[p] == c.nets[p])
  }

  lemma LastShifts(recs: seq<Rec>, i: int)
    requires 0 < i < |recs|
    ensures recs[i] == recs[1..][i - 1]
    ensures forall v :: LastOn(recs, v, i) ==> LastOn(recs[1..], v, i - 1)
    ensures forall p :: LastOnNet(recs, p, i) ==> LastOnNet(recs[1..], p, i - 1)
  {
  }

  lemma OneRecord(sip: Sip, key: bytes, typ: byte, c: Comp, r: Rec, v: bytes)
    requires typ != TYPE_CIDR
    ensures var a := Apply(sip, key, typ, c, r);
            && a.Done? && a.comp.nets == c.nets
            && if r.value == v then ListedBy(a.comp, v, r) else SameOn(c, a.comp, v)
  {
  }

  /** After any records, whatever came before: a value is listed exactly if its last record adds it, with that
      record's expiry and reason; a value without a record is as it was. */
  lemma {:induction false} ValuesAre(sip: Sip, key: bytes, typ: byte, c: Comp, recs: seq<Rec>, v: bytes)
    requires typ != TYPE_CIDR
    ensures ApplyAll(sip, key, typ, c, recs).Done?
    ensures var c' := ApplyAll(sip, key, typ, c, recs).comp;
            && c'.nets == c.nets
            && (forall i | LastOn(recs, v, i) :: ListedBy(c', v, recs[i]))
            && ((forall i | 0 <= i < |recs| :: recs[i].value != v) ==> SameOn(c, c', v))
    decreases |recs|
  {
    if recs != [] {
      hide Apply;
      OneRecord(sip, key, typ, c, recs[0], v);
      var c1, rest := Apply(sip, key, typ, c, recs[0]).comp, recs[1..];
      ValuesAre(sip, key, typ, c1, rest, v);
      var c' := ApplyAll(sip, key, typ, c, recs).comp;
      forall i | LastOn(recs, v, i) ensures ListedBy(c', v, recs[i]) {
        if i > 0 {
          LastShifts(recs, i);
        } else {
          assert forall k | 0 <= k < |rest| :: rest[k] == recs[k + 1];
        }
      }
    }
  }

  lemma OneNetRecord(sip: Sip, key: bytes, c: Comp, r: Rec, p: Prefix)
    requires Apply(sip, key, TYPE_CIDR, c, r).Done?
    ensures var c' := Apply(sip, key, TYPE_CIDR, c, r).comp;
            && c'.entries == c.entries
            && if r.prefix == p then StoredBy(c', p, r) else SameOnNet(c, c', p)
  {
  }

  /** The same for prefixes, as long as nothing panics. */
  lemma {:induction false} NetsAre(sip: Sip, key: bytes, c: Comp, recs: seq<Rec>, p: Prefix)
    requires ApplyAll(sip, key, TYPE_CIDR, c, recs).Done?
    ensures var c' := ApplyAll(sip, key, TYPE_CIDR, c, recs).comp;
            && c'.entries == c.entries
            && (forall i | LastOnNet(recs, p, i) :: StoredBy(c', p, recs[i]))
            && ((forall i | 0 <= i < |recs| :: recs[i].prefix != p) ==> SameOnNet(c, c', p))
    decreases |recs|
  {
    if recs != [] {
      hide Apply;
      OneNetRecord(sip, key, c, recs[0], p);
      var c1, rest := Apply(sip, key, TYPE_CIDR, c, recs[0]).comp, recs[1..];
      NetsAre(sip, key, c1, rest, p);
      var c' := ApplyAll(sip, key, TYPE_CIDR, c, recs).comp;
      forall i | LastOnNet(recs, p, i) ensures StoredBy(c', p, recs[i]) {
        if i > 0 {
          LastShifts(recs, i);
        } else {
          assert forall k | 0 <= k < |rest| :: rest[k] == recs[k + 1];
        }
      }
    }
  }

  // The keeper's states and what readers are told, in terms of the log.

  /** The records of a log's first n packages. */
  function Flat(packs: seq<seq<Rec>>, n: nat): seq<Rec>
    requires n <= |packs|
  {
    if n == 0 then [] else Flat(packs, n - 1) + packs[n - 1]
  }

  lemma {:induction false} ApplyJoins(sip: Sip, key: bytes, typ: byte, c: Comp, a: seq<Rec>, b: seq<Rec>)
    requires ApplyAll(sip, key, typ, c, a).Done?
    ensures ApplyAll(sip, key, typ, c, a + b) == ApplyAll(sip, key, typ, ApplyAll(sip, key, typ, c, a).comp, b)
    decreases |a|
  {
    if a == [] {
      Seqs.NothingBefore(b);
    } else {
      hide Apply;
      assert (a + b)[1..] == a[1..] + b;
      ApplyJoins(sip, key, typ, Apply(sip, key, typ, c, a[0]).comp, a[1..], b);
    }
  }

  lemma {:induction false} StateIsLog(sip: Sip, l: Log, n: nat)
    requires Sound(l) && n <= |l.packs|
    ensures ApplyAll(sip, l.key, l.typ, EMPTY, Flat(l.packs, n)) == Done(StateAt(sip, l, n))
  {
    if n > 0 {
      hide Apply, ApplyAll, Digest;
      StateIsLog(sip, l, n - 1);
      ApplyJoins(sip, l.key, l.typ, EMPTY, Flat(l.packs, n - 1), l.packs[n - 1]);
      PanicExactly(sip, l.key, l.typ, StateAt(sip, l, n - 1), l.packs[n - 1]);
    }
  }

  /** The last record on a value adds it, and has not expired. */
  ghost predicate ValueStands(recs: seq<Rec>, v: bytes, now: int) {
    exists i :: LastOn(recs, v, i) && recs[i].op == REC_ADD && Alive(recs[i].exp, now)
  }

  ghost predicate NetStands(recs: seq<Rec>, p: Prefix, now: int) {
    exists i :: LastOnNet(recs, p, i) && recs[i].op == REC_ADD && Alive(recs[i].exp, now)
  }

  lemma {:induction false} SomeLast(recs: seq<Rec>, v: bytes, k: nat)
    requires k < |recs| && recs[k].value == v
    ensures exists i :: LastOn(recs, v, i)
    decreases |recs| - k
  {
    if j :| k < j < |recs| && recs[j].value == v { SomeLast(recs, v, j); } else { assert LastOn(recs, v, k); }
  }

  lemma {:induction false} SomeLastNet(recs: seq<Rec>, p: Prefix, k: nat)
    requires k < |recs| && recs[k].prefix == p
    ensures exists i :: LastOnNet(recs, p, i)
    decreases |recs| - k
  {
    if j :| k < j < |recs| && recs[j].prefix == p { SomeLastNet(recs, p, j); } else { assert LastOnNet(recs, p, k); }
  }

  lemma OnlyLast(recs: seq<Rec>, i: int, j: int)
    ensures forall v :: LastOn(recs, v, i) && LastOn(recs, v, j) ==> i == j
    ensures forall p :: LastOnNet(recs, p, i) && LastOnNet(recs, p, j) ==> i == j
  {
  }

  lemma ValuesOfLog(sip: Sip, l: Log, n: nat, v: bytes, now: int)
    requires Sound(l) && n <= |l.packs| && l.typ != TYPE_CIDR
    ensures var c := StateAt(sip, l, n);
            v in c.entries && Alive(c.entries[v].exp, now) <==> ValueStands(Flat(l.packs, n), v, now)
  {
    hide ApplyAll, StateAt, Flat;
    var recs := Flat(l.packs, n);
    StateIsLog(sip, l, n);
    ValuesAre(sip, l.key, l.typ, EMPTY, recs, v);
    if k :| 0 <= k < |recs| && recs[k].value == v {
      SomeLast(recs, v, k);
      var i :| LastOn(recs, v, i);
      forall j | LastOn(recs, v, j) ensures j == i { OnlyLast(recs, i, j); }
    }
  }

  lemma NetsOfLog(sip: Sip, l: Log, n: nat, p: Prefix, now: int)
    requires Sound(l) && n <= |l.packs| && l.typ == TYPE_CIDR
    ensures var c := StateAt(sip, l, n);
            p in c.nets && Alive(c.nets[p], now) <==> NetStands(Flat(l.packs, n), p, now)
  {
    hide ApplyAll, StateAt, Flat;
    var recs := Flat(l.packs, n);
    StateIsLog(sip, l, n);
    NetsAre(sip, l.key, EMPTY, recs, p);
    if k :| 0 <= k < |recs| && recs[k].prefix == p {
      SomeLastNet(recs, p, k);
      var i :| LastOnNet(recs, p, i);
      forall j | LastOnNet(recs, p, j) ensures j == i { OnlyLast(recs, i, j); }
    }
  }

  /** Over every run a ready set tells its readers just what the keeper's log says up to the set's position: a
      value is listed exactly if the last record on it adds it and has not expired, an address exactly if
      that is so for a masked prefix covering it, and a prefix exactly if it is so for its masked form. */
  lemma AnswersFromTheLog(sip: Sip, k: Keeper, env: Env, frames: seq<Frame>, text: bytes, parsed: Parsed, now: int)
    requires SoundKeeper(k) && OwnEnv(sip, k, env) && parsed.Sound()
    requires forall i | 0 <= i < |frames| :: OwnFrame(sip, k, frames[i])
    requires Run(sip, env, Started(sip, env), frames).ready
    ensures var view := Run(sip, env, Started(sip, env), frames).view;
            && view.epoch in k && view.seqNo <= |k[view.epoch].packs| && Indexed(view.comp.nets)
            && var l := k[view.epoch];
            var recs := Flat(l.packs, view.seqNo);
            Listed(view, text, parsed, now) <==>
              if l.typ != TYPE_CIDR then ValueStands(recs, text, now)
              else
                match parsed
                case AsAddr(a) =>
                  exists p: Prefix :: p.Valid() && NetStands(recs, p, now) && Masked(p) == p && Covers(p, Unmap(a))
                case AsPrefix(p) =>
                  var q := PrefixFrom(Unmap(p.addr), p.bits);
                  q.bits != -1 && NetStands(recs, Masked(q), now)
                case Neither => false
  {
    hide ApplyAll, StateAt, Flat, Run, Started, Covers, Alive, NetStands, ValueStands;
    ReplicaCorrect(sip, k, env, frames);
    var view := Run(sip, env, Started(sip, env), frames).view;
    var l := k[view.epoch];
    if l.typ != TYPE_CIDR {
      ValuesOfLog(sip, l, view.seqNo, text, now);
    } else {
      forall p: Prefix
        ensures p in view.comp.nets && Alive(view.comp.nets[p], now) <==> NetStands(Flat(l.packs, view.seqNo), p, now)
      {
        NetsOfLog(sip, l, view.seqNo, p, now);
      }
    }
  }
}
