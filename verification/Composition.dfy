/** One set's members, the running XOR of their hashes and the per-length prefix counters
    (internal/livelist/livelist.go). SipHash is a parameter: sip(key, message). */
module Composition {
  import opened Bytes
  import opened Net
  import opened Wafs

  type Sip = (bytes, bytes) -> nat

  // XOR on naturals, one binary digit at a time.

  function Xor(a: nat, b: nat): nat {
    if a == 0 && b == 0 then 0 else 2 * Xor(a / 2, b / 2) + if a % 2 == b % 2 then 0 else 1
  }

  lemma {:induction false} XorZero(a: nat)
    ensures Xor(a, 0) == a && Xor(0, a) == a
  {
    if a > 0 {
      XorZero(a / 2);
    }
  }

  lemma {:induction false} XorCommutes(a: nat, b: nat)
    ensures Xor(a, b) == Xor(b, a)
  {
    if a > 0 || b > 0 {
      XorCommutes(a / 2, b / 2);
    }
  }

  lemma XorDigits(a: nat, b: nat)
    ensures Xor(a, b) / 2 == Xor(a / 2, b / 2) && (Xor(a, b) % 2 == 0 <==> a % 2 == b % 2)
  {
  }

  lemma {:induction false} XorAssociates(a: nat, b: nat, c: nat)
    ensures Xor(Xor(a, b), c) == Xor(a, Xor(b, c))
    decreases a + b + c
  {
    if a > 0 || b > 0 || c > 0 {
      var l, r := Xor(Xor(a, b), c), Xor(a, Xor(b, c));
      XorAssociates(a / 2, b / 2, c / 2);
      XorDigits(a, b);
      XorDigits(b, c);
      XorDigits(Xor(a, b), c);
      XorDigits(a, Xor(b, c));
      hide Xor;
      assert l / 2 == r / 2;
      assert l % 2 == r % 2;
    }
  }

  lemma {:induction false} XorCancels(a: nat, b: nat)
    ensures Xor(Xor(a, b), b) == a
  {
    XorAssociates(a, b, b);
    XorSelf(b);
    XorZero(a);
  }

  lemma {:induction false} XorSelf(a: nat)
    ensures Xor(a, a) == 0
  {
    if a > 0 {
      XorSelf(a / 2);
    }
  }

  /** The XOR of h over a set, members taken in an order nobody chose. */
  ghost function XorAll<T(!new)>(s: set<T>, h: T -> nat): nat {
    if s == {} then 0
    else
      var x :| x in s;
      Xor(h(x), XorAll(s - {x}, h))
  }

  /** Any member may be taken first: the order does not matter. */
  lemma {:induction false} XorAllTake<T(!new)>(s: set<T>, h: T -> nat, x: T)
    requires x in s
    ensures XorAll(s, h) == Xor(h(x), XorAll(s - {x}, h))
    decreases |s|
  {
    var y :| y in s && XorAll(s, h) == Xor(h(y), XorAll(s - {y}, h));
    if y != x {
      var rest := s - {x} - {y};
      assert rest == s - {y} - {x};
      XorAllTake(s - {y}, h, x);
      XorAllTake(s - {x}, h, y);
      XorAssociates(h(y), h(x), XorAll(rest, h));
      XorAssociates(h(x), h(y), XorAll(rest, h));
      XorCommutes(h(x), h(y));
    }
  }

  lemma XorAllAdd<T(!new)>(s: set<T>, h: T -> nat, x: T)
    requires x !in s
    ensures XorAll(s + {x}, h) == Xor(XorAll(s, h), h(x))
  {
    XorAllTake(s + {x}, h, x);
    assert s + {x} - {x} == s;
    XorCommutes(h(x), XorAll(s, h));
  }

  lemma XorAllRemove<T(!new)>(s: set<T>, h: T -> nat, x: T)
    requires x in s
    ensures XorAll(s - {x}, h) == Xor(XorAll(s, h), h(x))
  {
    XorAllTake(s, h, x);
    XorCommutes(h(x), XorAll(s - {x}, h));
    XorCancels(XorAll(s - {x}, h), h(x));
  }

  // The composition as a value.

  datatype Entry = Entry(exp: i64, reason: bytes)

  datatype Comp = Comp(entries: map<bytes, Entry>, nets: map<Prefix, i64>, hash: nat)

  const EMPTY := Comp(map[], map[], 0)

  /** A set's own goroutine stops with a panic when a counter is indexed by a length of -1. */
  datatype Applied = Panic | Done(comp: Comp)

  function Material(p: Prefix): bytes {
    [if p.addr.V4? then 4 else 6, if p.bits == -1 then 255 else p.bits]
    + if p.addr.NoAddr? then [] else p.addr.b
  }

  /** No two prefixes are hashed from the same bytes, nor a prefix without a length from those of another. */
  lemma MaterialTells(p: Prefix, q: Prefix)
    requires p.addr.Valid() && q.addr.Valid() && Material(p) == Material(q)
    ensures p == q
  {
    assert Material(p)[2..] == p.addr.b && Material(q)[2..] == q.addr.b;
  }

  function Apply(sip: Sip, key: bytes, typ: byte, c: Comp, r: Rec): Applied {
    if typ == TYPE_CIDR then
      var p := r.prefix;
      if r.op == REC_ADD then
        if p in c.nets then Done(c.(nets := c.nets[p := r.exp]))
        else if p.bits == -1 then Panic
        else Done(c.(nets := c.nets[p := r.exp], hash := Xor(c.hash, sip(key, Material(p)))))
      else if p in c.nets then Done(c.(nets := c.nets - {p}, hash := Xor(c.hash, sip(key, Material(p)))))
      else Done(c)
    else
      var v := r.value;
      var e := Entry(r.exp, r.reason);
      if r.op == REC_ADD then
        if v in c.entries then Done(c.(entries := c.entries[v := e]))
        else Done(c.(entries := c.entries[v := e], hash := Xor(c.hash, sip(key, v))))
      else if v in c.entries then Done(c.(entries := c.entries - {v}, hash := Xor(c.hash, sip(key, v))))
      else Done(c)
  }

  function ApplyAll(sip: Sip, key: bytes, typ: byte, c: Comp, recs: seq<Rec>): Applied
    decreases |recs|
  {
    if recs == [] then Done(c)
    else
      match Apply(sip, key, typ, c, recs[0])
      case Panic => Panic
      case Done(c') => ApplyAll(sip, key, typ, c', recs[1..])
  }

  /** What the running hash stands for: the XOR of the members' own hashes. */
  ghost function Digest(sip: Sip, key: bytes, values: set<bytes>, nets: set<Prefix>): nat {
    Xor(XorAll(values, v => sip(key, v)), XorAll(nets, p => sip(key, Material(p))))
  }

  ghost predicate Hashed(sip: Sip, key: bytes, c: Comp) {
    c.hash == Digest(sip, key, c.entries.Keys, c.nets.Keys)
  }

  predicate Indexed(nets: map<Prefix, i64>) {
    forall p | p in nets :: p.bits != -1
  }

  lemma ApplyKeepsHashed(sip: Sip, key: bytes, typ: byte, c: Comp, r: Rec)
    requires Hashed(sip, key, c) && Apply(sip, key, typ, c, r).Done?
    ensures Hashed(sip, key, Apply(sip, key, typ, c, r).comp)
    ensures Indexed(c.nets) ==> Indexed(Apply(sip, key, typ, c, r).comp.nets)
  {
    var c' := Apply(sip, key, typ, c, r).comp;
    var hv := (v: bytes) => sip(key, v);
    var hp := (p: Prefix) => sip(key, Material(p));
    var values, nets := c.entries.Keys, c.nets.Keys;
    if typ == TYPE_CIDR {
      var p := r.prefix;
      assert c'.entries.Keys == values;
      XorAssociates(XorAll(values, hv), XorAll(nets, hp), hp(p));
      if r.op == REC_ADD {
        assert c'.nets.Keys == nets + {p};
        if p !in nets { XorAllAdd(nets, hp, p); } else { assert nets + {p} == nets; }
      } else {
        assert c'.nets.Keys == nets - {p};
        if p in nets { XorAllRemove(nets, hp, p); } else { assert nets - {p} == nets; }
      }
    } else {
      var v := r.value;
      var x, y := XorAll(values, hv), XorAll(nets, hp);
      assert c'.nets.Keys == nets;
      XorAssociates(x, y, hv(v));
      XorCommutes(y, hv(v));
      XorAssociates(x, hv(v), y);
      if r.op == REC_ADD {
        assert c'.entries.Keys == values + {v};
        if v !in values { XorAllAdd(values, hv, v); } else { assert values + {v} == values; }
      } else {
        assert c'.entries.Keys == values - {v};
        if v in values { XorAllRemove(values, hv, v); } else { assert values - {v} == values; }
      }
    }
  }

  /** After any records at all, in any order, the running hash is the XOR over the current members. */
  lemma {:induction false} HashIsOfMembers(sip: Sip, key: bytes, typ: byte, c: Comp, recs: seq<Rec>)
    requires Hashed(sip, key, c) && Indexed(c.nets)
    requires ApplyAll(sip, key, typ, c, recs).Done?
    ensures Hashed(sip, key, ApplyAll(sip, key, typ, c, recs).comp)
    ensures Indexed(ApplyAll(sip, key, typ, c, recs).comp.nets)
    decreases |recs|
  {
    if recs != [] {
      ApplyKeepsHashed(sip, key, typ, c, recs[0]);
      HashIsOfMembers(sip, key, typ, Apply(sip, key, typ, c, recs[0]).comp, recs[1..]);
    }
  }

  lemma EmptyIsHashed(sip: Sip, key: bytes)
    ensures Hashed(sip, key, EMPTY)
  {
  }

  /** Two histories that end with the same members end with the same hash. */
  lemma HistoryForgotten(sip: Sip, key: bytes, typ: byte, recs: seq<Rec>, typ': byte, recs': seq<Rec>)
    requires var a, b := ApplyAll(sip, key, typ, EMPTY, recs), ApplyAll(sip, key, typ', EMPTY, recs');
             a.Done? && b.Done? && a.comp.entries.Keys == b.comp.entries.Keys && a.comp.nets.Keys == b.comp.nets.Keys
    ensures ApplyAll(sip, key, typ, EMPTY, recs).comp.hash == ApplyAll(sip, key, typ', EMPTY, recs').comp.hash
  {
    EmptyIsHashed(sip, key);
    HashIsOfMembers(sip, key, typ, EMPTY, recs);
    HashIsOfMembers(sip, key, typ', EMPTY, recs');
  }

  /** A run of records panics exactly when it adds a new prefix that has no length. */
  lemma {:induction false} PanicExactly(sip: Sip, key: bytes, typ: byte, c: Comp, recs: seq<Rec>)
    requires Indexed(c.nets)
    ensures ApplyAll(sip, key, typ, c, recs).Panic? <==>
            typ == TYPE_CIDR && exists r :: r in recs && r.op == REC_ADD && r.prefix.bits == -1
    decreases |recs|
  {
    if recs != [] {
      match Apply(sip, key, typ, c, recs[0])
      case Panic => assert recs[0] in recs;
      case Done(c') =>
        PanicExactly(sip, key, typ, c', recs[1..]);
        assert recs == [recs[0]] + recs[1..];
    }
  }

  // Address lookup.

  predicate Alive(exp: int, now: int) { exp == 0 || exp > now }

  /** Zero never expires; any other moment is the first at which an entry is no longer there. */
  lemma AliveUntil(exp: int, now: int)
    ensures Alive(0, now) && (exp != 0 ==> (Alive(exp, now) <==> now < exp))
  {
  }

  /** The direct reading: some unexpired stored prefix covers the address. */
  ghost predicate NaiveHit(nets: map<Prefix, i64>, a: Addr, now: int)
    requires Indexed(nets) && a.Valid()
  {
    exists p :: p in nets && Alive(nets[p], now) && Covers(p, a)
  }

  /** What the lookup by length finds: it never sees a stored prefix with host bits set. */
  ghost predicate FastHit(nets: map<Prefix, i64>, a: Addr, now: int)
    requires Indexed(nets) && a.Valid()
  {
    exists p :: p in nets && Alive(nets[p], now) && Masked(p) == p && Covers(p, a)
  }

  lemma FastIsNaive(nets: map<Prefix, i64>, a: Addr, now: int)
    requires Indexed(nets) && a.Valid()
    requires forall p | p in nets :: Masked(p) == p
    ensures FastHit(nets, a, now) <==> NaiveHit(nets, a, now)
  {
    if NaiveHit(nets, a, now) {
      var p :| p in nets && Alive(nets[p], now) && Covers(p, a);
      assert Masked(p) == p;
    }
  }

  /** A single stored prefix is looked up faithfully for every address exactly when it is masked. */
  lemma FaithfulExactlyWhenMasked(p: Prefix)
    requires p.Valid()
    ensures Masked(p) == p <==>
            forall a: Addr, now: int | a.Valid() :: FastHit(map[p := 0], a, now) <==> NaiveHit(map[p := 0], a, now)
  {
    var nets: map<Prefix, i64> := map[p := 0];
    if Masked(p) == p {
      forall a: Addr, now: int | a.Valid() ensures FastHit(nets, a, now) <==> NaiveHit(nets, a, now) {
        FastIsNaive(nets, a, now);
      }
    } else {
      assert p in nets && Alive(nets[p], 0) && Covers(p, p.addr);
      assert NaiveHit(nets, p.addr, 0) && !FastHit(nets, p.addr, 0);
    }
  }

  function Family(p: Prefix): nat { if p.addr.V4? then 0 else 1 }

  ghost function OfLength(nets: map<Prefix, i64>, fam: nat, bits: int): set<Prefix> {
    set p | p in nets && Family(p) == fam && p.bits == bits
  }

  /** The mutable composition of one set. */
  class Members {
    var entries: map<bytes, Entry>
    var nets: map<Prefix, i64>
    const lens: array2<int>
    var hash: nat

    /** lens[f, b] counts the stored prefixes of family f and length b. */
    ghost predicate Valid()
      reads this, lens
    {
      && lens.Length0 == 2 && lens.Length1 == 129
      && Indexed(nets)
      && forall f, b | 0 <= f < 2 && 0 <= b < 129 :: lens[f, b] == |OfLength(nets, f, b)|
    }

    ghost function Value(): Comp
      reads this
    {
      Comp(entries, nets, hash)
    }

    constructor ()
      ensures Valid() && fresh(lens) && Value() == EMPTY
    {
      entries, nets, hash := map[], map[], 0;
      lens := new int[2, 129]((i, j) => 0);
    }

    method ApplyRec(sip: Sip, key: bytes, typ: byte, r: Rec) returns (panicked: bool)
      requires Valid()
      modifies this, lens
      ensures panicked <==> Apply(sip, key, typ, old(Value()), r).Panic?
      ensures !panicked ==> Valid() && Done(Value()) == Apply(sip, key, typ, old(Value()), r)
    {
      if typ == TYPE_CIDR {
        var p := r.prefix;
        var had := p in nets;
        ghost var before := nets;
        if r.op == REC_ADD {
          if !had {
            hash := Xor(hash, sip(key, Material(p)));
            if p.bits == -1 { return true; }
            lens[Family(p), p.bits] := lens[Family(p), p.bits] + 1;
          }
          nets := nets[p := r.exp];
          Recount(before, nets, p);
        } else if had {
          hash := Xor(hash, sip(key, Material(p)));
          lens[Family(p), p.bits] := lens[Family(p), p.bits] - 1;
          nets := nets - {p};
          Recount(nets, before, p);
        }
        return false;
      }
      var had := r.value in entries;
      if r.op == REC_ADD {
        if !had {
          hash := Xor(hash, sip(key, r.value));
        }
        entries := entries[r.value := Entry(r.exp, r.reason)];
      } else if had {
        hash := Xor(hash, sip(key, r.value));
        entries := entries - {r.value};
      }
      return false;
    }

    method ApplyRecs(sip: Sip, key: bytes, typ: byte, recs: seq<Rec>) returns (panicked: bool)
      requires Valid()
      modifies this, lens
      ensures panicked <==> ApplyAll(sip, key, typ, old(Value()), recs).Panic?
      ensures !panicked ==> Valid() && Done(Value()) == ApplyAll(sip, key, typ, old(Value()), recs)
    {
      ghost var whole := ApplyAll(sip, key, typ, Value(), recs);
      for i := 0 to |recs|
        invariant Valid()
        invariant whole == ApplyAll(sip, key, typ, Value(), recs[i..])
      {
        assert recs[i..][1..] == recs[i + 1..];
        panicked := ApplyRec(sip, key, typ, recs[i]);
        if panicked { return; }
      }
      return false;
    }

    /** Longest length first, lengths nobody stored skipped. */
    method ContainsAddr(ip: Addr, now: int) returns (found: bool)
      requires Valid() && ip.Valid()
      ensures found <==> FastHit(nets, Unmap(ip), now)
    {
      var a := Unmap(ip);
      var fam := if a.V4? then 0 else 1;
      var bits: int := a.BitLen();
      while bits >= 0
        invariant -1 <= bits <= a.BitLen()
        invariant forall p | p in nets && Alive(nets[p], now) && Masked(p) == p && Covers(p, a) :: p.bits <= bits
      {
        if lens[fam, bits] == 0 {
          assert OfLength(nets, fam, bits) == {};
          assert forall p | p in nets && Covers(p, a) && p.bits == bits :: p in OfLength(nets, fam, bits);
        } else {
          var p := Masked(PrefixFrom(a, bits));
          if p in nets && Alive(nets[p], now) {
            MaskedIsCover(p, a);
            return true;
          }
          forall q | q in nets && Alive(nets[q], now) && Masked(q) == q && Covers(q, a) && q.bits == bits
            ensures false
          {
            MaskedIsCover(q, a);
          }
        }
        bits := bits - 1;
      }
      return false;
    }
  }

  /** Storing one more prefix changes one counter by one, storing a known one changes none. */
  lemma Recount(small: map<Prefix, i64>, large: map<Prefix, i64>, p: Prefix)
    requires large.Keys == small.Keys + {p}
    ensures forall f: nat, b: int :: |OfLength(large, f, b)| ==
              |OfLength(small, f, b)| + if p !in small && f == Family(p) && b == p.bits then 1 else 0
  {
    forall f: nat, b: int ensures |OfLength(large, f, b)| ==
        |OfLength(small, f, b)| + if p !in small && f == Family(p) && b == p.bits then 1 else 0 {
      RecountAt(small, large, p, f, b);
    }
  }

  lemma RecountAt(small: map<Prefix, i64>, large: map<Prefix, i64>, p: Prefix, f: nat, b: int)
    requires large.Keys == small.Keys + {p}
    ensures |OfLength(large, f, b)| ==
            |OfLength(small, f, b)| + if p !in small && f == Family(p) && b == p.bits then 1 else 0
  {
    var s, l := OfLength(small, f, b), OfLength(large, f, b);
    if f == Family(p) && b == p.bits {
      assert l == s + {p};
      if p in small { assert l == s; }
    } else {
      assert l == s;
    }
  }
}
