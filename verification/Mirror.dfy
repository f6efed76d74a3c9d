/** One mirrored set following its keeper (internal/livelist/livelist.go).
    The bus and Redis are an Env: the n-th snapshot request and the n-th read of packages get
    whatever answer the Env holds, so a statement about every Env is one about every loss,
    duplicate, delay and failure. */
module Mirror {
  import opened Bytes
  import opened Net
  import opened Wafs
  import opened Composition

  const VERSION := 3
  const PACKAGES_PER_READ := 256

  datatype Option<+T> = None | Some(value: T)

  /** A hash as text: absent, the 16 digits of a number, or anything else. */
  datatype Text = Blank | Hex(value: nat) | Other

  datatype Op = Resync | Diff | Tick | Unknown

  datatype Inline = NoInline | NotBase64 | Inline(data: bytes)

  /** epoch is None when its text is not a hexadecimal number. */
  datatype Frame = Frame(v: int, op: Op, epoch: Option<u64>, seqNo: u64, hash: Text, inlined: Inline)

  /** Unusable: request failed, refused or garbled reply, no Redis, object unavailable or gone. */
  datatype SnapAnswer = Unusable | Fetched(data: bytes)

  /** A read of packages fails as a whole, or returns for each key its object or nothing. */
  datatype ReadAnswer = ReadFailed | Objects(at: nat -> Option<bytes>)

  datatype Env = Env(snaps: nat -> SnapAnswer, packages: nat -> ReadAnswer)

  /** What readers get when they take the lock. */
  datatype View = View(epoch: u64, seqNo: u64, key: bytes, typ: byte, comp: Comp)

  datatype State = State(ready: bool, view: View, snapBad: bool, crashed: bool,
                         requests: nat, fetches: nat, seen: seq<View>)

  const FRESH := State(false, View(0, 0, [], 0, EMPTY), false, false, 0, 0, [])

  /** The process dies with the goroutine: what it held can no longer be read. */
  function Crash(s: State): State {
    s.(crashed := true, view := s.view.(comp := EMPTY))
  }

  /** Releasing the write lock makes v the only thing readers can see. */
  function Publish(s: State, v: View): State {
    s.(view := v, seen := s.seen + [v])
  }

  function Snapshot(sip: Sip, env: Env, s: State): State {
    if s.snapBad then s
    else
      var s' := s.(requests := s.requests + 1);
      match env.snaps(s.requests)
      case Unusable => s'
      case Fetched(data) =>
        match Decode(data)
        case Err(_) => s'
        case Ok(o) => if o.head.kind != KIND_SNAPSHOT then s' else Install(sip, s', o)
  }

  function Install(sip: Sip, s: State, o: Object): State {
    match ApplyAll(sip, o.head.key, o.head.typ, EMPTY, o.recs)
    case Panic => Crash(s)
    case Done(c) =>
      Publish(s, View(o.head.epoch, o.head.seqNo, o.head.key, o.head.typ, c))
        .(ready := true, snapBad := c.hash != o.head.hash)
  }

  function Verify(sip: Sip, env: Env, s: State, want: Text): (State, bool) {
    if want == Blank || want == Hex(s.view.comp.hash) then (s, true)
    else if s.snapBad then (s, false)
    else (Snapshot(sip, env, s), false)
  }

  /** Nothing here compares want with the position: the callers see to it. */
  function ApplyPackage(sip: Sip, env: Env, s: State, data: bytes, want: u64): (res: (State, bool))
    requires want == s.view.seqNo + 1
    ensures res.1 ==> res.0.view.seqNo == want
  {
    match Decode(data)
    case Err(_) => (Snapshot(sip, env, s), false)
    case Ok(o) =>
      var h := o.head;
      if h.kind != KIND_PACKAGE || h.epoch != s.view.epoch || h.seqNo != want || h.typ != s.view.typ then
        (Snapshot(sip, env, s), false)
      else
        match ApplyAll(sip, s.view.key, h.typ, s.view.comp, o.recs)
        case Panic => (Crash(s), false)
        case Done(c) => Verify(sip, env, Publish(s, s.view.(seqNo := h.seqNo, comp := c)), Hex(h.hash))
  }

  /** n packages of one read, in order; stops at the first one missing or refused. */
  function ApplyRead(sip: Sip, env: Env, s: State, at: nat -> Option<bytes>, n: nat): (res: (State, bool))
    requires s.view.seqNo + n < TWO_TO_THE_64
    ensures res.1 ==> res.0.view.seqNo == s.view.seqNo + n
    decreases n
  {
    if n == 0 then (s, true)
    else
      match at(s.view.seqNo + 1)
      case None => (Snapshot(sip, env, s), false)
      case Some(data) =>
        var (s', ok) := ApplyPackage(sip, env, s, data, s.view.seqNo + 1);
        if !ok then (s', false) else ApplyRead(sip, env, s', at, n - 1)
  }

  /** How many packages one read asks for. */
  function Batch(s: State, upto: u64): (n: nat)
    requires s.view.seqNo < upto
    ensures 0 < n <= upto - s.view.seqNo && n <= PACKAGES_PER_READ
  {
    if upto - s.view.seqNo > PACKAGES_PER_READ then PACKAGES_PER_READ else upto - s.view.seqNo
  }

  function ReadOnce(sip: Sip, env: Env, s: State, n: nat): (res: (State, bool))
    requires s.view.seqNo + n < TWO_TO_THE_64
    ensures res.1 ==> res.0.view.seqNo == s.view.seqNo + n
  {
    var s' := s.(fetches := s.fetches + 1);
    match env.packages(s.fetches)
    case ReadFailed => (s', false)
    case Objects(at) => ApplyRead(sip, env, s', at, n)
  }

  function CatchUp(sip: Sip, env: Env, s: State, upto: u64, hash: Text): State
    decreases upto - s.view.seqNo
  {
    if s.view.seqNo >= upto then Verify(sip, env, s, hash).0
    else
      var (s', ok) := ReadOnce(sip, env, s, Batch(s, upto));
      if ok then CatchUp(sip, env, s', upto, hash) else s'
  }

  function OnFrame(sip: Sip, env: Env, s: State, f: Frame): State {
    if s.crashed || f.v != VERSION then s
    else if !s.ready then Snapshot(sip, env, s)
    else if f.op == Resync || f.epoch == None then s
    else if f.epoch.value != s.view.epoch then Snapshot(sip, env, s.(snapBad := false))
    else if f.seqNo < s.view.seqNo then s
    else if f.seqNo == s.view.seqNo then
      if f.op == Tick || f.op == Diff then Verify(sip, env, s, f.hash).0 else s
    else if f.op == Diff && f.inlined.Inline? && f.seqNo == s.view.seqNo + 1 then
      ApplyPackage(sip, env, s, f.inlined.data, f.seqNo).0
    else CatchUp(sip, env, s, f.seqNo, f.hash)
  }

  /** A run from s: frames in whatever order they come. */
  function Run(sip: Sip, env: Env, s: State, frames: seq<Frame>): State {
    if frames == [] then s
    else OnFrame(sip, env, Run(sip, env, s, frames[..|frames| - 1]), frames[|frames| - 1])
  }

  /** What a set is once its goroutine has asked for its first snapshot. */
  function Started(sip: Sip, env: Env): State {
    Snapshot(sip, env, FRESH)
  }

  // One frame never costs more than one snapshot request, and a bad snapshot silences requests.

  ghost predicate Thrifty(s: State, s': State) {
    && s.requests <= s'.requests <= s.requests + 1
    && (s.snapBad ==> s'.requests == s.requests && s'.snapBad)
  }

  /** As long as a call says "go on" it has not asked for anything. */
  ghost predicate Unasked(s: State, s': State) {
    s'.requests == s.requests && s'.snapBad == s.snapBad
  }

  lemma VerifyCost(sip: Sip, env: Env, s: State, want: Text)
    ensures var (s', ok) := Verify(sip, env, s, want); Thrifty(s, s') && (ok ==> Unasked(s, s'))
  {
  }

  lemma PackageCost(sip: Sip, env: Env, s: State, data: bytes, want: u64)
    requires want == s.view.seqNo + 1
    ensures var (s', ok) := ApplyPackage(sip, env, s, data, want); Thrifty(s, s') && (ok ==> Unasked(s, s'))
  {
    hide Decode, ApplyAll;
  }

  lemma {:induction false} ReadCost(sip: Sip, env: Env, s: State, at: nat -> Option<bytes>, n: nat)
    requires s.view.seqNo + n < TWO_TO_THE_64
    ensures var (s', ok) := ApplyRead(sip, env, s, at, n); Thrifty(s, s') && (ok ==> Unasked(s, s'))
    decreases n
  {
    hide Decode, ApplyAll, ApplyPackage;
    if n > 0 && at(s.view.seqNo + 1).Some? {
      var data := at(s.view.seqNo + 1).value;
      PackageCost(sip, env, s, data, s.view.seqNo + 1);
      var (s', ok) := ApplyPackage(sip, env, s, data, s.view.seqNo + 1);
      if ok { ReadCost(sip, env, s', at, n - 1); }
    }
  }

  lemma {:induction false} CatchUpCost(sip: Sip, env: Env, s: State, upto: u64, hash: Text)
    ensures Thrifty(s, CatchUp(sip, env, s, upto, hash))
    decreases upto - s.view.seqNo
  {
    hide ApplyRead, Verify;
    if s.view.seqNo >= upto {
      VerifyCost(sip, env, s, hash);
    } else {
      var n := Batch(s, upto);
      var (s', ok) := ReadOnce(sip, env, s, n);
      if env.packages(s.fetches).Objects? {
        ReadCost(sip, env, s.(fetches := s.fetches + 1), env.packages(s.fetches).at, n);
      }
      if ok { CatchUpCost(sip, env, s', upto, hash); }
    }
  }

  /** Through any call path one frame causes at most one request; after a snapshot whose hash does
      not match, none at all unless the frame names another epoch. */
  lemma FrameCost(sip: Sip, env: Env, s: State, f: Frame)
    requires s.snapBad ==> s.ready
    ensures var s' := OnFrame(sip, env, s, f);
            && s.requests <= s'.requests <= s.requests + 1
            && (s.snapBad && (f.epoch == None || f.epoch.value == s.view.epoch) ==>
                  s'.requests == s.requests && s'.snapBad)
            && (s'.snapBad ==> s'.ready)
  {
    hide Decode, ApplyAll;
    if !s.crashed && f.v == VERSION && s.ready && f.op != Resync && f.epoch == Some(s.view.epoch) {
      if f.seqNo == s.view.seqNo + 1 && f.inlined.Inline? {
        PackageCost(sip, env, s, f.inlined.data, f.seqNo);
        PackageReady(sip, env, s, f.inlined.data, f.seqNo);
      }
      CatchUpCost(sip, env, s, f.seqNo, f.hash);
      CatchUpReady(sip, env, s, f.seqNo, f.hash);
      hide CatchUp, ApplyPackage;
    }
  }

  /** A set that could not reproduce a snapshot's hash stays silent for as long as its epoch lasts. */
  lemma {:induction false} SilentAfterBadSnapshot(sip: Sip, env: Env, s: State, frames: seq<Frame>)
    requires s.snapBad && s.ready
    requires forall i | 0 <= i < |frames| ::
               var before := Run(sip, env, s, frames[..i]);
               frames[i].epoch == None || frames[i].epoch.value == before.view.epoch
    ensures var s' := Run(sip, env, s, frames); s'.requests == s.requests && s'.snapBad && s'.ready
  {
    hide OnFrame;
    if frames != [] {
      var n := |frames| - 1;
      forall i | 0 <= i < n
        ensures var before := Run(sip, env, s, frames[..n][..i]);
                frames[..n][i].epoch == None || frames[..n][i].epoch.value == before.view.epoch
      {
        assert frames[..n][..i] == frames[..i];
      }
      SilentAfterBadSnapshot(sip, env, s, frames[..n]);
      FrameCost(sip, env, Run(sip, env, s, frames[..n]), frames[n]);
    }
  }

  lemma PackageReady(sip: Sip, env: Env, s: State, data: bytes, want: u64)
    requires want == s.view.seqNo + 1 && s.ready
    ensures ApplyPackage(sip, env, s, data, want).0.ready
  {
    hide Decode, ApplyAll;
  }

  lemma {:induction false} ReadReady(sip: Sip, env: Env, s: State, at: nat -> Option<bytes>, n: nat)
    requires s.view.seqNo + n < TWO_TO_THE_64 && s.ready
    ensures ApplyRead(sip, env, s, at, n).0.ready
    decreases n
  {
    hide Decode, ApplyAll, ApplyPackage;
    if n > 0 && at(s.view.seqNo + 1).Some? {
      var data := at(s.view.seqNo + 1).value;
      PackageReady(sip, env, s, data, s.view.seqNo + 1);
      var (s', ok) := ApplyPackage(sip, env, s, data, s.view.seqNo + 1);
      if ok { ReadReady(sip, env, s', at, n - 1); }
    }
  }

  lemma {:induction false} CatchUpReady(sip: Sip, env: Env, s: State, upto: u64, hash: Text)
    requires s.ready
    ensures CatchUp(sip, env, s, upto, hash).ready
    decreases upto - s.view.seqNo
  {
    hide ApplyRead;
    if s.view.seqNo < upto {
      var n := Batch(s, upto);
      var (s', ok) := ReadOnce(sip, env, s, n);
      if env.packages(s.fetches).Objects? {
        ReadReady(sip, env, s.(fetches := s.fetches + 1), env.packages(s.fetches).at, n);
      }
      if ok { CatchUpReady(sip, env, s', upto, hash); }
    }
  }

  // The set as the mirror keeps it, changed in place.

  class Set {
    const sip: Sip
    const env: Env

    var ready: bool
    var epoch: u64
    var seqNo: u64
    var key: bytes
    var typ: byte
    var comp: Members
    var syncing: bool
    var snapBad: bool
    var crashed: bool
    var requests: nat
    var fetches: nat
    ghost var seen: seq<View>

    ghost predicate Valid()
      reads this, comp, comp.lens
    {
      !syncing && (crashed || comp.Valid())
    }

    ghost function Value(): State
      reads this, comp
    {
      State(ready, View(epoch, seqNo, key, typ, if crashed then EMPTY else comp.Value()),
            snapBad, crashed, requests, fetches, seen)
    }

    constructor (sip: Sip, env: Env)
      ensures Valid() && Value() == FRESH && this.sip == sip && this.env == env
      ensures fresh(comp) && fresh(comp.lens)
    {
      this.sip, this.env := sip, env;
      ready, epoch, seqNo, key, typ := false, 0, 0, [], 0;
      comp := new Members();
      syncing, snapBad, crashed, requests, fetches, seen := false, false, false, 0, 0, [];
    }

    /** The write lock is released: what it guarded becomes visible to readers. */
    ghost method Unlock()
      requires !crashed
      modifies this`seen
      ensures seen == old(seen) + [Value().view]
    {
      seen := seen + [Value().view];
    }

    method TakeSnapshot()
      requires Valid() && !crashed
      modifies this
      ensures Valid() && Value() == Snapshot(sip, env, old(Value()))
      ensures comp == old(comp) || (fresh(comp) && fresh(comp.lens))
    {
      hide Decode, Install, ApplyAll;
      if syncing { return; }
      syncing := true;
      if !snapBad {
        var answer := env.snaps(requests);
        requests := requests + 1;
        if answer.Fetched? {
          var res := Unpack(answer.data);
          if res.Ok? && res.value.head.kind == KIND_SNAPSHOT {
            InstallObject(res.value);
          }
        }
      }
      syncing := false;
    }

    /** A composition of its own, built from nothing while readers still use the old one. */
    method Build(o: Object) returns (next: Members, panicked: bool)
      ensures fresh(next) && fresh(next.lens)
      ensures panicked <==> ApplyAll(sip, o.head.key, o.head.typ, EMPTY, o.recs).Panic?
      ensures !panicked ==> next.Valid() && Done(next.Value()) == ApplyAll(sip, o.head.key, o.head.typ, EMPTY, o.recs)
    {
      next := new Members();
      panicked := next.ApplyRecs(sip, o.head.key, o.head.typ, o.recs);
    }

    method InstallObject(o: Object)
      requires !crashed && syncing && comp.Valid()
      modifies this
      ensures syncing && (crashed || comp.Valid()) && Value() == Install(sip, old(Value()), o)
      ensures comp == old(comp) || (fresh(comp) && fresh(comp.lens))
    {
      hide Decode, ApplyAll, Members.Valid;
      var next, panicked := Build(o);
      if panicked { crashed := true; } else { Replace(o.head, next); }
    }

    /** What happens under the write lock. */
    method Replace(h: Head, next: Members)
      requires !crashed && next.Valid()
      modifies this
      ensures !crashed && syncing == old(syncing) && comp == next
      ensures var view := View(h.epoch, h.seqNo, h.key, h.typ, next.Value());
              Value() == Publish(old(Value()), view).(ready := true, snapBad := next.Value().hash != h.hash)
    {
      hide Members.Valid;
      epoch, key, seqNo, typ, comp := h.epoch, h.key, h.seqNo, h.typ, next;
      ready := true;
      snapBad := next.hash != h.hash;
      Unlock();
    }

    method CheckHash(want: Text) returns (ok: bool)
      requires Valid() && !crashed
      modifies this
      ensures Valid() && (Value(), ok) == Verify(sip, env, old(Value()), want)
      ensures comp == old(comp) || (fresh(comp) && fresh(comp.lens))
    {
      if want == Blank || want == Hex(comp.hash) { return true; }
      if snapBad { return false; }
      TakeSnapshot();
      return false;
    }

    method TakePackage(data: bytes, want: u64) returns (ok: bool)
      requires Valid() && !crashed && want == seqNo + 1
      modifies this, comp, comp.lens
      ensures Valid() && (Value(), ok) == ApplyPackage(sip, env, old(Value()), data, want)
      ensures comp == old(comp) || (fresh(comp) && fresh(comp.lens))
      ensures ok ==> !crashed
    {
      hide Decode, ApplyAll;
      var res := Unpack(data);
      if res.Err? {
        TakeSnapshot();
        return false;
      }
      var h := res.value.head;
      if h.kind != KIND_PACKAGE || h.epoch != epoch || h.seqNo != want || h.typ != typ {
        TakeSnapshot();
        return false;
      }
      crashed := comp.ApplyRecs(sip, key, h.typ, res.value.recs);
      if crashed { return false; }
      seqNo := h.seqNo;
      Unlock();
      ok := CheckHash(Hex(h.hash));
    }

    method TakeRead(n: nat) returns (ok: bool)
      requires Valid() && !crashed && seqNo + n < TWO_TO_THE_64
      modifies this, comp, comp.lens
      ensures Valid() && (Value(), ok) == ReadOnce(sip, env, old(Value()), n)
      ensures comp == old(comp) || (fresh(comp) && fresh(comp.lens))
      ensures ok ==> !crashed
    {
      hide ApplyPackage, Snapshot, Verify, ApplyAll, Decode, Members.Valid, Members.Value;
      var answer := env.packages(fetches);
      fetches := fetches + 1;
      if answer.ReadFailed? { return false; }
      ghost var whole := ApplyRead(sip, env, Value(), answer.at, n);
      for i := 0 to n
        invariant Valid() && !crashed && seqNo == old(seqNo) + i
        invariant whole == ApplyRead(sip, env, Value(), answer.at, n - i)
        invariant comp == old(comp) || (fresh(comp) && fresh(comp.lens))
      {
        var data := answer.at(seqNo + 1);
        if data.None? {
          TakeSnapshot();
          return false;
        }
        ok := TakePackage(data.value, seqNo + 1);
        if !ok { return; }
      }
      return true;
    }

    method Chase(upto: u64, hash: Text)
      requires Valid() && !crashed
      modifies this, comp, comp.lens
      ensures Valid() && Value() == CatchUp(sip, env, old(Value()), upto, hash)
      ensures comp == old(comp) || (fresh(comp) && fresh(comp.lens))
    {
      hide ReadOnce, Verify, Snapshot, ApplyAll, Decode;
      ghost var whole := CatchUp(sip, env, Value(), upto, hash);
      while seqNo < upto
        invariant Valid() && !crashed
        invariant whole == CatchUp(sip, env, Value(), upto, hash)
        invariant comp == old(comp) || (fresh(comp) && fresh(comp.lens))
        decreases upto - seqNo
      {
        var n := if upto - seqNo > PACKAGES_PER_READ then PACKAGES_PER_READ else upto - seqNo;
        var ok := TakeRead(n);
        if !ok { return; }
      }
      var _ := CheckHash(hash);
    }

    method TakeFrame(f: Frame)
      requires Valid() && !crashed
      modifies this, comp, comp.lens
      ensures Valid() && Value() == OnFrame(sip, env, old(Value()), f)
      ensures comp == old(comp) || (fresh(comp) && fresh(comp.lens))
    {
      hide ApplyPackage, CatchUp, Snapshot, Verify;
      if f.v != VERSION { return; }
      if !ready {
        TakeSnapshot();
        return;
      }
      if f.op == Resync || f.epoch == None { return; }
      if f.epoch.value != epoch {
        snapBad := false;
        TakeSnapshot();
        return;
      }
      if f.seqNo < seqNo { return; }
      if f.seqNo == seqNo {
        if f.op == Tick || f.op == Diff {
          var _ := CheckHash(f.hash);
        }
        return;
      }
      if f.op == Diff && f.inlined != NoInline && f.seqNo == seqNo + 1 {
        if f.inlined.Inline? {
          var _ := TakePackage(f.inlined.data, f.seqNo);
          return;
        }
      }
      Chase(f.seqNo, f.hash);
    }

    // What the rest of the process asks a set.

    method ContainsAddr(ip: Addr, now: int) returns (found: bool, known: bool)
      requires Valid() && !crashed
      ensures known <==> ready && ip != NoAddr
      ensures found <==> known && FastHit(comp.nets, Unmap(ip), now)
    {
      if ip == NoAddr || !ready { return false, false; }
      found := comp.ContainsAddr(ip, now);
      known := true;
    }

    /** parsed says what netip makes of the text: an address, a prefix or neither. */
    method Contains(text: bytes, parsed: Parsed, now: int) returns (found: bool, known: bool)
      requires Valid() && !crashed && parsed.Sound()
      ensures known <==> ready && text != []
      ensures found <==> known && Listed(Value().view, text, parsed, now)
    {
      if text == [] || !ready { return false, false; }
      known := true;
      if typ != TYPE_CIDR {
        found := text in comp.entries && Alive(comp.entries[text].exp, now);
      } else if parsed.AsAddr? {
        found := comp.ContainsAddr(parsed.addr, now);
      } else if parsed.AsPrefix? {
        var p := PrefixFrom(Unmap(parsed.prefix.addr), parsed.prefix.bits);
        if p.bits == -1 { return false, true; }
        found := Masked(p) in comp.nets && Alive(comp.nets[Masked(p)], now);
      } else {
        found := false;
      }
    }

    method Lookup(text: bytes, now: int) returns (entry: Entry, found: bool, known: bool)
      requires Valid() && !crashed
      ensures known <==> ready && text != []
      ensures found <==> known && text in comp.entries && Alive(comp.entries[text].exp, now)
      ensures found ==> entry == comp.entries[text]
    {
      if text == [] || !ready { return Entry(0, []), false, false; }
      if text !in comp.entries || !Alive(comp.entries[text].exp, now) { return Entry(0, []), false, true; }
      return comp.entries[text], true, true;
    }
  }

  datatype Parsed = AsAddr(addr: Addr) | AsPrefix(prefix: Prefix) | Neither {
    predicate Sound() {
      (AsAddr? ==> addr.Valid()) && (AsPrefix? ==> prefix.Valid())
    }
  }

  /** Membership as a statement about the view alone. */
  ghost predicate Listed(v: View, text: bytes, parsed: Parsed, now: int)
    requires Indexed(v.comp.nets) && parsed.Sound()
  {
    if v.typ != TYPE_CIDR then text in v.comp.entries && Alive(v.comp.entries[text].exp, now)
    else
      match parsed
      case AsAddr(a) => FastHit(v.comp.nets, Unmap(a), now)
      case AsPrefix(p) =>
        var q := PrefixFrom(Unmap(p.addr), p.bits);
        q.bits != -1 && Masked(q) in v.comp.nets && Alive(v.comp.nets[Masked(q)], now)
      case Neither => false
  }
}
