/** The mirror against its keeper: what is ready is the keeper's state at exactly (epoch, seq). */
module Replica {
  import opened Bytes
  import opened Net
  import opened Wafs
  import opened Composition
  import opened Mirror

  /** One epoch of the keeper: its hash key, its type and its packages P1..Pn. */
  datatype Log = Log(key: bytes, typ: byte, packs: seq<seq<Rec>>)

  type Keeper = map<u64, Log>

  /** Every stored prefix has a length: the condition under which applying records cannot panic. */
  predicate Sound(l: Log) {
    l.typ == TYPE_CIDR ==>
      forall i, r | 0 <= i < |l.packs| && r in l.packs[i] :: r.op == REC_ADD ==> r.prefix.bits != -1
  }

  /** S0 is empty, and each package takes the state before it to the state after it. */
  function StateAt(sip: Sip, l: Log, n: nat): (c: Comp)
    requires Sound(l) && n <= |l.packs|
    ensures Hashed(sip, l.key, c) && Indexed(c.nets)
    decreases n
  {
    if n == 0 then
      EmptyIsHashed(sip, l.key);
      EMPTY
    else
      var before := StateAt(sip, l, n - 1);
      PanicExactly(sip, l.key, l.typ, before, l.packs[n - 1]);
      HashIsOfMembers(sip, l.key, l.typ, before, l.packs[n - 1]);
      ApplyAll(sip, l.key, l.typ, before, l.packs[n - 1]).comp
  }

  ghost predicate SoundKeeper(k: Keeper) {
    forall e | e in k :: Sound(k[e])
  }

  /** An object the keeper wrote: package seqNo of its log, or the members of its state at seqNo. */
  ghost predicate Own(sip: Sip, k: Keeper, o: Object)
    requires SoundKeeper(k)
  {
    var h := o.head;
    h.kind == KIND_PACKAGE || h.kind == KIND_SNAPSHOT ==>
      && h.epoch in k && h.seqNo <= |k[h.epoch].packs|
      && var l := k[h.epoch];
      && h.typ == l.typ
      && h.hash == StateAt(sip, l, h.seqNo).hash
      && (h.kind == KIND_PACKAGE ==> h.seqNo > 0 && o.recs == l.packs[h.seqNo - 1])
      && (h.kind == KIND_SNAPSHOT ==> h.key == l.key && Lists(sip, l, o.recs, StateAt(sip, l, h.seqNo)))
  }

  /** Loading recs into an empty composition gives the members of c, whatever their order. */
  ghost predicate Lists(sip: Sip, l: Log, recs: seq<Rec>, c: Comp) {
    var loaded := ApplyAll(sip, l.key, l.typ, EMPTY, recs);
    loaded.Done? && loaded.comp.entries == c.entries && loaded.comp.nets == c.nets
  }

  /** Bytes that decode at all are the keeper's own. */
  ghost predicate OwnBytes(sip: Sip, k: Keeper, data: bytes)
    requires SoundKeeper(k)
  {
    Decode(data).Ok? ==> Own(sip, k, Decode(data).value)
  }

  ghost predicate OwnEnv(sip: Sip, k: Keeper, env: Env)
    requires SoundKeeper(k)
  {
    && (forall i: nat :: env.snaps(i).Fetched? ==> OwnBytes(sip, k, env.snaps(i).data))
    && forall i: nat, q: nat :: env.packages(i).Objects? && env.packages(i).at(q).Some? ==>
         OwnBytes(sip, k, env.packages(i).at(q).value)
  }

  ghost predicate OwnFrame(sip: Sip, k: Keeper, f: Frame)
    requires SoundKeeper(k)
  {
    f.inlined.Inline? ==> OwnBytes(sip, k, f.inlined.data)
  }

  /** v is the keeper's state at exactly (epoch, seqNo): members, key, type and hash. */
  ghost predicate Boundary(sip: Sip, k: Keeper, v: View)
    requires SoundKeeper(k)
  {
    && v.epoch in k && v.seqNo <= |k[v.epoch].packs|
    && v.key == k[v.epoch].key && v.typ == k[v.epoch].typ
    && v.comp == StateAt(sip, k[v.epoch], v.seqNo)
  }

  ghost predicate Faithful(sip: Sip, k: Keeper, s: State)
    requires SoundKeeper(k)
  {
    && !s.crashed && !s.snapBad
    && (s.ready ==> Boundary(sip, k, s.view))
    && forall v | v in s.seen :: Boundary(sip, k, v)
  }

  lemma SnapshotFaithful(sip: Sip, k: Keeper, env: Env, s: State)
    requires SoundKeeper(k) && OwnEnv(sip, k, env) && Faithful(sip, k, s)
    ensures Faithful(sip, k, Snapshot(sip, env, s))
  {
    hide Decode, Install;
    var answer := env.snaps(s.requests);
    if answer.Fetched? {
      assert OwnBytes(sip, k, answer.data);
      var res := Decode(answer.data);
      if res.Ok? && res.value.head.kind == KIND_SNAPSHOT {
        InstallFaithful(sip, k, s.(requests := s.requests + 1), res.value);
      }
    }
  }

  /** The loaded members hash to the keeper's hash because both are the XOR of the same members. */
  lemma InstallFaithful(sip: Sip, k: Keeper, s: State, o: Object)
    requires SoundKeeper(k) && Own(sip, k, o) && o.head.kind == KIND_SNAPSHOT && Faithful(sip, k, s)
    ensures Faithful(sip, k, Install(sip, s, o))
  {
    var l := k[o.head.epoch];
    var loaded := ApplyAll(sip, l.key, l.typ, EMPTY, o.recs).comp;
    var c := StateAt(sip, l, o.head.seqNo);
    EmptyIsHashed(sip, l.key);
    HashIsOfMembers(sip, l.key, l.typ, EMPTY, o.recs);
    hide ApplyAll, StateAt, Digest;
    assert loaded == c;
  }

  lemma VerifyFaithful(sip: Sip, k: Keeper, env: Env, s: State, want: Text)
    requires SoundKeeper(k) && OwnEnv(sip, k, env) && Faithful(sip, k, s)
    ensures Faithful(sip, k, Verify(sip, env, s, want).0)
    ensures Verify(sip, env, s, want).1 ==> Verify(sip, env, s, want).0 == s
  {
    hide Snapshot;
    SnapshotFaithful(sip, k, env, s);
  }

  lemma PackageFaithful(sip: Sip, k: Keeper, env: Env, s: State, data: bytes, want: u64)
    requires SoundKeeper(k) && OwnEnv(sip, k, env) && Faithful(sip, k, s) && s.ready
    requires OwnBytes(sip, k, data) && want == s.view.seqNo + 1
    ensures Faithful(sip, k, ApplyPackage(sip, env, s, data, want).0)
    ensures ApplyPackage(sip, env, s, data, want).0.ready
  {
    hide Decode, Snapshot, ApplyAll, Verify;
    SnapshotFaithful(sip, k, env, s);
    PackageReady(sip, env, s, data, want);
    if Decode(data).Ok? {
      var o := Decode(data).value;
      var h := o.head;
      if h.kind == KIND_PACKAGE && h.epoch == s.view.epoch && h.seqNo == want && h.typ == s.view.typ {
        var l := k[h.epoch];
        var c := StateAt(sip, l, want);
        PanicExactly(sip, l.key, l.typ, s.view.comp, o.recs);
        assert ApplyAll(sip, s.view.key, h.typ, s.view.comp, o.recs) == Done(c);
        var s' := Publish(s, s.view.(seqNo := want, comp := c));
        assert Boundary(sip, k, s'.view);
        VerifyFaithful(sip, k, env, s', Hex(h.hash));
      }
    }
  }

  lemma {:induction false} ReadFaithful(sip: Sip, k: Keeper, env: Env, s: State, at: nat -> Option<bytes>, n: nat)
    requires SoundKeeper(k) && OwnEnv(sip, k, env) && Faithful(sip, k, s) && s.ready
    requires s.view.seqNo + n < TWO_TO_THE_64
    requires forall q: nat :: at(q).Some? ==> OwnBytes(sip, k, at(q).value)
    ensures Faithful(sip, k, ApplyRead(sip, env, s, at, n).0) && ApplyRead(sip, env, s, at, n).0.ready
    decreases n
  {
    hide ApplyPackage, Snapshot, StateAt;
    if n > 0 {
      var next := at(s.view.seqNo + 1);
      if next.None? {
        SnapshotFaithful(sip, k, env, s);
        ReadReady(sip, env, s, at, n);
      } else {
        PackageFaithful(sip, k, env, s, next.value, s.view.seqNo + 1);
        var (s', ok) := ApplyPackage(sip, env, s, next.value, s.view.seqNo + 1);
        if ok { ReadFaithful(sip, k, env, s', at, n - 1); }
      }
    }
  }

  lemma {:induction false} CatchUpFaithful(sip: Sip, k: Keeper, env: Env, s: State, upto: u64, hash: Text)
    requires SoundKeeper(k) && OwnEnv(sip, k, env) && Faithful(sip, k, s) && s.ready
    ensures Faithful(sip, k, CatchUp(sip, env, s, upto, hash))
    decreases upto - s.view.seqNo
  {
    hide ApplyRead, Verify, StateAt;
    if s.view.seqNo >= upto {
      VerifyFaithful(sip, k, env, s, hash);
    } else {
      var n, answer := Batch(s, upto), env.packages(s.fetches);
      if answer.Objects? {
        ReadFaithful(sip, k, env, s.(fetches := s.fetches + 1), answer.at, n);
      }
      var (s', ok) := ReadOnce(sip, env, s, n);
      if ok { CatchUpFaithful(sip, k, env, s', upto, hash); }
    }
  }

  lemma FrameFaithful(sip: Sip, k: Keeper, env: Env, s: State, f: Frame)
    requires SoundKeeper(k) && OwnEnv(sip, k, env) && Faithful(sip, k, s) && OwnFrame(sip, k, f)
    ensures Faithful(sip, k, OnFrame(sip, env, s, f))
  {
    hide ApplyPackage, CatchUp, Verify, Snapshot, StateAt;
    if f.v != VERSION { return; }
    SnapshotFaithful(sip, k, env, s);
    if s.ready {
      SnapshotFaithful(sip, k, env, s.(snapBad := false));
      VerifyFaithful(sip, k, env, s, f.hash);
      if f.seqNo == s.view.seqNo + 1 && f.inlined.Inline? {
        PackageFaithful(sip, k, env, s, f.inlined.data, f.seqNo);
      }
      CatchUpFaithful(sip, k, env, s, f.seqNo, f.hash);
    }
  }

  /** Over every run, whatever is lost, repeated, late or refused: a ready set is the keeper's state
      at its position, readers never saw anything that is not such a state, and nothing panics. */
  lemma {:induction false} ReplicaCorrect(sip: Sip, k: Keeper, env: Env, frames: seq<Frame>)
    requires SoundKeeper(k) && OwnEnv(sip, k, env)
    requires forall i | 0 <= i < |frames| :: OwnFrame(sip, k, frames[i])
    ensures Faithful(sip, k, Run(sip, env, Started(sip, env), frames))
  {
    if frames == [] {
      SnapshotFaithful(sip, k, env, FRESH);
    } else {
      var n := |frames| - 1;
      forall i | 0 <= i < |frames[..n]| ensures OwnFrame(sip, k, frames[..n][i]) {
        assert frames[..n][i] == frames[i];
      }
      ReplicaCorrect(sip, k, env, frames[..n]);
      FrameFaithful(sip, k, env, Run(sip, env, Started(sip, env), frames[..n]), frames[n]);
    }
  }

  // Progress: what the frames are for.

  /** data is the keeper's package number q of epoch e. */
  ghost predicate IsPackage(sip: Sip, k: Keeper, e: u64, q: nat, data: bytes)
    requires SoundKeeper(k)
  {
    && OwnBytes(sip, k, data) && Decode(data).Ok?
    && Decode(data).value.head.kind == KIND_PACKAGE
    && Decode(data).value.head.epoch == e && Decode(data).value.head.seqNo == q
  }

  lemma PackageMoves(sip: Sip, k: Keeper, env: Env, s: State, data: bytes, want: u64)
    requires SoundKeeper(k) && Faithful(sip, k, s) && s.ready
    requires want == s.view.seqNo + 1 && IsPackage(sip, k, s.view.epoch, want, data)
    ensures want <= |k[s.view.epoch].packs|
    ensures ApplyPackage(sip, env, s, data, want)
         == (Publish(s, s.view.(seqNo := want, comp := StateAt(sip, k[s.view.epoch], want))), true)
  {
    hide Decode, Snapshot, ApplyAll;
    var o := Decode(data).value;
    var l := k[o.head.epoch];
    PanicExactly(sip, l.key, l.typ, s.view.comp, o.recs);
    assert ApplyAll(sip, s.view.key, o.head.typ, s.view.comp, o.recs) == Done(StateAt(sip, l, want));
  }

  /** at holds the keeper's packages of epoch e after position lo and up to hi. */
  ghost predicate Held(sip: Sip, k: Keeper, e: u64, at: nat -> Option<bytes>, lo: nat, hi: nat)
    requires SoundKeeper(k)
  {
    forall q: nat | lo < q <= hi :: at(q).Some? && IsPackage(sip, k, e, q, at(q).value)
  }

  /** s' is s moved to position q of the same epoch with nothing asked for. */
  ghost predicate MovedTo(sip: Sip, k: Keeper, s: State, s': State, q: nat)
    requires SoundKeeper(k)
  {
    && s'.view.epoch == s.view.epoch && s'.view.seqNo == q
    && s'.requests == s.requests && s'.ready && Faithful(sip, k, s')
  }

  lemma {:induction false} ReadMoves(sip: Sip, k: Keeper, env: Env, s: State, at: nat -> Option<bytes>, n: nat)
    requires SoundKeeper(k) && Faithful(sip, k, s) && s.ready
    requires s.view.seqNo + n < TWO_TO_THE_64
    requires Held(sip, k, s.view.epoch, at, s.view.seqNo, s.view.seqNo + n)
    ensures var (s', ok) := ApplyRead(sip, env, s, at, n);
            ok && MovedTo(sip, k, s, s', s.view.seqNo + n) && s'.fetches == s.fetches
    decreases n
  {
    hide ApplyPackage, StateAt, IsPackage;
    if n > 0 {
      var q := s.view.seqNo + 1;
      assert at(q).Some? && IsPackage(sip, k, s.view.epoch, q, at(q).value);
      PackageMoves(sip, k, env, s, at(q).value, q);
      ReadMoves(sip, k, env, ApplyPackage(sip, env, s, at(q).value, q).0, at, n - 1);
    }
  }

  /** The hash a frame carries is none, or the keeper's own at position q. */
  ghost predicate OwnHash(sip: Sip, k: Keeper, e: u64, q: nat, hash: Text)
    requires SoundKeeper(k)
  {
    hash == Blank || (e in k && q <= |k[e].packs| && hash == Hex(StateAt(sip, k[e], q).hash))
  }

  /** What checking a hash makes of a set: nothing where it is the keeper's, else one snapshot. */
  lemma HashDecides(sip: Sip, k: Keeper, env: Env, s: State, hash: Text)
    requires SoundKeeper(k) && Faithful(sip, k, s) && s.ready
    ensures OwnHash(sip, k, s.view.epoch, s.view.seqNo, hash) ==> Verify(sip, env, s, hash).0 == s
    ensures !OwnHash(sip, k, s.view.epoch, s.view.seqNo, hash) ==>
              Verify(sip, env, s, hash).0 == Snapshot(sip, env, s)
    ensures Snapshot(sip, env, s).requests == s.requests + 1
  {
    hide StateAt, Decode, ApplyAll;
  }

  lemma FetchAside(sip: Sip, k: Keeper, s: State, n: nat)
    requires SoundKeeper(k) && Faithful(sip, k, s)
    ensures Faithful(sip, k, s.(fetches := n))
  {
  }

  /** s' is what a snapshot makes of a set that had arrived at position q, asked for once. */
  ghost predicate AskedAt(sip: Sip, k: Keeper, env: Env, s: State, s': State, q: nat)
    requires SoundKeeper(k)
  {
    s'.requests == s.requests + 1 && exists there :: MovedTo(sip, k, s, there, q) && s' == Snapshot(sip, env, there)
  }

  /** When Redis still holds every package up to a frame's position, one frame brings the set there. It
      does so without a snapshot where the frame's hash is the keeper's or absent; any other hash is
      answered by exactly one snapshot request on arrival. */
  lemma {:induction false} CatchUpArrives(sip: Sip, k: Keeper, env: Env, s: State, upto: u64, hash: Text)
    requires SoundKeeper(k) && Faithful(sip, k, s) && s.ready
    requires s.view.seqNo <= upto
    requires forall i: nat | i >= s.fetches ::
               env.packages(i).Objects? && Held(sip, k, s.view.epoch, env.packages(i).at, s.view.seqNo, upto)
    ensures var s' := CatchUp(sip, env, s, upto, hash);
            if OwnHash(sip, k, s.view.epoch, upto, hash) then MovedTo(sip, k, s, s', upto)
            else AskedAt(sip, k, env, s, s', upto)
    decreases upto - s.view.seqNo
  {
    hide ApplyRead, StateAt, IsPackage, Snapshot, Verify, OwnHash, Faithful;
    if s.view.seqNo < upto {
      var n, e := Batch(s, upto), s.view.epoch;
      assert env.packages(s.fetches).Objects?;
      FetchAside(sip, k, s, s.fetches + 1);
      ReadMoves(sip, k, env, s.(fetches := s.fetches + 1), env.packages(s.fetches).at, n);
      var s' := ReadOnce(sip, env, s, n).0;
      forall i: nat | i >= s'.fetches
        ensures env.packages(i).Objects? && Held(sip, k, e, env.packages(i).at, s'.view.seqNo, upto)
      {
        assert Held(sip, k, e, env.packages(i).at, s.view.seqNo, upto);
      }
      CatchUpArrives(sip, k, env, s', upto, hash);
      if AskedAt(sip, k, env, s', CatchUp(sip, env, s', upto, hash), upto) {
        var there :| MovedTo(sip, k, s', there, upto)
                     && CatchUp(sip, env, s', upto, hash) == Snapshot(sip, env, there);
        assert MovedTo(sip, k, s, there, upto);
      }
    } else {
      HashDecides(sip, k, env, s, hash);
      assert MovedTo(sip, k, s, s, upto);
    }
  }

  /** Publishing the next state of the keeper keeps the set faithful. */
  lemma MovedByOne(sip: Sip, k: Keeper, s: State, data: bytes, q: u64)
    requires SoundKeeper(k) && Faithful(sip, k, s) && s.ready
    requires q == s.view.seqNo + 1 && IsPackage(sip, k, s.view.epoch, q, data)
    ensures s.view.epoch in k && q <= |k[s.view.epoch].packs|
    ensures MovedTo(sip, k, s, Publish(s, s.view.(seqNo := q, comp := StateAt(sip, k[s.view.epoch], q))), q)
  {
    hide StateAt, Decode;
  }

  lemma ReadOneMoves(sip: Sip, k: Keeper, env: Env, s: State, data: bytes, hash: Text)
    requires SoundKeeper(k) && Faithful(sip, k, s) && s.ready
    requires s.view.seqNo + 1 < TWO_TO_THE_64 && IsPackage(sip, k, s.view.epoch, s.view.seqNo + 1, data)
    requires env.packages(s.fetches).Objects? && env.packages(s.fetches).at(s.view.seqNo + 1) == Some(data)
    ensures var there := ApplyPackage(sip, env, s.(fetches := s.fetches + 1), data, s.view.seqNo + 1).0;
            CatchUp(sip, env, s, s.view.seqNo + 1, hash) == Verify(sip, env, there, hash).0
  {
    hide ApplyPackage, StateAt, IsPackage, Snapshot, Verify, Faithful, OwnBytes, ReadOnce, CatchUp;
    var q, s1 := s.view.seqNo + 1, s.(fetches := s.fetches + 1);
    FetchAside(sip, k, s, s.fetches + 1);
    PackageMoves(sip, k, env, s1, data, q);
    OnePackageRead(sip, env, s, data, hash);
  }

  lemma OnePackageRead(sip: Sip, env: Env, s: State, data: bytes, hash: Text)
    requires s.view.seqNo + 1 < TWO_TO_THE_64
    requires env.packages(s.fetches).Objects? && env.packages(s.fetches).at(s.view.seqNo + 1) == Some(data)
    requires ApplyPackage(sip, env, s.(fetches := s.fetches + 1), data, s.view.seqNo + 1).1
    ensures var there := ApplyPackage(sip, env, s.(fetches := s.fetches + 1), data, s.view.seqNo + 1).0;
            CatchUp(sip, env, s, s.view.seqNo + 1, hash) == Verify(sip, env, there, hash).0
  {
    hide ApplyPackage, Snapshot, Verify;
    var there := ApplyPackage(sip, env, s.(fetches := s.fetches + 1), data, s.view.seqNo + 1).0;
    assert ReadOnce(sip, env, s, 1) == ApplyRead(sip, env, there, env.packages(s.fetches).at, 0) == (there, true);
  }

  /** The package inside a frame and the same package read from Redis lead to the same state, the read
      itself aside, exactly as far as the frame's hash is the keeper's or absent: the inline path does
      not look at it, the other asks for one snapshot where it differs. */
  lemma InlineIsCatchUp(sip: Sip, k: Keeper, env: Env, s: State, f: Frame, data: bytes)
    requires SoundKeeper(k) && Faithful(sip, k, s) && s.ready
    requires f.v == VERSION && f.op == Diff && f.epoch == Some(s.view.epoch)
    requires f.seqNo == s.view.seqNo + 1 && IsPackage(sip, k, s.view.epoch, f.seqNo, data)
    requires env.packages(s.fetches).Objects? && env.packages(s.fetches).at(f.seqNo) == Some(data)
    ensures var direct := OnFrame(sip, env, s, f.(inlined := Inline(data)));
            var fetched := OnFrame(sip, env, s, f.(inlined := NoInline));
            var there := direct.(fetches := s.fetches + 1);
            && MovedTo(sip, k, s, direct, f.seqNo)
            && (OwnHash(sip, k, s.view.epoch, f.seqNo, f.hash) <==> fetched == there)
            && (!OwnHash(sip, k, s.view.epoch, f.seqNo, f.hash) ==>
                  fetched == Snapshot(sip, env, there) && fetched.requests == s.requests + 1)
  {
    hide ApplyPackage, StateAt, IsPackage, Snapshot, CatchUp, Verify, OwnHash, Faithful, OwnBytes;
    var there := ApplyPackage(sip, env, s.(fetches := s.fetches + 1), data, f.seqNo).0;
    FetchAside(sip, k, s, s.fetches + 1);
    PackageMoves(sip, k, env, s, data, f.seqNo);
    MovedByOne(sip, k, s, data, f.seqNo);
    MovedByOne(sip, k, s.(fetches := s.fetches + 1), data, f.seqNo);
    PackageMoves(sip, k, env, s.(fetches := s.fetches + 1), data, f.seqNo);
    ReadOneMoves(sip, k, env, s, data, f.hash);
    HashDecides(sip, k, env, there, f.hash);
  }
}
