/** What each frame makes of a set, and that it arrives (internal/livelist/livelist.go). */
module Arrival {
  import opened Bytes
  import opened Net
  import opened Wafs
  import opened Composition
  import opened Mirror
  import opened Replica

  /** data is the keeper's snapshot of epoch e at position q. */
  ghost predicate IsSnapshot(sip: Sip, k: Keeper, e: u64, q: nat, data: bytes)
    requires SoundKeeper(k)
  {
    && OwnBytes(sip, k, data) && Decode(data).Ok?
    && Decode(data).value.head.kind == KIND_SNAPSHOT
    && Decode(data).value.head.epoch == e && Decode(data).value.head.seqNo == q
  }

  /** The set is ready and is the keeper's state at (e, q), as readers see it from now on. */
  ghost predicate At(sip: Sip, k: Keeper, s: State, e: u64, q: nat)
    requires SoundKeeper(k)
  {
    && s.ready && !s.crashed && !s.snapBad && s.seen != [] && s.seen[|s.seen| - 1] == s.view
    && s.view.epoch == e && s.view.seqNo == q && Boundary(sip, k, s.view)
  }

  /** Data no snapshot can be made of. */
  predicate Useless(a: SnapAnswer) {
    a.Unusable? || Decode(a.data).Err? || Decode(a.data).value.head.kind != KIND_SNAPSHOT
  }

  /** s asked for one snapshot and took what came. */
  ghost predicate Asked(sip: Sip, k: Keeper, env: Env, s: State, s': State)
    requires SoundKeeper(k)
  {
    && s'.requests == s.requests + 1
    && (Useless(env.snaps(s.requests)) ==> s' == s.(requests := s.requests + 1, snapBad := false))
    && forall e: u64, q: nat | env.snaps(s.requests).Fetched? && IsSnapshot(sip, k, e, q, env.snaps(s.requests).data) ::
         At(sip, k, s', e, q)
  }

  lemma InstallArrives(sip: Sip, k: Keeper, s: State, o: Object)
    requires SoundKeeper(k) && Own(sip, k, o) && o.head.kind == KIND_SNAPSHOT && !s.crashed
    ensures At(sip, k, Install(sip, s, o), o.head.epoch, o.head.seqNo)
    ensures Install(sip, s, o).requests == s.requests
  {
    var l := k[o.head.epoch];
    var loaded := ApplyAll(sip, l.key, l.typ, EMPTY, o.recs).comp;
    var c := StateAt(sip, l, o.head.seqNo);
    EmptyIsHashed(sip, l.key);
    HashIsOfMembers(sip, l.key, l.typ, EMPTY, o.recs);
    hide ApplyAll, StateAt, Digest;
    assert loaded == c;
  }

  /** A set that is not silenced asks once, and with the keeper's snapshot it is where that is. */
  lemma SnapshotArrives(sip: Sip, k: Keeper, env: Env, s: State)
    requires SoundKeeper(k) && !s.crashed && !s.snapBad
    ensures Asked(sip, k, env, s, Snapshot(sip, env, s))
  {
    hide Decode, Install, At, Own;
    var answer := env.snaps(s.requests);
    SnapshotAsks(sip, env, s);
    if answer.Fetched? && OwnBytes(sip, k, answer.data) && !Useless(answer) {
      InstallArrives(sip, k, s.(requests := s.requests + 1), Decode(answer.data).value);
    }
  }

  lemma SnapshotAsks(sip: Sip, env: Env, s: State)
    requires !s.snapBad
    ensures Snapshot(sip, env, s).requests == s.requests + 1
  {
    hide Decode, ApplyAll;
  }

  /** A frame of the right version makes an unready set ask; one that names another epoch makes a ready set
      ask, even one silenced by a bad snapshot. It asks once, and the keeper's snapshot brings it there. */
  lemma FrameAsks(sip: Sip, k: Keeper, env: Env, s: State, f: Frame)
    requires SoundKeeper(k) && !s.crashed && f.v == VERSION
    requires if s.ready then f.op != Resync && f.epoch.Some? && f.epoch.value != s.view.epoch else !s.snapBad
    ensures Asked(sip, k, env, s, OnFrame(sip, env, s, f))
  {
    hide Snapshot, At, Decode, OwnBytes;
    SnapshotArrives(sip, k, env, s.(snapBad := false));
  }

  /** A set that is not ready has no bad snapshot either. */
  lemma {:induction false} UnreadyIsNotSilenced(sip: Sip, env: Env, frames: seq<Frame>)
    ensures var s := Run(sip, env, Started(sip, env), frames); s.snapBad ==> s.ready
  {
    if frames == [] {
      hide Decode, ApplyAll;
    } else {
      hide OnFrame, Started;
      UnreadyIsNotSilenced(sip, env, frames[..|frames| - 1]);
      FrameCost(sip, env, Run(sip, env, Started(sip, env), frames[..|frames| - 1]), frames[|frames| - 1]);
    }
  }

  /** At the end of any run, with whatever objects: as long as the set lives it asks on every frame while it is
      not ready and on every frame of another epoch, and the keeper's snapshot brings it there. */
  lemma RunAsks(sip: Sip, k: Keeper, env: Env, frames: seq<Frame>, f: Frame)
    requires SoundKeeper(k) && f.v == VERSION
    requires var s := Run(sip, env, Started(sip, env), frames);
             !s.crashed && (s.ready ==> f.op != Resync && f.epoch.Some? && f.epoch.value != s.view.epoch)
    ensures Asked(sip, k, env, Run(sip, env, Started(sip, env), frames),
                  Run(sip, env, Started(sip, env), frames + [f]))
  {
    hide Asked, OnFrame, Started;
    assert (frames + [f])[..|frames|] == frames;
    UnreadyIsNotSilenced(sip, env, frames);
    FrameAsks(sip, k, env, Run(sip, env, Started(sip, env), frames), f);
  }

  /** A frame that is not about this set's future leaves a ready set alone: another version, a request to
      resend, an epoch that is no number, a position already passed, or the set's own under its own hash. */
  lemma FrameIsIdle(sip: Sip, k: Keeper, env: Env, s: State, f: Frame)
    requires SoundKeeper(k) && Faithful(sip, k, s) && s.ready
    requires || f.v != VERSION || f.op == Resync || f.epoch == None
             || (f.epoch == Some(s.view.epoch)
                 && (f.seqNo < s.view.seqNo
                     || (f.seqNo == s.view.seqNo
                         && (f.op == Unknown || OwnHash(sip, k, s.view.epoch, s.view.seqNo, f.hash)))))
    ensures OnFrame(sip, env, s, f) == s
  {
    hide Snapshot, Verify, CatchUp, ApplyPackage, StateAt, Boundary;
    HashDecides(sip, k, env, s, f.hash);
  }

  /** A tick or diff at the set's own position with another hash makes it ask once. */
  lemma OtherHashAsks(sip: Sip, k: Keeper, env: Env, s: State, f: Frame)
    requires SoundKeeper(k) && Faithful(sip, k, s) && s.ready
    requires f.v == VERSION && (f.op == Tick || f.op == Diff)
    requires f.epoch == Some(s.view.epoch) && f.seqNo == s.view.seqNo
    requires !OwnHash(sip, k, s.view.epoch, s.view.seqNo, f.hash)
    ensures Asked(sip, k, env, s, OnFrame(sip, env, s, f))
  {
    hide Snapshot, Verify, CatchUp, ApplyPackage, Asked, Boundary, OwnHash;
    HashDecides(sip, k, env, s, f.hash);
    SnapshotArrives(sip, k, env, s);
  }

  /** One frame of the set's own epoch ahead of it brings it there: with the package inside it, or while Redis
      holds the packages up to it; then with one snapshot request on arrival exactly for a foreign hash. */
  lemma FrameArrives(sip: Sip, k: Keeper, env: Env, s: State, f: Frame)
    requires SoundKeeper(k) && Faithful(sip, k, s) && s.ready
    requires f.v == VERSION && f.op != Resync && f.epoch == Some(s.view.epoch) && f.seqNo > s.view.seqNo
    requires if f.op == Diff && f.inlined.Inline? && f.seqNo == s.view.seqNo + 1
             then IsPackage(sip, k, s.view.epoch, f.seqNo, f.inlined.data)
             else forall i: nat | i >= s.fetches ::
                    env.packages(i).Objects? && Held(sip, k, s.view.epoch, env.packages(i).at, s.view.seqNo, f.seqNo)
    ensures var s' := OnFrame(sip, env, s, f);
            if (f.op == Diff && f.inlined.Inline? && f.seqNo == s.view.seqNo + 1)
               || OwnHash(sip, k, s.view.epoch, f.seqNo, f.hash)
            then MovedTo(sip, k, s, s', f.seqNo) else AskedAt(sip, k, env, s, s', f.seqNo)
  {
    hide Snapshot, Verify, CatchUp, ApplyPackage, AskedAt, MovedTo, OwnHash, Boundary, StateAt;
    if f.op == Diff && f.inlined.Inline? && f.seqNo == s.view.seqNo + 1 {
      PackageMoves(sip, k, env, s, f.inlined.data, f.seqNo);
      MovedByOne(sip, k, s, f.inlined.data, f.seqNo);
    } else {
      CatchUpArrives(sip, k, env, s, f.seqNo, f.hash);
    }
  }

  /** Only an absent or matching hash lets a set go on; a silenced one does not go on either, but asks for nothing. */
  lemma HashLetsOn(sip: Sip, env: Env, s: State, want: Text)
    ensures Verify(sip, env, s, want).1 <==> want in {Blank, Hex(s.view.comp.hash)}
    ensures s.snapBad || want in {Blank, Hex(s.view.comp.hash)} ==> Verify(sip, env, s, want).0 == s
  {
    hide Decode, Install;
  }

  // Where Redis does not hold the packages.

  /** No object at all, or none that follows position q - 1 of epoch e. */
  predicate Unfit(o: Option<bytes>, e: u64, q: nat, typ: byte) {
    o.None? || Decode(o.value).Err?
    || var h := Decode(o.value).value.head;
       h.kind != KIND_PACKAGE || h.epoch != e || h.seqNo != q || h.typ != typ
  }

  /** The packages up to gap are held, and the one there is not. */
  ghost predicate GapAt(sip: Sip, k: Keeper, s: State, at: nat -> Option<bytes>, gap: nat)
    requires SoundKeeper(k)
  {
    && s.view.seqNo < gap && Held(sip, k, s.view.epoch, at, s.view.seqNo, gap - 1)
    && Unfit(at(gap), s.view.epoch, gap, s.view.typ)
  }

  lemma UnfitAsks(sip: Sip, k: Keeper, env: Env, s: State, at: nat -> Option<bytes>, n: nat)
    requires SoundKeeper(k) && Faithful(sip, k, s) && s.ready && n > 0 && s.view.seqNo + n < TWO_TO_THE_64
    requires Unfit(at(s.view.seqNo + 1), s.view.epoch, s.view.seqNo + 1, s.view.typ)
    ensures ApplyRead(sip, env, s, at, n) == (Snapshot(sip, env, s), false)
  {
    hide Snapshot, ApplyAll, StateAt, Boundary, Decode;
  }

  lemma {:induction false} ReadStops(sip: Sip, k: Keeper, env: Env, s: State, at: nat -> Option<bytes>, n: nat,
                                     gap: nat)
    requires SoundKeeper(k) && Faithful(sip, k, s) && s.ready && s.view.seqNo + n < TWO_TO_THE_64
    requires GapAt(sip, k, s, at, gap) && gap <= s.view.seqNo + n
    ensures var (s', ok) := ApplyRead(sip, env, s, at, n); !ok && AskedAt(sip, k, env, s, s', gap - 1)
    decreases n
  {
    hide ApplyPackage, StateAt, IsPackage, Boundary, Snapshot, Unfit;
    if gap == s.view.seqNo + 1 {
      UnfitAsks(sip, k, env, s, at, n);
      SnapshotAsks(sip, env, s);
      assert MovedTo(sip, k, s, s, gap - 1);
    } else {
      var q := s.view.seqNo + 1;
      assert at(q).Some? && IsPackage(sip, k, s.view.epoch, q, at(q).value);
      PackageMoves(sip, k, env, s, at(q).value, q);
      MovedByOne(sip, k, s, at(q).value, q);
      var s1 := ApplyPackage(sip, env, s, at(q).value, q).0;
      ReadStops(sip, k, env, s1, at, n - 1, gap);
      AskedOn(sip, k, env, s, s1, ApplyRead(sip, env, s1, at, n - 1).0, q, gap - 1);
    }
  }

  /** Who moved on and then asked has moved and asked. */
  lemma AskedOn(sip: Sip, k: Keeper, env: Env, s: State, s1: State, s': State, q: nat, there: nat)
    requires SoundKeeper(k) && MovedTo(sip, k, s, s1, q) && AskedAt(sip, k, env, s1, s', there)
    ensures AskedAt(sip, k, env, s, s', there)
  {
    hide Snapshot, Faithful;
    var at :| MovedTo(sip, k, s1, at, there) && s' == Snapshot(sip, env, at);
    assert MovedTo(sip, k, s, at, there);
  }

  /** Where a package is missing or does not follow, the set takes all before it and asks once; where a read fails
      as a whole it stays where it is and asks for nothing. */
  lemma {:induction false} CatchUpStops(sip: Sip, k: Keeper, env: Env, s: State, upto: u64, hash: Text, gap: nat)
    requires SoundKeeper(k) && Faithful(sip, k, s) && s.ready && s.view.seqNo < upto
    ensures env.packages(s.fetches).ReadFailed? ==> CatchUp(sip, env, s, upto, hash) == s.(fetches := s.fetches + 1)
    ensures gap <= upto && (forall i: nat | i >= s.fetches ::
              env.packages(i).Objects? && GapAt(sip, k, s, env.packages(i).at, gap)) ==>
              AskedAt(sip, k, env, s, CatchUp(sip, env, s, upto, hash), gap - 1)
    decreases upto - s.view.seqNo
  {
    hide ApplyRead, StateAt, IsPackage, Snapshot, Verify, Faithful, Unfit;
    if gap <= upto && forall i: nat | i >= s.fetches ::
         env.packages(i).Objects? && GapAt(sip, k, s, env.packages(i).at, gap) {
      var n, at := Batch(s, upto), env.packages(s.fetches).at;
      assert GapAt(sip, k, s, at, gap);
      var s0 := s.(fetches := s.fetches + 1);
      FetchAside(sip, k, s, s.fetches + 1);
      assert GapAt(sip, k, s0, at, gap);
      if gap <= s.view.seqNo + n {
        ReadStops(sip, k, env, s0, at, n, gap);
        FetchMoves(sip, k, env, s, s0, ReadOnce(sip, env, s, n).0, gap - 1);
      } else {
        ReadMoves(sip, k, env, s0, at, n);
        var s1 := ReadOnce(sip, env, s, n).0;
        MovesKeepType(sip, k, s, s1, s.view.seqNo + n);
        forall i: nat | i >= s1.fetches ensures env.packages(i).Objects? && GapAt(sip, k, s1, env.packages(i).at, gap) {
          assert GapAt(sip, k, s, env.packages(i).at, gap);
        }
        CatchUpStops(sip, k, env, s1, upto, hash, gap);
        AskedOn(sip, k, env, s, s1, CatchUp(sip, env, s1, upto, hash), s.view.seqNo + n, gap - 1);
      }
    }
  }

  lemma FetchMoves(sip: Sip, k: Keeper, env: Env, s: State, s0: State, s': State, q: nat)
    requires SoundKeeper(k) && s0 == s.(fetches := s.fetches + 1) && AskedAt(sip, k, env, s0, s', q)
    ensures AskedAt(sip, k, env, s, s', q)
  {
    hide Snapshot, Faithful;
    var at :| MovedTo(sip, k, s0, at, q) && s' == Snapshot(sip, env, at);
    assert MovedTo(sip, k, s, at, q);
  }

  lemma MovesKeepType(sip: Sip, k: Keeper, s: State, s': State, q: nat)
    requires SoundKeeper(k) && Faithful(sip, k, s) && s.ready && MovedTo(sip, k, s, s', q)
    ensures s'.view.typ == s.view.typ
  {
    hide StateAt;
  }

  // Where the set's goroutine dies.

  /** A decoded object stops a living set exactly if it adds a prefix without a length. */
  lemma InstallCrashesExactly(sip: Sip, s: State, o: Object)
    requires !s.crashed
    ensures Install(sip, s, o).crashed <==>
              o.head.typ == TYPE_CIDR && exists r :: r in o.recs && r.op == REC_ADD && r.prefix.bits == -1
  {
    hide ApplyAll;
    PanicExactly(sip, o.head.key, o.head.typ, EMPTY, o.recs);
  }

  /** So does a package that follows, whatever hash it carries. */
  lemma PackageCrashes(sip: Sip, env: Env, s: State, data: bytes)
    requires !s.crashed && Indexed(s.view.comp.nets) && s.view.seqNo + 1 < TWO_TO_THE_64
    requires !Unfit(Some(data), s.view.epoch, s.view.seqNo + 1, s.view.typ)
    requires s.view.typ == TYPE_CIDR
    requires exists r :: r in Decode(data).value.recs && r.op == REC_ADD && r.prefix.bits == -1
    ensures ApplyPackage(sip, env, s, data, s.view.seqNo + 1).0.crashed
  {
    hide ApplyAll, Snapshot;
    PanicExactly(sip, s.view.key, s.view.typ, s.view.comp, Decode(data).value.recs);
  }

  /** And it stays stopped: no frame is taken any more. */
  lemma {:induction false} CrashedForGood(sip: Sip, env: Env, s: State, frames: seq<Frame>)
    requires s.crashed
    ensures Run(sip, env, s, frames) == s
  {
    if frames != [] { CrashedForGood(sip, env, s, frames[..|frames| - 1]); }
  }
}
