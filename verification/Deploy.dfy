/** Putting a new configuration in place (internal/desired/desired.go, internal/config/profiles.go): a tree
    is staged, the live one parked, the staged one promoted and read, and everything undone on the way
    back. Any step of it may fail. */
module Deploy {

  datatype Option<+T> = None | Some(value: T)

  /** An entry of a section, "sources" or "profiles". */
  datatype Key = Key(section: string, name: string)
  datatype File = File(name: string, text: string)
  datatype Manifest = Manifest(hash: string, rev: int, entries: map<Key, seq<File>>)

  datatype Path = Path(key: Key, file: string)
  type Tree = map<Path, string>

  /** The files of one entry; of two with one name the later stands. */
  function FilesTree(k: Key, files: seq<File>): (t: Tree)
    ensures forall p | p in t :: p.key == k
  {
    if files == [] then map[]
    else
      var last := files[|files| - 1];
      FilesTree(k, files[..|files| - 1])[Path(k, last.name) := last.text]
  }

  function Paths(m: Manifest, keys: set<Key>): set<Path>
    requires keys <= m.entries.Keys
  {
    set k, p | k in keys && p in FilesTree(k, m.entries[k]) :: p
  }

  function Part(m: Manifest, keys: set<Key>): Tree
    requires keys <= m.entries.Keys
  {
    map p | p in Paths(m, keys) :: FilesTree(p.key, m.entries[p.key])[p]
  }

  function TreeOf(m: Manifest): Tree { Part(m, m.entries.Keys) }

  lemma PartHas(m: Manifest, keys: set<Key>, p: Path)
    requires keys <= m.entries.Keys
    ensures p in Part(m, keys) <==> p.key in keys && p in FilesTree(p.key, m.entries[p.key])
    ensures p in Part(m, keys) ==> Part(m, keys)[p] == FilesTree(p.key, m.entries[p.key])[p]
  {
    hide FilesTree;
  }

  lemma OneEntry(m: Manifest, keys: set<Key>, k: Key)
    requires keys <= m.entries.Keys && k in m.entries && k !in keys
    ensures Part(m, keys + {k}) == Part(m, keys) + FilesTree(k, m.entries[k])
  {
    hide Part, FilesTree;
    var l, r := Part(m, keys + {k}), Part(m, keys) + FilesTree(k, m.entries[k]);
    forall p: Path ensures (p in l <==> p in r) && (p in l ==> l[p] == r[p]) {
      PartHas(m, keys, p);
      PartHas(m, keys + {k}, p);
    }
  }

  /** The last file of a name, and none after it. */
  ghost predicate LastOf(files: seq<File>, name: string, i: int) {
    0 <= i < |files| && files[i].name == name && forall j | i < j < |files| :: files[j].name != name
  }

  lemma {:induction false} FilesTreeMeans(k: Key, files: seq<File>, p: Path)
    ensures p in FilesTree(k, files) <==> p.key == k && exists i :: LastOf(files, p.file, i)
    ensures forall i | p.key == k && LastOf(files, p.file, i) :: FilesTree(k, files)[p] == files[i].text
  {
    if files != [] {
      var n := |files| - 1;
      var rest := files[..n];
      FilesTreeMeans(k, rest, p);
      if files[n].name == p.file {
        assert LastOf(files, p.file, n);
      } else {
        assert forall i :: LastOf(files, p.file, i) <==> LastOf(rest, p.file, i);
      }
    }
  }

  /** The manifest's tree has a file exactly where an entry lists one, with the text of the last one of
      that name. */
  lemma TreeMeans(m: Manifest, p: Path)
    ensures p in TreeOf(m) <==> p.key in m.entries && exists i :: LastOf(m.entries[p.key], p.file, i)
    ensures forall i | p.key in m.entries && LastOf(m.entries[p.key], p.file, i) ::
              TreeOf(m)[p] == m.entries[p.key][i].text
  {
    hide Part, FilesTree;
    PartHas(m, m.entries.Keys, p);
    if p.key in m.entries { FilesTreeMeans(p.key, m.entries[p.key], p); }
  }

  /** What RemoveAll leaves: nothing, or, where it fails, some of the files. */
  datatype Removal = Removed | Stuck(keep: set<Path>)

  function Left(t: Option<Tree>, how: Removal): Option<Tree> {
    if t.None? || how.Removed? then None
    else Some(map p | p in t.value && p in how.keep :: t.value[p])
  }

  datatype Moved = Done | Missing | Refused

  /** Rename: it refuses a target with anything in it, and may fail on its own. */
  function Rename(from: Option<Tree>, to: Option<Tree>, fails: bool): Moved {
    if from.None? then Missing
    else if fails || (to.Some? && to.value != map[]) then Refused
    else Done
  }

  /** What may go wrong at each step, in the order the steps are taken. */
  datatype Faults = Faults(dataDir: bool, clearStaging: Removal, write: Option<Option<Tree>>, clearUnwritten: Removal,
                           clearPrev: Removal, park: bool, clearUnparked: Removal, promote: bool, unpark: bool,
                           clearUnpromoted: Removal, load: bool, clearLive: Removal, restore: bool, reload: bool,
                           clearParked: Removal)

  datatype Step = DataDir | Writing | Parking | Promoting | Reading

  /** The data directory, and the store: where it reads from and what it read last. */
  datatype Host<+S> = Host(staging: Option<Tree>, prev: Option<Tree>, live: Option<Tree>, readsLive: bool, current: S)

  /** What reading a tree gives, if it can be read. */
  type Reader<!S> = Tree -> Option<S>

  /** ReloadFrom(live): the snapshot changes only after a successful read. */
  function ReloadLive<S>(h: Host<S>, parse: Reader<S>, fails: bool): (Host<S>, bool) {
    if fails || h.live.None? || parse(h.live.value).None? then (h, false)
    else (h.(readsLive := true, current := parse(h.live.value).value), true)
  }

  function Base(h: Host, f: Faults): Tree {
    var left := Left(h.staging, f.clearStaging);
    if left.Some? then left.value else map[]
  }

  function Applied<S>(h: Host<S>, parse: Reader<S>, m: Manifest, f: Faults): (Host<S>, Option<Step>) {
    if f.dataDir then (h, Some(DataDir))
    else if f.write.Some? then
      (h.(staging := Left(f.write.value, f.clearUnwritten)), Some(Writing))
    else
      Swapped(h.(staging := Some(Base(h, f) + TreeOf(m)), prev := Left(h.prev, f.clearPrev)), parse, f)
  }

  /** From parking on, with the new tree staged. */
  function Swapped<S>(h: Host<S>, parse: Reader<S>, f: Faults): (Host<S>, Option<Step>)
    requires h.staging.Some?
  {
    var parked := Rename(h.live, h.prev, f.park);
    if parked == Refused then (h.(staging := Left(h.staging, f.clearUnparked)), Some(Parking))
    else
      var lived := parked == Done;
      Promoted(if lived then h.(prev := h.live, live := None) else h, parse, lived, f)
  }

  function Promoted<S>(h: Host<S>, parse: Reader<S>, lived: bool, f: Faults): (Host<S>, Option<Step>) {
    if f.promote then
      var h := if lived && !f.unpark then h.(live := h.prev, prev := None) else h;
      (h.(staging := Left(h.staging, f.clearUnpromoted)), Some(Promoting))
    else Loaded(h.(live := h.staging, staging := None), parse, lived, f)
  }

  function Loaded<S>(h: Host<S>, parse: Reader<S>, lived: bool, f: Faults): (Host<S>, Option<Step>) {
    var (h, loaded) := ReloadLive(h, parse, f.load);
    if loaded then (h.(prev := Left(h.prev, f.clearParked)), None)
    else (Undone(h, parse, lived, f), Some(Reading))
  }

  /** The new tree could not be read: back to the parked one. */
  function Undone<S>(h: Host<S>, parse: Reader<S>, lived: bool, f: Faults): Host<S> {
    var h := h.(live := Left(h.live, f.clearLive));
    if lived && Rename(h.prev, h.live, f.restore) == Done
    then ReloadLive(h.(live := h.prev, prev := None), parse, f.reload).0
    else h
  }

  /** The data directory and the store, changed in place. Which steps fail is decided on the way, and told. */
  class Machine<S> {
    var staging: Option<Tree>
    var prev: Option<Tree>
    var live: Option<Tree>
    var readsLive: bool
    var current: S

    ghost function Value(): Host<S>
      reads this
    {
      Host(staging, prev, live, readsLive, current)
    }

    constructor (current: S)
      ensures Value() == Host(None, None, None, false, current)
    {
      staging, prev, live, readsLive, this.current := None, None, None, false, current;
    }

    method WriteEntry(k: Key, files: seq<File>) returns (fails: bool)
      requires staging.Some?
      modifies this`staging
      ensures staging.Some?
      ensures !fails ==> staging.value == old(staging).value + FilesTree(k, files)
    {
      var t := staging.value;
      for i := 0 to |files|
        invariant staging == Some(t) && t == old(staging).value + FilesTree(k, files[..i])
      {
        assert files[..i + 1][..i] == files[..i];
        fails := *;
        if fails {
          var part: string := *;
          staging := Some(t[Path(k, files[i].name) := part]);
          return;
        }
        t := t[Path(k, files[i].name) := files[i].text];
        staging := Some(t);
      }
      assert files[..|files|] == files;
      fails := false;
    }

    /** write: entry by entry in any order, file by file. It may fail at any of them, and leave part of a file. */
    method Write(m: Manifest) returns (fault: Option<Option<Tree>>)
      modifies this`staging
      ensures fault.None? ==> staging == Some((if old(staging).Some? then old(staging).value else map[]) + TreeOf(m))
      ensures fault.Some? ==> fault.value == staging
    {
      var fails: bool := *;
      if fails { return Some(staging); }
      ghost var base := if staging.Some? then staging.value else map[];
      if staging.None? { staging := Some(map[]); }
      var todo := m.entries.Keys;
      ghost var done: set<Key> := {};
      assert base + Part(m, done) == base;
      while todo != {}
        invariant todo !! done && todo + done == m.entries.Keys
        invariant staging == Some(base + Part(m, done))
      {
        var k :| k in todo;
        fails := *;
        if fails { return Some(staging); }
        fails := WriteEntry(k, m.entries[k]);
        if fails { return Some(staging); }
        OneEntry(m, done, k);
        Grouped(base, Part(m, done), FilesTree(k, m.entries[k]));
        todo, done := todo - {k}, done + {k};
      }
      assert done == m.entries.Keys;
      return None;
    }

    method ReloadFromLive(parse: Reader<S>) returns (ok: bool, fails: bool)
      modifies this`readsLive, this`current
      ensures (Value(), ok) == ReloadLive(old(Value()), parse, fails)
    {
      var before := readsLive;
      readsLive := true;
      fails := *;
      var snap := if fails || live.None? then None else parse(live.value);
      if snap.None? {
        readsLive := before;
        return false, fails;
      }
      current := snap.value;
      return true, fails;
    }

    method Apply(parse: Reader<S>, m: Manifest) returns (err: Option<Step>, f: Faults)
      modifies this
      ensures (Value(), err) == Applied(old(Value()), parse, m, f)
    {
      f := *;
      if f.dataDir { return Some(DataDir), f; }
      staging := Left(staging, f.clearStaging);
      var fault := Write(m);
      f := f.(write := fault);
      if fault.Some? {
        staging := Left(staging, f.clearUnwritten);
        return Some(Writing), f;
      }
      prev := Left(prev, f.clearPrev);
      err, f := Swap(parse, f);
    }

    /** Apply, from parking the live tree on. */
    method Swap(parse: Reader<S>, may: Faults) returns (err: Option<Step>, f: Faults)
      requires staging.Some?
      modifies this
      ensures (Value(), err) == Swapped(old(Value()), parse, f)
      ensures f == may.(load := f.load, reload := f.reload)
    {
      f := may;
      var parked := Rename(live, prev, f.park);
      if parked == Refused {
        staging := Left(staging, f.clearUnparked);
        return Some(Parking), f;
      }
      var lived := parked == Done;
      if lived { prev, live := live, None; }
      err, f := Promote(parse, lived, f);
    }

    method Promote(parse: Reader<S>, lived: bool, may: Faults) returns (err: Option<Step>, f: Faults)
      modifies this
      ensures (Value(), err) == Promoted(old(Value()), parse, lived, f)
      ensures f == may.(load := f.load, reload := f.reload)
    {
      f := may;
      if f.promote {
        if lived && !f.unpark { live, prev := prev, None; }
        staging := Left(staging, f.clearUnpromoted);
        return Some(Promoting), f;
      }
      live, staging := staging, None;
      err, f := Load(parse, lived, f);
    }

    method Load(parse: Reader<S>, lived: bool, may: Faults) returns (err: Option<Step>, f: Faults)
      modifies this
      ensures (Value(), err) == Loaded(old(Value()), parse, lived, f)
      ensures f == may.(load := f.load, reload := f.reload)
    {
      var loaded, loadFails := ReloadFromLive(parse);
      f := may.(load := loadFails);
      if loaded {
        prev := Left(prev, f.clearParked);
        return None, f;
      }
      var reloadFails := Undo(parse, lived, f);
      f := f.(reload := reloadFails);
      return Some(Reading), f;
    }

    method Undo(parse: Reader<S>, lived: bool, f: Faults) returns (fails: bool)
      modifies this
      ensures Value() == Undone(old(Value()), parse, lived, f.(reload := fails))
    {
      fails := false;
      live := Left(live, f.clearLive);
      if lived && Rename(prev, live, f.restore) == Done {
        live, prev := prev, None;
        var loaded, reloadFails := ReloadFromLive(parse);
        fails := reloadFails;
      }
    }
  }

  lemma Grouped(a: Tree, b: Tree, c: Tree)
    ensures (a + b) + c == a + (b + c)
  {
  }

  // Where a deployment fails.

  /** A rename takes a tree onto nothing, or onto an empty directory. */
  lemma RenameExactly(from: Option<Tree>, to: Option<Tree>, fails: bool)
    ensures Rename(from, to, fails) == Missing <==> from.None?
    ensures Rename(from, to, fails) == Done <==> from.Some? && !fails && (forall p :: to.Some? ==> p !in to.value)
  {
    if to.Some? && forall p :: p !in to.value { assert to.value == map[]; }
  }

  /** Some file stays of what was to be removed. */
  ghost predicate Stays(t: Option<Tree>, how: Removal) {
    t.Some? && how.Stuck? && exists p :: p in t.value && p in how.keep
  }

  lemma LeftExactly(t: Option<Tree>, how: Removal)
    ensures Left(t, how).Some? <==> t.Some? && how.Stuck?
    ensures Stays(t, how) <==> Left(t, how).Some? && Left(t, how).value != map[]
    ensures Left(t, how).Some? ==> forall p ::
              (p in Left(t, how).value <==> p in t.value && p in how.keep)
              && (p in Left(t, how).value ==> Left(t, how).value[p] == t.value[p])
  {
    if Left(t, how).Some? {
      var left := Left(t, how).value;
      if left != map[] { var p :| p in left; }
      if p :| p in t.value && p in how.keep { assert p in left; }
    }
  }

  /** Each error exactly under its condition: the live tree cannot be parked where it may not be renamed or the place
      still holds a file; the new one cannot be read where the read fails or says nothing. */
  lemma ErrorsExactly<S>(h: Host<S>, parse: Reader<S>, m: Manifest, f: Faults)
    ensures var err := Applied(h, parse, m, f).1;
            var written := !f.dataDir && f.write.None?;
            var kept := h.live.Some? && (f.park || Stays(h.prev, f.clearPrev));
            && (err == Some(DataDir) <==> f.dataDir)
            && (err == Some(Writing) <==> !f.dataDir && f.write.Some?)
            && (err == Some(Parking) <==> written && kept)
            && (err == Some(Promoting) <==> written && !kept && f.promote)
            && (err == Some(Reading) <==>
                  written && !kept && !f.promote && (f.load || parse(Base(h, f) + TreeOf(m)).None?))
  {
    hide TreeOf, Left, Base, Stays;
    LeftExactly(h.prev, f.clearPrev);
  }

  /** What is left beside the live tree. Where there was one it is parked in the place of earlier ones until it is
      removed or put back; what was staged is gone when it goes live, and removed, as far as that works, when not. */
  lemma AsideExactly<S>(h: Host<S>, parse: Reader<S>, m: Manifest, f: Faults)
    ensures var (h', err) := Applied(h, parse, m, f);
            var staged, earlier := Some(Base(h, f) + TreeOf(m)), Left(h.prev, f.clearPrev);
            match err
            case Some(DataDir) => h' == h
            case Some(Writing) => h' == h.(staging := Left(f.write.value, f.clearUnwritten))
            case Some(Parking) => h' == h.(staging := Left(staged, f.clearUnparked), prev := earlier)
            case Some(Promoting) =>
              && h'.staging == Left(staged, f.clearUnpromoted)
              && h'.prev == (if h.live.None? then earlier else if f.unpark then h.live else None)
            case Some(Reading) =>
              && h'.staging.None?
              && h'.prev == (if h.live.None? then earlier else if StepsBack(h, m, f, Reading) then None else h.live)
            case None => h'.staging.None? && h'.prev == Left(if h.live.Some? then h.live else earlier, f.clearParked)
  {
    hide TreeOf, Left, Base;
  }

  /** After a success a file is live exactly if the manifest lists it, or staging still held it; the manifest's text
      comes first. */
  lemma LiveExactly<S>(h: Host<S>, parse: Reader<S>, m: Manifest, f: Faults, p: Path)
    requires Applied(h, parse, m, f).1.None?
    ensures Applied(h, parse, m, f).0.live.Some?
    ensures var live, t := Applied(h, parse, m, f).0.live.value, TreeOf(m);
            var stayed := h.staging.Some? && f.clearStaging.Stuck? && p in h.staging.value && p in f.clearStaging.keep;
            && (p in live <==> p in t || stayed)
            && (p in live ==> live[p] == if p in t then t[p] else h.staging.value[p])
  {
    SuccessMeans(h, parse, m, f);
    LeftExactly(h.staging, f.clearStaging);
    hide TreeOf, Left, Applied;
  }

  // What a deployment comes to.

  /** Success means the new tree is live and is what the store read last. It is the manifest exactly when
      nothing but the manifest's own paths was left over in the staging directory; the failure to clear
      that directory is not noticed. */
  lemma SuccessMeans<S>(h: Host<S>, parse: Reader<S>, m: Manifest, f: Faults)
    requires Applied(h, parse, m, f).1.None?
    ensures var h' := Applied(h, parse, m, f).0;
            && h'.live == Some(Base(h, f) + TreeOf(m)) && h'.staging.None?
            && h'.readsLive && parse(h'.live.value) == Some(h'.current)
            && (h'.live == Some(TreeOf(m)) <==> Base(h, f).Keys <= TreeOf(m).Keys)
    ensures h.staging.None? || f.clearStaging.Removed? ==> Base(h, f) == map[]
  {
    hide TreeOf;
    var t := Base(h, f) + TreeOf(m);
    assert Base(h, f).Keys <= TreeOf(m).Keys ==> t == TreeOf(m);
    assert t.Keys == Base(h, f).Keys + TreeOf(m).Keys;
  }

  /** The tree that turned out unreadable, as far as it could not be removed. */
  function Residue<S>(h: Host<S>, m: Manifest, f: Faults): Option<Tree> {
    Left(Some(Base(h, f) + TreeOf(m)), f.clearLive)
  }

  /** The steps back that a failure at this point takes all work. */
  predicate StepsBack<S>(h: Host<S>, m: Manifest, f: Faults, at: Step) {
    match at
    case Promoting => h.live.Some? ==> !f.unpark
    case Reading => if h.live.Some? then Rename(h.live, Residue(h, m, f), f.restore) == Done else Residue(h, m, f).None?
    case _ => true
  }

  /** The store already says what reading the live tree would say, if anything. */
  predicate Agrees<S(==)>(h: Host<S>, parse: Reader<S>) {
    h.live.Some? && parse(h.live.value).Some? ==> h.readsLive && parse(h.live.value).value == h.current
  }

  /** On an error the live tree is as before exactly when the steps back worked, or what is left of the
      new tree happens to be the old one. */
  lemma FailureRestoresTree<S>(h: Host<S>, parse: Reader<S>, m: Manifest, f: Faults)
    requires Applied(h, parse, m, f).1.Some?
    ensures var (h', err) := Applied(h, parse, m, f);
            h'.live == h.live <==> StepsBack(h, m, f, err.value) || (err.value == Reading && Residue(h, m, f) == h.live)
  {
    hide TreeOf, Base, Left;
  }

  /** And the store is as before exactly unless a restored tree was read back that says something else
      than the store did. */
  lemma FailureRestoresStore<S>(h: Host<S>, parse: Reader<S>, m: Manifest, f: Faults)
    requires Applied(h, parse, m, f).1.Some?
    ensures var (h', err) := Applied(h, parse, m, f);
            var readBack := err.value == Reading && h.live.Some? && StepsBack(h, m, f, Reading) && !f.reload;
            h'.current == h.current && h'.readsLive == h.readsLive <==> !readBack || Agrees(h, parse)
  {
    hide TreeOf, Base, Left;
  }

  // A node that is sent one manifest after another.

  datatype Word = Never | Ok | Failed
  datatype Status = Status(hash: string, rev: int, word: Word)
  datatype Node<+S> = Node(host: Host<S>, status: Status)

  predicate Known(st: Status, m: Manifest) { st.word == Ok && st.hash == m.hash && st.rev == m.rev }

  function Handle<S>(n: Node<S>, parse: Reader<S>, m: Manifest, f: Faults): Node<S> {
    if Known(n.status, m) then n
    else
      var (h, err) := Applied(n.host, parse, m, f);
      Node(h, if err.Some? then n.status.(word := Failed) else Status(m.hash, m.rev, Ok))
  }

  /** A manifest already reported as applied, by hash and revision, is passed over; any other is applied, and reported
      as applied or, under the last applied hash and revision, as failed. */
  lemma HandledExactly<S>(n: Node<S>, parse: Reader<S>, m: Manifest, f: Faults)
    ensures var n', (h, err) := Handle(n, parse, m, f), Applied(n.host, parse, m, f);
            if n.status == Status(m.hash, m.rev, Ok) then n' == n
            else
              n'.host == h && n'.status == if err.None? then Status(m.hash, m.rev, Ok)
                                           else Status(n.status.hash, n.status.rev, Failed)
  {
    hide Applied;
    var err := Applied(n.host, parse, m, f).1;
    assert Known(n.status, m) <==> n.status == Status(m.hash, m.rev, Ok);
    assert !Known(n.status, m) && err.Some? ==> Handle(n, parse, m, f).status == n.status.(word := Failed);
    assert !Known(n.status, m) && err.None? ==> Handle(n, parse, m, f).status == Status(m.hash, m.rev, Ok);
  }

  function Run<S>(n: Node<S>, parse: Reader<S>, events: seq<(Manifest, Faults)>): Node<S> {
    if events == [] then n
    else
      var (m, f) := events[|events| - 1];
      Handle(Run(n, parse, events[..|events| - 1]), parse, m, f)
  }

  /** The manifest that was last put in place. */
  function Good<S>(n: Node<S>, parse: Reader<S>, events: seq<(Manifest, Faults)>): Option<Manifest> {
    if events == [] then None
    else
      var (m, f) := events[|events| - 1];
      var before := Run(n, parse, events[..|events| - 1]);
      if !Known(before.status, m) && Applied(before.host, parse, m, f).1.None? then Some(m)
      else Good(n, parse, events[..|events| - 1])
  }

  /** Clearing and undoing work; everything else may fail. */
  predicate Undoable(f: Faults) {
    f.clearStaging.Removed? && f.clearLive.Removed? && !f.unpark && !f.restore
  }

  ghost predicate Settled<S(!new)>(start: Node<S>, n: Node<S>, parse: Reader<S>, good: Option<Manifest>) {
    && Agrees(n.host, parse)
    && match good
       case None =>
         n.host.live == start.host.live && n.host.current == start.host.current
         && n.host.readsLive == start.host.readsLive
         && n.status.hash == start.status.hash && n.status.rev == start.status.rev && n.status.word != Ok
       case Some(m) =>
         n.host.live == Some(TreeOf(m)) && parse(TreeOf(m)) == Some(n.host.current)
         && n.status.hash == m.hash && n.status.rev == m.rev && n.status.word != Never
  }

  /** Through any sequence of manifests, with reads, writes and renames failing as they like, what is live
      and loaded is the last manifest put in place, or what was there at the start; and it is the one the
      node reports. */
  lemma {:induction false} AllOrNothing<S(!new)>(start: Node<S>, parse: Reader<S>, events: seq<(Manifest, Faults)>)
    requires Agrees(start.host, parse) && start.status.word == Never
    requires forall k | 0 <= k < |events| :: Undoable(events[k].1)
    ensures Settled(start, Run(start, parse, events), parse, Good(start, parse, events))
  {
    hide Applied, TreeOf, Agrees;
    if events != [] {
      var before, last := events[..|events| - 1], events[|events| - 1];
      AllOrNothing(start, parse, before);
      var n := Run(start, parse, before);
      if !Known(n.status, last.0) {
        if Applied(n.host, parse, last.0, last.1).1.None? {
          SuccessAgrees(n.host, parse, last.0, last.1);
        } else {
          FailureAgrees(n.host, parse, last.0, last.1);
        }
      }
    }
  }

  lemma SuccessAgrees<S(!new)>(h: Host<S>, parse: Reader<S>, m: Manifest, f: Faults)
    requires Applied(h, parse, m, f).1.None? && Undoable(f)
    ensures var h' := Applied(h, parse, m, f).0;
            Agrees(h', parse) && h'.live == Some(TreeOf(m)) && parse(TreeOf(m)) == Some(h'.current)
  {
    hide Applied, TreeOf;
    SuccessMeans(h, parse, m, f);
    assert map[] + TreeOf(m) == TreeOf(m);
  }

  lemma FailureAgrees<S(!new)>(h: Host<S>, parse: Reader<S>, m: Manifest, f: Faults)
    requires Applied(h, parse, m, f).1.Some? && Undoable(f) && Agrees(h, parse)
    ensures var h' := Applied(h, parse, m, f).0;
            Agrees(h', parse) && h'.live == h.live && h'.current == h.current && h'.readsLive == h.readsLive
  {
    hide Applied, TreeOf;
    FailureRestoresTree(h, parse, m, f);
    FailureRestoresStore(h, parse, m, f);
  }
}
