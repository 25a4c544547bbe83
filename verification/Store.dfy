/**
 * Storing through a journal, and loading with recovery, as a machine that may crash at any step
 * (src/carrier/ela_carrier.c:709-774, 980-1002).  Until fsync returns, a crash leaves any prefix
 * of what was written to the journal.
 */
module Store {
  import opened Wrappers
  import opened Image

  datatype Disk = Disk(main: Option<Bytes>, journal: Option<Bytes>)

  datatype Pc =
    | Off
    | Loading                     // about to look at the journal
    | Promoting                   // the journal is valid: about to remove the main file
    | Renaming                    // and to rename the journal
    | Idle
    | Writing(v: Saved, n: nat)   // `n` bytes of the image of `v` are written to the journal
    | Synced(v: Saved)            // fsync returned: about to remove the main file
    | Swapping(v: Saved)          // and to rename the journal

  /** `committed` is what the next load is expected to return. */
  datatype Machine = Machine(disk: Disk, pc: Pc, committed: Option<Saved>)

  /** What loading makes of the whole image of `v`. */
  function Value(v: Saved): Option<Saved> { if Loadable(v) then Some(v) else None }

  /** A complete journal counts when it can be loaded; the main file is still there otherwise. */
  function Committed(before: Option<Saved>, v: Saved): Option<Saved> { if Loadable(v) then Some(v) else before }

  function LoadFile(h: Hash, file: Option<Bytes>): Option<Saved> {
    if file.Some? then Load(h, file.value) else None
  }

  /** load_persistence_data: the journal first, then the main file. */
  function Recover(h: Hash, disk: Disk): Option<Saved> {
    if LoadFile(h, disk.journal).Some? then LoadFile(h, disk.journal) else LoadFile(h, disk.main)
  }

  ghost predicate StepLoading(h: Hash, x: Machine, y: Machine) {
    || (x.pc == Off && y == x.(pc := Loading))
    || (x.pc == Loading && y == x.(pc := if LoadFile(h, x.disk.journal).Some? then Promoting else Idle))
    || (x.pc == Promoting && y == x.(pc := Renaming, disk := x.disk.(main := None)))
    || (x.pc == Renaming && y == x.(pc := Idle, disk := Disk(x.disk.journal, None)))
  }

  ghost predicate StepStoring(h: Hash, x: Machine, y: Machine) {
    || (exists v :: x.pc == Idle && Storable(v) && y == x.(pc := Writing(v, 0), disk := x.disk.(journal := Some([]))))
    || (x.pc.Writing? && Storable(x.pc.v) &&
          (exists m :: x.pc.n <= m <= |ImageOf(h, x.pc.v)| &&
             y == x.(pc := Writing(x.pc.v, m), disk := x.disk.(journal := Some(ImageOf(h, x.pc.v)[..m])))))
    || (x.pc.Writing? && y == x.(pc := Idle, disk := x.disk.(journal := None)))  // write or fsync failed
    || (x.pc.Writing? && Storable(x.pc.v) && x.pc.n == |ImageOf(h, x.pc.v)| &&
          y == x.(pc := Synced(x.pc.v), committed := Committed(x.committed, x.pc.v)))
    || (x.pc.Synced? && y == Machine(x.disk.(main := None), Swapping(x.pc.v), Value(x.pc.v)))
    || (x.pc.Swapping? && y == x.(pc := Idle, disk := Disk(x.disk.journal, None)))
  }

  ghost predicate StepCrash(h: Hash, x: Machine, y: Machine) {
    || (!x.pc.Writing? && y == x.(pc := Off))
    || (x.pc.Writing? && Storable(x.pc.v) && exists k :: Torn(h, x, y, k))
  }

  /** A crash that leaves the first `k` bytes of the journal. */
  predicate Torn(h: Hash, x: Machine, y: Machine, k: nat)
    requires x.pc.Writing? && Storable(x.pc.v)
  {
    var image := ImageOf(h, x.pc.v);
    && k <= x.pc.n <= |image|
    && y == Machine(x.disk.(journal := Some(image[..k])), Off,
                    if k == |image| then Committed(x.committed, x.pc.v) else x.committed)
  }

  ghost predicate Step(h: Hash, x: Machine, y: Machine) {
    StepLoading(h, x, y) || StepStoring(h, x, y) || StepCrash(h, x, y)
  }

  ghost predicate Steps(h: Hash, xs: seq<Machine>) {
    forall i :: 0 <= i < |xs| - 1 ==> Step(h, xs[i], xs[i + 1])
  }

  /** A run starts with any disk and no process. */
  ghost predicate Run(h: Hash, xs: seq<Machine>) {
    xs != [] && xs[0].pc == Off && xs[0].committed == Recover(h, xs[0].disk) && Steps(h, xs)
  }

  ghost predicate Inv(h: Hash, x: Machine) {
    match x.pc
    case Off => Recover(h, x.disk) == x.committed
    case Loading => Recover(h, x.disk) == x.committed
    case Promoting => LoadFile(h, x.disk.journal).Some? && LoadFile(h, x.disk.journal) == x.committed
    case Renaming => LoadFile(h, x.disk.journal).Some? && LoadFile(h, x.disk.journal) == x.committed && x.disk.main == None
    case Idle => LoadFile(h, x.disk.journal) == None && LoadFile(h, x.disk.main) == x.committed
    case Writing(v, n) =>
      && Storable(v) && n <= |ImageOf(h, v)|
      && x.disk.journal == Some(ImageOf(h, v)[..n])
      && LoadFile(h, x.disk.main) == x.committed
    case Synced(v) => LoadFile(h, x.disk.journal) == Value(v) && Recover(h, x.disk) == x.committed
    case Swapping(v) => LoadFile(h, x.disk.journal) == Value(v) == x.committed && x.disk.main == None
  }

  /** A journal holding the first `k` bytes of an image counts iff it is complete and not too large. */
  lemma TornJournal(h: Hash, v: Saved, k: nat)
    requires Hashes(h) && Storable(v) && k <= |ImageOf(h, v)|
    ensures Load(h, ImageOf(h, v)[..k]) == if k == |ImageOf(h, v)| then Value(v) else None
  {
    if k < |ImageOf(h, v)| {
      PrefixRejected(h, v, k);
    } else {
      LoadsBackIff(h, v);
      assert ImageOf(h, v)[..k] == ImageOf(h, v);
    }
  }

  lemma InvLoading(h: Hash, x: Machine, y: Machine)
    requires Inv(h, x) && StepLoading(h, x, y)
    ensures Inv(h, y)
  {
  }

  lemma InvStoring(h: Hash, x: Machine, y: Machine)
    requires Hashes(h) && Inv(h, x) && StepStoring(h, x, y)
    ensures Inv(h, y)
  {
    if x.pc.Writing? {
      TornJournal(h, x.pc.v, x.pc.n);
    } else if y.pc.Writing? {
      assert ImageOf(h, y.pc.v)[..0] == [];
    }
  }

  lemma InvCrash(h: Hash, x: Machine, y: Machine)
    requires Hashes(h) && Inv(h, x) && StepCrash(h, x, y)
    ensures Inv(h, y)
  {
    if x.pc.Writing? {
      var k :| Torn(h, x, y, k);
      TornJournal(h, x.pc.v, k);
    }
  }

  lemma InvStep(h: Hash, x: Machine, y: Machine)
    requires Hashes(h) && Inv(h, x) && Step(h, x, y)
    ensures Inv(h, y)
  {
    if StepLoading(h, x, y) {
      InvLoading(h, x, y);
    } else if StepStoring(h, x, y) {
      InvStoring(h, x, y);
    } else {
      InvCrash(h, x, y);
    }
  }

  lemma {:induction false} InvSteps(h: Hash, xs: seq<Machine>, i: nat)
    requires Hashes(h) && Steps(h, xs) && i < |xs| && Inv(h, xs[0])
    ensures Inv(h, xs[i])
  {
    if i > 0 {
      InvSteps(h, xs, i - 1);
      InvStep(h, xs[i - 1], xs[i]);
    }
  }

  /**
   * Whatever stores, loads and crashes came before, a stopped system loads the committed value, and
   * a process that finished loading finds it in the main file.
   */
  lemma RecoversCommitted(h: Hash, xs: seq<Machine>, i: nat)
    requires Hashes(h) && Run(h, xs) && i < |xs|
    ensures xs[i].pc == Off ==> Recover(h, xs[i].disk) == xs[i].committed
    ensures xs[i].pc == Idle ==> LoadFile(h, xs[i].disk.main) == xs[i].committed
    ensures xs[i].pc == Idle ==> Recover(h, xs[i].disk) == xs[i].committed
  {
    InvSteps(h, xs, i);
  }

  predicate Stores(pc: Pc, v: Saved) {
    pc.Writing? || pc.Synced? || pc.Swapping? ==> pc.v == v
  }

  /** Only a store changes what is committed; a value that cannot be loaded when the main file is removed. */
  lemma OnlyStoresCommit(h: Hash, x: Machine, y: Machine)
    requires Step(h, x, y)
    ensures y.committed == x.committed || ((x.pc.Writing? || x.pc.Synced?) && y.committed == Value(x.pc.v))
    ensures y.pc.Synced? && !x.pc.Synced? && Loadable(y.pc.v) ==> y.committed == Some(y.pc.v)
    ensures y.pc.Swapping? && !x.pc.Swapping? ==> y.committed == Value(y.pc.v)
  {
  }

  lemma StoresOn(h: Hash, x: Machine, y: Machine, v: Saved)
    requires Step(h, x, y) && Stores(x.pc, v)
    ensures y.committed == x.committed || y.committed == Value(v)
    ensures y.pc.Writing? || Stores(y.pc, v)
  {
    OnlyStoresCommit(h, x, y);
  }

  lemma {:induction false} OldOrNew(h: Hash, xs: seq<Machine>, a: nat, b: nat, v: Saved)
    requires Steps(h, xs) && a <= b < |xs| && Stores(xs[a].pc, v)
    requires forall i :: a <= i < b && xs[i].pc.Writing? ==> xs[i].pc.v == v
    ensures xs[b].committed == xs[a].committed || xs[b].committed == Value(v)
    ensures xs[b].pc.Writing? || Stores(xs[b].pc, v)
    decreases b
  {
    if a < b {
      OldOrNew(h, xs, a, b - 1, v);
      StoresOn(h, xs[b - 1], xs[b], v);
    }
  }

  /**
   * Crash atomicity: while `v` is the only value being stored, however the stores are cut short
   * and however often loading is tried, a stopped system loads the old value or what loading makes
   * of `v`.  It is the latter once the main file was removed, and already once fsync has returned
   * if `v` can be loaded.
   */
  lemma StoreIsAtomic(h: Hash, xs: seq<Machine>, a: nat, b: nat, v: Saved)
    requires Hashes(h) && Run(h, xs) && a <= b < |xs| && xs[a].pc == Idle && xs[b].pc == Off
    requires forall i :: a <= i < b && xs[i].pc.Writing? ==> xs[i].pc.v == v
    ensures Recover(h, xs[b].disk) == LoadFile(h, xs[a].disk.main) || Recover(h, xs[b].disk) == Value(v)
    ensures (exists i :: a <= i < b && (xs[i].pc == Swapping(v) || (xs[i].pc == Synced(v) && Loadable(v)))) ==>
              Recover(h, xs[b].disk) == Value(v)
  {
    InvSteps(h, xs, a);
    InvSteps(h, xs, b);
    OldOrNew(h, xs, a, b, v);
    if i :| a <= i < b && (xs[i].pc == Swapping(v) || (xs[i].pc == Synced(v) && Loadable(v))) {
      InvSteps(h, xs, i);
      OldOrNew(h, xs, i, b, v);
    }
  }

  /**
   * Loading and crashing, as often as it may be, leave the files alone, or move a journal that can be
   * loaded into the place of the main file.
   */
  lemma {:induction false} OnlyGoodJournalIsPromoted(h: Hash, xs: seq<Machine>, i: nat)
    requires Run(h, xs) && i < |xs| && forall k :: 0 <= k <= i ==> !xs[k].pc.Writing?
    ensures var disk, now := xs[0].disk, xs[i].disk;
            && (now == disk || (LoadFile(h, disk.journal).Some? && (now == Disk(None, disk.journal) || now == Disk(disk.journal, None))))
            && !xs[i].pc.Synced? && !xs[i].pc.Swapping?
            && (xs[i].pc.Promoting? || xs[i].pc.Renaming? ==> LoadFile(h, now.journal).Some?)
            && (xs[i].pc.Renaming? ==> now == Disk(None, disk.journal))
            && (xs[i].pc == Promoting ==> now == disk || now == Disk(None, disk.journal))
    decreases i
  {
    if i > 0 {
      OnlyGoodJournalIsPromoted(h, xs, i - 1);
      assert Step(h, xs[i - 1], xs[i]);
    }
  }

  /** A journal that is cut short, damaged or foreign never becomes the main file, and never hides it. */
  lemma BadJournalIsIgnored(h: Hash, xs: seq<Machine>, i: nat)
    requires Hashes(h) && Run(h, xs) && i < |xs| && forall k :: 0 <= k <= i ==> !xs[k].pc.Writing?
    requires xs[0].disk.journal.Some? && forall v :: !Genuine(h, xs[0].disk.journal.value, v)
    ensures xs[i].disk == xs[0].disk && Recover(h, xs[i].disk) == LoadFile(h, xs[0].disk.main)
  {
    var journal := xs[0].disk.journal.value;
    if Load(h, journal).Some? {
      LoadedIff(h, journal, Load(h, journal).value);
    }
    OnlyGoodJournalIsPromoted(h, xs, i);
  }

  // ---------------------------------------------------------------- when a store can lose data

  /** A store of `v` has just opened the journal, and cut it off. */
  function Begun(h: Hash, disk: Disk, v: Saved): Machine {
    Machine(disk.(journal := Some([])), Writing(v, 0), LoadFile(h, disk.main))
  }

  /** What happens from there on, until the system stops; nothing but `v` is stored. */
  ghost predicate RunFrom(h: Hash, x: Machine, xs: seq<Machine>, v: Saved) {
    && xs != [] && xs[0] == x && xs[|xs| - 1].pc == Off && Steps(h, xs)
    && forall i :: 0 <= i < |xs| - 1 && xs[i].pc.Writing? ==> xs[i].pc.v == v
  }

  predicate OldOrNewFound(h: Hash, disk: Disk, x: Machine, v: Saved) {
    Recover(h, x.disk) == Recover(h, disk) || Recover(h, x.disk) == Some(v)
  }

  /** A store of `v` begun on this disk leaves the old value or the new one, in every run. */
  ghost predicate Atomic(h: Hash, disk: Disk, v: Saved) {
    forall xs: seq<Machine> :: RunFrom(h, Begun(h, disk, v), xs, v) ==> OldOrNewFound(h, disk, xs[|xs| - 1], v)
  }

  /** The journal holds nothing that cutting it off would lose. */
  predicate JournalIsSpare(h: Hash, disk: Disk, v: Saved) {
    LoadFile(h, disk.journal) == None || LoadFile(h, disk.journal) == LoadFile(h, disk.main) || LoadFile(h, disk.main) == Some(v)
  }

  /**
   * A store leaves, in every run, the old value or the new one, iff the journal held no value of its
   * own (nothing valid, or what the main file has too, or else the main file already has the new
   * value), and the new value can be loaded unless there is no old one.
   */
  lemma AtomicIff(h: Hash, disk: Disk, v: Saved)
    requires Hashes(h) && Storable(v)
    ensures Atomic(h, disk, v) <==> JournalIsSpare(h, disk, v) && (Loadable(v) || Recover(h, disk) == None)
  {
    if !JournalIsSpare(h, disk, v) {
      CutOffJournalIsLost(h, disk, v);
    } else if !Loadable(v) && Recover(h, disk) != None {
      BothAreLost(h, disk, v);
    } else {
      forall xs: seq<Machine> | RunFrom(h, Begun(h, disk, v), xs, v)
        ensures OldOrNewFound(h, disk, xs[|xs| - 1], v)
      {
        assert ImageOf(h, v)[..0] == [];
        InvSteps(h, xs, |xs| - 1);
        OldOrNew(h, xs, 0, |xs| - 1, v);
      }
    }
  }

  /** A process that has loaded stores safely iff the new value can be loaded or there is no old one. */
  lemma AtomicAfterLoadingIff(h: Hash, xs: seq<Machine>, i: nat, v: Saved)
    requires Hashes(h) && Run(h, xs) && i < |xs| && xs[i].pc == Idle && Storable(v)
    ensures Atomic(h, xs[i].disk, v) <==> Loadable(v) || xs[i].committed == None
  {
    InvSteps(h, xs, i);
    AtomicIff(h, xs[i].disk, v);
  }

  /** A crash right after the journal was opened loses the value that only the journal held. */
  lemma CutOffJournalIsLost(h: Hash, disk: Disk, v: Saved)
    requires Hashes(h) && Storable(v) && !JournalIsSpare(h, disk, v)
    ensures !Atomic(h, disk, v)
  {
    var x := Begun(h, disk, v);
    var y := x.(pc := Off);
    var image := ImageOf(h, v);
    assert image[..0] == [] && |image| > 0;
    assert Torn(h, x, y, 0);
    assert Load(h, []) == None;
    var xs := [x, y];
    assert RunFrom(h, x, xs, v) && !OldOrNewFound(h, disk, xs[|xs| - 1], v);
  }

  /** A finished store of a value that is too large: neither it nor the old value is found. */
  lemma BothAreLost(h: Hash, disk: Disk, v: Saved)
    requires Hashes(h) && Storable(v) && !Loadable(v) && Recover(h, disk) != None
    ensures !Atomic(h, disk, v)
  {
    var image := ImageOf(h, v);
    var x := Begun(h, disk, v);
    var full := x.(pc := Writing(v, |image|), disk := x.disk.(journal := Some(image)));
    var swapping := Machine(Disk(None, Some(image)), Swapping(v), None);
    var xs := [x, full, full.(pc := Synced(v)), swapping, swapping.(pc := Off)];
    assert image[..|image|] == image;
    TornJournal(h, v, |image|);
    assert StepStoring(h, x, full);
    assert RunFrom(h, x, xs, v) && !OldOrNewFound(h, disk, xs[|xs| - 1], v);
  }
}
