// The file storage engine (node-storage.ts) as a state machine over its log and its memory: the
// operations of its write queue, crashes and compaction, from an empty file on.
module NodeEngine {
  import opened NodeLog
  import opened NodeCatalog
  import opened NodeCompaction
  import P = PageTrees

  // What is below base was written by a compaction, which syncs its file before it replaces the old
  // one; a crash may cut the log anywhere above.
  datatype Engine = Engine(log: Log, catalog: Catalog, base: nat, maxEntries: nat)

  datatype Step =
    | Initialize(main: Name, id: CommitId, roots: seq<P.Root>)
    | Commit(branch: Name, id: CommitId, pages: seq<Entry>, roots: seq<P.Root>)
    | Abandon(pages: seq<Entry>, orphan: seq<Entry>)
    | CreateBranch(name: Name, from: CommitId)
    | WriteMetadata(retains: map<Name, CommitId>)
    | Compact(collection: Collection)
    | Crash(cut: nat)

  // Whether the records can follow the log, each pointing back only.
  ghost predicate CanAppend(log: Log, more: seq<Entry>) {
    Ordered(log) ==> Ordered(log + more)
  }

  ghost predicate Enabled(e: Engine, step: Step) {
    match step
    case Initialize(main, id, roots) =>
      && e.catalog.branches == map[] && CanAppend(e.log, [CommitEntry(id, main, 0, roots)])
      && (forall k :: 0 <= k < |roots| ==> roots[k] == P.Root.None)
    case Commit(b, id, pages, roots) =>
      && b in e.catalog.branches
      && AllPages(pages)
      && CanAppend(e.log, pages + [CommitEntry(id, b, e.catalog.branches[b].sequence + 1, roots)])
      && SoundAll(PagesOf(e.log + pages), roots, e.maxEntries)
    case Abandon(pages, orphan) =>
      && AllPages(pages) && |orphan| <= 1 && (orphan != [] ==> orphan[0].CommitEntry?)
      && CanAppend(e.log, pages + orphan)
    case CreateBranch(b, from) => b !in e.catalog.branches && from in e.catalog.commits
    case WriteMetadata(retains) => forall name :: name in retains ==> retains[name] in e.catalog.commits
    case Compact(collection) => CanCompact(e.log, e.catalog, collection)
    case Crash(cut) => e.base <= cut <= |e.log|
  }

  // The records of a step, in the order in which they are appended.
  ghost function Written(e: Engine, step: Step): seq<Entry>
    requires Enabled(e, step)
  {
    match step
    case Initialize(main, id, roots) =>
      [CommitEntry(id, main, 0, roots)] + [RefEntry(true, main, id, 0)] + [MetaEntry(e.catalog.retains, e.catalog.floors)]
    case Commit(b, id, pages, roots) =>
      var sequence := e.catalog.branches[b].sequence + 1;
      pages + [CommitEntry(id, b, sequence, roots)] + [RefEntry(false, b, id, sequence)]
    case Abandon(pages, orphan) => pages + orphan
    case CreateBranch(b, from) => [RefEntry(true, b, from, 0)]
    case WriteMetadata(retains) => [MetaEntry(retains, e.catalog.floors)]
    case Compact(_) => []
    case Crash(_) => []
  }

  // What the step leaves in memory once its records are written.
  ghost function Remembered(e: Engine, step: Step): Catalog
    requires Enabled(e, step)
  {
    match step
    case Initialize(main, id, _) => e.catalog.(branches := map[main := BranchState(id, 0, id)], commits := map[id := |e.log|])
    case Commit(b, id, pages, roots) =>
      WithCommit(e.catalog, CommitEntry(id, b, e.catalog.branches[b].sequence + 1, roots), |e.log| + |pages|)
    case Abandon(_, _) => e.catalog
    case CreateBranch(b, from) => e.catalog.(branches := e.catalog.branches[b := BranchState(from, 0, from)])
    case WriteMetadata(retains) => e.catalog.(retains := retains)
    case Compact(_) => e.catalog
    case Crash(_) => e.catalog
  }

  function IndexIn(listing: seq<CommitId>, id: CommitId): (i: nat)
    requires id in listing
    ensures i < |listing| && listing[i] == id
  {
    if listing[0] == id then 0 else 1 + IndexIn(listing[1..], id)
  }

  // In memory a compaction keeps the branches and the named retentions, and moves the retained commits.
  function CollectedCatalog(e: Engine, c: Collection): Catalog {
    var commits := Copies(e.log, e.catalog, c);
    Catalog(e.catalog.branches, map id | id in c.listing :: |c.pages| + IndexIn(c.listing, id), e.catalog.retains, Floors(e.catalog, commits))
  }

  ghost function Do(e: Engine, step: Step): Engine
    requires Enabled(e, step)
  {
    match step
    case Compact(c) =>
      var log := Compacted(e.log, e.catalog, c);
      Engine(log, CollectedCatalog(e, c), |log|, e.maxEntries)
    case Crash(cut) => Engine(e.log[..cut], Load(e.log[..cut]), e.base, e.maxEntries)
    case _ => Engine(e.log + Written(e, step), Remembered(e, step), e.base, e.maxEntries)
  }

  // Memory and log after the step: what is appended, and every branch, commit and name.
  ghost predicate Becomes(e: Engine, e': Engine, more: seq<Entry>, branches: map<Name, BranchState>, commits: map<CommitId, Slot>, retains: map<Name, CommitId>) {
    && e'.log == e.log + more
    && e'.catalog.branches == branches && e'.catalog.commits == commits && e'.catalog.retains == retains && e'.catalog.floors == e.catalog.floors
  }

  /** What each operation does: a commit is appended behind its pages, recorded where it lies, and becomes the head of its
      branch alone, one sequence further; a new branch starts at its commit; metadata replaces the names. */
  lemma StepMeans(e: Engine, step: Step)
    requires Enabled(e, step)
    ensures var c := e.catalog;
      match step
      case Initialize(main, id, roots) =>
        Becomes(e, Do(e, step), [CommitEntry(id, main, 0, roots), RefEntry(true, main, id, 0), MetaEntry(c.retains, c.floors)],
                map[main := BranchState(id, 0, id)], map[id := |e.log|], c.retains)
      case Commit(b, id, pages, roots) =>
        Becomes(e, Do(e, step), pages + [CommitEntry(id, b, c.branches[b].sequence + 1, roots), RefEntry(false, b, id, c.branches[b].sequence + 1)],
                c.branches[b := BranchState(id, c.branches[b].sequence + 1, c.branches[b].base)], c.commits[id := |e.log| + |pages|], c.retains)
      case Abandon(pages, orphan) => Becomes(e, Do(e, step), pages + orphan, c.branches, c.commits, c.retains)
      case CreateBranch(b, from) =>
        Becomes(e, Do(e, step), [RefEntry(true, b, from, 0)], c.branches[b := BranchState(from, 0, from)], c.commits, c.retains)
      case WriteMetadata(retains) => Becomes(e, Do(e, step), [MetaEntry(retains, c.floors)], c.branches, c.commits, retains)
      case Compact(_) => Do(e, step).catalog.branches == c.branches && Do(e, step).catalog.retains == c.retains
      case Crash(cut) => Do(e, step).log == e.log[..cut]
  {
    hide CanAppend, CanCompact, SoundAll, Compacted, Copies, Floors, Load;
  }

  // Memory is what the log loads as, and so would be whatever a crash leaves.
  ghost predicate Faithful(e: Engine) {
    Ordered(e.log) && Load(e.log) == e.catalog
  }

  ghost predicate Durable(e: Engine) {
    forall k :: e.base <= k <= |e.log| ==> Kept(e.log[..k], Load(e.log[..k]), e.maxEntries)
  }

  ghost predicate Inv(e: Engine) {
    Faithful(e) && e.base <= |e.log| && e.maxEntries >= 4 && Durable(e)
  }

  function Fresh(maxEntries: nat): Engine {
    Engine([], Catalog(map[], map[], map[], map[]), 0, maxEntries)
  }

  lemma FreshInv(maxEntries: nat)
    requires maxEntries >= 4
    ensures Inv(Fresh(maxEntries))
  {
    EmptyScan();
    var e := Fresh(maxEntries);
    assert Load([]) == e.catalog;
    forall k | e.base <= k <= |e.log| ensures Kept(e.log[..k], Load(e.log[..k]), e.maxEntries) {
      assert e.log[..k] == [];
    }
  }

  lemma InvKept(e: Engine)
    requires Inv(e)
    ensures Kept(e.log, e.catalog, e.maxEntries)
  {
    hide Kept, Load, Ordered;
    assert e.log[..|e.log|] == e.log;
  }

  // ---------- every step keeps log and memory together ----------

  lemma AppendRef(log: Log, c: Entry, ref: Entry)
    requires Ordered(log + [c]) && c.CommitEntry? && ref.RefEntry? && ref.head == c.id
    ensures Ordered(log + [c] + [ref])
  {
    assert (log + [c])[|log|] == c;
    RefInOrder(log + [c], ref, |log|);
  }

  lemma CommitIsFaithful(e: Engine, b: Name, id: CommitId, pages: seq<Entry>, roots: seq<P.Root>)
    requires Faithful(e) && Enabled(e, Commit(b, id, pages, roots))
    ensures Faithful(Do(e, Commit(b, id, pages, roots)))
  {
    hide Load, Ordered, SoundAll;
    var sequence := e.catalog.branches[b].sequence + 1;
    var c, ref := CommitEntry(id, b, sequence, roots), RefEntry(false, b, id, sequence);
    var log := e.log + pages;
    assert e.log + (pages + [c]) == log + [c];
    CutOrdered(log + [c], |log|);
    assert (log + [c])[..|log|] == log;
    LoadPages(e.log, pages);
    LoadCommit(log, c, false);
    AppendRef(log, c, ref);
    assert log + [c] + [ref] == e.log + Written(e, Commit(b, id, pages, roots));
  }

  lemma AbandonIsFaithful(e: Engine, pages: seq<Entry>, orphan: seq<Entry>)
    requires Faithful(e) && Enabled(e, Abandon(pages, orphan))
    ensures Faithful(Do(e, Abandon(pages, orphan)))
  {
    hide Load, Ordered;
    var log := e.log + pages;
    LoadPages(e.log, pages);
    assert e.log + (pages + orphan) == log + orphan;
    if orphan != [] {
      assert orphan == [orphan[0]];
      CutOrdered(log + orphan, |log|);
      assert (log + orphan)[..|log|] == log;
      LoadOrphan(log, orphan[0]);
    } else {
      assert log + orphan == log;
    }
  }

  // A first commit and its ref, on a log that shows no branch.
  lemma LoadFirst(log: Log, catalog: Catalog, m: nat, c: Entry)
    requires Ordered(log) && Load(log) == catalog && Kept(log, catalog, m) && catalog.branches == map[]
    requires Ordered(log + [c]) && c.CommitEntry? && c.sequence == 0
    ensures Load(log + [c]) == catalog
    ensures Load(log + [c] + [RefEntry(true, c.branch, c.id, 0)])
         == catalog.(branches := map[c.branch := BranchState(c.id, 0, c.id)], commits := map[c.id := |log|])
  {
    var ref := RefEntry(true, c.branch, c.id, 0);
    LoadOrphan(log, c);
    ScanMore(log, c);
    ScanMore(log + [c], ref);
    NoCommits(log, catalog, m);
    var after := Load(log + [c] + [ref]);
    assert after.commits == map[c.id := |log|];
  }

  lemma NoCommits(log: Log, catalog: Catalog, m: nat)
    requires Kept(log, catalog, m) && catalog.branches == map[]
    ensures catalog.commits == map[] && catalog.retains == map[]
  {
    forall id ensures id !in catalog.commits {
      assert id in catalog.commits ==> PlacedCommit(log, catalog, id);
    }
  }

  lemma InitializeIsFaithful(e: Engine, main: Name, id: CommitId, roots: seq<P.Root>)
    requires Inv(e) && Enabled(e, Initialize(main, id, roots))
    ensures Faithful(Do(e, Initialize(main, id, roots)))
  {
    hide Load, Ordered, Kept, Durable;
    InvKept(e);
    var c, ref := CommitEntry(id, main, 0, roots), RefEntry(true, main, id, 0);
    LoadFirst(e.log, e.catalog, e.maxEntries, c);
    AppendRef(e.log, c, ref);
    var log := e.log + [c] + [ref];
    MetaInOrder(log, e.catalog.retains, e.catalog.floors);
    LoadMetadata(log, e.catalog.retains, e.catalog.floors);
    assert log + [MetaEntry(e.catalog.retains, e.catalog.floors)] == e.log + Written(e, Initialize(main, id, roots));
  }

  lemma CompactIsFaithful(e: Engine, c: Collection)
    requires Inv(e) && Enabled(e, Compact(c))
    ensures Faithful(Do(e, Compact(c)))
  {
    hide Load, Ordered, Kept, Durable, CanCompact, Compacted, Copies, Floors, EntryOf, CopyOf;
    InvKept(e);
    CompactionKeepsCatalog(e.log, e.catalog, e.maxEntries, c);
    LoadsWritten(e.log, e.catalog, e.maxEntries, c);
    var log := Compacted(e.log, e.catalog, c);
    var loaded := Load(log);
    forall id | id in c.listing ensures loaded.commits[id] == |c.pages| + IndexIn(c.listing, id) {
      SlotInCopy(e.log, e.catalog, c, id);
    }
    assert loaded.commits == CollectedCatalog(e, c).commits;
  }

  lemma SlotInCopy(log: Log, catalog: Catalog, c: Collection, id: CommitId)
    requires Ordered(Compacted(log, catalog, c)) && CanCompact(log, catalog, c) && id in c.listing
    requires id in Load(Compacted(log, catalog, c)).commits
    ensures Load(Compacted(log, catalog, c)).commits[id] == |c.pages| + IndexIn(c.listing, id)
  {
    hide Compacted, InOrder, CopyOf, RecordOf, P.Relocated, P.Ascending;
    var log' := Compacted(log, catalog, c);
    ScannedCommits(log', id);
    var slot := Load(log').commits[id];
    WrittenEntries(log, catalog, c, slot);
    CopyId(log, catalog, c.moved, c.listing[slot - |c.pages|]);
    assert c.listing[slot - |c.pages|] == id;
  }

  /** The log always loads as what memory holds, through compactions and crashes too. */
  lemma StepIsFaithful(e: Engine, step: Step)
    requires Inv(e) && Enabled(e, step)
    ensures Faithful(Do(e, step))
  {
    hide Load, Ordered, Kept, Durable, CanCompact, Compacted, CollectedCatalog, SoundAll;
    match step
    case Initialize(main, id, roots) => InitializeIsFaithful(e, main, id, roots);
    case Commit(b, id, pages, roots) => CommitIsFaithful(e, b, id, pages, roots);
    case Abandon(pages, orphan) => AbandonIsFaithful(e, pages, orphan);
    case CreateBranch(b, from) =>
      FromIsLogged(e.log, from);
      RefInOrder(e.log, RefEntry(true, b, from, 0), Load(e.log).commits[from]);
      LoadBranch(e.log, b, from);
    case WriteMetadata(retains) =>
      MetaInOrder(e.log, retains, e.catalog.floors);
      LoadMetadata(e.log, retains, e.catalog.floors);
    case Compact(c) => CompactIsFaithful(e, c);
    case Crash(cut) => CutOrdered(e.log, cut);
  }

  // ---------- crashes ----------

  predicate Appends(step: Step) {
    !step.Compact? && !step.Crash?
  }

  /** Cut within the records of one step, the log loads as memory was before the step or is after it. */
  lemma CutWithinStep(e: Engine, step: Step, k: nat)
    requires Inv(e) && Enabled(e, step) && Appends(step) && |e.log| <= k <= |e.log + Written(e, step)|
    ensures var cut := Load((e.log + Written(e, step))[..k]); cut == e.catalog || cut == Remembered(e, step)
  {
    hide Load, Ordered, Kept, Durable, SoundAll;
    var written := Written(e, step);
    var n := k - |e.log|;
    assert (e.log + written)[..k] == e.log + written[..n];
    if n == |written| {
      StepIsFaithful(e, step);
      assert written[..n] == written;
    } else if n == 0 {
      assert e.log + written[..0] == e.log;
    } else if step.Initialize? {
      CutInitialize(e, step, n);
    } else {
      CutBeforeRef(e, step, n);
    }
  }

  lemma CutInitialize(e: Engine, step: Step, n: nat)
    requires Inv(e) && step.Initialize? && Enabled(e, step) && 0 < n < |Written(e, step)|
    ensures var cut := Load(e.log + Written(e, step)[..n]); cut == e.catalog || cut == Remembered(e, step)
  {
    hide Load, Ordered, Kept, Durable;
    InvKept(e);
    var written := Written(e, step);
    var c := written[0];
    LoadFirst(e.log, e.catalog, e.maxEntries, c);
    if n == 1 {
      assert written[..n] == [c];
    } else {
      assert written[..n] == [c] + [written[1]];
      assert e.log + ([c] + [written[1]]) == e.log + [c] + [written[1]];
    }
  }

  lemma CutBeforeRef(e: Engine, step: Step, n: nat)
    requires Faithful(e) && Enabled(e, step) && Appends(step) && !step.Initialize? && 0 < n < |Written(e, step)|
    ensures Load(e.log + Written(e, step)[..n]) == e.catalog
  {
    hide Load, Ordered, SoundAll;
    var written := Written(e, step);
    var pages := if step.Commit? then step.pages else step.pages;
    if n <= |pages| {
      assert written[..n] == pages[..n];
      LoadPages(e.log, pages[..n]);
    } else {
      var c := written[|pages|];
      assert written[..n] == pages + [c];
      assert e.log + (pages + [c]) == e.log + pages + [c];
      CutOrdered(e.log + pages + [c], |e.log + pages|);
      assert (e.log + pages + [c])[..|e.log + pages|] == e.log + pages;
      LoadPages(e.log, pages);
      LoadOrphan(e.log + pages, c);
    }
  }

  // ---------- the promises of the catalog ----------

  // What a step remembers, in whatever log holds its records.
  lemma RememberedKept(e: Engine, step: Step)
    requires Inv(e) && Enabled(e, step) && Appends(step)
    ensures step.Initialize? ==> Kept(e.log + [CommitEntry(step.id, step.main, 0, step.roots)], Remembered(e, step), e.maxEntries)
    ensures step.Commit? ==> Kept(e.log + step.pages + [Written(e, step)[|step.pages|]], Remembered(e, step), e.maxEntries)
    ensures !step.Initialize? && !step.Commit? ==> Kept(e.log, Remembered(e, step), e.maxEntries)
  {
    hide Load, Kept, Durable, SoundAll;
    InvKept(e);
    match step
    case Initialize(main, id, roots) => KeptFirst(e.log, e.catalog, e.maxEntries, CommitEntry(id, main, 0, roots));
    case Commit(b, id, pages, roots) => CommitKept(e, b, id, pages, roots);
    case Abandon(_, _) =>
    case CreateBranch(b, from) => KeptBranch(e.log, e.catalog, e.maxEntries, b, from);
    case WriteMetadata(retains) => KeptRetains(e.log, e.catalog, e.maxEntries, retains);
    case _ =>
  }

  lemma CommitKept(e: Engine, b: Name, id: CommitId, pages: seq<Entry>, roots: seq<P.Root>)
    requires Inv(e) && Enabled(e, Commit(b, id, pages, roots))
    ensures var c := CommitEntry(id, b, e.catalog.branches[b].sequence + 1, roots);
      Kept(e.log + pages + [c], WithCommit(e.catalog, c, |e.log| + |pages|), e.maxEntries)
  {
    hide Kept, Durable, SoundAll, Ordered;
    InvKept(e);
    var c := CommitEntry(id, b, e.catalog.branches[b].sequence + 1, roots);
    var log := e.log + pages;
    KeptLonger(e.log, log, e.catalog, e.maxEntries);
    assert e.log + (pages + [c]) == log + [c];
    CutOrdered(log + [c], |log|);
    assert (log + [c])[..|log|] == log;
    LoadPages(e.log, pages);
    LoadOrphan(log, c);
    KeptCommit(log, e.catalog, e.maxEntries, c);
  }

  // Where the records of a step show it.
  lemma CutKept(e: Engine, step: Step, k: nat)
    requires Inv(e) && Enabled(e, step) && Appends(step) && |e.log| <= k <= |e.log + Written(e, step)|
    ensures var cut := (e.log + Written(e, step))[..k]; Kept(cut, Load(cut), e.maxEntries)
  {
    hide Load, Kept, Durable, SoundAll, Ordered;
    var written := Written(e, step);
    var cut := (e.log + written)[..k];
    CutWithinStep(e, step, k);
    InvKept(e);
    assert cut[..|e.log|] == e.log;
    KeptLonger(e.log, cut, e.catalog, e.maxEntries);
    if Load(cut) != e.catalog {
      RememberedKept(e, step);
      ShownAfter(e, step, k);
    }
  }

  lemma ShownAfter(e: Engine, step: Step, k: nat)
    requires Inv(e) && Enabled(e, step) && Appends(step) && |e.log| <= k <= |e.log + Written(e, step)|
    requires var cut := (e.log + Written(e, step))[..k]; Load(cut) != e.catalog && Load(cut) == Remembered(e, step)
    requires step.Initialize? ==> Kept(e.log + [CommitEntry(step.id, step.main, 0, step.roots)], Remembered(e, step), e.maxEntries)
    requires step.Commit? ==> Kept(e.log + step.pages + [Written(e, step)[|step.pages|]], Remembered(e, step), e.maxEntries)
    requires !step.Initialize? && !step.Commit? ==> Kept(e.log, Remembered(e, step), e.maxEntries)
    ensures var cut := (e.log + Written(e, step))[..k]; Kept(cut, Load(cut), e.maxEntries)
  {
    hide Load, Kept, Durable, SoundAll, Ordered;
    var written := Written(e, step);
    var cut := (e.log + written)[..k];
    var n := k - |e.log|;
    assert cut == e.log + written[..n];
    assert n == 0 ==> cut == e.log;
    if step.Initialize? {
      var shown := e.log + [written[0]];
      assert cut[..|shown|] == shown;
      KeptLonger(shown, cut, Remembered(e, step), e.maxEntries);
    } else if step.Commit? {
      var pages := step.pages;
      if n <= |pages| {
        assert written[..n] == pages[..n];
        LoadPages(e.log, pages[..n]);
      } else {
        var shown := e.log + pages + [written[|pages|]];
        assert cut[..|shown|] == shown;
        KeptLonger(shown, cut, Remembered(e, step), e.maxEntries);
      }
    } else {
      KeptLonger(e.log, cut, Remembered(e, step), e.maxEntries);
    }
  }

  /** Every step keeps the invariant: log and memory agree, and whatever a crash leaves is a whole database. */
  lemma StepKeepsInv(e: Engine, step: Step)
    requires Inv(e) && Enabled(e, step)
    ensures Inv(Do(e, step))
  {
    hide Load, Kept, SoundAll, Ordered, CanCompact, Compacted, CollectedCatalog;
    StepIsFaithful(e, step);
    var e' := Do(e, step);
    forall k | e'.base <= k <= |e'.log| ensures Kept(e'.log[..k], Load(e'.log[..k]), e'.maxEntries) {
      if step.Compact? {
        assert e'.log[..k] == e'.log;
        InvKept(e);
        CompactionKeepsCatalog(e.log, e.catalog, e.maxEntries, step.collection);
      } else if step.Crash? {
        assert e'.log[..k] == e.log[..k];
      } else if k <= |e.log| {
        assert e'.log[..k] == e.log[..k];
      } else {
        CutKept(e, step, k);
      }
    }
  }

  // ---------- runs ----------

  ghost predicate IsRun(states: seq<Engine>, steps: seq<Step>) {
    && |states| == |steps| + 1 && states[0] == Fresh(states[0].maxEntries) && states[0].maxEntries >= 4
    && forall i {:trigger steps[i]} :: 0 <= i < |steps| ==> Enabled(states[i], steps[i]) && states[i + 1] == Do(states[i], steps[i])
  }

  lemma {:induction false} RunKeepsInv(states: seq<Engine>, steps: seq<Step>, i: nat)
    requires IsRun(states, steps) && i < |states|
    ensures Inv(states[i])
  {
    hide Inv, Enabled, Do;
    if i > 0 {
      RunKeepsInv(states, steps, i - 1);
      assert steps[i - 1] == steps[i - 1];
      StepKeepsInv(states[i - 1], steps[i - 1]);
    } else {
      FreshInv(states[0].maxEntries);
    }
  }

  /** Wherever a crash cuts the log, what is loaded is a catalog that the running database had before, and
      no operation is lost whose records all survived. */
  lemma {:induction false} CrashRecoversAState(states: seq<Engine>, steps: seq<Step>, i: nat, k: nat) returns (m: nat)
    requires IsRun(states, steps) && i < |states| && states[i].base <= k <= |states[i].log|
    ensures m <= i && Load(states[i].log[..k]) == states[m].catalog
    ensures forall j :: 0 <= j <= i && |states[j].log| <= k ==> j <= m
    decreases i
  {
    hide Load, Ordered, Enabled, Written, Remembered, Durable, Compacted, CollectedCatalog;
    RunKeepsInv(states, steps, i);
    assert states[i].log[..|states[i].log|] == states[i].log;
    m := i;
    if k < |states[i].log| {
      assert i > 0 && steps[i - 1] == steps[i - 1];
      var e, step := states[i - 1], steps[i - 1];
      RunKeepsInv(states, steps, i - 1);
      StillBefore(e, step, k);
      if k <= |e.log| {
        m := CrashRecoversAState(states, steps, i - 1, k);
      } else {
        CutWithinStep(e, step, k);
        m := if Load(states[i].log[..k]) == states[i].catalog then i else i - 1;
      }
    }
  }

  // A cut that loses something of a step's log is a cut of the log before, or within the step's records.
  lemma StillBefore(e: Engine, step: Step, k: nat)
    requires Inv(e) && Enabled(e, step) && Do(e, step).base <= k < |Do(e, step).log|
    ensures e.base <= k && (k <= |e.log| ==> Do(e, step).log[..k] == e.log[..k])
    ensures k > |e.log| ==> Appends(step) && k <= |e.log + Written(e, step)| && Do(e, step).log == e.log + Written(e, step) && Do(e, step).catalog == Remembered(e, step)
  {
    hide Load, Durable, Faithful;
  }
}
