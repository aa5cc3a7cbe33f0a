// The log of the file storage engine (node-storage.ts): what loading it shows, and what a cut leaves
// of it. A record's slot is its place in the log; PageStore shows that a file cut at any byte keeps
// whole records from the front.
module NodeLog {
  import P = PageTrees

  type Name = nat
  type CommitId = nat
  type Slot = nat

  // The roots of a commit are those of its tables and indexes, in the order of the manifest.
  datatype Entry =
    | PageEntry(page: P.Page)
    | CommitEntry(id: CommitId, branch: Name, sequence: nat, roots: seq<P.Root>)
    | RefEntry(create: bool, branch: Name, head: CommitId, sequence: nat)
    | MetaEntry(retains: map<Name, CommitId>, floors: map<Name, nat>)

  type Log = seq<Entry>

  type CommitRecord = e: Entry | e.CommitEntry? witness CommitEntry(0, 0, 0, [])

  datatype BranchState = BranchState(head: CommitId, sequence: nat, base: CommitId)

  datatype Catalog = Catalog(
    branches: map<Name, BranchState>,
    commits: map<CommitId, Slot>,
    retains: map<Name, CommitId>,
    floors: map<Name, nat>)

  // ---------- loading ----------

  // One record, as load reads it; published collects the heads of all refs.
  datatype Scan = Scan(catalog: Catalog, published: set<CommitId>)

  function Read(s: Scan, e: Entry, slot: Slot): Scan {
    match e
    case PageEntry(_) => s
    case CommitEntry(id, _, _, _) => s.(catalog := s.catalog.(commits := s.catalog.commits[id := slot]))
    case RefEntry(create, b, head, sequence) =>
      var base := if !create && b in s.catalog.branches then s.catalog.branches[b].base else head;
      Scan(s.catalog.(branches := s.catalog.branches[b := BranchState(head, sequence, base)]), s.published + {head})
    case MetaEntry(retains, floors) => s.(catalog := s.catalog.(retains := retains, floors := floors))
  }

  function ScanLog(log: Log): Scan {
    if log == [] then Scan(Catalog(map[], map[], map[], map[]), {})
    else Read(ScanLog(log[..|log| - 1]), log[|log| - 1], |log| - 1)
  }

  // Commits whose ref never made it are dropped.
  function Load(log: Log): Catalog {
    var s := ScanLog(log);
    s.catalog.(commits := map id | id in s.catalog.commits && id in s.published :: s.catalog.commits[id])
  }

  // ---------- order ----------

  predicate IsPage(log: Log, slot: Slot, before: nat)
    requires before <= |log|
  {
    slot < before && log[slot].PageEntry?
  }

  // Every record refers to earlier records only.
  predicate InOrder(log: Log, i: nat)
    requires i < |log|
  {
    match log[i]
    case PageEntry(page) => forall k :: 0 <= k < |P.ChildrenOf(page)| ==> IsPage(log, P.ChildrenOf(page)[k], i)
    case CommitEntry(id, _, _, roots) =>
      && (forall k :: 0 <= k < |roots| && roots[k].Some? ==> IsPage(log, roots[k].value, i))
      && (forall j :: 0 <= j < i && log[j].CommitEntry? ==> log[j].id != id)
    case RefEntry(_, _, head, _) => exists j :: 0 <= j < i && log[j].CommitEntry? && log[j].id == head
    case MetaEntry(_, _) => true
  }

  ghost predicate Ordered(log: Log) {
    forall i :: 0 <= i < |log| ==> InOrder(log, i)
  }

  /** Cutting an ordered log leaves an ordered log. */
  lemma CutOrdered(log: Log, k: nat)
    requires Ordered(log) && k <= |log|
    ensures Ordered(log[..k])
  {
    var cut := log[..k];
    forall i | 0 <= i < |cut| ensures InOrder(cut, i) {
      assert InOrder(log, i) && cut[i] == log[i];
      match log[i]
      case PageEntry(page) =>
        forall c | 0 <= c < |P.ChildrenOf(page)| ensures IsPage(cut, P.ChildrenOf(page)[c], i) {
          assert IsPage(log, P.ChildrenOf(page)[c], i);
        }
      case CommitEntry(_, _, _, roots) =>
        forall c | 0 <= c < |roots| && roots[c].Some? ensures IsPage(cut, roots[c].value, i) {
          assert IsPage(log, roots[c].value, i);
        }
      case RefEntry(_, _, head, _) =>
        var j :| 0 <= j < i && log[j].CommitEntry? && log[j].id == head;
        assert cut[j] == log[j];
      case MetaEntry(_, _) =>
    }
  }

  // The commit of an id is where the scan says, and nowhere else.
  lemma {:induction false} ScannedCommits(log: Log, id: CommitId)
    requires Ordered(log)
    ensures id in ScanLog(log).catalog.commits ==>
      var slot := ScanLog(log).catalog.commits[id]; slot < |log| && log[slot].CommitEntry? && log[slot].id == id
    ensures forall j :: 0 <= j < |log| && log[j].CommitEntry? && log[j].id == id ==> id in ScanLog(log).catalog.commits
  {
    if log != [] {
      var init := log[..|log| - 1];
      CutOrdered(log, |log| - 1);
      ScannedCommits(init, id);
      forall j | 0 <= j < |log| && log[j].CommitEntry? && log[j].id == id ensures id in ScanLog(log).catalog.commits {
        assert j < |init| ==> init[j] == log[j];
      }
    }
  }

  // Every head, base and published id has its commit in the log.
  lemma {:induction false} ScannedHeads(log: Log)
    requires Ordered(log)
    ensures var s := ScanLog(log);
      && s.published <= s.catalog.commits.Keys
      && forall b :: b in s.catalog.branches ==> s.catalog.branches[b].head in s.published && s.catalog.branches[b].base in s.published
  {
    if log != [] {
      var init, last := log[..|log| - 1], log[|log| - 1];
      CutOrdered(log, |log| - 1);
      ScannedHeads(init);
      if last.RefEntry? {
        assert InOrder(log, |log| - 1);
        var j :| 0 <= j < |log| - 1 && log[j].CommitEntry? && log[j].id == last.head;
        assert init[j] == log[j];
        ScannedCommits(init, last.head);
      }
    }
  }

  // ---------- pages ----------

  // The page store that the log is.
  function PagesOf(log: Log): P.Pages {
    map i | 0 <= i < |log| && log[i].PageEntry? :: log[i].page
  }

  lemma PagesGrow(log: Log, longer: Log)
    requires log <= longer
    ensures P.Extends(PagesOf(log), PagesOf(longer))
  {
    assert forall i :: 0 <= i < |log| ==> longer[i] == log[i];
  }

  // A tree of the log uses no page after its root.
  lemma {:induction false} TreeIsKept(log: Log, k: nat, id: Slot, h: nat)
    requires Ordered(log) && k <= |log| && id < k && P.Shaped(PagesOf(log), id, h)
    ensures P.Shaped(PagesOf(log[..k]), id, h)
    decreases h
  {
    var pages, cut := PagesOf(log), PagesOf(log[..k]);
    assert cut[id] == pages[id];
    match pages[id]
    case Leaf(_) =>
    case Internal(_, children) =>
      forall i | 0 <= i < |children| ensures P.Shaped(cut, children[i], h - 1) {
        assert InOrder(log, id) && IsPage(log, P.ChildrenOf(log[id].page)[i], id);
        TreeIsKept(log, k, children[i], h - 1);
      }
  }

  /** After any cut, every recovered head has its commit record, and every tree of it in what was kept. */
  lemma RecoveredHeadsAreWhole(log: Log, k: nat, b: Name)
    requires Ordered(log) && k <= |log| && b in Load(log[..k]).branches
    ensures var catalog := Load(log[..k]); var head := catalog.branches[b].head;
      && head in catalog.commits && catalog.branches[b].base in catalog.commits
      && var slot := catalog.commits[head];
         && slot < k && log[slot].CommitEntry? && log[slot].id == head
         && forall r, h: nat :: 0 <= r < |log[slot].roots| && log[slot].roots[r].Some? && P.Shaped(PagesOf(log), log[slot].roots[r].value, h) ==>
              P.Shaped(PagesOf(log[..k]), log[slot].roots[r].value, h)
  {
    CutOrdered(log, k);
    ScannedHeads(log[..k]);
    var catalog := Load(log[..k]);
    var head := catalog.branches[b].head;
    ScannedCommits(log[..k], head);
    var slot := catalog.commits[head];
    assert InOrder(log, slot);
    forall r, h: nat | 0 <= r < |log[slot].roots| && log[slot].roots[r].Some? && P.Shaped(PagesOf(log), log[slot].roots[r].value, h)
      ensures P.Shaped(PagesOf(log[..k]), log[slot].roots[r].value, h)
    {
      assert IsPage(log, log[slot].roots[r].value, slot);
      TreeIsKept(log, k, log[slot].roots[r].value, h);
    }
  }

  // ---------- reading what was appended ----------

  predicate AllPages(pages: seq<Entry>) {
    forall i :: 0 <= i < |pages| ==> pages[i].PageEntry?
  }

  lemma ScanMore(log: Log, e: Entry)
    ensures ScanLog(log + [e]) == Read(ScanLog(log), e, |log|)
  {
    assert (log + [e])[..|log|] == log;
  }

  lemma {:induction false} ScanPages(log: Log, pages: seq<Entry>)
    requires AllPages(pages)
    ensures ScanLog(log + pages) == ScanLog(log)
  {
    if pages == [] {
      assert log + pages == log;
    } else {
      var init := pages[..|pages| - 1];
      ScanPages(log, init);
      ScanMore(log + init, pages[|pages| - 1]);
      assert log + init + [pages[|pages| - 1]] == log + pages;
    }
  }

  // A commit without its ref changes nothing that loading shows.
  lemma LoadOrphan(log: Log, c: Entry)
    requires Ordered(log) && Ordered(log + [c]) && c.CommitEntry?
    ensures Load(log + [c]) == Load(log)
    ensures c.id !in ScanLog(log).published && c.id !in ScanLog(log).catalog.commits
  {
    ScanMore(log, c);
    ScannedHeads(log);
    ScannedCommits(log, c.id);
    NewId(log, c);
    assert Load(log + [c]).commits == Load(log).commits;
  }

  lemma NewId(log: Log, c: Entry)
    requires Ordered(log + [c]) && c.CommitEntry?
    ensures forall j :: 0 <= j < |log| && log[j].CommitEntry? ==> log[j].id != c.id
  {
    var longer := log + [c];
    assert InOrder(longer, |log|);
    assert forall j :: 0 <= j < |log| ==> longer[j] == log[j];
  }

  lemma LoadCommit(log: Log, c: Entry, create: bool)
    requires Ordered(log) && Ordered(log + [c]) && c.CommitEntry? && c.branch in Load(log).branches && !create
    ensures var catalog := Load(log); var state := catalog.branches[c.branch];
      Load(log + [c] + [RefEntry(create, c.branch, c.id, c.sequence)])
        == catalog.(branches := catalog.branches[c.branch := BranchState(c.id, c.sequence, state.base)], commits := catalog.commits[c.id := |log|])
  {
    var ref := RefEntry(create, c.branch, c.id, c.sequence);
    LoadOrphan(log, c);
    ScanMore(log, c);
    ScanMore(log + [c], ref);
    var after := Load(log + [c] + [ref]);
    assert after.commits == Load(log).commits[c.id := |log|];
  }

  lemma LoadBranch(log: Log, b: Name, from: CommitId)
    requires Ordered(log) && from in Load(log).commits
    ensures Load(log + [RefEntry(true, b, from, 0)]) == Load(log).(branches := Load(log).branches[b := BranchState(from, 0, from)])
  {
    ScanMore(log, RefEntry(true, b, from, 0));
    assert Load(log + [RefEntry(true, b, from, 0)]).commits == Load(log).commits;
  }

  lemma LoadMetadata(log: Log, retains: map<Name, CommitId>, floors: map<Name, nat>)
    ensures Load(log + [MetaEntry(retains, floors)]) == Load(log).(retains := retains, floors := floors)
  {
    ScanMore(log, MetaEntry(retains, floors));
    assert Load(log + [MetaEntry(retains, floors)]).commits == Load(log).commits;
  }

  lemma RefInOrder(log: Log, ref: Entry, j: nat)
    requires Ordered(log) && ref.RefEntry? && j < |log| && log[j].CommitEntry? && log[j].id == ref.head
    ensures Ordered(log + [ref])
  {
    var longer := log + [ref];
    assert longer[..|log|] == log;
    forall i | 0 <= i < |longer| ensures InOrder(longer, i) {
      if i < |log| {
        InLonger(log, ref, i);
      } else {
        assert longer[j] == log[j];
      }
    }
  }

  lemma InLonger(log: Log, e: Entry, i: nat)
    requires i < |log| && InOrder(log, i)
    ensures InOrder(log + [e], i)
  {
    var longer := log + [e];
    assert forall j :: 0 <= j < |log| ==> longer[j] == log[j];
    if log[i].RefEntry? {
      var j :| 0 <= j < i && log[j].CommitEntry? && log[j].id == log[i].head;
      assert longer[j] == log[j];
    }
  }

  lemma MetaInOrder(log: Log, retains: map<Name, CommitId>, floors: map<Name, nat>)
    requires Ordered(log)
    ensures Ordered(log + [MetaEntry(retains, floors)])
  {
    forall i | 0 <= i < |log| ensures InOrder(log + [MetaEntry(retains, floors)], i) {
      InLonger(log, MetaEntry(retains, floors), i);
    }
  }

  lemma FromIsLogged(log: Log, id: CommitId)
    requires Ordered(log) && id in Load(log).commits
    ensures var j := Load(log).commits[id]; j < |log| && log[j].CommitEntry? && log[j].id == id
  {
    ScannedCommits(log, id);
  }

  lemma LoadPages(log: Log, pages: seq<Entry>)
    requires AllPages(pages)
    ensures Load(log + pages) == Load(log)
  {
    ScanPages(log, pages);
  }
}
