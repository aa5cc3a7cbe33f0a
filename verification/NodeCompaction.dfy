// Compaction of the file storage engine's log (collectGarbageNow in node-storage.ts): what is written
// for a set of retained commits, and what loading it shows.
module NodeCompaction {
  import opened NodeLog
  import opened NodeCatalog
  import P = PageTrees
  import SpillSort

  // ---------- history floors ----------

  function FloorOf(sequence: nat, retained: set<nat>): nat {
    if sequence > 0 && sequence in retained then FloorOf(sequence - 1, retained) else sequence
  }

  // All sequences above the floor, up to the head, are retained.
  predicate Covers(floor: nat, sequence: nat, retained: set<nat>) {
    floor <= sequence && forall n :: floor < n <= sequence ==> n in retained
  }

  /** The floor is the least one that covers the branch. */
  lemma {:induction false} FloorIsLeast(sequence: nat, retained: set<nat>)
    ensures Covers(FloorOf(sequence, retained), sequence, retained)
    ensures forall f: nat :: Covers(f, sequence, retained) ==> FloorOf(sequence, retained) <= f
  {
    if sequence > 0 && sequence in retained {
      FloorIsLeast(sequence - 1, retained);
      forall f: nat | Covers(f, sequence, retained) ensures FloorOf(sequence, retained) <= f {
        assert f < sequence ==> Covers(f, sequence - 1, retained);
      }
    } else {
      forall f: nat | Covers(f, sequence, retained) ensures FloorOf(sequence, retained) <= f {
        assert f < sequence ==> sequence in retained;
      }
    }
  }

  method HistoryFloor(sequence: nat, retained: set<nat>) returns (floor: nat)
    ensures floor == FloorOf(sequence, retained)
  {
    floor := sequence;
    while floor > 0 && floor in retained
      invariant FloorOf(floor, retained) == FloorOf(sequence, retained)
    {
      floor := floor - 1;
    }
  }

  // ---------- what is written ----------

  // The retained commits and the branches in the order of their maps, the copied pages, and where
  // each page went.
  datatype Collection = Collection(listing: seq<CommitId>, branches: seq<Name>, pages: seq<P.Page>, moved: map<Slot, Slot>)

  function RecordOf(log: Log, catalog: Catalog, id: CommitId): CommitRecord {
    var c := EntryOf(log, catalog, id);
    if c.CommitEntry? then c else CommitEntry(id, 0, 0, [])
  }

  function MovedRoots(roots: seq<P.Root>, moved: map<Slot, Slot>): (r: seq<P.Root>)
    ensures |r| == |roots|
  {
    seq(|roots|, i requires 0 <= i < |roots| => P.Moved(roots[i], moved))
  }

  // A commit with the roots of its copied trees.
  function CopyOf(log: Log, catalog: Catalog, moved: map<Slot, Slot>, id: CommitId): CommitRecord {
    var c := RecordOf(log, catalog, id);
    CommitEntry(id, c.branch, c.sequence, MovedRoots(c.roots, moved))
  }

  function Copies(log: Log, catalog: Catalog, c: Collection): (r: seq<CommitRecord>)
    ensures |r| == |c.listing|
  {
    seq(|c.listing|, i requires 0 <= i < |c.listing| => CopyOf(log, catalog, c.moved, c.listing[i]))
  }

  function OnBranch(commits: seq<CommitRecord>, b: Name): (r: seq<CommitRecord>) {
    if commits == [] then []
    else OnBranch(commits[..|commits| - 1], b) + if commits[|commits| - 1].branch == b then [commits[|commits| - 1]] else []
  }

  // The first commit of a storage has no ref of its own.
  function Later(commits: seq<CommitRecord>): seq<CommitRecord> {
    if commits == [] then []
    else Later(commits[..|commits| - 1]) + if commits[|commits| - 1].sequence == 0 then [] else [commits[|commits| - 1]]
  }

  function BySequence(): SpillSort.Comparator<CommitRecord> {
    (c: CommitRecord, d: CommitRecord) => c.sequence - d.sequence
  }

  function Mine(commits: seq<CommitRecord>, b: Name): seq<CommitRecord> {
    Later(SpillSort.StableSort(BySequence(), OnBranch(commits, b)))
  }

  datatype BranchLog = BranchLog(name: Name, state: BranchState, mine: seq<CommitRecord>)

  // The refs of one branch: its base, then its retained commits by sequence.
  function BranchRefs(b: Name, state: BranchState, mine: seq<CommitRecord>): seq<Entry> {
    [RefEntry(true, b, state.base, 0)] + seq(|mine|, i requires 0 <= i < |mine| => RefEntry(false, b, mine[i].id, mine[i].sequence))
  }

  function AllRefs(branches: seq<BranchLog>): seq<Entry> {
    if branches == [] then []
    else AllRefs(branches[..|branches| - 1]) + BranchRefs(branches[|branches| - 1].name, branches[|branches| - 1].state, branches[|branches| - 1].mine)
  }

  function StateOf(catalog: Catalog, b: Name): BranchState {
    if b in catalog.branches then catalog.branches[b] else BranchState(0, 0, 0)
  }

  function BranchLogs(catalog: Catalog, commits: seq<CommitRecord>, branches: seq<Name>): (r: seq<BranchLog>)
    ensures |r| == |branches|
  {
    seq(|branches|, i requires 0 <= i < |branches| => BranchLog(branches[i], StateOf(catalog, branches[i]), Mine(commits, branches[i])))
  }

  function SequencesOn(commits: seq<CommitRecord>, b: Name): set<nat> {
    set i | 0 <= i < |commits| && commits[i].branch == b :: commits[i].sequence
  }

  function Floors(catalog: Catalog, commits: seq<CommitRecord>): map<Name, nat> {
    map b | b in catalog.branches :: FloorOf(catalog.branches[b].sequence, SequencesOn(commits, b))
  }

  function PageEntries(pages: seq<P.Page>): seq<Entry> {
    seq(|pages|, i requires 0 <= i < |pages| => PageEntry(pages[i]))
  }

  function Compacted(log: Log, catalog: Catalog, c: Collection): Log {
    var commits := Copies(log, catalog, c);
    PageEntries(c.pages) + commits + AllRefs(BranchLogs(catalog, commits, c.branches)) + [MetaEntry(catalog.retains, Floors(catalog, commits))]
  }

  // ---------- what may be collected ----------

  function PageMap(pages: seq<P.Page>): P.Pages {
    map i | 0 <= i < |pages| :: pages[i]
  }

  // Every head, base and named retention is retained.
  predicate Spares(catalog: Catalog, listing: seq<CommitId>) {
    && (forall b :: b in catalog.branches ==> catalog.branches[b].head in listing && catalog.branches[b].base in listing)
    && (forall name :: name in catalog.retains ==> catalog.retains[name] in listing)
  }

  ghost predicate Listed(s: seq<Name>, all: set<Name>) {
    && (forall i, j :: 0 <= i < j < |s| ==> s[i] != s[j])
    && (forall x :: x in s <==> x in all)
  }

  predicate RootsMoved(roots: seq<P.Root>, moved: map<Slot, Slot>) {
    forall k :: 0 <= k < |roots| && roots[k].Some? ==> roots[k].value in moved
  }

  ghost predicate CanCompact(log: Log, catalog: Catalog, c: Collection) {
    && (forall i, j :: 0 <= i < j < |c.listing| ==> c.listing[i] != c.listing[j])
    && (forall id :: id in c.listing ==> id in catalog.commits && RootsMoved(RecordOf(log, catalog, id).roots, c.moved))
    && Spares(catalog, c.listing)
    && Listed(c.branches, catalog.branches.Keys)
    && P.Relocated(PagesOf(log), PageMap(c.pages), c.moved) && P.Ascending(PageMap(c.pages), |c.pages|)
  }

  // ---------- loading what is written ----------

  // Retained commits above sequence 0 in order, the head last; without any, the head is the base.
  predicate Complete(bl: BranchLog) {
    if bl.mine == [] then bl.state.head == bl.state.base && bl.state.sequence == 0
    else bl.mine[|bl.mine| - 1].id == bl.state.head && bl.mine[|bl.mine| - 1].sequence == bl.state.sequence
  }

  lemma {:induction false} ScanCommits(log: Log, commits: seq<CommitRecord>)
    ensures var s, s' := ScanLog(log), ScanLog(log + commits);
      && s'.published == s.published && s'.catalog.branches == s.catalog.branches
      && s'.catalog.retains == s.catalog.retains && s'.catalog.floors == s.catalog.floors
  {
    if commits == [] {
      assert log + commits == log;
    } else {
      var init, last := commits[..|commits| - 1], commits[|commits| - 1];
      ScanCommits(log, init);
      ScanMore(log + init, last);
      assert log + commits == log + init + [last];
    }
  }

  // A branch after its first n commit refs.
  function StateAt(bl: BranchLog, n: nat): BranchState
    requires n <= |bl.mine|
  {
    if n == 0 then BranchState(bl.state.base, 0, bl.state.base) else BranchState(bl.mine[n - 1].id, bl.mine[n - 1].sequence, bl.state.base)
  }

  function HeadsUpTo(bl: BranchLog, n: nat): set<CommitId>
    requires n <= |bl.mine|
  {
    {bl.state.base} + set i | 0 <= i < n :: bl.mine[i].id
  }

  lemma {:induction false} ScanBranch(log: Log, bl: BranchLog, n: nat)
    requires n <= |bl.mine|
    ensures var s, s' := ScanLog(log), ScanLog(log + BranchRefs(bl.name, bl.state, bl.mine[..n]));
      && s'.catalog == s.catalog.(branches := s.catalog.branches[bl.name := StateAt(bl, n)])
      && s'.published == s.published + HeadsUpTo(bl, n)
    decreases n
  {
    hide ScanLog;
    var refs := BranchRefs(bl.name, bl.state, bl.mine[..n]);
    if n == 0 {
      ScanMore(log, RefEntry(true, bl.name, bl.state.base, 0));
      assert refs == [RefEntry(true, bl.name, bl.state.base, 0)];
    } else {
      ScanBranch(log, bl, n - 1);
      var before := BranchRefs(bl.name, bl.state, bl.mine[..n - 1]);
      var e := RefEntry(false, bl.name, bl.mine[n - 1].id, bl.mine[n - 1].sequence);
      assert refs == before + [e];
      ScanMore(log + before, e);
      assert log + refs == log + before + [e];
      OneMoreRef(ScanLog(log), ScanLog(log + before), bl, n, |log + before|);
    }
  }

  lemma OneMoreRef(s0: Scan, s: Scan, bl: BranchLog, n: nat, slot: Slot)
    requires 0 < n <= |bl.mine|
    requires s.catalog == s0.catalog.(branches := s0.catalog.branches[bl.name := StateAt(bl, n - 1)])
    requires s.published == s0.published + HeadsUpTo(bl, n - 1)
    ensures var s' := Read(s, RefEntry(false, bl.name, bl.mine[n - 1].id, bl.mine[n - 1].sequence), slot);
      && s'.catalog == s0.catalog.(branches := s0.catalog.branches[bl.name := StateAt(bl, n)])
      && s'.published == s0.published + HeadsUpTo(bl, n)
  {
    assert HeadsUpTo(bl, n) == HeadsUpTo(bl, n - 1) + {bl.mine[n - 1].id};
  }

  lemma WholeBranch(bl: BranchLog)
    requires Complete(bl)
    ensures StateAt(bl, |bl.mine|) == bl.state
    ensures forall id :: id in HeadsUpTo(bl, |bl.mine|) <==> Mentions(bl, id)
  {
  }

  lemma {:induction false} ScanAllRefs(log: Log, branches: seq<BranchLog>)
    requires forall i :: 0 <= i < |branches| ==> Complete(branches[i])
    requires forall i, j :: 0 <= i < j < |branches| ==> branches[i].name != branches[j].name
    requires ScanLog(log).catalog.branches == map[] && ScanLog(log).published == {}
    ensures var s, s' := ScanLog(log), ScanLog(log + AllRefs(branches));
      && s'.catalog.commits == s.catalog.commits
      && (forall b :: b in s'.catalog.branches <==> exists i :: 0 <= i < |branches| && branches[i].name == b)
      && (forall i :: 0 <= i < |branches| ==> branches[i].name in s'.catalog.branches && s'.catalog.branches[branches[i].name] == branches[i].state)
      && (forall id :: id in s'.published <==> exists i :: 0 <= i < |branches| && Mentions(branches[i], id))
  {
    hide ScanLog, Mentions, Complete, BranchRefs, HeadsUpTo, StateAt;
    if branches == [] {
      assert log + AllRefs(branches) == log;
    } else {
      var init, last := branches[..|branches| - 1], branches[|branches| - 1];
      ScanAllRefs(log, init);
      var refs := BranchRefs(last.name, last.state, last.mine);
      ScanBranch(log + AllRefs(init), last, |last.mine|);
      assert last.mine[..|last.mine|] == last.mine;
      assert log + AllRefs(branches) == log + AllRefs(init) + refs;
      WholeBranch(last);
      RefsOfInit(branches, ScanLog(log + AllRefs(init)), ScanLog(log + AllRefs(branches)));
    }
  }

  predicate Mentions(bl: BranchLog, id: CommitId) {
    id == bl.state.base || exists i :: 0 <= i < |bl.mine| && bl.mine[i].id == id
  }

  lemma RefsOfInit(branches: seq<BranchLog>, s: Scan, s': Scan)
    requires branches != [] && forall i, j :: 0 <= i < j < |branches| ==> branches[i].name != branches[j].name
    requires var last := branches[|branches| - 1];
      && s'.catalog.branches == s.catalog.branches[last.name := last.state]
      && forall id :: id in s'.published <==> id in s.published || Mentions(last, id)
    requires var init := branches[..|branches| - 1];
      && (forall b :: b in s.catalog.branches <==> exists i :: 0 <= i < |init| && init[i].name == b)
      && (forall i :: 0 <= i < |init| ==> init[i].name in s.catalog.branches && s.catalog.branches[init[i].name] == init[i].state)
      && (forall id :: id in s.published <==> exists i :: 0 <= i < |init| && Mentions(init[i], id))
    ensures forall b :: b in s'.catalog.branches <==> exists i :: 0 <= i < |branches| && branches[i].name == b
    ensures forall i :: 0 <= i < |branches| ==> branches[i].name in s'.catalog.branches && s'.catalog.branches[branches[i].name] == branches[i].state
    ensures forall id :: id in s'.published <==> exists i :: 0 <= i < |branches| && Mentions(branches[i], id)
  {
    hide Mentions;
    var init, last := branches[..|branches| - 1], branches[|branches| - 1];
    forall b ensures b in s'.catalog.branches <==> exists i :: 0 <= i < |branches| && branches[i].name == b {
      if i :| 0 <= i < |init| && init[i].name == b {
        assert branches[i].name == b;
      }
      if i :| 0 <= i < |branches| && branches[i].name == b {
        assert i == |init| || init[i].name == b;
      }
    }
    forall id ensures id in s'.published <==> exists i :: 0 <= i < |branches| && Mentions(branches[i], id) {
      if i :| 0 <= i < |init| && Mentions(init[i], id) {
        assert Mentions(branches[i], id);
      }
      if i :| 0 <= i < |branches| && Mentions(branches[i], id) {
        assert i == |init| || Mentions(init[i], id);
      }
    }
    forall i | 0 <= i < |branches| ensures branches[i].name in s'.catalog.branches && s'.catalog.branches[branches[i].name] == branches[i].state {
      assert i < |init| ==> init[i] == branches[i];
    }
  }

  // ---------- the refs of a branch ----------

  lemma {:induction false} OnBranchMembers(commits: seq<CommitRecord>, b: Name)
    ensures forall c :: c in OnBranch(commits, b) <==> c in commits && c.branch == b
  {
    if commits != [] {
      OnBranchMembers(commits[..|commits| - 1], b);
      assert commits == commits[..|commits| - 1] + [commits[|commits| - 1]];
    }
  }

  lemma {:induction false} LaterMembers(commits: seq<CommitRecord>)
    ensures forall c :: c in Later(commits) <==> c in commits && c.sequence != 0
  {
    if commits != [] {
      LaterMembers(commits[..|commits| - 1]);
      assert commits == commits[..|commits| - 1] + [commits[|commits| - 1]];
    }
  }

  predicate BySequenceSorted(commits: seq<CommitRecord>) {
    forall i, j :: 0 <= i < j < |commits| ==> commits[i].sequence <= commits[j].sequence
  }

  lemma {:induction false} LaterSorted(commits: seq<CommitRecord>)
    requires BySequenceSorted(commits)
    ensures BySequenceSorted(Later(commits))
  {
    if commits != [] {
      var init := commits[..|commits| - 1];
      LaterSorted(init);
      LaterMembers(init);
      forall i | 0 <= i < |Later(init)| ensures Later(init)[i].sequence <= commits[|commits| - 1].sequence {
        assert Later(init)[i] in Later(init);
      }
    }
  }

  lemma MineMembers(commits: seq<CommitRecord>, b: Name)
    ensures forall c :: c in Mine(commits, b) <==> c in commits && c.branch == b && c.sequence != 0
    ensures BySequenceSorted(Mine(commits, b))
  {
    var on := OnBranch(commits, b);
    var sorted := SpillSort.StableSort(BySequence(), on);
    OnBranchMembers(commits, b);
    SpillSort.StableSortMultiset(BySequence(), on);
    forall c ensures c in sorted <==> c in on {
      assert c in multiset(sorted) <==> c in multiset(on);
    }
    LaterMembers(sorted);
    assert SpillSort.Consistent(BySequence());
    SpillSort.StableSortIs(BySequence(), on);
    forall i, j | 0 <= i < j < |sorted| ensures sorted[i].sequence <= sorted[j].sequence {
      assert BySequence()(sorted[i], sorted[j]) <= 0;
    }
    LaterSorted(sorted);
  }

  // ---------- why every branch is complete ----------

  lemma RetainedEntry(log: Log, catalog: Catalog, m: nat, c: Collection, x: CommitRecord)
    requires Kept(log, catalog, m) && CanCompact(log, catalog, c) && x in Copies(log, catalog, c)
    ensures x.id in c.listing && x.id in catalog.commits && x == CopyOf(log, catalog, c.moved, x.id)
    ensures var e := EntryOf(log, catalog, x.id); e.CommitEntry? && e.branch == x.branch && e.sequence == x.sequence
    ensures x.branch in catalog.branches && x.sequence <= catalog.branches[x.branch].sequence
    ensures x.sequence == 0 ==> catalog.branches[x.branch].base == x.id
  {
    hide P.Relocated, P.Ascending, SoundCommit, EntryOf;
    var i :| 0 <= i < |c.listing| && Copies(log, catalog, c)[i] == x;
    assert c.listing[i] == x.id;
    assert PlacedCommit(log, catalog, x.id);
  }

  lemma CopyListed(log: Log, catalog: Catalog, c: Collection, id: CommitId)
    requires id in c.listing
    ensures CopyOf(log, catalog, c.moved, id) in Copies(log, catalog, c)
  {
    var i :| 0 <= i < |c.listing| && c.listing[i] == id;
    assert Copies(log, catalog, c)[i] == CopyOf(log, catalog, c.moved, id);
  }

  lemma HeadRetained(log: Log, catalog: Catalog, m: nat, c: Collection, b: Name)
    requires Kept(log, catalog, m) && CanCompact(log, catalog, c) && b in catalog.branches
    ensures var state := catalog.branches[b]; var head := CopyOf(log, catalog, c.moved, state.head);
      && state.base in c.listing && head in Copies(log, catalog, c) && head.id == state.head
      && (state.sequence == 0 ==> state.head == state.base)
      && (state.sequence > 0 ==> head.branch == b && head.sequence == state.sequence)
  {
    hide Kept, CanCompact, EntryOf, Copies, RecordOf, CopyOf;
    var state := catalog.branches[b];
    KeptHead(log, catalog, m, b);
    SparedHead(log, catalog, c, b);
    RecordIs(log, catalog, c.moved, state.head);
    CopyListed(log, catalog, c, state.head);
  }

  lemma KeptHead(log: Log, catalog: Catalog, m: nat, b: Name)
    requires Kept(log, catalog, m) && b in catalog.branches
    ensures HeadAt(log, catalog, b) && PlacedCommit(log, catalog, catalog.branches[b].head)
  {
    hide SoundCommit, EntryOf, SameMoment;
    assert HeadAt(log, catalog, b);
  }

  lemma SparedHead(log: Log, catalog: Catalog, c: Collection, b: Name)
    requires CanCompact(log, catalog, c) && b in catalog.branches
    ensures catalog.branches[b].head in c.listing && catalog.branches[b].base in c.listing
  {
  }

  lemma RecordIs(log: Log, catalog: Catalog, moved: map<Slot, Slot>, id: CommitId)
    requires EntryOf(log, catalog, id).CommitEntry?
    ensures var c, e := CopyOf(log, catalog, moved, id), EntryOf(log, catalog, id);
      c.id == id && c.branch == e.branch && c.sequence == e.sequence && c.roots == MovedRoots(e.roots, moved)
  {
  }

  lemma SomeMember(s: seq<CommitRecord>)
    ensures s != [] ==> exists c :: c in s
  {
    if s != [] {
      assert s[0] in s;
    }
  }

  lemma MomentUnique(log: Log, catalog: Catalog, m: nat, c: Collection, x: CommitRecord, y: CommitRecord)
    requires Kept(log, catalog, m) && CanCompact(log, catalog, c) && x in Copies(log, catalog, c) && y in Copies(log, catalog, c)
    requires x.branch == y.branch && x.sequence == y.sequence
    ensures x.id == y.id
  {
    RetainedEntry(log, catalog, m, c, x);
    RetainedEntry(log, catalog, m, c, y);
    hide P.Relocated, P.Ascending, SoundCommit, EntryOf, Copies, PlacedCommit, HeadAt, CanCompact;
    assert SameMoment(log, catalog, x.id, y.id);
  }

  lemma BranchComplete(log: Log, catalog: Catalog, m: nat, c: Collection, b: Name)
    requires Kept(log, catalog, m) && CanCompact(log, catalog, c) && b in catalog.branches
    ensures Complete(BranchLog(b, catalog.branches[b], Mine(Copies(log, catalog, c), b)))
  {
    hide Kept, CanCompact, EntryOf, Mine, Copies, CopyOf;
    var commits := Copies(log, catalog, c);
    var state, mine := catalog.branches[b], Mine(commits, b);
    MineMembers(commits, b);
    HeadRetained(log, catalog, m, c, b);
    if state.sequence > 0 {
      var head := CopyOf(log, catalog, c.moved, state.head);
      assert head in mine;
      var i :| 0 <= i < |mine| && mine[i] == head;
      var last := mine[|mine| - 1];
      assert last in mine;
      RetainedEntry(log, catalog, m, c, last);
      MomentUnique(log, catalog, m, c, last, head);
    } else {
      forall x | x in commits && x.branch == b ensures x.sequence == 0 {
        RetainedEntry(log, catalog, m, c, x);
      }
      SomeMember(mine);
    }
  }

  lemma BranchListed(log: Log, catalog: Catalog, c: Collection, i: nat)
    requires CanCompact(log, catalog, c) && i < |c.branches|
    ensures c.branches[i] in catalog.branches
    ensures BranchLogs(catalog, Copies(log, catalog, c), c.branches)[i]
         == BranchLog(c.branches[i], catalog.branches[c.branches[i]], Mine(Copies(log, catalog, c), c.branches[i]))
  {
    assert c.branches[i] in catalog.branches.Keys;
  }

  lemma MentionsListed(log: Log, catalog: Catalog, m: nat, c: Collection, i: nat, id: CommitId)
    requires Kept(log, catalog, m) && CanCompact(log, catalog, c) && i < |c.branches|
    requires Mentions(BranchLogs(catalog, Copies(log, catalog, c), c.branches)[i], id)
    ensures id in c.listing
  {
    hide Kept, CanCompact, EntryOf, Mine, Copies, CopyOf, BranchLogs;
    var commits := Copies(log, catalog, c);
    BranchListed(log, catalog, c, i);
    var bl := BranchLogs(catalog, commits, c.branches)[i];
    HeadRetained(log, catalog, m, c, bl.name);
    if id != bl.state.base {
      var k :| 0 <= k < |bl.mine| && bl.mine[k].id == id;
      MineMembers(commits, bl.name);
      assert bl.mine[k] in bl.mine;
      RetainedEntry(log, catalog, m, c, bl.mine[k]);
    }
  }

  lemma BranchIndex(log: Log, catalog: Catalog, c: Collection, b: Name) returns (i: nat)
    requires CanCompact(log, catalog, c) && b in catalog.branches
    ensures i < |c.branches| && c.branches[i] == b
  {
    assert b in c.branches;
    i :| 0 <= i < |c.branches| && c.branches[i] == b;
  }

  lemma ListedMentioned(log: Log, catalog: Catalog, m: nat, c: Collection, id: CommitId) returns (i: nat)
    requires Kept(log, catalog, m) && CanCompact(log, catalog, c) && id in c.listing
    ensures i < |c.branches| && Mentions(BranchLogs(catalog, Copies(log, catalog, c), c.branches)[i], id)
  {
    hide Kept, CanCompact, EntryOf, Mine, Copies, BranchLogs, RecordOf;
    var commits := Copies(log, catalog, c);
    CopyListed(log, catalog, c, id);
    var x := CopyOf(log, catalog, c.moved, id);
    RetainedEntry(log, catalog, m, c, x);
    i := BranchIndex(log, catalog, c, x.branch);
    BranchListed(log, catalog, c, i);
    MineMembers(commits, x.branch);
    var mine := Mine(commits, x.branch);
    if x.sequence != 0 {
      assert x in mine;
      var k :| 0 <= k < |mine| && mine[k] == x;
      assert mine[k].id == id;
    }
  }

  // ---------- order ----------

  lemma PagePrefix(pages: seq<P.Page>)
    requires P.Ascending(PageMap(pages), |pages|)
    ensures Ordered(PageEntries(pages))
  {
    var log := PageEntries(pages);
    forall i | 0 <= i < |log| ensures InOrder(log, i) {
      assert PageMap(pages)[i] == pages[i];
    }
  }

  lemma AppendInOrder(log: Log, e: Entry)
    requires Ordered(log) && InOrder(log + [e], |log|)
    ensures Ordered(log + [e])
  {
    forall i | 0 <= i < |log + [e]| ensures InOrder(log + [e], i) {
      if i < |log| {
        InLonger(log, e, i);
      }
    }
  }

  lemma {:induction false} CommitsInOrder(pages: Log, commits: seq<CommitRecord>)
    requires Ordered(pages) && AllPages(pages)
    requires forall i, j :: 0 <= i < j < |commits| ==> commits[i].id != commits[j].id
    requires forall i :: 0 <= i < |commits| ==> RootsIn(pages, commits[i].roots)
    ensures Ordered(pages + commits)
  {
    if commits == [] {
      assert pages + commits == pages;
    } else {
      var init, last := commits[..|commits| - 1], commits[|commits| - 1];
      CommitsInOrder(pages, init);
      var log: Log := pages + init;
      assert pages + commits == log + [last];
      assert InOrder(log + [last], |log|) by {
        assert RootsIn(pages, last.roots);
        forall k | 0 <= k < |last.roots| && last.roots[k].Some? ensures IsPage(log + [last], last.roots[k].value, |log|) {
          assert (log + [last])[last.roots[k].value] == pages[last.roots[k].value];
        }
        forall j | 0 <= j < |log| && (log + [last])[j].CommitEntry? ensures (log + [last])[j].id != last.id {
          assert j >= |pages|;
          assert (log + [last])[j] == commits[j - |pages|];
        }
      }
      AppendInOrder(log, last);
    }
  }

  predicate RootsIn(pages: Log, roots: seq<P.Root>) {
    forall k :: 0 <= k < |roots| && roots[k].Some? ==> roots[k].value < |pages|
  }

  predicate HasCommit(log: Log, id: CommitId) {
    exists j :: 0 <= j < |log| && log[j].CommitEntry? && log[j].id == id
  }

  lemma {:induction false} RefsInOrder(log: Log, refs: seq<Entry>)
    requires Ordered(log) && forall i :: 0 <= i < |refs| ==> refs[i].RefEntry? && HasCommit(log, refs[i].head)
    ensures Ordered(log + refs)
  {
    if refs == [] {
      assert log + refs == log;
    } else {
      var init, last := refs[..|refs| - 1], refs[|refs| - 1];
      RefsInOrder(log, init);
      assert HasCommit(log, last.head);
      var j :| 0 <= j < |log| && log[j].CommitEntry? && log[j].id == last.head;
      assert (log + init)[j] == log[j];
      RefInOrder(log + init, last, j);
      assert log + refs == log + init + [last];
    }
  }

  lemma {:induction false} AllRefsAre(branches: seq<BranchLog>, i: nat)
    requires i < |AllRefs(branches)|
    ensures AllRefs(branches)[i].RefEntry? && exists k :: 0 <= k < |branches| && Mentions(branches[k], AllRefs(branches)[i].head)
  {
    hide Mentions;
    var init, last := branches[..|branches| - 1], branches[|branches| - 1];
    if i < |AllRefs(init)| {
      AllRefsAre(init, i);
      var k :| 0 <= k < |init| && Mentions(init[k], AllRefs(branches)[i].head);
      assert branches[k] == init[k];
    } else {
      RefMentions(last, i - |AllRefs(init)|);
    }
  }

  lemma RefMentions(bl: BranchLog, i: nat)
    requires i < |BranchRefs(bl.name, bl.state, bl.mine)|
    ensures var ref := BranchRefs(bl.name, bl.state, bl.mine)[i]; ref.RefEntry? && Mentions(bl, ref.head)
  {
  }

  // ---------- the theorem ----------

  // The log without its metadata record.
  function Body(log: Log, catalog: Catalog, c: Collection): Log {
    var commits := Copies(log, catalog, c);
    PageEntries(c.pages) + commits + AllRefs(BranchLogs(catalog, commits, c.branches))
  }

  lemma CopiesDistinct(log: Log, catalog: Catalog, c: Collection)
    requires CanCompact(log, catalog, c)
    ensures var commits := Copies(log, catalog, c);
      && (forall i, j :: 0 <= i < j < |commits| ==> commits[i].id != commits[j].id)
      && forall i :: 0 <= i < |commits| ==> RootsIn(PageEntries(c.pages), commits[i].roots)
  {
    hide P.Ascending, EntryOf, RecordOf, P.SameUpTo;
    var commits := Copies(log, catalog, c);
    forall i | 0 <= i < |commits| ensures RootsIn(PageEntries(c.pages), commits[i].roots) {
      assert c.listing[i] in c.listing;
      assert RootsMoved(RecordOf(log, catalog, c.listing[i]).roots, c.moved);
    }
  }

  lemma WrittenInOrder(log: Log, catalog: Catalog, m: nat, c: Collection)
    requires Kept(log, catalog, m) && CanCompact(log, catalog, c)
    ensures Ordered(PageEntries(c.pages) + Copies(log, catalog, c)) && Ordered(Body(log, catalog, c)) && Ordered(Compacted(log, catalog, c))
  {
    hide Kept, EntryOf, Copies, Mentions, BranchLogs, Floors, P.Relocated, InOrder, AllRefs;
    var pages, commits := PageEntries(c.pages), Copies(log, catalog, c);
    PagePrefix(c.pages);
    CopiesDistinct(log, catalog, c);
    CommitsInOrder(pages, commits);
    var bls := BranchLogs(catalog, commits, c.branches);
    var refs := AllRefs(bls);
    forall i | 0 <= i < |refs| ensures refs[i].RefEntry? && HasCommit(pages + commits, refs[i].head) {
      AllRefsAre(bls, i);
      var k :| 0 <= k < |bls| && Mentions(bls[k], refs[i].head);
      MentionsListed(log, catalog, m, c, k, refs[i].head);
      CommitWritten(log, catalog, c, refs[i].head);
    }
    RefsInOrder(pages + commits, refs);
    MetaInOrder(pages + commits + refs, catalog.retains, Floors(catalog, commits));
  }

  lemma CommitWritten(log: Log, catalog: Catalog, c: Collection, id: CommitId)
    requires id in c.listing
    ensures HasCommit(PageEntries(c.pages) + Copies(log, catalog, c), id)
  {
    CopyListed(log, catalog, c, id);
    var commits := Copies(log, catalog, c);
    var i :| 0 <= i < |commits| && commits[i] == CopyOf(log, catalog, c.moved, id);
    assert (PageEntries(c.pages) + commits)[|c.pages| + i] == commits[i];
  }

  // Where commits and pages are in the new log.
  lemma WrittenEntries(log: Log, catalog: Catalog, c: Collection, i: nat)
    requires i < |Compacted(log, catalog, c)|
    ensures var e := Compacted(log, catalog, c)[i];
      && (e.CommitEntry? ==> |c.pages| <= i < |c.pages| + |c.listing| && e == Copies(log, catalog, c)[i - |c.pages|])
      && (e.PageEntry? <==> i < |c.pages|) && (i < |c.pages| ==> e == PageEntry(c.pages[i]))
  {
    hide EntryOf, Floors, Copies, BranchLogs, AllRefs;
    var commits := Copies(log, catalog, c);
    var refs := AllRefs(BranchLogs(catalog, commits, c.branches));
    var n := |c.pages| + |commits|;
    if n <= i < n + |refs| {
      AllRefsAre(BranchLogs(catalog, commits, c.branches), i - n);
    }
  }

  lemma WrittenPages(log: Log, catalog: Catalog, c: Collection)
    ensures PagesOf(Compacted(log, catalog, c)) == PageMap(c.pages)
  {
    hide Compacted;
    var after := Compacted(log, catalog, c);
    forall i | 0 <= i < |after| ensures (after[i].PageEntry? <==> i < |c.pages|) && (i < |c.pages| ==> after[i] == PageEntry(c.pages[i])) {
      WrittenEntries(log, catalog, c, i);
    }
    LongEnough(log, catalog, c);
  }

  lemma LongEnough(log: Log, catalog: Catalog, c: Collection)
    ensures |Compacted(log, catalog, c)| > |c.pages| + |c.listing|
  {
  }

  // What loading the new log shows.
  lemma LoadsWritten(log: Log, catalog: Catalog, m: nat, c: Collection)
    requires Kept(log, catalog, m) && CanCompact(log, catalog, c)
    ensures var loaded := Load(Compacted(log, catalog, c));
      && loaded.branches == catalog.branches && loaded.retains == catalog.retains
      && loaded.floors == Floors(catalog, Copies(log, catalog, c))
      && (forall id :: id in loaded.commits <==> id in c.listing)
      && (forall id :: id in c.listing ==> EntryOf(Compacted(log, catalog, c), loaded, id) == CopyOf(log, catalog, c.moved, id))
  {
    hide Kept, CanCompact, Copies, Mentions, BranchLogs, Floors, Load, AllRefs, CopyOf, EntryOf, Ordered;
    WrittenInOrder(log, catalog, m, c);
    var commits := Copies(log, catalog, c);
    var body := Body(log, catalog, c);
    var floors := Floors(catalog, commits);
    LoadMetadata(body, catalog.retains, floors);
    assert Compacted(log, catalog, c) == body + [MetaEntry(catalog.retains, floors)];
    BodyLoads(log, catalog, m, c);
    var loaded := Load(Compacted(log, catalog, c));
    forall id | id in c.listing ensures EntryOf(Compacted(log, catalog, c), loaded, id) == CopyOf(log, catalog, c.moved, id) {
      LoadedCopy(log, catalog, m, c, id);
    }
  }

  lemma BodyLoads(log: Log, catalog: Catalog, m: nat, c: Collection)
    requires Kept(log, catalog, m) && CanCompact(log, catalog, c)
    ensures var loaded := Load(Body(log, catalog, c));
      loaded.branches == catalog.branches && forall id :: id in loaded.commits <==> id in c.listing
  {
    hide Kept, CanCompact, Copies, Mentions, BranchLogs, AllRefs, CopyOf, EntryOf, ScanLog, Ordered, Complete;
    var pages, commits := PageEntries(c.pages), Copies(log, catalog, c);
    var bls := BranchLogs(catalog, commits, c.branches);
    EmptyScan();
    ScanPages([], pages);
    assert [] + pages == pages;
    ScanCommits(pages, commits);
    BranchesComplete(log, catalog, m, c);
    ScanAllRefs(pages + commits, bls);
    var s := ScanLog(Body(log, catalog, c));
    forall id ensures id in s.published <==> id in c.listing {
      if id in s.published {
        var i :| 0 <= i < |bls| && Mentions(bls[i], id);
        MentionsListed(log, catalog, m, c, i, id);
      }
      if id in c.listing {
        var i := ListedMentioned(log, catalog, m, c, id);
      }
    }
    forall id | id in c.listing ensures id in s.catalog.commits {
      WrittenInOrder(log, catalog, m, c);
      CommitWritten(log, catalog, c, id);
      ScannedCommits(pages + commits, id);
    }
    SameBranches(log, catalog, c, s.catalog.branches);
  }

  lemma EmptyScan()
    ensures ScanLog([]) == Scan(Catalog(map[], map[], map[], map[]), {})
  {
  }

  lemma BranchesComplete(log: Log, catalog: Catalog, m: nat, c: Collection)
    requires Kept(log, catalog, m) && CanCompact(log, catalog, c)
    ensures var bls := BranchLogs(catalog, Copies(log, catalog, c), c.branches);
      && (forall i :: 0 <= i < |bls| ==> Complete(bls[i]))
      && (forall i, j :: 0 <= i < j < |bls| ==> bls[i].name != bls[j].name)
  {
    hide Kept, Copies, Mine, EntryOf, P.Relocated, P.Ascending, Complete;
    var bls := BranchLogs(catalog, Copies(log, catalog, c), c.branches);
    forall i | 0 <= i < |bls| ensures Complete(bls[i]) {
      BranchListed(log, catalog, c, i);
      BranchComplete(log, catalog, m, c, c.branches[i]);
    }
  }

  lemma SameBranches(log: Log, catalog: Catalog, c: Collection, branches: map<Name, BranchState>)
    requires CanCompact(log, catalog, c)
    requires var bls := BranchLogs(catalog, Copies(log, catalog, c), c.branches);
      && (forall b :: b in branches <==> exists i :: 0 <= i < |bls| && bls[i].name == b)
      && (forall i :: 0 <= i < |bls| ==> bls[i].name in branches && branches[bls[i].name] == bls[i].state)
    ensures branches == catalog.branches
  {
    hide Copies, Mine, EntryOf, P.Relocated, P.Ascending, CanCompact, BranchLogs;
    var bls := BranchLogs(catalog, Copies(log, catalog, c), c.branches);
    forall b ensures b in branches <==> b in catalog.branches {
      if b in branches {
        var i :| 0 <= i < |bls| && bls[i].name == b;
        BranchListed(log, catalog, c, i);
      }
      if b in catalog.branches {
        var i := BranchIndex(log, catalog, c, b);
        BranchListed(log, catalog, c, i);
        assert bls[i].name == b;
      }
    }
    forall b | b in branches ensures branches[b] == catalog.branches[b] {
      var i := BranchIndex(log, catalog, c, b);
      BranchListed(log, catalog, c, i);
    }
  }

  lemma LoadedCopy(log: Log, catalog: Catalog, m: nat, c: Collection, id: CommitId)
    requires Kept(log, catalog, m) && CanCompact(log, catalog, c) && id in c.listing
    requires id in Load(Compacted(log, catalog, c)).commits
    ensures EntryOf(Compacted(log, catalog, c), Load(Compacted(log, catalog, c)), id) == CopyOf(log, catalog, c.moved, id)
  {
    hide Kept, CanCompact, CopyOf, Compacted, InOrder;
    WrittenInOrder(log, catalog, m, c);
    var after := Compacted(log, catalog, c);
    ScannedCommits(after, id);
    var slot := Load(after).commits[id];
    WrittenEntries(log, catalog, c, slot);
    CopyId(log, catalog, c.moved, c.listing[slot - |c.pages|]);
  }

  lemma CopyId(log: Log, catalog: Catalog, moved: map<Slot, Slot>, id: CommitId)
    ensures CopyOf(log, catalog, moved, id).id == id
  {
  }

  // The trees of a copied commit hold what the originals hold.
  ghost predicate SameTrees(log: Log, roots: seq<P.Root>, log': Log, roots': seq<P.Root>, m: nat) {
    |roots'| == |roots| && forall k, h: nat :: 0 <= k < |roots| && P.SoundRoot(PagesOf(log), roots[k], h, m) ==>
      P.SameTree(PagesOf(log), roots[k], PagesOf(log'), roots'[k], h, m)
  }

  lemma CopiedRoots(log: Log, after: Log, roots: seq<P.Root>, moved: map<Slot, Slot>, m: nat)
    requires P.Relocated(PagesOf(log), PagesOf(after), moved) && RootsMoved(roots, moved) && SoundAll(PagesOf(log), roots, m)
    ensures SameTrees(log, roots, after, MovedRoots(roots, moved), m)
    ensures SoundAll(PagesOf(after), MovedRoots(roots, moved), m)
  {
    hide P.Relocated, PagesOf, P.SoundRoot, P.SameTree, P.Moved;
    var copies := MovedRoots(roots, moved);
    forall k, h: nat | 0 <= k < |roots| && P.SoundRoot(PagesOf(log), roots[k], h, m)
      ensures P.SameTree(PagesOf(log), roots[k], PagesOf(after), copies[k], h, m)
    {
      P.RelocatedRoot(PagesOf(log), PagesOf(after), moved, roots[k], h, m);
    }
    forall k | 0 <= k < |roots| ensures Sound(PagesOf(after), copies[k], m) {
      assert Sound(PagesOf(log), roots[k], m);
      var h :| P.SoundRoot(PagesOf(log), roots[k], h, m);
      P.RelocatedRoot(PagesOf(log), PagesOf(after), moved, roots[k], h, m);
      SameIsSound(PagesOf(log), roots[k], PagesOf(after), copies[k], h, m);
    }
  }

  lemma SameIsSound(a: P.Pages, root: P.Root, b: P.Pages, copy: P.Root, h: nat, m: nat)
    requires P.SoundRoot(a, root, h, m) && P.SameTree(a, root, b, copy, h, m)
    ensures Sound(b, copy, m)
  {
  }

  lemma CopiedCommit(log: Log, catalog: Catalog, m: nat, c: Collection, id: CommitId)
    requires Kept(log, catalog, m) && CanCompact(log, catalog, c) && id in c.listing
    ensures SameTrees(log, RecordOf(log, catalog, id).roots, Compacted(log, catalog, c), CopyOf(log, catalog, c.moved, id).roots, m)
    ensures SoundAll(PagesOf(Compacted(log, catalog, c)), CopyOf(log, catalog, c.moved, id).roots, m)
  {
    hide P.Relocated, P.Ascending, PagesOf, Compacted, EntryOf, HeadAt, SameMoment, RootsMoved, SoundAll, SameTrees;
    WrittenPages(log, catalog, c);
    assert PlacedCommit(log, catalog, id) && SoundCommit(log, catalog, id, m);
    CopiedRoots(log, Compacted(log, catalog, c), RecordOf(log, catalog, id).roots, c.moved, m);
  }

  lemma KeptWritten(log: Log, catalog: Catalog, m: nat, c: Collection, after: Log, loaded: Catalog)
    requires Kept(log, catalog, m) && CanCompact(log, catalog, c) && after == Compacted(log, catalog, c)
    requires loaded.branches == catalog.branches && loaded.retains == catalog.retains
    requires forall id :: id in loaded.commits <==> id in c.listing
    requires forall id :: id in c.listing ==> EntryOf(after, loaded, id) == CopyOf(log, catalog, c.moved, id)
    ensures Kept(after, loaded, m)
  {
    hide P.Relocated, P.Ascending, EntryOf, PlacedCommit, SoundCommit, SameMoment, HeadAt, SoundAll, Compacted, CopyOf, RecordOf, RootsMoved;
    forall id | id in loaded.commits ensures PlacedCommit(after, loaded, id) && SoundCommit(after, loaded, id, m) {
      CopiedCommit(log, catalog, m, c, id);
      PlacedCopy(log, catalog, after, loaded, c.moved, id, m);
    }
    forall i, j | i in loaded.commits && j in loaded.commits && SameMoment(after, loaded, i, j) ensures i == j {
      assert PlacedCommit(log, catalog, i) && PlacedCommit(log, catalog, j);
      MomentOfCopies(log, catalog, after, loaded, c.moved, i, j);
    }
    forall b | b in loaded.branches ensures HeadAt(after, loaded, b) {
      assert HeadAt(log, catalog, b);
      assert PlacedCommit(log, catalog, catalog.branches[b].head);
      HeadOfCopies(log, catalog, after, loaded, c.moved, b);
    }
  }

  lemma PlacedCopy(log: Log, catalog: Catalog, after: Log, loaded: Catalog, moved: map<Slot, Slot>, id: CommitId, m: nat)
    requires PlacedCommit(log, catalog, id) && loaded.branches == catalog.branches
    requires EntryOf(after, loaded, id) == CopyOf(log, catalog, moved, id) && SoundAll(PagesOf(after), CopyOf(log, catalog, moved, id).roots, m)
    ensures PlacedCommit(after, loaded, id) && SoundCommit(after, loaded, id, m)
  {
    hide SoundAll, PagesOf, EntryOf;
  }

  lemma MomentOfCopies(log: Log, catalog: Catalog, after: Log, loaded: Catalog, moved: map<Slot, Slot>, i: CommitId, j: CommitId)
    requires PlacedCommit(log, catalog, i) && PlacedCommit(log, catalog, j) && SameMoment(after, loaded, i, j)
    requires EntryOf(after, loaded, i) == CopyOf(log, catalog, moved, i) && EntryOf(after, loaded, j) == CopyOf(log, catalog, moved, j)
    ensures SameMoment(log, catalog, i, j)
  {
    hide EntryOf;
  }

  lemma HeadOfCopies(log: Log, catalog: Catalog, after: Log, loaded: Catalog, moved: map<Slot, Slot>, b: Name)
    requires b in catalog.branches && loaded.branches == catalog.branches && HeadAt(log, catalog, b)
    requires catalog.branches[b].head in loaded.commits && catalog.branches[b].base in loaded.commits
    requires PlacedCommit(log, catalog, catalog.branches[b].head)
    requires EntryOf(after, loaded, catalog.branches[b].head) == CopyOf(log, catalog, moved, catalog.branches[b].head)
    ensures HeadAt(after, loaded, b)
  {
    hide EntryOf;
  }

  /** Replaying a compacted log rebuilds every branch and retention, exactly the retained commits with copies of
      their trees, and for every branch the least floor above which all its commits up to the head are retained. */
  lemma CompactionKeepsCatalog(log: Log, catalog: Catalog, m: nat, c: Collection)
    requires Ordered(log) && Load(log) == catalog && Kept(log, catalog, m) && CanCompact(log, catalog, c)
    ensures var log' := Compacted(log, catalog, c); var catalog' := Load(log');
      && Ordered(log') && Kept(log', catalog', m)
      && catalog'.branches == catalog.branches && catalog'.retains == catalog.retains
      && (forall id :: id in catalog'.commits <==> id in c.listing)
      && (forall id :: id in c.listing ==> SameCommit(log, EntryOf(log, catalog, id), log', EntryOf(log', catalog', id), m))
      && catalog'.floors.Keys == catalog.branches.Keys
      && forall b :: b in catalog.branches ==> LeastFloor(log, catalog, c.listing, b, catalog'.floors[b])
  {
    hide P.Relocated, P.Ascending, CopyOf, EntryOf, Kept, CanCompact, Load, Compacted, Ordered, SameCommit, LeastFloor, Copies;
    var log' := Compacted(log, catalog, c);
    var catalog' := Load(log');
    WrittenInOrder(log, catalog, m, c);
    LoadsWritten(log, catalog, m, c);
    KeptWritten(log, catalog, m, c, log', catalog');
    forall id | id in c.listing ensures SameCommit(log, EntryOf(log, catalog, id), log', EntryOf(log', catalog', id), m) {
      CopiedCommit(log, catalog, m, c, id);
      CopyIsSame(log, catalog, m, c, log', id);
    }
    forall b | b in catalog.branches ensures LeastFloor(log, catalog, c.listing, b, catalog'.floors[b]) {
      FloorOfBranch(log, catalog, m, c, b);
    }
  }

  ghost predicate SameCommit(log: Log, e: Entry, log': Log, e': Entry, m: nat) {
    && e.CommitEntry? && e'.CommitEntry? && e'.id == e.id && e'.branch == e.branch && e'.sequence == e.sequence
    && SameTrees(log, e.roots, log', e'.roots, m)
  }

  lemma CopyIsSame(log: Log, catalog: Catalog, m: nat, c: Collection, log': Log, id: CommitId)
    requires Kept(log, catalog, m) && CanCompact(log, catalog, c) && id in c.listing
    requires SameTrees(log, RecordOf(log, catalog, id).roots, log', CopyOf(log, catalog, c.moved, id).roots, m)
    ensures SameCommit(log, EntryOf(log, catalog, id), log', CopyOf(log, catalog, c.moved, id), m)
  {
    hide P.Relocated, P.Ascending, EntryOf, SoundCommit, HeadAt, SameMoment, SameTrees, RootsMoved;
    assert PlacedCommit(log, catalog, id);
  }

  // Whether a branch's commit of that sequence is retained.
  predicate RetainedAt(log: Log, catalog: Catalog, listing: seq<CommitId>, b: Name, n: nat) {
    exists i :: 0 <= i < |listing| && var e := EntryOf(log, catalog, listing[i]); e.CommitEntry? && e.branch == b && e.sequence == n
  }

  ghost predicate CoveredFrom(log: Log, catalog: Catalog, listing: seq<CommitId>, b: Name, floor: nat)
    requires b in catalog.branches
  {
    floor <= catalog.branches[b].sequence && forall n: nat :: floor < n <= catalog.branches[b].sequence ==> RetainedAt(log, catalog, listing, b, n)
  }

  // The least floor such that every later sequence, up to the head, is retained.
  ghost predicate LeastFloor(log: Log, catalog: Catalog, listing: seq<CommitId>, b: Name, floor: nat)
    requires b in catalog.branches
  {
    CoveredFrom(log, catalog, listing, b, floor) && forall f: nat :: CoveredFrom(log, catalog, listing, b, f) ==> floor <= f
  }

  lemma SequencesAre(log: Log, catalog: Catalog, m: nat, c: Collection, b: Name, n: nat)
    requires Kept(log, catalog, m) && CanCompact(log, catalog, c)
    ensures n in SequencesOn(Copies(log, catalog, c), b) <==> RetainedAt(log, catalog, c.listing, b, n)
  {
    hide Kept, CanCompact, EntryOf, CopyOf, RecordOf;
    var commits := Copies(log, catalog, c);
    forall i | 0 <= i < |commits|
      ensures var e := EntryOf(log, catalog, c.listing[i]); e.CommitEntry? && e.branch == commits[i].branch && e.sequence == commits[i].sequence
    {
      assert commits[i] in commits;
      RetainedEntry(log, catalog, m, c, commits[i]);
      CopyId(log, catalog, c.moved, c.listing[i]);
    }
  }

  lemma FloorOfBranch(log: Log, catalog: Catalog, m: nat, c: Collection, b: Name)
    requires Kept(log, catalog, m) && CanCompact(log, catalog, c) && b in catalog.branches
    ensures LeastFloor(log, catalog, c.listing, b, Floors(catalog, Copies(log, catalog, c))[b])
  {
    hide Kept, CanCompact, EntryOf, Copies, SequencesOn, RetainedAt, FloorOf;
    var sequence, retained := catalog.branches[b].sequence, SequencesOn(Copies(log, catalog, c), b);
    FloorIsLeast(sequence, retained);
    forall n: nat ensures n in retained <==> RetainedAt(log, catalog, c.listing, b, n) {
      SequencesAre(log, catalog, m, c, b, n);
    }
    forall f: nat ensures CoveredFrom(log, catalog, c.listing, b, f) <==> Covers(f, sequence, retained) {
    }
  }
}
