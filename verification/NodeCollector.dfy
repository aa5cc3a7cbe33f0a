// Collecting garbage in the file storage engine (retainedCommitIds, historyFloorsFor and
// collectGarbageNow in node-storage.ts), as the loops that write the compacted file.
module NodeCollector {
  import opened NodeLog
  import opened NodeCatalog
  import opened NodeCompaction
  import opened NodeEngine
  import B = BPlusTree
  import P = PageTrees
  import SpillSort

  // ---------- what is retained ----------

  datatype Retention = Forever | Window(keepAtLeast: nat, keepYoungerThan: Option<nat>)

  datatype Option<+T> = None | Some(value: T)

  datatype Subscriber = Subscriber(branch: Name, retainAfter: nat)

  // Open snapshots, streams and commit times.
  datatype Users = Users(pins: set<CommitId>, subscribers: seq<Subscriber>, times: map<CommitId, int>, now: int)

  function BranchOf(e: Engine, id: CommitId): Name {
    RecordOf(e.log, e.catalog, id).branch
  }

  function SequenceOf(e: Engine, id: CommitId): nat {
    RecordOf(e.log, e.catalog, id).sequence
  }

  predicate Named(e: Engine, users: Users, id: CommitId) {
    || (exists b :: b in e.catalog.branches && (e.catalog.branches[b].head == id || e.catalog.branches[b].base == id))
    || (exists name :: name in e.catalog.retains && e.catalog.retains[name] == id)
    || id in users.pins
  }

  predicate Young(users: Users, keepYoungerThan: Option<nat>, id: CommitId) {
    keepYoungerThan.Some? && id in users.times && users.times[id] >= users.now - keepYoungerThan.value
  }

  // The later commits of the same branch.
  function LaterThan(e: Engine, id: CommitId): set<CommitId> {
    set x | x in e.catalog.commits && BranchOf(e, x) == BranchOf(e, id) && SequenceOf(e, x) > SequenceOf(e, id)
  }

  predicate Awaited(e: Engine, users: Users, id: CommitId) {
    exists i :: 0 <= i < |users.subscribers| && BranchOf(e, id) == users.subscribers[i].branch && SequenceOf(e, id) > users.subscribers[i].retainAfter
  }

  predicate Retains(e: Engine, retention: Retention, users: Users, id: CommitId) {
    retention.Forever? || Named(e, users, id) || Young(users, retention.keepYoungerThan, id)
    || |LaterThan(e, id)| < retention.keepAtLeast || Awaited(e, users, id)
  }

  /** What the retention policy keeps, in its own terms: everything for ever; or what has a name or is open, what is no older
      than the policy's age, the last commits of each branch, and what a stream has still to deliver. */
  lemma RetainsMeans(e: Engine, retention: Retention, users: Users, id: CommitId)
    requires id in e.catalog.commits
    ensures retention.Forever? ==> Retains(e, retention, users, id)
    ensures retention.Window? ==>
      var record := RecordOf(e.log, e.catalog, id);
      var later := set x | x in e.catalog.commits && RecordOf(e.log, e.catalog, x).branch == record.branch && RecordOf(e.log, e.catalog, x).sequence > record.sequence;
      (Retains(e, retention, users, id) <==>
        (|| id in (set b | b in e.catalog.branches :: e.catalog.branches[b].head)
         || id in (set b | b in e.catalog.branches :: e.catalog.branches[b].base)
         || id in e.catalog.retains.Values || id in users.pins
         || (retention.keepYoungerThan.Some? && id in users.times && users.times[id] + retention.keepYoungerThan.value >= users.now)
         || |later| < retention.keepAtLeast
         || exists i :: 0 <= i < |users.subscribers| && users.subscribers[i].branch == record.branch && users.subscribers[i].retainAfter < record.sequence))
  {
    var record := RecordOf(e.log, e.catalog, id);
    assert LaterThan(e, id) == set x | x in e.catalog.commits && RecordOf(e.log, e.catalog, x).branch == record.branch && RecordOf(e.log, e.catalog, x).sequence > record.sequence;
  }

  // Sorted by falling sequence, a commit is preceded by the later commits of its branch.
  lemma {:induction false} RankOf(e: Engine, commits: seq<CommitId>, i: nat, b: Name)
    requires i < |commits| && forall j, k :: 0 <= j < k < |commits| ==> SequenceOf(e, commits[j]) > SequenceOf(e, commits[k])
    requires forall id :: id in commits <==> id in e.catalog.commits && BranchOf(e, id) == b
    ensures |LaterThan(e, commits[i])| == i
  {
    var before := set j | 0 <= j < i :: commits[j];
    assert BranchOf(e, commits[i]) == b by {
      assert commits[i] in commits;
    }
    forall x ensures x in LaterThan(e, commits[i]) <==> x in before {
      if x in LaterThan(e, commits[i]) {
        assert x in commits;
        var k :| 0 <= k < |commits| && commits[k] == x;
        assert k < i;
      }
      if x in before {
        assert x in commits;
      }
    }
    assert LaterThan(e, commits[i]) == before;
    PrefixSize(commits, i);
  }

  lemma {:induction false} PrefixSize(commits: seq<CommitId>, i: nat)
    requires i <= |commits| && forall j, k :: 0 <= j < k < |commits| ==> commits[j] != commits[k]
    ensures |set j | 0 <= j < i :: commits[j]| == i
  {
    if i > 0 {
      PrefixSize(commits, i - 1);
      var before := set j | 0 <= j < i - 1 :: commits[j];
      assert (set j | 0 <= j < i :: commits[j]) == before + {commits[i - 1]};
      assert commits[i - 1] !in before;
    }
  }

  function ByFallingSequence(e: Engine): SpillSort.Comparator<CommitId> {
    (x: CommitId, y: CommitId) => SequenceOf(e, y) - SequenceOf(e, x)
  }

  predicate OfBranch(e: Engine, id: CommitId, b: Name) {
    id in e.catalog.commits && BranchOf(e, id) == b
  }

  // Commits of one branch with one sequence are one commit.
  lemma OneMoment(e: Engine, x: CommitId, y: CommitId)
    requires Inv(e) && x in e.catalog.commits && y in e.catalog.commits && BranchOf(e, x) == BranchOf(e, y) && SequenceOf(e, x) == SequenceOf(e, y)
    ensures x == y
  {
    hide SoundCommit, HeadAt, EntryOf, Faithful, Load, Durable;
    InvKept(e);
    assert PlacedCommit(e.log, e.catalog, x) && PlacedCommit(e.log, e.catalog, y);
    assert SameMoment(e.log, e.catalog, x, y);
  }

  // A branch's commits by falling sequence.
  method BranchCommits(e: Engine, b: Name) returns (commits: seq<CommitId>)
    requires Inv(e)
    ensures forall j, k :: 0 <= j < k < |commits| ==> SequenceOf(e, commits[j]) > SequenceOf(e, commits[k])
    ensures forall id :: id in commits <==> OfBranch(e, id, b)
  {
    hide Inv, SequenceOf, BranchOf;
    var listing: seq<CommitId> := [];
    var todo := e.catalog.commits.Keys;
    while todo != {}
      invariant todo <= e.catalog.commits.Keys
      invariant forall id :: id in listing <==> id in e.catalog.commits && id !in todo && BranchOf(e, id) == b
      invariant forall j, k :: 0 <= j < k < |listing| ==> listing[j] != listing[k]
    {
      var id :| id in todo;
      todo := todo - {id};
      if BranchOf(e, id) == b {
        listing := listing + [id];
      }
    }
    commits := SpillSort.StableSort(ByFallingSequence(e), listing);
    FallingOrder(e, b, listing, commits);
  }

  lemma FallingOrder(e: Engine, b: Name, listing: seq<CommitId>, commits: seq<CommitId>)
    requires Inv(e) && commits == SpillSort.StableSort(ByFallingSequence(e), listing)
    requires forall id :: id in listing <==> OfBranch(e, id, b)
    requires forall j, k :: 0 <= j < k < |listing| ==> listing[j] != listing[k]
    ensures forall j, k :: 0 <= j < k < |commits| ==> SequenceOf(e, commits[j]) > SequenceOf(e, commits[k])
    ensures forall id :: id in commits <==> OfBranch(e, id, b)
  {
    hide Inv, SequenceOf, BranchOf;
    SpillSort.StableSortMultiset(ByFallingSequence(e), listing);
    assert SpillSort.Consistent(ByFallingSequence(e));
    SpillSort.StableSortIs(ByFallingSequence(e), listing);
    forall id ensures id in commits <==> id in listing {
      assert id in multiset(commits) <==> id in multiset(listing);
    }
    forall j, k | 0 <= j < k < |commits| ensures SequenceOf(e, commits[j]) > SequenceOf(e, commits[k]) {
      assert ByFallingSequence(e)(commits[j], commits[k]) <= 0;
      DistinctSame(listing, commits, j, k);
      assert commits[j] in commits && commits[k] in commits;
      if SequenceOf(e, commits[j]) == SequenceOf(e, commits[k]) {
        OneMoment(e, commits[j], commits[k]);
      }
    }
  }

  lemma {:induction false} DistinctCounts(s: seq<CommitId>, x: CommitId)
    requires forall j, k :: 0 <= j < k < |s| ==> s[j] != s[k]
    ensures multiset(s)[x] <= 1
  {
    if s != [] {
      var init, last := s[..|s| - 1], s[|s| - 1];
      DistinctCounts(init, x);
      assert s == init + [last];
      assert x == last ==> x !in init;
    }
  }

  lemma DistinctSame(s: seq<CommitId>, t: seq<CommitId>, j: nat, k: nat)
    requires forall j, k :: 0 <= j < k < |s| ==> s[j] != s[k]
    requires multiset(s) == multiset(t) && j < k < |t|
    ensures t[j] != t[k]
  {
    DistinctCounts(s, t[j]);
    assert t == t[..k] + [t[k]] + t[k + 1..];
    assert t[..k][j] == t[j];
    assert t[j] in multiset(t[..k]);
  }

  /** The commits that a collection keeps: exactly those that the policy, a name, a snapshot or a stream holds. */
  method RetainedCommitIds(e: Engine, retention: Retention, users: Users) returns (retained: set<CommitId>)
    requires Inv(e) && users.pins <= e.catalog.commits.Keys
    ensures forall id :: id in retained <==> id in e.catalog.commits && Retains(e, retention, users, id)
  {
    hide Inv, SequenceOf, BranchOf, LaterThan;
    if retention.Forever? {
      return e.catalog.commits.Keys;
    }
    NamedPresent(e, users);
    retained := (set b | b in e.catalog.branches :: e.catalog.branches[b].head) + (set b | b in e.catalog.branches :: e.catalog.branches[b].base)
                + (set name | name in e.catalog.retains :: e.catalog.retains[name]) + users.pins;
    retained := retained + set id | id in e.catalog.commits && Young(users, retention.keepYoungerThan, id);
    var todo := e.catalog.branches.Keys;
    while todo != {}
      invariant todo <= e.catalog.branches.Keys
      invariant forall id :: id in retained <==> id in e.catalog.commits && (HeldBySome(e, retention, users, id) || AmongLast(e, retention.keepAtLeast, todo, id))
    {
      var b :| b in todo;
      todo := todo - {b};
      var commits := BranchCommits(e, b);
      var n := if retention.keepAtLeast < |commits| then retention.keepAtLeast else |commits|;
      LastOfBranch(e, commits, b, n, retention.keepAtLeast);
      var last := set i | 0 <= i < n :: commits[i];
      assert forall id :: id in last <==> exists i :: 0 <= i < n && commits[i] == id;
      assert forall id :: id in last <==> OfBranch(e, id, b) && |LaterThan(e, id)| < retention.keepAtLeast;
      assert forall id :: AmongLast(e, retention.keepAtLeast, todo, id) <==> AmongLast(e, retention.keepAtLeast, todo + {b}, id) || (BranchOf(e, id) == b && |LaterThan(e, id)| < retention.keepAtLeast);
      retained := retained + last;
    }
    BranchesKnown(e);
    for i := 0 to |users.subscribers|
      invariant forall id :: id in retained <==> id in e.catalog.commits && (HeldByPolicy(e, retention, users, id) || AwaitedUpTo(e, users, id, i))
    {
      retained := retained + set id | id in e.catalog.commits && BranchOf(e, id) == users.subscribers[i].branch && SequenceOf(e, id) > users.subscribers[i].retainAfter;
    }
  }

  predicate HeldBySome(e: Engine, retention: Retention, users: Users, id: CommitId)
    requires retention.Window?
  {
    Named(e, users, id) || Young(users, retention.keepYoungerThan, id)
  }

  predicate HeldByPolicy(e: Engine, retention: Retention, users: Users, id: CommitId)
    requires retention.Window?
  {
    HeldBySome(e, retention, users, id) || |LaterThan(e, id)| < retention.keepAtLeast
  }

  predicate AmongLast(e: Engine, keep: nat, todo: set<Name>, id: CommitId) {
    BranchOf(e, id) in e.catalog.branches && BranchOf(e, id) !in todo && |LaterThan(e, id)| < keep
  }

  predicate AwaitedUpTo(e: Engine, users: Users, id: CommitId, n: nat) {
    exists i :: 0 <= i < n && i < |users.subscribers| && BranchOf(e, id) == users.subscribers[i].branch && SequenceOf(e, id) > users.subscribers[i].retainAfter
  }

  lemma NamedPresent(e: Engine, users: Users)
    requires Inv(e) && users.pins <= e.catalog.commits.Keys
    ensures forall id :: Named(e, users, id) ==> id in e.catalog.commits
  {
    hide SoundCommit, EntryOf, Faithful, Load, Durable, PlacedCommit, SameMoment;
    InvKept(e);
    assert forall b :: b in e.catalog.branches ==> HeadAt(e.log, e.catalog, b);
  }

  lemma BranchesKnown(e: Engine)
    requires Inv(e)
    ensures forall id :: id in e.catalog.commits ==> BranchOf(e, id) in e.catalog.branches
  {
    hide SoundCommit, EntryOf, Faithful, Load, Durable, SameMoment, HeadAt;
    InvKept(e);
    assert forall id :: id in e.catalog.commits ==> PlacedCommit(e.log, e.catalog, id);
  }

  lemma LastOfBranch(e: Engine, commits: seq<CommitId>, b: Name, n: nat, keep: nat)
    requires forall j, k :: 0 <= j < k < |commits| ==> SequenceOf(e, commits[j]) > SequenceOf(e, commits[k])
    requires forall id :: id in commits <==> OfBranch(e, id, b)
    requires n == if keep < |commits| then keep else |commits|
    ensures forall id :: (exists i :: 0 <= i < n && commits[i] == id) <==> OfBranch(e, id, b) && |LaterThan(e, id)| < keep
  {
    hide SequenceOf, BranchOf, LaterThan;
    forall i | 0 <= i < |commits| ensures |LaterThan(e, commits[i])| == i {
      RankOf(e, commits, i, b);
    }
    forall id ensures (exists i :: 0 <= i < n && commits[i] == id) <==> OfBranch(e, id, b) && |LaterThan(e, id)| < keep {
      if OfBranch(e, id, b) {
        assert id in commits;
      }
      if i :| 0 <= i < n && commits[i] == id {
        assert commits[i] in commits;
      }
    }
  }

  // ---------- writing the compacted log ----------

  method ListOf(all: set<nat>) returns (listing: seq<nat>)
    ensures Listed(listing, all)
  {
    listing := [];
    var todo := all;
    while todo != {}
      invariant todo <= all && Listed(listing, all - todo)
    {
      var x :| x in todo;
      todo := todo - {x};
      listing := listing + [x];
    }
  }

  function AllRoots(e: Engine, listing: seq<CommitId>): seq<P.Root> {
    if listing == [] then [] else AllRoots(e, listing[..|listing| - 1]) + RecordOf(e.log, e.catalog, listing[|listing| - 1]).roots
  }

  // The roots of every retained commit, one after the other.
  method GatherRoots(e: Engine, listing: seq<CommitId>) returns (roots: seq<P.Root>, ghost heights: seq<nat>)
    requires Inv(e) && forall id :: id in listing ==> id in e.catalog.commits
    ensures roots == AllRoots(e, listing) && P.SoundRoots(PagesOf(e.log), roots, heights, e.maxEntries)
  {
    hide Inv, PagesOf, P.SoundRoot, RecordOf;
    roots, heights := [], [];
    for i := 0 to |listing|
      invariant roots == AllRoots(e, listing[..i]) && P.SoundRoots(PagesOf(e.log), roots, heights, e.maxEntries)
    {
      assert listing[..i + 1][..i] == listing[..i];
      var record := RecordOf(e.log, e.catalog, listing[i]);
      RootsSound(e, listing[i]);
      ghost var mine := HeightsOf(PagesOf(e.log), record.roots, e.maxEntries);
      roots := roots + record.roots;
      heights := heights + mine;
    }
    assert listing[..|listing|] == listing;
  }

  lemma RootsSound(e: Engine, id: CommitId)
    requires Inv(e) && id in e.catalog.commits
    ensures SoundAll(PagesOf(e.log), RecordOf(e.log, e.catalog, id).roots, e.maxEntries)
  {
    hide HeadAt, EntryOf, Faithful, Load, Durable, SameMoment, SoundAll, PagesOf;
    InvKept(e);
    assert PlacedCommit(e.log, e.catalog, id) && SoundCommit(e.log, e.catalog, id, e.maxEntries);
  }

  ghost function HeightsOf(pages: P.Pages, roots: seq<P.Root>, m: nat): (heights: seq<nat>)
    requires SoundAll(pages, roots, m)
    ensures P.SoundRoots(pages, roots, heights, m)
  {
    seq(|roots|, i requires 0 <= i < |roots| => HeightOf(pages, roots[i], m))
  }

  ghost function HeightOf(pages: P.Pages, root: P.Root, m: nat): (h: nat)
    requires Sound(pages, root, m)
    ensures P.SoundRoot(pages, root, h, m)
  {
    var h :| P.SoundRoot(pages, root, h, m);
    h
  }

  // The commits with the roots that copying gave back.
  method WriteCommits(e: Engine, listing: seq<CommitId>, copied: seq<P.Root>, ghost moved: map<Slot, Slot>) returns (commits: seq<CommitRecord>)
    requires copied == MovedRoots(AllRoots(e, listing), moved)
    ensures commits == seq(|listing|, i requires 0 <= i < |listing| => CopyOf(e.log, e.catalog, moved, listing[i]))
  {
    hide RecordOf, P.Moved;
    commits := [];
    var offset := 0;
    assert listing[..|listing|] == listing;
    assert AllRoots(e, listing[..0]) == [];
    for i := 0 to |listing|
      invariant |commits| == i && forall k :: 0 <= k < i ==> commits[k] == CopyOf(e.log, e.catalog, moved, listing[k])
      invariant offset == |AllRoots(e, listing[..i])|
    {
      var record := RecordOf(e.log, e.catalog, listing[i]);
      RootsAt(e, listing, i);
      var roots := copied[offset..offset + |record.roots|];
      assert roots == MovedRoots(record.roots, moved) by {
        forall k | 0 <= k < |roots| ensures roots[k] == P.Moved(record.roots[k], moved) {
          assert copied[offset + k] == P.Moved(AllRoots(e, listing)[offset + k], moved);
          assert AllRoots(e, listing)[offset..offset + |record.roots|][k] == record.roots[k];
        }
      }
      commits := commits + [CommitEntry(listing[i], record.branch, record.sequence, roots)];
      offset := offset + |record.roots|;
      assert listing[..i + 1][..i] == listing[..i];
    }
  }

  lemma {:induction false} RootsAt(e: Engine, listing: seq<CommitId>, i: nat)
    requires i < |listing|
    ensures var n, mine := |AllRoots(e, listing[..i])|, RecordOf(e.log, e.catalog, listing[i]).roots;
      n + |mine| <= |AllRoots(e, listing)| && AllRoots(e, listing)[n..n + |mine|] == mine
    decreases |listing|
  {
    hide RecordOf;
    var init := listing[..|listing| - 1];
    if i < |init| {
      RootsAt(e, init, i);
      assert init[..i] == listing[..i];
      var n, mine := |AllRoots(e, listing[..i])|, RecordOf(e.log, e.catalog, listing[i]).roots;
      assert AllRoots(e, listing)[n..n + |mine|] == AllRoots(e, init)[n..n + |mine|];
    } else {
      assert listing[..i] == init;
    }
  }

  // The refs of one branch: its base, then its retained commits by sequence.
  method WriteBranchRefs(b: Name, state: BranchState, commits: seq<CommitRecord>) returns (refs: seq<Entry>)
    ensures refs == BranchRefs(b, state, Mine(commits, b))
  {
    hide SpillSort.StableSort, OnBranch;
    refs := [RefEntry(true, b, state.base, 0)];
    var mine := SpillSort.StableSort(BySequence(), OnBranch(commits, b));
    for k := 0 to |mine|
      invariant refs == [RefEntry(true, b, state.base, 0)] + RefsOf(b, Later(mine[..k]))
    {
      assert mine[..k + 1][..k] == mine[..k];
      if mine[k].sequence != 0 {
        refs := refs + [RefEntry(false, b, mine[k].id, mine[k].sequence)];
      }
    }
    assert mine[..|mine|] == mine;
  }

  method WriteRefs(e: Engine, commits: seq<CommitRecord>, branches: seq<Name>) returns (refs: seq<Entry>)
    requires forall i :: 0 <= i < |branches| ==> branches[i] in e.catalog.branches
    ensures refs == AllRefs(BranchLogs(e.catalog, commits, branches))
  {
    hide Mine, BranchRefs;
    ghost var bls := BranchLogs(e.catalog, commits, branches);
    refs := [];
    for i := 0 to |branches|
      invariant refs == AllRefs(bls[..i])
    {
      var b := branches[i];
      var mine := WriteBranchRefs(b, e.catalog.branches[b], commits);
      refs := refs + mine;
      assert bls[i] == BranchLog(b, e.catalog.branches[b], Mine(commits, b));
      assert bls[..i + 1][..i] == bls[..i];
    }
    assert bls[..|branches|] == bls;
  }

  function RefsOf(b: Name, mine: seq<CommitRecord>): seq<Entry> {
    seq(|mine|, i requires 0 <= i < |mine| => RefEntry(false, b, mine[i].id, mine[i].sequence))
  }

  method FloorsFor(e: Engine, commits: seq<CommitRecord>) returns (floors: map<Name, nat>)
    ensures floors == Floors(e.catalog, commits)
  {
    hide SequencesOn, FloorOf;
    floors := map[];
    var todo := e.catalog.branches.Keys;
    while todo != {}
      invariant todo <= e.catalog.branches.Keys
      invariant floors == map b | b in e.catalog.branches && b !in todo :: FloorOf(e.catalog.branches[b].sequence, SequencesOn(commits, b))
    {
      var b :| b in todo;
      todo := todo - {b};
      var floor := HistoryFloor(e.catalog.branches[b].sequence, SequencesOn(commits, b));
      floors := floors[b := floor];
    }
  }

  method PagesInOrder(tree: B.ImmutableBPlusTree) returns (pages: seq<P.Page>)
    requires P.Gapless(tree.pages, tree.nextId)
    ensures |pages| == tree.nextId && PageMap(pages) == tree.pages
  {
    pages := [];
    for i := 0 to tree.nextId
      invariant |pages| == i && forall k :: 0 <= k < i ==> pages[k] == tree.pages[k]
    {
      pages := pages + [tree.pages[i]];
    }
  }

  /** Copies the trees of the retained commits to a new file, writes commits, refs and floors behind them, and
      replaces the log: the compaction step of the engine, with what copying gives. */
  method CollectGarbageNow(e: Engine, tree: B.ImmutableBPlusTree, target: B.ImmutableBPlusTree, retained: set<CommitId>)
    returns (after: Engine, ghost c: Collection)
    requires Inv(e) && tree.pages == PagesOf(e.log) && tree.maxEntries == e.maxEntries
    requires target != tree && target.Consistent() && target.pages == map[] && target.nextId == 0
    requires retained <= e.catalog.commits.Keys
    requires forall id :: Named(e, Users({}, [], map[], 0), id) ==> id in retained
    modifies target`pages, target`nextId
    ensures forall id :: id in c.listing <==> id in retained
    ensures Enabled(e, Compact(c)) && after == Do(e, Compact(c)) && Inv(after)
  {
    hide Inv, PagesOf, P.Relocated, P.Ascending, RecordOf, Copies, BranchLogs, Floors, P.SoundRoots, P.CopiedRoots, P.SameTree, AllRefs;
    var listing := ListOf(retained);
    var branches := ListOf(e.catalog.branches.Keys);
    var roots; ghost var heights;
    roots, heights := GatherRoots(e, listing);
    assert P.Gapless(target.pages, target.nextId);
    var copied, pagesCopied; ghost var moved;
    copied, pagesCopied, moved := tree.CopyRootsTo(roots, target, heights);
    var pages := PagesInOrder(target);
    c := Collection(listing, branches, pages, moved);
    CopiedAreMoved(PagesOf(e.log), roots, heights, e.maxEntries, moved, copied);
    var commits := WriteCommits(e, listing, copied, moved);
    assert commits == Copies(e.log, e.catalog, c) by {
      CopiesAre(e.log, e.catalog, c, commits);
    }
    var refs := WriteRefs(e, commits, branches);
    var floors := FloorsFor(e, commits);
    var log: Log := PageEntries(pages) + commits + refs + [MetaEntry(e.catalog.retains, floors)];
    RootsAllMoved(e, listing, roots, moved);
    Collectable(e, c, retained);
    after := Engine(log, Catalog(e.catalog.branches, map id | id in listing :: |pages| + IndexIn(listing, id), e.catalog.retains, floors), |log|, e.maxEntries);
    StepKeepsInv(e, Compact(c));
  }

  /** A whole collection: what the policy, names, snapshots and streams hold is kept, and nothing else. */
  method Collect(e: Engine, tree: B.ImmutableBPlusTree, target: B.ImmutableBPlusTree, retention: Retention, users: Users)
    returns (after: Engine, ghost c: Collection)
    requires Inv(e) && tree.pages == PagesOf(e.log) && tree.maxEntries == e.maxEntries && users.pins <= e.catalog.commits.Keys
    requires target != tree && target.Consistent() && target.pages == map[] && target.nextId == 0
    modifies target`pages, target`nextId
    ensures Enabled(e, Compact(c)) && after == Do(e, Compact(c)) && Inv(after)
    ensures forall id :: id in after.catalog.commits <==> id in e.catalog.commits && Retains(e, retention, users, id)
  {
    hide Inv, PagesOf, Compacted, Copies, Floors, RecordOf, LaterThan, Enabled;
    var retained := RetainedCommitIds(e, retention, users);
    NamedPresent(e, users);
    NamedRetained(e, retention, users);
    after, c := CollectGarbageNow(e, tree, target, retained);
  }

  lemma NamedRetained(e: Engine, retention: Retention, users: Users)
    ensures forall id :: Named(e, Users({}, [], map[], 0), id) ==> Named(e, users, id) && Retains(e, retention, users, id)
  {
  }

  lemma CopiesAre(log: Log, catalog: Catalog, c: Collection, commits: seq<CommitRecord>)
    requires commits == seq(|c.listing|, i requires 0 <= i < |c.listing| => CopyOf(log, catalog, c.moved, c.listing[i]))
    ensures commits == Copies(log, catalog, c)
  {
  }

  lemma CopiedAreMoved(pages: P.Pages, roots: seq<P.Root>, heights: seq<nat>, m: nat, moved: map<Slot, Slot>, copied: seq<P.Root>)
    requires P.SoundRoots(pages, roots, heights, m) && P.CopiedRoots(pages, roots, heights, m, moved, copied)
    ensures copied == MovedRoots(roots, moved) && RootsMoved(roots, moved)
  {
    hide P.RootsReach, P.SoundRoot;
  }

  lemma RootsAllMoved(e: Engine, listing: seq<CommitId>, roots: seq<P.Root>, moved: map<Slot, Slot>)
    requires roots == AllRoots(e, listing) && RootsMoved(roots, moved)
    ensures forall id :: id in listing ==> RootsMoved(RecordOf(e.log, e.catalog, id).roots, moved)
  {
    hide RecordOf;
    forall id | id in listing ensures RootsMoved(RecordOf(e.log, e.catalog, id).roots, moved) {
      var i :| 0 <= i < |listing| && listing[i] == id;
      RootsAt(e, listing, i);
      var n, mine := |AllRoots(e, listing[..i])|, RecordOf(e.log, e.catalog, id).roots;
      forall k | 0 <= k < |mine| && mine[k].Some? ensures mine[k].value in moved {
        assert roots[n + k] == roots[n..n + |mine|][k] == mine[k];
      }
    }
  }

  lemma Collectable(e: Engine, c: Collection, retained: set<CommitId>)
    requires retained <= e.catalog.commits.Keys && Listed(c.listing, retained) && Listed(c.branches, e.catalog.branches.Keys)
    requires forall id :: Named(e, Users({}, [], map[], 0), id) ==> id in retained
    requires forall id :: id in c.listing ==> RootsMoved(RecordOf(e.log, e.catalog, id).roots, c.moved)
    requires P.Relocated(PagesOf(e.log), PageMap(c.pages), c.moved) && P.Ascending(PageMap(c.pages), |c.pages|)
    ensures CanCompact(e.log, e.catalog, c)
  {
    hide P.Relocated, P.Ascending, RecordOf, PagesOf, RootsMoved;
    assert forall b :: b in e.catalog.branches ==> Named(e, Users({}, [], map[], 0), e.catalog.branches[b].head);
    assert forall b :: b in e.catalog.branches ==> Named(e, Users({}, [], map[], 0), e.catalog.branches[b].base);
    assert forall name :: name in e.catalog.retains ==> Named(e, Users({}, [], map[], 0), e.catalog.retains[name]);
  }
}
