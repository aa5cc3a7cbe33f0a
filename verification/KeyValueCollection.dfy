// Prune, mark and sweep keep the invariants.
module KeyValueCollection {
  import opened PageGraph
  import opened KeyValueStorage
  import opened KeyValueInvariants
  import opened KeyValueCommits

  // ---------- start ----------

  lemma StartHeads(cycle: Cycle, branches: Branches, commits: Commits)
    requires Named(branches, commits) && Shape(branches, commits)
    requires cycle.known == commits.Keys && cycle.heads == Heads(branches) && cycle.sequences == Sequences(branches)
    ensures HeadsKept(cycle, branches, commits) && HeadsCovered(cycle, branches)
  {
    hide AtHead, Present, Belongs, IsBase;
    forall h | h in cycle.heads
      ensures h in commits
      ensures IsBase(branches, h)
          || (commits[h].branch in cycle.sequences && commits[h].sequence >= cycle.sequences[commits[h].branch])
    {
      var b :| b in branches && branches[b].head == h;
      StartHead(branches, commits, b);
    }
  }

  lemma StartHead(branches: Branches, commits: Commits, b: Name)
    requires b in branches && Present(branches[b], commits) && AtHead(b, branches[b], commits)
    ensures branches[b].head in commits
    ensures IsBase(branches, branches[b].head)
        || (commits[branches[b].head].branch == b && commits[branches[b].head].sequence == branches[b].sequence)
  {
  }

  lemma StartCommits(cycle: Cycle, branches: Branches, commits: Commits, graph: Graph, limit: PageId, pages: set<PageId>)
    requires cycle.known == commits.Keys && WellFounded(graph, limit) && limit <= cycle.cutoff && Held(commits, graph, pages)
    ensures OldRoots(cycle, commits) && Anchored(cycle, branches, commits, graph)
  {
    hide ReachedBy;
    forall c, r | c in cycle.known && c in commits && r in commits[c].roots ensures r < cycle.cutoff {
      assert r in graph;
    }
  }

  lemma StartKeeps(s: State, now: int)
    requires Inv(s) && CanStart(s)
    ensures Inv(Start(s, now))
  {
    hide Held, WellFounded, Named, Shape, NoGaps, Dense, Recorded, Retained, Opened, ReadersOk, HeadsKept, HeadsCovered, OldRoots, Anchored, Heads, Sequences;
    var cycle := Start(s, now).phase.cycle;
    StartHeads(cycle, s.branches, s.store.commits);
    StartCommits(cycle, s.branches, s.store.commits, s.graph, s.store.nextPageId, s.store.pages);
  }

  lemma StopKeeps(s: State)
    requires Inv(s) && CanStop(s)
    ensures Inv(Stop(s))
  {
    hide StoreOk, Named, Opened, ReadersOk, CommitReady;
  }

  // ---------- prune ----------

  lemma SelectedUnnamed(s: State, cycle: Cycle, slice: set<CommitId>)
    requires Inv(s) && s.phase == Prune(cycle)
    ensures var removed := Selected(s, cycle, slice);
      Unnamed(removed, s.branches, s.retains) && Unpinned(removed, s.pins) && removed <= s.store.commits.Keys
  {
    hide Inv, PolicyKeeps, Awaited;
    forall b | b in s.branches
      ensures s.branches[b].head in Heads(s.branches) && s.branches[b].base in Bases(s.branches)
    {
    }
  }

  // The fixed horizon: no starting head is selected.
  lemma SelectedSparesHeads(s: State, cycle: Cycle, slice: set<CommitId>)
    requires HeadsKept(cycle, s.branches, s.store.commits)
    requires cycle.retention.Window? ==> cycle.retention.keepAtLeast >= 1
    ensures Selected(s, cycle, slice) !! cycle.heads
  {
    hide Awaited;
    var removed := Selected(s, cycle, slice);
    forall h | h in cycle.heads ensures h !in removed {
      if IsBase(s.branches, h) {
        assert h in Bases(s.branches);
      }
    }
  }

  lemma FloorsBehindReaders(s: State, cycle: Cycle, slice: set<CommitId>, floors: map<Name, nat>)
    requires ReadersOk(s.readers, s.branches, s.pendingFloors, s.ever)
    requires RaisedFloors(s.branches, s.store.commits, Selected(s, cycle, slice), floors)
    ensures ReadersOk(s.readers, s.branches, floors, s.ever)
  {
    hide Streams, RaisedFloors, Lost, Selected;
    forall i | i in s.readers ensures Ahead(s.readers[i], s.branches, floors) {
      assert Ahead(s.readers[i], s.branches, s.pendingFloors);
      if s.readers[i].branch in floors {
        FloorBehind(s, cycle, slice, floors, i);
      }
    }
  }

  lemma FloorBehind(s: State, cycle: Cycle, slice: set<CommitId>, floors: map<Name, nat>, i: ReaderId)
    requires i in s.readers && s.readers[i].branch in s.branches && s.readers[i].branch in floors
    requires RaisedFloors(s.branches, s.store.commits, Selected(s, cycle, slice), floors)
    requires s.branches[s.readers[i].branch].floor <= s.readers[i].retainAfter
    ensures floors[s.readers[i].branch] <= s.readers[i].retainAfter
  {
    hide PolicyKeeps, Rooted;
    var b := s.readers[i].branch;
    if floors[b] != s.branches[b].floor {
      var id :| id in Selected(s, cycle, slice) && id in s.store.commits && s.store.commits[id].branch == b && s.store.commits[id].sequence == floors[b];
      assert !Awaited(s, s.store.commits[id]);
    }
  }

  lemma SelectKeeps(s: State, slice: set<CommitId>, floors: map<Name, nat>)
    requires Inv(s) && CanSelect(s, slice, floors)
    ensures Inv(Select(s, slice, floors))
  {
    hide StoreOk, Named, Opened, ReadersOk, Selected, RaisedFloors, HeadsKept, HeadsCovered, OldRoots, Anchored, Unnamed, Unpinned;
    var cycle := s.phase.cycle;
    SelectedUnnamed(s, cycle, slice);
    SelectedSparesHeads(s, cycle, slice);
    FloorsBehindReaders(s, cycle, slice, floors);
  }

  lemma ReferencesByPrune(commits: Commits, removed: set<CommitId>, branches: Branches, retains: map<Name, CommitId>,
      open: multiset<CommitId>, pins: multiset<CommitId>)
    requires Named(branches, commits) && Retained(retains, commits) && Opened(open, pins, commits)
    requires Unnamed(removed, branches, retains) && Unpinned(removed, pins)
    ensures Named(branches, commits - removed) && Retained(retains, commits - removed) && Opened(open, pins, commits - removed)
  {
    forall b | b in branches ensures Present(branches[b], commits - removed) {
      assert Present(branches[b], commits);
    }
  }

  lemma HeldByPrune(commits: Commits, graph: Graph, pages: set<PageId>, removed: set<CommitId>)
    requires Held(commits, graph, pages)
    ensures Held(commits - removed, graph, pages)
  {
    hide ReachedBy;
  }

  lemma ShapeByPrune(branches: Branches, commits: Commits, removed: set<CommitId>, floors: map<Name, nat>)
    requires Shape(branches, commits) && Named(branches, commits - removed)
    ensures Shape(WithFloors(branches, floors), commits - removed) && Named(WithFloors(branches, floors), commits - removed)
  {
    hide AtHead, Present, Belongs;
    forall b | b in branches
      ensures AtHead(b, WithFloors(branches, floors)[b], commits - removed) && Present(WithFloors(branches, floors)[b], commits - removed)
    {
      BranchByPrune(branches, commits, removed, floors, b);
    }
    forall c | c in commits && c !in removed ensures Belongs(commits[c], WithFloors(branches, floors)) {
      BelongsByPrune(branches, floors, commits[c]);
    }
  }

  lemma BranchByPrune(branches: Branches, commits: Commits, removed: set<CommitId>, floors: map<Name, nat>, b: Name)
    requires b in branches && AtHead(b, branches[b], commits) && Present(branches[b], commits - removed)
    ensures AtHead(b, WithFloors(branches, floors)[b], commits - removed) && Present(WithFloors(branches, floors)[b], commits - removed)
  {
  }

  lemma BelongsByPrune(branches: Branches, floors: map<Name, nat>, c: Commit)
    requires Belongs(c, branches)
    ensures Belongs(c, WithFloors(branches, floors))
  {
  }

  // Only records at or below the new floors go.
  lemma GapsByPrune(branches: Branches, commits: Commits, history: History, ever: History, removed: set<CommitId>, floors: map<Name, nat>)
    requires NoGaps(branches, history) && Dense(branches, ever) && RaisedFloors(branches, commits, removed, floors)
    ensures NoGaps(WithFloors(branches, floors), history - Moments(commits, removed)) && Dense(WithFloors(branches, floors), ever)
  {
    hide Lost;
  }

  lemma RecordedByPrune(commits: Commits, history: History, ever: History, removed: set<CommitId>)
    requires Recorded(commits, history, ever) && removed <= commits.Keys
    ensures Recorded(commits - removed, history - Moments(commits, removed), ever)
  {
    var commits', history' := commits - removed, history - Moments(commits, removed);
    forall k | k in history' ensures history[k] !in removed {
    }
    forall c | c in commits' && commits[c].sequence > 0
      ensures Moment(commits[c].branch, commits[c].sequence) !in Moments(commits, removed)
    {
    }
  }

  lemma StoreByPrune(s: State)
    requires Inv(s) && CanPublishPrune(s)
    ensures StoreOk(PublishPrune(s).store, PublishPrune(s).graph, PublishPrune(s).ever)
  {
    hide CollectionOk, Held, WellFounded, Named, Shape, NoGaps, Dense, Recorded, Retained, Opened, ReadersOk, CommitReady,
      Unnamed, Unpinned, RaisedFloors, WithFloors, Moments;
    LaterLimit(s.graph, s.store.nextPageId, s.nextPageId);
    ReferencesByPrune(s.store.commits, s.job.removed, s.branches, s.retains, s.open, s.pins);
    HeldByPrune(s.store.commits, s.graph, s.store.pages, s.job.removed);
    ShapeByPrune(s.branches, s.store.commits, s.job.removed, s.job.floors);
    GapsByPrune(s.branches, s.store.commits, s.store.history, s.ever, s.job.removed, s.job.floors);
    RecordedByPrune(s.store.commits, s.store.history, s.ever, s.job.removed);
  }

  lemma CycleByPrune(cycle: Cycle, branches: Branches, commits: Commits, graph: Graph, removed: set<CommitId>, retains: map<Name, CommitId>)
    requires HeadsKept(cycle, branches, commits) && OldRoots(cycle, commits) && Anchored(cycle, branches, commits, graph)
    requires Unnamed(removed, branches, retains) && removed !! cycle.heads
    ensures HeadsKept(cycle, branches, commits - removed) && OldRoots(cycle, commits - removed)
    ensures Anchored(cycle, branches, commits - removed, graph)
  {
    hide ReachedBy;
    var commits' := commits - removed;
    forall c, x: PageId | c in commits' && c !in cycle.known && x < cycle.cutoff && ReachedBy(graph, commits'[c].roots, x)
      ensures AnchorReaches(cycle, branches, commits', graph, x)
    {
      assert AnchorReaches(cycle, branches, commits, graph, x);
      var a :| Anchor(cycle, branches, commits, a) && ReachedBy(graph, commits[a].roots, x);
      assert Anchor(cycle, branches, commits', a);
    }
  }

  lemma PublishPruneKeeps(s: State)
    requires Inv(s) && CanPublishPrune(s)
    ensures Inv(PublishPrune(s))
  {
    hide StoreOk, Held, WellFounded, Named, Shape, NoGaps, Dense, Recorded, Retained, Opened, ReadersOk,
      Unnamed, Unpinned, RaisedFloors, WithFloors, Moments, HeadsKept, HeadsCovered, OldRoots, Anchored;
    StoreByPrune(s);
    MemoryByPrune(s);
    CycleByPrune(s.phase.cycle, s.branches, s.store.commits, s.graph, s.job.removed, s.retains);
  }

  lemma MemoryByPrune(s: State)
    requires Inv(s) && CanPublishPrune(s)
    ensures MemoryOk(PublishPrune(s))
  {
    hide CollectionOk, Held, WellFounded, Named, Shape, NoGaps, Dense, Recorded, Retained, Opened, ReadersOk,
      Unnamed, Unpinned, RaisedFloors, WithFloors, Moments;
    ReferencesByPrune(s.store.commits, s.job.removed, s.branches, s.retains, s.open, s.pins);
  }

  lemma ReadersBySettlePrune(readers: map<ReaderId, Reader>, branches: Branches, ever: History, floors: map<Name, nat>)
    requires ReadersOk(readers, branches, floors, ever)
    ensures ReadersOk(readers, WithFloors(branches, floors), map[], ever)
  {
    hide Consecutive;
  }

  lemma CycleByFloors(cycle: Cycle, branches: Branches, commits: Commits, graph: Graph, floors: map<Name, nat>)
    requires HeadsKept(cycle, branches, commits) && HeadsCovered(cycle, branches) && Anchored(cycle, branches, commits, graph)
    ensures var branches' := WithFloors(branches, floors);
      HeadsKept(cycle, branches', commits) && HeadsCovered(cycle, branches') && Anchored(cycle, branches', commits, graph)
  {
    hide IsBase, ReachedBy;
    var branches' := WithFloors(branches, floors);
    forall a ensures IsBase(branches, a) ==> IsBase(branches', a) {
      BasesByFloors(branches, floors, a);
    }
    forall d, x: PageId | d in commits && d !in cycle.known && x < cycle.cutoff && ReachedBy(graph, commits[d].roots, x)
      ensures AnchorReaches(cycle, branches', commits, graph, x)
    {
      assert AnchorReaches(cycle, branches, commits, graph, x);
      var a :| Anchor(cycle, branches, commits, a) && ReachedBy(graph, commits[a].roots, x);
      BasesByFloors(branches, floors, a);
      assert Anchor(cycle, branches', commits, a);
    }
  }

  lemma BasesByFloors(branches: Branches, floors: map<Name, nat>, a: CommitId)
    ensures IsBase(branches, a) ==> IsBase(WithFloors(branches, floors), a)
  {
    if b :| b in branches && branches[b].base == a {
      assert WithFloors(branches, floors)[b].base == a;
    }
  }

  lemma SettlePruneKeeps(s: State)
    requires Inv(s) && CanSettlePrune(s)
    ensures Inv(SettlePrune(s))
  {
    hide Held, WellFounded, Named, Shape, NoGaps, Dense, Recorded, Retained, Opened, ReadersOk,
      Unnamed, WithFloors, HeadsKept, HeadsCovered, OldRoots, Anchored;
    ReadersBySettlePrune(s.readers, s.branches, s.ever, s.job.floors);
    CycleByFloors(s.phase.cycle, s.branches, s.store.commits, s.graph, s.job.floors);
  }

  // ---------- mark ----------

  // A mark phase depends on commits, graph and its own fields.
  lemma PhaseFrame(s: State, phase: Phase)
    requires Inv(s) && Active(s.phase) && Active(phase) && phase.cycle == s.phase.cycle && !s.job.Pruning?
    requires PhaseOk(phase, s.store.commits, s.graph)
    ensures Inv(s.(phase := phase))
  {
    hide StoreOk, Named, Opened, ReadersOk, CommitReady, HeadsKept, HeadsCovered, OldRoots, Anchored, PhaseOk, Synced;
  }

  lemma BeginMarkKeeps(s: State)
    requires Inv(s) && CanBeginMark(s)
    ensures Inv(BeginMark(s))
  {
    hide Inv;
    PhaseFrame(s, BeginMark(s).phase);
  }

  lemma NotPruning(s: State)
    requires Inv(s) && (s.phase.Mark? || s.phase.Sweep?)
    ensures !s.job.Pruning? && PhaseOk(s.phase, s.store.commits, s.graph)
    ensures OldRoots(s.phase.cycle, s.store.commits) && Anchored(s.phase.cycle, s.branches, s.store.commits, s.graph)
    ensures WellFounded(s.graph, s.store.nextPageId) && Held(s.store.commits, s.graph, s.store.pages)
  {
    hide Named, Opened, ReadersOk, CommitReady, HeadsKept, HeadsCovered, OldRoots, Anchored, PhaseOk, Synced, Held, WellFounded;
  }

  lemma RootAlive(commits: Commits, graph: Graph, pages: set<PageId>, id: CommitId, r: PageId)
    requires Held(commits, graph, pages) && id in commits && r in commits[id].roots
    ensures Alive(commits, graph, r)
  {
    assert Reaches(graph, r, r);
    assert ReachedBy(graph, commits[id].roots, r);
  }

  lemma MarkCommitKeeps(s: State, id: CommitId, roots: seq<PageId>)
    requires Inv(s) && CanMarkCommit(s, id, roots)
    ensures Inv(MarkCommit(s, id, roots))
  {
    hide Inv, Held, WellFounded, OldRoots, Anchored, Alive;
    NotPruning(s);
    forall r | r in roots ensures Alive(s.store.commits, s.graph, r) {
      RootAlive(s.store.commits, s.graph, s.store.pages, id, r);
    }
    PhaseFrame(s, MarkCommit(s, id, roots).phase);
  }

  lemma ChildAlive(commits: Commits, graph: Graph, limit: PageId, p: PageId, i: nat)
    requires WellFounded(graph, limit) && Alive(commits, graph, p) && p in graph && i < |graph[p]|
    ensures Alive(commits, graph, graph[p][i])
  {
    hide ReachedBy;
    var c :| c in commits && ReachedBy(graph, commits[c].roots, p);
    ReachedChild(graph, limit, commits[c].roots, p, i);
  }

  /** The collector never misses a page that it wants to read. */
  lemma MarkNeverMisses(s: State)
    requires Inv(s) && s.phase.Mark? && s.phase.pending != []
    ensures CanMarkPage(s)
  {
    hide Inv, Held, WellFounded, OldRoots, Anchored, Alive;
    NotPruning(s);
    var p := s.phase.pending[|s.phase.pending| - 1];
    AlivePage(s.store.commits, s.graph, s.store.pages, p);
  }

  lemma AlivePage(commits: Commits, graph: Graph, pages: set<PageId>, p: PageId)
    requires Held(commits, graph, pages) && Alive(commits, graph, p)
    ensures p in pages && p in graph
  {
    hide Reaches;
    var c :| c in commits && ReachedBy(graph, commits[c].roots, p);
    var r :| r in commits[c].roots && Reaches(graph, r, p);
    ReachesDown(graph, r, p);
  }

  lemma MarkOnePage(cycle: Cycle, commits: Commits, graph: Graph, limit: PageId, todo: set<CommitId>, pending: seq<PageId>, marked: set<PageId>)
    requires Marking(cycle, commits, graph, todo, pending, marked) && pending != [] && WellFounded(graph, limit)
    requires OldRoots(cycle, commits)
    ensures var n := |pending| - 1;
      var p := pending[n];
      && (p in marked ==> Marking(cycle, commits, graph, todo, pending[..n], marked))
      && (p >= cycle.cutoff ==> Marking(cycle, commits, graph, todo, pending[..n], marked))
      && (p < cycle.cutoff && p in graph ==> Marking(cycle, commits, graph, todo, pending[..n] + graph[p], marked + {p}))
  {
    hide Alive;
    var n := |pending| - 1;
    var p, rest := pending[n], pending[..n];
    assert pending == rest + [p];
    if p in graph {
      forall i | 0 <= i < |graph[p]| ensures Alive(commits, graph, graph[p][i]) {
        ChildAlive(commits, graph, limit, p, i);
      }
    }
  }

  lemma MarkPageKeeps(s: State)
    requires Inv(s) && CanMarkPage(s)
    ensures Inv(MarkPage(s))
  {
    hide Inv, Held, WellFounded, OldRoots, Anchored, Marking;
    NotPruning(s);
    MarkOnePage(s.phase.cycle, s.store.commits, s.graph, s.store.nextPageId, s.phase.todo, s.phase.pending, s.phase.marked);
    PhaseFrame(s, MarkPage(s).phase);
  }

  lemma MarkedEnough(cycle: Cycle, commits: Commits, graph: Graph, marked: set<PageId>)
    requires Marking(cycle, commits, graph, {}, [], marked)
    ensures Swept(cycle, commits, graph, marked)
  {
    hide Alive, Reaches;
    assert Closed(graph, marked);
    forall a, x | a in cycle.known && a in commits && ReachedBy(graph, commits[a].roots, x) ensures x in marked {
      var r :| r in commits[a].roots && Reaches(graph, r, x);
      ClosedReach(graph, marked, r, x);
    }
  }

  lemma BeginSweepKeeps(s: State)
    requires Inv(s) && CanBeginSweep(s)
    ensures Inv(BeginSweep(s))
  {
    hide Inv, Held, WellFounded, OldRoots, Anchored, Marking, Swept;
    NotPruning(s);
    MarkedEnough(s.phase.cycle, s.store.commits, s.graph, s.phase.marked);
    PhaseFrame(s, BeginSweep(s).phase);
  }

  // ---------- sweep ----------

  // A page below the cutoff that a present commit reaches is marked.
  lemma ReachedIsMarked(cycle: Cycle, branches: Branches, commits: Commits, graph: Graph, marked: set<PageId>, c: CommitId, x: PageId)
    requires Swept(cycle, commits, graph, marked) && Anchored(cycle, branches, commits, graph)
    requires c in commits && ReachedBy(graph, commits[c].roots, x) && x < cycle.cutoff
    ensures x in marked
  {
    hide ReachedBy;
    if c !in cycle.known {
      assert AnchorReaches(cycle, branches, commits, graph, x);
    }
  }

  lemma HeldBySweep(cycle: Cycle, branches: Branches, commits: Commits, graph: Graph, pages: set<PageId>, marked: set<PageId>, garbage: set<PageId>)
    requires Held(commits, graph, pages) && Swept(cycle, commits, graph, marked) && Anchored(cycle, branches, commits, graph)
    requires forall p :: p in garbage ==> p < cycle.cutoff && p !in marked
    ensures Held(commits, graph, pages - garbage)
  {
    hide ReachedBy, Swept, Anchored;
    forall c, x | c in commits && ReachedBy(graph, commits[c].roots, x) ensures x in pages - garbage {
      if x in garbage {
        ReachedIsMarked(cycle, branches, commits, graph, marked, c, x);
      }
    }
  }

  lemma SweepKeeps(s: State, slice: set<PageId>)
    requires Inv(s) && CanSweep(s)
    ensures Inv(SweepSlice(s, slice))
  {
    hide Named, Shape, NoGaps, Dense, Recorded, Retained, Opened, ReadersOk, Anchored, Swept, Held, WellFounded, CollectionOk;
    assert Held(s.store.commits, s.graph, s.store.pages - Garbage(s, slice)) by {
      NotPruning(s);
      HeldBySweep(s.phase.cycle, s.branches, s.store.commits, s.graph, s.store.pages, s.phase.marked, Garbage(s, slice));
    }
    LaterLimit(s.graph, s.store.nextPageId, s.nextPageId);
    CollectionFrame(s, SweepSlice(s, slice));
  }
}
