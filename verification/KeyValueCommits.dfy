// Commits, branches, retained commits, snapshots and streams keep the invariants.
module KeyValueCommits {
  import opened PageGraph
  import opened KeyValueStorage
  import opened KeyValueInvariants

  // ---------- what a new commit does to each part ----------

  lemma HeldByCommit(commits: Commits, graph: Graph, limit: PageId, pages: set<PageId>, id: CommitId, c: Commit,
      written: Graph, next: PageId, parent: set<PageId>)
    requires Held(commits, graph, pages) && WellFounded(graph, limit) && limit <= next
    requires Derived(graph, limit, written, next, parent) && DerivedRoots(graph, written, parent, c.roots)
    requires forall x :: ReachedBy(graph, parent, x) ==> x in graph && x in pages
    ensures Held(commits[id := c], graph + written, pages + written.Keys)
  {
    hide Reaches, ReachedBy;
    var commits', graph', pages' := commits[id := c], graph + written, pages + written.Keys;
    DerivedGrows(graph, limit, written, next, parent);
    forall d, x | d in commits' && ReachedBy(graph', commits'[d].roots, x) ensures x in pages' {
      if d == id {
        DerivedReachedBy(graph, limit, written, next, parent, c.roots, x);
      } else {
        ReachedStable(graph, limit, graph', commits[d].roots, x);
      }
    }
  }

  lemma ParentPages(commits: Commits, graph: Graph, pages: set<PageId>, head: CommitId)
    requires Held(commits, graph, pages) && head in commits
    ensures forall x :: ReachedBy(graph, commits[head].roots, x) ==> x in graph && x in pages
  {
    forall x | ReachedBy(graph, commits[head].roots, x) ensures x in graph {
      var r :| r in commits[head].roots && Reaches(graph, r, x);
      ReachesDown(graph, r, x);
    }
  }

  function Advanced(branches: Branches, id: CommitId, c: Commit): Branches
    requires c.branch in branches
  {
    branches[c.branch := branches[c.branch].(head := id, sequence := c.sequence)]
  }

  lemma BranchByCommit(branches: Branches, commits: Commits, id: CommitId, c: Commit, b: Name)
    requires id !in commits && c.branch in branches && c.sequence == branches[c.branch].sequence + 1
    requires b in branches && AtHead(b, branches[b], commits) && Present(branches[b], commits)
    ensures AtHead(b, Advanced(branches, id, c)[b], commits[id := c]) && Present(Advanced(branches, id, c)[b], commits[id := c])
  {
  }

  lemma BelongsByCommit(branches: Branches, commits: Commits, id: CommitId, c: Commit, d: CommitId)
    requires c.branch in branches && c.sequence == branches[c.branch].sequence + 1
    requires d == id || (d in commits && Belongs(commits[d], branches))
    ensures Belongs(commits[id := c][d], Advanced(branches, id, c))
  {
  }

  lemma ShapeByCommit(branches: Branches, commits: Commits, id: CommitId, c: Commit)
    requires Shape(branches, commits) && Named(branches, commits) && id !in commits
    requires c.branch in branches && c.sequence == branches[c.branch].sequence + 1
    ensures Shape(Advanced(branches, id, c), commits[id := c]) && Named(Advanced(branches, id, c), commits[id := c])
  {
    hide AtHead, Belongs, Present;
    forall d | d in commits || d == id ensures Belongs(commits[id := c][d], Advanced(branches, id, c)) {
      BelongsByCommit(branches, commits, id, c, d);
    }
    forall b | b in branches
      ensures AtHead(b, Advanced(branches, id, c)[b], commits[id := c]) && Present(Advanced(branches, id, c)[b], commits[id := c])
    {
      BranchByCommit(branches, commits, id, c, b);
    }
  }

  lemma HistoryByCommit(branches: Branches, commits: Commits, history: History, ever: History, id: CommitId, c: Commit)
    requires NoGaps(branches, history) && Recorded(commits, history, ever) && Dense(branches, ever) && id !in commits
    requires c.branch in branches && c.sequence == branches[c.branch].sequence + 1
    ensures var m := Moment(c.branch, c.sequence);
      var branches' := Advanced(branches, id, c);
      && m !in ever
      && NoGaps(branches', history[m := id]) && Recorded(commits[id := c], history[m := id], ever[m := id])
      && Dense(branches', ever[m := id])
  {
  }

  lemma ConsecutiveGrows(ever: History, ever': History, b: Name, after: nat, batches: seq<Batch>)
    requires Consecutive(ever, b, after, batches) && forall k :: k in ever ==> k in ever' && ever'[k] == ever[k]
    ensures Consecutive(ever', b, after, batches)
  {
  }

  lemma StreamsGrow(readers: map<ReaderId, Reader>, branches: Branches, pendingFloors: map<Name, nat>, ever: History, ever': History)
    requires ReadersOk(readers, branches, pendingFloors, ever) && forall k :: k in ever ==> k in ever' && ever'[k] == ever[k]
    ensures ReadersOk(readers, branches, pendingFloors, ever')
  {
    hide Consecutive, Ahead;
    forall i | i in readers ensures Streams(readers[i], branches, ever') {
      var r := readers[i];
      ConsecutiveGrows(ever, ever', r.branch, r.start, r.delivered);
      ConsecutiveGrows(ever, ever', r.branch, Max(r.through, r.retainAfter), r.queue);
    }
  }

  // What an anchor reaches it goes on reaching.
  lemma AnchorStays(cycle: Cycle, branches: Branches, commits: Commits, commits': Commits, graph: Graph, limit: PageId, graph': Graph, x: PageId)
    requires AnchorReaches(cycle, branches, commits, graph, x)
    requires WellFounded(graph, limit) && Grows(graph, graph')
    requires forall c, r :: c in commits && r in commits[c].roots ==> r in graph
    requires forall c :: c in commits && c in cycle.known ==> c in commits' && commits'[c] == commits[c]
    ensures AnchorReaches(cycle, branches, commits', graph', x)
  {
    hide Reaches, ReachedBy, WellFounded, Grows;
    var a :| Anchor(cycle, branches, commits, a) && ReachedBy(graph, commits[a].roots, x);
    ReachedStable(graph, limit, graph', commits[a].roots, x);
    assert Anchor(cycle, branches, commits', a);
  }

  // The anchors of what the parent reaches are anchors for the new commit.
  lemma AnchoredByCommit(cycle: Cycle, branches: Branches, commits: Commits, graph: Graph, limit: PageId, id: CommitId, c: Commit,
      written: Graph, next: PageId, head: CommitId)
    requires Anchored(cycle, branches, commits, graph) && WellFounded(graph, limit) && head in commits && id !in commits
    requires Derived(graph, limit, written, next, commits[head].roots) && DerivedRoots(graph, written, commits[head].roots, c.roots)
    requires id !in cycle.known && forall p :: p in written ==> cycle.cutoff <= p
    requires head in cycle.heads || head !in cycle.known || IsBase(branches, head)
    requires forall c, r :: c in commits && r in commits[c].roots ==> r in graph
    ensures Anchored(cycle, branches, commits[id := c], graph + written)
  {
    hide Reaches, ReachedBy, WellFounded, Grows, Derived, DerivedRoots, IsBase, AnchorReaches;
    var commits', graph' := commits[id := c], graph + written;
    DerivedGrows(graph, limit, written, next, commits[head].roots);
    forall d, x: PageId | d in commits' && d !in cycle.known && x < cycle.cutoff && ReachedBy(graph', commits'[d].roots, x)
      ensures AnchorReaches(cycle, branches, commits', graph', x)
    {
      if d == id {
        DerivedReachedBy(graph, limit, written, next, commits[head].roots, c.roots, x);
        AnchorOfHead(cycle, branches, commits, graph, head, x);
      } else {
        ReachedStable(graph, limit, graph', commits[d].roots, x);
      }
      AnchorStays(cycle, branches, commits, commits', graph, limit, graph', x);
    }
  }

  lemma AnchorOfHead(cycle: Cycle, branches: Branches, commits: Commits, graph: Graph, head: CommitId, x: PageId)
    requires Anchored(cycle, branches, commits, graph) && head in commits
    requires head in cycle.heads || head !in cycle.known || IsBase(branches, head)
    requires ReachedBy(graph, commits[head].roots, x) && x < cycle.cutoff
    ensures AnchorReaches(cycle, branches, commits, graph, x) || (head in cycle.heads && head !in cycle.known)
  {
    hide Reaches, ReachedBy;
    if head in cycle.known {
      assert Anchor(cycle, branches, commits, head);
    }
  }

  lemma MarkingByCommit(cycle: Cycle, commits: Commits, graph: Graph, limit: PageId, todo: set<CommitId>, pending: seq<PageId>, marked: set<PageId>,
      id: CommitId, c: Commit, graph': Graph)
    requires Marking(cycle, commits, graph, todo, pending, marked) && id !in commits && id !in cycle.known
    requires WellFounded(graph, limit) && Grows(graph, graph')
    requires forall c, r :: c in commits && r in commits[c].roots ==> r in graph
    requires forall p :: p in graph' && p !in graph ==> cycle.cutoff <= p
    ensures Marking(cycle, commits[id := c], graph', todo, pending, marked)
  {
    hide ReachedBy, WellFounded;
    forall p | p in pending ensures Alive(commits[id := c], graph', p) {
      var d :| d in commits && ReachedBy(graph, commits[d].roots, p);
      ReachedStable(graph, limit, graph', commits[d].roots, p);
      assert ReachedBy(graph', commits[id := c][d].roots, p);
    }
  }

  lemma SweptByCommit(cycle: Cycle, commits: Commits, graph: Graph, limit: PageId, marked: set<PageId>, id: CommitId, c: Commit, graph': Graph)
    requires Swept(cycle, commits, graph, marked) && id !in cycle.known
    requires WellFounded(graph, limit) && Grows(graph, graph')
    requires forall c, r :: c in commits && r in commits[c].roots ==> r in graph
    ensures Swept(cycle, commits[id := c], graph', marked)
  {
    hide ReachedBy, WellFounded;
    forall a, x | a in cycle.known && a in commits && ReachedBy(graph', commits[a].roots, x) ensures x in marked {
      ReachedStable(graph, limit, graph', commits[a].roots, x);
    }
  }

  lemma ReferencesByCommit(commits: Commits, id: CommitId, c: Commit, branches: Branches, retains: map<Name, CommitId>,
      open: multiset<CommitId>, pins: multiset<CommitId>)
    requires Named(branches, commits) && Retained(retains, commits) && Opened(open, pins, commits)
    ensures Named(branches, commits[id := c]) && Retained(retains, commits[id := c]) && Opened(open, pins, commits[id := c])
  {
    forall b | b in branches ensures Present(branches[b], commits[id := c]) {
      assert Present(branches[b], commits);
    }
  }

  lemma CycleByCommit(cycle: Cycle, branches: Branches, commits: Commits, id: CommitId, c: Commit)
    requires HeadsKept(cycle, branches, commits) && OldRoots(cycle, commits) && id !in commits && id !in cycle.known
    ensures HeadsKept(cycle, branches, commits[id := c]) && OldRoots(cycle, commits[id := c])
  {
    hide IsBase;
  }

  lemma HeadOf(branches: Branches, commits: Commits, cycle: Cycle, b: Name)
    requires HeadsCovered(cycle, branches) && Named(branches, commits) && b in branches
    ensures branches[b].head in commits
    ensures branches[b].head in cycle.heads || branches[b].head !in cycle.known || IsBase(branches, branches[b].head)
  {
    assert Present(branches[b], commits);
  }

  lemma CollectionByCommit(s: State)
    requires Inv(s) && CanPublishCommit(s)
    ensures CollectionOk(PublishCommit(s))
  {
    hide Named, Retained, Opened, Shape, NoGaps, Recorded, Dense, WellFounded, ReadersOk, HeadsKept, HeadsCovered, OldRoots,
      Anchored, Marking, Swept, Derived, DerivedRoots, ReachedBy, IsBase, Grows;
    if Active(s.phase) {
      var id, c, limit := s.job.id, s.job.commit, s.store.nextPageId;
      var head := s.branches[c.branch].head;
      HeadOf(s.branches, s.store.commits, s.phase.cycle, c.branch);
      CycleByCommit(s.phase.cycle, s.branches, s.store.commits, id, c);
      AnchoredByCommit(s.phase.cycle, s.branches, s.store.commits, s.graph, limit, id, c, s.job.written, s.nextPageId, head);
      DerivedGrows(s.graph, limit, s.job.written, s.nextPageId, s.store.commits[head].roots);
      match s.phase
      case Prune(_) =>
      case Mark(cycle, todo, pending, marked) =>
        MarkingByCommit(cycle, s.store.commits, s.graph, limit, todo, pending, marked, id, c, s.graph + s.job.written);
      case Sweep(cycle, marked) =>
        SweptByCommit(cycle, s.store.commits, s.graph, limit, marked, id, c, s.graph + s.job.written);
    }
  }

  lemma StoreByCommit(s: State)
    requires Inv(s) && CanPublishCommit(s)
    ensures StoreOk(PublishCommit(s).store, PublishCommit(s).graph, PublishCommit(s).ever)
  {
    hide CollectionOk, Named, Retained, Opened, Shape, NoGaps, Recorded, Dense, WellFounded, ReadersOk, Derived, DerivedRoots,
      ReachedBy, Held;
    var id, c, limit := s.job.id, s.job.commit, s.store.nextPageId;
    var parent := s.store.commits[s.branches[c.branch].head].roots;
    ParentPages(s.store.commits, s.graph, s.store.pages, s.branches[c.branch].head);
    HeldByCommit(s.store.commits, s.graph, limit, s.store.pages, id, c, s.job.written, s.nextPageId, parent);
    DerivedWellFounded(s.graph, limit, s.job.written, s.nextPageId, parent);
    ShapeByCommit(s.store.branches, s.store.commits, id, c);
    HistoryByCommit(s.store.branches, s.store.commits, s.store.history, s.ever, id, c);
    ReferencesByCommit(s.store.commits, id, c, s.branches, s.store.retains, s.open, s.pins);
  }

  lemma MemoryByCommit(s: State)
    requires Inv(s) && CanPublishCommit(s)
    ensures MemoryOk(PublishCommit(s))
  {
    hide CollectionOk, Named, Retained, Opened, Shape, NoGaps, Recorded, Dense, WellFounded, ReadersOk, Derived, DerivedRoots,
      ReachedBy, Held;
    var id, c := s.job.id, s.job.commit;
    HistoryByCommit(s.store.branches, s.store.commits, s.store.history, s.ever, id, c);
    ReferencesByCommit(s.store.commits, id, c, s.branches, s.store.retains, s.open, s.pins);
    StreamsGrow(s.readers, s.branches, s.pendingFloors, s.ever, s.ever[Moment(c.branch, c.sequence) := id]);
  }

  lemma PublishCommitKeeps(s: State)
    requires Inv(s) && CanPublishCommit(s)
    ensures Inv(PublishCommit(s))
  {
    hide StoreOk, MemoryOk, CollectionOk;
    StoreByCommit(s);
    MemoryByCommit(s);
    CollectionByCommit(s);
  }

  lemma BeginCommitKeeps(s: State, b: Name, id: CommitId, roots: set<PageId>, written: Graph, next: PageId, at: int)
    requires Inv(s) && CanBeginCommit(s, b, id, roots, written, next)
    ensures Inv(BeginCommit(s, b, id, roots, written, next, at))
  {
    hide StoreOk, CycleOk, PhaseOk, ReadersOk, Named, Opened, DerivedRoots, ReachedBy;
  }

  lemma AbortCommitKeeps(s: State)
    requires Inv(s) && CanAbortCommit(s)
    ensures Inv(AbortCommit(s))
  {
    hide StoreOk, CycleOk, PhaseOk, ReadersOk, Named, Opened, Derived, DerivedRoots, ReachedBy;
  }

  // ---------- a published commit reaches memory ----------

  lemma PushedOk(r: Reader, branches: Branches, pendingFloors: map<Name, nat>, ever: History, id: CommitId, c: Commit)
    requires Streams(r, branches, ever) && Ahead(r, branches, pendingFloors)
    requires c.branch in branches && c.sequence == branches[c.branch].sequence + 1
    requires BatchAt(ever, c.branch, c.sequence, Batch(id, c.sequence))
    ensures var r' := Pushed(r, c.branch, Batch(id, c.sequence));
      Streams(r', Advanced(branches, id, c), ever) && Ahead(r', Advanced(branches, id, c), pendingFloors)
  {
    hide BatchAt;
    var r' := Pushed(r, c.branch, Batch(id, c.sequence));
    if r' != r {
      var from := Max(r.through, r.retainAfter);
      forall i | 0 <= i < |r'.queue| ensures BatchAt(ever, r.branch, from + 1 + i, r'.queue[i]) {
        assert i < |r.queue| ==> r'.queue[i] == r.queue[i];
      }
    }
  }

  lemma ReadersBySettle(readers: map<ReaderId, Reader>, branches: Branches, pendingFloors: map<Name, nat>, ever: History, id: CommitId, c: Commit)
    requires ReadersOk(readers, branches, pendingFloors, ever)
    requires c.branch in branches && c.sequence == branches[c.branch].sequence + 1
    requires BatchAt(ever, c.branch, c.sequence, Batch(id, c.sequence))
    ensures ReadersOk(PushedAll(readers, c.branch, Batch(id, c.sequence)), Advanced(branches, id, c), pendingFloors, ever)
  {
    hide Streams, Ahead, Pushed, BatchAt, Advanced;
    forall i | i in readers
      ensures Streams(Pushed(readers[i], c.branch, Batch(id, c.sequence)), Advanced(branches, id, c), ever)
      ensures Ahead(Pushed(readers[i], c.branch, Batch(id, c.sequence)), Advanced(branches, id, c), pendingFloors)
    {
      PushedOk(readers[i], branches, pendingFloors, ever, id, c);
    }
  }

  lemma SameBases(branches: Branches, id: CommitId, c: Commit, a: CommitId)
    requires c.branch in branches
    ensures IsBase(Advanced(branches, id, c), a) <==> IsBase(branches, a)
  {
    var branches' := Advanced(branches, id, c);
    if b :| b in branches && branches[b].base == a {
      assert branches'[b].base == a;
    }
    if b :| b in branches' && branches'[b].base == a {
      assert branches[b].base == a;
    }
  }

  lemma CycleBySettle(cycle: Cycle, branches: Branches, commits: Commits, graph: Graph, id: CommitId, c: Commit)
    requires c.branch in branches && id !in cycle.known
    requires HeadsKept(cycle, branches, commits) && HeadsCovered(cycle, branches) && Anchored(cycle, branches, commits, graph)
    ensures var branches' := Advanced(branches, id, c);
      HeadsKept(cycle, branches', commits) && HeadsCovered(cycle, branches') && Anchored(cycle, branches', commits, graph)
  {
    hide IsBase, ReachedBy;
    var branches' := Advanced(branches, id, c);
    forall a ensures IsBase(branches', a) <==> IsBase(branches, a) {
      SameBases(branches, id, c, a);
    }
    forall d, x: PageId | d in commits && d !in cycle.known && x < cycle.cutoff && ReachedBy(graph, commits[d].roots, x)
      ensures AnchorReaches(cycle, branches', commits, graph, x)
    {
      assert AnchorReaches(cycle, branches, commits, graph, x);
      var a :| Anchor(cycle, branches, commits, a) && ReachedBy(graph, commits[a].roots, x);
      SameBases(branches, id, c, a);
      assert Anchor(cycle, branches', commits, a);
    }
  }

  lemma SettleCommitKeeps(s: State)
    requires Inv(s) && CanSettleCommit(s)
    ensures Inv(SettleCommit(s))
  {
    hide PhaseOk, ReadersOk, Named, Opened, Retained, Shape, Dense, NoGaps, Recorded, WellFounded, Held, Derived, DerivedRoots,
      HeadsKept, HeadsCovered, OldRoots, Anchored, PushedAll;
    var id, c := s.job.id, s.job.commit;
    ReadersBySettle(s.readers, s.branches, s.pendingFloors, s.ever, id, c);
    if Active(s.phase) {
      CycleBySettle(s.phase.cycle, s.branches, s.store.commits, s.graph, id, c);
    }
  }

  // ---------- branches and retained commits ----------

  lemma StreamsByBranch(readers: map<ReaderId, Reader>, branches: Branches, pendingFloors: map<Name, nat>, ever: History, name: Name, branch: Branch)
    requires ReadersOk(readers, branches, pendingFloors, ever) && name !in branches
    ensures ReadersOk(readers, branches[name := branch], pendingFloors, ever)
  {
    hide Consecutive;
  }

  lemma ShapeByBranch(branches: Branches, commits: Commits, name: Name, branch: Branch)
    requires Shape(branches, commits) && Named(branches, commits) && name !in branches
    requires AtHead(name, branch, commits) && Present(branch, commits)
    ensures Shape(branches[name := branch], commits) && Named(branches[name := branch], commits)
  {
    hide AtHead, Belongs, Present;
    forall c | c in commits ensures Belongs(commits[c], branches[name := branch]) {
      BelongsByBranch(commits[c], branches, name, branch);
    }
  }

  lemma HistoryByBranch(branches: Branches, history: History, ever: History, name: Name, from: CommitId)
    requires NoGaps(branches, history) && Dense(branches, ever) && name !in branches
    ensures NoGaps(branches[name := Branch(from, from, 0, 0)], history) && Dense(branches[name := Branch(from, from, 0, 0)], ever)
  {
  }

  lemma NewBranch(name: Name, from: CommitId, commits: Commits)
    requires from in commits
    ensures AtHead(name, Branch(from, from, 0, 0), commits) && Present(Branch(from, from, 0, 0), commits)
  {
  }

  lemma BelongsByBranch(c: Commit, branches: Branches, name: Name, branch: Branch)
    requires Belongs(c, branches) && name !in branches
    ensures Belongs(c, branches[name := branch])
  {
  }

  lemma CycleByBranch(cycle: Cycle, branches: Branches, commits: Commits, graph: Graph, name: Name, from: CommitId)
    requires HeadsKept(cycle, branches, commits) && HeadsCovered(cycle, branches) && Anchored(cycle, branches, commits, graph)
    requires name !in branches
    ensures var branches' := branches[name := Branch(from, from, 0, 0)];
      HeadsKept(cycle, branches', commits) && HeadsCovered(cycle, branches') && Anchored(cycle, branches', commits, graph)
  {
    hide IsBase, ReachedBy;
    var branches' := branches[name := Branch(from, from, 0, 0)];
    forall a ensures IsBase(branches, a) || a == from ==> IsBase(branches', a) {
      BasesByBranch(branches, name, from, a);
    }
    forall d, x: PageId | d in commits && d !in cycle.known && x < cycle.cutoff && ReachedBy(graph, commits[d].roots, x)
      ensures AnchorReaches(cycle, branches', commits, graph, x)
    {
      assert AnchorReaches(cycle, branches, commits, graph, x);
      var a :| Anchor(cycle, branches, commits, a) && ReachedBy(graph, commits[a].roots, x);
      BasesByBranch(branches, name, from, a);
      assert Anchor(cycle, branches', commits, a);
    }
  }

  lemma BasesByBranch(branches: Branches, name: Name, from: CommitId, a: CommitId)
    requires name !in branches
    ensures IsBase(branches, a) || a == from ==> IsBase(branches[name := Branch(from, from, 0, 0)], a)
  {
    var branches' := branches[name := Branch(from, from, 0, 0)];
    if b :| b in branches && branches[b].base == a {
      assert branches'[b].base == a;
    }
    assert branches'[name].base == from;
  }

  lemma LaterLimit(graph: Graph, limit: PageId, limit': PageId)
    requires WellFounded(graph, limit) && limit <= limit'
    ensures WellFounded(graph, limit')
  {
  }

  lemma CreateBranchKeeps(s: State, name: Name, from: CommitId)
    requires Inv(s) && CanCreateBranch(s, name, from)
    ensures Inv(CreateBranch(s, name, from))
  {
    hide PhaseOk, ReadersOk, Named, Opened, Retained, Shape, Dense, NoGaps, Recorded, WellFounded, Held, Derived, DerivedRoots,
      HeadsKept, HeadsCovered, OldRoots, Anchored;
    LaterLimit(s.graph, s.store.nextPageId, s.nextPageId);
    NewBranch(name, from, s.store.commits);
    ShapeByBranch(s.branches, s.store.commits, name, Branch(from, from, 0, 0));
    HistoryByBranch(s.branches, s.store.history, s.ever, name, from);
    StreamsByBranch(s.readers, s.branches, s.pendingFloors, s.ever, name, Branch(from, from, 0, 0));
    if Active(s.phase) {
      CycleByBranch(s.phase.cycle, s.branches, s.store.commits, s.graph, name, from);
    }
  }

  lemma RetainKeeps(s: State, name: Name, id: CommitId)
    requires Inv(s) && CanRetain(s, name, id)
    ensures Inv(Retain(s, name, id))
  {
    hide CollectionOk, ReadersOk, Named, Opened, Shape, Dense, NoGaps, Recorded, WellFounded, Held, Derived, DerivedRoots;
    LaterLimit(s.graph, s.store.nextPageId, s.nextPageId);
    assert CollectionOk(Retain(s, name, id)) by {
      CollectionFrame(s, Retain(s, name, id));
    }
  }

  lemma ReleaseKeeps(s: State, name: Name)
    requires Inv(s) && CanRelease(s, name)
    ensures Inv(Release(s, name))
  {
    hide CollectionOk, ReadersOk, Named, Opened, Shape, Dense, NoGaps, Recorded, WellFounded, Held, Derived, DerivedRoots;
    LaterLimit(s.graph, s.store.nextPageId, s.nextPageId);
    assert CollectionOk(Release(s, name)) by {
      CollectionFrame(s, Release(s, name));
    }
  }

  // A collection depends on part of the state only.
  lemma CollectionFrame(s: State, s': State)
    requires CollectionOk(s)
    requires s'.phase == s.phase && s'.branches == s.branches && s'.store.commits == s.store.commits && s'.graph == s.graph
    requires s'.job == s.job && s'.nextPageId == s.nextPageId && s'.used == s.used
    ensures CollectionOk(s')
  {
    hide CycleOk, PhaseOk, NewPages;
  }

  // ---------- snapshots ----------

  lemma PinKeeps(s: State, id: CommitId)
    requires Inv(s) && CanPin(s, id)
    ensures Inv(Pin(s, id))
  {
    hide StoreOk, CollectionOk, ReadersOk, Named, CommitReady, RaisedFloors, Unnamed;
    CollectionFrame(s, Pin(s, id));
  }

  lemma OpenKeeps(s: State, id: CommitId)
    requires Inv(s) && CanOpen(s, id)
    ensures Inv(Open(s, id))
  {
    hide StoreOk, CollectionOk, ReadersOk, Named, CommitReady, PruneReady, Synced;
    CollectionFrame(s, Open(s, id));
  }

  lemma FailToOpenKeeps(s: State, id: CommitId)
    requires Inv(s) && CanFailToOpen(s, id)
    ensures Inv(FailToOpen(s, id))
  {
    hide StoreOk, CollectionOk, ReadersOk, Named, CommitReady, RaisedFloors, Unnamed, Synced;
    CollectionFrame(s, FailToOpen(s, id));
  }

  lemma CloseKeeps(s: State, id: CommitId)
    requires Inv(s) && CanClose(s, id)
    ensures Inv(Close(s, id))
  {
    hide StoreOk, CollectionOk, ReadersOk, Named, CommitReady, RaisedFloors, Unnamed, Synced;
    CollectionFrame(s, Close(s, id));
  }

  // ---------- streams ----------

  // Only one stream changes.
  lemma ReaderFrame(s: State, i: ReaderId, r: Reader)
    requires Inv(s) && Streams(r, s.branches, s.ever) && Ahead(r, s.branches, s.pendingFloors)
    ensures Inv(s.(readers := s.readers[i := r]))
  {
    hide StoreOk, CollectionOk, Named, CommitReady, PruneReady, Synced, Opened, Streams, Ahead;
    CollectionFrame(s, s.(readers := s.readers[i := r]));
  }

  lemma SubscribeKeeps(s: State, i: ReaderId, b: Name, after: nat)
    requires Inv(s) && CanSubscribe(s, i, b, after)
    ensures Inv(Subscribe(s, i, b, after))
  {
    hide Inv;
    ReaderFrame(s, i, Subscribe(s, i, b, after).readers[i]);
  }

  lemma RecordRead(branches: Branches, commits: Commits, history: History, ever: History, b: Name, n: nat)
    requires NoGaps(branches, history) && Recorded(commits, history, ever)
    requires b in branches && branches[b].floor < n <= branches[b].sequence
    ensures Moment(b, n) in history && history[Moment(b, n)] in commits
    ensures BatchAt(ever, b, n, Batch(history[Moment(b, n)], commits[history[Moment(b, n)]].sequence))
  {
  }

  // Store and memory agree about sequences and floors as far as a reader can see.
  lemma StoredBranch(s: State, b: Name)
    requires Inv(s) && b in s.branches
    ensures b in s.store.branches
    ensures s.store.branches[b].floor <= AdmissionFloor(s.branches, s.pendingFloors, b)
    ensures s.branches[b].sequence <= s.store.branches[b].sequence
  {
    hide StoreOk, CollectionOk, ReadersOk, Named, Opened, Derived, DerivedRoots;
  }

  /** The next record of a replaying stream is there, however far the collector has come. */
  lemma ReplayNeverFails(s: State, i: ReaderId)
    requires Inv(s) && Replaying(s, i)
    ensures CanReplay(s, i)
    ensures var id := s.store.history[NextMoment(s, i)];
      BatchAt(s.ever, s.readers[i].branch, s.readers[i].retainAfter + 1, Batch(id, s.store.commits[id].sequence))
  {
    hide CollectionOk, Named, Opened, CommitReady, PruneReady, Synced, Dense, Shape, Retained, Held, WellFounded, NoGaps, Recorded, Consecutive;
    var r := s.readers[i];
    assert Streams(r, s.branches, s.ever) && Ahead(r, s.branches, s.pendingFloors);
    StoredBranch(s, r.branch);
    RecordRead(s.store.branches, s.store.commits, s.store.history, s.ever, r.branch, r.retainAfter + 1);
  }

  lemma ReaderAt(s: State, i: ReaderId)
    requires Inv(s) && i in s.readers
    ensures Streams(s.readers[i], s.branches, s.ever) && Ahead(s.readers[i], s.branches, s.pendingFloors)
  {
    hide StoreOk, CollectionOk, Streams, Ahead;
  }

  lemma ReplayKeeps(s: State, i: ReaderId)
    requires Inv(s) && CanReplay(s, i)
    ensures Inv(Replay(s, i))
  {
    hide Inv, BatchAt;
    ReaderAt(s, i);
    ReplayNeverFails(s, i);
    ReaderFrame(s, i, Replay(s, i).readers[i]);
  }

  lemma DeliverKeeps(s: State, i: ReaderId)
    requires Inv(s) && CanDeliver(s, i)
    ensures Inv(Deliver(s, i))
  {
    hide Inv;
    ReaderAt(s, i);
    var r := s.readers[i];
    assert BatchAt(s.ever, r.branch, r.retainAfter + 1, r.queue[0]);
    ReaderFrame(s, i, Deliver(s, i).readers[i]);
  }

  lemma UnsubscribeKeeps(s: State, i: ReaderId)
    requires Inv(s)
    ensures Inv(Unsubscribe(s, i))
  {
    hide StoreOk, CollectionOk, Named, CommitReady, PruneReady, Synced, Opened, Streams, Ahead;
    CollectionFrame(s, Unsubscribe(s, i));
  }

  // ---------- restart ----------

  lemma ReopenKeeps(s: State, retention: Retention)
    requires Inv(s) && ValidRetention(retention)
    ensures Inv(Reopen(s, retention))
  {
    hide WellFounded, Held, Named, Retained, Shape, NoGaps, Recorded, Dense;
    var s' := Reopen(s, retention);
    assert StoreOk(s'.store, s'.graph, s'.ever);
    assert MemoryOk(s');
    assert CollectionOk(s');
  }

  lemma OneBranch(id: CommitId, c: Commit, main: Name, branch: Branch)
    requires Present(branch, map[id := c]) && AtHead(main, branch, map[id := c]) && Belongs(c, map[main := branch])
    ensures Named(map[main := branch], map[id := c]) && Shape(map[main := branch], map[id := c])
  {
    hide Present, AtHead, Belongs;
  }

  lemma NoHistory(id: CommitId, c: Commit, main: Name, branch: Branch)
    requires c.sequence == 0 && c.roots == {} && branch.sequence == 0
    ensures Held(map[id := c], map[], {}) && Recorded(map[id := c], map[], map[])
    ensures NoGaps(map[main := branch], map[]) && Dense(map[main := branch], map[])
  {
  }

  lemma CreatedParts(id: CommitId, c: Commit, main: Name, branch: Branch)
    requires c.sequence == 0 && c.roots == {} && c.branch == main && branch == Branch(id, id, 0, 0)
    ensures Held(map[id := c], map[], {}) && Recorded(map[id := c], map[], map[])
    ensures NoGaps(map[main := branch], map[]) && Dense(map[main := branch], map[])
    ensures Named(map[main := branch], map[id := c]) && Shape(map[main := branch], map[id := c])
  {
    hide Held, Recorded, NoGaps, Dense, Named, Shape;
    OneBranch(id, c, main, branch);
    NoHistory(id, c, main, branch);
  }

  lemma CreatedOk(id: CommitId, main: Name, at: int, retention: Retention)
    requires ValidRetention(retention)
    ensures Inv(Created(id, main, at, retention))
  {
    hide Held, Recorded, Named, Shape, NoGaps, Dense;
    CreatedParts(id, Commit(main, 0, {}, Some(at)), main, Branch(id, id, 0, 0));
  }
}
