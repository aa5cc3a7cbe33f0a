// What every reachable state of the key-value database satisfies.
module KeyValueInvariants {
  import opened PageGraph
  import opened KeyValueStorage

  // ---------- the parts ----------

  // Everything that a present commit reaches is present.
  ghost predicate Held(commits: Commits, graph: Graph, pages: set<PageId>) {
    && (forall c, r :: c in commits && r in commits[c].roots ==> r in graph)
    && (forall c, x :: c in commits && ReachedBy(graph, commits[c].roots, x) ==> x in pages)
  }

  predicate Present(branch: Branch, commits: Commits) {
    branch.head in commits && branch.base in commits
  }

  predicate Named(branches: Branches, commits: Commits) {
    forall b :: b in branches ==> Present(branches[b], commits)
  }

  predicate Retained(retains: map<Name, CommitId>, commits: Commits) {
    forall n :: n in retains ==> retains[n] in commits
  }

  ghost predicate Opened(open: multiset<CommitId>, pins: multiset<CommitId>, commits: Commits) {
    open <= pins && forall id :: id in open ==> id in commits
  }

  // A branch is still at its base, or its head is its latest commit.
  predicate AtHead(b: Name, branch: Branch, commits: Commits) {
    && branch.head in commits
    && if branch.sequence == 0 then branch.head == branch.base
       else commits[branch.head].branch == b && commits[branch.head].sequence == branch.sequence
  }

  predicate Belongs(c: Commit, branches: Branches) {
    c.branch in branches && c.sequence <= branches[c.branch].sequence
  }

  predicate Shape(branches: Branches, commits: Commits) {
    && (forall b :: b in branches ==> AtHead(b, branches[b], commits))
    && (forall c :: c in commits ==> Belongs(commits[c], branches))
  }

  // Nothing above a branch's floor is missing.
  ghost predicate NoGaps(branches: Branches, history: History) {
    forall b, n :: b in branches && branches[b].floor < n <= branches[b].sequence ==> Moment(b, n) in history
  }

  predicate Recorded(commits: Commits, history: History, ever: History) {
    && (forall k :: k in history ==> k in ever && history[k] == ever[k])
    && (forall k :: k in history ==> history[k] in commits && commits[history[k]].branch == k.branch && commits[history[k]].sequence == k.sequence)
    && (forall c :: c in commits && commits[c].sequence > 0 ==>
          Moment(commits[c].branch, commits[c].sequence) in history && history[Moment(commits[c].branch, commits[c].sequence)] == c)
  }

  ghost predicate Dense(branches: Branches, ever: History) {
    && (forall k :: k in ever ==> k.branch in branches && 1 <= k.sequence <= branches[k.branch].sequence)
    && (forall b, n :: b in branches && 1 <= n <= branches[b].sequence ==> Moment(b, n) in ever)
  }

  // How memory and store may differ while an operation is being published.
  ghost predicate Synced(job: Job, branches: Branches, stored: Branches, retiring: set<CommitId>, pendingFloors: map<Name, nat>) {
    match job
    case NoJob => branches == stored && retiring == {} && pendingFloors == map[]
    case Committing(id, c, _, published) =>
      && retiring == {} && pendingFloors == map[] && c.branch in branches
      && stored == if published then branches[c.branch := branches[c.branch].(head := id, sequence := c.sequence)] else branches
    case Pruning(removed, floors, published) =>
      && retiring == removed && pendingFloors == floors
      && stored == if published then WithFloors(branches, floors) else branches
  }

  ghost predicate CommitReady(job: Job, branches: Branches, commits: Commits, ever: History, graph: Graph, limit: PageId, next: PageId) {
    job.Committing? ==>
      && job.commit.branch in branches
      && job.commit.sequence == branches[job.commit.branch].sequence + 1
      && (!job.published ==>
           && branches[job.commit.branch].head in commits
           && job.id !in commits
           && Derived(graph, limit, job.written, next, commits[branches[job.commit.branch].head].roots)
           && DerivedRoots(graph, job.written, commits[branches[job.commit.branch].head].roots, job.commit.roots))
      && (job.published ==>
           Moment(job.commit.branch, job.commit.sequence) in ever && ever[Moment(job.commit.branch, job.commit.sequence)] == job.id)
  }

  ghost predicate Unpinned(removed: set<CommitId>, pins: multiset<CommitId>) {
    forall id :: id in removed ==> pins[id] == 0
  }

  predicate Unnamed(removed: set<CommitId>, branches: Branches, retains: map<Name, CommitId>) {
    && (forall b :: b in branches ==> branches[b].head !in removed && branches[b].base !in removed)
    && (forall n :: n in retains ==> retains[n] !in removed)
  }

  ghost predicate PruneReady(job: Job, branches: Branches, retains: map<Name, CommitId>, commits: Commits, pins: multiset<CommitId>, phase: Phase) {
    job.Pruning? ==>
      && phase.Prune?
      && Unnamed(job.removed, branches, retains)
      && job.removed !! phase.cycle.heads
      && (!job.published ==>
           Unpinned(job.removed, pins) && job.removed <= commits.Keys && RaisedFloors(branches, commits, job.removed, job.floors))
  }

  // ---------- streams ----------

  // The batch of a moment.
  predicate BatchAt(ever: History, b: Name, n: nat, batch: Batch) {
    Moment(b, n) in ever && batch == Batch(ever[Moment(b, n)], n)
  }

  // The batches after a sequence number, one by one.
  ghost predicate Consecutive(ever: History, b: Name, after: nat, batches: seq<Batch>) {
    forall i {:trigger batches[i]} :: 0 <= i < |batches| ==> BatchAt(ever, b, after + 1 + i, batches[i])
  }

  ghost predicate Streams(r: Reader, branches: Branches, ever: History) {
    && r.branch in branches
    && r.start <= r.retainAfter && |r.delivered| == r.retainAfter - r.start
    && Consecutive(ever, r.branch, r.start, r.delivered)
    && r.through <= branches[r.branch].sequence
    && r.after == Max(r.through, r.retainAfter) + |r.queue|
    && Consecutive(ever, r.branch, Max(r.through, r.retainAfter), r.queue)
    && r.after == Max(branches[r.branch].sequence, r.start)
  }

  // No floor, raised or about to be, passes a reader.
  predicate Ahead(r: Reader, branches: Branches, pendingFloors: map<Name, nat>) {
    r.branch in branches && AdmissionFloor(branches, pendingFloors, r.branch) <= r.retainAfter
  }

  ghost predicate ReadersOk(readers: map<ReaderId, Reader>, branches: Branches, pendingFloors: map<Name, nat>, ever: History) {
    forall i :: i in readers ==> Streams(readers[i], branches, ever) && Ahead(readers[i], branches, pendingFloors)
  }

  // ---------- a collection cycle ----------

  predicate Active(phase: Phase) {
    !phase.Resting?
  }

  predicate IsBase(branches: Branches, c: CommitId) {
    exists b :: b in branches && branches[b].base == c
  }

  // The heads captured at the start cannot be pruned in this cycle.
  predicate HeadsKept(cycle: Cycle, branches: Branches, commits: Commits) {
    forall h :: h in cycle.heads ==>
      && h in cycle.known && h in commits
      && (IsBase(branches, h)
          || (commits[h].branch in cycle.sequences && commits[h].sequence >= cycle.sequences[commits[h].branch]))
  }

  // A present head is protected or was written during this cycle.
  predicate HeadsCovered(cycle: Cycle, branches: Branches) {
    forall b :: b in branches ==>
      branches[b].head in cycle.heads || branches[b].head !in cycle.known || IsBase(branches, branches[b].head)
  }

  ghost predicate OldRoots(cycle: Cycle, commits: Commits) {
    forall c, r :: c in cycle.known && c in commits && r in commits[c].roots ==> r < cycle.cutoff
  }

  // An old commit that this cycle keeps.
  predicate Anchor(cycle: Cycle, branches: Branches, commits: Commits, a: CommitId) {
    a in cycle.known && a in commits && (a in cycle.heads || IsBase(branches, a))
  }

  ghost predicate AnchorReaches(cycle: Cycle, branches: Branches, commits: Commits, graph: Graph, x: PageId) {
    exists a :: Anchor(cycle, branches, commits, a) && ReachedBy(graph, commits[a].roots, x)
  }

  // The old pages of a commit written during the cycle.
  ghost predicate Anchored(cycle: Cycle, branches: Branches, commits: Commits, graph: Graph) {
    forall c, x: PageId :: c in commits && c !in cycle.known && x < cycle.cutoff && ReachedBy(graph, commits[c].roots, x) ==>
      AnchorReaches(cycle, branches, commits, graph, x)
  }

  ghost predicate NewPages(cycle: Cycle, job: Job, next: PageId, used: set<CommitId>) {
    && cycle.cutoff <= next && cycle.known <= used
    && (job.Committing? && !job.published ==> forall p :: p in job.written ==> cycle.cutoff <= p)
    && (job.Committing? ==> job.id !in cycle.known)
  }

  ghost predicate CycleOk(phase: Phase, branches: Branches, commits: Commits, graph: Graph) {
    Active(phase) ==>
      && (phase.cycle.retention.Window? ==> phase.cycle.retention.keepAtLeast >= 1)
      && HeadsKept(phase.cycle, branches, commits)
      && HeadsCovered(phase.cycle, branches)
      && OldRoots(phase.cycle, commits)
      && Anchored(phase.cycle, branches, commits, graph)
  }

  ghost predicate Alive(commits: Commits, graph: Graph, p: PageId) {
    exists c :: c in commits && ReachedBy(graph, commits[c].roots, p)
  }

  // Marking: what is known is marked or waits to be.
  ghost predicate Marking(cycle: Cycle, commits: Commits, graph: Graph, todo: set<CommitId>, pending: seq<PageId>, marked: set<PageId>) {
    && todo <= commits.Keys
    && (forall a, r :: a in cycle.known && a in commits && a !in todo && r in commits[a].roots ==> r in marked || r in pending)
    && (forall p, i :: p in marked && p in graph && 0 <= i < |graph[p]| ==> graph[p][i] in marked || graph[p][i] in pending)
    && (forall p :: p in marked ==> p < cycle.cutoff)
    && (forall p :: p in pending ==> Alive(commits, graph, p))
  }

  ghost predicate Swept(cycle: Cycle, commits: Commits, graph: Graph, marked: set<PageId>) {
    forall a, x :: a in cycle.known && a in commits && ReachedBy(graph, commits[a].roots, x) ==> x in marked
  }

  ghost predicate PhaseOk(phase: Phase, commits: Commits, graph: Graph) {
    match phase
    case Mark(cycle, todo, pending, marked) => Marking(cycle, commits, graph, todo, pending, marked)
    case Sweep(cycle, marked) => Swept(cycle, commits, graph, marked)
    case _ => true
  }

  // ---------- all together ----------

  ghost predicate StoreOk(store: Store, graph: Graph, ever: History) {
    && WellFounded(graph, store.nextPageId)
    && Held(store.commits, graph, store.pages)
    && Named(store.branches, store.commits)
    && Retained(store.retains, store.commits)
    && Shape(store.branches, store.commits)
    && NoGaps(store.branches, store.history)
    && Recorded(store.commits, store.history, ever)
    && Dense(store.branches, ever)
    && ValidRetention(store.retention)
  }

  ghost predicate MemoryOk(s: State) {
    && s.store.nextPageId <= s.nextPageId
    && s.retains == s.store.retains && s.store.commits.Keys <= s.used
    && (s.job.Committing? ==> s.job.id in s.used)
    && Named(s.branches, s.store.commits)
    && Opened(s.open, s.pins, s.store.commits)
    && Synced(s.job, s.branches, s.store.branches, s.retiring, s.pendingFloors)
    && CommitReady(s.job, s.branches, s.store.commits, s.ever, s.graph, s.store.nextPageId, s.nextPageId)
    && PruneReady(s.job, s.branches, s.retains, s.store.commits, s.pins, s.phase)
    && ReadersOk(s.readers, s.branches, s.pendingFloors, s.ever)
  }

  ghost predicate CollectionOk(s: State) {
    && CycleOk(s.phase, s.branches, s.store.commits, s.graph)
    && (Active(s.phase) ==> NewPages(s.phase.cycle, s.job, s.nextPageId, s.used))
    && PhaseOk(s.phase, s.store.commits, s.graph)
  }

  ghost predicate Inv(s: State) {
    StoreOk(s.store, s.graph, s.ever) && MemoryOk(s) && CollectionOk(s)
  }
}
