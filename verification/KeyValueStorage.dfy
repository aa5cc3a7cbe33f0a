// KeyValueStorageDatabase and its collector as a state machine (key-value-storage.ts,
// key-value-gc.ts). A step is what runs between two awaits; queued operations (commit, branch,
// retain, prune, sweep) follow one another, everything else may run between any two steps. What a
// queued operation does to the store and what it then does to memory are two steps of their own.
module KeyValueStorage {
  import opened PageGraph

  type CommitId = nat
  type Name = nat
  type ReaderId = nat

  datatype Option<+T> = None | Some(value: T)

  datatype Commit = Commit(branch: Name, sequence: nat, roots: set<PageId>, committedAt: Option<int>)

  datatype Branch = Branch(head: CommitId, base: CommitId, sequence: nat, floor: nat)

  // The key of a history record.
  datatype Moment = Moment(branch: Name, sequence: nat)

  datatype Retention = Forever | Window(keepAtLeast: nat, keepYoungerThan: Option<int>)

  predicate ValidRetention(r: Retention) {
    r.Window? ==> r.keepAtLeast >= 1
  }

  type Commits = map<CommitId, Commit>
  type Branches = map<Name, Branch>
  type History = map<Moment, CommitId>

  datatype Store = Store(
    commits: Commits,
    history: History,
    branches: Branches,
    retains: map<Name, CommitId>,
    pages: set<PageId>,
    nextPageId: PageId,
    retention: Retention)

  datatype Batch = Batch(commit: CommitId, sequence: nat)

  // A change stream; delivered is what its consumer has received.
  datatype Reader = Reader(
    branch: Name,
    start: nat,
    through: nat,
    after: nat,
    retainAfter: nat,
    queue: seq<Batch>,
    delivered: seq<Batch>)

  // The queued operation in progress, if it takes more than one step.
  datatype Job =
    | NoJob
    | Committing(id: CommitId, commit: Commit, written: Graph, published: bool)
    | Pruning(removed: set<CommitId>, floors: map<Name, nat>, published: bool)

  // What a collection captures when it starts. The commits present and the heads at that moment are
  // kept for the proof only.
  datatype Cycle = Cycle(cutoff: PageId, sequences: map<Name, nat>, retention: Retention, now: int,
    known: set<CommitId>, heads: set<CommitId>)

  datatype Phase =
    | Resting
    | Prune(cycle: Cycle)
    | Mark(cycle: Cycle, todo: set<CommitId>, pending: seq<PageId>, marked: set<PageId>)
    | Sweep(cycle: Cycle, marked: set<PageId>)

  // graph, ever and used are history: every page ever published, every commit ever published on a
  // branch, and every commit id ever taken.
  datatype State = State(
    store: Store,
    branches: Branches,
    retains: map<Name, CommitId>,
    pins: multiset<CommitId>,
    open: multiset<CommitId>,
    retiring: set<CommitId>,
    pendingFloors: map<Name, nat>,
    readers: map<ReaderId, Reader>,
    nextPageId: PageId,
    job: Job,
    phase: Phase,
    graph: Graph,
    ever: History,
    used: set<CommitId>)

  function Max(a: nat, b: nat): nat {
    if a > b then a else b
  }

  // ---------- commits ----------

  ghost predicate CanBeginCommit(s: State, b: Name, id: CommitId, roots: set<PageId>, written: Graph, next: PageId) {
    && s.job == NoJob && b in s.branches
    && s.branches[b].head in s.store.commits
    && id !in s.used
    && s.nextPageId <= next
    && Derived(s.graph, s.nextPageId, written, next, s.store.commits[s.branches[b].head].roots)
    && DerivedRoots(s.graph, written, s.store.commits[s.branches[b].head].roots, roots)
  }

  // The mutations run and stage their pages; nothing is visible yet.
  ghost function BeginCommit(s: State, b: Name, id: CommitId, roots: set<PageId>, written: Graph, next: PageId, at: int): State
    requires CanBeginCommit(s, b, id, roots, written, next)
  {
    s.(nextPageId := next,
       used := s.used + {id},
       job := Committing(id, Commit(b, s.branches[b].sequence + 1, roots, Some(at)), written, false))
  }

  predicate CanPublishCommit(s: State) {
    s.job.Committing? && !s.job.published && s.job.commit.branch in s.branches
  }

  // One atomic batch: pages, commit record, history record, branch record.
  function PublishCommit(s: State): State
    requires CanPublishCommit(s)
  {
    var id, c := s.job.id, s.job.commit;
    s.(store := s.store.(
         pages := s.store.pages + s.job.written.Keys,
         commits := s.store.commits[id := c],
         history := s.store.history[Moment(c.branch, c.sequence) := id],
         branches := s.store.branches[c.branch := s.branches[c.branch].(head := id, sequence := c.sequence)],
         nextPageId := s.nextPageId),
       graph := s.graph + s.job.written,
       ever := s.ever[Moment(c.branch, c.sequence) := id],
       job := Committing(id, c, s.job.written, true))
  }

  predicate CanSettleCommit(s: State) {
    s.job.Committing? && s.job.published && s.job.commit.branch in s.branches
  }

  function Pushed(r: Reader, branch: Name, batch: Batch): Reader {
    if r.branch != branch || batch.sequence <= r.after then r
    else r.(queue := r.queue + [batch], after := batch.sequence)
  }

  function PushedAll(readers: map<ReaderId, Reader>, branch: Name, batch: Batch): map<ReaderId, Reader> {
    map i | i in readers :: Pushed(readers[i], branch, batch)
  }

  // Memory follows the store, and live streams get the batch.
  function SettleCommit(s: State): State
    requires CanSettleCommit(s)
  {
    var id, c := s.job.id, s.job.commit;
    s.(branches := s.branches[c.branch := s.branches[c.branch].(head := id, sequence := c.sequence)],
       readers := PushedAll(s.readers, c.branch, Batch(id, c.sequence)),
       job := NoJob)
  }

  predicate CanAbortCommit(s: State) {
    s.job.Committing? && !s.job.published
  }

  function AbortCommit(s: State): State
    requires CanAbortCommit(s)
  {
    s.(job := NoJob)
  }

  // ---------- branches and retained commits ----------

  predicate CanCreateBranch(s: State, name: Name, from: CommitId) {
    s.job == NoJob && name !in s.branches && from in s.store.commits
  }

  function CreateBranch(s: State, name: Name, from: CommitId): State
    requires CanCreateBranch(s, name, from)
  {
    var branch := Branch(from, from, 0, 0);
    s.(store := s.store.(branches := s.store.branches[name := branch], nextPageId := s.nextPageId),
       branches := s.branches[name := branch])
  }

  predicate CanRetain(s: State, name: Name, id: CommitId) {
    s.job == NoJob && id in s.store.commits && (name in s.store.retains ==> s.store.retains[name] == id)
  }

  function Retain(s: State, name: Name, id: CommitId): State
    requires CanRetain(s, name, id)
  {
    s.(store := s.store.(retains := s.store.retains[name := id], nextPageId := s.nextPageId),
       retains := s.retains[name := id])
  }

  predicate CanRelease(s: State, name: Name) {
    s.job == NoJob && name in s.store.retains
  }

  function Release(s: State, name: Name): State
    requires CanRelease(s, name)
  {
    s.(store := s.store.(retains := s.store.retains - {name}, nextPageId := s.nextPageId),
       retains := s.retains - {name})
  }

  // ---------- snapshots ----------

  // Unless the commit is being retired, a snapshot pins it before it reads the commit record.
  predicate CanPin(s: State, id: CommitId) {
    id !in s.retiring
  }

  function Pin(s: State, id: CommitId): State
    requires CanPin(s, id)
  {
    s.(pins := s.pins + multiset{id})
  }

  // The record was found.
  predicate CanOpen(s: State, id: CommitId) {
    s.open[id] < s.pins[id] && id in s.store.commits
  }

  function Open(s: State, id: CommitId): State
    requires CanOpen(s, id)
  {
    s.(open := s.open + multiset{id})
  }

  // The record was not found.
  predicate CanFailToOpen(s: State, id: CommitId) {
    s.open[id] < s.pins[id] && id !in s.store.commits
  }

  function FailToOpen(s: State, id: CommitId): State
    requires CanFailToOpen(s, id)
  {
    s.(pins := s.pins - multiset{id})
  }

  predicate CanClose(s: State, id: CommitId) {
    s.open[id] > 0
  }

  function Close(s: State, id: CommitId): State
    requires CanClose(s, id)
  {
    s.(open := s.open - multiset{id}, pins := s.pins - multiset{id})
  }

  // ---------- change streams ----------

  function PendingFloor(pendingFloors: map<Name, nat>, b: Name): nat {
    if b in pendingFloors then pendingFloors[b] else 0
  }

  function AdmissionFloor(branches: Branches, pendingFloors: map<Name, nat>, b: Name): nat
    requires b in branches
  {
    Max(branches[b].floor, PendingFloor(pendingFloors, b))
  }

  // A cursor below the floor is refused.
  predicate CanSubscribe(s: State, i: ReaderId, b: Name, after: nat) {
    i !in s.readers && b in s.branches && AdmissionFloor(s.branches, s.pendingFloors, b) <= after
  }

  function Subscribe(s: State, i: ReaderId, b: Name, after: nat): State
    requires CanSubscribe(s, i, b, after)
  {
    var through := s.branches[b].sequence;
    s.(readers := s.readers[i := Reader(b, after, through, Max(through, after), after, [], [])])
  }

  predicate Replaying(s: State, i: ReaderId) {
    i in s.readers && s.readers[i].retainAfter < s.readers[i].through
  }

  // The history record that a replaying stream reads next.
  function NextMoment(s: State, i: ReaderId): Moment
    requires Replaying(s, i)
  {
    Moment(s.readers[i].branch, s.readers[i].retainAfter + 1)
  }

  predicate CanReplay(s: State, i: ReaderId) {
    && Replaying(s, i)
    && NextMoment(s, i) in s.store.history && s.store.history[NextMoment(s, i)] in s.store.commits
  }

  // Delivers the batch of the record that was read.
  function Replay(s: State, i: ReaderId): State
    requires CanReplay(s, i)
  {
    var r := s.readers[i];
    var id := s.store.history[NextMoment(s, i)];
    s.(readers := s.readers[i := r.(
         retainAfter := r.retainAfter + 1,
         delivered := r.delivered + [Batch(id, s.store.commits[id].sequence)])])
  }

  predicate CanDeliver(s: State, i: ReaderId) {
    i in s.readers && !Replaying(s, i) && s.readers[i].queue != []
  }

  function Deliver(s: State, i: ReaderId): State
    requires CanDeliver(s, i)
  {
    var r := s.readers[i];
    s.(readers := s.readers[i := r.(
         queue := r.queue[1..],
         retainAfter := r.queue[0].sequence,
         delivered := r.delivered + [r.queue[0]])])
  }

  function Unsubscribe(s: State, i: ReaderId): State {
    s.(readers := s.readers - {i})
  }

  // ---------- collection: prune ----------

  predicate CanStart(s: State) {
    s.job == NoJob && s.phase == Resting
  }

  function Sequences(branches: Branches): map<Name, nat> {
    map b | b in branches :: branches[b].sequence
  }

  function Heads(branches: Branches): set<CommitId> {
    set b | b in branches :: branches[b].head
  }

  function Bases(branches: Branches): set<CommitId> {
    set b | b in branches :: branches[b].base
  }

  function Start(s: State, now: int): State
    requires CanStart(s)
  {
    s.(phase := Prune(Cycle(s.nextPageId, Sequences(s.branches), s.store.retention, now,
                            s.store.commits.Keys, Heads(s.branches))))
  }

  predicate PolicyKeeps(cycle: Cycle, c: Commit) {
    cycle.retention.Forever?
    || c.branch !in cycle.sequences
    || c.sequence > cycle.sequences[c.branch] - cycle.retention.keepAtLeast
    || (cycle.retention.keepYoungerThan.Some?
        && (c.committedAt.Some? ==> c.committedAt.value >= cycle.now - cycle.retention.keepYoungerThan.value))
  }

  predicate Rooted(s: State, id: CommitId) {
    id in s.pins || id in s.retains.Values || id in Heads(s.branches) || id in Bases(s.branches)
  }

  predicate Awaited(s: State, c: Commit) {
    exists i :: i in s.readers && s.readers[i].branch == c.branch && c.sequence > s.readers[i].retainAfter
  }

  predicate Collectable(s: State, cycle: Cycle, id: CommitId)
    requires id in s.store.commits
  {
    !Rooted(s, id) && !PolicyKeeps(cycle, s.store.commits[id]) && !Awaited(s, s.store.commits[id])
  }

  // What one slice of commit records loses.
  function Selected(s: State, cycle: Cycle, slice: set<CommitId>): set<CommitId> {
    set id | id in slice && id in s.store.commits && Collectable(s, cycle, id)
  }

  predicate Lost(commits: Commits, removed: set<CommitId>, b: Name, sequence: nat) {
    exists id :: id in removed && id in commits && commits[id].branch == b && commits[id].sequence == sequence
  }

  // Each branch that loses commits gets the greatest lost sequence as its floor, unless its floor is
  // higher already.
  predicate RaisedFloors(branches: Branches, commits: Commits, removed: set<CommitId>, floors: map<Name, nat>) {
    && (forall id :: id in removed && id in commits ==> commits[id].branch in floors && commits[id].sequence <= floors[commits[id].branch])
    && (forall b :: b in floors ==> b in branches && branches[b].floor <= floors[b])
    && (forall b :: b in floors ==> floors[b] == branches[b].floor || Lost(commits, removed, b, floors[b]))
    && (forall b :: b in floors ==> exists id :: id in removed && id in commits && commits[id].branch == b)
  }

  predicate CanSelect(s: State, slice: set<CommitId>, floors: map<Name, nat>) {
    && s.job == NoJob && s.phase.Prune?
    && Selected(s, s.phase.cycle, slice) != {}
    && RaisedFloors(s.branches, s.store.commits, Selected(s, s.phase.cycle, slice), floors)
  }

  function Select(s: State, slice: set<CommitId>, floors: map<Name, nat>): State
    requires CanSelect(s, slice, floors)
  {
    var removed := Selected(s, s.phase.cycle, slice);
    s.(retiring := removed, pendingFloors := floors, job := Pruning(removed, floors, false))
  }

  function WithFloors(branches: Branches, floors: map<Name, nat>): Branches {
    map b | b in branches :: if b in floors then branches[b].(floor := floors[b]) else branches[b]
  }

  function Moments(commits: Commits, removed: set<CommitId>): set<Moment> {
    set id | id in removed && id in commits :: Moment(commits[id].branch, commits[id].sequence)
  }

  predicate CanPublishPrune(s: State) {
    s.job.Pruning? && !s.job.published
  }

  function PublishPrune(s: State): State
    requires CanPublishPrune(s)
  {
    s.(store := s.store.(
         commits := s.store.commits - s.job.removed,
         history := s.store.history - Moments(s.store.commits, s.job.removed),
         branches := WithFloors(s.branches, s.job.floors),
         nextPageId := s.nextPageId),
       job := Pruning(s.job.removed, s.job.floors, true))
  }

  predicate CanSettlePrune(s: State) {
    s.job.Pruning? && s.job.published
  }

  function SettlePrune(s: State): State
    requires CanSettlePrune(s)
  {
    s.(branches := WithFloors(s.branches, s.job.floors), retiring := {}, pendingFloors := map[], job := NoJob)
  }

  // ---------- collection: mark and sweep ----------

  predicate CanBeginMark(s: State) {
    s.phase.Prune? && !s.job.Pruning?
  }

  function BeginMark(s: State): State
    requires CanBeginMark(s)
  {
    s.(phase := Mark(s.phase.cycle, s.store.commits.Keys, [], {}))
  }

  // The cursor meets every commit present when marking began, and perhaps some published since.
  ghost predicate CanMarkCommit(s: State, id: CommitId, roots: seq<PageId>) {
    && s.phase.Mark? && s.phase.pending == []
    && id in s.store.commits && (forall r :: r in roots <==> r in s.store.commits[id].roots)
  }

  ghost function MarkCommit(s: State, id: CommitId, roots: seq<PageId>): State
    requires CanMarkCommit(s, id, roots)
  {
    s.(phase := Mark(s.phase.cycle, s.phase.todo - {id}, roots, s.phase.marked))
  }

  predicate Skipped(phase: Phase, id: PageId)
    requires phase.Mark?
  {
    id >= phase.cycle.cutoff || id in phase.marked
  }

  // The page is read, unless it is skipped.
  predicate CanMarkPage(s: State) {
    && s.phase.Mark? && s.phase.pending != []
    && var id := s.phase.pending[|s.phase.pending| - 1];
      !Skipped(s.phase, id) ==> id in s.store.pages && id in s.graph
  }

  function MarkedPage(phase: Phase, graph: Graph): Phase
    requires phase.Mark? && phase.pending != []
    requires !Skipped(phase, phase.pending[|phase.pending| - 1]) ==> phase.pending[|phase.pending| - 1] in graph
  {
    var n := |phase.pending| - 1;
    var id := phase.pending[n];
    if Skipped(phase, id) then Mark(phase.cycle, phase.todo, phase.pending[..n], phase.marked)
    else Mark(phase.cycle, phase.todo, phase.pending[..n] + graph[id], phase.marked + {id})
  }

  function MarkPage(s: State): State
    requires CanMarkPage(s)
  {
    s.(phase := MarkedPage(s.phase, s.graph))
  }

  predicate CanBeginSweep(s: State) {
    s.phase.Mark? && s.phase.todo == {} && s.phase.pending == []
  }

  function BeginSweep(s: State): State
    requires CanBeginSweep(s)
  {
    s.(phase := Sweep(s.phase.cycle, s.phase.marked))
  }

  predicate CanSweep(s: State) {
    s.job == NoJob && s.phase.Sweep?
  }

  // One slice of page keys loses its unmarked pages below the cutoff.
  function Garbage(s: State, slice: set<PageId>): set<PageId>
    requires CanSweep(s)
  {
    set p | p in slice && p < s.phase.cycle.cutoff && p !in s.phase.marked
  }

  function SweepSlice(s: State, slice: set<PageId>): State
    requires CanSweep(s)
  {
    s.(store := s.store.(pages := s.store.pages - Garbage(s, slice), nextPageId := s.nextPageId))
  }

  // A collection may finish, or be given up at any checkpoint.
  predicate CanStop(s: State) {
    !s.job.Pruning?
  }

  function Stop(s: State): State
    requires CanStop(s)
  {
    s.(phase := Resting)
  }

  // The process ends at any moment and another opens the store.
  function Reopen(s: State, retention: Retention): State {
    State(s.store.(retention := retention), s.store.branches, s.store.retains, multiset{}, multiset{}, {}, map[], map[],
      s.store.nextPageId, NoJob, Resting, s.graph, s.ever, s.used)
  }

  function Created(id: CommitId, main: Name, at: int, retention: Retention): State {
    var branches := map[main := Branch(id, id, 0, 0)];
    var store := Store(map[id := Commit(main, 0, {}, Some(at))], map[], branches, map[], {}, 1, retention);
    State(store, branches, map[], multiset{}, multiset{}, {}, map[], map[], 1, NoJob, Resting, map[], map[], {id})
  }

  datatype Step =
    | BeginCommitStep(b: Name, id: CommitId, roots: set<PageId>, written: Graph, next: PageId, at: int)
    | PublishCommitStep
    | SettleCommitStep
    | AbortCommitStep
    | CreateBranchStep(b: Name, id: CommitId)
    | RetainStep(b: Name, id: CommitId)
    | ReleaseStep(b: Name)
    | PinStep(id: CommitId)
    | OpenStep(id: CommitId)
    | FailToOpenStep(id: CommitId)
    | CloseStep(id: CommitId)
    | SubscribeStep(reader: ReaderId, b: Name, after: nat)
    | ReplayStep(reader: ReaderId)
    | DeliverStep(reader: ReaderId)
    | UnsubscribeStep(reader: ReaderId)
    | StartStep(now: int)
    | SelectStep(slice: set<CommitId>, floors: map<Name, nat>)
    | PublishPruneStep
    | SettlePruneStep
    | BeginMarkStep
    | MarkCommitStep(id: CommitId, order: seq<PageId>)
    | MarkPageStep
    | BeginSweepStep
    | SweepSliceStep(pages: set<PageId>)
    | StopStep
    | ReopenStep(retention: Retention)

  ghost predicate Enabled(s: State, step: Step) {
    match step
    case BeginCommitStep(b, id, roots, written, next, _) => CanBeginCommit(s, b, id, roots, written, next)
    case PublishCommitStep => CanPublishCommit(s)
    case SettleCommitStep => CanSettleCommit(s)
    case AbortCommitStep => CanAbortCommit(s)
    case CreateBranchStep(b, id) => CanCreateBranch(s, b, id)
    case RetainStep(b, id) => CanRetain(s, b, id)
    case ReleaseStep(b) => CanRelease(s, b)
    case PinStep(id) => CanPin(s, id)
    case OpenStep(id) => CanOpen(s, id)
    case FailToOpenStep(id) => CanFailToOpen(s, id)
    case CloseStep(id) => CanClose(s, id)
    case SubscribeStep(i, b, after) => CanSubscribe(s, i, b, after)
    case ReplayStep(i) => CanReplay(s, i)
    case DeliverStep(i) => CanDeliver(s, i)
    case UnsubscribeStep(_) => true
    case StartStep(_) => CanStart(s)
    case SelectStep(slice, floors) => CanSelect(s, slice, floors)
    case PublishPruneStep => CanPublishPrune(s)
    case SettlePruneStep => CanSettlePrune(s)
    case BeginMarkStep => CanBeginMark(s)
    case MarkCommitStep(id, order) => CanMarkCommit(s, id, order)
    case MarkPageStep => CanMarkPage(s)
    case BeginSweepStep => CanBeginSweep(s)
    case SweepSliceStep(_) => CanSweep(s)
    case StopStep => CanStop(s)
    case ReopenStep(retention) => ValidRetention(retention)
  }

  ghost function Do(s: State, step: Step): State
    requires Enabled(s, step)
  {
    match step
    case BeginCommitStep(b, id, roots, written, next, at) => BeginCommit(s, b, id, roots, written, next, at)
    case PublishCommitStep => PublishCommit(s)
    case SettleCommitStep => SettleCommit(s)
    case AbortCommitStep => AbortCommit(s)
    case CreateBranchStep(b, id) => CreateBranch(s, b, id)
    case RetainStep(b, id) => Retain(s, b, id)
    case ReleaseStep(b) => Release(s, b)
    case PinStep(id) => Pin(s, id)
    case OpenStep(id) => Open(s, id)
    case FailToOpenStep(id) => FailToOpen(s, id)
    case CloseStep(id) => Close(s, id)
    case SubscribeStep(i, b, after) => Subscribe(s, i, b, after)
    case ReplayStep(i) => Replay(s, i)
    case DeliverStep(i) => Deliver(s, i)
    case UnsubscribeStep(i) => Unsubscribe(s, i)
    case StartStep(now) => Start(s, now)
    case SelectStep(slice, floors) => Select(s, slice, floors)
    case PublishPruneStep => PublishPrune(s)
    case SettlePruneStep => SettlePrune(s)
    case BeginMarkStep => BeginMark(s)
    case MarkCommitStep(id, order) => MarkCommit(s, id, order)
    case MarkPageStep => MarkPage(s)
    case BeginSweepStep => BeginSweep(s)
    case SweepSliceStep(pages) => SweepSlice(s, pages)
    case StopStep => Stop(s)
    case ReopenStep(retention) => Reopen(s, retention)
  }
}
