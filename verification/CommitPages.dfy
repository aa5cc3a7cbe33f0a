// The pages of one commit (key-value-storage.ts, key-value-pages.ts): mutation by mutation the trees write pages
// and what the current roots do not reach is dropped; at the end exactly the pages of the final trees are published.
module CommitPages {
  import opened PageGraph
  import K = KeyValuePages
  import P = PageTrees
  import E = Entries
  import T = TreeCommits

  // What one mutation writes, in order, and the roots of all trees after it.
  datatype Write = Write(pages: seq<K.Staged>, roots: seq<K.Option<PageId>>)

  function IdAfter(from: PageId, writes: seq<Write>): PageId {
    if writes == [] then from else IdAfter(from, writes[..|writes| - 1]) + |writes[|writes| - 1].pages|
  }

  function Written(from: PageId, pages: seq<K.Staged>): K.Pending {
    if pages == [] then map[]
    else Written(from, pages[..|pages| - 1])[from + |pages| - 1 := pages[|pages| - 1]]
  }

  lemma {:induction false} WrittenAt(from: PageId, pages: seq<K.Staged>)
    ensures forall p :: p in Written(from, pages) <==> from <= p < from + |pages|
    ensures forall p :: p in Written(from, pages) ==> Written(from, pages)[p] == pages[p - from]
  {
    if pages != [] {
      WrittenAt(from, pages[..|pages| - 1]);
    }
  }

  // Every page written so far, dropped or not.
  function AllWritten(from: PageId, writes: seq<Write>): K.Pending {
    if writes == [] then map[]
    else
      var before := writes[..|writes| - 1];
      AllWritten(from, before) + Written(IdAfter(from, before), writes[|writes| - 1].pages)
  }

  function RootsAfter(writes: seq<Write>): seq<K.Option<PageId>> {
    if writes == [] then [] else writes[|writes| - 1].roots
  }

  // Children are older pages, and the roots reach what the mutation wrote or what the roots before it reached.
  ghost predicate Derives(from: PageId, writes: seq<Write>, i: nat)
    requires i < |writes|
  {
    var id := IdAfter(from, writes[..i]);
    && (forall k, c :: 0 <= k < |writes[i].pages| && c in writes[i].pages[k].children ==> c < id + k)
    && K.OwnedBy(K.Links(AllWritten(from, writes[..i])), K.Named(RootsAfter(writes[..i])),
                 K.Links(Written(id, writes[i].pages)), K.Named(writes[i].roots))
  }

  ghost predicate Chained(from: PageId, writes: seq<Write>) {
    forall i :: 0 <= i < |writes| ==> Derives(from, writes, i)
  }

  // A page that the roots after the writes reach, among all pages that they wrote.
  ghost predicate Needed(from: PageId, writes: seq<Write>, p: PageId) {
    ReachedBy(K.Links(AllWritten(from, writes)), K.Named(RootsAfter(writes)), p)
  }

  lemma {:induction false} WrittenIds(from: PageId, writes: seq<Write>)
    ensures from <= IdAfter(from, writes) && forall p :: p in AllWritten(from, writes) <==> from <= p < IdAfter(from, writes)
  {
    if writes != [] {
      WrittenIds(from, writes[..|writes| - 1]);
      WrittenAt(IdAfter(from, writes[..|writes| - 1]), writes[|writes| - 1].pages);
    }
  }

  lemma LinksJoin(a: K.Pending, b: K.Pending)
    ensures K.Links(a + b) == K.Links(a) + K.Links(b)
  {
  }

  lemma DownwardJoin(a: K.Pending, b: K.Pending)
    requires K.Downward(K.Links(a)) && K.Downward(K.Links(b))
    ensures K.Downward(K.Links(a + b))
  {
    LinksJoin(a, b);
  }

  lemma OwnDownward(from: PageId, pages: seq<K.Staged>)
    requires forall k, c :: 0 <= k < |pages| && c in pages[k].children ==> c < from + k
    ensures K.Downward(K.Links(Written(from, pages)))
  {
    WrittenAt(from, pages);
    var links := K.Links(Written(from, pages));
    forall p, i | p in links && 0 <= i < |links[p]| ensures links[p][i] < p {
      assert links[p] == pages[p - from].children && links[p][i] in pages[p - from].children;
    }
  }

  lemma {:induction false} AllDownward(from: PageId, writes: seq<Write>)
    requires Chained(from, writes)
    ensures K.Downward(K.Links(AllWritten(from, writes)))
    decreases |writes|
  {
    if writes != [] {
      hide Derives, Chained, K.Downward, Written;
      var n := |writes| - 1;
      PrefixChained(from, writes, n);
      AllDownward(from, writes[..n]);
      ChainedChildren(from, writes, n);
      OwnDownward(IdAfter(from, writes[..n]), writes[n].pages);
      DownwardJoin(AllWritten(from, writes[..n]), Written(IdAfter(from, writes[..n]), writes[n].pages));
    }
  }

  // What the store holds between mutations: the needed pages, as they were written.
  ghost predicate Holds(from: PageId, writes: seq<Write>, pending: K.Pending) {
    && (forall p :: p in pending <==> Needed(from, writes, p))
    && (forall p :: p in pending ==> p in AllWritten(from, writes) && pending[p] == AllWritten(from, writes)[p])
  }

  lemma HoldsNothing(from: PageId)
    ensures Holds(from, [], map[])
  {
  }

  // A mutation's pages staged over what is held; then the roots decide what stays.
  lemma StageStep(from: PageId, writes: seq<Write>, i: nat, held: K.Pending, staged: K.Pending, kept: K.Pending)
    requires Chained(from, writes) && i < |writes| && Holds(from, writes[..i], held)
    requires staged == held + Written(IdAfter(from, writes[..i]), writes[i].pages)
    requires forall p :: p in kept <==> K.Live(staged, writes[i].roots, p)
    requires forall p :: p in kept ==> p in staged && kept[p] == staged[p]
    ensures Holds(from, writes[..i + 1], kept)
  {
    hide ReachedBy, K.OwnedBy, K.Named, IdAfter, K.Covers, K.Links, K.Downward, Derives, Written, AllWritten;
    var n := writes[..i + 1];
    var id := IdAfter(from, writes[..i]);
    var before, own := AllWritten(from, writes[..i]), Written(id, writes[i].pages);
    StagedCovers(from, writes, i, held);
    PrefixChained(from, writes, i + 1);
    AllDownward(from, n);
    OneMoreWrite(from, writes, i);
    K.LinkKeys(staged);
    K.LinkKeys(kept);
    K.LinkKeys(AllWritten(from, n));
    K.RetainedIsExact(K.Links(AllWritten(from, n)), K.Links(staged), K.Named(writes[i].roots), K.Links(kept));
    StagedAreWritten(from, writes, i, held);
  }

  lemma OneMoreWrite(from: PageId, writes: seq<Write>, i: nat)
    requires i < |writes|
    ensures var n := writes[..i + 1];
      && AllWritten(from, n) == AllWritten(from, writes[..i]) + Written(IdAfter(from, writes[..i]), writes[i].pages)
      && RootsAfter(n) == writes[i].roots
  {
    hide Written;
    assert writes[..i + 1][..i] == writes[..i] && writes[..i + 1][i] == writes[i];
  }

  lemma StagedAreWritten(from: PageId, writes: seq<Write>, i: nat, held: K.Pending)
    requires i < |writes| && Holds(from, writes[..i], held)
    ensures var staged, all := held + Written(IdAfter(from, writes[..i]), writes[i].pages), AllWritten(from, writes[..i + 1]);
      forall p :: p in staged ==> p in all && all[p] == staged[p]
  {
    hide Needed, Written, AllWritten;
    OneMoreWrite(from, writes, i);
  }

  lemma StagedCovers(from: PageId, writes: seq<Write>, i: nat, held: K.Pending)
    requires Chained(from, writes) && i < |writes| && Holds(from, writes[..i], held)
    ensures K.Covers(K.Links(AllWritten(from, writes[..i + 1])),
                     K.Links(held + Written(IdAfter(from, writes[..i]), writes[i].pages)), K.Named(writes[i].roots))
  {
    hide ReachedBy, K.OwnedBy, K.Named, IdAfter, K.Covers, Written, AllWritten, Holds;
    assert Derives(from, writes, i);
    var before, own := AllWritten(from, writes[..i]), Written(IdAfter(from, writes[..i]), writes[i].pages);
    OneMoreWrite(from, writes, i);
    LinksJoin(before, own);
    LinksJoin(held, own);
    HeldCovers(from, writes[..i], held);
    WrittenIds(from, writes[..i]);
    WrittenAt(IdAfter(from, writes[..i]), writes[i].pages);
    K.MutationCovers(K.Links(before), K.Links(held), K.Named(RootsAfter(writes[..i])), K.Links(own), K.Named(writes[i].roots));
  }

  lemma HeldCovers(from: PageId, writes: seq<Write>, held: K.Pending)
    requires Holds(from, writes, held)
    ensures K.Covers(K.Links(AllWritten(from, writes)), K.Links(held), K.Named(RootsAfter(writes)))
  {
    hide ReachedBy;
    forall x | ReachedBy(K.Links(AllWritten(from, writes)), K.Named(RootsAfter(writes)), x) ensures x in K.Links(held) {
      assert Needed(from, writes, x);
    }
  }

  lemma PrefixChained(from: PageId, writes: seq<Write>, k: nat)
    requires Chained(from, writes) && k <= |writes|
    ensures Chained(from, writes[..k])
  {
    hide K.OwnedBy;
    forall i | 0 <= i < k ensures Derives(from, writes[..k], i) {
      assert Derives(from, writes, i) && writes[..k][..i] == writes[..i];
    }
  }

  /** A whole commit: whatever was dropped on the way, the records published at the end are exactly the pages written
      in this commit that its final roots reach. */
  method StageCommit(store: K.KeyValuePages, writes: seq<Write>) returns (puts: map<PageId, K.Payload>)
    requires store.Valid() && store.pending == map[] && Chained(store.nextId, writes)
    modifies store`pending, store`nextId
    ensures store.Valid() && store.nextId == IdAfter(old(store.nextId), writes)
    ensures forall p :: p in puts <==> Needed(old(store.nextId), writes, p)
    ensures forall p :: p in puts ==> p in AllWritten(old(store.nextId), writes) && puts[p] == AllWritten(old(store.nextId), writes)[p].payload
  {
    hide Needed, Chained, K.Live, K.KeyValuePages.Valid, AllWritten;
    ghost var from := store.nextId;
    HoldsNothing(from);
    assert writes[..0] == [];
    for i := 0 to |writes|
      invariant store.Valid() && store.nextId == IdAfter(from, writes[..i])
      invariant Holds(from, writes[..i], store.pending)
    {
      ghost var held := store.pending;
      assert writes[..i + 1][..i] == writes[..i];
      ChainedChildren(from, writes, i);
      WritePages(store, writes[i].pages);
      ghost var staged := store.pending;
      store.RetainRoots(writes[i].roots);
      StageStep(from, writes, i, held, staged, store.pending);
    }
    assert writes[..|writes|] == writes;
    puts := store.Operations();
  }

  lemma ChainedChildren(from: PageId, writes: seq<Write>, i: nat)
    requires Chained(from, writes) && i < |writes|
    ensures forall k, c :: 0 <= k < |writes[i].pages| && c in writes[i].pages[k].children ==> c < IdAfter(from, writes[..i]) + k
  {
    hide K.OwnedBy;
    assert Derives(from, writes, i);
  }

  method WritePages(store: K.KeyValuePages, pages: seq<K.Staged>)
    requires store.Valid()
    requires forall k, c :: 0 <= k < |pages| && c in pages[k].children ==> c < store.nextId + k
    modifies store`pending, store`nextId
    ensures store.Valid() && store.nextId == old(store.nextId) + |pages|
    ensures store.pending == old(store.pending) + Written(old(store.nextId), pages)
  {
    hide K.KeyValuePages.Valid;
    ghost var from, was := store.nextId, store.pending;
    for k := 0 to |pages|
      invariant store.Valid() && store.nextId == from + k
      invariant store.pending == was + Written(from, pages[..k])
    {
      forall c | 0 <= c < |pages[k].children| ensures pages[k].children[c] < store.nextId {
        assert pages[k].children[c] in pages[k].children;
      }
      var id := store.WritePageOwned(pages[k].payload, pages[k].children);
      assert pages[..k + 1][..k] == pages[..k];
    }
    assert pages[..|pages|] == pages;
  }

  // ---------- commits of trees ----------

  // The tree store between two mutations, and the roots of all trees.
  datatype Stage = Stage(pages: P.Pages, next: nat, roots: seq<P.Root>, heights: seq<nat>)

  function Pointer(root: P.Root): K.Option<PageId> {
    if root.Some? then K.Some(root.value) else K.None
  }

  function Pointers(roots: seq<P.Root>): seq<K.Option<PageId>> {
    seq(|roots|, i requires 0 <= i < |roots| => Pointer(roots[i]))
  }

  lemma NamedRoots(roots: seq<P.Root>)
    ensures K.Named(Pointers(roots)) == T.RootSet(roots)
  {
    var pointers := Pointers(roots);
    forall i | 0 <= i < |roots| && roots[i].Some? ensures roots[i].value in K.Named(pointers) {
      assert pointers[i] == K.Some(roots[i].value);
    }
  }

  ghost predicate SoundStage(s: Stage, m: nat) {
    P.Ascending(s.pages, s.next) && P.SoundRoots(s.pages, s.roots, s.heights, m)
  }

  // One mutation of the trees: its roots are owned, its pages got the next ids, and they are what is written.
  ghost predicate Mutates(a: Stage, b: Stage, w: Write, encode: P.Page -> K.Payload, m: nat) {
    && SoundStage(a, m) && SoundStage(b, m) && P.Extends(a.pages, b.pages)
    && T.OwnedRoots(a.pages, a.roots, a.heights, a.next, b.pages, b.roots, b.heights, m)
    && b.next == a.next + |w.pages| && w.roots == Pointers(b.roots)
    && (forall id: PageId :: id in b.pages && id !in a.pages <==> a.next <= id < b.next)
    && (forall id: PageId :: a.next <= id < b.next ==> w.pages[id - a.next] == K.Staged(encode(b.pages[id]), P.ChildrenOf(b.pages[id])))
  }

  ghost predicate TreeRun(stages: seq<Stage>, writes: seq<Write>, encode: P.Page -> K.Payload, m: nat) {
    && |stages| == |writes| + 1 && SoundStage(stages[0], m)
    && forall i :: 0 <= i < |writes| ==> Mutates(stages[i], stages[i + 1], writes[i], encode, m)
  }

  // The pages from an id on, as they are written.
  function PagesFrom(pages: P.Pages, start: PageId, encode: P.Page -> K.Payload): K.Pending {
    map id | id in pages && id >= start :: K.Staged(encode(pages[id]), P.ChildrenOf(pages[id]))
  }

  lemma MutationWrites(a: Stage, b: Stage, w: Write, encode: P.Page -> K.Payload, m: nat, start: PageId)
    requires Mutates(a, b, w, encode, m) && start <= a.next
    ensures PagesFrom(b.pages, start, encode) == PagesFrom(a.pages, start, encode) + Written(a.next, w.pages)
    ensures Written(a.next, w.pages) == PagesFrom(b.pages, a.next, encode)
  {
    hide Mutates, PagesFrom, Written;
    NewPages(a, b, w, encode, m);
    OwnPages(a, b, w, encode, m);
    JoinPages(a.pages, b.pages, a.next, start, encode);
  }

  lemma OwnPages(a: Stage, b: Stage, w: Write, encode: P.Page -> K.Payload, m: nat)
    requires Mutates(a, b, w, encode, m)
    ensures Written(a.next, w.pages) == PagesFrom(b.pages, a.next, encode)
  {
    hide P.SoundRoots, T.OwnedRoots, P.Extends, Written, P.Ascending;
    WrittenAt(a.next, w.pages);
    NewPages(a, b, w, encode, m);
    var own, few := Written(a.next, w.pages), PagesFrom(b.pages, a.next, encode);
    forall id ensures id in own <==> id in few {
    }
    forall id | id in own ensures own[id] == few[id] {
      assert w.pages[id - a.next] == K.Staged(encode(b.pages[id]), P.ChildrenOf(b.pages[id]));
    }
  }

  lemma JoinPages(a: P.Pages, b: P.Pages, next: nat, start: PageId, encode: P.Page -> K.Payload)
    requires start <= next && forall id: PageId :: id in b && id < next ==> id in a
    requires forall id: PageId :: id in a ==> id < next && id in b && b[id] == a[id]
    ensures PagesFrom(b, start, encode) == PagesFrom(a, start, encode) + PagesFrom(b, next, encode)
  {
    var whole, parts := PagesFrom(b, start, encode), PagesFrom(a, start, encode) + PagesFrom(b, next, encode);
    forall id ensures id in whole <==> id in parts {
    }
    forall id | id in whole ensures whole[id] == parts[id] {
    }
  }

  lemma NewPages(a: Stage, b: Stage, w: Write, encode: P.Page -> K.Payload, m: nat)
    requires Mutates(a, b, w, encode, m)
    ensures forall id: PageId :: id in b.pages <==> id in a.pages || a.next <= id < b.next
    ensures forall id: PageId :: id in a.pages ==> id < a.next && b.pages[id] == a.pages[id]
  {
    hide P.SoundRoots, T.OwnedRoots;
  }

  lemma {:induction false} RunWrites(stages: seq<Stage>, writes: seq<Write>, encode: P.Page -> K.Payload, m: nat, i: nat)
    requires TreeRun(stages, writes, encode, m) && i <= |writes|
    ensures IdAfter(stages[0].next, writes[..i]) == stages[i].next && stages[0].next <= stages[i].next
    ensures AllWritten(stages[0].next, writes[..i]) == PagesFrom(stages[i].pages, stages[0].next, encode)
  {
    hide Mutates, P.SoundRoots, Written, PagesFrom;
    if i == 0 {
      NothingYet(stages[0], m, encode);
    } else {
      RunWrites(stages, writes, encode, m, i - 1);
      assert Mutates(stages[i - 1], stages[i], writes[i - 1], encode, m);
      assert writes[..i][..i - 1] == writes[..i - 1];
      MutationWrites(stages[i - 1], stages[i], writes[i - 1], encode, m, stages[0].next);
      NextIds(stages[i - 1], stages[i], writes[i - 1], encode, m);
    }
  }

  lemma NothingYet(s: Stage, m: nat, encode: P.Page -> K.Payload)
    requires SoundStage(s, m)
    ensures PagesFrom(s.pages, s.next, encode) == map[]
  {
  }

  lemma NextIds(a: Stage, b: Stage, w: Write, encode: P.Page -> K.Payload, m: nat)
    requires Mutates(a, b, w, encode, m)
    ensures b.next == a.next + |w.pages|
  {
  }

  // A path between pages from an id on stays among them.
  lemma {:induction false} PathFrom(pages: P.Pages, next: PageId, start: PageId, encode: P.Page -> K.Payload, r: PageId, x: PageId)
    requires P.Ascending(pages, next) && x >= start
    ensures Reaches(T.Links(pages), r, x) <==> Reaches(K.Links(PagesFrom(pages, start, encode)), r, x)
    decreases r
  {
    var g, few := T.Links(pages), K.Links(PagesFrom(pages, start, encode));
    assert forall p :: p in few ==> p in g && few[p] == g[p];
    if Reaches(g, r, x) {
      ReachesDown(g, r, x);
      assert r in few;
    }
    if r != x && r in g && r in few {
      forall i | 0 <= i < |g[r]| && g[r][i] < r ensures Reaches(g, g[r][i], x) <==> Reaches(few, g[r][i], x) {
        PathFrom(pages, next, start, encode, g[r][i], x);
      }
    }
  }

  // What the roots of a stage reach among the pages of this commit.
  lemma ReachedFrom(s: Stage, m: nat, start: PageId, encode: P.Page -> K.Payload, x: PageId)
    requires SoundStage(s, m)
    ensures ReachedBy(K.Links(PagesFrom(s.pages, start, encode)), T.RootSet(s.roots), x)
      <==> x >= start && T.Below(s.pages, s.roots, s.heights, m, x)
  {
    hide P.SoundRoots, T.Below;
    var g, few := T.Links(s.pages), K.Links(PagesFrom(s.pages, start, encode));
    T.BelowIsReached(s.pages, s.next, s.roots, s.heights, m, x);
    if ReachedBy(few, T.RootSet(s.roots), x) {
      var r :| r in T.RootSet(s.roots) && Reaches(few, r, x);
      ReachesDown(few, r, x);
    }
    if x >= start {
      forall r | r in T.RootSet(s.roots) ensures Reaches(g, r, x) <==> Reaches(few, r, x) {
        PathFrom(s.pages, s.next, start, encode, r, x);
      }
    }
  }

  /** Mutations of trees whose roots are owned are writes of the kind that a commit stages. */
  lemma TreesChain(stages: seq<Stage>, writes: seq<Write>, encode: P.Page -> K.Payload, m: nat)
    requires TreeRun(stages, writes, encode, m)
    ensures Chained(stages[0].next, writes)
  {
    hide Mutates, P.SoundRoots, T.OwnedRoots, K.OwnedBy, ReachedBy;
    forall i | 0 <= i < |writes| ensures Derives(stages[0].next, writes, i) {
      assert Mutates(stages[i], stages[i + 1], writes[i], encode, m);
      RunWrites(stages, writes, encode, m, i);
      ChildrenBelow(stages[i], stages[i + 1], writes[i], encode, m);
      TreeDerives(stages, writes, encode, m, i);
    }
  }

  lemma ChildrenBelow(a: Stage, b: Stage, w: Write, encode: P.Page -> K.Payload, m: nat)
    requires Mutates(a, b, w, encode, m)
    ensures forall k, c :: 0 <= k < |w.pages| && c in w.pages[k].children ==> c < a.next + k
  {
    hide P.SoundRoots, T.OwnedRoots;
    forall k, c | 0 <= k < |w.pages| && c in w.pages[k].children ensures c < a.next + k {
      var id: PageId := a.next + k;
      assert w.pages[id - a.next] == K.Staged(encode(b.pages[id]), P.ChildrenOf(b.pages[id]));
      assert id in b.pages;
      var j :| 0 <= j < |P.ChildrenOf(b.pages[id])| && P.ChildrenOf(b.pages[id])[j] == c;
    }
  }

  lemma TreeDerives(stages: seq<Stage>, writes: seq<Write>, encode: P.Page -> K.Payload, m: nat, i: nat)
    requires TreeRun(stages, writes, encode, m) && i < |writes|
    ensures var start := stages[0].next;
      K.OwnedBy(K.Links(AllWritten(start, writes[..i])), K.Named(RootsAfter(writes[..i])),
                K.Links(Written(IdAfter(start, writes[..i]), writes[i].pages)), K.Named(writes[i].roots))
  {
    hide P.SoundRoots, T.Below, ReachedBy, PagesFrom, Written, IdAfter, AllWritten, SoundStage, P.Ascending, T.RootSet, K.Named;
    var start, a, b := stages[0].next, stages[i], stages[i + 1];
    assert Mutates(a, b, writes[i], encode, m);
    RunWrites(stages, writes, encode, m, i);
    MutationWrites(a, b, writes[i], encode, m, start);
    var before, own := PagesFrom(a.pages, start, encode), Written(a.next, writes[i].pages);
    LinksJoin(before, own);
    NamedRoots(b.roots);
    RootsBefore(stages, writes, encode, m, i);
    forall x | ReachedBy(K.Links(before) + K.Links(own), K.Named(writes[i].roots), x)
      ensures x in K.Links(own) || ReachedBy(K.Links(before), K.Named(RootsAfter(writes[..i])), x)
    {
      ReachedFrom(b, m, start, encode, x);
      StageOwns(a, b, writes[i], encode, m, x);
      ReachedFrom(a, m, start, encode, x);
      if i == 0 && x !in K.Links(own) {
        BelowIsOld(a, m, x);
      }
    }
  }

  lemma RootsBefore(stages: seq<Stage>, writes: seq<Write>, encode: P.Page -> K.Payload, m: nat, i: nat)
    requires TreeRun(stages, writes, encode, m) && i <= |writes|
    ensures i > 0 ==> K.Named(RootsAfter(writes[..i])) == T.RootSet(stages[i].roots)
  {
    hide P.SoundRoots, T.OwnedRoots, SoundStage;
    if i > 0 {
      assert Mutates(stages[i - 1], stages[i], writes[i - 1], encode, m);
      NamedRoots(stages[i].roots);
    }
  }

  lemma StageOwns(a: Stage, b: Stage, w: Write, encode: P.Page -> K.Payload, m: nat, x: PageId)
    requires Mutates(a, b, w, encode, m)
    requires T.Below(b.pages, b.roots, b.heights, m, x)
    ensures x in K.Links(Written(a.next, w.pages)) || T.Below(a.pages, a.roots, a.heights, m, x)
  {
    hide P.SoundRoots, T.Below;
    if x >= a.next {
      BelowIsOld(b, m, x);
      WrittenAt(a.next, w.pages);
    }
  }

  lemma BelowIsOld(s: Stage, m: nat, x: PageId)
    requires SoundStage(s, m) && T.Below(s.pages, s.roots, s.heights, m, x)
    ensures x in s.pages && x < s.next
  {
    hide P.SoundRoots, T.Below;
    T.BelowIsReached(s.pages, s.next, s.roots, s.heights, m, x);
    var r :| r in T.RootSet(s.roots) && Reaches(T.Links(s.pages), r, x);
    ReachesDown(T.Links(s.pages), r, x);
  }

  /** The commit of a list of tree mutations: what it publishes are the pages below the final roots that no earlier
      commit has published, each as it was written, and nothing else. */
  method PublishTrees(store: K.KeyValuePages, writes: seq<Write>, ghost stages: seq<Stage>, ghost encode: P.Page -> K.Payload, ghost m: nat)
    returns (puts: map<PageId, K.Payload>)
    requires store.Valid() && store.pending == map[] && TreeRun(stages, writes, encode, m) && store.nextId == stages[0].next
    modifies store`pending, store`nextId
    ensures store.Valid() && SoundStage(stages[|writes|], m) && store.nextId == stages[|writes|].next
    ensures forall p :: p in puts <==>
      p >= old(store.nextId) && T.Below(stages[|writes|].pages, stages[|writes|].roots, stages[|writes|].heights, m, p)
    ensures forall p :: p in puts ==> p in stages[|writes|].pages && puts[p] == encode(stages[|writes|].pages[p])
  {
    hide P.SoundRoots, T.Below, Needed, Chained, K.KeyValuePages.Valid, AllWritten, PagesFrom, Mutates, P.Ascending;
    ghost var start, last := store.nextId, stages[|writes|];
    TreesChain(stages, writes, encode, m);
    puts := StageCommit(store, writes);
    RunEnds(stages, writes, encode, m);
    forall p ensures p in puts <==> p >= start && T.Below(last.pages, last.roots, last.heights, m, p) {
      EndNeeds(stages, writes, encode, m, p);
    }
  }

  lemma RunEnds(stages: seq<Stage>, writes: seq<Write>, encode: P.Page -> K.Payload, m: nat)
    requires TreeRun(stages, writes, encode, m)
    ensures var last := stages[|writes|];
      && SoundStage(last, m) && IdAfter(stages[0].next, writes) == last.next
      && (forall p :: p in AllWritten(stages[0].next, writes) ==>
            p in last.pages && AllWritten(stages[0].next, writes)[p].payload == encode(last.pages[p]))
  {
    hide P.SoundRoots, T.OwnedRoots;
    RunWrites(stages, writes, encode, m, |writes|);
    assert writes[..|writes|] == writes;
    assert |writes| > 0 ==> Mutates(stages[|writes| - 1], stages[|writes|], writes[|writes| - 1], encode, m);
  }

  lemma EndNeeds(stages: seq<Stage>, writes: seq<Write>, encode: P.Page -> K.Payload, m: nat, p: PageId)
    requires TreeRun(stages, writes, encode, m)
    ensures SoundStage(stages[|writes|], m)
    ensures var last := stages[|writes|];
      Needed(stages[0].next, writes, p) <==> p >= stages[0].next && T.Below(last.pages, last.roots, last.heights, m, p)
  {
    hide P.SoundRoots, T.Below, ReachedBy, PagesFrom, AllWritten, SoundStage;
    var last := stages[|writes|];
    RunEnds(stages, writes, encode, m);
    RunWrites(stages, writes, encode, m, |writes|);
    assert writes[..|writes|] == writes;
    RootsBefore(stages, writes, encode, m, |writes|);
    ReachedFrom(last, m, stages[0].next, encode, p);
    if |writes| == 0 {
      NothingNeeded(last, m, encode, p);
    }
  }

  lemma NothingNeeded(s: Stage, m: nat, encode: P.Page -> K.Payload, p: PageId)
    requires SoundStage(s, m)
    ensures !Needed(s.next, [], p) && !(p >= s.next && T.Below(s.pages, s.roots, s.heights, m, p))
  {
    hide P.SoundRoots, T.Below;
    if T.Below(s.pages, s.roots, s.heights, m, p) {
      BelowIsOld(s, m, p);
    }
  }
}
