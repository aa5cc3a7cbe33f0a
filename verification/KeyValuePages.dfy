// Pages that a commit has written but not yet published (key-value-pages.ts).
module KeyValuePages {
  import opened PageGraph

  type Payload = seq<int>

  datatype Staged = Staged(payload: Payload, children: seq<PageId>)

  datatype Option<+T> = None | Some(value: T)

  type Pending = map<PageId, Staged>

  // The staged pages as a graph of their own: paths stop at published pages.
  function Links(pending: Pending): Graph {
    map p | p in pending :: pending[p].children
  }

  function Named(roots: seq<Option<PageId>>): set<PageId> {
    set i | 0 <= i < |roots| && roots[i].Some? :: roots[i].value
  }

  ghost predicate Live(pending: Pending, roots: seq<Option<PageId>>, p: PageId) {
    ReachedBy(Links(pending), Named(roots), p)
  }

  // ---------- the worklist ----------

  // Reached pages are on the stack or have been taken from it.
  ghost predicate Progress(g: Graph, roots: set<PageId>, live: set<PageId>, stack: seq<Option<PageId>>) {
    && live <= g.Keys
    && (forall p :: p in live ==> ReachedBy(g, roots, p))
    && (forall i :: 0 <= i < |stack| && stack[i].Some? && stack[i].value in g ==> ReachedBy(g, roots, stack[i].value))
    && (forall r :: r in roots && r in g ==> r in live || Some(r) in stack)
    && (forall p, i :: p in live && 0 <= i < |g[p]| && g[p][i] in g ==> g[p][i] in live || Some(g[p][i]) in stack)
  }

  ghost predicate Downward(g: Graph) {
    forall p, i :: p in g && 0 <= i < |g[p]| ==> g[p][i] < p
  }

  lemma Pop(g: Graph, roots: set<PageId>, live: set<PageId>, stack: seq<Option<PageId>>)
    requires Downward(g) && Progress(g, roots, live, stack) && stack != []
    ensures var rest := stack[..|stack| - 1];
      match stack[|stack| - 1]
      case None => Progress(g, roots, live, rest)
      case Some(p) =>
        if p in live || p !in g then Progress(g, roots, live, rest)
        else Progress(g, roots, live + {p}, rest + Pointers(g[p]))
  {
    hide ReachedBy;
    var rest, top := stack[..|stack| - 1], stack[|stack| - 1];
    assert stack == rest + [top];
    if top.Some? && top.value in g && top.value !in live {
      var p := top.value;
      forall i | 0 <= i < |g[p]| && g[p][i] in g ensures ReachedBy(g, roots, g[p][i]) {
        ReachedStep(g, roots, p, i);
      }
      forall i | 0 <= i < |g[p]| ensures Some(g[p][i]) in rest + Pointers(g[p]) {
        assert Pointers(g[p])[i] == Some(g[p][i]);
      }
    }
  }

  lemma Begin(g: Graph, stack: seq<Option<PageId>>)
    ensures Progress(g, Named(stack), {}, stack)
  {
    forall i | 0 <= i < |stack| && stack[i].Some? && stack[i].value in g ensures ReachedBy(g, Named(stack), stack[i].value) {
      assert Reaches(g, stack[i].value, stack[i].value);
    }
  }

  lemma OneMore(pending: Pending, id: PageId, page: Staged)
    requires Downward(Links(pending)) && forall i :: 0 <= i < |page.children| ==> page.children[i] < id
    ensures Downward(Links(pending[id := page]))
  {
    var links := Links(pending[id := page]);
    forall p, i | p in links && 0 <= i < |links[p]| ensures links[p][i] < p {
      assert p != id ==> links[p] == Links(pending)[p];
    }
  }

  lemma FewerLinks(pending: Pending, live: set<PageId>)
    requires Downward(Links(pending))
    ensures Downward(Links(map p | p in pending && p in live :: pending[p]))
  {
    var fewer := Links(map p | p in pending && p in live :: pending[p]);
    forall p, i | p in fewer && 0 <= i < |fewer[p]| ensures fewer[p][i] < p {
      assert fewer[p] == Links(pending)[p];
    }
  }

  lemma LinkKeys(pending: Pending)
    ensures Links(pending).Keys == pending.Keys && forall p :: p in pending ==> Links(pending)[p] == pending[p].children
  {
  }

  lemma LiveIsStaged(pending: Pending, roots: seq<Option<PageId>>, p: PageId)
    requires Live(pending, roots, p)
    ensures p in pending
  {
    var r :| r in Named(roots) && Reaches(Links(pending), r, p);
    ReachesDown(Links(pending), r, p);
  }

  function Pointers(ids: seq<PageId>): (r: seq<Option<PageId>>)
    ensures |r| == |ids| && forall i :: 0 <= i < |ids| ==> r[i] == Some(ids[i])
  {
    seq(|ids|, i requires 0 <= i < |ids| => Some(ids[i]))
  }

  lemma ReachedStep(g: Graph, roots: set<PageId>, p: PageId, i: nat)
    requires Downward(g) && p in g && i < |g[p]| && g[p][i] in g && ReachedBy(g, roots, p)
    ensures ReachedBy(g, roots, g[p][i])
  {
    var r :| r in roots && Reaches(g, r, p);
    ReachesChild(g, r, p, i);
  }

  lemma Exhausted(g: Graph, roots: set<PageId>, live: set<PageId>, p: PageId)
    requires Progress(g, roots, live, [])
    ensures p in live <==> ReachedBy(g, roots, p)
  {
    if ReachedBy(g, roots, p) {
      var r :| r in roots && Reaches(g, r, p);
      StaysInside(g, live, r, p);
    }
  }

  lemma {:induction false} StaysInside(g: Graph, live: set<PageId>, from: PageId, to: PageId)
    requires forall p, i :: p in live && p in g && 0 <= i < |g[p]| && g[p][i] in g ==> g[p][i] in live
    requires from in live && Reaches(g, from, to)
    ensures to in live
    decreases from
  {
    if from != to {
      var i :| 0 <= i < |g[from]| && g[from][i] < from && Reaches(g, g[from][i], to);
      StaysInside(g, live, g[from][i], to);
    }
  }

  class KeyValuePages {
    var published: map<PageId, Payload>
    var pending: Pending
    var nextId: PageId

    constructor (published: map<PageId, Payload>, nextId: PageId)
      requires forall p :: p in published ==> p < nextId
      ensures Valid() && this.published == published && pending == map[] && this.nextId == nextId
    {
      this.published, pending, this.nextId := published, map[], nextId;
    }

    ghost predicate Valid()
      reads this
    {
      && (forall p :: p in published || p in pending ==> p < nextId)
      && pending.Keys !! published.Keys
      && Downward(Links(pending))
    }

    method ReadPage(id: PageId) returns (payload: Option<Payload>)
      ensures payload == if id in pending then Some(pending[id].payload) else if id in published then Some(published[id]) else None
    {
      if id in pending {
        return Some(pending[id].payload);
      }
      return if id in published then Some(published[id]) else None;
    }

    method WritePageOwned(payload: Payload, children: seq<PageId>) returns (id: PageId)
      requires Valid() && forall i :: 0 <= i < |children| ==> children[i] < nextId
      modifies this`pending, this`nextId
      ensures Valid() && id == old(nextId) && nextId == id + 1 && pending == old(pending)[id := Staged(payload, children)]
      ensures id !in old(pending) && id !in published
    {
      OneMore(pending, nextId, Staged(payload, children));
      id := nextId;
      nextId := nextId + 1;
      pending := pending[id := Staged(payload, children)];
    }

    // The staged pages that the roots reach; tracing stops at published pages.
    method Trace(roots: seq<Option<PageId>>) returns (live: set<PageId>)
      requires Valid()
      ensures forall p :: p in live <==> Live(pending, roots, p)
    {
      hide Progress, Links, Named, ReachedBy, Downward;
      ghost var g := Links(pending);
      LinkKeys(pending);
      live := {};
      var stack := roots;
      Begin(g, roots);
      while stack != []
        invariant Progress(g, Named(roots), live, stack)
        decreases |g.Keys - live|, |stack|
      {
        Pop(g, Named(roots), live, stack);
        var top := stack[|stack| - 1];
        stack := stack[..|stack| - 1];
        if top.Some? && top.value !in live && top.value in pending {
          Shrinks(g.Keys, live, top.value);
          live := live + {top.value};
          stack := stack + Pointers(pending[top.value].children);
        }
      }
      forall p ensures p in live <==> ReachedBy(g, Named(roots), p) {
        Exhausted(g, Named(roots), live, p);
      }
    }

    /** Keeps exactly the staged pages that the roots reach. */
    method RetainRoots(roots: seq<Option<PageId>>)
      requires Valid()
      modifies this`pending
      ensures Valid()
      ensures forall p :: p in pending <==> Live(old(pending), roots, p)
      ensures forall p :: p in pending ==> p in old(pending) && pending[p] == old(pending)[p]
    {
      hide Live;
      var live := Trace(roots);
      forall p | p in live ensures p in pending {
        LiveIsStaged(pending, roots, p);
      }
      FewerLinks(pending, live);
      pending := map p | p in pending && p in live :: pending[p];
    }

    // The records that publish the staged pages.
    method Operations() returns (puts: map<PageId, Payload>)
      ensures puts.Keys == pending.Keys && forall p :: p in pending ==> puts[p] == pending[p].payload
    {
      puts := map p | p in pending :: pending[p].payload;
    }

    // Ids of aborted pages are not used again.
    method Discard()
      requires Valid()
      modifies this`pending
      ensures Valid() && pending == map[]
    {
      pending := map[];
    }
  }

  lemma Shrinks(all: set<PageId>, live: set<PageId>, id: PageId)
    requires id in all && id !in live
    ensures |all - (live + {id})| < |all - live|
  {
    assert all - live == (all - (live + {id})) + {id};
  }

  // ---------- a whole commit ----------

  // The staged pages contain whatever the current roots reach among all pages this commit has written.
  ghost predicate Covers(all: Graph, staged: Graph, roots: set<PageId>) {
    && (forall p :: p in staged ==> p in all && staged[p] == all[p])
    && (forall x :: ReachedBy(all, roots, x) ==> x in staged)
  }

  // A mutation's roots reach its own pages, and pages that the roots before it reach.
  ghost predicate OwnedBy(all: Graph, roots: set<PageId>, written: Graph, roots': set<PageId>) {
    forall x :: ReachedBy(all + written, roots', x) ==> x in written || ReachedBy(all, roots, x)
  }

  lemma MutationCovers(all: Graph, staged: Graph, roots: set<PageId>, written: Graph, roots': set<PageId>)
    requires Covers(all, staged, roots) && OwnedBy(all, roots, written, roots')
    requires forall p :: p in written ==> p !in all
    ensures Covers(all + written, staged + written, roots')
  {
    hide ReachedBy;
  }

  /** Dropping what the roots do not reach leaves exactly what they reach among all pages ever written. */
  lemma RetainedIsExact(all: Graph, staged: Graph, roots: set<PageId>, retained: Graph)
    requires Covers(all, staged, roots) && Downward(all)
    requires forall p :: p in retained <==> ReachedBy(staged, roots, p)
    requires forall p :: p in retained ==> p in staged && retained[p] == staged[p]
    ensures Covers(all, retained, roots)
    ensures forall p :: p in retained <==> ReachedBy(all, roots, p)
  {
    forall p ensures ReachedBy(staged, roots, p) <==> ReachedBy(all, roots, p) {
      StagedReach(all, staged, roots, p);
    }
  }

  lemma StagedReach(all: Graph, staged: Graph, roots: set<PageId>, x: PageId)
    requires Covers(all, staged, roots) && Downward(all)
    ensures ReachedBy(staged, roots, x) <==> ReachedBy(all, roots, x)
  {
    if ReachedBy(all, roots, x) {
      var r :| r in roots && Reaches(all, r, x);
      assert Reaches(all, r, r) && ReachedBy(all, roots, r);
      IntoStaged(all, staged, roots, r, x);
    }
    if ReachedBy(staged, roots, x) {
      var r :| r in roots && Reaches(staged, r, x);
      OutOfStaged(all, staged, r, x);
    }
  }

  lemma {:induction false} IntoStaged(all: Graph, staged: Graph, roots: set<PageId>, from: PageId, x: PageId)
    requires Covers(all, staged, roots) && Downward(all) && ReachedBy(all, roots, from) && Reaches(all, from, x)
    ensures Reaches(staged, from, x)
    decreases from
  {
    if from != x {
      var i :| 0 <= i < |all[from]| && all[from][i] < from && Reaches(all, all[from][i], x);
      ReachedStep(all, roots, from, i);
      IntoStaged(all, staged, roots, all[from][i], x);
    }
  }

  lemma {:induction false} OutOfStaged(all: Graph, staged: Graph, from: PageId, x: PageId)
    requires forall p :: p in staged ==> p in all && staged[p] == all[p]
    requires Reaches(staged, from, x)
    ensures Reaches(all, from, x)
    decreases from
  {
    if from != x {
      var i :| 0 <= i < |staged[from]| && staged[from][i] < from && Reaches(staged, staged[from][i], x);
      OutOfStaged(all, staged, staged[from][i], x);
    }
  }
}
