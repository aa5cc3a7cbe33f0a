// The pages a key-value database has ever published, and what is reachable from what.
module PageGraph {
  type PageId = nat

  // The children of every page; a page is written after its children and gets a larger id.
  type Graph = map<PageId, seq<PageId>>

  ghost predicate WellFounded(g: Graph, limit: nat) {
    forall p :: p in g ==> p < limit && forall i :: 0 <= i < |g[p]| ==> g[p][i] < p && g[p][i] in g
  }

  ghost predicate Grows(a: Graph, b: Graph) {
    forall p :: p in a ==> p in b && b[p] == a[p]
  }

  ghost predicate Reaches(g: Graph, from: PageId, to: PageId)
    decreases from
  {
    && from in g
    && (from == to || exists i :: 0 <= i < |g[from]| && g[from][i] < from && Reaches(g, g[from][i], to))
  }

  ghost predicate ReachedBy(g: Graph, roots: set<PageId>, x: PageId) {
    exists r :: r in roots && Reaches(g, r, x)
  }

  lemma {:induction false} ReachesDown(g: Graph, from: PageId, to: PageId)
    requires Reaches(g, from, to)
    ensures to <= from && to in g
    decreases from
  {
    if from != to {
      var i :| 0 <= i < |g[from]| && g[from][i] < from && Reaches(g, g[from][i], to);
      ReachesDown(g, g[from][i], to);
    }
  }

  lemma {:induction false} ReachesChild(g: Graph, from: PageId, to: PageId, i: nat)
    requires to in g && Reaches(g, from, to) && i < |g[to]| && g[to][i] < to && g[to][i] in g
    ensures Reaches(g, from, g[to][i])
    decreases from
  {
    if from == to {
      assert Reaches(g, g[to][i], g[to][i]);
    } else {
      var j :| 0 <= j < |g[from]| && g[from][j] < from && Reaches(g, g[from][j], to);
      ReachesChild(g, g[from][j], to, i);
    }
  }

  lemma ReachedChild(g: Graph, limit: nat, roots: set<PageId>, x: PageId, i: nat)
    requires WellFounded(g, limit) && ReachedBy(g, roots, x) && x in g && i < |g[x]|
    ensures ReachedBy(g, roots, g[x][i])
  {
    var r :| r in roots && Reaches(g, r, x);
    ReachesChild(g, r, x, i);
  }

  lemma {:induction false} ReachesTransitive(g: Graph, from: PageId, mid: PageId, to: PageId)
    requires Reaches(g, from, mid) && Reaches(g, mid, to)
    ensures Reaches(g, from, to)
    decreases from
  {
    if from != mid {
      var i :| 0 <= i < |g[from]| && g[from][i] < from && Reaches(g, g[from][i], mid);
      ReachesTransitive(g, g[from][i], mid, to);
    }
  }

  /** Later pages do not change what an older page reaches. */
  lemma {:induction false} ReachesStable(a: Graph, limit: nat, b: Graph, from: PageId, to: PageId)
    requires WellFounded(a, limit) && Grows(a, b) && from in a
    ensures Reaches(a, from, to) <==> Reaches(b, from, to)
    decreases from
  {
    if from != to {
      forall i | 0 <= i < |a[from]| ensures Reaches(a, a[from][i], to) <==> Reaches(b, a[from][i], to) {
        ReachesStable(a, limit, b, a[from][i], to);
      }
    }
  }

  lemma ReachedStable(a: Graph, limit: nat, b: Graph, roots: set<PageId>, x: PageId)
    requires WellFounded(a, limit) && Grows(a, b) && (forall r :: r in roots ==> r in a)
    ensures ReachedBy(a, roots, x) <==> ReachedBy(b, roots, x)
  {
    hide Reaches;
    forall r | r in roots ensures Reaches(a, r, x) <==> Reaches(b, r, x) {
      ReachesStable(a, limit, b, r, x);
    }
  }

  // New pages over new pages and pages that the roots of the parent reach.
  ghost predicate Derived(g: Graph, limit: nat, written: Graph, next: nat, parent: set<PageId>) {
    forall p :: p in written ==> limit <= p < next && p !in g && forall i :: 0 <= i < |written[p]| ==>
      written[p][i] < p && (written[p][i] in written || ReachedBy(g, parent, written[p][i]))
  }

  ghost predicate DerivedRoots(g: Graph, written: Graph, parent: set<PageId>, roots: set<PageId>) {
    forall r :: r in roots ==> r in written || ReachedBy(g, parent, r)
  }

  /** A root made by one commit reaches only pages of that commit or pages of its parent. */
  lemma {:induction false} DerivedReach(g: Graph, limit: nat, written: Graph, next: nat, parent: set<PageId>, from: PageId, to: PageId)
    requires WellFounded(g, limit) && Derived(g, limit, written, next, parent)
    requires from in written || ReachedBy(g, parent, from)
    requires Reaches(g + written, from, to)
    ensures to in written || ReachedBy(g, parent, to)
    decreases from
  {
    if from in written {
      if from != to {
        var all := g + written;
        var i :| 0 <= i < |all[from]| && all[from][i] < from && Reaches(all, all[from][i], to);
        DerivedReach(g, limit, written, next, parent, all[from][i], to);
      }
    } else {
      var r :| r in parent && Reaches(g, r, from);
      ReachesDown(g, r, from);
      DerivedGrows(g, limit, written, next, parent);
      ReachesStable(g, limit, g + written, from, to);
      ReachesTransitive(g, r, from, to);
    }
  }

  lemma DerivedGrows(g: Graph, limit: nat, written: Graph, next: nat, parent: set<PageId>)
    requires WellFounded(g, limit) && Derived(g, limit, written, next, parent)
    ensures Grows(g, g + written)
  {
  }

  lemma DerivedWellFounded(g: Graph, limit: nat, written: Graph, next: nat, parent: set<PageId>)
    requires WellFounded(g, limit) && Derived(g, limit, written, next, parent) && limit <= next
    ensures WellFounded(g + written, next)
  {
    hide Reaches;
    var all := g + written;
    forall p | p in all ensures p < next && forall i :: 0 <= i < |all[p]| ==> all[p][i] < p && all[p][i] in all {
      if p in written {
        forall i | 0 <= i < |written[p]| ensures written[p][i] in all {
          if written[p][i] !in written {
            var r :| r in parent && Reaches(g, r, written[p][i]);
            ReachesDown(g, r, written[p][i]);
          }
        }
      }
    }
  }

  lemma DerivedReachedBy(g: Graph, limit: nat, written: Graph, next: nat, parent: set<PageId>, roots: set<PageId>, x: PageId)
    requires WellFounded(g, limit) && Derived(g, limit, written, next, parent) && DerivedRoots(g, written, parent, roots)
    requires ReachedBy(g + written, roots, x)
    ensures x in written || ReachedBy(g, parent, x)
  {
    var r :| r in roots && Reaches(g + written, r, x);
    DerivedReach(g, limit, written, next, parent, r, x);
  }

  // ---------- closed sets ----------

  ghost predicate Closed(g: Graph, s: set<PageId>) {
    forall p :: p in s && p in g ==> forall i :: 0 <= i < |g[p]| ==> g[p][i] in s
  }

  /** A set that contains the children of its pages contains everything they reach. */
  lemma {:induction false} ClosedReach(g: Graph, s: set<PageId>, from: PageId, to: PageId)
    requires Closed(g, s) && from in s && Reaches(g, from, to)
    ensures to in s
    decreases from
  {
    if from != to {
      var i :| 0 <= i < |g[from]| && g[from][i] < from && Reaches(g, g[from][i], to);
      ClosedReach(g, s, g[from][i], to);
    }
  }
}
