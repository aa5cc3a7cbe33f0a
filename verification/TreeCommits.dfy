// What tree mutations promise is what a commit of the key-value database relies on.
module TreeCommits {
  import Entries
  import P = PageTrees
  import opened PageGraph

  // The pages of a tree store as a graph.
  function Links(pages: P.Pages): Graph {
    map p | p in pages :: P.ChildrenOf(pages[p])
  }

  lemma LinksWellFounded(pages: P.Pages, nextId: PageId)
    requires P.Ascending(pages, nextId)
    ensures WellFounded(Links(pages), nextId)
  {
    var g := Links(pages);
    forall p | p in g ensures p < nextId && forall i :: 0 <= i < |g[p]| ==> g[p][i] < p && g[p][i] in g {
      assert g[p] == P.ChildrenOf(pages[p]);
    }
  }

  /** Reachability in the graph is reachability in the tree. */
  lemma {:induction false} ReachIsReaches(pages: P.Pages, nextId: PageId, id: PageId, h: nat, x: PageId)
    requires P.Ascending(pages, nextId) && P.Shaped(pages, id, h)
    ensures x in P.Reach(pages, id, h) <==> Reaches(Links(pages), id, x)
    decreases h
  {
    hide P.Reach;
    P.ReachChildren(pages, id, h);
    var g := Links(pages);
    if pages[id].Internal? {
      var children := pages[id].children;
      P.ReachAllIs(pages, children, h - 1);
      assert g[id] == children;
      forall i | 0 <= i < |children| ensures x in P.Reach(pages, children[i], h - 1) <==> Reaches(g, children[i], x) {
        ReachIsReaches(pages, nextId, children[i], h - 1, x);
      }
      assert forall i :: 0 <= i < |children| ==> P.ChildrenOf(pages[id])[i] < id;
    }
  }

  function RootSet(roots: seq<P.Root>): set<PageId> {
    set i | 0 <= i < |roots| && roots[i].Some? :: roots[i].value
  }

  // The pages below some roots.
  ghost predicate Below(pages: P.Pages, roots: seq<P.Root>, heights: seq<nat>, m: nat, x: PageId)
    requires P.SoundRoots(pages, roots, heights, m)
  {
    exists i :: 0 <= i < |roots| && x in P.RootReach(pages, roots[i], heights[i])
  }

  lemma BelowIsReached(pages: P.Pages, nextId: PageId, roots: seq<P.Root>, heights: seq<nat>, m: nat, x: PageId)
    requires P.Ascending(pages, nextId) && P.SoundRoots(pages, roots, heights, m)
    ensures Below(pages, roots, heights, m, x) <==> ReachedBy(Links(pages), RootSet(roots), x)
  {
    hide P.Reach, Reaches, P.WellFormed, P.Shaped, P.Ascending;
    forall i | 0 <= i < |roots| && roots[i].Some?
      ensures x in P.RootReach(pages, roots[i], heights[i]) <==> Reaches(Links(pages), roots[i].value, x)
    {
      assert P.SoundRoot(pages, roots[i], heights[i], m);
      ReachIsReaches(pages, nextId, roots[i].value, heights[i], x);
    }
  }

  // Every page below the new roots is new or lies below the roots before.
  ghost predicate OwnedRoots(before: P.Pages, roots: seq<P.Root>, heights: seq<nat>, newFrom: PageId,
      after: P.Pages, roots': seq<P.Root>, heights': seq<nat>, m: nat)
    requires P.SoundRoots(before, roots, heights, m) && P.SoundRoots(after, roots', heights', m)
  {
    forall x: PageId :: Below(after, roots', heights', m, x) ==> x >= newFrom || Below(before, roots, heights, m, x)
  }

  // The new pages that a commit publishes: those its roots reach.
  ghost function Published(after: P.Pages, roots': seq<P.Root>, heights': seq<nat>, m: nat, newFrom: PageId): Graph
    requires P.SoundRoots(after, roots', heights', m)
  {
    map x | x in after && x >= newFrom && Below(after, roots', heights', m, x) :: P.ChildrenOf(after[x])
  }

  /** Mutated trees meet the demands that a commit makes on its pages and roots. */
  lemma TreeCommitIsDerived(before: P.Pages, newFrom: PageId, roots: seq<P.Root>, heights: seq<nat>,
      after: P.Pages, next: PageId, roots': seq<P.Root>, heights': seq<nat>, m: nat)
    requires P.Ascending(before, newFrom) && P.Ascending(after, next) && P.Extends(before, after)
    requires P.SoundRoots(before, roots, heights, m) && P.SoundRoots(after, roots', heights', m)
    requires OwnedRoots(before, roots, heights, newFrom, after, roots', heights', m)
    ensures var g, written := Links(before), Published(after, roots', heights', m, newFrom);
      Derived(g, newFrom, written, next, RootSet(roots)) && DerivedRoots(g, written, RootSet(roots), RootSet(roots'))
  {
    hide P.SoundRoots, P.Ascending, Below, ReachedBy;
    var g, written := Links(before), Published(after, roots', heights', m, newFrom);
    forall p, i | p in written && 0 <= i < |written[p]|
      ensures written[p][i] < p && (written[p][i] in written || ReachedBy(g, RootSet(roots), written[p][i]))
    {
      ChildBelow(after, next, roots', heights', m, p, i);
      BelowIsReached(before, newFrom, roots, heights, m, written[p][i]);
    }
    forall p | p in written ensures newFrom <= p < next && p !in g {
      InOrder(before, newFrom, p);
      InOrder(after, next, p);
    }
    forall r | r in RootSet(roots') ensures r in written || ReachedBy(g, RootSet(roots), r) {
      RootBelow(after, roots', heights', m, r);
      BelowIsReached(before, newFrom, roots, heights, m, r);
    }
  }

  lemma InOrder(pages: P.Pages, next: PageId, p: PageId)
    requires P.Ascending(pages, next)
    ensures p in pages ==> p < next
  {
  }

  lemma ChildBelow(after: P.Pages, next: PageId, roots': seq<P.Root>, heights': seq<nat>, m: nat, p: PageId, i: nat)
    requires P.Ascending(after, next) && P.SoundRoots(after, roots', heights', m)
    requires p in after && Below(after, roots', heights', m, p) && i < |P.ChildrenOf(after[p])|
    ensures P.ChildrenOf(after[p])[i] < p && P.ChildrenOf(after[p])[i] in after
    ensures Below(after, roots', heights', m, P.ChildrenOf(after[p])[i])
  {
    hide P.SoundRoots, Below, ReachedBy;
    var c := P.ChildrenOf(after[p])[i];
    BelowIsReached(after, next, roots', heights', m, p);
    BelowIsReached(after, next, roots', heights', m, c);
    LinksWellFounded(after, next);
    ReachedChild(Links(after), next, RootSet(roots'), p, i);
  }

  lemma RootBelow(after: P.Pages, roots': seq<P.Root>, heights': seq<nat>, m: nat, r: PageId)
    requires P.SoundRoots(after, roots', heights', m) && r in RootSet(roots')
    ensures r in after && Below(after, roots', heights', m, r)
  {
    hide P.WellFormed;
    var i :| 0 <= i < |roots'| && roots'[i] == Entries.Some(r);
    assert P.SoundRoot(after, roots'[i], heights'[i], m);
    assert r in P.Reach(after, r, heights'[i]);
  }

  // What Mutate promises of one tree.
  ghost predicate OwnedPair(before: P.Pages, root: P.Root, h: nat, newFrom: PageId, after: P.Pages, root': P.Root, h': nat, m: nat) {
    && P.SoundRoot(before, root, h, m) && P.SoundRoot(after, root', h', m)
    && P.OwnedRoot(after, root', h', newFrom, P.RootReach(before, root, h))
  }

  /** Mutating tree by tree gives roots of that kind. */
  lemma MutationsOwn(before: P.Pages, roots: seq<P.Root>, heights: seq<nat>, newFrom: PageId,
      after: P.Pages, roots': seq<P.Root>, heights': seq<nat>, m: nat)
    requires P.SoundRoots(before, roots, heights, m) && P.SoundRoots(after, roots', heights', m) && |roots'| == |roots|
    requires forall i :: 0 <= i < |roots| ==> OwnedPair(before, roots[i], heights[i], newFrom, after, roots'[i], heights'[i], m)
    ensures OwnedRoots(before, roots, heights, newFrom, after, roots', heights', m)
  {
    hide P.Reach, P.WellFormed, P.Shaped, Entries.Sorted;
    forall x: PageId | Below(after, roots', heights', m, x) ensures x >= newFrom || Below(before, roots, heights, m, x) {
      var i :| 0 <= i < |roots'| && x in P.RootReach(after, roots'[i], heights'[i]);
      assert OwnedPair(before, roots[i], heights[i], newFrom, after, roots'[i], heights'[i], m);
    }
  }

  /** One mutation after another still owns what it reaches. */
  lemma OwnedAgain(a: P.Pages, r0: P.Root, h0: nat, n0: PageId, b: P.Pages, r1: P.Root, h1: nat, n1: PageId,
      c: P.Pages, r2: P.Root, h2: nat, m: nat)
    requires P.SoundRoot(a, r0, h0, m) && P.SoundRoot(b, r1, h1, m) && P.SoundRoot(c, r2, h2, m) && n0 <= n1
    requires P.OwnedRoot(b, r1, h1, n0, P.RootReach(a, r0, h0)) && P.OwnedRoot(c, r2, h2, n1, P.RootReach(b, r1, h1))
    ensures P.OwnedRoot(c, r2, h2, n0, P.RootReach(a, r0, h0))
  {
    hide P.Reach, P.WellFormed, P.Shaped, Entries.Sorted;
  }
}
