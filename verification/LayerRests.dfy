/**
 * What the coarse layers of src/coarse_smooth.rs are made of, in every reachable store.
 *
 * `RestsOnCoarse` says that an occurrence rests on coarse occurrences among its own
 * ancestors; `JointIsConvex` says that the layer left behind by a consumer of
 * unrelated supports is convex whenever the supports together are.
 */
module LayerRests {
  import opened Collections
  import opened Wrappers
  import opened LayerGraph
  import opened LayerNames
  import opened LayerStore

  function LayerMembers(s: Store, i: nat): set<nat>
    requires Linked(s) && i < |s.occurrences|
  {
    s.coarseLayers[s.occurrences[i].coarseLayer].members
  }

  ghost predicate RestsAt(s: Store, i: nat, m: nat)
    requires Linked(s) && i < |s.occurrences|
  {
    m < |s.occurrences| && s.occurrences[m].smoothLayer.None? && m in Ancestors(GraphOf(s.occurrences), i)
  }

  /** A parent of a smooth occurrence brings its own layer. */
  lemma ParentInherited(s: Store, i: nat, p: nat)
    requires Valid(s) && i < |s.occurrences| && s.occurrences[i].smoothLayer.Some? && p in s.occurrences[i].apply.parents
    ensures p < |s.occurrences| && LayerMembers(s, p) <= LayerMembers(s, i)
  {
    assert Justified(s, i);
  }

  /** A smooth occurrence has its members from its parents. */
  lemma MemberFromParent(s: Store, i: nat, m: nat) returns (p: nat)
    requires Valid(s) && i < |s.occurrences| && s.occurrences[i].smoothLayer.Some? && m in LayerMembers(s, i)
    ensures p < i && p in GraphOf(s.occurrences)[i] && m in LayerMembers(s, p)
  {
    assert Justified(s, i) && GraphOf(s.occurrences)[i] == s.occurrences[i].apply.parents;
    p :| p in s.occurrences[i].apply.parents && p < |s.occurrences| && m in LayerMembers(s, p);
  }

  /** A coarse occurrence is its own layer; a smooth one rests on earlier coarse ancestors, and on at least one. */
  lemma {:induction false} RestsOnCoarse(s: Store, i: nat)
    requires Valid(s) && i < |s.occurrences|
    ensures LayerMembers(s, i) != {} && forall m :: m in LayerMembers(s, i) ==> RestsAt(s, i, m)
    ensures i in LayerMembers(s, i) <==> s.occurrences[i].smoothLayer.None?
    decreases i
  {
    var g, o := GraphOf(s.occurrences), s.occurrences[i];
    assert Justified(s, i) && g[i] == o.apply.parents;
    if o.smoothLayer.Some? {
      assert o.apply.parents != [] && o.apply.parents[0] in g[i];
      ParentInherited(s, i, o.apply.parents[0]);
      RestsOnCoarse(s, o.apply.parents[0]);
      forall m | m in LayerMembers(s, i) ensures RestsAt(s, i, m) && m != i {
        var p := MemberFromParent(s, i, m);
        RestsOnCoarse(s, p);
        RestsFurther(s, i, p, m);
      }
    }
  }

  lemma RestsFurther(s: Store, i: nat, p: nat, m: nat)
    requires Valid(s) && i < |s.occurrences| && p < i && p in GraphOf(s.occurrences)[i] && RestsAt(s, p, m)
    ensures RestsAt(s, i, m) && m != i
  {
  }

  // ---------- joints ----------

  /** Between the supports and the consumer, every occurrence rests within the supports. */
  lemma {:induction false} BetweenRestsWithin(s: Store, support: set<nat>, p: nat, x: nat)
    requires Valid(s) && p < |s.occurrences| && LayerMembers(s, p) <= support
    requires Acyclic(Cut(GraphOf(s.occurrences), support)) && x in Ancestors(Cut(GraphOf(s.occurrences), support), p)
    ensures x < |s.occurrences| && LayerMembers(s, x) <= support
    decreases p
  {
    var g := GraphOf(s.occurrences);
    var h := Cut(g, support);
    if x != p {
      var q :| q in h[p] && x in Ancestors(h, q);
      RestsOnCoarse(s, p);
      assert p !in support && g[p] == s.occurrences[p].apply.parents;
      ParentInherited(s, p, q);
      BetweenRestsWithin(s, support, q, x);
    }
  }

  /** Ancestors are reached without passing the supports, or descend the supports. */
  lemma {:induction false} PastSupport(g: Graph, support: set<nat>, m: nat, y: nat)
    requires Acyclic(g) && Acyclic(Cut(g, support)) && m < |g| && y in Ancestors(g, m)
    ensures y in Ancestors(Cut(g, support), m) || exists r :: r in support && r < |g| && y in Ancestors(g, r)
    decreases m
  {
    if y != m && m !in support {
      var q :| q in g[m] && y in Ancestors(g, q);
      PastSupport(g, support, q, y);
      assert q in Cut(g, support)[m];
    }
  }

  lemma {:induction false} CutAncestors(g: Graph, support: set<nat>, m: nat, y: nat)
    requires Acyclic(g) && Acyclic(Cut(g, support)) && m < |g| && y in Ancestors(Cut(g, support), m)
    ensures y in Ancestors(g, m)
    decreases m
  {
    if y != m {
      var q :| q in Cut(g, support)[m] && y in Ancestors(Cut(g, support), q);
      CutAncestors(g, support, q, y);
      assert q in g[m];
    }
  }

  /** Every old member of the joint descends from the supports. */
  lemma JointMeets(s: Store, a: Apply, x: nat)
    requires Valid(s) && ParentsKnown(s, a) && x < |s.occurrences|
    requires x in JointMembers(GraphOf(s.occurrences), Support(s, a), a.parents)
    ensures Meets(GraphOf(s.occurrences), Support(s, a), x)
  {
    var g, support := GraphOf(s.occurrences), Support(s, a);
    CutAcyclic(g, support);
    if x !in support {
      var p :| p in a.parents && x in Ancestors(Cut(g, support), p);
      assert LayerMembers(s, p) <= support;
      BetweenRestsWithin(s, support, p, x);
      RestsOnCoarse(s, x);
      var m :| m in LayerMembers(s, x);
      assert RestsAt(s, x, m);
    }
  }

  /** Ancestors of a joint member are in the joint or lie beyond the supports. */
  lemma OutsideJoint(s: Store, a: Apply, p: nat, y: nat)
    requires ParentsKnown(s, a) && p < |s.occurrences| && y in Ancestors(GraphOf(s.occurrences), p)
    requires p in JointMembers(GraphOf(s.occurrences), Support(s, a), a.parents)
    ensures y in JointMembers(GraphOf(s.occurrences), Support(s, a), a.parents) ||
            exists r :: r in Support(s, a) && r < |s.occurrences| && y in Ancestors(GraphOf(s.occurrences), r)
  {
    var g, support := GraphOf(s.occurrences), Support(s, a);
    CutAcyclic(g, support);
    PastSupport(g, support, p, y);
    if p !in support && y in Ancestors(Cut(g, support), p) {
      var root :| root in a.parents && p in Ancestors(Cut(g, support), root);
      AncestorsTransitive(Cut(g, support), root, p, y);
      assert y in AllAncestors(Cut(g, support), a.parents);
    }
  }

  /** The supports of the parents are convex together, as they are whenever a later application does not restart. */
  ghost predicate SupportsConvex(s: Store, a: Apply)
    requires ParentsKnown(s, a)
  {
    SupportBounded(s, a);
    Convex(GraphOf(s.occurrences), Support(s, a))
  }

  lemma NothingBetween(s: Store, a: Apply, p: nat, y: nat, x: nat)
    requires Valid(s) && ParentsKnown(s, a) && SupportsConvex(s, a) && p < |s.occurrences| && y < |s.occurrences|
    requires y in Ancestors(GraphOf(s.occurrences), p) && x in Ancestors(GraphOf(s.occurrences), y)
    requires p in JointMembers(GraphOf(s.occurrences), Support(s, a), a.parents)
    requires x in JointMembers(GraphOf(s.occurrences), Support(s, a), a.parents)
    ensures y in JointMembers(GraphOf(s.occurrences), Support(s, a), a.parents)
  {
    var g, support := GraphOf(s.occurrences), Support(s, a);
    OutsideJoint(s, a, p, y);
    if r :| r in support && r < |g| && y in Ancestors(g, r) {
      JointMeets(s, a, x);
      var e :| e in support && e in Ancestors(g, x);
      AncestorsTransitive(g, y, x, e);
      SupportBounded(s, a);
      assert y in support;
    }
  }

  /** The layer that joins unrelated convex supports is convex in the new graph. */
  lemma JointIsConvex(s: Store, a: Apply)
    requires Valid(s) && ParentsKnown(s, a) && SupportsConvex(s, a)
    ensures Acyclic(GraphOf(s.occurrences) + [a.parents])
    ensures UpTo(JointMembers(GraphOf(s.occurrences), Support(s, a), a.parents), |s.occurrences|)
    ensures Convex(GraphOf(s.occurrences) + [a.parents], JointMembers(GraphOf(s.occurrences), Support(s, a), a.parents))
  {
    var g, support, id := GraphOf(s.occurrences), Support(s, a), |s.occurrences|;
    var h := g + [a.parents];
    var joint := JointMembers(g, support, a.parents);
    assert Acyclic(h) by {
      forall i, p | 0 <= i < |h| && p in h[i] ensures p < i { if i < id { assert h[i] == g[i]; } }
    }
    SupportBounded(s, a);
    JointBounded(g, support, a.parents);
    forall m, y, x | m in joint && y in Ancestors(h, m) && x in joint && x in Ancestors(h, y) ensures y in joint {
      if y < id {
        AncestorsStay(g, a.parents, y);
        var p := OldMember(s, a, h, m, y);
        NothingBetween(s, a, p, y, x);
      }
    }
  }

  /** An old ancestor of a joint member is an ancestor of an old one. */
  lemma OldMember(s: Store, a: Apply, h: Graph, m: nat, y: nat) returns (p: nat)
    requires ParentsKnown(s, a) && h == GraphOf(s.occurrences) + [a.parents] && Acyclic(h) && m < |h|
    requires m in JointMembers(GraphOf(s.occurrences), Support(s, a), a.parents) && y in Ancestors(h, m) && y < |s.occurrences|
    ensures p < |s.occurrences| && p in JointMembers(GraphOf(s.occurrences), Support(s, a), a.parents)
    ensures y in Ancestors(GraphOf(s.occurrences), p)
  {
    var g, support := GraphOf(s.occurrences), Support(s, a);
    CutAcyclic(g, support);
    p := m;
    if m == |g| {
      p :| p in h[m] && y in Ancestors(h, p);
      assert p in Ancestors(Cut(g, support), p) && p in a.parents;
      assert Descends(Cut(g, support), a.parents, p);
    }
    AncestorsStay(g, a.parents, p);
  }

  // ---------- the joint in plain terms ----------

  /** A way up from `start` that leaves no support behind it. */
  ghost predicate Walk(g: Graph, support: set<nat>, start: nat, path: seq<nat>, x: nat) {
    && path != [] && path[0] == start && path[|path| - 1] == x
    && forall k {:trigger path[k]} :: 0 <= k < |path| - 1 ==> path[k] < |g| && path[k] !in support && path[k + 1] in g[path[k]]
  }

  lemma {:induction false} AncestorWalk(g: Graph, support: set<nat>, start: nat, x: nat) returns (path: seq<nat>)
    requires Acyclic(Cut(g, support)) && start < |g| && x in Ancestors(Cut(g, support), start)
    ensures Walk(g, support, start, path, x)
    decreases start
  {
    if x == start { return [start]; }
    var q :| q in Cut(g, support)[start] && x in Ancestors(Cut(g, support), q);
    var rest := AncestorWalk(g, support, q, x);
    path := [start] + rest;
    forall k | 0 <= k < |path| - 1 ensures path[k] < |g| && path[k] !in support && path[k + 1] in g[path[k]] {
      if k > 0 { assert path[k] == rest[k - 1] && path[k + 1] == rest[k]; }
    }
  }

  lemma {:induction false} WalkAncestor(g: Graph, support: set<nat>, start: nat, path: seq<nat>, x: nat)
    requires Acyclic(Cut(g, support)) && start < |g| && Walk(g, support, start, path, x)
    ensures x in Ancestors(Cut(g, support), start)
    decreases |path|
  {
    if |path| > 1 {
      var rest := path[1..];
      assert path[0] == start && path[1] in g[path[0]] && path[0] !in support;
      assert path[1] in Cut(g, support)[start];
      forall k | 0 <= k < |rest| - 1 ensures rest[k] < |g| && rest[k] !in support && rest[k + 1] in g[rest[k]] {
        assert rest[k] == path[k + 1] && rest[k + 1] == path[k + 2];
      }
      WalkAncestor(g, support, path[1], rest, x);
    }
  }

  /** The joint holds the consumer, the supports, and what is reached from the parents without passing a support. */
  lemma JointInPlainTerms(g: Graph, support: set<nat>, parents: seq<nat>, x: nat)
    requires Acyclic(g) && LayerGraph.Within(parents, |g|)
    ensures x in JointMembers(g, support, parents) <==>
              x == |g| || x in support || exists start, path :: start in parents && Walk(g, support, start, path, x)
  {
    var h := Cut(g, support);
    CutAcyclic(g, support);
    if x in AllAncestors(h, parents) {
      var start :| start in parents && x in Ancestors(h, start);
      var path := AncestorWalk(g, support, start, x);
    }
    if start, path :| start in parents && Walk(g, support, start, path, x) {
      WalkAncestor(g, support, start, path, x);
      assert Descends(h, parents, x) && x < |g|;
    }
  }
}
