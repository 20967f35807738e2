/**
 * Ancestors and convexity in the dependency graph of src/coarse_smooth.rs, and
 * the worklists of `provides`, `supports` and the boundary test, proved against
 * recursive definitions over the graph.
 */
module LayerGraph {
  import opened Collections

  datatype Effect = RowFact(value: nat) | Equal(left: nat, right: nat)

  /** The parents of each occurrence. */
  type Graph = seq<seq<nat>>

  ghost predicate Acyclic(g: Graph) {
    forall i, p :: 0 <= i < |g| && p in g[i] ==> p < i
  }

  /** An occurrence and everything it descends from. */
  ghost function Ancestors(g: Graph, i: nat): (r: set<nat>)
    requires Acyclic(g) && i < |g|
    ensures i in r && forall x :: x in r ==> x <= i
    decreases i
  {
    {i} + set p, x | p in g[i] && x in Ancestors(g, p) :: x
  }

  ghost predicate Within(roots: seq<nat>, n: nat) {
    forall r :: r in roots ==> r < n
  }

  ghost predicate Descends(g: Graph, roots: seq<nat>, x: nat)
    requires Acyclic(g) && Within(roots, |g|)
  {
    exists r :: r in roots && x in Ancestors(g, r)
  }

  ghost function AllAncestors(g: Graph, roots: seq<nat>): set<nat>
    requires Acyclic(g) && Within(roots, |g|)
  {
    set x: nat | x < |g| && Descends(g, roots, x)
  }

  lemma {:induction false} AncestorsTransitive(g: Graph, i: nat, x: nat, y: nat)
    requires Acyclic(g) && i < |g| && x in Ancestors(g, i) && y in Ancestors(g, x)
    ensures y in Ancestors(g, i)
    decreases i
  {
    if x != i {
      var p :| p in g[i] && x in Ancestors(g, p);
      AncestorsTransitive(g, p, x, y);
    }
  }

  /** New occurrences do not change the ancestors of old ones. */
  lemma {:induction false} AncestorsStay(g: Graph, ps: seq<nat>, i: nat)
    requires Acyclic(g) && Acyclic(g + [ps]) && i < |g|
    ensures Ancestors(g + [ps], i) == Ancestors(g, i)
    decreases i
  {
    var h := g + [ps];
    assert h[i] == g[i];
    forall p | p in g[i] ensures Ancestors(h, p) == Ancestors(g, p) { AncestorsStay(g, ps, p); }
    forall x ensures x in Ancestors(h, i) <==> x in Ancestors(g, i) {
      assert (exists p :: p in h[i] && x in Ancestors(h, p)) <==> (exists p :: p in g[i] && x in Ancestors(g, p));
    }
  }

  // ---------- collecting ancestors ----------

  /** What the worklist knows: visited occurrences have their parents visited or waiting, and all lie in `limit`. */
  ghost predicate Visiting(g: Graph, roots: seq<nat>, limit: set<nat>, seen: set<nat>, todo: seq<nat>) {
    && seen <= limit && (forall x :: x in todo ==> x in limit)
    && (forall r :: r in roots ==> r in seen || r in todo)
    && forall x, p :: x in seen && x < |g| && p in g[x] ==> p in seen || p in todo
  }

  /** A set of occurrences closed under parents. */
  ghost predicate ParentClosed(g: Graph, limit: set<nat>) {
    forall x :: x in limit ==> x < |g| && forall p :: p in g[x] ==> p in limit
  }

  lemma VisitNext(g: Graph, roots: seq<nat>, limit: set<nat>, seen: set<nat>, todo: seq<nat>)
    requires todo != [] && ParentClosed(g, limit) && Visiting(g, roots, limit, seen, todo)
    ensures var p, rest := todo[|todo| - 1], todo[..|todo| - 1];
            && p < |g| && |seen| <= |g|
            && (p in seen ==> Visiting(g, roots, limit, seen, rest))
            && (p !in seen ==> Visiting(g, roots, limit, seen + {p}, rest + g[p]) && |seen + {p}| <= |g|)
  {
    var p, rest := todo[|todo| - 1], todo[..|todo| - 1];
    assert forall x :: x in todo <==> x in rest || x == p;
    assert p in todo;
    BelowSize(seen + {p}, |g|);
    BelowSize(seen, |g|);
    if p !in seen { assert forall x :: x in rest + g[p] <==> x in rest || x in g[p]; }
  }

  /** The worklist: everything that the roots descend from, each visited once. */
  method Visit(g: Graph, roots: seq<nat>, ghost limit: set<nat>) returns (seen: set<nat>)
    requires ParentClosed(g, limit) && forall r :: r in roots ==> r in limit
    ensures Visiting(g, roots, limit, seen, [])
  {
    var todo := roots;
    seen := {};
    while todo != []
      invariant Visiting(g, roots, limit, seen, todo)
      decreases |g| - |seen|, |todo|
    {
      VisitNext(g, roots, limit, seen, todo);
      var p := todo[|todo| - 1];
      todo := todo[..|todo| - 1];
      if p !in seen {
        seen, todo := seen + {p}, todo + g[p];
      }
    }
  }

  lemma AncestorsClosed(g: Graph, roots: seq<nat>)
    requires Acyclic(g) && Within(roots, |g|)
    ensures ParentClosed(g, AllAncestors(g, roots)) && forall r :: r in roots ==> r in AllAncestors(g, roots)
  {
    RootDescends(g, roots);
    var all := AllAncestors(g, roots);
    forall x | x in all ensures forall p :: p in g[x] ==> p in all { ParentsDescend(g, roots, x); }
  }

  lemma RootDescends(g: Graph, roots: seq<nat>)
    requires Acyclic(g) && Within(roots, |g|)
    ensures forall r :: r in roots ==> Descends(g, roots, r)
  {
    forall r | r in roots ensures Descends(g, roots, r) { assert r in Ancestors(g, r); }
  }

  /** The occurrences that `provides` reads: the roots and all their ancestors. */
  method Collect(g: Graph, roots: seq<nat>) returns (seen: set<nat>)
    requires Acyclic(g) && Within(roots, |g|)
    ensures seen == AllAncestors(g, roots)
  {
    AncestorsClosed(g, roots);
    seen := Visit(g, roots, AllAncestors(g, roots));
    VisitedAll(g, roots, seen);
  }

  lemma ParentsDescend(g: Graph, roots: seq<nat>, x: nat)
    requires Acyclic(g) && Within(roots, |g|) && Descends(g, roots, x)
    ensures x < |g| && forall p :: p in g[x] ==> Descends(g, roots, p)
  {
    var r :| r in roots && x in Ancestors(g, r);
    forall p | p in g[x] ensures Descends(g, roots, p) {
      assert p in Ancestors(g, p) && p in Ancestors(g, x);
      AncestorsTransitive(g, r, x, p);
    }
  }

  lemma VisitedAll(g: Graph, roots: seq<nat>, seen: set<nat>)
    requires Acyclic(g) && Within(roots, |g|) && Visiting(g, roots, AllAncestors(g, roots), seen, [])
    ensures seen == AllAncestors(g, roots)
  {
    var all := AllAncestors(g, roots);
    VisitingDone(g, roots, all, seen);
    forall x: nat | x in all ensures x in seen { VisitedOne(g, roots, seen, x); }
  }

  lemma VisitingDone(g: Graph, roots: seq<nat>, limit: set<nat>, seen: set<nat>)
    requires Visiting(g, roots, limit, seen, [])
    ensures seen <= limit && forall r :: r in roots ==> r in seen
    ensures forall y, p :: y in seen && y < |g| && p in g[y] ==> p in seen
  {
  }

  lemma VisitedOne(g: Graph, roots: seq<nat>, seen: set<nat>, x: nat)
    requires Acyclic(g) && Within(roots, |g|) && Descends(g, roots, x) && forall r :: r in roots ==> r in seen
    requires forall y, p :: y in seen && y < |g| && p in g[y] ==> p in seen
    ensures x in seen
  {
    var r :| r in roots && x in Ancestors(g, r);
    ClosedHolds(g, seen, r, x);
  }

  lemma {:induction false} ClosedHolds(g: Graph, seen: set<nat>, i: nat, x: nat)
    requires Acyclic(g) && i < |g| && i in seen && x in Ancestors(g, i)
    requires forall y, p :: y in seen && y < |g| && p in g[y] ==> p in seen
    ensures x in seen
    decreases i
  {
    if x != i {
      var p :| p in g[i] && x in Ancestors(g, p);
      ClosedHolds(g, seen, p, x);
    }
  }

  // ---------- equality support ----------

  /** The equivalence closure of the recorded equalities: every colouring constant on them is equal on both sides. */
  ghost predicate Equated(effects: set<Effect>, a: nat, b: nat) {
    forall c: nat -> nat :: Constant(effects, c) ==> c(a) == c(b)
  }

  ghost predicate Constant(effects: set<Effect>, c: nat -> nat) {
    forall u, v :: Equal(u, v) in effects ==> c(u) == c(v)
  }

  /** Values one recorded equality away. */
  function Neighbours(effects: set<Effect>, x: nat): set<nat> {
    (set e | e in effects && e.Equal? && e.left == x :: e.right) + (set e | e in effects && e.Equal? && e.right == x :: e.left)
  }

  function Operands(effects: set<Effect>): set<nat> {
    (set e | e in effects && e.Equal? :: e.left) + (set e | e in effects && e.Equal? :: e.right)
  }

  /** Values found equal to `a`; those not waiting have been compared with `b` and their neighbours found. */
  ghost predicate Spreading(effects: set<Effect>, a: nat, b: nat, seen: set<nat>, todo: set<nat>) {
    && todo <= seen && a in seen && seen <= {a} + Operands(effects)
    && (forall x :: x in seen ==> Equated(effects, a, x))
    && forall x :: x in seen && x !in todo ==> x != b && Neighbours(effects, x) <= seen
  }

  lemma SpreadNext(effects: set<Effect>, a: nat, b: nat, seen: set<nat>, todo: set<nat>, x: nat)
    requires Spreading(effects, a, b, seen, todo) && x in todo && x != b
    ensures var next := Neighbours(effects, x) - seen;
            && Spreading(effects, a, b, seen + next, (todo - {x}) + next)
            && |seen + next| == |seen| + |next| <= |{a} + Operands(effects)|
            && (next == {} ==> |(todo - {x}) + next| < |todo|)
  {
    var next := Neighbours(effects, x) - seen;
    NeighbourEquated(effects, a, x);
    Subset(seen + next, {a} + Operands(effects));
    if next == {} { assert (todo - {x}) + next == todo - {x}; }
  }

  /** The worklist of `supports`. */
  method Connected(effects: set<Effect>, a: nat, b: nat) returns (r: bool)
    ensures r <==> Equated(effects, a, b)
  {
    var seen, todo := {a}, {a};
    while todo != {}
      invariant Spreading(effects, a, b, seen, todo)
      decreases |{a} + Operands(effects)| - |seen|, |todo|
    {
      var x :| x in todo;
      if x == b { return true; }
      SpreadNext(effects, a, b, seen, todo, x);
      var next := Neighbours(effects, x) - seen;
      seen, todo := seen + next, (todo - {x}) + next;
    }
    r := false;
    Separated(effects, a, b, seen);
  }

  lemma NeighbourEquated(effects: set<Effect>, a: nat, x: nat)
    requires Equated(effects, a, x)
    ensures forall y :: y in Neighbours(effects, x) ==> Equated(effects, a, y) && y in Operands(effects)
  {
    forall y | y in Neighbours(effects, x) ensures Equated(effects, a, y) && y in Operands(effects) {
      assert Equal(x, y) in effects || Equal(y, x) in effects by {
        if e :| e in effects && e.Equal? && e.left == x && e.right == y { assert e == Equal(x, y); }
        else {
          var f :| f in effects && f.Equal? && f.right == x && f.left == y;
          assert f == Equal(y, x);
        }
      }
      forall c: nat -> nat | Constant(effects, c) ensures c(a) == c(y) { assert c(a) == c(x); }
    }
  }

  lemma Separated(effects: set<Effect>, a: nat, b: nat, seen: set<nat>)
    requires a in seen && b !in seen && forall x :: x in seen ==> Neighbours(effects, x) <= seen
    ensures !Equated(effects, a, b)
  {
    var c: nat -> nat := (x: nat) => if x in seen then 1 else 0;
    forall u, v | Equal(u, v) in effects ensures c(u) == c(v) {
      assert v in Neighbours(effects, u) && u in Neighbours(effects, v);
    }
    assert Constant(effects, c) && c(a) != c(b);
  }

  // ---------- convexity ----------

  /** No occurrence outside lies between two members. */
  ghost predicate Convex(g: Graph, members: set<nat>)
    requires Acyclic(g) && forall m :: m in members ==> m < |g|
  {
    forall m, x, s :: m in members && x in Ancestors(g, m) && s in members && s in Ancestors(g, x) ==> x in members
  }

  /** From `p`, having left the members or not, some way back into them leads through the outside. */
  ghost predicate Returns(g: Graph, members: set<nat>, p: nat, crossed: bool)
    requires Acyclic(g) && p < |g|
    decreases p
  {
    (crossed && p in members) || exists q :: q in g[p] && Returns(g, members, q, crossed || p !in members)
  }

  ghost predicate Meets(g: Graph, members: set<nat>, p: nat)
    requires Acyclic(g) && p < |g|
  {
    exists s :: s in members && s in Ancestors(g, p)
  }

  /** Some ancestor outside the members descends from a member. */
  ghost predicate Around(g: Graph, members: set<nat>, p: nat)
    requires Acyclic(g) && p < |g|
  {
    exists x :: x in Ancestors(g, p) && x !in members && Meets(g, members, x)
  }

  lemma MeetsUnfolds(g: Graph, members: set<nat>, p: nat)
    requires Acyclic(g) && p < |g|
    ensures Meets(g, members, p) <==> p in members || exists q :: q in g[p] && Meets(g, members, q)
  {
    if Meets(g, members, p) && p !in members {
      var s :| s in members && s in Ancestors(g, p);
      var q :| q in g[p] && s in Ancestors(g, q);
      assert Meets(g, members, q);
    }
    if q :| q in g[p] && Meets(g, members, q) {
      var s :| s in members && s in Ancestors(g, q);
      assert s in Ancestors(g, p);
    }
    assert p in Ancestors(g, p);
  }

  lemma AroundUnfolds(g: Graph, members: set<nat>, p: nat)
    requires Acyclic(g) && p < |g|
    ensures Around(g, members, p) <==> (p !in members && Meets(g, members, p)) || exists q :: q in g[p] && Around(g, members, q)
  {
    if Around(g, members, p) && !(p !in members && Meets(g, members, p)) {
      var x :| x in Ancestors(g, p) && x !in members && Meets(g, members, x);
      var q :| q in g[p] && x in Ancestors(g, q);
      assert Around(g, members, q);
    }
    if q :| q in g[p] && Around(g, members, q) {
      var x :| x in Ancestors(g, q) && x !in members && Meets(g, members, x);
      assert x in Ancestors(g, p);
    }
    assert p in Ancestors(g, p);
  }

  lemma {:induction false} ReturnsMeans(g: Graph, members: set<nat>, p: nat, crossed: bool)
    requires Acyclic(g) && p < |g|
    ensures Returns(g, members, p, crossed) <==> (crossed && Meets(g, members, p)) || Around(g, members, p)
    decreases p
  {
    var now := crossed || p !in members;
    forall q | q in g[p] ensures Returns(g, members, q, now) <==> (now && Meets(g, members, q)) || Around(g, members, q) {
      ReturnsMeans(g, members, q, now);
    }
    MeetsUnfolds(g, members, p);
    AroundUnfolds(g, members, p);
  }

  /** Looking back from every member decides convexity. */
  lemma ConvexIffNoReturn(g: Graph, members: set<nat>)
    requires Acyclic(g) && forall m :: m in members ==> m < |g|
    ensures Convex(g, members) <==> forall m, q :: m in members && q in g[m] ==> !Returns(g, members, q, false)
  {
    if Convex(g, members) {
      forall m, q | m in members && q in g[m] ensures !Returns(g, members, q, false) {
        ReturnsMeans(g, members, q, false);
        forall x | x in Ancestors(g, q) && x !in members ensures !Meets(g, members, x) {
          assert x in Ancestors(g, m);
        }
      }
    } else {
      var m, x, s :| m in members && x in Ancestors(g, m) && s in members && s in Ancestors(g, x) && x !in members;
      var q :| q in g[m] && x in Ancestors(g, q);
      assert Meets(g, members, x) && Around(g, members, q);
      ReturnsMeans(g, members, q, false);
    }
  }

  /** A single occurrence is convex. */
  lemma SingleIsConvex(g: Graph, members: set<nat>)
    requires Acyclic(g) && (forall m :: m in members ==> m < |g|) && |members| <= 1
    ensures Convex(g, members)
  {
    forall m, x, s | m in members && x in Ancestors(g, m) && s in members && s in Ancestors(g, x) ensures x in members {
      assert {m} <= members;
      assert members == {m} + (members - {m});
      assert s == m;
    }
  }

  // ---------- the boundary test ----------

  datatype State = State(node: nat, crossed: bool)

  function Ahead(g: Graph, members: set<nat>, v: State): seq<State>
    requires v.node < |g|
  {
    Visits(g[v.node], v.crossed || v.node !in members)
  }

  function Visits(ps: seq<nat>, crossed: bool): (r: seq<State>)
    ensures forall v :: v in r <==> v.crossed == crossed && v.node in ps
  {
    if ps == [] then [] else
      assert forall x :: x in ps <==> x == ps[0] || x in ps[1..];
      [State(ps[0], crossed)] + Visits(ps[1..], crossed)
  }

  /** Visited states are no returns themselves, and what lies ahead of them is visited or waiting. */
  ghost predicate Searching(g: Graph, members: set<nat>, start: seq<State>, seen: set<State>, todo: seq<State>) {
    && (forall v :: v in seen || v in todo ==> v.node < |g|)
    && (forall v :: v in start ==> v in seen || v in todo)
    && (forall v :: v in seen ==> !(v.crossed && v.node in members))
    && forall v, w :: v in seen && v.node < |g| && w in Ahead(g, members, v) ==> w in seen || w in todo
  }

  lemma SearchNext(g: Graph, members: set<nat>, start: seq<State>, seen: set<State>, todo: seq<State>)
    requires Acyclic(g) && todo != [] && Searching(g, members, start, seen, todo)
    ensures var v, rest := todo[|todo| - 1], todo[..|todo| - 1];
            && v.node < |g|
            && (v in seen ==> Searching(g, members, start, seen, rest))
            && (v !in seen && !(v.crossed && v.node in members) ==>
                  Searching(g, members, start, seen + {v}, rest + Ahead(g, members, v)))
  {
    var v, rest := todo[|todo| - 1], todo[..|todo| - 1];
    assert forall x :: x in todo <==> x in rest || x == v;
    assert forall x :: x in rest + Ahead(g, members, v) <==> x in rest || x in Ahead(g, members, v);
  }

  /** Once nothing waits, no visited state returns. */
  lemma {:induction false} NothingReturns(g: Graph, members: set<nat>, start: seq<State>, seen: set<State>, v: State)
    requires Acyclic(g) && Searching(g, members, start, seen, []) && v in seen
    ensures !Returns(g, members, v.node, v.crossed)
    decreases v.node
  {
    forall q | q in g[v.node] ensures !Returns(g, members, q, v.crossed || v.node !in members) {
      var w := State(q, v.crossed || v.node !in members);
      assert w in Ahead(g, members, v);
      NothingReturns(g, members, start, seen, w);
    }
  }

  function AllVisits(n: nat): (r: set<State>)
    ensures forall v: State :: v in r <==> v.node < n
    ensures |r| == n + n
  {
    if n == 0 then {} else AllVisits(n - 1) + {State(n - 1, false)} + {State(n - 1, true)}
  }

  lemma VisitBound(seen: set<State>, n: nat)
    requires forall v :: v in seen ==> v.node < n
    ensures |seen| <= n + n
  {
    var all := AllVisits(n);
    assert seen <= all && all == seen + (all - seen);
  }

  /** The search back from one member. */
  method SearchBack(g: Graph, members: set<nat>, m: nat) returns (r: bool)
    requires Acyclic(g) && m < |g|
    ensures r <==> exists q :: q in g[m] && Returns(g, members, q, false)
  {
    ghost var start := Visits(g[m], false);
    var todo := Visits(g[m], false);
    var seen: set<State> := {};
    while todo != []
      invariant Searching(g, members, start, seen, todo)
      invariant forall v :: v in todo && Returns(g, members, v.node, v.crossed) ==> exists q :: q in g[m] && Returns(g, members, q, false)
      decreases |g| + |g| - |seen|, |todo|
    {
      SearchNext(g, members, start, seen, todo);
      var v := todo[|todo| - 1];
      assert v in todo;
      ghost var was := todo;
      todo := todo[..|todo| - 1];
      assert forall x :: x in todo ==> x in was;
      if v !in seen {
        if v.crossed && v.node in members { return true; }
        VisitBound(seen + {v}, |g|);
        assert forall w :: w in Ahead(g, members, v) && Returns(g, members, w.node, w.crossed) ==> Returns(g, members, v.node, v.crossed);
        assert forall x :: x in todo + Ahead(g, members, v) <==> x in todo || x in Ahead(g, members, v);
        seen, todo := seen + {v}, todo + Ahead(g, members, v);
      }
    }
    forall q | q in g[m] ensures !Returns(g, members, q, false) {
      assert State(q, false) in start;
      NothingReturns(g, members, start, seen, State(q, false));
    }
    r := false;
  }

  /** Whether joining the supports would leave a dependency loop through the outside. */
  method Restarts(g: Graph, members: set<nat>) returns (r: bool)
    requires Acyclic(g) && forall m :: m in members ==> m < |g|
    ensures r <==> !Convex(g, members)
  {
    ConvexIffNoReturn(g, members);
    if |members| <= 1 {
      SingleIsConvex(g, members);
      return false;
    }
    var todo := members;
    while todo != {}
      invariant todo <= members
      invariant forall m, q :: m in members - todo && q in g[m] ==> !Returns(g, members, q, false)
      decreases todo
    {
      var m :| m in todo;
      var back := SearchBack(g, members, m);
      if back { return true; }
      todo := todo - {m};
    }
    r := false;
  }
}
