/**
 * Versioned evidence leases of src/closure_contract.rs: a registry over a
 * union-find by size tells when evidence about a closure has become stale.
 *
 * The specification is the history of `watch` and `apply` calls and the
 * equivalence closure of the unions applied so far; roots, versions and
 * subscriber lists appear only in the registry.
 */
module ClosureContract {

  datatype Resource = Token(id: nat) | Table(name: string) | Scope
  datatype Link = Link(a: nat, b: nat)
  datatype Change = Change(tokens: seq<nat>, tables: seq<string>, unions: seq<Link>, reset: bool)

  datatype LocalDependencies = LocalDependencies(tables: set<string>, emptyFrontier: set<string>, rulesets: set<string>) {
    function Resources(instanceTokens: set<nat>): (rs: set<Resource>)
      ensures forall t :: Table(t) in rs <==> t in tables || t in emptyFrontier
      ensures forall t :: Token(t) in rs <==> t in instanceTokens
      ensures Scope in rs
    {
      (set t | t in tables + emptyFrontier :: Table(t)) + (set t | t in instanceTokens :: Token(t)) + {Scope}
    }
  }

  // ---------- what a history means ----------

  ghost predicate Respects(c: nat -> nat, links: seq<Link>) {
    forall k :: 0 <= k < |links| ==> c(links[k].a) == c(links[k].b)
  }

  /** The equivalence closure of the links: every colouring constant on links is equal on both tokens. */
  ghost predicate Same(links: seq<Link>, x: nat, y: nat) {
    forall c: nat -> nat :: Respects(c, links) ==> c(x) == c(y)
  }

  /** The class of `w` takes in a token it did not have before. */
  ghost predicate Grows(links: seq<Link>, unions: seq<Link>, w: nat) {
    exists x: nat :: Same(links + unions, w, x) && !Same(links, w, x)
  }

  ghost predicate TouchesToken(links: seq<Link>, e: Change, w: nat) {
    (exists t :: t in e.tokens && Same(links, t, w)) || Grows(links, e.unions, w)
  }

  /** The event concerns one of the watched resources, equality as it stood before the event. */
  ghost predicate Touches(links: seq<Link>, e: Change, watched: set<Resource>) {
    || (e.reset && Scope in watched)
    || (exists t :: Table(t) in watched && t in e.tables)
    || (exists w: nat :: Token(w) in watched && TouchesToken(links, e, w))
  }

  datatype Event = Watched(id: nat, resources: set<Resource>) | Applied(change: Change)
  type History = seq<Event>

  ghost function Links(h: History): seq<Link> {
    if h == [] then []
    else if h[|h| - 1].Applied? then Links(h[..|h| - 1]) + h[|h| - 1].change.unions
    else Links(h[..|h| - 1])
  }

  ghost function Watches(h: History): map<nat, set<Resource>> {
    if h == [] then map[]
    else if h[|h| - 1].Watched? then Watches(h[..|h| - 1])[h[|h| - 1].id := h[|h| - 1].resources + {Scope}]
    else Watches(h[..|h| - 1])
  }

  /** Leases that the last event concerns. */
  ghost function Touched(h: History, e: Change): set<nat> {
    set id | id in Watches(h) && Touches(Links(h), e, Watches(h)[id])
  }

  ghost function Stale(h: History): set<nat> {
    if h == [] then {}
    else if h[|h| - 1].Applied? then Stale(h[..|h| - 1]) + Touched(h[..|h| - 1], h[|h| - 1].change)
    else Stale(h[..|h| - 1])
  }

  ghost predicate Distinct(h: History, i: int, j: int)
    requires 0 <= i < j < |h|
  {
    h[i].Watched? && h[j].Watched? ==> h[i].id != h[j].id
  }

  /** Leases are immutable: a second `watch` of an identifier does not happen. */
  ghost predicate FreshWatches(h: History) {
    forall i, j {:trigger Distinct(h, i, j)} :: 0 <= i < j < |h| ==> Distinct(h, i, j)
  }

  /** Watched at event `i`, and no later event touches what it watches. */
  ghost predicate UntouchedSince(h: History, i: nat, id: nat)
    requires i < |h|
  {
    && h[i].Watched? && h[i].id == id
    && forall j :: i < j < |h| && h[j].Applied? ==> !Touches(Links(h[..j]), h[j].change, h[i].resources + {Scope})
  }

  lemma FreshPrefix(h: History, i: nat)
    requires FreshWatches(h) && i <= |h|
    ensures FreshWatches(h[..i])
  {
    forall a, b | 0 <= a < b < i ensures Distinct(h[..i], a, b) { assert Distinct(h, a, b); }
  }

  lemma {:induction false} WatchesOfEvent(h: History, id: nat)
    requires FreshWatches(h)
    ensures id in Watches(h) <==> exists i :: 0 <= i < |h| && h[i].Watched? && h[i].id == id
    ensures forall i :: 0 <= i < |h| && h[i].Watched? && h[i].id == id ==> Watches(h)[id] == h[i].resources + {Scope}
  {
    if h != [] {
      var n := |h| - 1;
      var before := h[..n];
      FreshPrefix(h, n);
      WatchesOfEvent(before, id);
      assert forall i :: 0 <= i < n ==> before[i] == h[i];
      forall i | 0 <= i < n && h[n].Watched? && h[n].id == id ensures !(h[i].Watched? && h[i].id == id) {
        assert Distinct(h, i, n);
      }
    }
  }

  lemma OneWatch(h: History, i: nat, k: nat)
    requires FreshWatches(h) && i < |h| && k < |h| && h[i].Watched? && h[k].Watched? && h[i].id == h[k].id
    ensures i == k
  {
    assert i < k ==> Distinct(h, i, k);
    assert k < i ==> Distinct(h, k, i);
  }

  lemma UntouchedExtends(h: History, i: nat, id: nat)
    requires i + 1 < |h|
    ensures var n := |h| - 1;
            UntouchedSince(h, i, id) <==>
            UntouchedSince(h[..n], i, id) && (h[n].Applied? ==> !Touches(Links(h[..n]), h[n].change, h[i].resources + {Scope}))
  {
    assert forall j :: i < j < |h| - 1 ==> h[..|h| - 1][..j] == h[..j];
  }

  /** A lease is valid exactly when no event since its `watch` touched a watched resource. */
  lemma {:induction false} ValidIffUntouched(h: History, id: nat)
    requires FreshWatches(h)
    ensures id in Watches(h) && id !in Stale(h) <==> exists i :: 0 <= i < |h| && UntouchedSince(h, i, id)
  {
    WatchesOfEvent(h, id);
    if id in Watches(h) {
      var i: nat :| i < |h| && h[i].Watched? && h[i].id == id;
      forall k: nat | k < |h| && UntouchedSince(h, k, id) ensures k == i { OneWatch(h, i, k); }
      var n := |h| - 1;
      var before := h[..n];
      FreshPrefix(h, n);
      StaleWasWatched(before);
      WatchesOfEvent(before, id);
      if i == n {
        forall k: nat | k < n && before[k].Watched? ensures before[k].id != id { assert Distinct(h, k, n); }
        assert UntouchedSince(h, n, id);
      } else {
        assert before[i] == h[i];
        UntouchedExtends(h, i, id);
        ValidIffUntouched(before, id);
        forall k: nat | k < n && UntouchedSince(before, k, id) ensures k == i { OneWatch(before, i, k); }
        assert Distinct(h, i, n);
      }
    } else {
      assert forall k: nat :: k < |h| ==> !UntouchedSince(h, k, id);
    }
  }

  lemma {:induction false} StaleWasWatched(h: History)
    ensures Stale(h) <= Watches(h).Keys
  {
    if h != [] { StaleWasWatched(h[..|h| - 1]); }
  }

  /** Staleness is for ever. */
  lemma {:induction false} StaleStays(h: History, i: nat)
    requires i <= |h|
    ensures Stale(h[..i]) <= Stale(h)
  {
    if i < |h| {
      StaleStays(h[..|h| - 1], i);
      assert h[..|h| - 1][..i] == h[..i];
    } else {
      assert h[..i] == h;
    }
  }

  // ---------- union by size, without path compression ----------

  function Pow2(n: nat): nat {
    if n == 0 then 1 else 2 * Pow2(n - 1)
  }

  /** What a union-find stands for: roots, distances from them and class members, of the tokens that are not alone. */
  datatype Classes = Classes(roots: map<nat, nat>, depths: map<nat, nat>, groups: map<nat, set<nat>>)

  ghost function Rep(c: Classes, x: nat): nat { if x in c.roots then c.roots[x] else x }
  ghost function Depth(c: Classes, x: nat): nat { if x in c.depths then c.depths[x] else 0 }
  ghost function Members(c: Classes, r: nat): set<nat> { if r in c.groups then c.groups[r] else {r} }

  function SizeOf(sizes: map<nat, nat>, root: nat): nat {
    if root in sizes then sizes[root] else 1
  }

  ghost predicate MemberAt(c: Classes, r: nat, v: nat) {
    v in Members(c, r) <==> Rep(c, v) == r
  }

  ghost predicate HasMembers(c: Classes) {
    forall r: nat, v: nat {:trigger MemberAt(c, r, v)} :: MemberAt(c, r, v)
  }

  ghost predicate ShallowAt(c: Classes, v: nat) {
    Pow2(Depth(c, v)) <= |Members(c, Rep(c, v))|
  }

  /** A token d steps from its root lies in a class of at least 2^d tokens. */
  ghost predicate Shallow(c: Classes) {
    forall v: nat {:trigger ShallowAt(c, v)} :: ShallowAt(c, v)
  }

  ghost predicate ChainAt(parents: map<nat, nat>, c: Classes, v: nat) {
    && Rep(c, v) !in parents
    && if v in parents then parents[v] != v && Depth(c, v) == Depth(c, parents[v]) + 1 && Rep(c, v) == Rep(c, parents[v])
       else Rep(c, v) == v && Depth(c, v) == 0
  }

  /** Following parents leads from each token to its root in `Depth` steps. */
  ghost predicate Chains(parents: map<nat, nat>, c: Classes) {
    forall v: nat {:trigger ChainAt(parents, c, v)} :: ChainAt(parents, c, v)
  }

  ghost predicate Idempotent(cls: Classes) {
    forall x: nat {:trigger Rep(cls, Rep(cls, x))} :: Rep(cls, Rep(cls, x)) == Rep(cls, x)
  }

  lemma ChainsIdempotent(parents: map<nat, nat>, c: Classes)
    requires Chains(parents, c)
    ensures Idempotent(c)
  {
    forall x: nat ensures Rep(c, Rep(c, x)) == Rep(c, x) {
      assert ChainAt(parents, c, x) && ChainAt(parents, c, Rep(c, x));
    }
  }

  ghost predicate SizedAt(sizes: map<nat, nat>, c: Classes, r: nat) {
    |Members(c, r)| == SizeOf(sizes, r)
  }

  ghost predicate Sized(parents: map<nat, nat>, sizes: map<nat, nat>, c: Classes) {
    forall r: nat {:trigger SizedAt(sizes, c, r)} :: r !in parents ==> SizedAt(sizes, c, r)
  }

  ghost predicate Forest(parents: map<nat, nat>, sizes: map<nat, nat>, c: Classes) {
    Chains(parents, c) && HasMembers(c) && Sized(parents, sizes, c) && Shallow(c)
  }

  /** The colouring `c` does not tell a token from its root. */
  ghost predicate Absorbs(c: nat -> nat, cls: Classes) {
    forall x: nat {:trigger Rep(cls, x)} :: c(x) == c(Rep(cls, x))
  }

  ghost predicate Joined(cls: Classes, link: Link) {
    Rep(cls, link.a) == Rep(cls, link.b)
  }

  /** The classes are those of the equivalence closure of the links. */
  ghost predicate Generated(cls: Classes, links: seq<Link>) {
    && (forall k {:trigger Joined(cls, links[k])} :: 0 <= k < |links| ==> Joined(cls, links[k]))
    && forall c: nat -> nat {:trigger Absorbs(c, cls)} :: Respects(c, links) ==> Absorbs(c, cls)
  }

  lemma SameIsRep(cls: Classes, links: seq<Link>, x: nat, y: nat)
    requires Generated(cls, links)
    ensures Same(links, x, y) <==> Rep(cls, x) == Rep(cls, y)
  {
    var roots: nat -> nat := (v: nat) => Rep(cls, v);
    forall k | 0 <= k < |links| ensures roots(links[k].a) == roots(links[k].b) { assert Joined(cls, links[k]); }
    assert roots(x) == Rep(cls, x) && roots(y) == Rep(cls, y);
    forall c: nat -> nat | Respects(c, links) && Rep(cls, x) == Rep(cls, y)
      ensures c(x) == c(y)
    {
      assert Absorbs(c, cls);
    }
  }

  /** The token reached after `n` parent steps. */
  ghost function Follow(parents: map<nat, nat>, v: nat, n: nat): nat
    decreases n
  {
    if n == 0 || v !in parents then v else Follow(parents, parents[v], n - 1)
  }

  /** Following parents ends at the root after `Depth` steps. */
  lemma {:induction false} FollowReaches(parents: map<nat, nat>, c: Classes, v: nat)
    requires Chains(parents, c)
    ensures Follow(parents, v, Depth(c, v)) == Rep(c, v) && Rep(c, v) !in parents
    decreases Depth(c, v)
  {
    assert ChainAt(parents, c, v);
    if v in parents { FollowReaches(parents, c, parents[v]); }
  }

  /** Without path compression the search for a root is short: 2^steps is at most the true size of the class. */
  lemma ShortSearch(parents: map<nat, nat>, sizes: map<nat, nat>, c: Classes, links: seq<Link>, v: nat)
    requires Forest(parents, sizes, c) && Generated(c, links)
    ensures Follow(parents, v, Depth(c, v)) == Rep(c, v) && Rep(c, v) !in parents
    ensures Pow2(Depth(c, v)) <= SizeOf(sizes, Rep(c, v)) == |Members(c, Rep(c, v))|
    ensures forall w: nat :: w in Members(c, Rep(c, v)) <==> Same(links, v, w)
  {
    FollowReaches(parents, c, v);
    assert ChainAt(parents, c, v) && ShallowAt(c, v) && SizedAt(sizes, c, Rep(c, v));
    forall w: nat ensures w in Members(c, Rep(c, v)) <==> Same(links, v, w) {
      SameIsRep(c, links, v, w);
      assert MemberAt(c, Rep(c, v), w);
      assert ChainAt(parents, c, Rep(c, v));
    }
  }

  ghost function Initial(): Classes {
    Classes(map[], map[], map[])
  }

  lemma InitialForest()
    ensures Forest(map[], map[], Initial()) && Generated(Initial(), [])
    ensures Stamped(Initial(), map[], map[], 0, {}) && Notified(Initial(), map[], map[])
  {
  }

  ghost function Merged(c: Classes, lo: nat, hi: nat): Classes {
    Classes(c.roots + (map x | x in Members(c, hi) :: lo),
            c.depths + (map x | x in Members(c, hi) :: Depth(c, x) + 1),
            c.groups[lo := Members(c, lo) + Members(c, hi)][hi := {}])
  }

  /** `m` moves the class of root `hi` under root `lo`. */
  ghost predicate IsMerge(c: Classes, m: Classes, lo: nat, hi: nat) {
    && (forall x: nat {:trigger Rep(m, x)} :: Rep(m, x) == if Rep(c, x) == hi then lo else Rep(c, x))
    && (forall x: nat {:trigger Depth(m, x)} :: Depth(m, x) == if Rep(c, x) == hi then Depth(c, x) + 1 else Depth(c, x))
    && (forall r: nat {:trigger Members(m, r)} ::
          Members(m, r) == if r == lo then Members(c, lo) + Members(c, hi) else if r == hi then {} else Members(c, r))
  }

  lemma Merge(c: Classes, lo: nat, hi: nat) returns (m: Classes)
    requires HasMembers(c) && lo != hi
    ensures IsMerge(c, m, lo, hi)
  {
    m := Merged(c, lo, hi);
    forall x: nat ensures Rep(m, x) == if Rep(c, x) == hi then lo else Rep(c, x) { assert MemberAt(c, hi, x); }
    forall x: nat ensures Depth(m, x) == if Rep(c, x) == hi then Depth(c, x) + 1 else Depth(c, x) { assert MemberAt(c, hi, x); }
    forall r: nat ensures
      Members(m, r) == if r == lo then Members(c, lo) + Members(c, hi) else if r == hi then {} else Members(c, r)
    {
      assert r != lo && r != hi ==> (r in m.groups <==> r in c.groups);
    }
  }

  lemma MergeMembers(c: Classes, m: Classes, lo: nat, hi: nat)
    requires IsMerge(c, m, lo, hi) && lo != hi && HasMembers(c)
    ensures HasMembers(m) && |Members(m, lo)| == |Members(c, lo)| + |Members(c, hi)|
  {
    forall v: nat | v in Members(c, lo) ensures v !in Members(c, hi) {
      assert MemberAt(c, lo, v) && MemberAt(c, hi, v);
    }
    assert Members(m, lo) == Members(c, lo) + Members(c, hi);
    forall r: nat, v: nat ensures MemberAt(m, r, v) {
      assert MemberAt(c, r, v) && MemberAt(c, lo, v) && MemberAt(c, hi, v);
    }
  }

  /** What union by size buys: the tokens that move one step away at least double their class. */
  lemma MergeDepths(c: Classes, m: Classes, lo: nat, hi: nat)
    requires IsMerge(c, m, lo, hi) && lo != hi && Shallow(c)
    requires |Members(c, lo)| >= |Members(c, hi)|
    requires |Members(m, lo)| == |Members(c, lo)| + |Members(c, hi)|
    ensures Shallow(m)
  {
    forall v: nat
      ensures ShallowAt(m, v)
    {
      assert ShallowAt(c, v);
    }
  }

  lemma MergeChains(parents: map<nat, nat>, c: Classes, m: Classes, lo: nat, hi: nat)
    requires Chains(parents, c) && lo !in parents && hi !in parents && lo != hi && IsMerge(c, m, lo, hi)
    ensures Chains(parents[hi := lo], m)
  {
    var parents' := parents[hi := lo];
    forall v: nat
      ensures ChainAt(parents', m, v)
    {
      assert ChainAt(parents, c, v) && ChainAt(parents, c, lo) && ChainAt(parents, c, hi);
    }
  }

  lemma MergeSized(parents: map<nat, nat>, sizes: map<nat, nat>, c: Classes, m: Classes, lo: nat, hi: nat, sizes': map<nat, nat>)
    requires Sized(parents, sizes, c) && lo !in parents && hi !in parents && lo != hi && IsMerge(c, m, lo, hi)
    requires |Members(m, lo)| == |Members(c, lo)| + |Members(c, hi)|
    requires sizes' == sizes[lo := SizeOf(sizes, lo) + SizeOf(sizes, hi)] - {hi}
    ensures Sized(parents[hi := lo], sizes', m)
  {
    forall r: nat | r !in parents[hi := lo]
      ensures SizedAt(sizes', m, r)
    {
      assert SizedAt(sizes, c, lo) && SizedAt(sizes, c, hi) && SizedAt(sizes, c, r);
    }
  }

  lemma MergeForest(parents: map<nat, nat>, sizes: map<nat, nat>, c: Classes, m: Classes, lo: nat, hi: nat, sizes': map<nat, nat>)
    requires Forest(parents, sizes, c) && lo !in parents && hi !in parents && lo != hi
    requires SizeOf(sizes, lo) >= SizeOf(sizes, hi) && IsMerge(c, m, lo, hi)
    requires sizes' == sizes[lo := SizeOf(sizes, lo) + SizeOf(sizes, hi)] - {hi}
    ensures Forest(parents[hi := lo], sizes', m)
  {
    MergeMembers(c, m, lo, hi);
    assert SizedAt(sizes, c, lo) && SizedAt(sizes, c, hi);
    MergeDepths(c, m, lo, hi);
    MergeChains(parents, c, m, lo, hi);
    MergeSized(parents, sizes, c, m, lo, hi, sizes');
  }

  lemma MergeGenerated(cls: Classes, links: seq<Link>, link: Link, lo: nat, hi: nat, merged: Classes)
    requires Generated(cls, links) && {Rep(cls, link.a), Rep(cls, link.b)} == {lo, hi}
    requires forall x: nat :: Rep(merged, x) == if Rep(cls, x) == hi then lo else Rep(cls, x)
    ensures Generated(merged, links + [link])
  {
    var all := links + [link];
    forall c: nat -> nat | Respects(c, all)
      ensures Absorbs(c, merged)
    {
      assert Respects(c, links) by { assert forall k :: 0 <= k < |links| ==> links[k] == all[k]; }
      assert all[|links|] == link;
      assert Absorbs(c, cls);
      assert c(link.a) == c(Rep(cls, link.a)) && c(link.b) == c(Rep(cls, link.b));
    }
    forall k | 0 <= k < |all| ensures Joined(merged, all[k]) {
      if k < |links| { assert Joined(cls, links[k]); }
    }
  }

  // ---------- leases over the classes ----------

  type Leases = map<nat, map<Resource, nat>>

  ghost function Canon(cls: Classes, r: Resource): Resource {
    if r.Token? then Token(Rep(cls, r.id)) else r
  }

  function Version(versions: map<Resource, nat>, r: Resource): nat {
    if r in versions then versions[r] else 0
  }

  function Subscribers(subscribers: map<Resource, set<nat>>, r: Resource): set<nat> {
    if r in subscribers then subscribers[r] else {}
  }

  ghost predicate Targets(cls: Classes, rs: set<Resource>, target: Resource) {
    exists r :: r in rs && Canon(cls, r) == target
  }

  ghost predicate SameTarget(cls: Classes, keys: set<Resource>, rs: set<Resource>, target: Resource) {
    Targets(cls, keys, target) <==> Targets(cls, rs, target)
  }

  /** A lease and what was watched name the same classes, tables and scope. */
  ghost predicate SameTargets(cls: Classes, keys: set<Resource>, rs: set<Resource>) {
    forall target {:trigger SameTarget(cls, keys, rs, target)} :: SameTarget(cls, keys, rs, target)
  }

  ghost predicate Covers(cls: Classes, leases: Leases, watches: map<nat, set<Resource>>) {
    leases.Keys == watches.Keys && forall id {:trigger SameTargets(cls, leases[id].Keys, watches[id])} ::
      id in leases ==> SameTargets(cls, leases[id].Keys, watches[id])
  }

  ghost predicate Outdated(cls: Classes, lease: map<Resource, nat>, versions: map<Resource, nat>) {
    exists k :: k in lease && lease[k] < Version(versions, Canon(cls, k))
  }

  ghost predicate VersionAt(versions: map<Resource, nat>, tick: nat, r: Resource) {
    Version(versions, r) <= tick
  }

  ghost predicate StampAt(cls: Classes, lease: map<Resource, nat>, versions: map<Resource, nat>, k: Resource)
    requires k in lease
  {
    lease[k] <= Version(versions, Canon(cls, k))
  }

  /** Stamps never run ahead of the versions, and lag behind exactly on stale leases. */
  ghost predicate Stamped(cls: Classes, leases: Leases, versions: map<Resource, nat>, tick: nat, stale: set<nat>) {
    && (forall r {:trigger VersionAt(versions, tick, r)} :: VersionAt(versions, tick, r))
    && (forall id, k {:trigger StampAt(cls, leases[id], versions, k)} ::
          id in leases && k in leases[id] ==> StampAt(cls, leases[id], versions, k))
    && (forall id {:trigger Outdated(cls, leases[id], versions)} ::
          id in leases ==> (id in stale <==> Outdated(cls, leases[id], versions)))
  }

  ghost predicate IsCanonical(cls: Classes, r: Resource) {
    Canon(cls, r) == r
  }

  ghost predicate NotifiedAt(cls: Classes, leases: Leases, subscribers: map<Resource, set<nat>>, r: Resource, id: nat) {
    id in Subscribers(subscribers, r) <==> id in leases && Targets(cls, leases[id].Keys, r)
  }

  /** The subscribers of a canonical resource are exactly the leases with a stamp on it. */
  ghost predicate Notified(cls: Classes, leases: Leases, subscribers: map<Resource, set<nat>>) {
    && (forall r {:trigger IsCanonical(cls, r)} :: r in subscribers ==> IsCanonical(cls, r))
    && (forall r, id {:trigger NotifiedAt(cls, leases, subscribers, r, id)} ::
          IsCanonical(cls, r) ==> NotifiedAt(cls, leases, subscribers, r, id))
  }

  // ---------- one event ----------

  ghost predicate Grew(cls0: Classes, cls: Classes, w: nat) {
    exists x: nat :: Rep(cls, x) == Rep(cls, w) && Rep(cls0, x) != Rep(cls0, w)
  }

  ghost predicate Moved(cls0: Classes, cls: Classes, e: Change, w: nat) {
    (exists t :: t in e.tokens && Rep(cls, t) == Rep(cls, w)) || Grew(cls0, cls, w)
  }

  ghost predicate Coarser(cls0: Classes, cls: Classes) {
    forall x: nat, y: nat {:trigger Rep(cls0, x), Rep(cls0, y)} :: Rep(cls0, x) == Rep(cls0, y) ==> Rep(cls, x) == Rep(cls, y)
  }

  ghost predicate UnmovedKeep(cls0: Classes, cls: Classes) {
    forall w: nat {:trigger Grew(cls0, cls, w)} :: !Grew(cls0, cls, w) ==> Rep(cls, w) == Rep(cls0, w)
  }

  ghost predicate MarksMoved(cls0: Classes, cls: Classes, e: Change, changed: set<Resource>) {
    forall v: nat :: Token(v) in changed ==> Moved(cls0, cls, e, v)
  }

  ghost predicate MovedMarked(cls0: Classes, cls: Classes, e: Change, changed: set<Resource>) {
    forall w: nat {:trigger Moved(cls0, cls, e, w)} :: Moved(cls0, cls, e, w) ==>
      exists v: nat :: Token(v) in changed && Rep(cls, v) == Rep(cls, w)
  }

  /** The classes marked as changed are those of a listed token and those that took part in a merge. */
  ghost predicate Marked(cls0: Classes, cls: Classes, e: Change, changed: set<Resource>) {
    && Coarser(cls0, cls) && UnmovedKeep(cls0, cls)
    && MarksMoved(cls0, cls, e, changed) && MovedMarked(cls0, cls, e, changed)
  }

  lemma MarkedAtStart(c: Classes, e: Change, changed: set<Resource>)
    requires Idempotent(c)
    requires forall v: nat :: Token(v) in changed <==> exists t :: t in e.tokens && v == Rep(c, t)
    ensures Marked(c, c, e, changed)
  {
    forall w: nat | Moved(c, c, e, w)
      ensures exists v: nat :: Token(v) in changed && Rep(c, v) == Rep(c, w)
    {
      var t :| t in e.tokens && Rep(c, t) == Rep(c, w);
      assert Token(Rep(c, t)) in changed && Rep(c, Rep(c, t)) == Rep(c, w);
    }
  }

  lemma MovedIsClassWide(cls0: Classes, cls: Classes, e: Change, v: nat, w: nat)
    requires Rep(cls, v) == Rep(cls, w) && Moved(cls0, cls, e, v)
    ensures Moved(cls0, cls, e, w)
  {
    if x: nat :| Rep(cls, x) == Rep(cls, v) && Rep(cls0, x) != Rep(cls0, v) {
      assert Rep(cls0, x) != Rep(cls0, w) || Rep(cls0, v) != Rep(cls0, w);
    }
  }

  lemma MergeCoarser(cls0: Classes, c: Classes, m: Classes, lo: nat, hi: nat)
    requires Coarser(cls0, c) && UnmovedKeep(cls0, c) && IsMerge(c, m, lo, hi)
    requires lo != hi && Rep(c, lo) == lo && Rep(c, hi) == hi
    ensures Coarser(cls0, m) && UnmovedKeep(cls0, m)
  {
    forall w: nat | !Grew(cls0, m, w)
      ensures Rep(m, w) == Rep(cls0, w)
    {
      assert Rep(m, lo) == lo == Rep(m, hi);
      assert Rep(cls0, lo) != Rep(cls0, hi);
      assert Rep(c, w) == Rep(m, w);
      assert forall x: nat {:trigger Rep(c, x)} :: Rep(c, x) == Rep(c, w) ==> Rep(m, x) == Rep(m, w);
      assert !Grew(cls0, c, w);
    }
  }

  lemma MergeMarksMoved(cls0: Classes, c: Classes, m: Classes, lo: nat, hi: nat, e: Change, changed: set<Resource>)
    requires Coarser(cls0, c) && MarksMoved(cls0, c, e, changed) && IsMerge(c, m, lo, hi)
    requires lo != hi && Rep(c, lo) == lo && Rep(c, hi) == hi
    ensures MarksMoved(cls0, m, e, changed + {Token(lo)})
  {
    assert Rep(m, lo) == lo == Rep(m, hi);
    assert Rep(cls0, lo) != Rep(cls0, hi);
    assert Grew(cls0, m, lo);
    forall v: nat | Token(v) in changed
      ensures Moved(cls0, m, e, v)
    {
      if x: nat :| Rep(c, x) == Rep(c, v) && Rep(cls0, x) != Rep(cls0, v) {
        assert Rep(m, x) == Rep(m, v);
      } else {
        var t :| t in e.tokens && Rep(c, t) == Rep(c, v);
        assert Rep(m, t) == Rep(m, v);
      }
    }
  }

  lemma MovedBefore(cls0: Classes, c: Classes, m: Classes, lo: nat, hi: nat, e: Change, w: nat)
    requires IsMerge(c, m, lo, hi) && Rep(c, lo) == lo
    requires Moved(cls0, m, e, w) && Rep(m, w) != lo
    ensures Rep(c, w) == Rep(m, w) && Moved(cls0, c, e, w)
  {
    assert Rep(c, w) == Rep(m, w);
    if x: nat :| Rep(m, x) == Rep(m, w) && Rep(cls0, x) != Rep(cls0, w) {
      assert Rep(c, x) == Rep(c, w);
    } else {
      var t :| t in e.tokens && Rep(m, t) == Rep(m, w);
      assert Rep(c, t) == Rep(c, w);
    }
  }

  lemma MergeMarks(cls0: Classes, c: Classes, m: Classes, lo: nat, hi: nat, e: Change, changed: set<Resource>)
    requires Marked(cls0, c, e, changed) && IsMerge(c, m, lo, hi)
    requires lo != hi && Rep(c, lo) == lo && Rep(c, hi) == hi
    ensures Marked(cls0, m, e, changed + {Token(lo)})
  {
    MergeCoarser(cls0, c, m, lo, hi);
    MergeMarksMoved(cls0, c, m, lo, hi, e, changed);
    var changed' := changed + {Token(lo)};
    forall w: nat | Moved(cls0, m, e, w)
      ensures exists v: nat :: Token(v) in changed' && Rep(m, v) == Rep(m, w)
    {
      if Rep(m, w) == lo {
        assert Token(lo) in changed' && Rep(m, lo) == Rep(m, w);
      } else {
        MovedBefore(cls0, c, m, lo, hi, e, w);
        var v: nat :| Token(v) in changed && Rep(c, v) == Rep(c, w);
        assert Token(v) in changed' && Rep(m, v) == Rep(m, w);
      }
    }
  }

  /** The subscribers of a root that is lost join those of the root that stays. */
  function MovedSubscribers(subs: map<Resource, set<nat>>, lo: nat, hi: nat): (r: map<Resource, set<nat>>)
    requires lo != hi
    ensures Token(hi) !in r
    ensures forall x :: x in r ==> x in subs || (x == Token(lo) && Token(hi) in subs)
    ensures Subscribers(r, Token(lo)) == Subscribers(subs, Token(lo)) + Subscribers(subs, Token(hi))
    ensures forall x :: x != Token(hi) && x != Token(lo) ==> Subscribers(r, x) == Subscribers(subs, x)
  {
    if Token(hi) !in subs then subs
    else
      var rest := subs - {Token(hi)};
      rest[Token(lo) := Subscribers(rest, Token(lo)) + subs[Token(hi)]]
  }

  lemma MergeNotified(c: Classes, m: Classes, lo: nat, hi: nat, leases: Leases, subs: map<Resource, set<nat>>)
    requires Notified(c, leases, subs) && IsMerge(c, m, lo, hi)
    requires lo != hi && Rep(c, lo) == lo && Rep(c, hi) == hi
    ensures Notified(m, leases, MovedSubscribers(subs, lo, hi))
  {
    var subs' := MovedSubscribers(subs, lo, hi);
    forall r | r in subs'
      ensures IsCanonical(m, r)
    {
      if r in subs { assert IsCanonical(c, r); }
    }
    forall r, id | IsCanonical(m, r)
      ensures NotifiedAt(m, leases, subs', r, id)
    {
      assert IsCanonical(c, Token(lo)) && IsCanonical(c, Token(hi)) && IsCanonical(c, r);
      assert NotifiedAt(c, leases, subs, Token(lo), id) && NotifiedAt(c, leases, subs, Token(hi), id)
          && NotifiedAt(c, leases, subs, r, id);
      if id in leases {
        MergeTargets(c, m, lo, hi, leases[id].Keys, r);
      }
    }
  }

  lemma MergeTargets(c: Classes, m: Classes, lo: nat, hi: nat, rs: set<Resource>, target: Resource)
    requires IsMerge(c, m, lo, hi) && Rep(c, lo) == lo && lo != hi
    ensures Targets(m, rs, target) <==>
              (target != Token(hi) && Targets(c, rs, target)) || (target == Token(lo) && Targets(c, rs, Token(hi)))
  {
    forall r | r in rs
      ensures Canon(m, r) == if Canon(c, r) == Token(hi) then Token(lo) else Canon(c, r)
    {
    }
  }

  lemma MergeCovers(c: Classes, m: Classes, lo: nat, hi: nat, leases: Leases, watches: map<nat, set<Resource>>)
    requires Covers(c, leases, watches) && IsMerge(c, m, lo, hi) && Rep(c, lo) == lo && lo != hi
    ensures Covers(m, leases, watches)
  {
    forall id | id in leases
      ensures SameTargets(m, leases[id].Keys, watches[id])
    {
      forall target
        ensures SameTarget(m, leases[id].Keys, watches[id], target)
      {
        assert SameTargets(c, leases[id].Keys, watches[id]);
        assert SameTarget(c, leases[id].Keys, watches[id], target) && SameTarget(c, leases[id].Keys, watches[id], Token(hi));
        MergeTargets(c, m, lo, hi, leases[id].Keys, target);
        MergeTargets(c, m, lo, hi, watches[id], target);
      }
    }
  }

  /** Some changed resource has the canonical form `target`. */
  ghost predicate Bumped(cls: Classes, changed: set<Resource>, target: Resource) {
    Targets(cls, changed, target)
  }

  /** Leases with a stamp on a changed class, table or scope. */
  ghost function Woken(cls: Classes, leases: Leases, changed: set<Resource>): set<nat> {
    set id | id in leases && exists k :: k in leases[id] && Bumped(cls, changed, Canon(cls, k))
  }

  /** What `apply` collected: the marked tokens, the listed tables, and the scope on a reset. */
  ghost predicate Collected(cls0: Classes, cls: Classes, e: Change, changed: set<Resource>) {
    && Marked(cls0, cls, e, changed)
    && (forall t :: Table(t) in changed <==> t in e.tables)
    && (Scope in changed <==> e.reset)
  }

  lemma GrowsIsGrew(links: seq<Link>, unions: seq<Link>, cls0: Classes, cls: Classes, w: nat)
    requires Generated(cls0, links) && Generated(cls, links + unions)
    ensures Grows(links, unions, w) <==> Grew(cls0, cls, w)
  {
    forall x: nat
      ensures Same(links + unions, w, x) && !Same(links, w, x) <==> Rep(cls, x) == Rep(cls, w) && Rep(cls0, x) != Rep(cls0, w)
    {
      SameIsRep(cls0, links, w, x);
      SameIsRep(cls, links + unions, w, x);
    }
  }

  lemma TouchesIsMoved(links: seq<Link>, cls0: Classes, cls: Classes, e: Change, w: nat)
    requires Generated(cls0, links) && Generated(cls, links + e.unions)
    ensures TouchesToken(links, e, w) <==> Moved(cls0, cls, e, w)
  {
    GrowsIsGrew(links, e.unions, cls0, cls, w);
    forall t | t in e.tokens
      ensures Same(links, t, w) ==> Rep(cls, t) == Rep(cls, w)
      ensures Rep(cls, t) == Rep(cls, w) ==> Same(links, t, w) || Grew(cls0, cls, w)
    {
      SameIsRep(cls0, links, t, w);
      SameIsRep(cls, links + e.unions, t, w);
      if Same(links, t, w) {
        LinksOnlyGrow(links, e.unions, t, w);
      }
    }
  }

  lemma LinksOnlyGrow(links: seq<Link>, more: seq<Link>, x: nat, y: nat)
    requires Same(links, x, y)
    ensures Same(links + more, x, y)
  {
    forall c: nat -> nat | Respects(c, links + more)
      ensures c(x) == c(y)
    {
      assert forall k :: 0 <= k < |links| ==> links[k] == (links + more)[k];
      assert Respects(c, links);
    }
  }

  /** The canonical resources that are bumped are those of the touched watched resources. */
  /** A resource is bumped exactly if the event touches it. */
  lemma ResourceBumped(links: seq<Link>, cls0: Classes, cls: Classes, e: Change, changed: set<Resource>, r: Resource)
    requires Generated(cls0, links) && Generated(cls, links + e.unions) && Collected(cls0, cls, e, changed)
    ensures Bumped(cls, changed, Canon(cls, r)) <==> TouchesOne(links, e, r)
  {
    match r
    case Scope => assert Scope in changed ==> Canon(cls, Scope) == Scope;
    case Table(t) => assert Table(t) in changed ==> Canon(cls, Table(t)) == Table(t);
    case Token(w) =>
      TouchesIsMoved(links, cls0, cls, e, w);
      if Moved(cls0, cls, e, w) {
        var v: nat :| Token(v) in changed && Rep(cls, v) == Rep(cls, w);
        assert Canon(cls, Token(v)) == Token(Rep(cls, w));
      }
      if q :| q in changed && Canon(cls, q) == Token(Rep(cls, w)) {
        MovedIsClassWide(cls0, cls, e, q.id, w);
      }
  }

  ghost predicate TouchesOne(links: seq<Link>, e: Change, r: Resource) {
    match r case Scope => e.reset case Table(t) => t in e.tables case Token(w) => TouchesToken(links, e, w)
  }

  lemma TouchesSome(links: seq<Link>, e: Change, rs: set<Resource>)
    ensures Touches(links, e, rs) <==> exists r :: r in rs && TouchesOne(links, e, r)
  {
    if Touches(links, e, rs) {
      if e.reset && Scope in rs {
        assert TouchesOne(links, e, Scope);
      } else if t :| Table(t) in rs && t in e.tables {
        assert TouchesOne(links, e, Table(t));
      } else {
        var w: nat :| Token(w) in rs && TouchesToken(links, e, w);
        assert TouchesOne(links, e, Token(w));
      }
    }
    if r :| r in rs && TouchesOne(links, e, r) {
      match r
      case Scope =>
      case Table(t) =>
      case Token(w) => assert TouchesToken(links, e, w);
    }
  }

  lemma BumpedIsTouched(links: seq<Link>, cls0: Classes, cls: Classes, e: Change, changed: set<Resource>, rs: set<Resource>)
    requires Generated(cls0, links) && Generated(cls, links + e.unions) && Collected(cls0, cls, e, changed)
    ensures Touches(links, e, rs) <==> exists r :: r in rs && Bumped(cls, changed, Canon(cls, r))
  {
    TouchesSome(links, e, rs);
    forall r | r in rs ensures Bumped(cls, changed, Canon(cls, r)) <==> TouchesOne(links, e, r) {
      ResourceBumped(links, cls0, cls, e, changed, r);
    }
  }

  /** The wake set of an event is exactly the set of leases that it touches. */
  lemma WokenIsTouched(h: History, cls0: Classes, cls: Classes, e: Change, changed: set<Resource>, leases: Leases)
    requires Generated(cls0, Links(h)) && Generated(cls, Links(h) + e.unions) && Collected(cls0, cls, e, changed)
    requires Covers(cls, leases, Watches(h))
    ensures Woken(cls, leases, changed) == Touched(h, e)
  {
    forall id | id in leases
      ensures (exists k :: k in leases[id] && Bumped(cls, changed, Canon(cls, k))) <==> Touches(Links(h), e, Watches(h)[id])
    {
      var rs := Watches(h)[id];
      assert SameTargets(cls, leases[id].Keys, rs);
      BumpedIsTouched(Links(h), cls0, cls, e, changed, rs);
      if k :| k in leases[id] && Bumped(cls, changed, Canon(cls, k)) {
        assert SameTarget(cls, leases[id].Keys, rs, Canon(cls, k));
        var r :| r in rs && Canon(cls, r) == Canon(cls, k);
      }
      if r :| r in rs && Bumped(cls, changed, Canon(cls, r)) {
        assert SameTarget(cls, leases[id].Keys, rs, Canon(cls, r));
        var k :| k in leases[id].Keys && Canon(cls, k) == Canon(cls, r);
      }
    }
  }

  /** Exactly the canonical forms of the changed resources have the new version. */
  ghost predicate Bumps(cls: Classes, changed: set<Resource>, before: map<Resource, nat>, after: map<Resource, nat>, tick: nat) {
    forall r {:trigger Version(after, r)} :: Version(after, r) == if Bumped(cls, changed, r) then tick else Version(before, r)
  }

  lemma BumpsStep(cls: Classes, done: set<Resource>, before: map<Resource, nat>, now: map<Resource, nat>, tick: nat, r: Resource)
    requires Bumps(cls, done, before, now, tick)
    ensures Bumps(cls, done + {r}, before, now[Canon(cls, r) := tick], tick)
  {
    forall target
      ensures Version(now[Canon(cls, r) := tick], target) == if Bumped(cls, done + {r}, target) then tick else Version(before, target)
    {
      BumpOne(cls, done, r, target);
      assert Version(now, target) == if Bumped(cls, done, target) then tick else Version(before, target);
    }
  }

  /** One stamp after an event: overtaken if its class is bumped, and compared as before if not. */
  lemma StampAfter(cls0: Classes, cls: Classes, e: Change, changed: set<Resource>, lease: map<Resource, nat>,
                   versions: map<Resource, nat>, versions': map<Resource, nat>, tick: nat, k: Resource)
    requires k in lease && StampAt(cls0, lease, versions, k) && VersionAt(versions, tick, Canon(cls0, k))
    requires Marked(cls0, cls, e, changed) && Bumps(cls, changed, versions, versions', tick + 1)
    ensures StampAt(cls, lease, versions', k)
    ensures lease[k] < Version(versions', Canon(cls, k)) <==>
              Bumped(cls, changed, Canon(cls, k)) || lease[k] < Version(versions, Canon(cls0, k))
  {
    var now := Version(versions', Canon(cls, k));
    if !Bumped(cls, changed, Canon(cls, k)) {
      UnbumpedKeeps(cls0, cls, e, changed, k);
    }
  }

  lemma StampsAfter(cls0: Classes, cls: Classes, e: Change, changed: set<Resource>, leases: Leases,
                    versions: map<Resource, nat>, versions': map<Resource, nat>, tick: nat, stale: set<nat>)
    requires Stamped(cls0, leases, versions, tick, stale) && Collected(cls0, cls, e, changed)
    requires Bumps(cls, changed, versions, versions', tick + 1)
    ensures Stamped(cls, leases, versions', tick + 1, stale + Woken(cls, leases, changed))
  {
    var next := tick + 1;
    forall r ensures VersionAt(versions', next, r) {
      assert VersionAt(versions, tick, r);
      var now := Version(versions', r);
    }
    forall id, k | id in leases && k in leases[id]
      ensures StampAt(cls, leases[id], versions', k)
    {
      assert StampAt(cls0, leases[id], versions, k) && VersionAt(versions, tick, Canon(cls0, k));
      StampAfter(cls0, cls, e, changed, leases[id], versions, versions', tick, k);
    }
    forall id | id in leases
      ensures id in stale + Woken(cls, leases, changed) <==> Outdated(cls, leases[id], versions')
    {
      assert id in stale <==> Outdated(cls0, leases[id], versions);
      forall k | k in leases[id]
        ensures leases[id][k] < Version(versions', Canon(cls, k)) <==>
                  Bumped(cls, changed, Canon(cls, k)) || leases[id][k] < Version(versions, Canon(cls0, k))
      {
        assert StampAt(cls0, leases[id], versions, k) && VersionAt(versions, tick, Canon(cls0, k));
        StampAfter(cls0, cls, e, changed, leases[id], versions, versions', tick, k);
      }
    }
  }

  lemma UnbumpedKeeps(cls0: Classes, cls: Classes, e: Change, changed: set<Resource>, k: Resource)
    requires Marked(cls0, cls, e, changed) && !Bumped(cls, changed, Canon(cls, k))
    ensures Canon(cls, k) == Canon(cls0, k)
  {
    if k.Token? {
      assert forall v: nat :: Token(v) in changed ==> Canon(cls, Token(v)) == Token(Rep(cls, v));
      assert !Moved(cls0, cls, e, k.id);
    }
  }

  lemma RedundantLink(cls: Classes, links: seq<Link>, link: Link)
    requires Generated(cls, links) && Rep(cls, link.a) == Rep(cls, link.b)
    ensures Generated(cls, links + [link])
  {
    var all := links + [link];
    assert forall k :: 0 <= k < |links| ==> links[k] == all[k];
    forall c: nat -> nat | Respects(c, all)
      ensures Absorbs(c, cls)
    {
      assert Respects(c, links);
    }
  }

  /** Bumping one more resource of the changed set. */
  lemma BumpOne(cls: Classes, done: set<Resource>, r: Resource, target: Resource)
    ensures Bumped(cls, done + {r}, target) <==> Bumped(cls, done, target) || target == Canon(cls, r)
  {
    if target == Canon(cls, r) { assert r in done + {r}; }
    if q :| q in done && Canon(cls, q) == target { assert q in done + {r}; }
  }

  lemma WokenByOne(cls: Classes, leases: Leases, subs: map<Resource, set<nat>>, done: set<Resource>, r: Resource)
    requires Notified(cls, leases, subs) && Canon(cls, Canon(cls, r)) == Canon(cls, r)
    ensures Woken(cls, leases, done + {r}) == Woken(cls, leases, done) + Subscribers(subs, Canon(cls, r))
  {
    forall id | id in leases
      ensures id in Woken(cls, leases, done + {r}) <==> id in Woken(cls, leases, done) || id in Subscribers(subs, Canon(cls, r))
    {
      forall k | k in leases[id]
        ensures Bumped(cls, done + {r}, Canon(cls, k)) <==> Bumped(cls, done, Canon(cls, k)) || Canon(cls, k) == Canon(cls, r)
      {
        BumpOne(cls, done, r, Canon(cls, k));
      }
      assert IsCanonical(cls, Canon(cls, r)) && NotifiedAt(cls, leases, subs, Canon(cls, r), id);
    }
    forall id | id in Subscribers(subs, Canon(cls, r)) ensures id in leases {
      assert IsCanonical(cls, Canon(cls, r)) && NotifiedAt(cls, leases, subs, Canon(cls, r), id);
    }
  }

  lemma FreshAppend(h: History, e: Event)
    requires FreshWatches(h) && (e.Watched? ==> e.id !in Watches(h))
    ensures FreshWatches(h + [e])
  {
    if e.Watched? { WatchesOfEvent(h, e.id); }
    forall i, j | 0 <= i < j < |h + [e]| ensures Distinct(h + [e], i, j) {
      if j < |h| { assert Distinct(h, i, j); }
    }
  }

  lemma HistoryExtends(h: History, e: Event)
    ensures e.Applied? ==> Links(h + [e]) == Links(h) + e.change.unions && Watches(h + [e]) == Watches(h)
    ensures e.Applied? ==> Stale(h + [e]) == Stale(h) + Touched(h, e.change)
    ensures e.Watched? ==> Links(h + [e]) == Links(h) && Watches(h + [e]) == Watches(h)[e.id := e.resources + {Scope}]
    ensures e.Watched? ==> Stale(h + [e]) == Stale(h)
  {
    assert (h + [e])[..|h|] == h;
  }

  class Registry {
    var versions: map<Resource, nat>
    var parents: map<nat, nat>
    var sizes: map<nat, nat>
    var subscribers: map<Resource, set<nat>>
    var leases: Leases
    var tick: nat
    var notifications: nat
    var wakes: nat
    ghost var history: History
    ghost var classes: Classes

    ghost predicate Valid()
      reads this
    {
      && Forest(parents, sizes, classes) && Generated(classes, Links(history)) && FreshWatches(history)
      && Covers(classes, leases, Watches(history)) && Notified(classes, leases, subscribers)
      && Stamped(classes, leases, versions, tick, Stale(history))
    }

    constructor ()
      ensures Valid() && history == [] && notifications == 0 && wakes == 0
    {
      versions, parents, sizes, subscribers, leases := map[], map[], map[], map[], map[];
      tick, notifications, wakes := 0, 0, 0;
      history, classes := [], Initial();
      new;
      InitialForest();
      assert Links(history) == [] && Stale(history) == {};
      assert Generated(classes, Links(history)) && Covers(classes, leases, Watches(history));
      assert Forest(parents, sizes, classes) && Notified(classes, leases, subscribers);
      assert FreshWatches(history) && Stamped(classes, leases, versions, tick, Stale(history));
    }

    method Root(v: nat) returns (r: nat)
      requires Chains(parents, classes)
      ensures r == Rep(classes, v)
    {
      r := v;
      while r in parents
        invariant Rep(classes, r) == Rep(classes, v)
        decreases Depth(classes, r)
      {
        assert ChainAt(parents, classes, r);
        if parents[r] == r { break; }
        r := parents[r];
      }
      assert ChainAt(parents, classes, r);
    }

    method Canonical(r: Resource) returns (c: Resource)
      requires Chains(parents, classes)
      ensures c == Canon(classes, r)
    {
      match r
      case Token(v) => var root := Root(v); c := Token(root);
      case _ => c := r;
    }

    /** Hangs the root `hi` below the root `lo` of a class that is not smaller. */
    method Attach(lo: nat, hi: nat)
      requires Forest(parents, sizes, classes)
      requires lo !in parents && hi !in parents && lo != hi && SizeOf(sizes, lo) >= SizeOf(sizes, hi)
      modifies this`parents, this`sizes, this`classes
      ensures Forest(parents, sizes, classes)
      ensures IsMerge(old(classes), classes, lo, hi)
    {
      ghost var m := Merge(classes, lo, hi);
      var total := SizeOf(sizes, lo) + SizeOf(sizes, hi);
      MergeForest(parents, sizes, classes, m, lo, hi, sizes[lo := total] - {hi});
      sizes := sizes[lo := total] - {hi};
      parents := parents[hi := lo];
      classes := m;
    }

    method MoveSubscribers(lo: nat, hi: nat, ghost was: Classes)
      requires IsMerge(was, classes, lo, hi) && lo != hi && Rep(was, lo) == lo && Rep(was, hi) == hi
      requires Notified(was, leases, subscribers)
      modifies this`subscribers
      ensures Notified(classes, leases, subscribers)
    {
      MergeNotified(was, classes, lo, hi, leases, subscribers);
      subscribers := MovedSubscribers(subscribers, lo, hi);
    }

    /** Joins the class of the smaller root to the other; `lo` is the root that stays. */
    method Unite(a: nat, b: nat) returns (joined: bool, lo: nat, ghost hi: nat)
      requires Forest(parents, sizes, classes) && Notified(classes, leases, subscribers)
      modifies this`parents, this`sizes, this`subscribers, this`classes
      ensures Forest(parents, sizes, classes) && Notified(classes, leases, subscribers)
      ensures joined <==> Rep(old(classes), a) != Rep(old(classes), b)
      ensures !joined ==> classes == old(classes)
      ensures joined ==> lo != hi && Rep(old(classes), lo) == lo && Rep(old(classes), hi) == hi
      ensures joined ==> {lo, hi} == {Rep(old(classes), a), Rep(old(classes), b)}
      ensures joined ==> IsMerge(old(classes), classes, lo, hi)
    {
      var ra := Root(a);
      var rb := Root(b);
      joined, lo, hi := ra != rb, ra, rb;
      if joined {
        assert ChainAt(parents, classes, a) && ChainAt(parents, classes, b);
        assert ChainAt(parents, classes, ra) && ChainAt(parents, classes, rb);
        var sa, sb := SizeOf(sizes, ra), SizeOf(sizes, rb);
        var left, right := rb, ra;
        if sa > sb || (sa == sb && ra < rb) { left, right := ra, rb; }
        assert Rep(classes, left) == left && Rep(classes, right) == right;
        ghost var was := classes;
        Attach(left, right);
        MoveSubscribers(left, right, was);
        lo, hi := left, right;
      }
    }

    method CanonicalAll(resources: set<Resource>) returns (rs: set<Resource>)
      requires Chains(parents, classes)
      ensures forall c :: c in rs <==> Targets(classes, resources, c)
    {
      rs := {};
      var todo := resources;
      ghost var done: set<Resource> := {};
      while todo != {}
        invariant done == resources - todo && todo <= resources
        invariant forall c :: c in rs <==> Targets(classes, done, c)
        decreases todo
      {
        var r :| r in todo;
        var c := Canonical(r);
        forall target
          ensures Targets(classes, done + {r}, target) <==> Targets(classes, done, target) || target == c
        {
          BumpOne(classes, done, r, target);
        }
        rs, todo, done := rs + {c}, todo - {r}, done + {r};
      }
    }

    /** Stamps the current version of each resource, and subscribes to it. */
    method Stamp(id: nat, rs: set<Resource>) returns (lease: map<Resource, nat>)
      modifies this`subscribers
      ensures lease.Keys == rs && forall r :: r in lease ==> lease[r] == Version(versions, r)
      ensures SubscribedTo(old(subscribers), subscribers, rs, id)
    {
      lease := map[];
      var todo := rs;
      while todo != {}
        invariant todo <= rs && lease.Keys == rs - todo
        invariant forall r :: r in lease ==> lease[r] == Version(versions, r)
        invariant SubscribedTo(old(subscribers), subscribers, rs - todo, id)
        decreases todo
      {
        var r :| r in todo;
        subscribers := subscribers[r := Subscribers(subscribers, r) + {id}];
        lease := lease[r := Version(versions, r)];
        todo := todo - {r};
      }
    }

    /** Records the lease, given the canonical resources it names. */
    method Lease(id: nat, resources: set<Resource>, rs: set<Resource>)
      requires Idempotent(classes) && FreshWatches(history) && id !in leases
      requires Covers(classes, leases, Watches(history)) && Notified(classes, leases, subscribers)
      requires Stamped(classes, leases, versions, tick, Stale(history))
      requires forall c :: c in rs <==> c == Scope || Targets(classes, resources, c)
      modifies this`subscribers, this`leases, this`history
      ensures FreshWatches(history) && history == old(history) + [Watched(id, resources)]
      ensures Covers(classes, leases, Watches(history)) && Notified(classes, leases, subscribers)
      ensures Stamped(classes, leases, versions, tick, Stale(history))
    {
      ghost var subs := subscribers;
      var lease := Stamp(id, rs);
      LeaseTargets(classes, resources, lease.Keys, Scope);
      WatchCovers(classes, history, leases, id, resources, lease);
      WatchNotified(classes, leases, subs, subscribers, id, lease);
      WatchStamped(classes, history, leases, versions, tick, id, resources, lease);
      leases := leases[id := lease];
      history := history + [Watched(id, resources)];
    }

    /** New evidence: stamps the current version of every watched class and table and of the scope. */
    method Watch(id: nat, resources: set<Resource>)
      requires Valid() && id !in leases
      modifies this`subscribers, this`leases, this`history
      ensures Valid() && history == old(history) + [Watched(id, resources)]
    {
      var rs := CanonicalAll(resources);
      ChainsIdempotent(parents, classes);
      HistoryExtends(history, Watched(id, resources));
      Lease(id, resources, rs + {Scope});
    }

    method WatchLocal(id: nat, dependencies: LocalDependencies, instanceTokens: set<nat>)
      requires Valid() && id !in leases
      modifies this`subscribers, this`leases, this`history
      ensures Valid() && history == old(history) + [Watched(id, dependencies.Resources(instanceTokens))]
    {
      Watch(id, dependencies.Resources(instanceTokens));
    }

    /** A lease is reported valid exactly when nothing it watches was touched since. */
    method IsValid(id: nat) returns (b: bool)
      requires Valid()
      ensures b <==> id in leases && id !in Stale(history)
      ensures b <==> exists i :: 0 <= i < |history| && UntouchedSince(history, i, id)
    {
      ValidIffUntouched(history, id);
      if id !in leases { return false; }
      var todo := leases[id].Keys;
      while todo != {}
        invariant todo <= leases[id].Keys
        invariant forall r :: r in leases[id] && r !in todo ==> Version(versions, Canon(classes, r)) == leases[id][r]
        decreases todo
      {
        var r :| r in todo;
        var c := Canonical(r);
        if (if c in versions then versions[c] else 0) != leases[id][r] {
          assert StampAt(classes, leases[id], versions, r);
          assert Outdated(classes, leases[id], versions);
          return false;
        }
        todo := todo - {r};
      }
      assert !Outdated(classes, leases[id], versions);
      b := true;
    }

    /** The listed tokens, by root, and the listed tables. */
    method Listed(e: Change) returns (changed: set<Resource>)
      requires Chains(parents, classes)
      ensures forall v: nat :: Token(v) in changed <==> exists t :: t in e.tokens && v == Rep(classes, t)
      ensures forall t :: Table(t) in changed <==> t in e.tables
      ensures Scope !in changed
    {
      changed := {};
      for i := 0 to |e.tokens|
        invariant forall v: nat :: Token(v) in changed <==> exists t :: t in e.tokens[..i] && v == Rep(classes, t)
        invariant forall r :: r in changed ==> r.Token?
      {
        var root := Root(e.tokens[i]);
        assert e.tokens[..i + 1] == e.tokens[..i] + [e.tokens[i]];
        changed := changed + {Token(root)};
      }
      assert e.tokens[..|e.tokens|] == e.tokens;
      for i := 0 to |e.tables|
        invariant forall v: nat :: Token(v) in changed <==> exists t :: t in e.tokens && v == Rep(classes, t)
        invariant forall t :: Table(t) in changed <==> t in e.tables[..i]
        invariant Scope !in changed
      {
        changed := changed + {Table(e.tables[i])};
      }
    }

    /** One union of an event, marking the root of a class that grew. */
    method UniteOne(link: Link, ghost links: seq<Link>, e: Change, before: set<Resource>, ghost cls0: Classes)
      returns (changed: set<Resource>)
      requires Forest(parents, sizes, classes) && Notified(classes, leases, subscribers)
      requires Generated(classes, links) && Covers(classes, leases, Watches(history))
      requires Marked(cls0, classes, e, before)
      modifies this`parents, this`sizes, this`subscribers, this`classes
      ensures Forest(parents, sizes, classes) && Notified(classes, leases, subscribers)
      ensures Generated(classes, links + [link]) && Covers(classes, leases, Watches(history))
      ensures Marked(cls0, classes, e, changed)
      ensures forall r: Resource :: !r.Token? ==> (r in changed <==> r in before)
    {
      ghost var was := classes;
      var joined, lo, hi := Unite(link.a, link.b);
      changed := if joined then before + {Token(lo)} else before;
      UnionStep(cls0, was, classes, joined, lo, hi, e, before, links, link, leases, Watches(history));
    }

    /** The unions of an event, in order. */
    method UniteAll(e: Change, listed: set<Resource>) returns (changed: set<Resource>)
      requires Forest(parents, sizes, classes) && Notified(classes, leases, subscribers)
      requires Generated(classes, Links(history)) && Covers(classes, leases, Watches(history))
      requires Marked(classes, classes, e, listed)
      modifies this`parents, this`sizes, this`subscribers, this`classes
      ensures Forest(parents, sizes, classes) && Notified(classes, leases, subscribers)
      ensures Generated(classes, Links(history) + e.unions) && Covers(classes, leases, Watches(history))
      ensures Marked(old(classes), classes, e, changed)
      ensures forall r: Resource :: !r.Token? ==> (r in changed <==> r in listed)
    {
      changed := listed;
      ghost var links := Links(history);
      assert links == links + e.unions[..0];
      for i := 0 to |e.unions|
        invariant links == Links(history) + e.unions[..i]
        invariant Forest(parents, sizes, classes) && Notified(classes, leases, subscribers)
        invariant Generated(classes, links) && Covers(classes, leases, Watches(history))
        invariant Marked(old(classes), classes, e, changed)
        invariant forall r: Resource :: !r.Token? ==> (r in changed <==> r in listed)
      {
        changed := UniteOne(e.unions[i], links, e, changed, old(classes));
        links := links + [e.unions[i]];
        assert links == Links(history) + e.unions[..i + 1];
      }
      assert e.unions[..|e.unions|] == e.unions;
    }

    /** Bumps one resource; its subscribers are to be woken. */
    method Bump(r: Resource, ghost done: set<Resource>, ghost before: map<Resource, nat>) returns (ids: set<nat>)
      requires Chains(parents, classes) && Idempotent(classes) && Notified(classes, leases, subscribers)
      requires Bumps(classes, done, before, versions, tick)
      modifies this`versions, this`notifications
      ensures Bumps(classes, done + {r}, before, versions, tick)
      ensures Woken(classes, leases, done + {r}) == Woken(classes, leases, done) + ids
      ensures notifications == old(notifications) + 1
    {
      BumpsStep(classes, done, before, versions, tick, r);
      WokenByOne(classes, leases, subscribers, done, r);
      var c := Canonical(r);
      versions := versions[c := tick];
      notifications := notifications + 1;
      ids := Subscribers(subscribers, c);
    }

    /** Bumps the version of every changed resource and collects the leases to wake. */
    method Publish(changed: set<Resource>) returns (wake: set<nat>)
      requires Chains(parents, classes) && Idempotent(classes) && Notified(classes, leases, subscribers)
      modifies this`versions, this`notifications
      ensures Bumps(classes, changed, old(versions), versions, tick)
      ensures wake == Woken(classes, leases, changed)
      ensures notifications == old(notifications) + |changed|
    {
      wake := {};
      var todo := changed;
      ghost var done: set<Resource> := {};
      while todo != {}
        invariant todo <= changed && done == changed - todo
        invariant Bumps(classes, done, old(versions), versions, tick)
        invariant wake == Woken(classes, leases, done)
        invariant notifications == old(notifications) + |done|
        decreases todo
      {
        var r :| r in todo;
        var ids := Bump(r, done, old(versions));
        wake := wake + ids;
        todo, done := todo - {r}, done + {r};
      }
      assert done == changed;
    }

    /** Everything an event changes in the union-find, with the resources it concerns. */
    method Absorb(e: Change) returns (changed: set<Resource>)
      requires Forest(parents, sizes, classes) && Notified(classes, leases, subscribers)
      requires Generated(classes, Links(history)) && Covers(classes, leases, Watches(history))
      modifies this`parents, this`sizes, this`subscribers, this`classes
      ensures Forest(parents, sizes, classes) && Notified(classes, leases, subscribers) && Idempotent(classes)
      ensures Generated(classes, Links(history) + e.unions) && Covers(classes, leases, Watches(history))
      ensures Collected(old(classes), classes, e, changed)
    {
      var listed := Listed(e);
      ChainsIdempotent(parents, classes);
      MarkedAtStart(classes, e, listed);
      var marked := UniteAll(e, listed);
      ChainsIdempotent(parents, classes);
      CollectedWithScope(old(classes), classes, e, marked);
      changed := if e.reset then marked + {Scope} else marked;
    }

    /**
     * One committed change.  The leases returned are exactly those it touches: each lease that
     * becomes invalid is among them, and each of them is invalid from now on.
     */
    method Apply(e: Change) returns (wake: set<nat>)
      requires Valid()
      modifies this
      ensures Valid() && history == old(history) + [Applied(e)] && leases == old(leases)
      ensures wake == Touched(old(history), e) && Stale(history) == Stale(old(history)) + wake
      ensures tick == old(tick) + 1 && wakes == old(wakes) + |wake|
    {
      var changed := Absorb(e);
      ghost var versions0 := versions;
      tick := tick + 1;
      wake := Publish(changed);
      wakes := wakes + |wake|;
      EventRecorded(history, old(classes), classes, e, changed, leases, versions0, versions, tick - 1);
      history := history + [Applied(e)];
    }
  }

  lemma CollectedWithScope(cls0: Classes, cls: Classes, e: Change, marked: set<Resource>)
    requires Marked(cls0, cls, e, marked)
    requires forall t :: Table(t) in marked <==> t in e.tables
    requires Scope !in marked
    ensures Collected(cls0, cls, e, if e.reset then marked + {Scope} else marked)
  {
    var all := marked + {Scope};
    forall w: nat | Moved(cls0, cls, e, w)
      ensures exists v: nat :: Token(v) in all && Rep(cls, v) == Rep(cls, w)
    {
      var v: nat :| Token(v) in marked && Rep(cls, v) == Rep(cls, w);
      assert Token(v) in all;
    }
  }

  /** The state that publishing an event leaves is sound for the longer history. */
  lemma EventRecorded(h: History, cls0: Classes, cls: Classes, e: Change, changed: set<Resource>, leases: Leases,
                      versions: map<Resource, nat>, versions': map<Resource, nat>, tick: nat)
    requires FreshWatches(h) && Generated(cls0, Links(h)) && Generated(cls, Links(h) + e.unions)
    requires Collected(cls0, cls, e, changed) && Covers(cls, leases, Watches(h))
    requires Stamped(cls0, leases, versions, tick, Stale(h)) && Bumps(cls, changed, versions, versions', tick + 1)
    ensures FreshWatches(h + [Applied(e)]) && Generated(cls, Links(h + [Applied(e)]))
    ensures Covers(cls, leases, Watches(h + [Applied(e)]))
    ensures Stamped(cls, leases, versions', tick + 1, Stale(h + [Applied(e)]))
    ensures Woken(cls, leases, changed) == Touched(h, e)
    ensures Stale(h + [Applied(e)]) == Stale(h) + Touched(h, e)
  {
    HistoryExtends(h, Applied(e));
    FreshAppend(h, Applied(e));
    WokenIsTouched(h, cls0, cls, e, changed, leases);
    StampsAfter(cls0, cls, e, changed, leases, versions, versions', tick, Stale(h));
  }

  lemma UnionStep(cls0: Classes, was: Classes, now: Classes, joined: bool, lo: nat, hi: nat, e: Change, changed: set<Resource>,
                  links: seq<Link>, link: Link, leases: Leases, watches: map<nat, set<Resource>>)
    requires Marked(cls0, was, e, changed) && Generated(was, links) && Covers(was, leases, watches)
    requires joined <==> Rep(was, link.a) != Rep(was, link.b)
    requires !joined ==> now == was
    requires joined ==> lo != hi && Rep(was, lo) == lo && Rep(was, hi) == hi && IsMerge(was, now, lo, hi)
    requires joined ==> {lo, hi} == {Rep(was, link.a), Rep(was, link.b)}
    ensures Marked(cls0, now, e, if joined then changed + {Token(lo)} else changed)
    ensures Generated(now, links + [link]) && Covers(now, leases, watches)
  {
    if joined {
      MergeMarks(cls0, was, now, lo, hi, e, changed);
      MergeGenerated(was, links, link, lo, hi, now);
      MergeCovers(was, now, lo, hi, leases, watches);
    } else {
      RedundantLink(was, links, link);
    }
  }

  /** The lists of the resources in `rs` gained `id`, the others are as before. */
  ghost predicate SubscribedTo(subs: map<Resource, set<nat>>, subs': map<Resource, set<nat>>, rs: set<Resource>, id: nat) {
    && subs'.Keys == subs.Keys + rs
    && forall r :: Subscribers(subs', r) == Subscribers(subs, r) + if r in rs then {id} else {}
  }

  /** A lease on the canonical resources is on its own targets. */
  lemma LeaseTargets(cls: Classes, resources: set<Resource>, keys: set<Resource>, target: Resource)
    requires Idempotent(cls)
    requires forall c :: c in keys <==> c == Scope || Targets(cls, resources, c)
    ensures forall c :: c in keys ==> Canon(cls, c) == c
    ensures Targets(cls, keys, target) <==> target in keys
    ensures Targets(cls, resources + {Scope}, target) <==> target in keys
  {
    forall c | c in keys
      ensures Canon(cls, c) == c
    {
      if c != Scope {
        var r :| r in resources && Canon(cls, r) == c;
      }
    }
    BumpOne(cls, resources, Scope, target);
  }

  lemma WatchCovers(cls: Classes, h: History, leases: Leases, id: nat, resources: set<Resource>, lease: map<Resource, nat>)
    requires FreshWatches(h) && Covers(cls, leases, Watches(h)) && id !in leases && Idempotent(cls)
    requires forall c :: c in lease.Keys <==> c == Scope || Targets(cls, resources, c)
    ensures FreshWatches(h + [Watched(id, resources)])
    ensures Covers(cls, leases[id := lease], Watches(h + [Watched(id, resources)]))
  {
    HistoryExtends(h, Watched(id, resources));
    FreshAppend(h, Watched(id, resources));
    forall target
      ensures SameTarget(cls, lease.Keys, resources + {Scope}, target)
    {
      LeaseTargets(cls, resources, lease.Keys, target);
    }
  }

  lemma WatchNotified(cls: Classes, leases: Leases, subs: map<Resource, set<nat>>, subs': map<Resource, set<nat>>,
                      id: nat, lease: map<Resource, nat>)
    requires Notified(cls, leases, subs) && id !in leases && SubscribedTo(subs, subs', lease.Keys, id)
    requires forall c :: c in lease ==> Canon(cls, c) == c
    ensures Notified(cls, leases[id := lease], subs')
  {
    var leases' := leases[id := lease];
    forall r, i | IsCanonical(cls, r)
      ensures NotifiedAt(cls, leases', subs', r, i)
    {
      assert NotifiedAt(cls, leases, subs, r, i);
      assert Targets(cls, lease.Keys, r) <==> r in lease;
    }
  }

  lemma WatchStamped(cls: Classes, h: History, leases: Leases, versions: map<Resource, nat>, tick: nat,
                     id: nat, resources: set<Resource>, lease: map<Resource, nat>)
    requires Covers(cls, leases, Watches(h)) && Stamped(cls, leases, versions, tick, Stale(h)) && id !in leases
    requires forall c :: c in lease ==> Canon(cls, c) == c && lease[c] == Version(versions, c)
    ensures Stamped(cls, leases[id := lease], versions, tick, Stale(h + [Watched(id, resources)]))
  {
    HistoryExtends(h, Watched(id, resources));
    StaleWasWatched(h);
  }
}
