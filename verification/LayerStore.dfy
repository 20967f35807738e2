/**
 * The layer store of src/coarse_smooth.rs: occurrences of rule applications,
 * their shared definitions, and the coarse and smooth layers they form.
 *
 * `Push` is proved against the dependency graph of LayerGraph and the
 * definitions of LayerNames; `Valid` is what every reachable store keeps.
 */
module LayerStore {
  import opened Collections
  import opened Wrappers
  import opened LayerGraph
  import opened LayerNames

  datatype CoarseLayer = CoarseLayer(members: set<nat>, children: set<nat>, consumer: Option<nat>)
  datatype SmoothLayer = SmoothLayer(coarseLayer: nat, members: seq<nat>)
  datatype Occurrence = Occurrence(apply: Apply, comb: nat, coarseLayer: nat, smoothLayer: Option<nat>, boundaryRestart: bool)

  // ---------- facts that occurrences provide ----------

  function GraphOf(occ: seq<Occurrence>): (g: Graph)
    ensures |g| == |occ| && forall i :: 0 <= i < |occ| ==> g[i] == occ[i].apply.parents
  {
    seq(|occ|, i requires 0 <= i < |occ| => occ[i].apply.parents)
  }

  ghost predicate Rooted(occ: seq<Occurrence>, roots: seq<nat>) {
    Acyclic(GraphOf(occ)) && LayerGraph.Within(roots, |occ|)
  }

  predicate Gives(a: Apply, e: Effect) {
    e in a.produced || e in a.externalFacts
  }

  /** Some root or ancestor of a root produced or imported the effect. */
  ghost predicate ProvidedBy(occ: seq<Occurrence>, roots: seq<nat>, e: Effect)
    requires Rooted(occ, roots)
  {
    exists x: nat :: x < |occ| && Descends(GraphOf(occ), roots, x) && Gives(occ[x].apply, e)
  }

  /** A row fact needs the fact itself, an equality the equivalence closure of all provided equalities. */
  ghost predicate Supported(occ: seq<Occurrence>, roots: seq<nat>, need: Effect)
    requires Rooted(occ, roots)
  {
    match need
    case RowFact(_) => ProvidedBy(occ, roots, need)
    case Equal(a, b) => forall c: nat -> nat :: RespectsProvided(occ, roots, c) ==> c(a) == c(b)
  }

  ghost predicate RespectsProvided(occ: seq<Occurrence>, roots: seq<nat>, c: nat -> nat)
    requires Rooted(occ, roots)
  {
    forall u, v {:trigger Equal(u, v)} :: ProvidedBy(occ, roots, Equal(u, v)) ==> c(u) == c(v)
  }

  method Provides(occ: seq<Occurrence>, roots: seq<nat>) returns (effects: set<Effect>)
    requires Rooted(occ, roots)
    ensures forall e :: e in effects <==> ProvidedBy(occ, roots, e)
  {
    var seen := Collect(GraphOf(occ), roots);
    effects := set x, e | x in seen && x < |occ| && e in occ[x].apply.produced + occ[x].apply.externalFacts :: e;
    forall e ensures e in effects <==> ProvidedBy(occ, roots, e) {
      if ProvidedBy(occ, roots, e) {
        var x: nat :| x < |occ| && Descends(GraphOf(occ), roots, x) && Gives(occ[x].apply, e);
        assert x in seen && e in occ[x].apply.produced + occ[x].apply.externalFacts;
      }
    }
  }

  /** Row facts by ancestry, equalities by the closure of all ancestors' equalities. */
  method Supports(occ: seq<Occurrence>, roots: seq<nat>, need: Effect) returns (r: bool)
    requires Rooted(occ, roots)
    ensures r <==> Supported(occ, roots, need)
  {
    var effects := Provides(occ, roots);
    match need
    case RowFact(_) => r := need in effects;
    case Equal(a, b) =>
      r := Connected(effects, a, b);
      forall c: nat -> nat ensures Constant(effects, c) <==> RespectsProvided(occ, roots, c) {
        assert forall u, v :: Equal(u, v) in effects <==> ProvidedBy(occ, roots, Equal(u, v));
      }
  }

  // ---------- layers that hang together ----------

  type Tokens = map<nat, set<nat>>

  /** Some layers share no token with the others. */
  ghost predicate FallsApart(tokens: Tokens) {
    exists part: set<nat> :: Splits(tokens, part)
  }

  ghost predicate Splits(tokens: Tokens, part: set<nat>) {
    && {} < part < tokens.Keys
    && forall a, b :: a in part && b in tokens.Keys - part ==> tokens[a] !! tokens[b]
  }

  /** Layers reached from the first through shared tokens. */
  ghost predicate Spread(tokens: Tokens, seen: set<nat>, todo: set<nat>) {
    && todo <= seen <= tokens.Keys
    && (forall a, b :: a in seen && a !in todo && b in tokens.Keys && b !in seen ==> tokens[a] !! tokens[b])
    && forall part: set<nat> {:trigger Splits(tokens, part)} :: Splits(tokens, part) ==> seen <= part || seen !! part
  }

  lemma SpreadMore(tokens: Tokens, seen: set<nat>, todo: set<nat>, x: nat, next: set<nat>)
    requires Spread(tokens, seen, todo) && x in todo
    requires next == set b | b in tokens.Keys && b !in seen && !(tokens[x] !! tokens[b])
    ensures Spread(tokens, seen + next, (todo - {x}) + next)
  {
    var left := (todo - {x}) + next;
    forall a, b | a in seen + next && a !in left && b in tokens.Keys && b !in seen + next ensures tokens[a] !! tokens[b] {
      if a == x {
        assert b !in next;
        assert tokens[x] !! tokens[b];
      } else {
        assert a in seen && a !in todo && b !in seen;
        assert tokens[a] !! tokens[b];
      }
    }
    forall part: set<nat> | Splits(tokens, part) ensures seen + next <= part || (seen + next) !! part {
      assert seen <= part || seen !! part;
      forall b | b in next ensures b in part <==> x in part {
        assert !(tokens[x] !! tokens[b]);
      }
    }
  }

  /** The search over shared tokens: do the layers fall apart? */
  method Disjoint(tokens: Tokens) returns (r: bool)
    ensures r <==> FallsApart(tokens)
  {
    if tokens.Keys == {} {
      assert forall part: set<nat> :: !Splits(tokens, part);
      return false;
    }
    var first :| first in tokens.Keys;
    var seen, todo := {first}, {first};
    assert Spread(tokens, seen, todo);
    while todo != {}
      invariant Spread(tokens, seen, todo) && first in seen
      decreases |tokens.Keys| - |seen|, |todo|
    {
      var x :| x in todo;
      var next := set b | b in tokens.Keys && b !in seen && !(tokens[x] !! tokens[b]);
      SpreadMore(tokens, seen, todo, x, next);
      Subset(seen + next, tokens.Keys);
      assert next == {} ==> (todo - {x}) + next == todo - {x};
      seen, todo := seen + next, (todo - {x}) + next;
    }
    r := seen != tokens.Keys;
    if r {
      assert Splits(tokens, seen);
    } else {
      forall part: set<nat> ensures !Splits(tokens, part) {
        assert Splits(tokens, part) ==> seen <= part || seen !! part;
      }
    }
  }

  // ---------- interning ----------

  ghost predicate Interned<T>(items: seq<T>, index: map<T, nat>) {
    && (forall k :: k in index ==> index[k] < |items| && items[index[k]] == k)
    && forall i {:trigger items[i]} :: 0 <= i < |items| ==> items[i] in index && index[items[i]] == i
  }

  method Intern<T(==)>(items: seq<T>, index: map<T, nat>, key: T) returns (items': seq<T>, index': map<T, nat>, i: nat)
    requires Interned(items, index)
    ensures Interned(items', index') && items <= items' && i < |items'| && items'[i] == key
    ensures |items'| <= |items| + 1
  {
    if key in index { return items, index, index[key]; }
    i := |items|;
    items', index' := items + [key], index[key := i];
    forall j | 0 <= j < |items'| ensures items'[j] in index' && index'[items'[j]] == j {
      if j < |items| { assert items'[j] == items[j]; }
    }
  }

  // ---------- stores ----------

  datatype Store = Store(combs: seq<Comb>, occurrences: seq<Occurrence>, coarseLayers: seq<CoarseLayer>, smoothLayers: seq<SmoothLayer>,
                         combIndex: map<Comb, nat>, coarseIndex: map<set<nat>, nat>, smoothIndex: map<nat, nat>, events: map<nat, nat>)

  function MembersOf(layers: seq<CoarseLayer>): (r: seq<set<nat>>)
    ensures |r| == |layers| && forall i :: 0 <= i < |layers| ==> r[i] == layers[i].members
  {
    seq(|layers|, i requires 0 <= i < |layers| => layers[i].members)
  }

  /** Identifiers refer to what exists. */
  ghost predicate Linked(s: Store) {
    && Acyclic(GraphOf(s.occurrences))
    && (forall i {:trigger s.occurrences[i]} :: 0 <= i < |s.occurrences| ==>
          s.occurrences[i].comb < |s.combs| && s.occurrences[i].coarseLayer < |s.coarseLayers|)
    && forall l {:trigger s.coarseLayers[l]} :: 0 <= l < |s.coarseLayers| ==>
         forall m :: m in s.coarseLayers[l].members ==> m < |s.occurrences|
  }

  ghost predicate Indexed(s: Store) {
    && Interned(s.combs, s.combIndex) && Interned(MembersOf(s.coarseLayers), s.coarseIndex)
    && (forall e :: e in s.events ==> s.events[e] < |s.occurrences| && s.occurrences[s.events[e]].apply.event == e)
    && forall i {:trigger s.occurrences[i]} :: 0 <= i < |s.occurrences| ==>
         s.occurrences[i].apply.event in s.events && s.events[s.occurrences[i].apply.event] == i
  }

  /** Smooth layers list the smooth occurrences of one coarse layer each. */
  ghost predicate Smooth(s: Store) {
    && (forall c :: c in s.smoothIndex ==> s.smoothIndex[c] < |s.smoothLayers| && s.smoothLayers[s.smoothIndex[c]].coarseLayer == c)
    && (forall l {:trigger s.smoothLayers[l]} :: 0 <= l < |s.smoothLayers| ==>
          && s.smoothLayers[l].coarseLayer in s.smoothIndex && s.smoothIndex[s.smoothLayers[l].coarseLayer] == l
          && Distinct(s.smoothLayers[l].members))
    && (forall i: nat, l: nat {:trigger Lists(s, l, i)} :: Lists(s, l, i) <==> i < |s.occurrences| && s.occurrences[i].smoothLayer == Some(l))
    && forall i: nat, l: nat {:trigger Lists(s, l, i)} :: Lists(s, l, i) ==> s.occurrences[i].coarseLayer == s.smoothLayers[l].coarseLayer
  }

  predicate Lists(s: Store, l: nat, i: nat) {
    l < |s.smoothLayers| && i in s.smoothLayers[l].members
  }

  /** Occurrences that supply something from outside, or have no parents. */
  predicate Initial(a: Apply) {
    a.parents == [] || a.externalFacts != [] || exists k :: 0 <= k < |a.binding| && a.binding[k].External?
  }

  ghost predicate ParentsKnown(s: Store, a: Apply) {
    Linked(s) && forall p :: p in a.parents ==> p < |s.occurrences|
  }

  /** The coarse members that the parents rest on. */
  function Support(s: Store, a: Apply): (r: set<nat>)
    requires ParentsKnown(s, a)
  {
    set p, m | p in a.parents && p < |s.occurrences| && m in s.coarseLayers[s.occurrences[p].coarseLayer].members :: m
  }

  function ChildLayers(s: Store, a: Apply): set<nat>
    requires ParentsKnown(s, a)
  {
    set p | p in a.parents && p < |s.occurrences| :: s.occurrences[p].coarseLayer
  }

  function LayerTokens(s: Store, l: nat): set<nat>
    requires Linked(s) && l < |s.coarseLayers|
  {
    set m, v | m in s.coarseLayers[l].members && m < |s.occurrences| &&
               v in s.occurrences[m].apply.wanted + s.occurrences[m].apply.outputs :: v
  }

  function TokensOf(s: Store, a: Apply): Tokens
    requires ParentsKnown(s, a)
  {
    map l | l in ChildLayers(s, a) && l < |s.coarseLayers| :: LayerTokens(s, l)
  }

  function LayerOf(s: Store, a: Apply, k: nat): (l: nat)
    requires ParentsKnown(s, a) && k < |a.parents|
    ensures l < |s.coarseLayers|
  {
    assert a.parents[k] in a.parents;
    s.occurrences[a.parents[k]].coarseLayer
  }

  lemma ParentLayers(s: Store, a: Apply, layers: seq<nat>)
    requires ParentsKnown(s, a) && |layers| == |a.parents|
    requires forall k :: 0 <= k < |layers| ==> layers[k] == LayerOf(s, a, k) && layers[k] < |s.coarseLayers|
    ensures ChildLayers(s, a) == set j | 0 <= j < |layers| :: layers[j]
    ensures Support(s, a) == set j, m | 0 <= j < |layers| && m in s.coarseLayers[layers[j]].members :: m
  {
    forall p | p in a.parents ensures exists k: nat :: k < |a.parents| && a.parents[k] == p && layers[k] == s.occurrences[p].coarseLayer {
      var k: nat :| k < |a.parents| && a.parents[k] == p;
      assert layers[k] == s.occurrences[p].coarseLayer;
    }
    forall k | 0 <= k < |a.parents| ensures a.parents[k] in a.parents && layers[k] == s.occurrences[a.parents[k]].coarseLayer {}
  }

  lemma SupportBounded(s: Store, a: Apply)
    requires ParentsKnown(s, a)
    ensures forall m :: m in Support(s, a) ==> m < |s.occurrences|
    ensures forall l :: l in ChildLayers(s, a) ==> l < |s.coarseLayers|
  {
  }

  /** The join of the parents' supports would leave a dependency loop through the outside. */
  ghost predicate Restarting(s: Store, a: Apply)
    requires ParentsKnown(s, a)
  {
    SupportBounded(s, a);
    !Initial(a) && !Convex(GraphOf(s.occurrences), Support(s, a))
  }

  /** An application that starts a new coarse interface. */
  ghost predicate IsCoarse(s: Store, a: Apply)
    requires ParentsKnown(s, a)
  {
    Initial(a) || Restarting(s, a) || FallsApart(TokensOf(s, a))
  }

  // ---------- which applications are admitted ----------

  predicate BindingFits(s: Store, a: Apply, k: nat)
    requires k < |a.binding| && k < |a.wanted|
  {
    match a.binding[k]
    case ParentPort(p, o) =>
      && p < |a.parents| && a.parents[p] < |s.occurrences| && o < |s.occurrences[a.parents[p]].apply.outputs|
      && s.occurrences[a.parents[p]].apply.outputs[o] == a.wanted[k]
    case External(slot) => slot < |a.external| && a.external[slot] == a.wanted[k]
  }

  predicate Shaped(s: Store, a: Apply) {
    && a.event !in s.events && Distinct(a.parents) && (forall k :: 0 <= k < |a.parents| ==> a.parents[k] < |s.occurrences|)
    && |a.inputRoles| == |a.wanted| && |a.outputRoles| == |a.outputs| && |a.binding| == |a.wanted|
    && forall k: nat {:trigger BindingFits(s, a, k)} :: k < |a.binding| ==> BindingFits(s, a, k)
  }

  /** The binding names the wanted token: an output of the parent in that position, or an external value. */
  ghost predicate Resolves(s: Store, a: Apply, b: Binding, token: nat) {
    && (b.ParentPort? ==>
          && b.parent < |a.parents| && a.parents[b.parent] < |s.occurrences|
          && b.output < |s.occurrences[a.parents[b.parent]].apply.outputs|
          && s.occurrences[a.parents[b.parent]].apply.outputs[b.output] == token)
    && (b.External? ==> b.slot < |a.external| && a.external[b.slot] == token)
  }

  /** A new event with distinct earlier parents, one role and one resolved binding for each value, and supported requirements. */
  ghost predicate Admissible(s: Store, a: Apply)
    requires Linked(s)
  {
    && (forall i :: 0 <= i < |s.occurrences| ==> s.occurrences[i].apply.event != a.event)
    && (forall j, k :: 0 <= j < k < |a.parents| ==> a.parents[j] != a.parents[k])
    && (forall p :: p in a.parents ==> p < |s.occurrences|)
    && |a.inputRoles| == |a.wanted| && |a.outputRoles| == |a.outputs| && |a.binding| == |a.wanted|
    && (forall k :: 0 <= k < |a.binding| ==> Resolves(s, a, a.binding[k], a.wanted[k]))
    && forall n :: n in a.required ==> n in a.externalFacts || Supported(s.occurrences, a.parents, n)
  }

  /** The checks of `Refuses` decide admissibility. */
  lemma ShapedIsAdmissible(s: Store, a: Apply)
    requires Valid(s)
    ensures Admissible(s, a) ==> Shaped(s, a) && ParentsKnown(s, a)
    ensures Shaped(s, a) ==> ParentsKnown(s, a)
    ensures Shaped(s, a) && (forall n :: n in a.required ==> n in a.externalFacts || Supported(s.occurrences, a.parents, n)) ==> Admissible(s, a)
  {
    NewEvent(s, a);
    if Shaped(s, a) {
      forall k: nat | k < |a.binding| ensures Resolves(s, a, a.binding[k], a.wanted[k]) { assert BindingFits(s, a, k); }
    }
    if Admissible(s, a) {
      forall k | 0 <= k < |a.parents| ensures a.parents[k] < |s.occurrences| { assert a.parents[k] in a.parents; }
      forall k: nat | k < |a.binding| ensures BindingFits(s, a, k) { assert Resolves(s, a, a.binding[k], a.wanted[k]); }
    }
  }

  lemma NewEvent(s: Store, a: Apply)
    requires Valid(s)
    ensures a.event in s.events <==> exists i :: 0 <= i < |s.occurrences| && s.occurrences[i].apply.event == a.event
  {
  }

  // ---------- what every reachable store keeps ----------

  /** What the store says about occurrence `i` in terms of earlier ones. */
  ghost predicate Justified(s: Store, i: nat)
    requires Linked(s) && i < |s.occurrences|
  {
    var o := s.occurrences[i];
    && ParentsKnown(s, o.apply)
    && (o.boundaryRestart <==> Restarting(s, o.apply))
    && (o.smoothLayer.None? <==> IsCoarse(s, o.apply))
    && s.coarseLayers[o.coarseLayer].members == (if o.smoothLayer.None? then {i} else Support(s, o.apply))
    && BoundParents(o.apply) && s.combs[o.comb] == Normalize(o.apply, CombsOf(s, o.apply), o.smoothLayer.None?)
    && forall n :: n in o.apply.required ==> n in o.apply.externalFacts || Supported(s.occurrences, o.apply.parents, n)
  }

  function CombsOf(s: Store, a: Apply): (r: seq<nat>)
    requires ParentsKnown(s, a)
    ensures |r| == |a.parents|
  {
    seq(|a.parents|, k requires 0 <= k < |a.parents| => CombOf(s, a.parents[k]))
  }

  function CombOf(s: Store, p: nat): nat {
    if p < |s.occurrences| then s.occurrences[p].comb else 0
  }

  ghost predicate Valid(s: Store) {
    && Linked(s) && Indexed(s) && Smooth(s)
    && forall i: nat {:trigger Justified(s, i)} :: i < |s.occurrences| ==> Justified(s, i)
  }

  // ---------- what a record says in plain terms ----------

  /** `m` is in the coarse layer of a parent. */
  ghost predicate Rests(s: Store, a: Apply, m: nat) {
    exists p :: && p in a.parents && p < |s.occurrences| && s.occurrences[p].coarseLayer < |s.coarseLayers|
                && m in s.coarseLayers[s.occurrences[p].coarseLayer].members
  }

  /** Nothing comes from outside: there are parents, all bindings are parent ports and no fact is imported. */
  ghost predicate FromParents(a: Apply) {
    a.parents != [] && a.externalFacts == [] && forall k :: 0 <= k < |a.binding| ==> a.binding[k].ParentPort?
  }

  /** No occurrence outside the parents' layers lies between two members of them. */
  ghost predicate NoGap(s: Store, a: Apply)
    requires Linked(s)
  {
    var g := GraphOf(s.occurrences);
    forall m: nat, x: nat, y: nat ::
      (m < |g| && Rests(s, a, m) && x in Ancestors(g, m) && y in Ancestors(g, x) && Rests(s, a, y)) ==> Rests(s, a, x)
  }

  ghost predicate UnderParent(s: Store, a: Apply, l: nat) {
    exists p :: p in a.parents && p < |s.occurrences| && s.occurrences[p].coarseLayer == l
  }

  /** A member of the layer wants or puts out the token. */
  ghost predicate TokenOf(s: Store, l: nat, v: nat) {
    && l < |s.coarseLayers|
    && exists m :: m in s.coarseLayers[l].members && m < |s.occurrences| &&
         (v in s.occurrences[m].apply.wanted || v in s.occurrences[m].apply.outputs)
  }

  ghost predicate Meeting(s: Store, l: nat, k: nat) {
    exists v :: TokenOf(s, l, v) && TokenOf(s, k, v)
  }

  /** However the parents' layers are divided in two, some token occurs on both sides. */
  ghost predicate HangTogether(s: Store, a: Apply) {
    forall part: set<nat> :: !Unmet(s, a, part)
  }

  /** The layers inside and outside `part` have no token in common, and there are some of both. */
  ghost predicate Unmet(s: Store, a: Apply, part: set<nat>) {
    && (exists l :: UnderParent(s, a, l) && l in part) && (exists k :: UnderParent(s, a, k) && k !in part)
    && forall l, k :: UnderParent(s, a, l) && l in part && UnderParent(s, a, k) && k !in part ==> !Meeting(s, l, k)
  }

  /**
   * An occurrence is smooth exactly if everything comes from its parents and their layers are convex and
   * hang together; it then rests on their members, and otherwise is a layer of its own.
   */
  ghost predicate Plain(s: Store, i: nat)
    requires Linked(s) && i < |s.occurrences|
  {
    var o := s.occurrences[i];
    && (o.smoothLayer.Some? <==> FromParents(o.apply) && NoGap(s, o.apply) && HangTogether(s, o.apply))
    && (o.boundaryRestart <==> FromParents(o.apply) && !NoGap(s, o.apply))
    && (forall m: nat :: m in s.coarseLayers[o.coarseLayer].members <==> if o.smoothLayer.None? then m == i else Rests(s, o.apply, m))
    && s.combs[o.comb].coarse == o.smoothLayer.None?
  }

  lemma RestsIsSupport(s: Store, a: Apply)
    requires ParentsKnown(s, a)
    ensures forall m: nat :: m in Support(s, a) <==> Rests(s, a, m)
    ensures forall l: nat :: l in ChildLayers(s, a) <==> UnderParent(s, a, l)
  {
  }

  lemma NoGapIsConvex(s: Store, a: Apply)
    requires ParentsKnown(s, a)
    ensures forall m :: m in Support(s, a) ==> m < |s.occurrences|
    ensures NoGap(s, a) <==> Convex(GraphOf(s.occurrences), Support(s, a))
  {
    RestsIsSupport(s, a);
    SupportBounded(s, a);
  }

  lemma TokensMeet(s: Store, a: Apply, l: nat, k: nat)
    requires ParentsKnown(s, a) && l in TokensOf(s, a) && k in TokensOf(s, a)
    ensures Meeting(s, l, k) <==> !(TokensOf(s, a)[l] !! TokensOf(s, a)[k])
  {
    LayerTokensAre(s, l);
    LayerTokensAre(s, k);
    if v :| v in LayerTokens(s, l) && v in LayerTokens(s, k) { assert TokenOf(s, l, v) && TokenOf(s, k, v); }
  }

  lemma LayerTokensAre(s: Store, l: nat)
    requires Linked(s) && l < |s.coarseLayers|
    ensures forall v: nat :: v in LayerTokens(s, l) <==> TokenOf(s, l, v)
  {
    forall v: nat | TokenOf(s, l, v) ensures v in LayerTokens(s, l) {
      var m :| m in s.coarseLayers[l].members && m < |s.occurrences| &&
        (v in s.occurrences[m].apply.wanted || v in s.occurrences[m].apply.outputs);
      assert v in s.occurrences[m].apply.wanted + s.occurrences[m].apply.outputs;
    }
  }

  lemma HangTogetherIsWhole(s: Store, a: Apply)
    requires ParentsKnown(s, a)
    ensures HangTogether(s, a) <==> !FallsApart(TokensOf(s, a))
  {
    var tokens := TokensOf(s, a);
    RestsIsSupport(s, a);
    SupportBounded(s, a);
    assert tokens.Keys == ChildLayers(s, a);
    forall l, k | l in tokens && k in tokens ensures Meeting(s, l, k) <==> !(tokens[l] !! tokens[k]) { TokensMeet(s, a, l, k); }
    if FallsApart(tokens) {
      var part: set<nat> :| Splits(tokens, part);
      SplitUnmet(s, a, part);
    }
    if part: set<nat> :| Unmet(s, a, part) {
      UnmetSplits(s, a, part);
    }
  }

  lemma SplitUnmet(s: Store, a: Apply, part: set<nat>)
    requires ParentsKnown(s, a) && Splits(TokensOf(s, a), part)
    requires forall l: nat :: l in TokensOf(s, a) <==> UnderParent(s, a, l)
    requires forall l, k :: l in TokensOf(s, a) && k in TokensOf(s, a) ==> (Meeting(s, l, k) <==> !(TokensOf(s, a)[l] !! TokensOf(s, a)[k]))
    ensures Unmet(s, a, part)
  {
    var l :| l in part;
    var k :| k in TokensOf(s, a).Keys - part;
    assert UnderParent(s, a, l) && UnderParent(s, a, k);
  }

  lemma UnmetSplits(s: Store, a: Apply, part: set<nat>)
    requires ParentsKnown(s, a) && Unmet(s, a, part)
    requires forall l: nat :: l in TokensOf(s, a) <==> UnderParent(s, a, l)
    requires forall l, k :: l in TokensOf(s, a) && k in TokensOf(s, a) ==> (Meeting(s, l, k) <==> !(TokensOf(s, a)[l] !! TokensOf(s, a)[k]))
    ensures FallsApart(TokensOf(s, a))
  {
    var tokens := TokensOf(s, a);
    var own := part * tokens.Keys;
    var l :| UnderParent(s, a, l) && l in part;
    var k :| UnderParent(s, a, k) && k !in part;
    assert l in own && k in tokens.Keys - own;
    forall x, y | x in own && y in tokens.Keys - own ensures tokens[x] !! tokens[y] {
      assert UnderParent(s, a, x) && UnderParent(s, a, y) && !Meeting(s, x, y);
    }
    assert Splits(tokens, own);
  }

  /** Every record of a valid store is as plain terms say. */
  lemma InPlainTerms(s: Store, i: nat)
    requires Valid(s) && i < |s.occurrences|
    ensures Plain(s, i)
  {
    assert Justified(s, i);
    PlainRole(s, i);
    PlainMembers(s, i);
  }

  lemma PlainRole(s: Store, i: nat)
    requires Linked(s) && i < |s.occurrences| && Justified(s, i)
    ensures var o := s.occurrences[i];
            && (o.smoothLayer.Some? <==> FromParents(o.apply) && NoGap(s, o.apply) && HangTogether(s, o.apply))
            && (o.boundaryRestart <==> FromParents(o.apply) && !NoGap(s, o.apply))
  {
    var o := s.occurrences[i];
    NoGapIsConvex(s, o.apply);
    HangTogetherIsWhole(s, o.apply);
    assert FromParents(o.apply) <==> !Initial(o.apply);
  }

  lemma PlainMembers(s: Store, i: nat)
    requires Linked(s) && i < |s.occurrences| && Justified(s, i)
    ensures var o := s.occurrences[i];
            && (forall m: nat :: m in s.coarseLayers[o.coarseLayer].members <==> if o.smoothLayer.None? then m == i else Rests(s, o.apply, m))
            && s.combs[o.comb].coarse == o.smoothLayer.None?
  {
    RestsIsSupport(s, s.occurrences[i].apply);
  }

  /** Every smooth occurrence rests on a convex coarse layer. */
  lemma SmoothIsConvex(s: Store, i: nat)
    requires Valid(s) && i < |s.occurrences| && s.occurrences[i].smoothLayer.Some?
    ensures forall m :: m in s.coarseLayers[s.occurrences[i].coarseLayer].members ==> m < |s.occurrences|
    ensures Convex(GraphOf(s.occurrences), s.coarseLayers[s.occurrences[i].coarseLayer].members)
  {
    assert Justified(s, i);
  }

  /** Two occurrences share a definition exactly when both have the same role and are equivalent. */
  lemma SharedDefinition(s: Store, i: nat, j: nat)
    requires Valid(s) && i < |s.occurrences| && j < |s.occurrences|
    ensures ParentsKnown(s, s.occurrences[i].apply) && ParentsKnown(s, s.occurrences[j].apply)
    ensures s.occurrences[i].comb == s.occurrences[j].comb <==>
              (s.occurrences[i].smoothLayer.None? <==> s.occurrences[j].smoothLayer.None?) &&
              Equivalent(s.occurrences[i].apply, s.occurrences[j].apply,
                         CombsOf(s, s.occurrences[i].apply), CombsOf(s, s.occurrences[j].apply))
  {
    var a, b := s.occurrences[i], s.occurrences[j];
    assert Justified(s, i) && Justified(s, j);
    var x, y := CombsOf(s, a.apply), CombsOf(s, b.apply);
    SameDefinition(a.apply, b.apply, x, y, a.smoothLayer.None?);
    assert s.combs[a.comb] == s.combs[b.comb] <==> a.comb == b.comb;
    assert Normalize(a.apply, x, a.smoothLayer.None?).coarse == a.smoothLayer.None?;
    assert Normalize(b.apply, y, b.smoothLayer.None?).coarse == b.smoothLayer.None?;
  }

  // ---------- growing a store ----------

  /** One more occurrence; definitions and coarse layers are only added. */
  ghost predicate Extends(s: Store, t: Store, o: Occurrence) {
    && Linked(s) && t.occurrences == s.occurrences + [o] && (forall p :: p in o.apply.parents ==> p < |s.occurrences|)
    && s.combs <= t.combs && s.coarseLayers <= t.coarseLayers
    && o.comb < |t.combs| && o.coarseLayer < |t.coarseLayers|
    && forall l {:trigger t.coarseLayers[l]} :: |s.coarseLayers| <= l < |t.coarseLayers| ==>
         forall m :: m in t.coarseLayers[l].members ==> m < |t.occurrences|
  }

  lemma ExtendsLinked(s: Store, t: Store, o: Occurrence)
    requires Extends(s, t, o)
    ensures Linked(t) && GraphOf(t.occurrences) == GraphOf(s.occurrences) + [o.apply.parents]
  {
    var g, h := GraphOf(s.occurrences), GraphOf(t.occurrences);
    assert h == g + [o.apply.parents];
    forall i, p | 0 <= i < |h| && p in h[i] ensures p < i { assert i < |g| ==> h[i] == g[i]; }
    forall i | 0 <= i < |t.occurrences| ensures t.occurrences[i].comb < |t.combs| && t.occurrences[i].coarseLayer < |t.coarseLayers| {
      if i < |s.occurrences| { assert t.occurrences[i] == s.occurrences[i]; }
    }
    forall l | 0 <= l < |t.coarseLayers| ensures forall m :: m in t.coarseLayers[l].members ==> m < |t.occurrences| {
      if l < |s.coarseLayers| { assert t.coarseLayers[l] == s.coarseLayers[l]; }
    }
  }

  lemma OldAncestors(s: Store, t: Store, o: Occurrence, i: nat)
    requires Extends(s, t, o) && Linked(t) && i < |s.occurrences|
    ensures Ancestors(GraphOf(t.occurrences), i) == Ancestors(GraphOf(s.occurrences), i)
  {
    ExtendsLinked(s, t, o);
    AncestorsStay(GraphOf(s.occurrences), o.apply.parents, i);
  }

  lemma OldConvex(s: Store, t: Store, o: Occurrence, members: set<nat>)
    requires Extends(s, t, o) && Linked(t) && forall m :: m in members ==> m < |s.occurrences|
    ensures Convex(GraphOf(t.occurrences), members) <==> Convex(GraphOf(s.occurrences), members)
  {
    var g, h := GraphOf(s.occurrences), GraphOf(t.occurrences);
    forall m: nat | m < |g| ensures Ancestors(h, m) == Ancestors(g, m) { OldAncestors(s, t, o, m); }
    forall m, x | m in members && x in Ancestors(g, m) ensures x < |g| {}
  }

  lemma OldSupport(s: Store, t: Store, o: Occurrence, a: Apply)
    requires Extends(s, t, o) && Linked(t) && ParentsKnown(s, a)
    ensures ParentsKnown(t, a) && Support(t, a) == Support(s, a)
  {
    forall p | p in a.parents ensures t.occurrences[p] == s.occurrences[p] {}
    forall p | p in a.parents ensures t.coarseLayers[t.occurrences[p].coarseLayer] == s.coarseLayers[s.occurrences[p].coarseLayer] {}
  }

  lemma OldTokens(s: Store, t: Store, o: Occurrence, a: Apply)
    requires Extends(s, t, o) && Linked(t) && ParentsKnown(s, a) && ParentsKnown(t, a)
    ensures TokensOf(t, a) == TokensOf(s, a)
  {
    forall p | p in a.parents ensures t.occurrences[p] == s.occurrences[p] {}
    assert ChildLayers(t, a) == ChildLayers(s, a);
    forall l | l in ChildLayers(s, a) && l < |s.coarseLayers| ensures LayerTokens(t, l) == LayerTokens(s, l) {
      assert t.coarseLayers[l] == s.coarseLayers[l];
      forall m | m in s.coarseLayers[l].members ensures m < |s.occurrences| && t.occurrences[m] == s.occurrences[m] {}
    }
    SupportBounded(s, a);
    SupportBounded(t, a);
  }

  lemma OldCombs(s: Store, t: Store, o: Occurrence, a: Apply)
    requires Extends(s, t, o) && Linked(t) && ParentsKnown(s, a) && ParentsKnown(t, a)
    ensures CombsOf(t, a) == CombsOf(s, a)
  {
    forall k | 0 <= k < |a.parents| ensures CombOf(t, a.parents[k]) == CombOf(s, a.parents[k]) {
      assert a.parents[k] in a.parents;
    }
  }

  lemma OldProvided(s: Store, t: Store, o: Occurrence, roots: seq<nat>, e: Effect)
    requires Extends(s, t, o) && Linked(t) && LayerGraph.Within(roots, |s.occurrences|)
    ensures ProvidedBy(t.occurrences, roots, e) <==> ProvidedBy(s.occurrences, roots, e)
  {
    var g, h := GraphOf(s.occurrences), GraphOf(t.occurrences);
    forall x: nat ensures Descends(h, roots, x) <==> Descends(g, roots, x) {
      forall r | r in roots ensures Ancestors(h, r) == Ancestors(g, r) { OldAncestors(s, t, o, r); }
    }
    if ProvidedBy(t.occurrences, roots, e) {
      var x: nat :| x < |t.occurrences| && Descends(h, roots, x) && Gives(t.occurrences[x].apply, e);
      ParentsDescend(g, roots, x);
      assert t.occurrences[x] == s.occurrences[x];
    }
    if ProvidedBy(s.occurrences, roots, e) {
      var x: nat :| x < |s.occurrences| && Descends(g, roots, x) && Gives(s.occurrences[x].apply, e);
      assert t.occurrences[x] == s.occurrences[x];
    }
  }

  lemma OldSupported(s: Store, t: Store, o: Occurrence, roots: seq<nat>, need: Effect)
    requires Extends(s, t, o) && Linked(t) && LayerGraph.Within(roots, |s.occurrences|)
    ensures Supported(t.occurrences, roots, need) <==> Supported(s.occurrences, roots, need)
  {
    forall e ensures ProvidedBy(t.occurrences, roots, e) <==> ProvidedBy(s.occurrences, roots, e) { OldProvided(s, t, o, roots, e); }
    forall c: nat -> nat ensures RespectsProvided(t.occurrences, roots, c) <==> RespectsProvided(s.occurrences, roots, c) {}
  }

  lemma OldCoarse(s: Store, t: Store, o: Occurrence, a: Apply)
    requires Extends(s, t, o) && Linked(t) && ParentsKnown(s, a) && ParentsKnown(t, a)
    ensures (Restarting(t, a) <==> Restarting(s, a)) && (IsCoarse(t, a) <==> IsCoarse(s, a))
  {
    OldSupport(s, t, o, a);
    SupportBounded(s, a);
    OldConvex(s, t, o, Support(s, a));
    OldTokens(s, t, o, a);
  }

  /** What the store says about old occurrences stays true. */
  lemma OldJustified(s: Store, t: Store, o: Occurrence, i: nat)
    requires Extends(s, t, o) && Linked(t) && i < |s.occurrences| && Justified(s, i)
    ensures Justified(t, i)
  {
    var a := s.occurrences[i].apply;
    assert t.occurrences[i] == s.occurrences[i];
    OldSupport(s, t, o, a);
    OldCoarse(s, t, o, a);
    OldCombs(s, t, o, a);
    forall n | n in a.required ensures Supported(t.occurrences, a.parents, n) <==> Supported(s.occurrences, a.parents, n) {
      OldSupported(s, t, o, a.parents, n);
    }
    assert t.coarseLayers[s.occurrences[i].coarseLayer] == s.coarseLayers[s.occurrences[i].coarseLayer];
    assert t.combs[s.occurrences[i].comb] == s.combs[s.occurrences[i].comb];
  }

  // ---------- recording an application ----------

  ghost predicate Enters(s: Store, t: Store, id: nat, o: Occurrence) {
    RoleEntered(s.smoothLayers, s.smoothIndex, t.smoothLayers, t.smoothIndex, o.coarseLayer, o.smoothLayer, id)
  }

  ghost predicate RoleEntered(before: seq<SmoothLayer>, index: map<nat, nat>, after: seq<SmoothLayer>, afterIndex: map<nat, nat>,
                              coarseLayer: nat, smoothLayer: Option<nat>, id: nat)
  {
    match smoothLayer
    case None => after == before && afterIndex == index
    case Some(l) =>
      if coarseLayer in index then
        && l == index[coarseLayer] && l < |before| && afterIndex == index
        && after == before[l := SmoothLayer(coarseLayer, before[l].members + [id])]
      else
        && l == |before| && afterIndex == index[coarseLayer := l]
        && after == before + [SmoothLayer(coarseLayer, [id])]
  }

  /** The record of `a` in the new store. */
  ghost predicate Records(s: Store, t: Store, a: Apply, o: Occurrence)
    requires ParentsKnown(s, a)
  {
    && o.apply == a && Extends(s, t, o) && Enters(s, t, |s.occurrences|, o)
    && Interned(t.combs, t.combIndex) && Interned(MembersOf(t.coarseLayers), t.coarseIndex)
    && t.events == s.events[a.event := |s.occurrences|]
    && (o.boundaryRestart <==> Restarting(s, a)) && (o.smoothLayer.None? <==> IsCoarse(s, a))
    && t.coarseLayers[o.coarseLayer].members == (if o.smoothLayer.None? then {|s.occurrences|} else Support(s, a))
    && BoundParents(a) && t.combs[o.comb] == Normalize(a, CombsOf(s, a), o.smoothLayer.None?)
  }

  lemma SmoothKept(s: Store, t: Store, o: Occurrence)
    requires Smooth(s) && t.occurrences == s.occurrences + [o] && Enters(s, t, |s.occurrences|, o)
    ensures Smooth(t)
  {
    var id := |s.occurrences|;
    forall l: nat ensures !Lists(s, l, id) {}
    forall i: nat, l: nat
      ensures Lists(t, l, i) <==> i < |t.occurrences| && t.occurrences[i].smoothLayer == Some(l)
      ensures Lists(t, l, i) ==> t.occurrences[i].coarseLayer == t.smoothLayers[l].coarseLayer
    {
      SmoothEntry(s, t, o, i, l);
    }
    forall l | 0 <= l < |t.smoothLayers| ensures
      && t.smoothLayers[l].coarseLayer in t.smoothIndex && t.smoothIndex[t.smoothLayers[l].coarseLayer] == l
      && Distinct(t.smoothLayers[l].members)
    {
      if o.smoothLayer == Some(l) && l < |s.smoothLayers| {
        assert !Lists(s, l, id);
        assert Distinct(s.smoothLayers[l].members);
      } else if l < |s.smoothLayers| {
        assert t.smoothLayers[l] == s.smoothLayers[l];
      }
    }
  }

  lemma SmoothEntry(s: Store, t: Store, o: Occurrence, i: nat, l: nat)
    requires Smooth(s) && t.occurrences == s.occurrences + [o] && Enters(s, t, |s.occurrences|, o)
    ensures Lists(t, l, i) <==> i < |t.occurrences| && t.occurrences[i].smoothLayer == Some(l)
    ensures Lists(t, l, i) ==> t.occurrences[i].coarseLayer == t.smoothLayers[l].coarseLayer
  {
    var id := |s.occurrences|;
    assert Lists(s, l, i) <==> i < id && s.occurrences[i].smoothLayer == Some(l);
    if i < id { assert t.occurrences[i] == s.occurrences[i]; }
    assert Lists(t, l, i) <==> Lists(s, l, i) || (i == id && o.smoothLayer == Some(l));
  }

  lemma EventsKept(s: Store, t: Store, a: Apply, o: Occurrence)
    requires Linked(s) && Indexed(s) && ParentsKnown(s, a) && Records(s, t, a, o) && a.event !in s.events
    ensures Indexed(t)
  {
    var id := |s.occurrences|;
    forall i | 0 <= i < |t.occurrences| ensures t.occurrences[i].apply.event in t.events && t.events[t.occurrences[i].apply.event] == i {
      if i < id { assert t.occurrences[i] == s.occurrences[i]; }
    }
    forall e | e in t.events ensures t.events[e] < |t.occurrences| && t.occurrences[t.events[e]].apply.event == e {
      if e != a.event { assert t.occurrences[s.events[e]] == s.occurrences[s.events[e]]; }
    }
  }

  lemma AllJustified(s: Store, t: Store, a: Apply, o: Occurrence, i: nat)
    requires Valid(s) && ParentsKnown(s, a) && Admissible(s, a) && Records(s, t, a, o) && Linked(t) && i < |t.occurrences|
    ensures Justified(t, i)
  {
    if i < |s.occurrences| {
      assert Justified(s, i);
      OldJustified(s, t, o, i);
    } else {
      assert |t.occurrences| == |s.occurrences| + 1;
      assert i == |s.occurrences|;
      NewJustified(s, t, a, o);
    }
  }

  /** Recording an admitted application keeps the store valid. */
  lemma RecordedIsValid(s: Store, t: Store, a: Apply, o: Occurrence)
    requires Valid(s) && ParentsKnown(s, a) && Admissible(s, a) && Records(s, t, a, o)
    ensures Valid(t)
  {
    ExtendsLinked(s, t, o);
    SmoothKept(s, t, o);
    EventsKept(s, t, a, o);
    forall i: nat | i < |t.occurrences| ensures Justified(t, i) { AllJustified(s, t, a, o, i); }
  }

  lemma NewJustified(s: Store, t: Store, a: Apply, o: Occurrence)
    requires Valid(s) && ParentsKnown(s, a) && Admissible(s, a) && Records(s, t, a, o) && Linked(t)
    ensures Justified(t, |s.occurrences|)
  {
    OldSupport(s, t, o, a);
    OldCoarse(s, t, o, a);
    OldCombs(s, t, o, a);
    assert t.occurrences[|s.occurrences|] == o;
    forall n | n in a.required ensures Supported(t.occurrences, a.parents, n) <==> Supported(s.occurrences, a.parents, n) {
      OldSupported(s, t, o, a.parents, n);
    }
  }

  lemma BindingsBound(s: Store, a: Apply)
    requires Shaped(s, a)
    ensures BoundParents(a)
  {
    forall k: nat | k < |a.binding| && a.binding[k].ParentPort? ensures a.binding[k].parent < |a.parents| {
      assert BindingFits(s, a, k);
    }
  }

  // ---------- the store as an object ----------

  /** The graph without the dependencies of the members. */
  function Cut(g: Graph, members: set<nat>): (h: Graph)
    ensures |h| == |g| && forall i :: 0 <= i < |g| ==> h[i] == if i in members then [] else g[i]
  {
    seq(|g|, i requires 0 <= i < |g| => if i in members then [] else g[i])
  }

  lemma CutAcyclic(g: Graph, members: set<nat>)
    requires Acyclic(g)
    ensures Acyclic(Cut(g, members))
  {
    var h := Cut(g, members);
    forall i, p | 0 <= i < |h| && p in h[i] ensures p < i { assert i !in members && p in g[i]; }
  }

  /** The supports, the new occurrence, and what lies between it and them. */
  ghost function JointMembers(g: Graph, support: set<nat>, parents: seq<nat>): set<nat>
    requires Acyclic(g) && LayerGraph.Within(parents, |g|)
  {
    CutAcyclic(g, support);
    support + {|g|} + AllAncestors(Cut(g, support), parents)
  }

  /** A consumer of unrelated supports leaves the layer that joins them. */
  ghost predicate Joined(s: Store, t: Store, a: Apply)
    requires ParentsKnown(s, a)
  {
    FallsApart(TokensOf(s, a)) ==> JointMembers(GraphOf(s.occurrences), Support(s, a), a.parents) in t.coarseIndex
  }

  predicate UpTo(members: set<nat>, n: nat) {
    forall m :: m in members ==> m <= n
  }

  /** Coarse layers are only added, of members up to `id`. */
  predicate MoreLayers(before: seq<CoarseLayer>, after: seq<CoarseLayer>, id: nat) {
    before <= after && forall l {:trigger after[l]} :: |before| <= l < |after| ==> UpTo(after[l].members, id)
  }

  lemma JointBounded(g: Graph, support: set<nat>, parents: seq<nat>)
    requires Acyclic(g) && LayerGraph.Within(parents, |g|) && UpTo(support, |g|)
    ensures UpTo(JointMembers(g, support, parents), |g|)
  {
    CutAcyclic(g, support);
  }

  lemma ExtendedBy(s: Store, t: Store, a: Apply, o: Occurrence)
    requires ParentsKnown(s, a) && o.apply == a && t.occurrences == s.occurrences + [o]
    requires s.combs <= t.combs && MoreLayers(s.coarseLayers, t.coarseLayers, |s.occurrences|)
    requires o.comb < |t.combs| && o.coarseLayer < |t.coarseLayers|
    ensures Extends(s, t, o)
  {
  }

  /** The layers that a record adds: its own and the joint, with the layers under them and their consumer, unless known. */
  ghost function NewLayers(s: Store, a: Apply, coarse: bool, apart: bool): seq<CoarseLayer>
    requires ParentsKnown(s, a)
  {
    var id, children := |s.occurrences|, ChildLayers(s, a);
    var own := if coarse then CoarseLayer({id}, {}, None) else CoarseLayer(Support(s, a), children, Some(id));
    var joint := CoarseLayer(JointMembers(GraphOf(s.occurrences), Support(s, a), a.parents), children, Some(id));
    Unknown(s.coarseIndex, own, apart, joint)
  }

  /** The layers that are not in the index yet. */
  function Unknown(index: map<set<nat>, nat>, own: CoarseLayer, apart: bool, joint: CoarseLayer): seq<CoarseLayer> {
    (if own.members in index then [] else [own]) +
    if apart && joint.members !in index && joint.members != own.members then [joint] else []
  }

  /** The last occurrence is the record of `a`. */
  ghost predicate Recorded(s: Store, t: Store, a: Apply) {
    && ParentsKnown(s, a) && t.occurrences != [] && Records(s, t, a, t.occurrences[|t.occurrences| - 1]) && Joined(s, t, a)
    && t.coarseLayers == s.coarseLayers + NewLayers(s, a, IsCoarse(s, a), FallsApart(TokensOf(s, a)))
    && |t.combs| <= |s.combs| + 1
  }

  /** What writing a record relies on. */
  ghost predicate Writable(s: Store, a: Apply) {
    && ParentsKnown(s, a) && BoundParents(a)
    && Interned(s.combs, s.combIndex) && Interned(MembersOf(s.coarseLayers), s.coarseIndex)
    && forall c :: c in s.smoothIndex ==> s.smoothIndex[c] < |s.smoothLayers|
  }

  ghost predicate Written(s: Store, t: Store, a: Apply, coarse: bool, restart: bool, apart: bool, o: Occurrence)
    requires Writable(s, a)
  {
    && o.apply == a && t.occurrences == s.occurrences + [o] && t.events == s.events[a.event := |s.occurrences|]
    && Interned(t.combs, t.combIndex) && Interned(MembersOf(t.coarseLayers), t.coarseIndex)
    && s.combs <= t.combs && |t.combs| <= |s.combs| + 1
    && o.comb < |t.combs| && t.combs[o.comb] == Normalize(a, CombsOf(s, a), coarse)
    && t.coarseLayers == s.coarseLayers + NewLayers(s, a, coarse, apart)
    && MoreLayers(s.coarseLayers, t.coarseLayers, |s.occurrences|) && o.coarseLayer < |t.coarseLayers|
    && t.coarseLayers[o.coarseLayer].members == (if coarse then {|s.occurrences|} else Support(s, a))
    && o.boundaryRestart == restart && o.smoothLayer.None? == coarse && Enters(s, t, |s.occurrences|, o)
    && (apart ==> JointMembers(GraphOf(s.occurrences), Support(s, a), a.parents) in t.coarseIndex)
  }

  /** The layer of the occurrence, and the one left behind by a consumer of unrelated supports. */
  ghost predicate LayersEntered(before: seq<CoarseLayer>, index: map<set<nat>, nat>, after: seq<CoarseLayer>, afterIndex: map<set<nat>, nat>,
                                n: nat, own: CoarseLayer, apart: bool, joint: CoarseLayer, l: nat)
  {
    && Interned(MembersOf(after), afterIndex) && MoreLayers(before, after, n)
    && l < |after| && after[l].members == own.members && (apart ==> joint.members in afterIndex)
    && after == before + Unknown(index, own, apart, joint)
  }

  /** Definition, layers and role of the next occurrence; the occurrence itself is not there yet. */
  ghost predicate Entered(s: Store, t: Store, a: Apply, coarse: bool, apart: bool, comb: nat, coarseLayer: nat, smoothLayer: Option<nat>)
    requires Writable(s, a)
  {
    var n, children := |s.occurrences|, ChildLayers(s, a);
    var own := if coarse then CoarseLayer({n}, {}, None) else CoarseLayer(Support(s, a), children, Some(n));
    var joint := CoarseLayer(JointMembers(GraphOf(s.occurrences), Support(s, a), a.parents), children, Some(n));
    && t.occurrences == s.occurrences && t.events == s.events && smoothLayer.None? == coarse
    && Interned(t.combs, t.combIndex) && s.combs <= t.combs && |t.combs| <= |s.combs| + 1
    && comb < |t.combs| && t.combs[comb] == Normalize(a, CombsOf(s, a), coarse)
    && LayersEntered(s.coarseLayers, s.coarseIndex, t.coarseLayers, t.coarseIndex, n, own, apart, joint, coarseLayer)
    && RoleEntered(s.smoothLayers, s.smoothIndex, t.smoothLayers, t.smoothIndex, coarseLayer, smoothLayer, n)
  }

  lemma EnteredThenWritten(s: Store, t: Store, a: Apply, coarse: bool, restart: bool, apart: bool, o: Occurrence)
    requires Writable(s, a) && Entered(s, t, a, coarse, apart, o.comb, o.coarseLayer, o.smoothLayer)
    requires o.apply == a && o.boundaryRestart == restart
    ensures Written(s, t.(occurrences := t.occurrences + [o], events := t.events[a.event := |s.occurrences|]), a, coarse, restart, apart, o)
  {
  }

  lemma WrittenIsRecorded(s: Store, t: Store, a: Apply, restart: bool, apart: bool, o: Occurrence)
    requires Valid(s) && Admissible(s, a) && Writable(s, a)
    requires (restart <==> Restarting(s, a)) && (apart <==> FallsApart(TokensOf(s, a)))
    requires Written(s, t, a, Initial(a) || restart || apart, restart, apart, o)
    ensures Valid(t) && Recorded(s, t, a)
  {
    ExtendedBy(s, t, a, o);
    assert t.occurrences[|t.occurrences| - 1] == o;
    RecordedIsValid(s, t, a, o);
  }

  method Join(g: Graph, support: set<nat>, parents: seq<nat>) returns (members: set<nat>)
    requires Acyclic(g) && LayerGraph.Within(parents, |g|)
    ensures members == JointMembers(g, support, parents)
  {
    CutAcyclic(g, support);
    var between := Collect(Cut(g, support), parents);
    members := support + {|g|} + between;
  }

  method InternLayer(layers: seq<CoarseLayer>, index: map<set<nat>, nat>, layer: CoarseLayer)
    returns (layers': seq<CoarseLayer>, index': map<set<nat>, nat>, l: nat)
    requires Interned(MembersOf(layers), index)
    ensures Interned(MembersOf(layers'), index') && layers <= layers' && l < |layers'| && layers'[l].members == layer.members
    ensures layers' == layers + if layer.members in index then [] else [layer]
    ensures index'.Keys == index.Keys + {layer.members}
  {
    if layer.members in index {
      l := index[layer.members];
      assert MembersOf(layers)[l] == layers[l].members;
      return layers, index, l;
    }
    l := |layers|;
    layers', index' := layers + [layer], index[layer.members := l];
    ghost var was, now := MembersOf(layers), MembersOf(layers');
    forall j | 0 <= j < |now| ensures now[j] in index' && index'[now[j]] == j {
      if j < |was| { assert now[j] == was[j]; }
    }
    forall k | k in index' ensures index'[k] < |now| && now[index'[k]] == k {
      if k != layer.members { assert was[index[k]] == k; }
    }
  }

  method InternTwo(layers: seq<CoarseLayer>, index: map<set<nat>, nat>, own: CoarseLayer, joint: CoarseLayer)
    returns (layers': seq<CoarseLayer>, index': map<set<nat>, nat>, l: nat, j: nat)
    requires Interned(MembersOf(layers), index)
    ensures Interned(MembersOf(layers'), index') && layers' == layers + Unknown(index, own, true, joint)
    ensures l < |layers'| && layers'[l].members == own.members && joint.members in index'
  {
    layers', index', l := InternLayer(layers, index, own);
    layers', index', j := InternLayer(layers', index', joint);
  }

  class LayerStore {
    var combs: seq<Comb>
    var occurrences: seq<Occurrence>
    var coarseLayers: seq<CoarseLayer>
    var smoothLayers: seq<SmoothLayer>
    var combIndex: map<Comb, nat>
    var coarseIndex: map<set<nat>, nat>
    var smoothIndex: map<nat, nat>
    var events: map<nat, nat>

    ghost function View(): Store
      reads this
    {
      Store(combs, occurrences, coarseLayers, smoothLayers, combIndex, coarseIndex, smoothIndex, events)
    }

    constructor ()
      ensures Valid(View()) && occurrences == []
    {
      combs, occurrences, coarseLayers, smoothLayers := [], [], [], [];
      combIndex, coarseIndex, smoothIndex, events := map[], map[], map[], map[];
    }

    /** The checks before anything is recorded. */
    method Refuses(a: Apply) returns (error: Option<string>)
      requires Valid(View())
      ensures error.None? <==> Admissible(View(), a)
    {
      ShapedIsAdmissible(View(), a);
      if a.event in events { return Some("duplicate event"); }
      if !Distinct(a.parents) { return Some("duplicate parent"); }
      if exists k :: 0 <= k < |a.parents| && a.parents[k] >= |occurrences| { return Some("later parent"); }
      if |a.inputRoles| != |a.wanted| || |a.outputRoles| != |a.outputs| { return Some("role arity"); }
      if |a.binding| != |a.wanted| { return Some("binding arity"); }
      var s := Store(combs, occurrences, coarseLayers, smoothLayers, combIndex, coarseIndex, smoothIndex, events);
      if exists k: nat | k < |a.binding| :: !BindingFits(s, a, k) { return Some("invalid binding"); }
      error := Unprovided(a);
    }

    method Unprovided(a: Apply) returns (error: Option<string>)
      requires Linked(View()) && ParentsKnown(View(), a)
      ensures error.None? <==> forall n :: n in a.required ==> n in a.externalFacts || Supported(occurrences, a.parents, n)
    {
      for k := 0 to |a.required|
        invariant forall j :: 0 <= j < k ==> a.required[j] in a.externalFacts || Supported(occurrences, a.parents, a.required[j])
      {
        if a.required[k] !in a.externalFacts {
          var ok := Supports(occurrences, a.parents, a.required[k]);
          if !ok { return Some("unprovided requirement"); }
        }
      }
      error := None;
    }

    /** Whether the application is coarse, and why. */
    method Classify(a: Apply) returns (restart: bool, apart: bool)
      requires Linked(View()) && ParentsKnown(View(), a)
      ensures restart <==> Restarting(View(), a)
      ensures apart <==> FallsApart(TokensOf(View(), a))
    {
      var s := Store(combs, occurrences, coarseLayers, smoothLayers, combIndex, coarseIndex, smoothIndex, events);
      restart := false;
      if !Initial(a) {
        SupportBounded(s, a);
        restart := Restarts(GraphOf(occurrences), Support(s, a));
      }
      apart := Disjoint(TokensOf(s, a));
    }

    /** The coarse members under the parents, and the parents' coarse layers. */
    method SupportOf(a: Apply) returns (support: set<nat>, children: set<nat>)
      requires ParentsKnown(View(), a)
      ensures support == Support(View(), a) && children == ChildLayers(View(), a)
    {
      support, children := {}, {};
      var s := Store(combs, occurrences, coarseLayers, smoothLayers, combIndex, coarseIndex, smoothIndex, events);
      var layers := seq(|a.parents|, k requires 0 <= k < |a.parents| => LayerOf(s, a, k));
      for k := 0 to |a.parents|
        invariant children == set j | 0 <= j < k :: layers[j]
        invariant support == set j, m | 0 <= j < k && m in coarseLayers[layers[j]].members :: m
      {
        children := children + {layers[k]};
        support := support + coarseLayers[layers[k]].members;
      }
      ParentLayers(View(), a, layers);
    }

    /** The shared definition of the application. */
    method Define(a: Apply, coarse: bool) returns (comb: nat)
      requires ParentsKnown(View(), a) && BoundParents(a) && Interned(combs, combIndex)
      modifies this`combs, this`combIndex
      ensures Interned(combs, combIndex) && old(combs) <= combs && comb < |combs|
      ensures combs[comb] == Normalize(a, CombsOf(old(View()), a), coarse) && |combs| <= |old(combs)| + 1
    {
      var s := Store(combs, occurrences, coarseLayers, smoothLayers, combIndex, coarseIndex, smoothIndex, events);
      combs, combIndex, comb := Intern(combs, combIndex, Normalize(a, CombsOf(s, a), coarse));
    }

    method EnterSmooth(coarseLayer: nat, id: nat) returns (l: nat)
      requires forall c :: c in smoothIndex ==> smoothIndex[c] < |smoothLayers|
      modifies this`smoothLayers, this`smoothIndex
      ensures if coarseLayer in old(smoothIndex) then
                && l == old(smoothIndex)[coarseLayer] && l < |old(smoothLayers)| && smoothIndex == old(smoothIndex)
                && smoothLayers == old(smoothLayers)[l := SmoothLayer(coarseLayer, old(smoothLayers)[l].members + [id])]
              else
                && l == |old(smoothLayers)| && smoothIndex == old(smoothIndex)[coarseLayer := l]
                && smoothLayers == old(smoothLayers) + [SmoothLayer(coarseLayer, [id])]
    {
      if coarseLayer in smoothIndex {
        l := smoothIndex[coarseLayer];
        smoothLayers := smoothLayers[l := SmoothLayer(coarseLayer, smoothLayers[l].members + [id])];
      } else {
        l := |smoothLayers|;
        smoothIndex := smoothIndex[coarseLayer := l];
        smoothLayers := smoothLayers + [SmoothLayer(coarseLayer, [id])];
      }
    }

    method EnterRole(coarse: bool, coarseLayer: nat, id: nat) returns (smoothLayer: Option<nat>)
      requires forall c :: c in smoothIndex ==> smoothIndex[c] < |smoothLayers|
      modifies this`smoothLayers, this`smoothIndex
      ensures smoothLayer.None? == coarse
      ensures RoleEntered(old(smoothLayers), old(smoothIndex), smoothLayers, smoothIndex, coarseLayer, smoothLayer, id)
    {
      smoothLayer := None;
      if !coarse {
        var l := EnterSmooth(coarseLayer, id);
        smoothLayer := Some(l);
      }
    }

    /** The layer of the occurrence and, over unrelated supports, the layer that joins them. */
    method EnterCoarse(a: Apply, layer: CoarseLayer, apart: bool, support: set<nat>, children: set<nat>) returns (l: nat)
      requires ParentsKnown(View(), a) && Interned(MembersOf(coarseLayers), coarseIndex)
      requires UpTo(support, |occurrences|) && UpTo(layer.members, |occurrences|)
      modifies this`coarseLayers, this`coarseIndex
      ensures LayersEntered(old(coarseLayers), old(coarseIndex), coarseLayers, coarseIndex, |occurrences|, layer, apart,
                CoarseLayer(JointMembers(GraphOf(occurrences), support, a.parents), children, Some(|occurrences|)), l)
    {
      if apart {
        var members := Join(GraphOf(occurrences), support, a.parents);
        JointBounded(GraphOf(occurrences), support, a.parents);
        var joint;
        coarseLayers, coarseIndex, l, joint := InternTwo(coarseLayers, coarseIndex, layer, CoarseLayer(members, children, Some(|occurrences|)));
      } else {
        coarseLayers, coarseIndex, l := InternLayer(coarseLayers, coarseIndex, layer);
      }
    }

    /**
     * Records an application exactly if it is admissible; the record says whether the supports are convex
     * and hang together, and names the shared definition.
     */
    method Push(a: Apply) returns (r: Result<nat>)
      requires Valid(View())
      modifies this
      ensures Valid(View())
      ensures r.Ok? <==> Admissible(old(View()), a)
      ensures r.Err? ==> View() == old(View())
      ensures r.Ok? ==> r.value == |old(occurrences)| && Recorded(old(View()), View(), a) && Plain(View(), r.value)
    {
      var error := Refuses(a);
      if error.Some? { return Err(error.value); }
      var restart, apart := Classify(a);
      ShapedIsAdmissible(View(), a);
      r := Record(a, restart, apart);
      InPlainTerms(View(), r.value);
    }

    method Record(a: Apply, restart: bool, apart: bool) returns (r: Result<nat>)
      requires Valid(View()) && Admissible(View(), a)
      requires (restart <==> Restarting(View(), a)) && (apart <==> FallsApart(TokensOf(View(), a)))
      modifies this
      ensures Valid(View()) && r == Ok(|old(occurrences)|) && Recorded(old(View()), View(), a)
    {
      ghost var s := View();
      r := Ok(|occurrences|);
      ShapedIsAdmissible(s, a);
      BindingsBound(s, a);
      assert Writable(s, a);
      var o := Write(a, Initial(a) || restart || apart, restart, apart);
      WrittenIsRecorded(s, View(), a, restart, apart, o);
    }

    /** The definition, the layers and the record of the application. */
    method Write(a: Apply, coarse: bool, restart: bool, apart: bool) returns (o: Occurrence)
      requires Writable(View(), a)
      modifies this
      ensures Writable(old(View()), a) && Written(old(View()), View(), a, coarse, restart, apart, o)
    {
      ghost var s := View();
      var comb, coarseLayer, smoothLayer := Enter(a, coarse, apart);
      ghost var t := View();
      var id := |occurrences|;
      events := events[a.event := id];
      o := Occurrence(a, comb, coarseLayer, smoothLayer, restart);
      occurrences := occurrences + [o];
      EnteredThenWritten(s, t, a, coarse, restart, apart, o);
    }

    method Enter(a: Apply, coarse: bool, apart: bool) returns (comb: nat, coarseLayer: nat, smoothLayer: Option<nat>)
      requires Writable(View(), a)
      modifies this`combs, this`combIndex, this`coarseLayers, this`coarseIndex, this`smoothLayers, this`smoothIndex
      ensures Writable(old(View()), a) && Entered(old(View()), View(), a, coarse, apart, comb, coarseLayer, smoothLayer)
    {
      var id := |occurrences|;
      var support, children := SupportOf(a);
      comb := Define(a, coarse);
      var own := if coarse then CoarseLayer({id}, {}, None) else CoarseLayer(support, children, Some(id));
      coarseLayer, smoothLayer := EnterLayers(a, own, coarse, apart, support, children);
    }

    method EnterLayers(a: Apply, own: CoarseLayer, coarse: bool, apart: bool, support: set<nat>, children: set<nat>)
      returns (coarseLayer: nat, smoothLayer: Option<nat>)
      requires ParentsKnown(View(), a) && Interned(MembersOf(coarseLayers), coarseIndex)
      requires UpTo(support, |occurrences|) && UpTo(own.members, |occurrences|)
      requires forall c :: c in smoothIndex ==> smoothIndex[c] < |smoothLayers|
      modifies this`coarseLayers, this`coarseIndex, this`smoothLayers, this`smoothIndex
      ensures LayersEntered(old(coarseLayers), old(coarseIndex), coarseLayers, coarseIndex, |occurrences|, own, apart,
                CoarseLayer(JointMembers(GraphOf(occurrences), support, a.parents), children, Some(|occurrences|)), coarseLayer)
      ensures smoothLayer.None? == coarse
      ensures RoleEntered(old(smoothLayers), old(smoothIndex), smoothLayers, smoothIndex, coarseLayer, smoothLayer, |occurrences|)
    {
      coarseLayer := EnterCoarse(a, own, apart, support, children);
      smoothLayer := EnterRole(coarse, coarseLayer, |occurrences|);
    }
  }
}
