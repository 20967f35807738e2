/**
 * Shared definitions of rule applications (`normalize`, `symbol` and
 * `canonical_effect` of src/coarse_smooth.rs).
 *
 * `SameDefinition` says that the canonical form is complete: two applications
 * share a definition exactly when a renaming of tokens and a reordering of
 * parents that respects their definitions turn one into the other.
 */
module LayerNames {
  import opened Collections
  import opened Wrappers
  import opened LayerGraph

  datatype Binding = ParentPort(parent: nat, output: nat) | External(slot: nat)
  datatype Apply = Apply(event: nat, rule: string, inputRoles: seq<string>, outputRoles: seq<string>, parents: seq<nat>,
                         binding: seq<Binding>, wanted: seq<nat>, outputs: seq<nat>, external: seq<nat>,
                         required: seq<Effect>, externalFacts: seq<Effect>, produced: seq<Effect>)
  datatype Comb = Comb(coarse: bool, rule: string, inputRoles: seq<string>, outputRoles: seq<string>, parents: seq<nat>,
                       binding: seq<Binding>, aliases: seq<nat>, inputs: nat, outputs: nat, externals: nat,
                       requirements: seq<Effect>, effects: seq<Effect>, externalFacts: seq<Effect>)

  type Names = map<nat, nat>

  // ---------- first-occurrence names ----------

  function Symbol(v: nat, names: Names): Names {
    if v in names then names else names[v := |names|]
  }

  datatype Named<T> = Named(result: seq<T>, names: Names)

  function NameValues(vs: seq<nat>, names: Names): (r: Named<nat>)
    ensures |r.result| == |vs|
    decreases |vs|
  {
    if vs == [] then Named([], names)
    else
      var now := Symbol(vs[0], names);
      var rest := NameValues(vs[1..], now);
      Named([now[vs[0]]] + rest.result, rest.names)
  }

  function NameEffects(es: seq<Effect>, names: Names): (r: Named<Effect>)
    ensures |r.result| == |es|
    decreases |es|
  {
    if es == [] then Named([], names)
    else match es[0]
      case RowFact(v) =>
        var now := Symbol(v, names);
        var rest := NameEffects(es[1..], now);
        Named([RowFact(now[v])] + rest.result, rest.names)
      case Equal(a, b) =>
        var one := Symbol(a, names);
        var two := Symbol(b, one);
        var rest := NameEffects(es[1..], two);
        Named([Equal(one[a], two[b])] + rest.result, rest.names)
  }

  /** Operands of effects, in order. */
  function Tokens(es: seq<Effect>): seq<nat> {
    if es == [] then [] else (match es[0] case RowFact(v) => [v] case Equal(a, b) => [a, b]) + Tokens(es[1..])
  }

  /** Which effects are row facts. */
  function Shape(es: seq<Effect>): (r: seq<bool>)
    ensures |r| == |es|
  {
    if es == [] then [] else [es[0].RowFact?] + Shape(es[1..])
  }

  lemma {:induction false} NameConcat(xs: seq<nat>, ys: seq<nat>, names: Names)
    ensures var a := NameValues(xs, names); var b := NameValues(ys, a.names);
            NameValues(xs + ys, names) == Named(a.result + b.result, b.names)
    decreases |xs|
  {
    if xs == [] {
      assert xs + ys == ys;
      assert [] + NameValues(ys, names).result == NameValues(ys, names).result;
    } else {
      var now := Symbol(xs[0], names);
      assert (xs + ys)[0] == xs[0] && (xs + ys)[1..] == xs[1..] + ys;
      NameConcat(xs[1..], ys, now);
      var rest := NameValues(xs[1..], now);
      var last := NameValues(ys, rest.names);
      assert [now[xs[0]]] + (rest.result + last.result) == ([now[xs[0]]] + rest.result) + last.result;
    }
  }

  lemma NameOne(v: nat, names: Names)
    ensures NameValues([v], names) == Named([Symbol(v, names)[v]], Symbol(v, names))
  {
    assert [v][1..] == [];
  }

  lemma NameTwo(a: nat, b: nat, names: Names)
    ensures var one := Symbol(a, names); var two := Symbol(b, one); NameValues([a, b], names) == Named([one[a], two[b]], two)
  {
    assert [a, b] == [a] + [b];
    NameConcat([a], [b], names);
    NameOne(a, names);
    NameOne(b, Symbol(a, names));
  }

  /** Naming effects is naming their operands and keeping their shape. */
  lemma {:induction false} EffectsNamed(es: seq<Effect>, names: Names)
    ensures var r := NameEffects(es, names);
            NameValues(Tokens(es), names) == Named(Tokens(r.result), r.names) && Shape(r.result) == Shape(es)
    decreases |es|
  {
    if es != [] {
      match es[0]
      case RowFact(v) =>
        var now := Symbol(v, names);
        EffectsNamed(es[1..], now);
        NameConcat([v], Tokens(es[1..]), names);
        NameOne(v, names);
        Rebuilt(RowFact(now[v]), NameEffects(es[1..], now).result);
      case Equal(a, b) =>
        var one := Symbol(a, names);
        var two := Symbol(b, one);
        EffectsNamed(es[1..], two);
        NameConcat([a, b], Tokens(es[1..]), names);
        NameTwo(a, b, names);
        Rebuilt(Equal(one[a], two[b]), NameEffects(es[1..], two).result);
    }
  }

  lemma Rebuilt(e: Effect, rest: seq<Effect>)
    ensures Tokens([e] + rest) == (match e case RowFact(v) => [v] case Equal(a, b) => [a, b]) + Tokens(rest)
    ensures Shape([e] + rest) == [e.RowFact?] + Shape(rest)
  {
    assert ([e] + rest)[1..] == rest;
  }

  /** Shape and operands determine effects. */
  lemma {:induction false} EffectsFromTokens(xs: seq<Effect>, ys: seq<Effect>)
    requires Shape(xs) == Shape(ys) && Tokens(xs) == Tokens(ys)
    ensures xs == ys
    decreases |xs|
  {
    if xs != [] {
      assert |Shape(xs)| == |xs| && |Shape(ys)| == |ys|;
      assert Shape(xs)[0] == xs[0].RowFact? && Shape(ys)[0] == ys[0].RowFact?;
      assert Shape(xs)[1..] == Shape(xs[1..]) && Shape(ys)[1..] == Shape(ys[1..]);
      var w := if xs[0].RowFact? then 1 else 2;
      assert Tokens(xs)[w..] == Tokens(xs[1..]) && Tokens(ys)[w..] == Tokens(ys[1..]);
      assert Tokens(xs)[0] == (if xs[0].RowFact? then xs[0].value else xs[0].left);
      assert Tokens(ys)[0] == (if ys[0].RowFact? then ys[0].value else ys[0].left);
      assert xs[0].Equal? ==> Tokens(xs)[1] == xs[0].right && Tokens(ys)[1] == ys[0].right;
      EffectsFromTokens(xs[1..], ys[1..]);
      assert xs == [xs[0]] + xs[1..] && ys == [ys[0]] + ys[1..];
    }
  }

  lemma {:induction false} TokenCount(xs: seq<Effect>, ys: seq<Effect>)
    requires Shape(xs) == Shape(ys)
    ensures |Tokens(xs)| == |Tokens(ys)|
    decreases |xs|
  {
    if xs != [] {
      assert |Shape(xs)| == |xs| && |Shape(ys)| == |ys|;
      assert Shape(xs)[0] == xs[0].RowFact? && Shape(ys)[0] == ys[0].RowFact?;
      assert Shape(xs)[1..] == Shape(xs[1..]) && Shape(ys)[1..] == Shape(ys[1..]);
      TokenCount(xs[1..], ys[1..]);
    }
  }

  // ---------- names are complete for renamings ----------

  /** The same positions hold equal tokens: an injective renaming turns one list into the other. */
  ghost predicate SamePattern(xs: seq<nat>, ys: seq<nat>) {
    |xs| == |ys| && forall i: nat, j: nat {:trigger PatternAt(xs, ys, i, j)} :: i < |xs| && j < |xs| ==> PatternAt(xs, ys, i, j)
  }

  ghost predicate PatternAt(xs: seq<nat>, ys: seq<nat>, i: nat, j: nat)
    requires i < |xs| == |ys| && j < |xs|
  {
    xs[i] == xs[j] <==> ys[i] == ys[j]
  }

  ghost predicate Injective(names: Names) {
    && (forall v :: v in names ==> names[v] < |names|)
    && forall v, w :: v in names && w in names && names[v] == names[w] ==> v == w
  }

  lemma SymbolInjective(v: nat, names: Names)
    requires Injective(names)
    ensures Injective(Symbol(v, names)) && v in Symbol(v, names)
    ensures forall w :: w in names ==> w in Symbol(v, names) && Symbol(v, names)[w] == names[w]
  {
  }

  ghost predicate NamedAt(vs: seq<nat>, result: seq<nat>, names: Names, i: nat)
    requires i < |vs| == |result|
  {
    vs[i] in names && result[i] == names[vs[i]]
  }

  /** The results are read from the table. */
  ghost predicate ReadFrom(vs: seq<nat>, result: seq<nat>, names: Names) {
    |vs| == |result| && forall i: nat {:trigger NamedAt(vs, result, names, i)} :: i < |vs| ==> NamedAt(vs, result, names, i)
  }

  ghost predicate Grows(before: Names, after: Names) {
    forall w {:trigger w in before} :: w in before ==> w in after && after[w] == before[w]
  }

  lemma ReadCons(v: nat, vs: seq<nat>, result: seq<nat>, now: Names, names: Names)
    requires ReadFrom(vs, result, names) && v in now && Grows(now, names)
    ensures ReadFrom([v] + vs, [now[v]] + result, names)
  {
    var all, named := [v] + vs, [now[v]] + result;
    forall i: nat | i < |all| ensures NamedAt(all, named, names, i) {
      if i > 0 { assert NamedAt(vs, result, names, i - 1); }
    }
  }

  /** All names in use come from one injective table. */
  lemma {:induction false} NamesFromTable(vs: seq<nat>, names: Names)
    requires Injective(names)
    ensures var r := NameValues(vs, names); Injective(r.names) && Grows(names, r.names) && ReadFrom(vs, r.result, r.names)
    decreases |vs|
  {
    if vs != [] {
      var now := Symbol(vs[0], names);
      SymbolInjective(vs[0], names);
      NamesFromTable(vs[1..], now);
      var rest := NameValues(vs[1..], now);
      ReadCons(vs[0], vs[1..], rest.result, now, rest.names);
      assert [vs[0]] + vs[1..] == vs;
    }
  }

  /** Equal names mean equal patterns. */
  lemma SameNamesSamePattern(xs: seq<nat>, ys: seq<nat>)
    requires NameValues(xs, map[]).result == NameValues(ys, map[]).result
    ensures SamePattern(xs, ys)
  {
    NamesFromTable(xs, map[]);
    NamesFromTable(ys, map[]);
    var a, b := NameValues(xs, map[]), NameValues(ys, map[]);
    assert |xs| == |a.result| == |ys|;
    forall i: nat, j: nat | i < |xs| && j < |xs| ensures PatternAt(xs, ys, i, j) {
      assert NamedAt(xs, a.result, a.names, i) && NamedAt(xs, a.result, a.names, j);
      assert NamedAt(ys, b.result, b.names, i) && NamedAt(ys, b.result, b.names, j);
    }
  }

  ghost predicate PairedAt(p: Names, q: Names, xs: seq<nat>, ys: seq<nat>, i: nat)
    requires i < |xs| == |ys|
  {
    xs[i] in p && ys[i] in q && p[xs[i]] == q[ys[i]]
  }

  ghost predicate Before(xs: seq<nat>, done: nat, v: nat) {
    exists i: nat :: i < done && i < |xs| && xs[i] == v
  }

  /** Tables that correspond along the first tokens of two lists. */
  ghost predicate Corresponding(p: Names, q: Names, xs: seq<nat>, ys: seq<nat>, done: nat) {
    && |xs| == |ys| && done <= |xs| && |p| == |q|
    && (forall i: nat {:trigger PairedAt(p, q, xs, ys, i)} :: i < done ==> PairedAt(p, q, xs, ys, i))
    && (forall v {:trigger v in p} :: v in p ==> Before(xs, done, v))
    && forall v {:trigger v in q} :: v in q ==> Before(ys, done, v)
  }

  /** A known token on one side is a known token on the other, with the same name. */
  lemma KnownTogether(xs: seq<nat>, ys: seq<nat>, p: Names, q: Names, done: nat)
    requires SamePattern(xs, ys) && done < |xs| && Corresponding(p, q, xs, ys, done)
    ensures xs[done] in p <==> ys[done] in q
    ensures xs[done] in p ==> p[xs[done]] == q[ys[done]]
  {
    if xs[done] in p {
      assert Before(xs, done, xs[done]);
      var i: nat :| i < done && xs[i] == xs[done];
      assert PatternAt(xs, ys, i, done) && PairedAt(p, q, xs, ys, i);
    }
    if ys[done] in q {
      assert Before(ys, done, ys[done]);
      var i: nat :| i < done && ys[i] == ys[done];
      assert PatternAt(xs, ys, i, done) && PairedAt(p, q, xs, ys, i);
    }
  }

  lemma StillCorresponding(xs: seq<nat>, ys: seq<nat>, p: Names, q: Names, done: nat)
    requires SamePattern(xs, ys) && done < |xs| && Corresponding(p, q, xs, ys, done)
    ensures Corresponding(Symbol(xs[done], p), Symbol(ys[done], q), xs, ys, done + 1)
    ensures Symbol(xs[done], p)[xs[done]] == Symbol(ys[done], q)[ys[done]]
  {
    var v, w := xs[done], ys[done];
    var p', q' := Symbol(v, p), Symbol(w, q);
    KnownTogether(xs, ys, p, q, done);
    forall i: nat | i < done + 1 ensures PairedAt(p', q', xs, ys, i) {
      if i < done { assert PairedAt(p, q, xs, ys, i) && PatternAt(xs, ys, i, done); }
    }
    forall u | u in p' ensures Before(xs, done + 1, u) { if u != v { assert u in p && Before(xs, done, u); } }
    forall u | u in q' ensures Before(ys, done + 1, u) { if u != w { assert u in q && Before(ys, done, u); } }
  }

  lemma NameFrom(xs: seq<nat>, done: nat, names: Names)
    requires done < |xs|
    ensures NameValues(xs[done..], names).result ==
              [Symbol(xs[done], names)[xs[done]]] + NameValues(xs[done + 1..], Symbol(xs[done], names)).result
  {
    assert xs[done..][1..] == xs[done + 1..];
  }

  /** Equal patterns give equal names. */
  lemma {:induction false} SamePatternSameNames(xs: seq<nat>, ys: seq<nat>, p: Names, q: Names, done: nat)
    requires SamePattern(xs, ys) && Corresponding(p, q, xs, ys, done)
    ensures NameValues(xs[done..], p).result == NameValues(ys[done..], q).result
    decreases |xs| - done
  {
    if done < |xs| {
      StillCorresponding(xs, ys, p, q, done);
      SamePatternSameNames(xs, ys, Symbol(xs[done], p), Symbol(ys[done], q), done + 1);
      NameFrom(xs, done, p);
      NameFrom(ys, done, q);
    } else {
      assert xs[done..] == [] && ys[done..] == [];
    }
  }

  lemma NamesComplete(xs: seq<nat>, ys: seq<nat>)
    ensures NameValues(xs, map[]).result == NameValues(ys, map[]).result <==> SamePattern(xs, ys)
  {
    if NameValues(xs, map[]).result == NameValues(ys, map[]).result { SameNamesSamePattern(xs, ys); }
    if SamePattern(xs, ys) {
      SamePatternSameNames(xs, ys, map[], map[], 0);
      assert xs[0..] == xs && ys[0..] == ys;
    }
  }

  // ---------- the order of parents ----------

  /** Parents in the order of their first use in binding slots. */
  function FirstUse(bs: seq<Binding>): (r: seq<nat>)
    ensures Distinct(r)
    ensures forall p :: p in r <==> exists k :: 0 <= k < |bs| && bs[k].ParentPort? && bs[k].parent == p
  {
    if bs == [] then []
    else
      var n := |bs| - 1;
      var front := FirstUse(bs[..n]);
      assert forall k :: 0 <= k < n ==> bs[..n][k] == bs[k];
      if bs[n].ParentPort? && bs[n].parent !in front then front + [bs[n].parent] else front
  }

  predicate Below(s: seq<nat>, n: nat) {
    forall k :: 0 <= k < |s| ==> s[k] < n
  }

  /** Stable insertion by key. */
  function Insert(x: nat, s: seq<nat>, key: seq<nat>): (r: seq<nat>)
    requires x < |key| && Below(s, |key|)
    ensures Below(r, |key|) && multiset(r) == multiset(s) + multiset{x}
  {
    if s == [] then [x]
    else
      var n := |s| - 1;
      assert s == s[..n] + [s[n]];
      if key[s[n]] <= key[x] then s + [x] else Insert(x, s[..n], key) + [s[n]]
  }

  function SortBy(s: seq<nat>, key: seq<nat>): (r: seq<nat>)
    requires Below(s, |key|)
    ensures Below(r, |key|) && multiset(r) == multiset(s)
  {
    if s == [] then []
    else
      var n := |s| - 1;
      assert s == s[..n] + [s[n]];
      Insert(s[n], SortBy(s[..n], key), key)
  }

  function Unused(n: nat, used: seq<nat>): (r: seq<nat>)
    ensures Distinct(r) && Below(r, n) && forall p: nat :: p in r <==> p < n && p !in used
  {
    if n == 0 then []
    else
      var front := Unused(n - 1, used);
      assert forall k :: 0 <= k < |front| ==> front[k] in front;
      if n - 1 in used then front else front + [n - 1]
  }

  /** First uses, then the other parents by shared definition. */
  function Order(a: Apply, combOf: seq<nat>): seq<nat>
    requires |combOf| == |a.parents|
  {
    FirstUse(a.binding) + SortBy(Unused(|a.parents|, FirstUse(a.binding)), combOf)
  }

  ghost predicate BoundParents(a: Apply) {
    forall k :: 0 <= k < |a.binding| && a.binding[k].ParentPort? ==> a.binding[k].parent < |a.parents|
  }

  ghost predicate Permutes(s: seq<nat>, n: nat) {
    |s| == n && Distinct(s) && forall p: nat :: p in s <==> p < n
  }

  lemma DistinctIsMultiset(s: seq<nat>)
    ensures Distinct(s) <==> forall x :: multiset(s)[x] <= 1
    decreases |s|
  {
    if s != [] {
      var n := |s| - 1;
      assert s == s[..n] + [s[n]];
      DistinctIsMultiset(s[..n]);
      if Distinct(s) { assert s[n] !in s[..n]; }
      if forall x :: multiset(s)[x] <= 1 {
        assert multiset(s)[s[n]] == multiset(s[..n])[s[n]] + 1;
        assert s[n] !in multiset(s[..n]);
        forall x ensures multiset(s[..n])[x] <= 1 { assert multiset(s)[x] >= multiset(s[..n])[x]; }
      }
      if exists x :: multiset(s)[x] > 1 {
        var x :| multiset(s)[x] > 1;
        if x == s[n] { assert x in multiset(s[..n]); } else { assert multiset(s[..n])[x] > 1; }
      }
    }
  }

  lemma SortByMembers(s: seq<nat>, key: seq<nat>)
    requires Below(s, |key|) && Distinct(s)
    ensures Distinct(SortBy(s, key)) && forall p: nat :: p in SortBy(s, key) <==> p in s
  {
    var r := SortBy(s, key);
    DistinctIsMultiset(s);
    DistinctIsMultiset(r);
    forall p: nat ensures p in r <==> p in s {
      assert p in r <==> p in multiset(r);
      assert p in s <==> p in multiset(s);
    }
  }

  lemma ConcatDistinct(x: seq<nat>, y: seq<nat>)
    requires Distinct(x) && Distinct(y) && forall p: nat :: p in x ==> p !in y
    ensures Distinct(x + y) && forall p: nat :: p in x + y <==> p in x || p in y
  {
    var all := x + y;
    forall i, j | 0 <= i < j < |all| ensures all[i] != all[j] {
      if i < |x| <= j { assert all[i] == x[i] && all[j] == y[j - |x|] && x[i] in x && y[j - |x|] in y; }
    }
  }

  lemma OrderPermutes(a: Apply, combOf: seq<nat>)
    requires |combOf| == |a.parents| && BoundParents(a)
    ensures Permutes(Order(a, combOf), |a.parents|)
  {
    var n, first := |a.parents|, FirstUse(a.binding);
    var rest := Unused(n, first);
    SortByMembers(rest, combOf);
    ConcatDistinct(first, SortBy(rest, combOf));
    DistinctCovers(Order(a, combOf), n);
  }

  lemma DistinctCovers(s: seq<nat>, n: nat)
    requires Distinct(s) && forall p: nat :: p in s <==> p < n
    ensures |s| == n
  {
    DistinctSize(s);
    assert ToSet(s) == Upto(n);
  }

  function Position(order: seq<nat>, p: nat): (k: nat)
    requires p in order
    ensures k < |order| && order[k] == p
  {
    if order[0] == p then 0 else Position(order[1..], p) + 1
  }

  function Renumber(b: Binding, order: seq<nat>): Binding {
    if b.ParentPort? && b.parent in order then ParentPort(Position(order, b.parent), b.output) else b
  }

  function RenumberAll(bs: seq<Binding>, order: seq<nat>): (r: seq<Binding>)
    ensures |r| == |bs| && forall k :: 0 <= k < |bs| ==> r[k] == Renumber(bs[k], order)
  {
    seq(|bs|, k requires 0 <= k < |bs| => Renumber(bs[k], order))
  }

  // ---------- canonical form ----------

  /** The shared definition of an application, given the definitions of its parents. */
  function Normalize(a: Apply, combOf: seq<nat>, coarse: bool): Comb
    requires |combOf| == |a.parents| && BoundParents(a)
  {
    OrderPermutes(a, combOf);
    var order := Order(a, combOf);
    var values := NameValues(a.wanted + a.outputs + a.external, map[]);
    var required := NameEffects(a.required, values.names);
    var produced := NameEffects(a.produced, required.names);
    var facts := NameEffects(a.externalFacts, produced.names);
    PermutesAt(order, |a.parents|);
    Comb(coarse, a.rule, a.inputRoles, a.outputRoles, Pick(combOf, order), RenumberAll(a.binding, order), values.result,
         |a.wanted|, |a.outputs|, |a.external|, required.result, produced.result, facts.result)
  }

  // ---------- the names of a definition ----------

  /** All tokens, in the order in which they are named. */
  function Flat(a: Apply): seq<nat> {
    a.wanted + a.outputs + a.external + Tokens(a.required) + Tokens(a.produced) + Tokens(a.externalFacts)
  }

  function FlatNames(c: Comb): seq<nat> {
    c.aliases + Tokens(c.requirements) + Tokens(c.effects) + Tokens(c.externalFacts)
  }

  lemma NamesOfComb(a: Apply, combOf: seq<nat>, coarse: bool)
    requires |combOf| == |a.parents| && BoundParents(a)
    ensures var c := Normalize(a, combOf, coarse);
            && NameValues(Flat(a), map[]).result == FlatNames(c) && |c.aliases| == |a.wanted| + |a.outputs| + |a.external|
            && Shape(c.requirements) == Shape(a.required) && Shape(c.effects) == Shape(a.produced)
            && Shape(c.externalFacts) == Shape(a.externalFacts)
  {
    var vs := a.wanted + a.outputs + a.external;
    var values := NameValues(vs, map[]);
    var required := NameEffects(a.required, values.names);
    var produced := NameEffects(a.produced, required.names);
    EffectsNamed(a.required, values.names);
    EffectsNamed(a.produced, required.names);
    EffectsNamed(a.externalFacts, produced.names);
    NameConcat(vs, Tokens(a.required), map[]);
    NameConcat(vs + Tokens(a.required), Tokens(a.produced), map[]);
    NameConcat(vs + Tokens(a.required) + Tokens(a.produced), Tokens(a.externalFacts), map[]);
  }

  /** Both list as many values and effects of the same kinds, with tokens equal at the same places. */
  ghost predicate SameTokens(a: Apply, b: Apply) {
    && |a.wanted| == |b.wanted| && |a.outputs| == |b.outputs| && |a.external| == |b.external|
    && Shape(a.required) == Shape(b.required) && Shape(a.produced) == Shape(b.produced)
    && Shape(a.externalFacts) == Shape(b.externalFacts) && SamePattern(Flat(a), Flat(b))
  }

  ghost predicate SameNaming(c: Comb, d: Comb) {
    && c.inputs == d.inputs && c.outputs == d.outputs && c.externals == d.externals && c.aliases == d.aliases
    && c.requirements == d.requirements && c.effects == d.effects && c.externalFacts == d.externalFacts
  }

  lemma SplitEqual(x: seq<nat>, y: seq<nat>, u: seq<nat>, v: seq<nat>)
    requires x + y == u + v && |x| == |u|
    ensures x == u && y == v
  {
    assert x == (x + y)[..|x|] && u == (u + v)[..|u|] && y == (x + y)[|x|..] && v == (u + v)[|u|..];
  }

  lemma NamesFromFlat(c: Comb, d: Comb)
    requires FlatNames(c) == FlatNames(d) && |c.aliases| == |d.aliases|
    requires Shape(c.requirements) == Shape(d.requirements) && Shape(c.effects) == Shape(d.effects)
    requires Shape(c.externalFacts) == Shape(d.externalFacts)
    ensures c.aliases == d.aliases && c.requirements == d.requirements && c.effects == d.effects && c.externalFacts == d.externalFacts
  {
    TokenCount(c.requirements, d.requirements);
    TokenCount(c.effects, d.effects);
    TokenCount(c.externalFacts, d.externalFacts);
    var x, u := c.aliases + Tokens(c.requirements), d.aliases + Tokens(d.requirements);
    SplitEqual(x + Tokens(c.effects), Tokens(c.externalFacts), u + Tokens(d.effects), Tokens(d.externalFacts));
    SplitEqual(x, Tokens(c.effects), u, Tokens(d.effects));
    SplitEqual(c.aliases, Tokens(c.requirements), d.aliases, Tokens(d.requirements));
    EffectsFromTokens(c.requirements, d.requirements);
    EffectsFromTokens(c.effects, d.effects);
    EffectsFromTokens(c.externalFacts, d.externalFacts);
  }

  /** Equal naming means that an injective renaming of tokens turns one application into the other. */
  lemma NamingComplete(a: Apply, b: Apply, ca: seq<nat>, cb: seq<nat>, coarse: bool)
    requires |ca| == |a.parents| && BoundParents(a) && |cb| == |b.parents| && BoundParents(b)
    ensures SameNaming(Normalize(a, ca, coarse), Normalize(b, cb, coarse)) <==> SameTokens(a, b)
  {
    var c, d := Normalize(a, ca, coarse), Normalize(b, cb, coarse);
    NamesOfComb(a, ca, coarse);
    NamesOfComb(b, cb, coarse);
    NamesComplete(Flat(a), Flat(b));
    if SameTokens(a, b) { NamesFromFlat(c, d); }
  }

  // ---------- reordering parents ----------

  ghost predicate Moved(x: Binding, y: Binding, pi: seq<nat>) {
    match x
    case External(_) => y == x
    case ParentPort(p, o) => p < |pi| && y == ParentPort(pi[p], o)
  }

  /** `pi` takes the parents of `a` to parents of `b` with the same definitions, and binding slots along. */
  ghost predicate Reorders(a: Apply, b: Apply, ca: seq<nat>, cb: seq<nat>, pi: seq<nat>)
    requires |ca| == |a.parents| && |cb| == |b.parents|
  {
    && Permutes(pi, |a.parents|) && |a.parents| == |b.parents|
    && (forall i :: 0 <= i < |pi| ==> pi[i] < |cb| && ca[i] == cb[pi[i]])
    && |a.binding| == |b.binding| && forall k {:trigger a.binding[k]} {:trigger b.binding[k]} :: 0 <= k < |a.binding| ==> Moved(a.binding[k], b.binding[k], pi)
  }

  lemma PermutesAt(s: seq<nat>, n: nat)
    requires Permutes(s, n)
    ensures forall k :: 0 <= k < n ==> s[k] < n
    ensures forall p: nat :: p < n ==> p in s
  {
    forall k | 0 <= k < n ensures s[k] < n { assert s[k] in s; }
  }

  lemma PositionOf(order: seq<nat>, k: nat)
    requires Distinct(order) && k < |order|
    ensures Position(order, order[k]) == k
  {
    var j := Position(order, order[k]);
    assert order[j] == order[k];
  }

  /** The reordering that two equal canonical forms give. */
  function Between(x: seq<nat>, y: seq<nat>, n: nat): (pi: seq<nat>)
    requires Permutes(x, n) && |y| == n
    ensures |pi| == n && forall k :: 0 <= k < n ==> pi[k] == y[Position(x, k)]
  {
    seq(n, k requires 0 <= k < n => y[Position(x, k)])
  }

  lemma BetweenPermutes(x: seq<nat>, y: seq<nat>, n: nat)
    requires Permutes(x, n) && Permutes(y, n)
    ensures Permutes(Between(x, y, n), n)
  {
    var pi := Between(x, y, n);
    PermutesAt(x, n);
    PermutesAt(y, n);
    forall i, j | 0 <= i < j < n ensures pi[i] != pi[j] {
      assert x[Position(x, i)] == i && x[Position(x, j)] == j;
    }
    forall p: nat ensures p in pi <==> p < n {
      if p < n {
        var k := Position(y, p);
        PositionOf(x, k);
        assert pi[x[k]] == p;
      }
      if p in pi { var k :| 0 <= k < n && pi[k] == p; }
    }
  }

  lemma FormGivesReordering(a: Apply, b: Apply, ca: seq<nat>, cb: seq<nat>) returns (pi: seq<nat>)
    requires |ca| == |a.parents| && BoundParents(a) && |cb| == |b.parents| && BoundParents(b)
    requires var x, y := Order(a, ca), Order(b, cb);
             && Permutes(x, |a.parents|) && Permutes(y, |b.parents|) && |a.parents| == |b.parents|
             && (forall k :: 0 <= k < |x| ==> x[k] < |ca| && y[k] < |cb| && ca[x[k]] == cb[y[k]])
             && RenumberAll(a.binding, x) == RenumberAll(b.binding, y)
    ensures Reorders(a, b, ca, cb, pi)
  {
    var x, y, n := Order(a, ca), Order(b, cb), |a.parents|;
    PermutesAt(x, n);
    PermutesAt(y, n);
    pi := Between(x, y, n);
    BetweenPermutes(x, y, n);
    assert |a.binding| == |RenumberAll(a.binding, x)| == |b.binding|;
    forall k | 0 <= k < |a.binding| ensures Moved(a.binding[k], b.binding[k], pi) {
      assert RenumberAll(a.binding, x)[k] == RenumberAll(b.binding, y)[k];
      assert Renumber(a.binding[k], x) == Renumber(b.binding[k], y);
      if a.binding[k].ParentPort? { assert b.binding[k].ParentPort? && b.binding[k].parent == y[Position(y, b.binding[k].parent)]; }
    }
  }

  // ---------- reordered applications have one form ----------

  lemma {:induction false} FirstUseMoves(xs: seq<Binding>, ys: seq<Binding>, pi: seq<nat>)
    requires Distinct(pi) && |xs| == |ys| && forall k :: 0 <= k < |xs| ==> Moved(xs[k], ys[k], pi)
    ensures (forall p :: p in FirstUse(xs) ==> p < |pi|) && |FirstUse(ys)| == |FirstUse(xs)|
    ensures forall k :: 0 <= k < |FirstUse(xs)| ==> FirstUse(xs)[k] < |pi| && FirstUse(ys)[k] == pi[FirstUse(xs)[k]]
    decreases |xs|
  {
    if xs != [] {
      var n := |xs| - 1;
      FirstUseMoves(xs[..n], ys[..n], pi);
      var f, h := FirstUse(xs[..n]), FirstUse(ys[..n]);
      if xs[n].ParentPort? {
        var p := xs[n].parent;
        assert ys[n] == ParentPort(pi[p], xs[n].output);
        if pi[p] in h {
          var k :| 0 <= k < |h| && h[k] == pi[p];
          assert f[k] == p;
        }
        if p in f {
          var k :| 0 <= k < |f| && f[k] == p;
          assert h[k] == pi[p];
        }
      }
    }
  }

  ghost predicate Sorted(s: seq<nat>) {
    forall i, j :: 0 <= i < j < |s| ==> s[i] <= s[j]
  }

  ghost predicate SortedBy(s: seq<nat>, key: seq<nat>)
    requires Below(s, |key|)
  {
    forall i, j :: 0 <= i < j < |s| ==> key[s[i]] <= key[s[j]]
  }

  lemma InsertMembers(x: nat, s: seq<nat>, key: seq<nat>)
    requires x < |key| && Below(s, |key|)
    ensures forall k :: 0 <= k < |Insert(x, s, key)| ==> Insert(x, s, key)[k] == x || Insert(x, s, key)[k] in s
  {
    var r := Insert(x, s, key);
    forall k | 0 <= k < |r| ensures r[k] == x || r[k] in s {
      assert r[k] in multiset(r);
      assert r[k] in multiset(s) + multiset{x};
    }
  }

  lemma SortedSnoc(front: seq<nat>, y: nat, key: seq<nat>)
    requires Below(front, |key|) && y < |key| && SortedBy(front, key) && forall k :: 0 <= k < |front| ==> key[front[k]] <= key[y]
    ensures Below(front + [y], |key|) && SortedBy(front + [y], key)
  {
  }

  lemma {:induction false} InsertSorted(x: nat, s: seq<nat>, key: seq<nat>)
    requires x < |key| && Below(s, |key|) && SortedBy(s, key)
    ensures SortedBy(Insert(x, s, key), key)
    decreases |s|
  {
    if s != [] {
      var n := |s| - 1;
      if key[s[n]] <= key[x] {
        SortedSnoc(s, x, key);
      } else {
        InsertSorted(x, s[..n], key);
        InsertMembers(x, s[..n], key);
        var front := Insert(x, s[..n], key);
        forall k | 0 <= k < |front| ensures key[front[k]] <= key[s[n]] {
          if front[k] != x { var j :| 0 <= j < n && s[j] == front[k]; }
        }
        SortedSnoc(front, s[n], key);
      }
    }
  }

  lemma {:induction false} SortBySorted(s: seq<nat>, key: seq<nat>)
    requires Below(s, |key|)
    ensures SortedBy(SortBy(s, key), key)
    decreases |s|
  {
    if s != [] {
      SortBySorted(s[..|s| - 1], key);
      InsertSorted(s[|s| - 1], SortBy(s[..|s| - 1], key), key);
    }
  }

  function Without(s: seq<nat>, j: nat): (r: seq<nat>)
    requires j < |s|
    ensures |r| == |s| - 1
  {
    s[..j] + s[j + 1..]
  }

  lemma WithoutMultiset(s: seq<nat>, j: nat)
    requires j < |s|
    ensures multiset(s) == multiset(Without(s, j)) + multiset{s[j]}
  {
    assert s == s[..j] + [s[j]] + s[j + 1..];
  }

  lemma SortedLast(s: seq<nat>, t: seq<nat>)
    requires Sorted(s) && Sorted(t) && multiset(s) == multiset(t) && s != []
    ensures t != [] && s[|s| - 1] <= t[|t| - 1]
  {
    assert s[|s| - 1] in multiset(s);
    var i :| 0 <= i < |t| && t[i] == s[|s| - 1];
  }

  lemma DropSame(s: seq<nat>, t: seq<nat>)
    requires multiset(s) == multiset(t) && s != [] && t != [] && s[|s| - 1] == t[|t| - 1]
    ensures multiset(s[..|s| - 1]) == multiset(t[..|t| - 1])
  {
    var n, m := |s| - 1, |t| - 1;
    assert s == s[..n] + [s[n]] && t == t[..m] + [t[m]];
    assert multiset(s[..n]) == multiset(s) - multiset{s[n]} && multiset(t[..m]) == multiset(t) - multiset{t[m]};
  }

  /** Sorted lists with the same members are equal. */
  lemma {:induction false} SortedUnique(s: seq<nat>, t: seq<nat>)
    requires Sorted(s) && Sorted(t) && multiset(s) == multiset(t)
    ensures s == t
    decreases |s|
  {
    assert |multiset(s)| == |s| && |multiset(t)| == |t|;
    if s != [] {
      var n := |s| - 1;
      SortedLast(s, t);
      SortedLast(t, s);
      DropSame(s, t);
      SortedUnique(s[..n], t[..n]);
      assert s == s[..n] + [s[n]] && t == t[..n] + [t[n]];
    }
  }

  lemma PickWithout(key: seq<nat>, s: seq<nat>, j: nat)
    requires Below(s, |key|) && j < |s|
    ensures Below(Without(s, j), |key|) && multiset(Pick(key, s)) == multiset(Pick(key, Without(s, j))) + multiset{key[s[j]]}
  {
    assert Pick(key, Without(s, j)) == Without(Pick(key, s), j);
    WithoutMultiset(Pick(key, s), j);
  }

  lemma {:induction false} PickMultiset(key: seq<nat>, s: seq<nat>, t: seq<nat>)
    requires multiset(s) == multiset(t) && Below(s, |key|) && Below(t, |key|)
    ensures multiset(Pick(key, s)) == multiset(Pick(key, t))
    decreases |s|
  {
    assert |multiset(s)| == |s| && |multiset(t)| == |t|;
    if s != [] {
      var n := |s| - 1;
      assert s[n] in multiset(t);
      var j: nat :| j < |t| && t[j] == s[n];
      WithoutMultiset(s, n);
      WithoutMultiset(t, j);
      PickWithout(key, s, n);
      PickWithout(key, t, j);
      assert multiset(Without(s, n)) == multiset(s) - multiset{s[n]} && multiset(Without(t, j)) == multiset(t) - multiset{s[n]};
      PickMultiset(key, Without(s, n), Without(t, j));
    }
  }

  lemma {:induction false} DistinctMultiset(s: seq<nat>, t: seq<nat>)
    requires Distinct(s) && Distinct(t) && forall x: nat :: x in s <==> x in t
    ensures multiset(s) == multiset(t)
  {
    DistinctIsMultiset(s);
    DistinctIsMultiset(t);
    forall x: nat ensures multiset(s)[x] == multiset(t)[x] {
      assert x in multiset(s) <==> x in s;
      assert x in multiset(t) <==> x in t;
    }
  }

  /** The parents that no slot uses. */
  function Rest(a: Apply): seq<nat> {
    Unused(|a.parents|, FirstUse(a.binding))
  }

  /** The parents that no slot uses correspond, so their sorted definitions are equal. */
  lemma RestSame(a: Apply, b: Apply, ca: seq<nat>, cb: seq<nat>, pi: seq<nat>)
    requires |ca| == |a.parents| && |cb| == |b.parents| && Reorders(a, b, ca, cb, pi)
    ensures Pick(ca, SortBy(Rest(a), ca)) == Pick(cb, SortBy(Rest(b), cb))
  {
    var ua, ub := Rest(a), Rest(b);
    PermutesAt(pi, |a.parents|);
    var moved := Pick(pi, ua);
    forall k | 0 <= k < |moved| ensures moved[k] < |cb| { assert moved[k] == pi[ua[k]]; }
    UnusedMoves(a, b, ca, cb, pi);
    DistinctMultiset(moved, ub);
    assert Pick(cb, moved) == Pick(ca, ua);
    PickMultiset(cb, moved, ub);
    SortedPicks(ua, ca, ub, cb);
  }

  lemma SortedPicks(s: seq<nat>, k: seq<nat>, t: seq<nat>, l: seq<nat>)
    requires Below(s, |k|) && Below(t, |l|) && multiset(Pick(k, s)) == multiset(Pick(l, t))
    ensures Pick(k, SortBy(s, k)) == Pick(l, SortBy(t, l))
  {
    SortBySorted(s, k);
    SortBySorted(t, l);
    PickMultiset(k, s, SortBy(s, k));
    PickMultiset(l, t, SortBy(t, l));
    SortedUnique(Pick(k, SortBy(s, k)), Pick(l, SortBy(t, l)));
  }

  lemma UnusedMoves(a: Apply, b: Apply, ca: seq<nat>, cb: seq<nat>, pi: seq<nat>)
    requires |ca| == |a.parents| && |cb| == |b.parents| && Reorders(a, b, ca, cb, pi)
    ensures Distinct(Pick(pi, Rest(a))) && forall x: nat :: x in Pick(pi, Rest(a)) <==> x in Rest(b)
  {
    var n, moved := |a.parents|, Pick(pi, Rest(a));
    PermutesAt(pi, n);
    forall i, j | 0 <= i < j < |moved| ensures moved[i] != moved[j] { assert Rest(a)[i] != Rest(a)[j]; }
    forall x: nat ensures x in moved <==> x in Rest(b) {
      if x < n { UnusedMoved(a, b, ca, cb, pi, Position(pi, x)); }
      if x in moved {
        var k :| 0 <= k < |moved| && moved[k] == x;
        assert pi[Rest(a)[k]] < n && Rest(a)[k] in Rest(a);
        SamePosition(pi, Position(pi, x), Rest(a)[k]);
      }
    }
  }

  lemma SamePosition(s: seq<nat>, i: nat, j: nat)
    requires Distinct(s) && i < |s| && j < |s| && s[i] == s[j]
    ensures i == j
  {
  }

  lemma UnusedMoved(a: Apply, b: Apply, ca: seq<nat>, cb: seq<nat>, pi: seq<nat>, q: nat)
    requires |ca| == |a.parents| && |cb| == |b.parents| && Reorders(a, b, ca, cb, pi) && q < |pi|
    ensures q in Rest(a) <==> pi[q] in Rest(b)
    ensures q in Rest(a) ==> pi[q] in Pick(pi, Rest(a))
  {
    var fa, fb := FirstUse(a.binding), FirstUse(b.binding);
    PermutesAt(pi, |a.parents|);
    FirstUseMoves(a.binding, b.binding, pi);
    if pi[q] in fb {
      var k :| 0 <= k < |fb| && fb[k] == pi[q];
      SamePosition(pi, fa[k], q);
    }
    if q in fa {
      var k :| 0 <= k < |fa| && fa[k] == q;
      assert fb[k] == pi[q];
    }
    if q in Rest(a) {
      var k :| 0 <= k < |Rest(a)| && Rest(a)[k] == q;
      assert Pick(pi, Rest(a))[k] == pi[q];
    }
  }

  lemma {:induction false} PositionInPrefix(f: seq<nat>, rest: seq<nat>, k: nat)
    requires Distinct(f + rest) && k < |f|
    ensures f[k] in f + rest && Position(f + rest, f[k]) == k
  {
    assert (f + rest)[k] == f[k];
    PositionOf(f + rest, k);
  }

  /** A reordering gives equal canonical parents and bindings. */
  lemma ReorderingGivesForm(a: Apply, b: Apply, ca: seq<nat>, cb: seq<nat>, pi: seq<nat>)
    requires |ca| == |a.parents| && BoundParents(a) && |cb| == |b.parents| && BoundParents(b) && Reorders(a, b, ca, cb, pi)
    ensures Below(Order(a, ca), |ca|) && Below(Order(b, cb), |cb|)
    ensures Pick(ca, Order(a, ca)) == Pick(cb, Order(b, cb))
    ensures RenumberAll(a.binding, Order(a, ca)) == RenumberAll(b.binding, Order(b, cb))
  {
    var n := |a.parents|;
    OrderPermutes(a, ca);
    OrderPermutes(b, cb);
    PermutesAt(Order(a, ca), n);
    PermutesAt(Order(b, cb), n);
    RestSame(a, b, ca, cb, pi);
    FirstUseMoves(a.binding, b.binding, pi);
    var fa, fb := FirstUse(a.binding), FirstUse(b.binding);
    var ra, rb := SortBy(Rest(a), ca), SortBy(Rest(b), cb);
    PickParts(ca, fa, ra, cb, fb, rb, pi);
    forall k | 0 <= k < |a.binding| ensures Renumber(a.binding[k], fa + ra) == Renumber(b.binding[k], fb + rb) {
      assert Moved(a.binding[k], b.binding[k], pi);
      if a.binding[k].ParentPort? {
        var p := a.binding[k].parent;
        assert p in fa;
        var j: nat :| j < |fa| && fa[j] == p;
        assert fb[j] == pi[p];
        PositionInPrefix(fa, ra, j);
        PositionInPrefix(fb, rb, j);
      }
    }
  }

  lemma PickParts(ca: seq<nat>, fa: seq<nat>, ra: seq<nat>, cb: seq<nat>, fb: seq<nat>, rb: seq<nat>, pi: seq<nat>)
    requires Below(fa + ra, |ca|) && Below(fb + rb, |cb|) && |fa| == |fb| && Below(ra, |ca|) && Below(rb, |cb|)
    requires Pick(ca, ra) == Pick(cb, rb)
    requires forall k :: 0 <= k < |fa| ==> fa[k] < |pi| && fb[k] == pi[fa[k]]
    requires forall i :: 0 <= i < |pi| ==> i < |ca| && pi[i] < |cb| && ca[i] == cb[pi[i]]
    ensures Pick(ca, fa + ra) == Pick(cb, fb + rb)
  {
    var x, y := Pick(ca, fa + ra), Pick(cb, fb + rb);
    assert |ra| == |Pick(ca, ra)| == |rb|;
    forall k | 0 <= k < |x| ensures x[k] == y[k] {
      if k < |fa| {
        assert (fa + ra)[k] == fa[k] && (fb + rb)[k] == fb[k];
      } else {
        assert (fa + ra)[k] == ra[k - |fa|] && (fb + rb)[k] == rb[k - |fa|];
        assert Pick(ca, ra)[k - |fa|] == Pick(cb, rb)[k - |fa|];
      }
    }
  }

  // ---------- the main theorem ----------

  /** A renaming of tokens and a reordering of parents that respects their definitions turn one application into the other. */
  ghost predicate Equivalent(a: Apply, b: Apply, ca: seq<nat>, cb: seq<nat>)
    requires |ca| == |a.parents| && |cb| == |b.parents|
  {
    && a.rule == b.rule && a.inputRoles == b.inputRoles && a.outputRoles == b.outputRoles && SameTokens(a, b)
    && exists pi: seq<nat> :: Reorders(a, b, ca, cb, pi)
  }

  /** Two applications share a definition exactly when they are equivalent. */
  lemma SameDefinition(a: Apply, b: Apply, ca: seq<nat>, cb: seq<nat>, coarse: bool)
    requires |ca| == |a.parents| && BoundParents(a) && |cb| == |b.parents| && BoundParents(b)
    ensures Normalize(a, ca, coarse) == Normalize(b, cb, coarse) <==> Equivalent(a, b, ca, cb)
  {
    var c, d := Normalize(a, ca, coarse), Normalize(b, cb, coarse);
    NamingComplete(a, b, ca, cb, coarse);
    OrderPermutes(a, ca);
    OrderPermutes(b, cb);
    PermutesAt(Order(a, ca), |a.parents|);
    PermutesAt(Order(b, cb), |b.parents|);
    if c == d {
      assert SameNaming(c, d);
      SameParents(a, b, ca, cb);
      var pi := FormGivesReordering(a, b, ca, cb);
    }
    if pi: seq<nat> :| Reorders(a, b, ca, cb, pi) {
      ReorderingGivesForm(a, b, ca, cb, pi);
    }
  }

  lemma SameParents(a: Apply, b: Apply, ca: seq<nat>, cb: seq<nat>)
    requires |ca| == |a.parents| && |cb| == |b.parents|
    requires var x, y := Order(a, ca), Order(b, cb);
             Permutes(x, |a.parents|) && Permutes(y, |b.parents|) && Below(x, |ca|) && Below(y, |cb|) && Pick(ca, x) == Pick(cb, y)
    ensures var x, y := Order(a, ca), Order(b, cb);
            |a.parents| == |b.parents| && forall k :: 0 <= k < |x| ==> x[k] < |ca| && y[k] < |cb| && ca[x[k]] == cb[y[k]]
  {
    var x, y := Order(a, ca), Order(b, cb);
    assert |Pick(ca, x)| == |x| && |Pick(cb, y)| == |y|;
    forall k | 0 <= k < |x| ensures x[k] < |ca| && y[k] < |cb| && ca[x[k]] == cb[y[k]] {
      assert Pick(ca, x)[k] == Pick(cb, y)[k];
    }
  }
}
