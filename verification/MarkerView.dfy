/**
 * The imperative part of the view transformation (examples/eggcc_marker.rs):
 * the builder rule (`motif_variables`) and the in-place edits of rule bodies
 * (`expr_rewrite`, `rewrite`), proved against the functions of MarkerRewrite.
 */
module MarkerView {
  import opened Wrappers
  import opened FactQueries
  import opened MarkerRewrite
  import opened MarkerOccurrences

  // ---------- the builder rule ----------

  /** The k-th variable of the builder. */
  function Field(prefix: string, k: nat): string {
    prefix + "_v" + Digits(k)
  }

  lemma FieldInjective(prefix: string, a: nat, b: nat)
    requires Field(prefix, a) == Field(prefix, b)
    ensures a == b
  {
    assert Field(prefix, a)[|prefix| + 2..] == Digits(a) && Field(prefix, b)[|prefix| + 2..] == Digits(b);
    DigitsInjective(a, b);
  }

  function Fields(prefix: string, n: nat): (r: seq<string>)
    ensures |r| == n && forall k :: 0 <= k < n ==> r[k] == Field(prefix, k)
  {
    seq(n, k requires 0 <= k < n => Field(prefix, k))
  }

  function Vars(names: seq<string>): (r: seq<Expr>)
    ensures |r| == |names| && forall k :: 0 <= k < |names| ==> r[k] == Var(names[k])
  {
    seq(|names|, k requires 0 <= k < |names| => Var(names[k]))
  }

  /** Column sorts of the full view. */
  function ViewTypes(c: Schemas, m: Motif): seq<string>
    requires ValidMotif(c, m)
  {
    match m
    case Nested(outer, slot, inner) => c[outer].args[..slot] + c[inner].args + c[outer].args[slot + 1..] + [c[outer].out]
    case Shared(a, ai, b, bi) => c[a].args + Without(c[b].args, bi)
  }

  /** The body of the builder over given column variables. */
  function BuilderBody(c: Schemas, m: Motif, vs: seq<Expr>): seq<Fact>
    requires ValidMotif(c, m) && |vs| == |ViewTypes(c, m)|
  {
    match m
    case Nested(outer, slot, inner) =>
      var mine, last := |c[inner].args|, |vs| - 1;
      [Eq(vs[last], Call(outer, vs[..slot] + [Call(inner, vs[slot..slot + mine])] + vs[slot + mine..last]))]
    case Shared(a, ai, b, bi) =>
      var na := |c[a].args|;
      [Holds(Call(a, vs[..na])), Holds(Call(b, With(vs[na..], bi, vs[ai])))]
  }

  /** `fields` and `types` under construction. */
  class Namer {
    const prefix: string
    var fields: seq<string>
    var types: seq<string>

    constructor (prefix: string)
      ensures this.prefix == prefix && fields == [] && types == []
    {
      this.prefix, fields, types := prefix, [], [];
    }

    method Next(ty: string) returns (e: Expr)
      modifies this
      ensures fields == old(fields) + [Field(prefix, |old(fields)|)] && types == old(types) + [ty]
      ensures e == Var(Field(prefix, |old(fields)|))
    {
      var name := Field(prefix, |fields|);
      fields, types := fields + [name], types + [ty];
      e := Var(name);
    }

    method Each(tys: seq<string>) returns (es: seq<Expr>)
      requires fields == Fields(prefix, |fields|)
      modifies this
      ensures fields == Fields(prefix, |old(fields)| + |tys|) && types == old(types) + tys
      ensures |es| == |tys| && Vars(fields) == Vars(old(fields)) + es
    {
      es := [];
      ghost var n := |fields|;
      for i := 0 to |tys|
        invariant fields == Fields(prefix, n + i) && types == old(types) + tys[..i]
        invariant |es| == i && Vars(fields) == Vars(old(fields)) + es
      {
        assert tys[..i + 1] == tys[..i] + [tys[i]];
        var e := Next(tys[i]);
        es := es + [e];
      }
      assert tys[..|tys|] == tys;
    }
  }

  method NestedVariables(c: Schemas, m: Motif, namer: Namer) returns (body: seq<Fact>)
    requires ValidMotif(c, m) && m.Nested? && namer.fields == [] && namer.types == []
    modifies namer
    ensures namer.types == ViewTypes(c, m) && namer.fields == Fields(namer.prefix, |ViewTypes(c, m)|)
    ensures body == BuilderBody(c, m, Vars(namer.fields))
  {
    var tys := c[m.outer].args;
    var before := namer.Each(tys[..m.slot]);
    var inner := namer.Each(c[m.inner].args);
    var after := namer.Each(tys[m.slot + 1..]);
    var root := namer.Next(c[m.outer].out);
    body := [Eq(root, Call(m.outer, before + [Call(m.inner, inner)] + after))];
    NestedTypes(c, m);
    assert Vars(namer.fields) == before + inner + after + [root];
    NestedParts(c, m, before, inner, after, root);
  }

  lemma NestedTypes(c: Schemas, m: Motif)
    requires ValidMotif(c, m) && m.Nested?
    ensures var tys := c[m.outer].args; ViewTypes(c, m) == [] + tys[..m.slot] + c[m.inner].args + tys[m.slot + 1..] + [c[m.outer].out]
  {
  }

  lemma NestedParts(c: Schemas, m: Motif, x: seq<Expr>, k: seq<Expr>, z: seq<Expr>, root: Expr)
    requires ValidMotif(c, m) && m.Nested?
    requires |x| == m.slot && |k| == |c[m.inner].args| && |z| == |c[m.outer].args| - 1 - m.slot
    ensures BuilderBody(c, m, x + k + z + [root]) == [Eq(root, Call(m.outer, x + [Call(m.inner, k)] + z))]
  {
    var vs, mine := x + k + z + [root], |k|;
    assert vs[..m.slot] == x && vs[m.slot..m.slot + mine] == k && vs[m.slot + mine..|vs| - 1] == z;
  }

  method SharedVariables(c: Schemas, m: Motif, namer: Namer) returns (body: seq<Fact>)
    requires ValidMotif(c, m) && m.Shared? && namer.fields == [] && namer.types == []
    modifies namer
    ensures namer.types == ViewTypes(c, m) && namer.fields == Fields(namer.prefix, |ViewTypes(c, m)|)
    ensures body == BuilderBody(c, m, Vars(namer.fields))
  {
    var tys := c[m.b].args;
    var aa := namer.Each(c[m.a].args);
    var before := namer.Each(tys[..m.bi]);
    var after := namer.Each(tys[m.bi + 1..]);
    var bb := before + [aa[m.ai]] + after;
    body := [Holds(Call(m.a, aa)), Holds(Call(m.b, bb))];
    assert Vars(namer.fields) == aa + (before + after);
    SharedParts(c, m, aa, before, after);
  }

  lemma SharedParts(c: Schemas, m: Motif, aa: seq<Expr>, before: seq<Expr>, after: seq<Expr>)
    requires ValidMotif(c, m) && m.Shared?
    requires |aa| == |c[m.a].args| && |before| == m.bi && |after| == |c[m.b].args| - 1 - m.bi
    ensures BuilderBody(c, m, aa + (before + after)) == [Holds(Call(m.a, aa)), Holds(Call(m.b, before + [aa[m.ai]] + after))]
  {
    var rest := before + after;
    assert (aa + rest)[..|aa|] == aa && (aa + rest)[|aa|..] == rest && rest[..m.bi] == before && rest[m.bi..] == after;
  }

  /** Variables, sorts and body of the builder rule. */
  method MotifVariables(c: Schemas, m: Motif, prefix: string) returns (fields: seq<string>, types: seq<string>, body: seq<Fact>)
    requires ValidMotif(c, m)
    ensures types == ViewTypes(c, m) && fields == Fields(prefix, |types|) && body == BuilderBody(c, m, Vars(fields))
  {
    var namer := new Namer(prefix);
    if m.Nested? {
      body := NestedVariables(c, m, namer);
    } else {
      body := SharedVariables(c, m, namer);
    }
    fields, types := namer.fields, namer.types;
  }

  /** The environment that binds the columns to a row. */
  ghost function EnvOf(prefix: string, row: Row): (env: Env)
    ensures forall k: nat {:trigger Field(prefix, k)} :: k < |row| ==> Field(prefix, k) in env && env[Field(prefix, k)] == row[k]
  {
    if row == [] then map[]
    else
      var n := |row| - 1;
      var env := EnvOf(prefix, row[..n])[Field(prefix, n) := row[n]];
      assert forall k: nat {:trigger Field(prefix, k)} :: k < |row| ==> Field(prefix, k) in env && env[Field(prefix, k)] == row[k] by {
        forall k: nat | k < |row| ensures Field(prefix, k) in env && env[Field(prefix, k)] == row[k] {
          if Field(prefix, k) == Field(prefix, n) { FieldInjective(prefix, k, n); }
        }
      }
      env
  }

  lemma VarsEval(st: Store, prefix: string, row: Row, env: Env)
    requires forall k: nat {:trigger Field(prefix, k)} :: k < |row| ==> Field(prefix, k) in env && env[Field(prefix, k)] == row[k]
    ensures EvalAll(st, Vars(Fields(prefix, |row|)), env) == Some(row)
  {
    EvalAllIs(st, Vars(Fields(prefix, |row|)), env, row);
  }

  /** The columns under an environment. */
  ghost predicate Emits(c: Schemas, st: Store, m: Motif, prefix: string, projected: bool, row: Row, env: Env)
    requires ValidMotif(c, m)
  {
    var vs := Vars(Fields(prefix, |ViewTypes(c, m)|));
    && BodyHolds(st, BuilderBody(c, m, vs), env)
    && EvalAll(st, if projected then vs[..|vs| - 1] else vs, env) == Some(row)
  }

  lemma NestedBuilder(c: Schemas, st: Store, m: Motif, x: seq<Expr>, k: seq<Expr>, z: seq<Expr>, root: Expr, env: Env)
    requires ValidMotif(c, m) && m.Nested? && ViewApart(c, st, m)
    requires |x| == m.slot && |k| == |c[m.inner].args| && |z| == |c[m.outer].args| - 1 - m.slot
    ensures var row, v := EvalAll(st, x + k + z, env), Eval(st, root, env);
            BodyHolds(st, BuilderBody(c, m, x + k + z + [root]), env) <==>
              row.Some? && v.Some? && NestedRoot(c, st.tables, m, row.value) == v
  {
    NestedParts(c, m, x, k, z, root);
    var args := x + [Call(m.inner, k)] + z;
    assert args[..m.slot] == x && args[m.slot + 1..] == z && args[m.slot] == Call(m.inner, k);
    SplicedMeansNested(c, st, m, args, env);
    var f := Eq(root, Call(m.outer, args));
    assert BodyHolds(st, [f], env) <==> FactHolds(st, f, env) by { assert f in [f]; }
  }

  lemma NestedColumns(c: Schemas, st: Store, m: Motif, x: seq<Expr>, k: seq<Expr>, z: seq<Expr>, root: Expr, env: Env)
    requires ValidMotif(c, m) && m.Nested? && ViewApart(c, st, m)
    requires |x| == m.slot && |k| == |c[m.inner].args| && |z| == |c[m.outer].args| - 1 - m.slot
    ensures var row := EvalAll(st, x + k + z + [root], env);
            row.Some? ==> (BodyHolds(st, BuilderBody(c, m, x + k + z + [root]), env) <==> InJoin(c, st.tables, m, false, row.value))
  {
    NestedBuilder(c, st, m, x, k, z, root, env);
    EvalAllConcat(st, x + k + z, [root], env);
    EvalOne(st, root, env);
    var row := EvalAll(st, x + k + z + [root], env);
    if row.Some? { assert row.value[..|row.value| - 1] == EvalAll(st, x + k + z, env).value; }
  }

  /** Columns that evaluate to a row satisfy the builder body exactly on rows of the join. */
  lemma BuilderMeansJoin(c: Schemas, st: Store, m: Motif, vs: seq<Expr>, env: Env)
    requires ValidMotif(c, m) && ViewApart(c, st, m) && |vs| == |ViewTypes(c, m)|
    ensures var row := EvalAll(st, vs, env);
            row.Some? ==> (BodyHolds(st, BuilderBody(c, m, vs), env) <==> InJoin(c, st.tables, m, false, row.value))
  {
    if m.Nested? {
      var x, k, z, root := NestedSplit(c, m, vs);
      NestedColumns(c, st, m, x, k, z, root, env);
    } else {
      var na := |c[m.a].args|;
      SharedBuilder(c, st, m, vs[..na], vs[na..], env);
      assert vs[..na] + vs[na..] == vs;
    }
  }

  lemma NestedSplit(c: Schemas, m: Motif, vs: seq<Expr>) returns (x: seq<Expr>, k: seq<Expr>, z: seq<Expr>, root: Expr)
    requires ValidMotif(c, m) && m.Nested? && |vs| == |ViewTypes(c, m)|
    ensures |x| == m.slot && |k| == |c[m.inner].args| && |z| == |c[m.outer].args| - 1 - m.slot
    ensures vs == x + k + z + [root]
  {
    var mine, last := |c[m.inner].args|, |vs| - 1;
    x, k, z, root := vs[..m.slot], vs[m.slot..m.slot + mine], vs[m.slot + mine..last], vs[last];
  }

  lemma SharedBuilder(c: Schemas, st: Store, m: Motif, xs: seq<Expr>, rest: seq<Expr>, env: Env)
    requires ValidMotif(c, m) && m.Shared? && ViewApart(c, st, m) && |xs| == |c[m.a].args| && |rest| == |c[m.b].args| - 1
    ensures var row := EvalAll(st, xs + rest, env);
            BodyHolds(st, BuilderBody(c, m, xs + rest), env) <==> row.Some? && InJoin(c, st.tables, m, false, row.value)
  {
    var ys := With(rest, m.bi, xs[m.ai]);
    assert (xs + rest)[..|xs|] == xs && (xs + rest)[|xs|..] == rest;
    PairMeansJoin(c, st, m, xs, ys, env);
    var f, g := Holds(Call(m.a, xs)), Holds(Call(m.b, ys));
    assert BodyHolds(st, [f, g], env) <==> FactHolds(st, f, env) && FactHolds(st, g, env) by { assert f in [f, g] && g in [f, g]; }
  }

  lemma JoinedIsEmitted(c: Schemas, st: Store, m: Motif, prefix: string, projected: bool, row: Row) returns (env: Env)
    requires ValidMotif(c, m) && ViewApart(c, st, m) && (projected ==> m.Nested?)
    requires InJoin(c, st.tables, m, projected, row)
    ensures Emits(c, st, m, prefix, projected, row, env)
  {
    var vs := Vars(Fields(prefix, |ViewTypes(c, m)|));
    var whole := if projected then row + [NestedRoot(c, st.tables, m, row).value] else row;
    if projected { assert whole[..|whole| - 1] == row; }
    assert |whole| == |vs| && InJoin(c, st.tables, m, false, whole);
    env := EnvOf(prefix, whole);
    VarsEval(st, prefix, whole, env);
    BuilderMeansJoin(c, st, m, vs, env);
    if projected { EvalAllIs(st, vs[..|vs| - 1], env, row); }
  }

  lemma ProjectedColumns(c: Schemas, st: Store, m: Motif, vs: seq<Expr>, row: Row, env: Env)
    requires ValidMotif(c, m) && m.Nested? && |vs| == |ViewTypes(c, m)| && BodyHolds(st, BuilderBody(c, m, vs), env)
    requires EvalAll(st, vs[..|vs| - 1], env) == Some(row)
    ensures EvalAll(st, vs, env).Some? && EvalAll(st, vs, env).value[..|vs| - 1] == row
  {
    var x, k, z, root := NestedSplit(c, m, vs);
    NestedParts(c, m, x, k, z, root);
    var f := Eq(root, Call(m.outer, x + [Call(m.inner, k)] + z));
    assert f in BuilderBody(c, m, vs) && FactHolds(st, f, env);
    assert vs[..|vs| - 1] == x + k + z;
    EvalAllConcat(st, x + k + z, [root], env);
    EvalOne(st, root, env);
  }

  lemma EmittedIsJoined(c: Schemas, st: Store, m: Motif, prefix: string, projected: bool, row: Row, env: Env)
    requires ValidMotif(c, m) && ViewApart(c, st, m) && (projected ==> m.Nested?)
    requires Emits(c, st, m, prefix, projected, row, env)
    ensures InJoin(c, st.tables, m, projected, row)
  {
    var vs := Vars(Fields(prefix, |ViewTypes(c, m)|));
    if projected { ProjectedColumns(c, st, m, vs, row, env); }
    BuilderMeansJoin(c, st, m, vs, env);
  }

  /** The builder emits exactly the rows of the join. */
  lemma BuilderBuildsJoin(c: Schemas, st: Store, m: Motif, prefix: string, projected: bool, row: Row)
    requires ValidMotif(c, m) && ViewApart(c, st, m) && (projected ==> m.Nested?)
    ensures InJoin(c, st.tables, m, projected, row) <==> exists env: Env :: Emits(c, st, m, prefix, projected, row, env)
  {
    if InJoin(c, st.tables, m, projected, row) {
      var env := JoinedIsEmitted(c, st, m, prefix, projected, row);
    }
    if env: Env :| Emits(c, st, m, prefix, projected, row, env) {
      EmittedIsJoined(c, st, m, prefix, projected, row, env);
    }
  }

  // ---------- editing rule bodies in place ----------

  /** The first `i` arguments are rewritten in place. */
  ghost predicate ArgsDone(m: Motif, view: string, prefix: string, orig: seq<Expr>, i: nat, start: nat, args: seq<Expr>,
                           base: seq<Fact>, added: seq<Fact>, counter: nat)
    requires i <= |orig|
  {
    var w := RewriteArgs(m, view, prefix, orig[..i], start);
    args == w.args + orig[i..] && added == base + w.added && counter == w.counter
  }

  lemma ArgsStep(m: Motif, view: string, prefix: string, orig: seq<Expr>, i: nat, start: nat, args: seq<Expr>,
                 base: seq<Fact>, added: seq<Fact>, counter: nat)
    requires i < |orig| && ArgsDone(m, view, prefix, orig, i, start, args, base, added, counter)
    ensures args[i] == orig[i]
    ensures var w := RewriteExpr(m, view, prefix, orig[i], counter);
            ArgsDone(m, view, prefix, orig, i + 1, start, args[i := w.expr], base, added + w.added, w.counter)
  {
    var more, w := orig[..i + 1], RewriteExpr(m, view, prefix, orig[i], counter);
    assert more[..i] == orig[..i] && more[i] == orig[i];
    var before := RewriteArgs(m, view, prefix, orig[..i], start);
    assert args[i := w.expr] == before.args + [w.expr] + orig[i + 1..];
    assert added + w.added == base + (before.added + w.added);
  }

  lemma ArgsEnd(m: Motif, view: string, prefix: string, orig: seq<Expr>, start: nat, args: seq<Expr>,
                base: seq<Fact>, added: seq<Fact>, counter: nat)
    requires ArgsDone(m, view, prefix, orig, |orig|, start, args, base, added, counter)
    ensures var w := RewriteArgs(m, view, prefix, orig, start);
            args == w.args && added == base + w.added && counter == w.counter
  {
    assert orig[..|orig|] == orig && orig[|orig|..] == [];
    assert RewriteArgs(m, view, prefix, orig, start).args + [] == RewriteArgs(m, view, prefix, orig, start).args;
  }

  ghost predicate FactsDone(m: Motif, view: string, prefix: string, orig: seq<Fact>, i: nat, body: seq<Fact>, added: seq<Fact>, counter: nat)
    requires i <= |orig|
  {
    var w := RewriteFacts(m, view, prefix, orig[..i], 0);
    body == w.facts + orig[i..] && added == w.added && counter == w.counter
  }

  lemma FactsNext(m: Motif, view: string, prefix: string, orig: seq<Fact>, i: nat, body: seq<Fact>, added: seq<Fact>, counter: nat)
    requires i < |orig| && FactsDone(m, view, prefix, orig, i, body, added, counter)
    ensures body[i] == orig[i]
    ensures var w := RewriteFact(m, view, prefix, orig[i], counter);
            FactsDone(m, view, prefix, orig, i + 1, body[i := w.facts[0]], added + w.added, w.counter)
  {
    var more, w := orig[..i + 1], RewriteFact(m, view, prefix, orig[i], counter);
    assert more[..i] == orig[..i] && more[i] == orig[i];
    var before := RewriteFacts(m, view, prefix, orig[..i], 0);
    assert w.facts == [w.facts[0]];
    assert body[i := w.facts[0]] == before.facts + w.facts + orig[i + 1..];
  }

  /** The accumulators of `expr_rewrite`. */
  class Rewriter {
    const m: Motif
    const view: string
    const prefix: string
    var added: seq<Fact>
    var counter: nat

    constructor (m: Motif, view: string, prefix: string)
      ensures this.m == m && this.view == view && this.prefix == prefix && added == [] && counter == 0
    {
      this.m, this.view, this.prefix := m, view, prefix;
      added, counter := [], 0;
    }

    method Expression(e: Expr) returns (r: Expr)
      modifies this
      ensures var w := RewriteExpr(m, view, prefix, e, old(counter));
              r == w.expr && added == old(added) + w.added && counter == w.counter
      decreases e, 1
    {
      if !e.Call? { return e; }
      var args := Arguments(e.args);
      if IsNested(m, e.op, args) {
        var root := Var(Binding(prefix, counter));
        added := added + [Holds(Call(view, Spliced(m, args) + [root]))];
        counter := counter + 1;
        return root;
      }
      r := Call(e.op, args);
    }

    method Arguments(es: seq<Expr>) returns (args: seq<Expr>)
      modifies this
      ensures var w := RewriteArgs(m, view, prefix, es, old(counter));
              args == w.args && added == old(added) + w.added && counter == w.counter
      decreases es, 0
    {
      args := es;
      ghost var base, start := added, counter;
      for i := 0 to |es|
        invariant |args| == |es| && ArgsDone(m, view, prefix, es, i, start, args, base, added, counter)
      {
        ghost var was, k := added, counter;
        var a := Expression(es[i]);
        ArgsStep(m, view, prefix, es, i, start, args, base, was, k);
        args := args[i := a];
      }
      ArgsEnd(m, view, prefix, es, start, args, base, added, counter);
    }

    method Fact(f: Fact) returns (r: Fact)
      modifies this
      ensures var w := RewriteFact(m, view, prefix, f, old(counter));
              [r] == w.facts && added == old(added) + w.added && counter == w.counter
    {
      match f
      case Eq(x, y) =>
        var a := Expression(x);
        var b := Expression(y);
        r := Eq(a, b);
      case Holds(e) =>
        var a := Expression(e);
        r := Holds(a);
    }
  }

  /** The body after every pair has been fused, first pair first. */
  ghost function FuseAll(m: Motif, view: string, body: seq<Fact>): (r: seq<Fact>)
    ensures |r| <= |body|
    decreases |body|
  {
    if i: nat, j: nat :| FirstPair(m, body, i, j) then FuseAll(m, view, Fused(m, view, body, i, j)) else body
  }

  ghost predicate FirstPair(m: Motif, body: seq<Fact>, i: nat, j: nat) {
    && i < |body| && j < |body| && Joins(m, body, i, j)
    && (forall k: nat, l: nat :: k < i && l < |body| ==> !Joins(m, body, k, l))
    && forall l: nat :: l < j ==> !Joins(m, body, i, l)
  }

  lemma FirstPairUnique(m: Motif, body: seq<Fact>, i: nat, j: nat, k: nat, l: nat)
    requires FirstPair(m, body, i, j) && FirstPair(m, body, k, l)
    ensures i == k && j == l
  {
  }

  ghost predicate NoPair(m: Motif, body: seq<Fact>) {
    forall i: nat, j: nat :: i < |body| && j < |body| ==> !Joins(m, body, i, j)
  }

  /** The pairs are the facts that share a variable at the motif's columns. */
  lemma NoPairMeans(m: Motif, projected: bool, body: seq<Fact>)
    requires m.Shared?
    ensures NoPair(m, body) <==> !Occurs(m, projected, body)
  {
    if NoPair(m, body) {
      forall i: nat, j: nat | i < |body| && j < |body| && i != j ensures !Shares(m, body[i], body[j]) {
        assert !Joins(m, body, i, j);
      }
    }
  }

  /** A rewritten body. */
  ghost function RewriteBody(m: Motif, view: string, prefix: string, projected: bool, body: seq<Fact>): seq<Fact> {
    if m.Shared? then FuseAll(m, view, body)
    else if projected then RewriteRoots(m, view, body)
    else
      var r := RewriteFacts(m, view, prefix, body, 0);
      r.facts + r.added
  }

  function RewriteRoots(m: Motif, view: string, body: seq<Fact>): (r: seq<Fact>)
    ensures |r| == |body| && forall i :: 0 <= i < |body| ==> r[i] == RewriteRoot(m, view, body[i])
  {
    seq(|body|, i requires 0 <= i < |body| => RewriteRoot(m, view, body[i]))
  }

  /** The facts are rewritten, and nothing is left of the motif in them; nor in the added ones, unless the view is the outer constructor. */
  lemma NestedAllReplaced(m: Motif, view: string, prefix: string, body: seq<Fact>)
    requires m.Nested?
    ensures var now := RewriteBody(m, view, prefix, false, body);
            && |now| == |body| + CountBody(m, body) && (forall i :: 0 <= i < |body| ==> CleanFact(m, now[i]))
            && (view != m.outer ==> !Occurs(m, false, now))
  {
    FactsReplace(m, view, prefix, body, 0);
    var r := RewriteFacts(m, view, prefix, body, 0);
    var now := RewriteBody(m, view, prefix, false, body);
    if view != m.outer {
      forall i | 0 <= i < |now| ensures CleanFact(m, now[i]) {
        if i >= |body| { ReadsAreClean(m, view, r.added[i - |body|]); }
      }
    }
  }

  lemma RootsAllReplaced(m: Motif, view: string, body: seq<Fact>)
    requires m.Nested? && view != m.outer
    ensures !Occurs(m, true, RewriteRoots(m, view, body))
  {
  }

  /** Where the motif is nested at roots only, the projected view replaces it at every depth. */
  lemma ProjectionReplacesAll(m: Motif, view: string, body: seq<Fact>)
    requires m.Nested? && view != m.outer && forall i :: 0 <= i < |body| ==> OnlyAtRoot(m, body[i])
    ensures !Occurs(m, false, RewriteRoots(m, view, body))
  {
    var now := RewriteRoots(m, view, body);
    forall i | 0 <= i < |body| ensures CleanFact(m, now[i]) {
      if NestsAtRoot(m, body[i]) { SplicedClean(m, body[i].expr.args); }
    }
  }

  lemma {:induction false} FirstPairExists(m: Motif, body: seq<Fact>, i: nat, j: nat)
    requires i < |body| && j < |body| && Joins(m, body, i, j)
    ensures exists k: nat, l: nat :: FirstPair(m, body, k, l)
    decreases i, j
  {
    if k: nat, l: nat :| k < i && l < |body| && Joins(m, body, k, l) {
      FirstPairExists(m, body, k, l);
    } else if l: nat :| l < j && Joins(m, body, i, l) {
      FirstPairExists(m, body, i, l);
    } else {
      assert FirstPair(m, body, i, j);
    }
  }

  lemma {:induction false} FusedAll(m: Motif, view: string, body: seq<Fact>)
    ensures NoPair(m, FuseAll(m, view, body))
    decreases |body|
  {
    if i: nat, j: nat :| FirstPair(m, body, i, j) {
      FuseStep(m, view, body, i, j);
      FusedAll(m, view, Fused(m, view, body, i, j));
    } else {
      forall i: nat, j: nat | i < |body| && j < |body| ensures !Joins(m, body, i, j) {
        if Joins(m, body, i, j) { FirstPairExists(m, body, i, j); }
      }
      FuseDone(m, view, body);
    }
  }

  /** Whatever view is chosen, no occurrence is left at any depth if the projected one is taken only for occurrences at roots. */
  lemma NothingLeft(m: Motif, view: string, prefix: string, projected: bool, body: seq<Fact>)
    requires m.Nested? ==> view != m.outer
    requires m.Nested? && projected ==> forall i :: 0 <= i < |body| ==> OnlyAtRoot(m, body[i])
    ensures !Occurs(m, false, RewriteBody(m, view, prefix, projected, body))
  {
    if m.Shared? {
      FusedAll(m, view, body);
      NoPairMeans(m, false, FuseAll(m, view, body));
    } else if projected {
      ProjectionReplacesAll(m, view, body);
    } else {
      NestedAllReplaced(m, view, prefix, body);
    }
  }

  /** Without an occurrence there is nothing to rewrite. */
  lemma NothingOccurs(m: Motif, view: string, prefix: string, projected: bool, body: seq<Fact>)
    requires !Occurs(m, projected, body)
    ensures RewriteBody(m, view, prefix, projected, body) == body
  {
    if m.Shared? {
      FuseDone(m, view, body);
    } else if projected {
      assert RewriteRoots(m, view, body) == body;
    } else {
      CountBodyMeans(m, body);
      FactsReplace(m, view, prefix, body, 0);
      NothingRewritten(m, view, prefix, body, 0);
      assert body + [] == body;
    }
  }

  /** A rule under edit. */
  class EditedRule {
    const ruleset: string
    var body: seq<Fact>

    constructor (ruleset: string, body: seq<Fact>)
      ensures this.ruleset == ruleset && this.body == body
    {
      this.ruleset, this.body := ruleset, body;
    }

    /** Replaces the motif's occurrences by reads of the view until none is left, and counts them. */
    method Rewrite(m: Motif, view: string, prefix: string, projected: bool) returns (n: nat)
      modifies this
      ensures body == RewriteBody(m, view, prefix, projected, old(body))
      ensures n > 0 <==> Occurs(m, projected, old(body))
      ensures n == 0 ==> body == old(body)
      ensures m.Nested? ==> n == NestedCount(m, projected, old(body))
      ensures m.Shared? ==> n == |old(body)| - |body|
      ensures m.Shared? || view != m.outer ==> !Occurs(m, projected, body)
      ensures m.Nested? && !projected ==> |body| == |old(body)| + n && forall i :: 0 <= i < |old(body)| ==> CleanFact(m, body[i])
    {
      if m.Shared? {
        n := Fuse(m, view);
        NoPairMeans(m, projected, body);
        NoPairMeans(m, projected, old(body));
      } else if projected {
        n := Roots(m, view);
        assert n == NestedCount(m, true, old(body));
        if view != m.outer { RootsAllReplaced(m, view, old(body)); }
      } else {
        n := Everywhere(m, view, prefix);
        FactsReplace(m, view, prefix, old(body), 0);
        assert n == NestedCount(m, false, old(body));
        NestedAllReplaced(m, view, prefix, old(body));
      }
    }

    method Roots(m: Motif, view: string) returns (n: nat)
      modifies this
      ensures body == RewriteRoots(m, view, old(body)) && n == RootCount(m, old(body))
      ensures n == 0 ==> body == old(body)
    {
      n := 0;
      assert old(body)[..|body|] == old(body);
      for i := 0 to |body|
        invariant n == RootCount(m, old(body)[..i])
        invariant |body| == |old(body)|
        invariant forall k :: 0 <= k < i ==> body[k] == RewriteRoot(m, view, old(body)[k])
        invariant forall k :: i <= k < |body| ==> body[k] == old(body)[k]
        invariant n == 0 ==> body == old(body)
      {
        var f := body[i];
        assert old(body)[..i + 1][..i] == old(body)[..i];
        if f.Holds? && f.expr.Call? && IsNested(m, f.expr.op, f.expr.args) {
          body := body[i := Holds(Call(view, Spliced(m, f.expr.args)))];
          n := n + 1;
        }
      }
      assert body == RewriteRoots(m, view, old(body));
    }

    method Everywhere(m: Motif, view: string, prefix: string) returns (n: nat)
      modifies this
      ensures var r := RewriteFacts(m, view, prefix, old(body), 0); body == r.facts + r.added && n == r.counter
      ensures n == 0 ==> body == old(body)
    {
      var w := new Rewriter(m, view, prefix);
      for i := 0 to |body|
        invariant |body| == |old(body)| && w.m == m && w.view == view && w.prefix == prefix && fresh(w)
        invariant FactsDone(m, view, prefix, old(body), i, body, w.added, w.counter)
      {
        ghost var was, k := w.added, w.counter;
        FactsNext(m, view, prefix, old(body), i, body, was, k);
        var f := w.Fact(body[i]);
        body := body[i := f];
      }
      assert old(body)[..|body|] == old(body);
      n := w.counter;
      if n == 0 { NothingRewritten(m, view, prefix, old(body), 0); }
      body := body + w.added;
    }

    method Fuse(m: Motif, view: string) returns (n: nat)
      requires m.Shared?
      modifies this
      ensures body == FuseAll(m, view, old(body)) && NoPair(m, body)
      ensures n == |old(body)| - |body| && (n == 0 <==> NoPair(m, old(body)))
      ensures n == 0 ==> body == old(body)
    {
      n := 0;
      var found, i, j := FindPair(m, body);
      while found
        invariant found ==> FirstPair(m, body, i, j)
        invariant !found ==> NoPair(m, body)
        invariant FuseAll(m, view, body) == FuseAll(m, view, old(body)) && n + |body| == |old(body)|
        invariant (n == 0 ==> body == old(body)) && (n > 0 ==> !NoPair(m, old(body)))
        decreases |body|
      {
        FuseStep(m, view, body, i, j);
        var xs, ys := body[i].expr.args, body[j].expr.args;
        var hi, lo := if i < j then j else i, if i < j then i else j;
        body := Without(Without(body, hi), lo) + [Holds(Call(view, xs + Without(ys, m.bi)))];
        n := n + 1;
        found, i, j := FindPair(m, body);
      }
      FuseDone(m, view, body);
    }
  }

  lemma FuseStep(m: Motif, view: string, body: seq<Fact>, i: nat, j: nat)
    requires FirstPair(m, body, i, j)
    ensures FuseAll(m, view, body) == FuseAll(m, view, Fused(m, view, body, i, j))
  {
    var k: nat, l: nat :| FirstPair(m, body, k, l) && FuseAll(m, view, body) == FuseAll(m, view, Fused(m, view, body, k, l));
    FirstPairUnique(m, body, i, j, k, l);
  }

  lemma FuseDone(m: Motif, view: string, body: seq<Fact>)
    requires NoPair(m, body)
    ensures FuseAll(m, view, body) == body
  {
    forall i: nat, j: nat ensures !FirstPair(m, body, i, j) {}
  }

  /** The first pair of facts to fuse, in the order of the nested loops. */
  method FindPair(m: Motif, body: seq<Fact>) returns (found: bool, i: nat, j: nat)
    ensures found ==> FirstPair(m, body, i, j)
    ensures !found ==> NoPair(m, body)
  {
    i, j := 0, 0;
    while i < |body|
      invariant i <= |body|
      invariant forall k: nat, l: nat :: k < i && l < |body| ==> !Joins(m, body, k, l)
    {
      j := 0;
      while j < |body|
        invariant j <= |body| && forall l: nat :: l < j ==> !Joins(m, body, i, l)
      {
        if Joins(m, body, i, j) { return true, i, j; }
        j := j + 1;
      }
      i := i + 1;
    }
    found := false;
  }

  // ---------- an unchanged counter means an unchanged body ----------

  lemma {:induction false} ExprUntouched(m: Motif, view: string, prefix: string, e: Expr, k: nat)
    requires RewriteExpr(m, view, prefix, e, k).counter == k
    ensures RewriteExpr(m, view, prefix, e, k) == Rewritten(e, [], k)
    decreases e, 1
  {
    if e.Call? { ArgsUntouched(m, view, prefix, e.args, k); }
  }

  lemma {:induction false} ArgsUntouched(m: Motif, view: string, prefix: string, args: seq<Expr>, k: nat)
    requires RewriteArgs(m, view, prefix, args, k).counter == k
    ensures RewriteArgs(m, view, prefix, args, k) == RewrittenArgs(args, [], k)
    decreases args, 0
  {
    if args != [] {
      var n := |args| - 1;
      ArgsUntouched(m, view, prefix, args[..n], k);
      ExprUntouched(m, view, prefix, args[n], k);
      assert args[..n] + [args[n]] == args;
    }
  }

  lemma FactUntouched(m: Motif, view: string, prefix: string, f: Fact, k: nat)
    requires RewriteFact(m, view, prefix, f, k).counter == k
    ensures RewriteFact(m, view, prefix, f, k) == RewrittenFacts([f], [], k)
  {
    match f
    case Eq(x, y) => ExprUntouched(m, view, prefix, x, k); ExprUntouched(m, view, prefix, y, k);
    case Holds(e) => ExprUntouched(m, view, prefix, e, k);
  }

  lemma {:induction false} NothingRewritten(m: Motif, view: string, prefix: string, body: seq<Fact>, k: nat)
    requires RewriteFacts(m, view, prefix, body, k).counter == k
    ensures RewriteFacts(m, view, prefix, body, k) == RewrittenFacts(body, [], k)
  {
    if body != [] {
      var n := |body| - 1;
      NothingRewritten(m, view, prefix, body[..n], k);
      FactUntouched(m, view, prefix, body[n], k);
      assert body[..n] + [body[n]] == body;
    }
  }

  // ---------- rewritten bodies have the same matches ----------

  lemma FusedWellFormed(c: Schemas, m: Motif, view: string, body: seq<Fact>, i: nat, j: nat)
    requires view !in c && (forall f :: f in body ==> WellFormedFact(c, f)) && i < |body| && j < |body| && Joins(m, body, i, j)
    ensures forall f :: f in Fused(m, view, body, i, j) ==> WellFormedFact(c, f)
  {
    assert body[i] in body && body[j] in body;
    var xs, ys := body[i].expr.args, body[j].expr.args;
    assert WellFormed(c, body[i].expr) && WellFormed(c, body[j].expr);
    var fields := xs + Without(ys, m.bi);
    forall k | 0 <= k < |fields| ensures WellFormed(c, fields[k]) {
      if k >= |xs| { assert fields[k] == Without(ys, m.bi)[k - |xs|]; }
    }
    assert WellFormed(c, Call(view, fields));
  }

  lemma {:induction false} FuseSame(c: Schemas, st: Store, m: Motif, body: seq<Fact>, env: Env)
    requires ValidMotif(c, m) && m.Shared? && ExactView(c, st, m, false) && st.view !in c
    requires forall f :: f in body ==> WellFormedFact(c, f)
    ensures BodyHolds(st, FuseAll(m, st.view, body), env) <==> BodyHolds(st, body, env)
    decreases |body|
  {
    if i: nat, j: nat :| FirstPair(m, body, i, j) {
      FuseStep(m, st.view, body, i, j);
      FusedWellFormed(c, m, st.view, body, i, j);
      FuseSame(c, st, m, Fused(m, st.view, body, i, j), env);
      FusedSameMatches(c, st, m, body, i, j, env);
    }
  }

  lemma RootsSame(c: Schemas, st: Store, m: Motif, body: seq<Fact>, env: Env)
    requires ValidMotif(c, m) && m.Nested? && ExactView(c, st, m, true) && forall f :: f in body ==> WellFormedFact(c, f)
    ensures BodyHolds(st, RewriteRoots(m, st.view, body), env) <==> BodyHolds(st, body, env)
  {
    var now := RewriteRoots(m, st.view, body);
    forall i | 0 <= i < |body| ensures FactHolds(st, now[i], env) <==> FactHolds(st, body[i], env) {
      assert body[i] in body;
      RootSameMatches(c, st, m, body[i], env);
    }
    if BodyHolds(st, now, env) {
      forall f | f in body ensures FactHolds(st, f, env) {
        var i :| 0 <= i < |body| && body[i] == f;
        assert now[i] in now;
      }
    }
    if BodyHolds(st, body, env) {
      forall f | f in now ensures FactHolds(st, f, env) {
        var i :| 0 <= i < |now| && now[i] == f;
        assert body[i] in body;
      }
    }
  }

  lemma SameBodySameMatches(st: Store, a: seq<Fact>, b: seq<Fact>, scope: set<string>)
    requires forall env: Env :: BodyHolds(st, a, env) <==> BodyHolds(st, b, env)
    ensures Matches(st, a, scope) == Matches(st, b, scope)
  {
    forall env: Env ensures IsMatch(st, a, scope, env) <==> IsMatch(st, b, scope, env) {
      if full: Env :| Extends(full, env) && BodyHolds(st, a, full) { assert BodyHolds(st, b, full); }
      if full: Env :| Extends(full, env) && BodyHolds(st, b, full) { assert BodyHolds(st, a, full); }
    }
  }

  /** Whenever the view is the join, the rewritten body has exactly the matches of the original. */
  lemma RewriteSameMatches(c: Schemas, st: Store, m: Motif, prefix: string, projected: bool, body: seq<Fact>, scope: set<string>)
    requires ValidMotif(c, m) && (projected ==> m.Nested?) && ExactView(c, st, m, projected) && st.view !in c
    requires forall f :: f in body ==> WellFormedFact(c, f)
    requires KnownBody(prefix, 0, body) && Older(prefix, scope)
    ensures Matches(st, RewriteBody(m, st.view, prefix, projected, body), scope) == Matches(st, body, scope)
  {
    if m.Shared? {
      forall env: Env ensures BodyHolds(st, FuseAll(m, st.view, body), env) <==> BodyHolds(st, body, env) {
        FuseSame(c, st, m, body, env);
      }
      SameBodySameMatches(st, FuseAll(m, st.view, body), body, scope);
    } else if projected {
      forall env: Env ensures BodyHolds(st, RewriteRoots(m, st.view, body), env) <==> BodyHolds(st, body, env) {
        RootsSame(c, st, m, body, env);
      }
      SameBodySameMatches(st, RewriteRoots(m, st.view, body), body, scope);
    } else {
      NestedSameMatches(c, st, m, prefix, body, scope);
    }
  }

  // ---------- bodies that do not read the view ----------

  predicate Unread(view: string, e: Expr) {
    e.Call? ==> e.op != view && forall i :: 0 <= i < |e.args| ==> Unread(view, e.args[i])
  }

  predicate UnreadFact(view: string, f: Fact) {
    match f case Eq(l, r) => Unread(view, l) && Unread(view, r) case Holds(e) => Unread(view, e)
  }

  lemma {:induction false} EvalUnread(st: Store, rows: iset<Row>, e: Expr, env: Env)
    requires Unread(st.view, e)
    ensures Eval(st.(rows := rows), e, env) == Eval(st, e, env)
    decreases e
  {
    if e.Call? {
      var other := st.(rows := rows);
      forall i | 0 <= i < |e.args| ensures Eval(other, e.args[i], env) == Eval(st, e.args[i], env) {
        EvalUnread(st, rows, e.args[i], env);
      }
      if EvalAll(st, e.args, env).Some? { EvalAllIs(other, e.args, env, EvalAll(st, e.args, env).value); }
    }
  }

  /** The contents of the view do not matter to a body that does not read it. */
  lemma UnreadMatches(st: Store, rows: iset<Row>, body: seq<Fact>, scope: set<string>)
    requires forall f :: f in body ==> UnreadFact(st.view, f)
    ensures Matches(st.(rows := rows), body, scope) == Matches(st, body, scope)
  {
    var other := st.(rows := rows);
    forall env: Env ensures BodyHolds(other, body, env) <==> BodyHolds(st, body, env) {
      forall f | f in body ensures FactHolds(other, f, env) <==> FactHolds(st, f, env) {
        match f
        case Eq(l, r) => EvalUnread(st, rows, l, env); EvalUnread(st, rows, r, env);
        case Holds(e) => EvalUnread(st, rows, e, env);
      }
    }
    forall env: Env ensures IsMatch(other, body, scope, env) <==> IsMatch(st, body, scope, env) {
      if full: Env :| Extends(full, env) && BodyHolds(other, body, full) { assert BodyHolds(st, body, full); }
      if full: Env :| Extends(full, env) && BodyHolds(st, body, full) { assert BodyHolds(other, body, full); }
    }
  }
}
