/**
 * Materialised views over rule bodies (examples/eggcc_marker.rs).
 *
 * A motif is a join of two constructor tables.  A builder rule materialises it
 * in a view relation, and rule bodies are rewritten to read the view.  The
 * theorems of this module say that the builder computes exactly the join and
 * that a rewritten body has the same matches whenever the view is the join.
 */
module MarkerRewrite {
  import opened Wrappers
  import opened FactQueries

  datatype Expr = Var(name: string) | Lit(value: Value) | Call(op: string, args: seq<Expr>)
  datatype Fact = Eq(left: Expr, right: Expr) | Holds(expr: Expr)
  datatype Motif = Nested(outer: string, slot: nat, inner: string) | Shared(a: string, ai: nat, b: string, bi: nat)
  datatype Constructor = Constructor(args: seq<string>, out: string)

  type Env = map<string, Value>
  type Schemas = map<string, Constructor>

  // ---------- matching ----------

  /** Tables, primitives and one view relation. */
  datatype Store = Store(tables: Tables, prim: (string, Row) -> Option<Value>, view: string, rows: iset<Row>)

  ghost function Lookup(st: Store, op: string, key: Row): Option<Value> {
    if op == st.view then (if key in st.rows then Some(0) else None)
    else if op in st.tables then (if key in st.tables[op] then Some(st.tables[op][key]) else None)
    else st.prim(op, key)
  }

  ghost function Eval(st: Store, e: Expr, env: Env): Option<Value> {
    match e
    case Var(x) => if x in env then Some(env[x]) else None
    case Lit(v) => Some(v)
    case Call(op, args) =>
      var key := EvalAll(st, args, env);
      if key.None? then None else Lookup(st, op, key.value)
  }

  ghost function EvalAll(st: Store, es: seq<Expr>, env: Env): (r: Option<Row>)
    ensures r.Some? <==> forall i :: 0 <= i < |es| ==> Eval(st, es[i], env).Some?
    ensures r.Some? ==> |r.value| == |es| && forall i :: 0 <= i < |es| ==> Eval(st, es[i], env) == Some(r.value[i])
  {
    if es == [] then Some([])
    else
      var n := |es| - 1;
      var front, last := EvalAll(st, es[..n], env), Eval(st, es[n], env);
      assert forall i :: 0 <= i < n ==> es[..n][i] == es[i];
      if front.Some? && last.Some? then Some(front.value + [last.value]) else None
  }

  ghost predicate FactHolds(st: Store, f: Fact, env: Env) {
    match f
    case Eq(l, r) => Eval(st, l, env).Some? && Eval(st, l, env) == Eval(st, r, env)
    case Holds(e) => Eval(st, e, env).Some?
  }

  ghost predicate BodyHolds(st: Store, body: seq<Fact>, env: Env) {
    forall f :: f in body ==> FactHolds(st, f, env)
  }

  ghost predicate IsMatch(st: Store, body: seq<Fact>, scope: set<string>, env: Env) {
    env.Keys == scope && exists full: Env :: Extends(full, env) && BodyHolds(st, body, full)
  }

  ghost predicate Extends(full: Env, env: Env) {
    forall x :: x in env ==> x in full && full[x] == env[x]
  }

  /** The matches of a body, as bindings of the variables in `scope`. */
  ghost function Matches(st: Store, body: seq<Fact>, scope: set<string>): iset<Env> {
    iset env: Env | IsMatch(st, body, scope, env)
  }

  // ---------- motifs and their joins ----------

  predicate ValidMotif(c: Schemas, m: Motif) {
    match m
    case Nested(outer, slot, inner) => outer in c && inner in c && slot < |c[outer].args| && c[outer].args[slot] == c[inner].out
    case Shared(a, ai, b, bi) => a in c && b in c && ai < |c[a].args| && bi < |c[b].args| && c[a].args[ai] == c[b].args[bi]
  }

  function Without<T>(s: seq<T>, i: nat): (r: seq<T>)
    requires i < |s|
    ensures |r| == |s| - 1
  {
    s[..i] + s[i + 1..]
  }

  function With<T>(s: seq<T>, i: nat, x: T): (r: seq<T>)
    requires i <= |s|
    ensures |r| == |s| + 1 && r[i] == x && Without(r, i) == s
  {
    s[..i] + [x] + s[i..]
  }

  /** The value of the outer constructor for a row of the flattened arguments. */
  ghost function NestedRoot(c: Schemas, t: Tables, m: Motif, row: Row): Option<Value>
    requires m.Nested? && ValidMotif(c, m)
  {
    var mine := |c[m.inner].args|;
    if m.outer in t && m.inner in t && |row| == |c[m.outer].args| - 1 + mine && row[m.slot..m.slot + mine] in t[m.inner] then
      var whole := row[..m.slot] + [t[m.inner][row[m.slot..m.slot + mine]]] + row[m.slot + mine..];
      if whole in t[m.outer] then Some(t[m.outer][whole]) else None
    else None
  }

  /** Rows of the join; `projected` leaves out the value of the outer constructor. */
  ghost predicate InJoin(c: Schemas, t: Tables, m: Motif, projected: bool, row: Row)
    requires ValidMotif(c, m)
  {
    match m
    case Nested(_, _, _) =>
      if projected then NestedRoot(c, t, m, row).Some?
      else |row| > 0 && NestedRoot(c, t, m, row[..|row| - 1]) == Some(row[|row| - 1])
    case Shared(a, ai, b, bi) =>
      var na, nb := |c[a].args|, |c[b].args|;
      && a in t && b in t && |row| == na + nb - 1
      && row[..na] in t[a] && With(row[na..], bi, row[ai]) in t[b]
  }

  ghost function Join(c: Schemas, t: Tables, m: Motif, projected: bool): iset<Row>
    requires ValidMotif(c, m)
  {
    iset row: Row | InJoin(c, t, m, projected, row)
  }

  /** The view holds exactly the join. */
  ghost predicate ExactView(c: Schemas, st: Store, m: Motif, projected: bool)
    requires ValidMotif(c, m)
  {
    st.rows == Join(c, st.tables, m, projected) && ViewApart(c, st, m)
  }

  /** The view is a new relation, and the motif speaks of tables. */
  ghost predicate ViewApart(c: Schemas, st: Store, m: Motif)
    requires ValidMotif(c, m)
  {
    match m
    case Nested(outer, _, inner) => outer in st.tables && inner in st.tables && st.view != outer && st.view != inner
    case Shared(a, _, b, _) => a in st.tables && b in st.tables && st.view != a && st.view != b
  }

  // ---------- well-formed expressions ----------

  /** Constructors are applied to as many arguments as they have. */
  predicate WellFormed(c: Schemas, e: Expr) {
    e.Call? ==> (e.op in c ==> |e.args| == |c[e.op].args|) && forall i :: 0 <= i < |e.args| ==> WellFormed(c, e.args[i])
  }

  predicate WellFormedFact(c: Schemas, f: Fact) {
    match f case Eq(l, r) => WellFormed(c, l) && WellFormed(c, r) case Holds(e) => WellFormed(c, e)
  }

  // ---------- nested motifs ----------

  /** `outer` applied to `inner` at the slot. */
  predicate IsNested(m: Motif, op: string, args: seq<Expr>) {
    m.Nested? && op == m.outer && m.slot < |args| && args[m.slot].Call? && args[m.slot].op == m.inner
  }

  function Spliced(m: Motif, args: seq<Expr>): seq<Expr>
    requires m.Nested? && m.slot < |args| && args[m.slot].Call?
  {
    args[..m.slot] + args[m.slot].args + args[m.slot + 1..]
  }

  ghost function Both(a: Option<Row>, b: Option<Row>): Option<Row> {
    if a.Some? && b.Some? then Some(a.value + b.value) else None
  }

  lemma {:induction false} EvalAllConcat(st: Store, xs: seq<Expr>, ys: seq<Expr>, env: Env)
    ensures EvalAll(st, xs + ys, env) == Both(EvalAll(st, xs, env), EvalAll(st, ys, env))
  {
    if ys == [] {
      assert xs + ys == xs;
      if EvalAll(st, xs, env).Some? { assert EvalAll(st, xs, env).value + [] == EvalAll(st, xs, env).value; }
    } else {
      var n := |ys| - 1;
      assert (xs + ys)[..|xs| + n] == xs + ys[..n] && (xs + ys)[|xs| + n] == ys[n];
      EvalAllConcat(st, xs, ys[..n], env);
      var vx, vy, v := EvalAll(st, xs, env), EvalAll(st, ys[..n], env), Eval(st, ys[n], env);
      if vx.Some? && vy.Some? && v.Some? {
        assert (vx.value + vy.value) + [v.value] == vx.value + (vy.value + [v.value]);
      }
    }
  }

  lemma EvalOne(st: Store, e: Expr, env: Env)
    ensures EvalAll(st, [e], env) == if Eval(st, e, env).Some? then Some([Eval(st, e, env).value]) else None
  {
    var all := EvalAll(st, [e], env);
    if all.Some? { assert all.value == [Eval(st, [e][0], env).value]; }
    assert [e][0] == e;
  }

  lemma EvalThree(st: Store, xs: seq<Expr>, ys: seq<Expr>, zs: seq<Expr>, env: Env)
    ensures EvalAll(st, xs + ys + zs, env) == Both(Both(EvalAll(st, xs, env), EvalAll(st, ys, env)), EvalAll(st, zs, env))
  {
    EvalAllConcat(st, xs, ys, env);
    EvalAllConcat(st, xs + ys, zs, env);
  }

  /** The root of a row given by its parts. */
  lemma RootOfParts(c: Schemas, t: Tables, m: Motif, x: Row, key: Row, z: Row)
    requires ValidMotif(c, m) && m.Nested? && m.outer in t && m.inner in t
    requires |x| == m.slot && |key| == |c[m.inner].args| && |x| + 1 + |z| == |c[m.outer].args|
    ensures NestedRoot(c, t, m, x + key + z) ==
              if key in t[m.inner] && x + [t[m.inner][key]] + z in t[m.outer] then Some(t[m.outer][x + [t[m.inner][key]] + z])
              else None
  {
    var row := x + key + z;
    assert row[m.slot..m.slot + |key|] == key && row[..m.slot] == x && row[m.slot + |key|..] == z;
  }

  /** The root of a flattened row is the value of the nested call. */
  lemma RootIsValue(c: Schemas, st: Store, m: Motif, x: Row, key: Row, z: Row, inner: Option<Value>)
    requires ValidMotif(c, m) && m.Nested? && ViewApart(c, st, m)
    requires |x| == m.slot && |key| == |c[m.inner].args| && |x| + 1 + |z| == |c[m.outer].args|
    requires inner == Lookup(st, m.inner, key)
    ensures NestedRoot(c, st.tables, m, x + key + z) == if inner.None? then None else Lookup(st, m.outer, x + [inner.value] + z)
  {
    RootOfParts(c, st.tables, m, x, key, z);
  }

  /** Flattened arguments evaluate to a row of the join exactly when the nested call evaluates, and then to its root. */
  lemma SplicedMeansNested(c: Schemas, st: Store, m: Motif, args: seq<Expr>, env: Env)
    requires ValidMotif(c, m) && m.Nested? && ViewApart(c, st, m) && IsNested(m, m.outer, args)
    requires |args| == |c[m.outer].args| && |args[m.slot].args| == |c[m.inner].args|
    ensures var row := EvalAll(st, Spliced(m, args), env);
            Eval(st, Call(m.outer, args), env) == if row.None? then None else NestedRoot(c, st.tables, m, row.value)
  {
    var x, e, z := args[..m.slot], args[m.slot], args[m.slot + 1..];
    assert args == x + [e] + z;
    EvalThree(st, x, [e], z, env);
    EvalThree(st, x, e.args, z, env);
    EvalOne(st, e, env);
    var vx, vk, vz := EvalAll(st, x, env), EvalAll(st, e.args, env), EvalAll(st, z, env);
    if vx.Some? && vk.Some? && vz.Some? {
      RootIsValue(c, st, m, vx.value, vk.value, vz.value, Eval(st, e, env));
    }
  }

  // ---------- fresh names ----------

  const DIGITS := "0123456789"

  function Digits(k: nat): (r: string)
    ensures |r| > 0
  {
    if k < 10 then [DIGITS[k]] else Digits(k / 10) + [DIGITS[k % 10]]
  }

  lemma {:induction false} DigitsInjective(a: nat, b: nat)
    requires Digits(a) == Digits(b)
    ensures a == b
  {
    assert Digits(a)[|Digits(a)| - 1] == DIGITS[a % 10] && Digits(b)[|Digits(b)| - 1] == DIGITS[b % 10];
    SameDigit(a % 10, b % 10);
    if a >= 10 && b >= 10 {
      assert Digits(a)[..|Digits(a)| - 1] == Digits(a / 10) && Digits(b)[..|Digits(b)| - 1] == Digits(b / 10);
      DigitsInjective(a / 10, b / 10);
    }
  }

  lemma SameDigit(x: nat, y: nat)
    requires x < 10 && y < 10 && DIGITS[x] == DIGITS[y]
    ensures x == y
  {
    assert forall i, j :: 0 <= i < j < 10 ==> DIGITS[i] != DIGITS[j];
  }

  /** The k-th generated variable. */
  function Binding(prefix: string, k: nat): string {
    prefix + "_" + Digits(k)
  }

  lemma BindingInjective(prefix: string, a: nat, b: nat)
    requires Binding(prefix, a) == Binding(prefix, b)
    ensures a == b
  {
    assert Binding(prefix, a)[|prefix| + 1..] == Digits(a) && Binding(prefix, b)[|prefix| + 1..] == Digits(b);
    DigitsInjective(a, b);
  }

  /** Variables of the program, and the first `k` generated ones. */
  ghost predicate Known(prefix: string, k: nat, x: string) {
    !(prefix <= x) || exists j: nat :: j < k && x == Binding(prefix, j)
  }

  lemma NextUnknown(prefix: string, k: nat)
    ensures !Known(prefix, k, Binding(prefix, k))
  {
    assert prefix <= Binding(prefix, k);
    forall j: nat | j < k ensures Binding(prefix, k) != Binding(prefix, j) {
      if Binding(prefix, k) == Binding(prefix, j) { BindingInjective(prefix, k, j); }
    }
  }

  ghost predicate KnownExpr(prefix: string, k: nat, e: Expr) {
    match e
    case Var(x) => Known(prefix, k, x)
    case Lit(_) => true
    case Call(_, args) => KnownAll(prefix, k, args)
  }

  ghost predicate KnownAll(prefix: string, k: nat, args: seq<Expr>) {
    forall i :: 0 <= i < |args| ==> KnownExpr(prefix, k, args[i])
  }

  ghost predicate KnownFact(prefix: string, k: nat, f: Fact) {
    match f case Eq(l, r) => KnownExpr(prefix, k, l) && KnownExpr(prefix, k, r) case Holds(e) => KnownExpr(prefix, k, e)
  }

  lemma {:induction false} KnownGrows(prefix: string, k: nat, l: nat, e: Expr)
    requires KnownExpr(prefix, k, e) && k <= l
    ensures KnownExpr(prefix, l, e)
    decreases e
  {
    match e
    case Call(_, args) =>
      forall i | 0 <= i < |args| ensures KnownExpr(prefix, l, args[i]) { KnownGrows(prefix, k, l, args[i]); }
    case Var(x) => if prefix <= x { var j: nat :| j < k && x == Binding(prefix, j); }
    case Lit(_) =>
  }

  /** Environments that agree on the variables known at `k`. */
  ghost predicate AgreeKnown(prefix: string, k: nat, a: Env, b: Env) {
    forall x {:trigger x in a} {:trigger x in b} :: Known(prefix, k, x) ==> (x in a <==> x in b) && (x in a ==> a[x] == b[x])
  }

  lemma {:induction false} EvalAgrees(st: Store, prefix: string, k: nat, e: Expr, a: Env, b: Env)
    requires AgreeKnown(prefix, k, a, b) && KnownExpr(prefix, k, e)
    ensures Eval(st, e, a) == Eval(st, e, b)
    decreases e
  {
    match e
    case Var(x) => assert Known(prefix, k, x); assert x in a <==> x in b;
    case Lit(_) =>
    case Call(_, args) =>
      forall i | 0 <= i < |args| ensures Eval(st, args[i], a) == Eval(st, args[i], b) {
        EvalAgrees(st, prefix, k, args[i], a, b);
      }
      if EvalAll(st, args, a).Some? { EvalAllIs(st, args, b, EvalAll(st, args, a).value); }
  }

  lemma EvalAllIs(st: Store, es: seq<Expr>, env: Env, row: Row)
    requires |row| == |es| && forall i :: 0 <= i < |es| ==> Eval(st, es[i], env) == Some(row[i])
    ensures EvalAll(st, es, env) == Some(row)
  {
    assert EvalAll(st, es, env).value == row;
  }

  lemma FactAgrees(st: Store, prefix: string, k: nat, f: Fact, a: Env, b: Env)
    requires AgreeKnown(prefix, k, a, b) && KnownFact(prefix, k, f)
    ensures FactHolds(st, f, a) <==> FactHolds(st, f, b)
  {
    match f
    case Eq(l, r) => EvalAgrees(st, prefix, k, l, a, b); EvalAgrees(st, prefix, k, r, a, b);
    case Holds(e) => EvalAgrees(st, prefix, k, e, a, b);
  }

  // ---------- rewriting nested expressions ----------

  datatype Rewritten = Rewritten(expr: Expr, added: seq<Fact>, counter: nat)
  datatype RewrittenArgs = RewrittenArgs(args: seq<Expr>, added: seq<Fact>, counter: nat)

  /** Inner calls first; then an occurrence of the motif becomes a generated variable bound by the view. */
  function RewriteExpr(m: Motif, view: string, prefix: string, e: Expr, k: nat): (r: Rewritten)
    ensures r.counter >= k
    ensures r.expr.Call? ==> e.Call? && r.expr.op == e.op && |r.expr.args| == |e.args|
    decreases e
  {
    if !e.Call? then Rewritten(e, [], k)
    else
      var a := RewriteArgs(m, view, prefix, e.args, k);
      if IsNested(m, e.op, a.args) then
        var root := Var(Binding(prefix, a.counter));
        Rewritten(root, a.added + [Holds(Call(view, Spliced(m, a.args) + [root]))], a.counter + 1)
      else Rewritten(Call(e.op, a.args), a.added, a.counter)
  }

  function RewriteArgs(m: Motif, view: string, prefix: string, args: seq<Expr>, k: nat): (r: RewrittenArgs)
    ensures r.counter >= k && |r.args| == |args|
    ensures forall i :: 0 <= i < |args| && r.args[i].Call? ==>
              args[i].Call? && r.args[i].op == args[i].op && |r.args[i].args| == |args[i].args|
    decreases args
  {
    if args == [] then RewrittenArgs([], [], k)
    else
      var n := |args| - 1;
      var front := RewriteArgs(m, view, prefix, args[..n], k);
      var last := RewriteExpr(m, view, prefix, args[n], front.counter);
      RewrittenArgs(front.args + [last.expr], front.added + last.added, last.counter)
  }

  lemma EvalSnoc(st: Store, fields: seq<Expr>, root: Expr, env: Env)
    ensures var r, v := EvalAll(st, fields, env), Eval(st, root, env);
            EvalAll(st, fields + [root], env) == if r.Some? && v.Some? then Some(r.value + [v.value]) else None
  {
    var all := fields + [root];
    assert all[..|all| - 1] == fields && all[|all| - 1] == root;
  }

  /** The row of a view fact splits into the flattened arguments and the root. */
  lemma ViewFact(st: Store, fields: seq<Expr>, root: Expr, env: Env)
    ensures var r, v := EvalAll(st, fields, env), Eval(st, root, env);
            FactHolds(st, Holds(Call(st.view, fields + [root])), env) <==> r.Some? && v.Some? && r.value + [v.value] in st.rows
  {
    EvalSnoc(st, fields, root, env);
  }

  /** Over an exact view, the added facts make the rewritten expression mean what the original did. */
  lemma {:induction false} RewriteSound(c: Schemas, st: Store, m: Motif, prefix: string, e: Expr, k: nat, env: Env)
    requires ValidMotif(c, m) && m.Nested? && ExactView(c, st, m, false) && WellFormed(c, e)
    requires var r := RewriteExpr(m, st.view, prefix, e, k); BodyHolds(st, r.added, env) && Eval(st, r.expr, env).Some?
    ensures Eval(st, e, env) == Eval(st, RewriteExpr(m, st.view, prefix, e, k).expr, env)
    decreases e, 1
  {
    if e.Call? {
      var a := RewriteArgs(m, st.view, prefix, e.args, k);
      var r := RewriteExpr(m, st.view, prefix, e, k);
      assert BodyHolds(st, a.added, env) by {
        forall f | f in a.added ensures FactHolds(st, f, env) { assert f in r.added; }
      }
      if IsNested(m, e.op, a.args) {
        var root := r.expr;
        var fact := Holds(Call(st.view, Spliced(m, a.args) + [root]));
        assert fact in r.added && FactHolds(st, fact, env);
        ViewFact(st, Spliced(m, a.args), root, env);
        NestedShape(c, m, st.view, prefix, e, k);
        SplicedMeansNested(c, st, m, a.args, env);
        var fields := EvalAll(st, Spliced(m, a.args), env).value;
        var row := fields + [Eval(st, root, env).value];
        assert InJoin(c, st.tables, m, false, row) && row[..|row| - 1] == fields;
      }
      assert EvalAll(st, a.args, env).Some?;
      RewriteArgsSound(c, st, m, prefix, e.args, k, env);
      EvalAllIs(st, e.args, env, EvalAll(st, a.args, env).value);
    }
  }

  /** A rewritten occurrence still has the arities of the constructors. */
  lemma NestedShape(c: Schemas, m: Motif, view: string, prefix: string, e: Expr, k: nat)
    requires ValidMotif(c, m) && e.Call? && WellFormed(c, e)
    requires var a := RewriteArgs(m, view, prefix, e.args, k); IsNested(m, e.op, a.args)
    ensures var a := RewriteArgs(m, view, prefix, e.args, k);
            |a.args| == |c[m.outer].args| && |a.args[m.slot].args| == |c[m.inner].args|
  {
    assert WellFormed(c, e.args[m.slot]);
  }

  lemma {:induction false} RewriteArgsSound(c: Schemas, st: Store, m: Motif, prefix: string, args: seq<Expr>, k: nat, env: Env)
    requires ValidMotif(c, m) && m.Nested? && ExactView(c, st, m, false)
    requires forall i :: 0 <= i < |args| ==> WellFormed(c, args[i])
    requires var r := RewriteArgs(m, st.view, prefix, args, k);
             BodyHolds(st, r.added, env) && forall i :: 0 <= i < |args| ==> Eval(st, r.args[i], env).Some?
    ensures forall i :: 0 <= i < |args| ==> Eval(st, args[i], env) == Eval(st, RewriteArgs(m, st.view, prefix, args, k).args[i], env)
    decreases args, 0
  {
    if args != [] {
      var n := |args| - 1;
      var r := RewriteArgs(m, st.view, prefix, args, k);
      var front := RewriteArgs(m, st.view, prefix, args[..n], k);
      var last := RewriteExpr(m, st.view, prefix, args[n], front.counter);
      PartsHold(st, front, last, env);
      RewriteArgsSound(c, st, m, prefix, args[..n], k, env);
      RewriteSound(c, st, m, prefix, args[n], front.counter, env);
      assert forall i :: 0 <= i < n ==> args[i] == args[..n][i] && r.args[i] == front.args[i];
    }
  }

  lemma PartsHold(st: Store, front: RewrittenArgs, last: Rewritten, env: Env)
    requires BodyHolds(st, front.added + last.added, env)
    requires var all := front.args + [last.expr]; forall i :: 0 <= i < |all| ==> Eval(st, all[i], env).Some?
    ensures BodyHolds(st, front.added, env) && BodyHolds(st, last.added, env)
    ensures (forall i :: 0 <= i < |front.args| ==> Eval(st, front.args[i], env).Some?) && Eval(st, last.expr, env).Some?
  {
    var all := front.args + [last.expr];
    assert forall i :: 0 <= i < |front.args| ==> all[i] == front.args[i];
    assert all[|front.args|] == last.expr;
    forall f | f in front.added || f in last.added ensures FactHolds(st, f, env) { assert f in front.added + last.added; }
  }

  lemma {:induction false} RewriteKnown(m: Motif, view: string, prefix: string, e: Expr, k: nat)
    requires KnownExpr(prefix, k, e)
    ensures var r := RewriteExpr(m, view, prefix, e, k);
            KnownExpr(prefix, r.counter, r.expr) && forall f :: f in r.added ==> KnownFact(prefix, r.counter, f)
    decreases e, 1
  {
    if e.Call? {
      var a := RewriteArgs(m, view, prefix, e.args, k);
      var r := RewriteExpr(m, view, prefix, e, k);
      RewriteArgsKnown(m, view, prefix, e.args, k);
      if IsNested(m, e.op, a.args) {
        assert Known(prefix, r.counter, Binding(prefix, a.counter));
        forall i | 0 <= i < |a.args| ensures KnownExpr(prefix, r.counter, a.args[i]) {
          KnownGrows(prefix, a.counter, r.counter, a.args[i]);
        }
        SplicedKnown(m, prefix, r.counter, a.args);
        KnownConcat(prefix, r.counter, Spliced(m, a.args), [r.expr]);
        forall f | f in r.added ensures KnownFact(prefix, r.counter, f) {
          if f in a.added { FactKnownGrows(prefix, a.counter, r.counter, f); }
        }
      }
    }
  }

  lemma KnownConcat(prefix: string, k: nat, xs: seq<Expr>, ys: seq<Expr>)
    requires KnownAll(prefix, k, xs) && KnownAll(prefix, k, ys)
    ensures KnownAll(prefix, k, xs + ys)
  {
  }

  lemma SplicedKnown(m: Motif, prefix: string, k: nat, args: seq<Expr>)
    requires KnownAll(prefix, k, args) && m.Nested? && m.slot < |args| && args[m.slot].Call?
    ensures KnownAll(prefix, k, Spliced(m, args))
  {
    assert KnownExpr(prefix, k, args[m.slot]);
    KnownConcat(prefix, k, args[..m.slot], args[m.slot].args);
    KnownConcat(prefix, k, args[..m.slot] + args[m.slot].args, args[m.slot + 1..]);
  }

  lemma FactKnownGrows(prefix: string, k: nat, l: nat, f: Fact)
    requires KnownFact(prefix, k, f) && k <= l
    ensures KnownFact(prefix, l, f)
  {
    match f
    case Eq(x, y) => KnownGrows(prefix, k, l, x); KnownGrows(prefix, k, l, y);
    case Holds(e) => KnownGrows(prefix, k, l, e);
  }

  lemma {:induction false} RewriteArgsKnown(m: Motif, view: string, prefix: string, args: seq<Expr>, k: nat)
    requires KnownAll(prefix, k, args)
    ensures var r := RewriteArgs(m, view, prefix, args, k);
            KnownAll(prefix, r.counter, r.args) && forall f :: f in r.added ==> KnownFact(prefix, r.counter, f)
    decreases args, 0
  {
    if args != [] {
      var n := |args| - 1;
      var r := RewriteArgs(m, view, prefix, args, k);
      var front := RewriteArgs(m, view, prefix, args[..n], k);
      var last := RewriteExpr(m, view, prefix, args[n], front.counter);
      RewriteArgsKnown(m, view, prefix, args[..n], k);
      KnownGrows(prefix, k, front.counter, args[n]);
      RewriteKnown(m, view, prefix, args[n], front.counter);
      forall i | 0 <= i < |args| ensures KnownExpr(prefix, r.counter, r.args[i]) {
        if i < n {
          KnownGrows(prefix, front.counter, r.counter, front.args[i]);
          assert r.args[i] == front.args[i];
        } else {
          assert r.args[i] == last.expr;
        }
      }
      forall f | f in r.added ensures KnownFact(prefix, r.counter, f) {
        if f in front.added { FactKnownGrows(prefix, front.counter, r.counter, f); } else { assert f in last.added; }
      }
    }
  }

  lemma AgreeThen(prefix: string, k: nat, l: nat, a: Env, b: Env, c: Env)
    requires k <= l && AgreeKnown(prefix, k, a, b) && AgreeKnown(prefix, l, b, c)
    ensures AgreeKnown(prefix, k, a, c)
  {
    forall x | Known(prefix, k, x) ensures (x in a <==> x in c) && (x in a ==> a[x] == c[x]) {
      assert Known(prefix, l, x);
      assert x in b <==> x in c;
      assert x in a <==> x in b;
    }
  }

  lemma BodyAgrees(st: Store, prefix: string, k: nat, body: seq<Fact>, a: Env, b: Env)
    requires AgreeKnown(prefix, k, a, b) && forall f :: f in body ==> KnownFact(prefix, k, f)
    ensures BodyHolds(st, body, a) <==> BodyHolds(st, body, b)
  {
    forall f | f in body ensures FactHolds(st, f, a) <==> FactHolds(st, f, b) { FactAgrees(st, prefix, k, f, a, b); }
  }

  lemma BodyConcat(st: Store, xs: seq<Fact>, ys: seq<Fact>, env: Env)
    ensures BodyHolds(st, xs + ys, env) <==> BodyHolds(st, xs, env) && BodyHolds(st, ys, env)
  {
    if BodyHolds(st, xs + ys, env) {
      forall f | f in xs || f in ys ensures FactHolds(st, f, env) { assert f in xs + ys; }
    }
  }

  /** An evaluating expression keeps its value: the generated variables can be bound so that the added facts hold. */
  lemma {:induction false} RewriteComplete(c: Schemas, st: Store, m: Motif, prefix: string, e: Expr, k: nat, env: Env)
    returns (full: Env)
    requires ValidMotif(c, m) && m.Nested? && ExactView(c, st, m, false) && WellFormed(c, e)
    requires KnownExpr(prefix, k, e) && Eval(st, e, env).Some?
    ensures AgreeKnown(prefix, k, env, full)
    ensures var r := RewriteExpr(m, st.view, prefix, e, k);
            BodyHolds(st, r.added, full) && Eval(st, r.expr, full) == Eval(st, e, env)
    decreases e, 1
  {
    if !e.Call? { return env; }
    var a := RewriteArgs(m, st.view, prefix, e.args, k);
    var r := RewriteExpr(m, st.view, prefix, e, k);
    var mid := RewriteArgsComplete(c, st, m, prefix, e.args, k, env);
    RewriteArgsKnown(m, st.view, prefix, e.args, k);
    EvalAllIs(st, a.args, mid, EvalAll(st, e.args, env).value);
    if IsNested(m, e.op, a.args) {
      NestedShape(c, m, st.view, prefix, e, k);
      full := BindRoot(c, st, m, prefix, a, Eval(st, e, env).value, mid);
      AgreeThen(prefix, k, a.counter, env, mid, full);
      BodyConcat(st, a.added, r.added[|a.added|..], full);
      assert r.added == a.added + r.added[|a.added|..];
    } else {
      full := mid;
    }
  }

  /** Binding the generated variable of one occurrence. */
  lemma BindRoot(c: Schemas, st: Store, m: Motif, prefix: string, a: RewrittenArgs, v: Value, mid: Env) returns (full: Env)
    requires ValidMotif(c, m) && m.Nested? && ExactView(c, st, m, false) && IsNested(m, m.outer, a.args)
    requires |a.args| == |c[m.outer].args| && |a.args[m.slot].args| == |c[m.inner].args|
    requires KnownAll(prefix, a.counter, a.args)
    requires forall f :: f in a.added ==> KnownFact(prefix, a.counter, f)
    requires BodyHolds(st, a.added, mid) && Eval(st, Call(m.outer, a.args), mid) == Some(v)
    ensures AgreeKnown(prefix, a.counter, mid, full) && BodyHolds(st, a.added, full)
    ensures var root := Var(Binding(prefix, a.counter));
            Eval(st, root, full) == Some(v) && FactHolds(st, Holds(Call(st.view, Spliced(m, a.args) + [root])), full)
  {
    var x := Binding(prefix, a.counter);
    full := mid[x := v];
    NextUnknown(prefix, a.counter);
    assert AgreeKnown(prefix, a.counter, mid, full);
    BodyAgrees(st, prefix, a.counter, a.added, mid, full);
    assert KnownExpr(prefix, a.counter, Call(m.outer, a.args));
    EvalAgrees(st, prefix, a.counter, Call(m.outer, a.args), mid, full);
    SplicedMeansNested(c, st, m, a.args, full);
    var fields := EvalAll(st, Spliced(m, a.args), full).value;
    ViewFact(st, Spliced(m, a.args), Var(x), full);
    var row := fields + [v];
    assert row[..|row| - 1] == fields && InJoin(c, st.tables, m, false, row);
  }

  lemma {:induction false} RewriteArgsComplete(c: Schemas, st: Store, m: Motif, prefix: string, args: seq<Expr>, k: nat, env: Env)
    returns (full: Env)
    requires ValidMotif(c, m) && m.Nested? && ExactView(c, st, m, false)
    requires forall i :: 0 <= i < |args| ==> WellFormed(c, args[i]) && KnownExpr(prefix, k, args[i]) && Eval(st, args[i], env).Some?
    ensures AgreeKnown(prefix, k, env, full)
    ensures var r := RewriteArgs(m, st.view, prefix, args, k);
            BodyHolds(st, r.added, full) && forall i :: 0 <= i < |args| ==> Eval(st, r.args[i], full) == Eval(st, args[i], env)
    decreases args, 0
  {
    if args == [] { return env; }
    var n := |args| - 1;
    var front := RewriteArgs(m, st.view, prefix, args[..n], k);
    var last := RewriteExpr(m, st.view, prefix, args[n], front.counter);
    var mid := RewriteArgsComplete(c, st, m, prefix, args[..n], k, env);
    EvalAgrees(st, prefix, k, args[n], env, mid);
    KnownGrows(prefix, k, front.counter, args[n]);
    full := RewriteComplete(c, st, m, prefix, args[n], front.counter, mid);
    RewriteArgsKnown(m, st.view, prefix, args[..n], k);
    AgreeThen(prefix, k, front.counter, env, mid, full);
    StillComplete(st, prefix, front, args[..n], env, mid, full);
    BodyConcat(st, front.added, last.added, full);
    assert RewriteArgs(m, st.view, prefix, args, k).args == front.args + [last.expr];
  }

  /** Binding later variables keeps what the earlier arguments and facts say. */
  lemma StillComplete(st: Store, prefix: string, r: RewrittenArgs, args: seq<Expr>, env: Env, mid: Env, full: Env)
    requires AgreeKnown(prefix, r.counter, mid, full) && KnownAll(prefix, r.counter, r.args) && |r.args| == |args|
    requires BodyHolds(st, r.added, mid) && forall f :: f in r.added ==> KnownFact(prefix, r.counter, f)
    requires forall i :: 0 <= i < |args| ==> Eval(st, r.args[i], mid) == Eval(st, args[i], env)
    ensures BodyHolds(st, r.added, full) && forall i :: 0 <= i < |args| ==> Eval(st, r.args[i], full) == Eval(st, args[i], env)
  {
    BodyAgrees(st, prefix, r.counter, r.added, mid, full);
    forall i | 0 <= i < |args| ensures Eval(st, r.args[i], full) == Eval(st, args[i], env) {
      EvalAgrees(st, prefix, r.counter, r.args[i], mid, full);
    }
  }

  // ---------- rewriting whole bodies ----------

  datatype RewrittenFacts = RewrittenFacts(facts: seq<Fact>, added: seq<Fact>, counter: nat)

  function RewriteFact(m: Motif, view: string, prefix: string, f: Fact, k: nat): (r: RewrittenFacts)
    ensures r.counter >= k && |r.facts| == 1
  {
    match f
    case Eq(x, y) =>
      var rx := RewriteExpr(m, view, prefix, x, k);
      var ry := RewriteExpr(m, view, prefix, y, rx.counter);
      RewrittenFacts([Eq(rx.expr, ry.expr)], rx.added + ry.added, ry.counter)
    case Holds(e) =>
      var r := RewriteExpr(m, view, prefix, e, k);
      RewrittenFacts([Holds(r.expr)], r.added, r.counter)
  }

  function RewriteFacts(m: Motif, view: string, prefix: string, body: seq<Fact>, k: nat): (r: RewrittenFacts)
    ensures r.counter >= k && |r.facts| == |body|
  {
    if body == [] then RewrittenFacts([], [], k)
    else
      var n := |body| - 1;
      var front := RewriteFacts(m, view, prefix, body[..n], k);
      var last := RewriteFact(m, view, prefix, body[n], front.counter);
      RewrittenFacts(front.facts + last.facts, front.added + last.added, last.counter)
  }

  lemma FactSound(c: Schemas, st: Store, m: Motif, prefix: string, f: Fact, k: nat, env: Env)
    requires ValidMotif(c, m) && m.Nested? && ExactView(c, st, m, false) && WellFormedFact(c, f)
    requires var r := RewriteFact(m, st.view, prefix, f, k); BodyHolds(st, r.added, env) && BodyHolds(st, r.facts, env)
    ensures FactHolds(st, f, env)
  {
    var r := RewriteFact(m, st.view, prefix, f, k);
    assert r.facts[0] in r.facts;
    match f
    case Eq(x, y) =>
      var rx := RewriteExpr(m, st.view, prefix, x, k);
      var ry := RewriteExpr(m, st.view, prefix, y, rx.counter);
      BodyConcat(st, rx.added, ry.added, env);
      RewriteSound(c, st, m, prefix, x, k, env);
      RewriteSound(c, st, m, prefix, y, rx.counter, env);
    case Holds(e) => RewriteSound(c, st, m, prefix, e, k, env);
  }

  lemma {:induction false} FactsSound(c: Schemas, st: Store, m: Motif, prefix: string, body: seq<Fact>, k: nat, env: Env)
    requires ValidMotif(c, m) && m.Nested? && ExactView(c, st, m, false) && forall f :: f in body ==> WellFormedFact(c, f)
    requires var r := RewriteFacts(m, st.view, prefix, body, k); BodyHolds(st, r.added, env) && BodyHolds(st, r.facts, env)
    ensures BodyHolds(st, body, env)
  {
    if body != [] {
      var n := |body| - 1;
      var front := RewriteFacts(m, st.view, prefix, body[..n], k);
      var last := RewriteFact(m, st.view, prefix, body[n], front.counter);
      BodyConcat(st, front.facts, last.facts, env);
      BodyConcat(st, front.added, last.added, env);
      FactsSound(c, st, m, prefix, body[..n], k, env);
      FactSound(c, st, m, prefix, body[n], front.counter, env);
      assert body == body[..n] + [body[n]];
    }
  }

  ghost predicate KnownBody(prefix: string, k: nat, body: seq<Fact>) {
    forall f :: f in body ==> KnownFact(prefix, k, f)
  }

  lemma BodyKnownGrows(prefix: string, k: nat, l: nat, body: seq<Fact>)
    requires KnownBody(prefix, k, body) && k <= l
    ensures KnownBody(prefix, l, body)
  {
    forall f | f in body ensures KnownFact(prefix, l, f) { FactKnownGrows(prefix, k, l, f); }
  }

  lemma RewriteFactKnown(m: Motif, view: string, prefix: string, f: Fact, k: nat)
    requires KnownFact(prefix, k, f)
    ensures var r := RewriteFact(m, view, prefix, f, k); KnownBody(prefix, r.counter, r.facts) && KnownBody(prefix, r.counter, r.added)
  {
    match f
    case Eq(x, y) =>
      var rx := RewriteExpr(m, view, prefix, x, k);
      var ry := RewriteExpr(m, view, prefix, y, rx.counter);
      RewriteKnown(m, view, prefix, x, k);
      KnownGrows(prefix, k, rx.counter, y);
      RewriteKnown(m, view, prefix, y, rx.counter);
      KnownGrows(prefix, rx.counter, ry.counter, rx.expr);
      BodyKnownGrows(prefix, rx.counter, ry.counter, rx.added);
    case Holds(e) => RewriteKnown(m, view, prefix, e, k);
  }

  lemma {:induction false} RewriteFactsKnown(m: Motif, view: string, prefix: string, body: seq<Fact>, k: nat)
    requires KnownBody(prefix, k, body)
    ensures var r := RewriteFacts(m, view, prefix, body, k); KnownBody(prefix, r.counter, r.facts) && KnownBody(prefix, r.counter, r.added)
  {
    if body != [] {
      var n := |body| - 1;
      var front := RewriteFacts(m, view, prefix, body[..n], k);
      var last := RewriteFact(m, view, prefix, body[n], front.counter);
      RewriteFactsKnown(m, view, prefix, body[..n], k);
      FactKnownGrows(prefix, k, front.counter, body[n]);
      RewriteFactKnown(m, view, prefix, body[n], front.counter);
      BodyKnownGrows(prefix, front.counter, last.counter, front.facts);
      BodyKnownGrows(prefix, front.counter, last.counter, front.added);
    }
  }

  lemma FactComplete(c: Schemas, st: Store, m: Motif, prefix: string, f: Fact, k: nat, env: Env) returns (full: Env)
    requires ValidMotif(c, m) && m.Nested? && ExactView(c, st, m, false) && WellFormedFact(c, f)
    requires KnownFact(prefix, k, f) && FactHolds(st, f, env)
    ensures AgreeKnown(prefix, k, env, full)
    ensures var r := RewriteFact(m, st.view, prefix, f, k); BodyHolds(st, r.added, full) && BodyHolds(st, r.facts, full)
  {
    match f
    case Eq(x, y) =>
      var rx := RewriteExpr(m, st.view, prefix, x, k);
      var ry := RewriteExpr(m, st.view, prefix, y, rx.counter);
      var mid := RewriteComplete(c, st, m, prefix, x, k, env);
      EvalAgrees(st, prefix, k, y, env, mid);
      KnownGrows(prefix, k, rx.counter, y);
      full := RewriteComplete(c, st, m, prefix, y, rx.counter, mid);
      RewriteKnown(m, st.view, prefix, x, k);
      AgreeThen(prefix, k, rx.counter, env, mid, full);
      BodyAgrees(st, prefix, rx.counter, rx.added, mid, full);
      EvalAgrees(st, prefix, rx.counter, rx.expr, mid, full);
      BodyConcat(st, rx.added, ry.added, full);
    case Holds(e) => full := RewriteComplete(c, st, m, prefix, e, k, env);
  }

  lemma {:induction false} FactsComplete(c: Schemas, st: Store, m: Motif, prefix: string, body: seq<Fact>, k: nat, env: Env)
    returns (full: Env)
    requires ValidMotif(c, m) && m.Nested? && ExactView(c, st, m, false) && forall f :: f in body ==> WellFormedFact(c, f)
    requires KnownBody(prefix, k, body) && BodyHolds(st, body, env)
    ensures AgreeKnown(prefix, k, env, full)
    ensures var r := RewriteFacts(m, st.view, prefix, body, k); BodyHolds(st, r.added, full) && BodyHolds(st, r.facts, full)
  {
    if body == [] { return env; }
    var n := |body| - 1;
    var front := RewriteFacts(m, st.view, prefix, body[..n], k);
    var last := RewriteFact(m, st.view, prefix, body[n], front.counter);
    var mid := FactsComplete(c, st, m, prefix, body[..n], k, env);
    FactAgrees(st, prefix, k, body[n], env, mid);
    FactKnownGrows(prefix, k, front.counter, body[n]);
    full := FactComplete(c, st, m, prefix, body[n], front.counter, mid);
    RewriteFactsKnown(m, st.view, prefix, body[..n], k);
    AgreeThen(prefix, k, front.counter, env, mid, full);
    BodyAgrees(st, prefix, front.counter, front.added, mid, full);
    BodyAgrees(st, prefix, front.counter, front.facts, mid, full);
    BodyConcat(st, front.added, last.added, full);
    BodyConcat(st, front.facts, last.facts, full);
  }

  /** Every variable of the program is older than the generated ones. */
  ghost predicate Older(prefix: string, scope: set<string>) {
    forall x :: x in scope ==> !(prefix <= x)
  }

  /** A body rewritten for a nested motif has the same matches whenever the view is the join. */
  lemma NestedSameMatches(c: Schemas, st: Store, m: Motif, prefix: string, body: seq<Fact>, scope: set<string>)
    requires ValidMotif(c, m) && m.Nested? && ExactView(c, st, m, false) && forall f :: f in body ==> WellFormedFact(c, f)
    requires KnownBody(prefix, 0, body) && Older(prefix, scope)
    ensures var r := RewriteFacts(m, st.view, prefix, body, 0);
            Matches(st, r.facts + r.added, scope) == Matches(st, body, scope)
  {
    var r := RewriteFacts(m, st.view, prefix, body, 0);
    forall env: Env ensures IsMatch(st, r.facts + r.added, scope, env) <==> IsMatch(st, body, scope, env) {
      if IsMatch(st, body, scope, env) {
        var old_: Env :| Extends(old_, env) && BodyHolds(st, body, old_);
        var full := FactsComplete(c, st, m, prefix, body, 0, old_);
        BodyConcat(st, r.facts, r.added, full);
        forall x | x in env ensures x in full && full[x] == env[x] { assert Known(prefix, 0, x) && x in old_; }
      }
      if IsMatch(st, r.facts + r.added, scope, env) {
        var full: Env :| Extends(full, env) && BodyHolds(st, r.facts + r.added, full);
        BodyConcat(st, r.facts, r.added, full);
        FactsSound(c, st, m, prefix, body, 0, full);
      }
    }
  }

  // ---------- projected nested motifs ----------

  /** A root fact `outer(.. inner(..) ..)` reads the view that leaves out the outer value. */
  function RewriteRoot(m: Motif, view: string, f: Fact): Fact {
    if f.Holds? && f.expr.Call? && IsNested(m, f.expr.op, f.expr.args) then Holds(Call(view, Spliced(m, f.expr.args)))
    else f
  }

  lemma RootSameMatches(c: Schemas, st: Store, m: Motif, f: Fact, env: Env)
    requires ValidMotif(c, m) && m.Nested? && ExactView(c, st, m, true) && WellFormedFact(c, f)
    ensures FactHolds(st, RewriteRoot(m, st.view, f), env) <==> FactHolds(st, f, env)
  {
    if f.Holds? && f.expr.Call? && IsNested(m, f.expr.op, f.expr.args) {
      assert WellFormed(c, f.expr) && WellFormed(c, f.expr.args[m.slot]);
      SplicedMeansNested(c, st, m, f.expr.args, env);
    }
  }

  // ---------- shared motifs ----------

  /** Facts i and j read `a` and `b` and share the joined variable. */
  predicate Joins(m: Motif, body: seq<Fact>, i: nat, j: nat)
    requires i < |body| && j < |body|
  {
    && m.Shared? && i != j
    && body[i].Holds? && body[i].expr.Call? && body[i].expr.op == m.a
    && body[j].Holds? && body[j].expr.Call? && body[j].expr.op == m.b
    && m.ai < |body[i].expr.args| && m.bi < |body[j].expr.args|
    && body[i].expr.args[m.ai].Var? && body[i].expr.args[m.ai] == body[j].expr.args[m.bi]
  }

  /** The body with one pair replaced by the view. */
  function Fused(m: Motif, view: string, body: seq<Fact>, i: nat, j: nat): (r: seq<Fact>)
    requires i < |body| && j < |body| && Joins(m, body, i, j)
    ensures |r| == |body| - 1
  {
    var hi, lo := if i < j then j else i, if i < j then i else j;
    Without(Without(body, hi), lo) + [Holds(Call(view, body[i].expr.args + Without(body[j].expr.args, m.bi)))]
  }

  lemma EvalWithout(st: Store, es: seq<Expr>, i: nat, env: Env)
    requires i < |es|
    ensures EvalAll(st, es, env).Some? <==> EvalAll(st, Without(es, i), env).Some? && Eval(st, es[i], env).Some?
    ensures EvalAll(st, es, env).Some? ==>
              EvalAll(st, es, env).value == With(EvalAll(st, Without(es, i), env).value, i, Eval(st, es[i], env).value)
  {
    assert es == es[..i] + [es[i]] + es[i + 1..];
    EvalThree(st, es[..i], [es[i]], es[i + 1..], env);
    EvalAllConcat(st, es[..i], es[i + 1..], env);
    EvalOne(st, es[i], env);
    if EvalAll(st, es, env).Some? {
      var x, z := EvalAll(st, es[..i], env).value, EvalAll(st, es[i + 1..], env).value;
      assert (x + z)[..i] == x && (x + z)[i..] == z;
    }
  }

  /** A row of a shared join given by its parts. */
  lemma JoinOfParts(c: Schemas, t: Tables, m: Motif, xs: Row, zs: Row)
    requires ValidMotif(c, m) && m.Shared? && m.a in t && m.b in t && |xs| == |c[m.a].args| && |zs| == |c[m.b].args| - 1
    ensures InJoin(c, t, m, false, xs + zs) <==> xs in t[m.a] && With(zs, m.bi, xs[m.ai]) in t[m.b]
  {
    var row := xs + zs;
    assert row[..|xs|] == xs && row[|xs|..] == zs && row[m.ai] == xs[m.ai];
  }

  /** The flattened arguments evaluate to a row of the join exactly when both facts hold. */
  lemma PairMeansJoin(c: Schemas, st: Store, m: Motif, xs: seq<Expr>, ys: seq<Expr>, env: Env)
    requires ValidMotif(c, m) && m.Shared? && ViewApart(c, st, m)
    requires |xs| == |c[m.a].args| && |ys| == |c[m.b].args| && xs[m.ai] == ys[m.bi]
    ensures var row := EvalAll(st, xs + Without(ys, m.bi), env);
            row.Some? && InJoin(c, st.tables, m, false, row.value) <==>
              Eval(st, Call(m.a, xs), env).Some? && Eval(st, Call(m.b, ys), env).Some?
  {
    EvalAllConcat(st, xs, Without(ys, m.bi), env);
    EvalWithout(st, ys, m.bi, env);
    var vx, vy := EvalAll(st, xs, env), EvalAll(st, Without(ys, m.bi), env);
    if vx.Some? && vy.Some? {
      JoinOfParts(c, st.tables, m, vx.value, vy.value);
    }
  }

  /** Over an exact view, a fused fact says what the pair said. */
  lemma FusedMeansPair(c: Schemas, st: Store, m: Motif, xs: seq<Expr>, ys: seq<Expr>, env: Env)
    requires ValidMotif(c, m) && m.Shared? && ExactView(c, st, m, false)
    requires |xs| == |c[m.a].args| && |ys| == |c[m.b].args| && xs[m.ai] == ys[m.bi]
    ensures Eval(st, Call(st.view, xs + Without(ys, m.bi)), env).Some? <==>
              Eval(st, Call(m.a, xs), env).Some? && Eval(st, Call(m.b, ys), env).Some?
  {
    PairMeansJoin(c, st, m, xs, ys, env);
  }

  lemma FusedSameMatches(c: Schemas, st: Store, m: Motif, body: seq<Fact>, i: nat, j: nat, env: Env)
    requires ValidMotif(c, m) && m.Shared? && ExactView(c, st, m, false) && forall f :: f in body ==> WellFormedFact(c, f)
    requires i < |body| && j < |body| && Joins(m, body, i, j)
    ensures BodyHolds(st, Fused(m, st.view, body, i, j), env) <==> BodyHolds(st, body, env)
  {
    var hi, lo := if i < j then j else i, if i < j then i else j;
    var rest := Without(Without(body, hi), lo);
    var fact := Holds(Call(st.view, body[i].expr.args + Without(body[j].expr.args, m.bi)));
    assert body[i] in body && body[j] in body;
    FusedMeansPair(c, st, m, body[i].expr.args, body[j].expr.args, env);
    BodyConcat(st, rest, [fact], env);
    BodyWithout(st, body, hi, env);
    BodyWithout(st, Without(body, hi), lo, env);
    assert Without(body, hi)[lo] == body[lo];
    assert BodyHolds(st, [fact], env) <==> FactHolds(st, fact, env) by { assert fact in [fact]; }
  }

  lemma BodyWithout(st: Store, body: seq<Fact>, i: nat, env: Env)
    requires i < |body|
    ensures BodyHolds(st, body, env) <==> BodyHolds(st, Without(body, i), env) && FactHolds(st, body[i], env)
  {
    assert body == body[..i] + ([body[i]] + body[i + 1..]);
    BodyConcat(st, body[..i], [body[i]] + body[i + 1..], env);
    BodyConcat(st, [body[i]], body[i + 1..], env);
    BodyConcat(st, body[..i], body[i + 1..], env);
    assert BodyHolds(st, [body[i]], env) <==> FactHolds(st, body[i], env) by { assert body[i] in [body[i]]; }
  }
}
