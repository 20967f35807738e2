/**
 * Local closure scopes (src/native_ripen_scope.rs): which tables and rules a
 * closure can ever involve, and which empty tables keep the other rules out.
 *
 * `Discover` computes the least such scope.  `Frame` says that no outside
 * change of other tables lets an excluded rule fire or disturbs the local
 * tables, over all runs; `LeaseKeepsClosure` ties this to the leases of
 * ClosureContract.
 */
module LocalScope {
  import opened Collections
  import opened Wrappers
  import opened FactQueries
  import opened MarkerRewrite
  import CC = ClosureContract

  datatype Act =
    | Express(expr: Expr)
    | Let(name: string, expr: Expr)
    | Union(left: Expr, right: Expr)
    | Set(op: string, args: seq<Expr>, value: Expr)
    | Change(deletes: bool, op: string, args: seq<Expr>)
    | Other(text: string)

  datatype Rule = Rule(body: seq<Fact>, scope: set<string>, head: seq<Act>, ruleset: string)

  // ---------- tables that expressions, bodies and heads mention ----------

  function Calls(e: Expr, tables: set<string>): set<string> {
    if !e.Call? then {} else (if e.op in tables then {e.op} else {}) + CallsAll(e.args, tables)
  }

  function CallsAll(es: seq<Expr>, tables: set<string>): (r: set<string>)
    ensures forall i :: 0 <= i < |es| ==> Calls(es[i], tables) <= r
  {
    if es == [] then {}
    else
      var n := |es| - 1;
      assert forall i :: 0 <= i < n ==> es[..n][i] == es[i];
      CallsAll(es[..n], tables) + Calls(es[n], tables)
  }

  function CallsIn(f: Fact, tables: set<string>): set<string> {
    match f case Eq(a, b) => Calls(a, tables) + Calls(b, tables) case Holds(e) => Calls(e, tables)
  }

  function Writes(a: Act, tables: set<string>): set<string> {
    match a
    case Express(e) => Calls(e, tables)
    case Let(_, e) => Calls(e, tables)
    case Union(x, y) => Calls(x, tables) + Calls(y, tables)
    case Set(op, args, value) => {op} + CallsAll(args, tables) + Calls(value, tables)
    case Change(_, op, args) => {op} + CallsAll(args, tables)
    case Other(_) => {}
  }

  /** The tables that a match of the body needs. */
  method Reads(r: Rule, tables: set<string>) returns (out: set<string>)
    ensures out == ReadSet(r, tables)
  {
    out := {};
    for i := 0 to |r.body|
      invariant forall t :: t in out <==> exists k :: 0 <= k < i && t in CallsIn(r.body[k], tables)
    {
      out := out + CallsIn(r.body[i], tables);
    }
    assert out == ReadSet(r, tables);
  }

  /** The tables that the head can write or construct in: some run of one of its actions changes them. */
  method Effects(r: Rule, tables: set<string>) returns (out: set<string>)
    ensures out == EffectSet(r, tables)
    ensures forall t :: t in tables ==> (t in out <==> exists a :: a in r.head && CanWrite(a, tables, t))
  {
    out := {};
    for i := 0 to |r.head|
      invariant forall t :: t in out <==> exists k :: 0 <= k < i && t in Writes(r.head[k], tables)
    {
      out := out + Writes(r.head[i], tables);
    }
    assert out == EffectSet(r, tables);
    forall t | t in tables ensures t in out <==> exists a :: a in r.head && CanWrite(a, tables, t) {
      forall a | a in r.head ensures t in Writes(a, tables) <==> CanWrite(a, tables, t) { WritesMeans(a, tables, t); }
    }
  }

  ghost function ReadSet(r: Rule, tables: set<string>): set<string> {
    set f, t | f in r.body && t in CallsIn(f, tables) :: t
  }

  ghost function EffectSet(r: Rule, tables: set<string>): set<string> {
    set a, t | a in r.head && t in Writes(a, tables) :: t
  }

  // ---------- what heads do ----------

  /** Primitives, the value of a new row of a constructor (a function has none), and the merge of two values of one key. */
  datatype Kernel = Kernel(prim: (string, Row) -> Option<Value>, make: (Tables, string, Row) -> Option<Value>,
                           merge: (string, Value, Value) -> Value)

  /** Tables after an evaluation, and its value if it did not fail. */
  datatype Built<T> = Built(tables: Tables, value: Option<T>)

  function WithRow(rows: map<Row, Value>, key: Row, v: Value): map<Row, Value> {
    rows[key := v]
  }

  /** A call of a table finds its row or makes it. */
  ghost function Construct(k: Kernel, t: Tables, op: string, key: Row): (r: Built<Value>)
    ensures r.tables.Keys == t.Keys
  {
    if op !in t then Built(t, k.prim(op, key))
    else if key in t[op] then Built(t, Some(t[op][key]))
    else
      var v := k.make(t, op, key);
      Built(if v.Some? then t[op := WithRow(t[op], key, v.value)] else t, v)
  }

  ghost function Build(k: Kernel, t: Tables, e: Expr, env: Env): (r: Built<Value>)
    ensures r.tables.Keys == t.Keys
    decreases e, 1
  {
    match e
    case Var(x) => Built(t, if x in env then Some(env[x]) else None)
    case Lit(v) => Built(t, Some(v))
    case Call(op, args) =>
      var b := BuildAll(k, t, args, env);
      if b.value.None? then Built(b.tables, None) else Construct(k, b.tables, op, b.value.value)
  }

  ghost function BuildAll(k: Kernel, t: Tables, es: seq<Expr>, env: Env): (r: Built<Row>)
    ensures r.tables.Keys == t.Keys
    decreases es, 0
  {
    if es == [] then Built(t, Some([]))
    else
      var n := |es| - 1;
      var front := BuildAll(k, t, es[..n], env);
      if front.value.None? then front
      else
        var last := Build(k, front.tables, es[n], env);
        Built(last.tables, if last.value.Some? then Some(front.value.value + [last.value.value]) else None)
  }

  /** Writes a row, merging with the value that is there. */
  ghost function Put(k: Kernel, t: Tables, op: string, key: Row, v: Value): (r: Tables)
    ensures r.Keys == t.Keys
  {
    if op !in t then t
    else t[op := WithRow(t[op], key, if key in t[op] then k.merge(op, t[op][key], v) else v)]
  }

  /** Tables and bindings after an action; a failure and a panic stop the head. */
  ghost function RunAct(k: Kernel, t: Tables, env: Env, a: Act): (r: Built<Env>)
    ensures r.tables.Keys == t.Keys
  {
    match a
    case Express(e) =>
      var b := Build(k, t, e, env);
      Built(b.tables, if b.value.Some? then Some(env) else None)
    case Let(x, e) =>
      var b := Build(k, t, e, env);
      Built(b.tables, if b.value.Some? then Some(env[x := b.value.value]) else None)
    case Union(e, f) =>
      var b := Build(k, t, e, env);
      if b.value.None? then Built(b.tables, None)
      else
        var c := Build(k, b.tables, f, env);
        Built(c.tables, if c.value.Some? then Some(env) else None)
    case Set(op, args, value) =>
      var b := BuildAll(k, t, args, env);
      if b.value.None? then Built(b.tables, None)
      else
        var c := Build(k, b.tables, value, env);
        if c.value.None? then Built(c.tables, None)
        else Built(Put(k, c.tables, op, b.value.value, c.value.value), Some(env))
    case Change(deletes, op, args) =>
      var b := BuildAll(k, t, args, env);
      if b.value.None? then Built(b.tables, None)
      else if deletes && op in b.tables then Built(b.tables[op := b.tables[op] - {b.value.value}], Some(env))
      else Built(b.tables, Some(env))
    case Other(_) => Built(t, None)
  }

  ghost function RunHead(k: Kernel, t: Tables, env: Env, head: seq<Act>): (r: Built<Env>)
    ensures r.tables.Keys == t.Keys
  {
    if head == [] then Built(t, Some(env))
    else
      var front := RunHead(k, t, env, head[..|head| - 1]);
      if front.value.None? then front else RunAct(k, front.tables, front.value.value, head[|head| - 1])
  }

  lemma {:induction false} BuildFrame(k: Kernel, t: Tables, e: Expr, env: Env, op: string)
    requires op in t && op !in Calls(e, t.Keys)
    ensures Build(k, t, e, env).tables[op] == t[op]
    decreases e, 1
  {
    if e.Call? { BuildAllFrame(k, t, e.args, env, op); }
  }

  lemma {:induction false} BuildAllFrame(k: Kernel, t: Tables, es: seq<Expr>, env: Env, op: string)
    requires op in t && op !in CallsAll(es, t.Keys)
    ensures BuildAll(k, t, es, env).tables[op] == t[op]
    decreases es, 0
  {
    if es != [] {
      var n := |es| - 1;
      BuildAllFrame(k, t, es[..n], env, op);
      BuildFrame(k, BuildAll(k, t, es[..n], env).tables, es[n], env, op);
    }
  }

  lemma UnionFrame(k: Kernel, t: Tables, env: Env, e: Expr, f: Expr, op: string)
    requires op in t && op !in Calls(e, t.Keys) && op !in Calls(f, t.Keys)
    ensures RunAct(k, t, env, Union(e, f)).tables[op] == t[op]
  {
    BuildFrame(k, t, e, env, op);
    BuildFrame(k, Build(k, t, e, env).tables, f, env, op);
  }

  lemma SetFrame(k: Kernel, t: Tables, env: Env, other: string, args: seq<Expr>, value: Expr, op: string)
    requires op in t && op != other && op !in CallsAll(args, t.Keys) && op !in Calls(value, t.Keys)
    ensures RunAct(k, t, env, Set(other, args, value)).tables[op] == t[op]
  {
    BuildAllFrame(k, t, args, env, op);
    BuildFrame(k, BuildAll(k, t, args, env).tables, value, env, op);
  }

  lemma ActFrame(k: Kernel, t: Tables, env: Env, a: Act, op: string)
    requires op in t && op !in Writes(a, t.Keys)
    ensures RunAct(k, t, env, a).tables[op] == t[op]
  {
    match a
    case Express(e) => BuildFrame(k, t, e, env, op);
    case Let(_, e) => BuildFrame(k, t, e, env, op);
    case Union(e, f) => UnionFrame(k, t, env, e, f, op);
    case Set(other, args, value) => SetFrame(k, t, env, other, args, value, op);
    case Change(_, _, args) => BuildAllFrame(k, t, args, env, op);
    case Other(_) =>
  }

  lemma {:induction false} HeadFrame(k: Kernel, t: Tables, env: Env, r: Rule, n: nat, op: string)
    requires n <= |r.head| && op in t && op !in EffectSet(r, t.Keys)
    ensures RunHead(k, t, env, r.head[..n]).tables[op] == t[op]
  {
    if n > 0 {
      var head := r.head[..n];
      assert head[..n - 1] == r.head[..n - 1] && head[n - 1] in r.head;
      HeadFrame(k, t, env, r, n - 1, op);
      var front := RunHead(k, t, env, head[..n - 1]);
      if front.value.Some? { ActFrame(k, front.tables, front.value.value, head[n - 1], op); }
    }
  }

  /** Whatever the engine and the match, a run of the head changes only tables among its effects. */
  lemma HeadWrites(k: Kernel, t: Tables, env: Env, r: Rule, op: string)
    requires op in t && RunHead(k, t, env, r.head).tables[op] != t[op]
    ensures op in EffectSet(r, t.Keys)
  {
    assert r.head[..|r.head|] == r.head;
    if op !in EffectSet(r, t.Keys) { HeadFrame(k, t, env, r, |r.head|, op); }
  }

  /** With some engine, tables and match the action changes the table, or it subsumes a row of it. */
  ghost predicate CanWrite(a: Act, declared: set<string>, op: string)
    requires op in declared
  {
    || (a.Change? && !a.deletes && a.op == op)
    || exists k: Kernel, t: Tables, env: Env :: Changes(k, t, env, a, declared, op)
  }

  ghost predicate Changes(k: Kernel, t: Tables, env: Env, a: Act, declared: set<string>, op: string)
    requires op in declared
  {
    t.Keys == declared && RunAct(k, t, env, a).tables[op] != t[op]
  }

  // An engine in which nothing fails: every call has the value 0.

  ghost function Zeros(): Kernel {
    Kernel((op, key) => Some(0), (t, op, key) => Some(0), (op, a, b) => 0)
  }

  ghost predicate ZeroTables(t: Tables) {
    forall op, key :: op in t && key in t[op] ==> t[op][key] == 0
  }

  function Names(e: Expr): set<string> {
    match e case Var(x) => {x} case Lit(_) => {} case Call(_, args) => NamesAll(args)
  }

  function NamesAll(es: seq<Expr>): set<string> {
    if es == [] then {} else NamesAll(es[..|es| - 1]) + Names(es[|es| - 1])
  }

  function ZeroValue(e: Expr): Value {
    if e.Lit? then e.value else 0
  }

  ghost predicate ZeroEnv(env: Env, names: set<string>) {
    forall x :: x in names ==> x in env && env[x] == 0
  }

  /** Rows stay, and tables in `used` have some. */
  ghost predicate Grown(t: Tables, after: Tables, used: set<string>) {
    && after.Keys == t.Keys && ZeroTables(after)
    && (forall op :: op in t ==> t[op].Keys <= after[op].Keys)
    && forall op :: op in used && op in t ==> after[op] != map[]
  }

  lemma GrownThen(t: Tables, mid: Tables, after: Tables, u: set<string>, v: set<string>)
    requires Grown(t, mid, u) && Grown(mid, after, v)
    ensures Grown(t, after, u + v)
  {
    forall op | op in u + v && op in t ensures after[op] != map[] {
      if op in u {
        var key :| key in mid[op];
        assert key in after[op];
      }
    }
  }

  lemma {:induction false} ZeroBuild(t: Tables, e: Expr, env: Env)
    requires ZeroTables(t) && ZeroEnv(env, Names(e))
    ensures var b := Build(Zeros(), t, e, env); b.value == Some(ZeroValue(e)) && Grown(t, b.tables, Calls(e, t.Keys))
    decreases e, 1
  {
    if e.Call? {
      ZeroBuildAll(t, e.args, env);
      var b := BuildAll(Zeros(), t, e.args, env);
      var after := Construct(Zeros(), b.tables, e.op, b.value.value).tables;
      assert e.op in t ==> b.value.value in after[e.op];
      assert Grown(b.tables, after, if e.op in t then {e.op} else {});
      GrownThen(t, b.tables, after, CallsAll(e.args, t.Keys), if e.op in t then {e.op} else {});
    }
  }

  lemma {:induction false} ZeroBuildAll(t: Tables, es: seq<Expr>, env: Env)
    requires ZeroTables(t) && ZeroEnv(env, NamesAll(es))
    ensures var b := BuildAll(Zeros(), t, es, env);
            && b.value == Some(seq(|es|, i requires 0 <= i < |es| => ZeroValue(es[i])))
            && Grown(t, b.tables, CallsAll(es, t.Keys))
    decreases es, 0
  {
    if es == [] {
      assert seq(|es|, i requires 0 <= i < |es| => ZeroValue(es[i])) == [];
    } else {
      var n := |es| - 1;
      ZeroBuildAll(t, es[..n], env);
      var front := BuildAll(Zeros(), t, es[..n], env);
      ZeroBuild(front.tables, es[n], env);
      GrownThen(t, front.tables, Build(Zeros(), front.tables, es[n], env).tables, CallsAll(es[..n], t.Keys), Calls(es[n], t.Keys));
      assert seq(n, i requires 0 <= i < n => ZeroValue(es[..n][i])) + [ZeroValue(es[n])]
          == seq(|es|, i requires 0 <= i < |es| => ZeroValue(es[i]));
    }
  }

  function ActNames(a: Act): set<string> {
    match a
    case Express(e) => Names(e)
    case Let(_, e) => Names(e)
    case Union(e, f) => Names(e) + Names(f)
    case Set(_, args, value) => NamesAll(args) + Names(value)
    case Change(_, _, args) => NamesAll(args)
    case Other(_) => {}
  }

  lemma ZeroUnion(t: Tables, e: Expr, f: Expr, env: Env)
    requires ZeroTables(t) && ZeroEnv(env, Names(e) + Names(f))
    ensures Grown(t, RunAct(Zeros(), t, env, Union(e, f)).tables, Calls(e, t.Keys) + Calls(f, t.Keys))
  {
    ZeroBuild(t, e, env);
    var mid := Build(Zeros(), t, e, env).tables;
    ZeroBuild(mid, f, env);
    GrownThen(t, mid, Build(Zeros(), mid, f, env).tables, Calls(e, t.Keys), Calls(f, t.Keys));
  }

  lemma ZeroPut(t: Tables, op: string, key: Row, v: Value)
    requires ZeroTables(t)
    ensures op in t ==> key in Put(Zeros(), t, op, key, v)[op]
    ensures forall u :: u in t && t[u] != map[] ==> Put(Zeros(), t, op, key, v)[u] != map[]
  {
    if op in t { assert key in Put(Zeros(), t, op, key, v)[op]; }
  }

  lemma ZeroOperands(t: Tables, args: seq<Expr>, value: Expr, env: Env)
    requires ZeroTables(t) && ZeroEnv(env, NamesAll(args) + Names(value))
    ensures var b := BuildAll(Zeros(), t, args, env);
            && b.value.Some?
            && var c := Build(Zeros(), b.tables, value, env);
               c.value.Some? && Grown(t, c.tables, CallsAll(args, t.Keys) + Calls(value, t.Keys))
  {
    ZeroBuildAll(t, args, env);
    var b := BuildAll(Zeros(), t, args, env);
    ZeroBuild(b.tables, value, env);
    GrownThen(t, b.tables, Build(Zeros(), b.tables, value, env).tables, CallsAll(args, t.Keys), Calls(value, t.Keys));
  }

  lemma ZeroSet(t: Tables, other: string, args: seq<Expr>, value: Expr, env: Env, op: string)
    requires ZeroTables(t) && ZeroEnv(env, NamesAll(args) + Names(value))
    requires op in t && (op == other || op in CallsAll(args, t.Keys) || op in Calls(value, t.Keys))
    ensures RunAct(Zeros(), t, env, Set(other, args, value)).tables[op] != map[]
  {
    ZeroOperands(t, args, value, env);
    var b := BuildAll(Zeros(), t, args, env);
    var c := Build(Zeros(), b.tables, value, env);
    ZeroPut(c.tables, other, b.value.value, c.value.value);
  }

  /** From empty tables, every table that the action calls or sets has a row afterwards. */
  lemma ZeroAct(t: Tables, a: Act, env: Env, op: string)
    requires ZeroTables(t) && ZeroEnv(env, ActNames(a)) && op in t && t[op] == map[] && op in Writes(a, t.Keys)
    requires a.Change? ==> op != a.op
    ensures RunAct(Zeros(), t, env, a).tables[op] != map[]
  {
    match a
    case Express(e) => ZeroBuild(t, e, env);
    case Let(_, e) => ZeroBuild(t, e, env);
    case Union(e, f) => ZeroUnion(t, e, f, env);
    case Set(other, args, value) => ZeroSet(t, other, args, value, env, op);
    case Change(_, _, args) => ZeroBuildAll(t, args, env);
  }

  /** A delete changes the table that has the row. */
  lemma DeleteChanges(t: Tables, a: Act, env: Env)
    requires ZeroTables(t) && a.Change? && a.deletes && a.op in t && ZeroEnv(env, ActNames(a))
    requires seq(|a.args|, i requires 0 <= i < |a.args| => ZeroValue(a.args[i])) in t[a.op]
    ensures RunAct(Zeros(), t, env, a).tables[a.op] != t[a.op]
  {
    ZeroBuildAll(t, a.args, env);
    var b := BuildAll(Zeros(), t, a.args, env);
    assert b.value.value in t[a.op] && b.value.value !in (b.tables[a.op] - {b.value.value});
  }

  /** `Writes` lists exactly the tables that some run of the action changes. */
  lemma WritesMeans(a: Act, declared: set<string>, op: string)
    requires op in declared
    ensures op in Writes(a, declared) <==> CanWrite(a, declared, op)
  {
    if k: Kernel, t: Tables, env: Env :| Changes(k, t, env, a, declared, op) {
      if op !in Writes(a, declared) { ActFrame(k, t, env, a, op); }
    }
    if op in Writes(a, declared) { WritesCan(a, declared, op); }
  }

  lemma WritesCan(a: Act, declared: set<string>, op: string)
    requires op in declared && op in Writes(a, declared)
    ensures CanWrite(a, declared, op)
  {
    var env: Env := map x | x in ActNames(a) :: 0;
    var t: Tables := map u | u in declared :: map[];
    assert t.Keys == declared;
    if a.Change? && a.op == op {
      if a.deletes { DeleteCan(t, a, env, declared); }
    } else {
      ZeroAct(t, a, env, op);
      assert Changes(Zeros(), t, env, a, declared, op);
    }
  }

  lemma DeleteCan(t: Tables, a: Act, env: Env, declared: set<string>)
    requires ZeroTables(t) && t.Keys == declared && a.Change? && a.deletes && a.op in declared && ZeroEnv(env, ActNames(a))
    ensures CanWrite(a, declared, a.op)
  {
    var key: Row := seq(|a.args|, i requires 0 <= i < |a.args| => ZeroValue(a.args[i]));
    var full := t[a.op := WithRow(map[], key, 0)];
    DeleteChanges(full, a, env);
    assert full.Keys == declared;
    assert Changes(Zeros(), full, env, a, declared, a.op);
  }

  // ---------- a match needs a row of every table it reads ----------

  ghost predicate Empty(t: Tables, op: string) {
    op !in t || t[op] == map[]
  }

  lemma {:induction false} EvalReads(st: Store, declared: set<string>, e: Expr, env: Env, op: string)
    requires declared <= st.tables.Keys && st.rows == iset{} && Eval(st, e, env).Some? && op in Calls(e, declared)
    ensures !Empty(st.tables, op)
    decreases e, 1
  {
    if op in CallsAll(e.args, declared) { EvalAllReads(st, declared, e.args, env, op); }
  }

  lemma {:induction false} EvalAllReads(st: Store, declared: set<string>, es: seq<Expr>, env: Env, op: string)
    requires declared <= st.tables.Keys && st.rows == iset{} && EvalAll(st, es, env).Some? && op in CallsAll(es, declared)
    ensures !Empty(st.tables, op)
    decreases es, 0
  {
    var n := |es| - 1;
    if op in Calls(es[n], declared) {
      EvalReads(st, declared, es[n], env, op);
    } else {
      EvalAllReads(st, declared, es[..n], env, op);
    }
  }

  /** A rule that reads an empty table has no match: bindings and guards play no part. */
  lemma EmptyReadBlocks(st: Store, declared: set<string>, r: Rule, op: string)
    requires declared <= st.tables.Keys && st.rows == iset{} && op in ReadSet(r, declared) && Empty(st.tables, op)
    ensures Matches(st, r.body, r.scope) == iset{}
  {
    var f :| f in r.body && op in CallsIn(f, declared);
    forall env: Env ensures !IsMatch(st, r.body, r.scope, env) {
      if full: Env :| Extends(full, env) && BodyHolds(st, r.body, full) {
        assert FactHolds(st, f, full);
        match f
        case Eq(a, b) =>
          if op in Calls(a, declared) { EvalReads(st, declared, a, full, op); } else { EvalReads(st, declared, b, full, op); }
        case Holds(e) => EvalReads(st, declared, e, full, op);
      }
    }
  }

  // ---------- discovery ----------

  /** Reads and effects of the rules, and the tables that merge callbacks read or construct in. */
  datatype Footprint = Footprint(needs: seq<set<string>>, effects: seq<set<string>>, merges: map<string, set<string>>)

  ghost predicate WellSized(f: Footprint) {
    |f.needs| == |f.effects|
  }

  /** Tables closed under the rules they enable and the callbacks they carry. */
  ghost predicate ClosedTables(f: Footprint, populated: set<string>, tables: set<string>)
    requires WellSized(f)
  {
    && populated <= tables
    && (forall i :: 0 <= i < |f.needs| && f.needs[i] <= tables ==> f.effects[i] <= tables)
    && forall t :: t in f.merges && t in tables ==> f.merges[t] <= tables
  }

  datatype Found = Found(tables: set<string>, rules: set<nat>, frontier: set<string>, blocked: map<nat, set<string>>)

  ghost predicate IsLeast(f: Footprint, populated: set<string>, tables: set<string>)
    requires WellSized(f)
  {
    && ClosedTables(f, populated, tables)
    && forall other: set<string> {:trigger ClosedTables(f, populated, other)} :: ClosedTables(f, populated, other) ==> tables <= other
  }

  /** The least scope, the rules it enables, and for each other rule the tables it misses. */
  ghost predicate IsScope(f: Footprint, populated: set<string>, s: Found)
    requires WellSized(f)
  {
    && IsLeast(f, populated, s.tables)
    && (forall i: nat :: i in s.rules <==> i < |f.needs| && f.needs[i] <= s.tables)
    && (forall i: nat :: i in s.blocked <==> i < |f.needs| && i !in s.rules)
    && (forall i: nat :: i in s.blocked ==> s.blocked[i] == f.needs[i] - s.tables)
    && s.frontier == set i, t | i in s.blocked && t in s.blocked[i] :: t
  }

  /** Progress of the fixpoint loop: everything found so far is forced. */
  ghost predicate Forced(f: Footprint, populated: set<string>, possible: set<string>, rules: set<nat>)
    requires WellSized(f)
  {
    && populated <= possible
    && (forall i: nat :: i in rules ==> i < |f.needs| && f.needs[i] <= possible)
    && forall other: set<string> {:trigger ClosedTables(f, populated, other)} :: ClosedTables(f, populated, other) ==> possible <= other
  }

  /** One pass over the rules. */
  method RulePass(f: Footprint, ghost populated: set<string>, before: set<string>, known: set<nat>)
    returns (possible: set<string>, rules: set<nat>)
    requires WellSized(f) && Forced(f, populated, before, known)
    ensures Forced(f, populated, possible, rules) && before <= possible && known <= rules
    ensures possible <= before + AllEffects(f)
    ensures possible == before && rules == known ==>
              forall i: nat :: i < |f.needs| && f.needs[i] <= before ==> i in known && f.effects[i] <= before
  {
    possible, rules := before, known;
    for i := 0 to |f.needs|
      invariant Forced(f, populated, possible, rules) && before <= possible && known <= rules
      invariant possible <= before + AllEffects(f)
      invariant forall k: nat :: k < i && f.needs[k] <= before ==> k in rules && f.effects[k] <= possible
    {
      if f.needs[i] <= possible {
        EffectsListed(f, i);
        rules, possible := rules + {i}, possible + f.effects[i];
      }
    }
  }

  /** One pass over the merge callbacks. */
  method MergePass(f: Footprint, ghost populated: set<string>, before: set<string>, ghost rules: set<nat>) returns (possible: set<string>)
    requires WellSized(f) && Forced(f, populated, before, rules)
    ensures Forced(f, populated, possible, rules) && before <= possible
    ensures possible <= before + AllEffects(f)
    ensures possible == before ==> forall t :: t in f.merges && t in before ==> f.merges[t] <= before
  {
    possible := before;
    var todo := f.merges.Keys;
    while todo != {}
      invariant todo <= f.merges.Keys && Forced(f, populated, possible, rules) && before <= possible
      invariant possible <= before + AllEffects(f)
      invariant forall t :: t in f.merges && t !in todo && t in before ==> f.merges[t] <= possible
      decreases todo
    {
      var t :| t in todo;
      if t in possible {
        MergeListed(f, t);
        possible := possible + f.merges[t];
      }
      todo := todo - {t};
    }
  }

  /** Everything that the rules and callbacks can add. */
  ghost function AllEffects(f: Footprint): set<string> {
    (set s, t | s in f.effects && t in s :: t) + (set u, t | u in f.merges && t in f.merges[u] :: t)
  }

  lemma EffectsListed(f: Footprint, i: nat)
    requires i < |f.effects|
    ensures f.effects[i] <= AllEffects(f)
  {
    assert f.effects[i] in f.effects;
  }

  lemma MergeListed(f: Footprint, u: string)
    requires u in f.merges
    ensures f.merges[u] <= AllEffects(f)
  {
  }

  /** The fixpoint of reachable tables and enabled rules. */
  method Fixpoint(f: Footprint, populated: set<string>) returns (possible: set<string>, rules: set<nat>)
    requires WellSized(f)
    ensures IsLeast(f, populated, possible)
    ensures forall i: nat :: i in rules <==> i < |f.needs| && f.needs[i] <= possible
  {
    possible, rules := populated, {};
    ghost var limit := populated + AllEffects(f);
    while true
      invariant Forced(f, populated, possible, rules) && possible <= limit
      decreases |limit| + |f.needs| - |possible| - |rules|
    {
      var size, count := |possible|, |rules|;
      ghost var was, known := possible, rules;
      possible, rules := RulePass(f, populated, possible, rules);
      ghost var mid := possible;
      possible := MergePass(f, populated, possible, rules);
      Subset(was, possible);
      Subset(known, rules);
      Subset(possible, limit);
      BelowSize(rules, |f.needs|);
      if |possible| == size && |rules| == count {
        assert mid == was;
        break;
      }
    }
  }

  /** The scope of a closure that starts from the populated tables. */
  method Discover(f: Footprint, populated: set<string>) returns (s: Found)
    requires WellSized(f)
    ensures IsScope(f, populated, s)
  {
    var possible, rules := Fixpoint(f, populated);
    var frontier: set<string>, blocked: map<nat, set<string>> := {}, map[];
    for i := 0 to |f.needs|
      invariant forall k: nat :: k in blocked <==> k < i && k !in rules
      invariant forall k: nat :: k in blocked ==> blocked[k] == f.needs[k] - possible
      invariant frontier == set k, t | k in blocked && t in blocked[k] :: t
    {
      if i !in rules {
        var missing := f.needs[i] - possible;
        frontier, blocked := frontier + missing, blocked[i := missing];
      }
    }
    s := Found(possible, rules, frontier, blocked);
  }

  // ---------- runs ----------

  /** Tables, and the equality class of every token. */
  datatype State = State(tables: Tables, classes: map<Value, Value>)

  /** The matches of each rule of a ruleset, all found before any of them acts. */
  type Batch = map<nat, iset<Env>>

  /** What single actions do, and what firing rules on their matches does. */
  datatype Engine = Engine(kernel: Kernel, apply: (State, Batch) -> State)

  /** A session: rules, declared tables, and the scope found for it. */
  datatype Session = Session(rules: seq<Rule>, declared: set<string>, footprint: Footprint, scope: Found, tokens: set<Value>)

  ghost predicate SessionFits(x: Session, populated: set<string>) {
    && WellSized(x.footprint) && |x.footprint.needs| == |x.rules| && IsScope(x.footprint, populated, x.scope)
    && forall i :: 0 <= i < |x.rules| ==>
         x.footprint.needs[i] == ReadSet(x.rules[i], x.declared) && x.footprint.effects[i] == EffectSet(x.rules[i], x.declared)
  }

  ghost predicate Agree(a: State, b: State, tables: set<string>, tokens: set<Value>) {
    && (forall t :: t in tables ==> (t in a.tables <==> t in b.tables) && (t in a.tables ==> a.tables[t] == b.tables[t]))
    && forall k :: k in tokens ==> SameClass(a, b, k)
  }

  ghost function MatchesOf(e: Engine, x: Session, i: nat, s: State): iset<Env>
    requires i < |x.rules|
  {
    Matches(Store(s.tables, e.kernel.prim, "", iset{}), x.rules[i].body, x.rules[i].scope)
  }

  ghost function BatchOf(e: Engine, x: Session, rules: set<nat>, s: State): Batch {
    map i | i in rules && i < |x.rules| :: MatchesOf(e, x, i, s)
  }

  ghost predicate NoMatch(ms: Batch) {
    forall i :: i in ms ==> ms[i] == iset{}
  }

  /** A ruleset acts on its matches; without a match nothing happens. */
  ghost function Fire(e: Engine, x: Session, rules: set<nat>, s: State): State {
    var ms := BatchOf(e, x, rules, s);
    if NoMatch(ms) then s else e.apply(s, ms)
  }

  /** A merge callback of a table in the scope constructs in `t`. */
  ghost predicate CalledBack(x: Session, t: string) {
    exists u :: u in x.footprint.merges && u in x.scope.tables && t in x.footprint.merges[u]
  }

  /**
   * What the engine promises: firing runs heads on matches and rebuilds, and acts on the local
   * tables and tokens as their contents and the matches say.
   */
  ghost predicate Conforms(e: Engine, x: Session) {
    && (forall s: State, ms: Batch {:trigger e.apply(s, ms)} :: Known(x, ms) ==> Fires(e.kernel, x, ms, s.tables, e.apply(s, ms).tables))
    && forall a, b, ms {:trigger e.apply(a, ms), e.apply(b, ms)} ::
         LocalBatch(x, ms) && Agree(a, b, x.scope.tables, x.tokens) ==>
           Agree(e.apply(a, ms), e.apply(b, ms), x.scope.tables, x.tokens)
  }

  ghost predicate Known(x: Session, ms: Batch) {
    forall i :: i in ms ==> i < |x.rules|
  }

  /** Only rules of the scope have matches. */
  ghost predicate LocalBatch(x: Session, ms: Batch) {
    forall i :: i in ms && ms[i] != iset{} ==> i in x.scope.rules
  }

  /** A rebuild merges rows; only a local callback puts rows into an empty table. */
  ghost predicate Rebuilds(x: Session, a: Tables, b: Tables) {
    b.Keys == a.Keys && forall t :: t in x.declared && Empty(a, t) && !Empty(b, t) ==> CalledBack(x, t)
  }

  /** The head of a rule is run on one of its matches. */
  ghost predicate Acts(k: Kernel, x: Session, ms: Batch, a: Tables, b: Tables)
    requires Known(x, ms)
  {
    exists i: nat, env: Env :: i in ms && env in ms[i] && b == RunHead(k, a, env, x.rules[i].head).tables
  }

  /** Heads run on matches, and rebuilds, in any order and number. */
  ghost predicate Fires(k: Kernel, x: Session, ms: Batch, before: Tables, after: Tables)
    requires Known(x, ms)
  {
    exists trace: seq<Tables> :: IsTrace(k, x, ms, trace) && trace[0] == before && trace[|trace| - 1] == after
  }

  ghost predicate IsTrace(k: Kernel, x: Session, ms: Batch, trace: seq<Tables>)
    requires Known(x, ms)
  {
    && trace != []
    && forall j :: 0 <= j < |trace| - 1 ==> Acts(k, x, ms, trace[j], trace[j + 1]) || Rebuilds(x, trace[j], trace[j + 1])
  }

  ghost predicate FrontierKept(x: Session, t: Tables) {
    t.Keys == x.declared && forall u :: u in x.scope.frontier ==> Empty(t, u)
  }

  /** Neither a head of a local rule nor a local callback reaches the frontier. */
  lemma StepKeepsFrontier(k: Kernel, x: Session, populated: set<string>, ms: Batch, a: Tables, b: Tables)
    requires SessionFits(x, populated) && Known(x, ms) && LocalBatch(x, ms) && FrontierKept(x, a)
    requires Acts(k, x, ms, a, b) || Rebuilds(x, a, b)
    ensures FrontierKept(x, b)
  {
    forall u | u in x.scope.frontier ensures Empty(b, u) {
      FrontierApart(x, populated, u);
      FrontierDeclared(x, populated, u);
      assert Empty(a, u);
      if Acts(k, x, ms, a, b) {
        var i: nat, env: Env :| i in ms && env in ms[i] && b == RunHead(k, a, env, x.rules[i].head).tables;
        assert i in x.scope.rules && x.footprint.effects[i] <= x.scope.tables;
        if b[u] != a[u] { HeadWrites(k, a, env, x.rules[i], u); }
      } else {
        assert !CalledBack(x, u);
      }
    }
  }

  lemma {:induction false} TraceKeepsFrontier(k: Kernel, x: Session, populated: set<string>, ms: Batch, trace: seq<Tables>, n: nat)
    requires SessionFits(x, populated) && Known(x, ms) && LocalBatch(x, ms) && IsTrace(k, x, ms, trace) && n < |trace|
    requires FrontierKept(x, trace[0])
    ensures FrontierKept(x, trace[n])
  {
    if n > 0 {
      TraceKeepsFrontier(k, x, populated, ms, trace, n - 1);
      StepKeepsFrontier(k, x, populated, ms, trace[n - 1], trace[n]);
    }
  }

  /**
   * Firing a ruleset, or a change from outside. The rebuild of tables outside the scope after a local
   * firing, with their merge callbacks, is a change from outside.
   */
  datatype Step = Local(rules: set<nat>) | Outside(after: State)

  /** Outside changes leave the scope, its frontier and the instance's tokens alone. */
  ghost predicate Allowed(x: Session, s: State, step: Step) {
    match step
    case Local(_) => true
    case Outside(after) => after.tables.Keys == s.tables.Keys && Agree(s, after, x.scope.tables + x.scope.frontier, x.tokens)
  }

  ghost function After(e: Engine, x: Session, s: State, steps: seq<Step>): State {
    if steps == [] then s
    else
      var n := |steps| - 1;
      var before := After(e, x, s, steps[..n]);
      match steps[n]
      case Local(rules) => Fire(e, x, rules, before)
      case Outside(after) => after
  }

  ghost predicate IsRun(e: Engine, x: Session, s: State, steps: seq<Step>) {
    forall k {:trigger steps[k]} :: 0 <= k < |steps| ==> Allowed(x, After(e, x, s, steps[..k]), steps[k])
  }

  /** The same run without the outside. */
  ghost function Alone(steps: seq<Step>): seq<Step> {
    if steps == [] then []
    else
      var n := |steps| - 1;
      if steps[n].Local? then Alone(steps[..n]) + [steps[n]] else Alone(steps[..n])
  }

  ghost predicate StartsFrom(x: Session, s: State, populated: set<string>) {
    s.tables.Keys == x.declared && forall t :: t in x.declared && !Empty(s.tables, t) ==> t in populated
  }

  ghost predicate FrontierEmpty(x: Session, s: State) {
    forall t :: t in x.scope.frontier ==> Empty(s.tables, t)
  }

  /** The scope of a session in a given state: subsumed rows count as present. */
  method Certify(rules: seq<Rule>, declared: set<string>, merges: map<string, set<string>>, s: State, tokens: set<Value>)
    returns (x: Session, ghost populated: set<string>)
    requires s.tables.Keys == declared
    ensures x.rules == rules && x.declared == declared && x.footprint.merges == merges && x.tokens == tokens
    ensures SessionFits(x, populated) && StartsFrom(x, s, populated)
  {
    var present: set<string>, todo := {}, declared;
    while todo != {}
      invariant todo <= declared && forall t :: t in present <==> t in declared && t !in todo && s.tables[t] != map[]
      decreases todo
    {
      var t :| t in todo;
      if s.tables[t] != map[] { present := present + {t}; }
      todo := todo - {t};
    }
    var needs: seq<set<string>>, effects: seq<set<string>> := [], [];
    for i := 0 to |rules|
      invariant |needs| == |effects| == i
      invariant forall k :: 0 <= k < i ==> needs[k] == ReadSet(rules[k], declared) && effects[k] == EffectSet(rules[k], declared)
    {
      var lhs := Reads(rules[i], declared);
      var rhs := Effects(rules[i], declared);
      needs, effects := needs + [lhs], effects + [rhs];
    }
    var f := Footprint(needs, effects, merges);
    var scope := Discover(f, present);
    x, populated := Session(rules, declared, f, scope, tokens), present;
  }

  // ---------- excluded rules ----------

  lemma FrontierApart(x: Session, populated: set<string>, t: string)
    requires SessionFits(x, populated) && t in x.scope.frontier
    ensures t !in x.scope.tables && t !in populated
  {
    var i: nat :| i in x.scope.blocked && t in x.scope.blocked[i];
  }

  /** A rule outside the scope has no match while the frontier is empty. */
  lemma ExcludedHasNoMatch(e: Engine, x: Session, populated: set<string>, i: nat, s: State)
    requires SessionFits(x, populated) && s.tables.Keys == x.declared && FrontierEmpty(x, s)
    requires i < |x.rules| && i !in x.scope.rules
    ensures MatchesOf(e, x, i, s) == iset{}
  {
    var missing := x.scope.blocked[i];
    assert missing == x.footprint.needs[i] - x.scope.tables;
    var t :| t in x.footprint.needs[i] && t !in x.scope.tables;
    assert i in x.scope.blocked && t in missing;
    assert t in x.scope.frontier && Empty(s.tables, t) && t in ReadSet(x.rules[i], x.declared);
    EmptyReadBlocks(Store(s.tables, e.kernel.prim, "", iset{}), x.declared, x.rules[i], t);
  }

  /** While the frontier is empty only rules of the scope have matches. */
  lemma BatchIsLocal(e: Engine, x: Session, populated: set<string>, rules: set<nat>, s: State)
    requires SessionFits(x, populated) && s.tables.Keys == x.declared && FrontierEmpty(x, s)
    ensures Known(x, BatchOf(e, x, rules, s)) && LocalBatch(x, BatchOf(e, x, rules, s))
  {
    forall i | i in rules && i < |x.rules| && i !in x.scope.rules ensures MatchesOf(e, x, i, s) == iset{} {
      ExcludedHasNoMatch(e, x, populated, i, s);
    }
  }

  lemma FireKeepsFrontier(e: Engine, x: Session, populated: set<string>, rules: set<nat>, s: State)
    requires SessionFits(x, populated) && Conforms(e, x) && s.tables.Keys == x.declared && FrontierEmpty(x, s)
    ensures Fire(e, x, rules, s).tables.Keys == x.declared && FrontierEmpty(x, Fire(e, x, rules, s))
  {
    var ms := BatchOf(e, x, rules, s);
    BatchIsLocal(e, x, populated, rules, s);
    if !NoMatch(ms) {
      var after := e.apply(s, ms);
      assert Fires(e.kernel, x, ms, s.tables, after.tables);
      var trace: seq<Tables> :| IsTrace(e.kernel, x, ms, trace) && trace[0] == s.tables && trace[|trace| - 1] == after.tables;
      TraceKeepsFrontier(e.kernel, x, populated, ms, trace, |trace| - 1);
    }
  }

  lemma FrontierDeclared(x: Session, populated: set<string>, t: string)
    requires SessionFits(x, populated) && t in x.scope.frontier
    ensures t in x.declared
  {
    var i: nat :| i in x.scope.blocked && t in x.scope.blocked[i];
    var f :| f in x.rules[i].body && t in CallsIn(f, x.declared);
    match f
    case Eq(a, b) => CallsDeclared(a, x.declared); CallsDeclared(b, x.declared);
    case Holds(a) => CallsDeclared(a, x.declared);
  }

  lemma {:induction false} CallsDeclared(e: Expr, declared: set<string>)
    ensures Calls(e, declared) <= declared
    decreases e, 1
  {
    if e.Call? { CallsAllDeclared(e.args, declared); }
  }

  lemma {:induction false} CallsAllDeclared(es: seq<Expr>, declared: set<string>)
    ensures CallsAll(es, declared) <= declared
    decreases es, 0
  {
    if es != [] {
      CallsAllDeclared(es[..|es| - 1], declared);
      CallsDeclared(es[|es| - 1], declared);
    }
  }

  // ---------- local rules ----------

  lemma {:induction false} EvalLocal(a: Store, b: Store, declared: set<string>, e: Expr, env: Env)
    requires a.tables.Keys == b.tables.Keys == declared && a.prim == b.prim && a.view == b.view && a.rows == b.rows
    requires forall t :: t in Calls(e, declared) && t in declared ==> a.tables[t] == b.tables[t]
    ensures Eval(a, e, env) == Eval(b, e, env)
    decreases e
  {
    if e.Call? {
      forall i | 0 <= i < |e.args| ensures Eval(a, e.args[i], env) == Eval(b, e.args[i], env) {
        assert Calls(e.args[i], declared) <= CallsAll(e.args, declared);
        EvalLocal(a, b, declared, e.args[i], env);
      }
      if EvalAll(a, e.args, env).Some? {
        EvalAllIs(b, e.args, env, EvalAll(a, e.args, env).value);
      }
    }
  }

  /** The matches of a rule depend on the tables it reads and on nothing else. */
  lemma MatchesLocal(e: Engine, x: Session, i: nat, a: State, b: State)
    requires i < |x.rules| && a.tables.Keys == b.tables.Keys == x.declared
    requires forall t :: t in ReadSet(x.rules[i], x.declared) && t in x.declared ==> a.tables[t] == b.tables[t]
    ensures MatchesOf(e, x, i, a) == MatchesOf(e, x, i, b)
  {
    var r, sa, sb := x.rules[i], Store(a.tables, e.kernel.prim, "", iset{}), Store(b.tables, e.kernel.prim, "", iset{});
    forall env: Env ensures BodyHolds(sa, r.body, env) <==> BodyHolds(sb, r.body, env) {
      forall f | f in r.body ensures FactHolds(sa, f, env) <==> FactHolds(sb, f, env) {
        FactLocal(sa, sb, x.declared, r, f, env);
      }
    }
    forall env: Env ensures IsMatch(sa, r.body, r.scope, env) <==> IsMatch(sb, r.body, r.scope, env) {
      if full: Env :| Extends(full, env) && BodyHolds(sa, r.body, full) { assert BodyHolds(sb, r.body, full); }
      if full: Env :| Extends(full, env) && BodyHolds(sb, r.body, full) { assert BodyHolds(sa, r.body, full); }
    }
  }

  lemma FactLocal(a: Store, b: Store, declared: set<string>, r: Rule, f: Fact, env: Env)
    requires a.tables.Keys == b.tables.Keys == declared && a.prim == b.prim && a.view == b.view && a.rows == b.rows
    requires f in r.body && forall t :: t in ReadSet(r, declared) && t in declared ==> a.tables[t] == b.tables[t]
    ensures FactHolds(a, f, env) <==> FactHolds(b, f, env)
  {
    forall t | t in CallsIn(f, declared) ensures t in ReadSet(r, declared) {}
    match f
    case Eq(l, m) =>
      CallsDeclared(l, declared);
      CallsDeclared(m, declared);
      EvalLocal(a, b, declared, l, env);
      EvalLocal(a, b, declared, m, env);
    case Holds(l) =>
      CallsDeclared(l, declared);
      EvalLocal(a, b, declared, l, env);
  }

  /** Rulesets have the same matches in states that agree locally. */
  lemma SameBatch(e: Engine, x: Session, populated: set<string>, rules: set<nat>, a: State, b: State)
    requires SessionFits(x, populated) && a.tables.Keys == b.tables.Keys == x.declared
    requires FrontierEmpty(x, a) && FrontierEmpty(x, b) && Agree(a, b, x.scope.tables, x.tokens)
    ensures BatchOf(e, x, rules, a) == BatchOf(e, x, rules, b)
  {
    forall i | i in rules && i < |x.rules| ensures MatchesOf(e, x, i, a) == MatchesOf(e, x, i, b) {
      if i in x.scope.rules {
        assert x.footprint.needs[i] <= x.scope.tables;
        MatchesLocal(e, x, i, a, b);
      } else {
        ExcludedHasNoMatch(e, x, populated, i, a);
        ExcludedHasNoMatch(e, x, populated, i, b);
      }
    }
  }

  /** A ruleset acts alike on states that agree locally. */
  lemma FireLocal(e: Engine, x: Session, populated: set<string>, rules: set<nat>, a: State, b: State)
    requires SessionFits(x, populated) && Conforms(e, x) && a.tables.Keys == b.tables.Keys == x.declared
    requires FrontierEmpty(x, a) && FrontierEmpty(x, b) && Agree(a, b, x.scope.tables, x.tokens)
    ensures Agree(Fire(e, x, rules, a), Fire(e, x, rules, b), x.scope.tables, x.tokens)
  {
    SameBatch(e, x, populated, rules, a, b);
    BatchIsLocal(e, x, populated, rules, a);
    var ms := BatchOf(e, x, rules, a);
    if !NoMatch(ms) {
      assert Agree(e.apply(a, ms), e.apply(b, ms), x.scope.tables, x.tokens);
    }
  }

  // ---------- the frame theorem ----------

  ghost predicate Framed(e: Engine, x: Session, s: State, steps: seq<Step>) {
    var now, alone := After(e, x, s, steps), After(e, x, s, Alone(steps));
    && now.tables.Keys == x.declared && alone.tables.Keys == x.declared
    && FrontierEmpty(x, now) && FrontierEmpty(x, alone)
    && Agree(now, alone, x.scope.tables, x.tokens)
  }

  /**
   * Over every run interleaved with outside changes: the frontier stays empty, and the local
   * tables and tokens are as in the run without the outside.
   */
  lemma {:induction false} Frame(e: Engine, x: Session, populated: set<string>, s: State, steps: seq<Step>)
    requires SessionFits(x, populated) && Conforms(e, x) && StartsFrom(x, s, populated) && IsRun(e, x, s, steps)
    ensures Framed(e, x, s, steps)
    ensures forall i: nat :: i < |x.rules| && i !in x.scope.rules ==> MatchesOf(e, x, i, After(e, x, s, steps)) == iset{}
    decreases |steps|
  {
    if steps == [] {
      forall t | t in x.scope.frontier ensures Empty(s.tables, t) {
        FrontierApart(x, populated, t);
        FrontierDeclared(x, populated, t);
      }
    } else {
      var n := |steps| - 1;
      RunPrefix(e, x, s, steps);
      Frame(e, x, populated, s, steps[..n]);
      assert Allowed(x, After(e, x, s, steps[..n]), steps[n]);
      FrameStep(e, x, populated, s, steps);
    }
    forall i: nat | i < |x.rules| && i !in x.scope.rules ensures MatchesOf(e, x, i, After(e, x, s, steps)) == iset{} {
      ExcludedHasNoMatch(e, x, populated, i, After(e, x, s, steps));
    }
  }

  lemma RunPrefix(e: Engine, x: Session, s: State, steps: seq<Step>)
    requires IsRun(e, x, s, steps) && steps != []
    ensures IsRun(e, x, s, steps[..|steps| - 1])
  {
    var front := steps[..|steps| - 1];
    forall k | 0 <= k < |front| ensures Allowed(x, After(e, x, s, front[..k]), front[k]) {
      assert front[..k] == steps[..k] && front[k] == steps[k];
    }
  }

  lemma FrameStep(e: Engine, x: Session, populated: set<string>, s: State, steps: seq<Step>)
    requires SessionFits(x, populated) && Conforms(e, x) && steps != []
    requires Framed(e, x, s, steps[..|steps| - 1]) && Allowed(x, After(e, x, s, steps[..|steps| - 1]), steps[|steps| - 1])
    ensures Framed(e, x, s, steps)
  {
    var n := |steps| - 1;
    var now, alone := After(e, x, s, steps[..n]), After(e, x, s, Alone(steps[..n]));
    match steps[n]
    case Outside(after) =>
      forall t | t in x.scope.frontier ensures Empty(after.tables, t) { assert Empty(now.tables, t); }
    case Local(rules) =>
      var whole := Alone(steps);
      assert whole[..|whole| - 1] == Alone(steps[..n]) && whole[|whole| - 1] == steps[n];
      FireKeepsFrontier(e, x, populated, rules, now);
      FireKeepsFrontier(e, x, populated, rules, alone);
      FireLocal(e, x, populated, rules, now, alone);
  }

  // ---------- leases ----------

  ghost function Dependencies(x: Session): CC.LocalDependencies {
    CC.LocalDependencies(x.scope.tables, x.scope.frontier, set r | r in x.rules :: r.ruleset)
  }

  ghost predicate SameClass(a: State, b: State, k: nat) {
    (k in a.classes <==> k in b.classes) && (k in a.classes ==> a.classes[k] == b.classes[k])
  }

  /** A reported change lists every table it touches and every token whose class it touches. */
  ghost predicate Honest(x: Session, links: seq<CC.Link>, c: CC.Change, before: State, after: State) {
    && after.tables.Keys == before.tables.Keys
    && (forall t :: t in before.tables && t !in c.tables ==> after.tables[t] == before.tables[t])
    && forall k: nat {:trigger CC.TouchesToken(links, c, k)} :: !SameClass(before, after, k) ==> CC.TouchesToken(links, c, k)
  }

  /** The states between the events of a history from event `i` on. */
  ghost predicate Reported(x: Session, h: CC.History, i: nat, states: seq<State>)
    requires i < |h|
  {
    && |states| == |h| - i
    && forall k {:trigger states[k + 1]} :: 0 <= k && k + 1 < |states| ==>
         match h[i + k + 1]
         case Applied(c) => Honest(x, CC.Links(h[..i + k + 1]), c, states[k], states[k + 1])
         case Watched(_, _) => states[k + 1] == states[k]
  }

  /** A change that does not touch the lease leaves the local view alone. */
  lemma UntouchedAgrees(x: Session, links: seq<CC.Link>, c: CC.Change, before: State, after: State)
    requires before.tables.Keys == x.declared && Honest(x, links, c, before, after)
    requires !CC.Touches(links, c, Dependencies(x).Resources(x.tokens) + {CC.Scope})
    ensures Agree(before, after, x.scope.tables + x.scope.frontier, x.tokens)
  {
    var watched := Dependencies(x).Resources(x.tokens) + {CC.Scope};
    forall t | t in x.scope.tables + x.scope.frontier && t in before.tables ensures after.tables[t] == before.tables[t] {
      assert CC.Table(t) in watched;
    }
    forall k | k in x.tokens ensures SameClass(before, after, k) {
      assert CC.Token(k) in watched;
    }
  }

  lemma {:induction false} LeaseKeepsView(x: Session, h: CC.History, i: nat, id: nat, states: seq<State>, n: nat)
    requires i < |h| && Reported(x, h, i, states) && states[0].tables.Keys == x.declared && n < |states|
    requires CC.UntouchedSince(h, i, id) && h[i].resources == Dependencies(x).Resources(x.tokens)
    ensures states[n].tables.Keys == x.declared && Agree(states[0], states[n], x.scope.tables + x.scope.frontier, x.tokens)
  {
    if n > 0 {
      LeaseKeepsView(x, h, i, id, states, n - 1);
      var k := n - 1;
      assert states[k + 1] == states[n];
      if h[i + n].Applied? {
        UntouchedAgrees(x, CC.Links(h[..i + n]), h[i + n].change, states[k], states[n]);
      }
    }
  }

  /** Every local rule is at rest, and every other rule has no match. */
  ghost predicate Complete(e: Engine, x: Session, s: State) {
    && (forall i: nat {:trigger MatchesOf(e, x, i, s)} :: i < |x.rules| && i !in x.scope.rules ==> MatchesOf(e, x, i, s) == iset{})
    && forall rules: set<nat> {:trigger Fire(e, x, rules, s)} :: Agree(Fire(e, x, rules, s), s, x.scope.tables, x.tokens)
  }

  /** While the lease is valid the certified closure stays complete: there is nothing left for any rule to do locally. */
  lemma LeaseKeepsClosure(e: Engine, x: Session, populated: set<string>, h: CC.History, i: nat, id: nat, states: seq<State>)
    requires SessionFits(x, populated) && Conforms(e, x) && i < |h| && Reported(x, h, i, states)
    requires StartsFrom(x, states[0], populated) && Complete(e, x, states[0])
    requires CC.UntouchedSince(h, i, id) && h[i].resources == Dependencies(x).Resources(x.tokens)
    ensures Complete(e, x, states[|states| - 1])
    ensures Agree(states[0], states[|states| - 1], x.scope.tables + x.scope.frontier, x.tokens)
  {
    var first, last := states[0], states[|states| - 1];
    LeaseKeepsView(x, h, i, id, states, |states| - 1);
    forall t | t in x.scope.frontier ensures Empty(last.tables, t) {
      FrontierApart(x, populated, t);
      FrontierDeclared(x, populated, t);
      assert Empty(first.tables, t);
    }
    FrontierStillEmpty(x, populated, first);
    forall k: nat | k < |x.rules| && k !in x.scope.rules ensures MatchesOf(e, x, k, last) == iset{} {
      ExcludedHasNoMatch(e, x, populated, k, last);
    }
    forall rules: set<nat> ensures Agree(Fire(e, x, rules, last), last, x.scope.tables, x.tokens) {
      FireLocal(e, x, populated, rules, first, last);
      assert Agree(Fire(e, x, rules, first), first, x.scope.tables, x.tokens);
      AgreeChain(Fire(e, x, rules, last), Fire(e, x, rules, first), first, last, x.scope.tables, x.tokens);
    }
  }

  lemma FrontierStillEmpty(x: Session, populated: set<string>, s: State)
    requires SessionFits(x, populated) && StartsFrom(x, s, populated)
    ensures FrontierEmpty(x, s)
  {
    forall t | t in x.scope.frontier ensures Empty(s.tables, t) {
      FrontierApart(x, populated, t);
      FrontierDeclared(x, populated, t);
    }
  }

  lemma AgreeChain(a: State, b: State, c: State, d: State, tables: set<string>, tokens: set<Value>)
    requires Agree(b, a, tables, tokens) && Agree(b, c, tables, tokens) && Agree(c, d, tables, tokens)
    ensures Agree(a, d, tables, tokens)
  {
    forall k | k in tokens ensures SameClass(a, d, k) {
      assert SameClass(b, a, k) && SameClass(b, c, k) && SameClass(c, d, k);
    }
  }
}
