/**
 * Which occurrences of a motif a rewrite replaces (examples/eggcc_marker.rs:170-274),
 * said of the body as it was and of the body as it is left, in terms of calls
 * and their arguments only.
 */
module MarkerOccurrences {
  import opened MarkerRewrite

  // ---------- nested motifs ----------

  /** `outer` is called with a call of `inner` at the slot. */
  predicate Nests(m: Motif, e: Expr) {
    m.Nested? && e.Call? && e.op == m.outer && m.slot < |e.args| && e.args[m.slot].Call? && e.args[m.slot].op == m.inner
  }

  /** No call nests the motif, at any depth. */
  predicate Clean(m: Motif, e: Expr) {
    !Nests(m, e) && (e.Call? ==> forall i :: 0 <= i < |e.args| ==> Clean(m, e.args[i]))
  }

  predicate CleanFact(m: Motif, f: Fact) {
    match f case Eq(l, r) => Clean(m, l) && Clean(m, r) case Holds(e) => Clean(m, e)
  }

  /** Inner calls are replaced first, and a replaced call is no call of `inner` any more. */
  predicate Replaced(m: Motif, e: Expr) {
    Nests(m, e) && !Replaced(m, e.args[m.slot])
  }

  /** The calls in an expression that are replaced. */
  function Count(m: Motif, e: Expr): nat {
    if e.Call? then CountAll(m, e.args) + (if Replaced(m, e) then 1 else 0) else 0
  }

  function CountAll(m: Motif, args: seq<Expr>): nat {
    if args == [] then 0 else CountAll(m, args[..|args| - 1]) + Count(m, args[|args| - 1])
  }

  function CountFact(m: Motif, f: Fact): nat {
    match f case Eq(l, r) => Count(m, l) + Count(m, r) case Holds(e) => Count(m, e)
  }

  function CountBody(m: Motif, body: seq<Fact>): nat {
    if body == [] then 0 else CountBody(m, body[..|body| - 1]) + CountFact(m, body[|body| - 1])
  }

  /** Two different constructors: every nested call is replaced. */
  lemma AllReplaced(m: Motif, e: Expr)
    requires m.Nested? && m.outer != m.inner
    ensures Replaced(m, e) <==> Nests(m, e)
  {
    if Nests(m, e) { assert !Nests(m, e.args[m.slot]); }
  }

  /** Something is replaced exactly in the expressions that nest the motif somewhere. */
  lemma {:induction false} CountMeans(m: Motif, e: Expr)
    ensures Count(m, e) == 0 <==> Clean(m, e)
    decreases e, 1
  {
    if e.Call? {
      CountAllMeans(m, e.args);
      if Nests(m, e) && Replaced(m, e.args[m.slot]) {
        assert !Clean(m, e.args[m.slot]);
      }
    }
  }

  lemma {:induction false} CountAllMeans(m: Motif, args: seq<Expr>)
    ensures CountAll(m, args) == 0 <==> forall i :: 0 <= i < |args| ==> Clean(m, args[i])
    decreases args, 0
  {
    if args != [] {
      var n := |args| - 1;
      CountAllMeans(m, args[..n]);
      CountMeans(m, args[n]);
      assert forall i :: 0 <= i < n ==> args[..n][i] == args[i];
    }
  }

  lemma CountFactMeans(m: Motif, f: Fact)
    ensures CountFact(m, f) == 0 <==> CleanFact(m, f)
  {
    match f
    case Eq(l, r) => CountMeans(m, l); CountMeans(m, r);
    case Holds(e) => CountMeans(m, e);
  }

  lemma {:induction false} CountBodyMeans(m: Motif, body: seq<Fact>)
    ensures CountBody(m, body) == 0 <==> forall i :: 0 <= i < |body| ==> CleanFact(m, body[i])
  {
    if body != [] {
      var n := |body| - 1;
      CountBodyMeans(m, body[..n]);
      CountFactMeans(m, body[n]);
      assert forall i :: 0 <= i < n ==> body[..n][i] == body[i];
    }
  }

  /** An added fact reads the view and nests nothing in its columns. */
  predicate CleanRead(m: Motif, view: string, f: Fact) {
    f.Holds? && f.expr.Call? && f.expr.op == view && forall i :: 0 <= i < |f.expr.args| ==> Clean(m, f.expr.args[i])
  }

  predicate CleanReads(m: Motif, view: string, added: seq<Fact>) {
    forall i :: 0 <= i < |added| ==> CleanRead(m, view, added[i])
  }

  /** A replaced call becomes a variable; no nested call is left, and each added fact and each number stands for one replaced call. */
  lemma {:induction false} ExprReplaces(m: Motif, view: string, prefix: string, e: Expr, k: nat)
    requires m.Nested?
    ensures var r := RewriteExpr(m, view, prefix, e, k);
            && Clean(m, r.expr) && CleanReads(m, view, r.added) && (e.Call? ==> if Replaced(m, e) then r.expr.Var? else r.expr.Call?)
            && r.counter == k + Count(m, e) && |r.added| == Count(m, e)
    decreases e, 1
  {
    if e.Call? {
      ArgsReplace(m, view, prefix, e.args, k);
      var a := RewriteArgs(m, view, prefix, e.args, k);
      assert IsNested(m, e.op, a.args) <==> Replaced(m, e);
      if IsNested(m, e.op, a.args) { SplicedClean(m, a.args); }
    }
  }

  lemma {:induction false} ArgsReplace(m: Motif, view: string, prefix: string, args: seq<Expr>, k: nat)
    requires m.Nested?
    ensures var r := RewriteArgs(m, view, prefix, args, k);
            && (forall i :: 0 <= i < |args| ==> Clean(m, r.args[i]) && (args[i].Call? ==> if Replaced(m, args[i]) then r.args[i].Var? else r.args[i].Call?))
            && CleanReads(m, view, r.added) && r.counter == k + CountAll(m, args) && |r.added| == CountAll(m, args)
    decreases args, 0
  {
    if args != [] {
      var n := |args| - 1;
      var front := RewriteArgs(m, view, prefix, args[..n], k);
      ArgsReplace(m, view, prefix, args[..n], k);
      ExprReplaces(m, view, prefix, args[n], front.counter);
      assert forall i :: 0 <= i < n ==> args[..n][i] == args[i];
    }
  }

  lemma SplicedClean(m: Motif, args: seq<Expr>)
    requires m.Nested? && m.slot < |args| && args[m.slot].Call? && forall i :: 0 <= i < |args| ==> Clean(m, args[i])
    ensures forall i :: 0 <= i < |Spliced(m, args)| ==> Clean(m, Spliced(m, args)[i])
  {
    var mine := args[m.slot].args;
    forall i | 0 <= i < |Spliced(m, args)| ensures Clean(m, Spliced(m, args)[i]) {
      if i >= m.slot + |mine| {
        assert Spliced(m, args)[i] == args[i - |mine| + 1];
      } else if i >= m.slot {
        assert Spliced(m, args)[i] == mine[i - m.slot];
      }
    }
  }

  lemma FactReplaces(m: Motif, view: string, prefix: string, f: Fact, k: nat)
    requires m.Nested?
    ensures var r := RewriteFact(m, view, prefix, f, k);
            && CleanFact(m, r.facts[0]) && CleanReads(m, view, r.added)
            && r.counter == k + CountFact(m, f) && |r.added| == CountFact(m, f)
  {
    match f
    case Eq(x, y) =>
      ExprReplaces(m, view, prefix, x, k);
      ExprReplaces(m, view, prefix, y, RewriteExpr(m, view, prefix, x, k).counter);
    case Holds(e) => ExprReplaces(m, view, prefix, e, k);
  }

  lemma {:induction false} FactsReplace(m: Motif, view: string, prefix: string, body: seq<Fact>, k: nat)
    requires m.Nested?
    ensures var r := RewriteFacts(m, view, prefix, body, k);
            && (forall i :: 0 <= i < |body| ==> CleanFact(m, r.facts[i])) && CleanReads(m, view, r.added)
            && r.counter == k + CountBody(m, body) && |r.added| == CountBody(m, body)
  {
    if body != [] {
      var n := |body| - 1;
      var front := RewriteFacts(m, view, prefix, body[..n], k);
      FactsReplace(m, view, prefix, body[..n], k);
      FactReplaces(m, view, prefix, body[n], front.counter);
    }
  }

  // ---------- root facts ----------

  predicate NestsAtRoot(m: Motif, f: Fact) {
    f.Holds? && Nests(m, f.expr)
  }

  /** How many facts nest the motif at their root. */
  function RootCount(m: Motif, body: seq<Fact>): nat {
    if body == [] then 0 else RootCount(m, body[..|body| - 1]) + if NestsAtRoot(m, body[|body| - 1]) then 1 else 0
  }

  lemma {:induction false} RootCountMeans(m: Motif, body: seq<Fact>)
    ensures RootCount(m, body) == 0 <==> forall i :: 0 <= i < |body| ==> !NestsAtRoot(m, body[i])
  {
    if body != [] {
      var n := |body| - 1;
      RootCountMeans(m, body[..n]);
      assert forall i :: 0 <= i < n ==> body[..n][i] == body[i];
    }
  }

  /** What the choice of the projected view counts: every nested call. */
  function Nestings(m: Motif, e: Expr): nat {
    (if Nests(m, e) then 1 else 0) + if e.Call? then NestingsAll(m, e.args) else 0
  }

  function NestingsAll(m: Motif, args: seq<Expr>): nat {
    if args == [] then 0 else NestingsAll(m, args[..|args| - 1]) + Nestings(m, args[|args| - 1])
  }

  lemma {:induction false} NestingsMeans(m: Motif, e: Expr)
    ensures Nestings(m, e) == 0 <==> Clean(m, e)
    decreases e, 1
  {
    if e.Call? { NestingsAllMeans(m, e.args); }
  }

  lemma {:induction false} NestingsAllMeans(m: Motif, args: seq<Expr>)
    ensures NestingsAll(m, args) == 0 <==> forall i :: 0 <= i < |args| ==> Clean(m, args[i])
    decreases args, 0
  {
    if args != [] {
      var n := |args| - 1;
      NestingsAllMeans(m, args[..n]);
      NestingsMeans(m, args[n]);
      assert forall i :: 0 <= i < n ==> args[..n][i] == args[i];
    }
  }

  /** The motif is nested nowhere but at the root of the fact, whose value is not used. */
  predicate OnlyAtRoot(m: Motif, f: Fact) {
    match f
    case Eq(l, r) => Clean(m, l) && Clean(m, r)
    case Holds(e) => e.Call? ==> forall i :: 0 <= i < |e.args| ==> Clean(m, e.args[i])
  }

  /** All the nested calls of a body, and those at the root of a fact. */
  method Tally(m: Motif, body: seq<Fact>) returns (total: nat, roots: nat)
    ensures roots <= total
    ensures total == roots <==> forall i :: 0 <= i < |body| ==> OnlyAtRoot(m, body[i])
    ensures total > 0 <==> exists i :: 0 <= i < |body| && !CleanFact(m, body[i])
  {
    total, roots := 0, 0;
    for i := 0 to |body|
      invariant roots <= total && (total == roots <==> forall k :: 0 <= k < i ==> OnlyAtRoot(m, body[k]))
      invariant total > 0 <==> exists k :: 0 <= k < i && !CleanFact(m, body[k])
    {
      match body[i]
      case Eq(x, y) =>
        NestingsMeans(m, x);
        NestingsMeans(m, y);
        total := total + Nestings(m, x) + Nestings(m, y);
      case Holds(e) =>
        NestingsMeans(m, e);
        if e.Call? { NestingsAllMeans(m, e.args); }
        total := total + Nestings(m, e);
        roots := roots + if Nests(m, e) then 1 else 0;
    }
  }

  // ---------- shared motifs ----------

  /** Another fact calls `b` with the variable with which this one calls `a`. */
  predicate Shares(m: Motif, f: Fact, g: Fact) {
    && m.Shared? && f.Holds? && g.Holds? && f.expr.Call? && g.expr.Call? && f.expr.op == m.a && g.expr.op == m.b
    && m.ai < |f.expr.args| && m.bi < |g.expr.args|
    && f.expr.args[m.ai].Var? && g.expr.args[m.bi].Var? && f.expr.args[m.ai].name == g.expr.args[m.bi].name
  }

  // ---------- bodies ----------

  /** Some occurrence of the motif is there to be replaced. */
  predicate Occurs(m: Motif, projected: bool, body: seq<Fact>) {
    if m.Shared? then exists i: nat, j: nat :: i < |body| && j < |body| && i != j && Shares(m, body[i], body[j])
    else if projected then exists i :: 0 <= i < |body| && NestsAtRoot(m, body[i])
    else exists i :: 0 <= i < |body| && !CleanFact(m, body[i])
  }

  /** How many nested calls are there to be replaced. */
  function NestedCount(m: Motif, projected: bool, body: seq<Fact>): (n: nat)
    requires m.Nested?
    ensures n > 0 <==> Occurs(m, projected, body)
  {
    RootCountMeans(m, body);
    CountBodyMeans(m, body);
    if projected then RootCount(m, body) else CountBody(m, body)
  }

  /** The view itself is not the outer constructor, so reading it nests nothing. */
  lemma ReadsAreClean(m: Motif, view: string, f: Fact)
    requires m.Nested? && CleanRead(m, view, f) && view != m.outer
    ensures CleanFact(m, f)
  {
  }
}
