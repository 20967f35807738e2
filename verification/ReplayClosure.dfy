/**
 * Replays of positive commands and what saturation makes of them: facts are
 * closed under Horn clauses, those the kernel applies after every command and
 * those the rules of the environment add.
 *
 * `SaturateEarly` is the fact on which prefix reuse rests; `ReplayGrows` says
 * that positive checks survive any start from more facts.
 */
module ReplayClosure {

  datatype Expr = Var(name: string) | Lit(value: int) | Call(op: string, args: seq<Expr>)
  datatype Fact = Eq(left: Expr, right: Expr) | Holds(expr: Expr)

  /** `OtherAction` stands for set, delete, subsume and panic. */
  datatype Action = Insert(expr: Expr) | Let(name: string, expr: Expr) | Union(left: Expr, right: Expr) | OtherAction
  datatype Command = Datatype(variants: seq<string>) | Constructor(name: string) | Relation(name: string) | Ruleset | Sort(presort: bool)
                   | Rule(body: seq<Fact>, head: seq<Action>) | Act(action: Action) | Check(facts: seq<Fact>) | Fail(command: Command)
                   | OtherCommand

  // ---------- positive commands ----------

  predicate PositiveExpr(e: Expr, ops: set<string>) {
    e.Call? ==> e.op in ops && forall k :: 0 <= k < |e.args| ==> PositiveExpr(e.args[k], ops)
  }

  predicate PositiveFact(f: Fact, ops: set<string>) {
    match f
    case Eq(l, r) => PositiveExpr(l, ops) && PositiveExpr(r, ops)
    case Holds(e) => PositiveExpr(e, ops)
  }

  predicate PositiveFacts(fs: seq<Fact>, ops: set<string>) {
    forall k :: 0 <= k < |fs| ==> PositiveFact(fs[k], ops)
  }

  predicate PositiveAction(a: Action, ops: set<string>) {
    match a
    case Insert(e) => PositiveExpr(e, ops)
    case Let(_, e) => PositiveExpr(e, ops)
    case Union(l, r) => PositiveExpr(l, ops) && PositiveExpr(r, ops)
    case OtherAction => false
  }

  /** A check must hold, a check that must fail must itself fail. */
  predicate Positive(c: Command, ops: set<string>) {
    match c
    case Act(a) => PositiveAction(a, ops)
    case Check(fs) => PositiveFacts(fs, ops)
    case Fail(Fail(Check(fs))) => PositiveFacts(fs, ops)
    case _ => false
  }

  // ---------- closure under clauses ----------

  type Facts = iset<Fact>
  datatype Clause = Clause(premises: seq<Fact>, conclusion: Fact)
  datatype Proof = Given(fact: Fact) | By(clause: Clause, subs: seq<Proof>)

  function Conclusion(p: Proof): Fact {
    match p case Given(f) => f case By(c, _) => c.conclusion
  }

  ghost predicate Proves(laws: iset<Clause>, base: Facts, p: Proof) {
    match p
    case Given(f) => f in base
    case By(c, subs) =>
      && c in laws && |subs| == |c.premises|
      && forall k :: 0 <= k < |subs| ==> Proves(laws, base, subs[k]) && Conclusion(subs[k]) == c.premises[k]
  }

  ghost predicate Derived(laws: iset<Clause>, base: Facts, f: Fact) {
    exists p :: Proves(laws, base, p) && Conclusion(p) == f
  }

  ghost function Closure(laws: iset<Clause>, base: Facts): Facts {
    iset f | Derived(laws, base, f)
  }

  lemma ClosureExtends(laws: iset<Clause>, base: Facts)
    ensures base <= Closure(laws, base)
  {
    forall f | f in base ensures Derived(laws, base, f) { assert Proves(laws, base, Given(f)); }
  }

  lemma {:induction false} ProofMonotone(laws: iset<Clause>, more: iset<Clause>, base: Facts, wide: Facts, p: Proof)
    requires laws <= more && base <= wide && Proves(laws, base, p)
    ensures Proves(more, wide, p)
  {
    match p {
      case Given(_) =>
      case By(c, subs) =>
        forall k | 0 <= k < |subs| ensures Proves(more, wide, subs[k]) { ProofMonotone(laws, more, base, wide, subs[k]); }
    }
  }

  lemma ClosureMonotone(laws: iset<Clause>, more: iset<Clause>, base: Facts, wide: Facts)
    requires laws <= more && base <= wide
    ensures Closure(laws, base) <= Closure(more, wide)
  {
    forall f | Derived(laws, base, f) ensures Derived(more, wide, f) {
      var p :| Proves(laws, base, p) && Conclusion(p) == f;
      ProofMonotone(laws, more, base, wide, p);
    }
  }

  ghost function ProofOf(laws: iset<Clause>, base: Facts, f: Fact): (p: Proof)
    requires Derived(laws, base, f)
    ensures Proves(laws, base, p) && Conclusion(p) == f
  {
    var p :| Proves(laws, base, p) && Conclusion(p) == f; p
  }

  /** Proofs from derived facts are proofs from the facts. */
  lemma {:induction false} ProofFlattened(laws: iset<Clause>, base: Facts, p: Proof)
    requires Proves(laws, Closure(laws, base), p)
    ensures Derived(laws, base, Conclusion(p))
  {
    match p {
      case Given(_) =>
      case By(c, subs) =>
        forall k | 0 <= k < |subs| ensures Derived(laws, base, c.premises[k]) { ProofFlattened(laws, base, subs[k]); }
        var flat := seq(|subs|, k requires 0 <= k < |subs| => ProofOf(laws, base, c.premises[k]));
        assert Proves(laws, base, By(c, flat));
    }
  }

  lemma ClosureIdempotent(laws: iset<Clause>, base: Facts)
    ensures Closure(laws, Closure(laws, base)) == Closure(laws, base)
  {
    ClosureExtends(laws, Closure(laws, base));
    forall f | Derived(laws, Closure(laws, base), f) ensures Derived(laws, base, f) {
      var p :| Proves(laws, Closure(laws, base), p) && Conclusion(p) == f;
      ProofFlattened(laws, base, p);
    }
  }

  /** Saturating a part early, even by fewer laws, does not change the end. */
  lemma SaturateEarly(laws: iset<Clause>, all: iset<Clause>, part: Facts, rest: Facts)
    requires laws <= all
    ensures Closure(all, Closure(laws, part) + rest) == Closure(all, part + rest)
  {
    ClosureExtends(laws, part);
    ClosureMonotone(all, all, part + rest, Closure(laws, part) + rest);
    ClosureMonotone(laws, all, part, part + rest);
    ClosureExtends(all, part + rest);
    ClosureMonotone(all, all, Closure(laws, part) + rest, Closure(all, part + rest));
    ClosureIdempotent(all, part + rest);
  }

  // ---------- replays ----------

  function Added(a: Action): (fs: Facts) {
    match a
    case Insert(e) => iset{Holds(e)}
    case Let(x, e) => iset{Holds(e), Eq(Var(x), e)}
    case Union(l, r) => iset{Holds(l), Holds(r), Eq(l, r)}
    case OtherAction => iset{}
  }

  ghost predicate Passes(state: Facts, c: Command) {
    match c
    case Check(fs) => forall k :: 0 <= k < |fs| ==> fs[k] in state
    case Fail(inner) => !Passes(state, inner)
    case _ => true
  }

  datatype Ran = Ran(state: Facts, ok: bool)

  /** Actions add facts and the kernel rebuilds; checks look at the facts so far. */
  ghost function Run(kernel: iset<Clause>, state: Facts, cmds: seq<Command>): Ran
    decreases |cmds|
  {
    if cmds == [] then Ran(state, true)
    else
      var next := if cmds[0].Act? then Closure(kernel, state + Added(cmds[0].action)) else state;
      var rest := Run(kernel, next, cmds[1..]);
      Ran(rest.state, Passes(state, cmds[0]) && rest.ok)
  }

  /** Everything a replay adds. */
  ghost function Adds(cmds: seq<Command>): Facts {
    iset k, f | 0 <= k < |cmds| && cmds[k].Act? && f in Added(cmds[k].action) :: f
  }

  ghost predicate Closed(laws: iset<Clause>, state: Facts) {
    Closure(laws, state) == state
  }

  lemma AddsConcat(a: seq<Command>, b: seq<Command>)
    ensures Adds(a + b) == Adds(a) + Adds(b)
  {
    var c := a + b;
    forall f ensures f in Adds(c) <==> f in Adds(a) || f in Adds(b) {
      if f in Adds(a) {
        var k :| 0 <= k < |a| && a[k].Act? && f in Added(a[k].action);
        assert c[k] == a[k];
      }
      if f in Adds(b) {
        var k :| 0 <= k < |b| && b[k].Act? && f in Added(b[k].action);
        assert c[|a| + k] == b[k];
      }
    }
  }

  lemma AddsOne(c: Command)
    ensures Adds([c]) == if c.Act? then Added(c.action) else iset{}
  {
    if c.Act? { forall f | f in Added(c.action) ensures f in Adds([c]) { assert [c][0] == c; } }
  }

  /** A replay ends in the closure of its start and all it adds. */
  lemma {:induction false} RunState(kernel: iset<Clause>, state: Facts, cmds: seq<Command>)
    requires Closed(kernel, state)
    ensures Run(kernel, state, cmds).state == Closure(kernel, state + Adds(cmds)) && Closed(kernel, Run(kernel, state, cmds).state)
    decreases |cmds|
  {
    if cmds == [] {
      assert state + Adds(cmds) == state;
    } else {
      var c, rest := cmds[0], cmds[1..];
      AddsOne(c);
      AddsConcat([c], rest);
      assert [c] + rest == cmds;
      if c.Act? {
        ClosureIdempotent(kernel, state + Added(c.action));
        RunState(kernel, Closure(kernel, state + Added(c.action)), rest);
        SaturateEarly(kernel, kernel, state + Added(c.action), Adds(rest));
        assert state + Added(c.action) + Adds(rest) == state + Adds(cmds);
      } else {
        RunState(kernel, state, rest);
        assert state + Adds(rest) == state + Adds(cmds);
      }
    }
  }

  lemma {:induction false} RunConcat(kernel: iset<Clause>, state: Facts, a: seq<Command>, b: seq<Command>)
    ensures var first := Run(kernel, state, a); var second := Run(kernel, first.state, b);
            Run(kernel, state, a + b) == Ran(second.state, first.ok && second.ok)
    decreases |a|
  {
    if a == [] {
      assert a + b == b;
    } else {
      assert (a + b)[0] == a[0] && (a + b)[1..] == a[1..] + b;
      RunConcat(kernel, if a[0].Act? then Closure(kernel, state + Added(a[0].action)) else state, a[1..], b);
    }
  }

  lemma PassesMore(c: Command, ops: set<string>, state: Facts, wide: Facts)
    requires Positive(c, ops) && state <= wide && Passes(state, c)
    ensures Passes(wide, c)
  {
    match c {
      case Fail(Fail(inner)) =>
        assert Passes(state, c) <==> Passes(state, inner);
        assert Passes(wide, c) <==> Passes(wide, inner);
      case _ =>
    }
  }

  /** Positive replays pass from more facts whenever they pass, and keep more. */
  lemma {:induction false} ReplayGrows(kernel: iset<Clause>, state: Facts, wide: Facts, cmds: seq<Command>, ops: set<string>)
    requires state <= wide && forall k :: 0 <= k < |cmds| ==> Positive(cmds[k], ops)
    ensures Run(kernel, state, cmds).ok ==> Run(kernel, wide, cmds).ok
    ensures Run(kernel, state, cmds).state <= Run(kernel, wide, cmds).state
    decreases |cmds|
  {
    if cmds != [] {
      var c := cmds[0];
      if Passes(state, c) { PassesMore(c, ops, state, wide); }
      if c.Act? {
        ClosureMonotone(kernel, kernel, state + Added(c.action), wide + Added(c.action));
        ReplayGrows(kernel, Closure(kernel, state + Added(c.action)), Closure(kernel, wide + Added(c.action)), cmds[1..], ops);
      } else {
        ReplayGrows(kernel, state, wide, cmds[1..], ops);
      }
    }
  }

  // ---------- clauses of an environment ----------

  type Subst = map<string, Expr>

  function Instance(e: Expr, sub: Subst): Expr {
    match e
    case Var(x) => if x in sub then sub[x] else e
    case Lit(_) => e
    case Call(op, args) => Call(op, seq(|args|, k requires 0 <= k < |args| => Instance(args[k], sub)))
  }

  function FactInstance(f: Fact, sub: Subst): Fact {
    match f
    case Eq(l, r) => Eq(Instance(l, sub), Instance(r, sub))
    case Holds(e) => Holds(Instance(e, sub))
  }

  function BodyInstance(body: seq<Fact>, sub: Subst): seq<Fact> {
    seq(|body|, k requires 0 <= k < |body| => FactInstance(body[k], sub))
  }

  function ActionInstance(a: Action, sub: Subst): Action {
    match a
    case Insert(e) => Insert(Instance(e, sub))
    case Let(x, e) => Let(x, Instance(e, sub))
    case Union(l, r) => Union(Instance(l, sub), Instance(r, sub))
    case OtherAction => OtherAction
  }

  /** A ground instance of a rule, and one fact it adds. */
  ghost predicate Instantiates(rule: Command, c: Clause, sub: Subst, k: nat)
    requires rule.Rule?
  {
    k < |rule.head| && c.premises == BodyInstance(rule.body, sub) && c.conclusion in Added(ActionInstance(rule.head[k], sub))
  }

  ghost predicate RuleClause(rule: Command, c: Clause)
    requires rule.Rule?
  {
    exists sub, k :: Instantiates(rule, c, sub, k)
  }

  ghost predicate FromRules(environment: seq<Command>, c: Clause) {
    exists k :: 0 <= k < |environment| && environment[k].Rule? && RuleClause(environment[k], c)
  }

  /** The kernel's laws and the rules of the environment. */
  ghost function Laws(kernel: iset<Clause>, environment: seq<Command>): (all: iset<Clause>)
    ensures kernel <= all
  {
    kernel + iset c | FromRules(environment, c)
  }
}
