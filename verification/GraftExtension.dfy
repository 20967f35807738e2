/**
 * Replays that extend several rebased parents (`Prepared::extension` and `map` of
 * src/cell_graft_interfaces.rs): each parent's commands, rewritten to the child's
 * terms, are found in order among the child's, and only the rest is kept.
 *
 * `FitsMeans` says when a child extends a parent: every port term is exchanged for the
 * child's term of the same history token. `ExtensionEndsAlike` says that saturating the
 * parents first and then running the rest reaches the child's facts, and
 * `ExtensionPasses` that no check is lost.
 */
module GraftExtension {
  import opened Wrappers
  import opened ReplayClosure

  datatype Port = Port(term: Expr, token: nat, sort: string)
  datatype Value = Value(term: Expr, sort: string)
  datatype Prepared = Prepared(environment: seq<Command>, commands: seq<Command>, validation: seq<Command>, ports: seq<Port>,
                               values: map<nat, Value>, members: set<nat>, opaqueOps: set<string>)

  type Renaming = map<Expr, Expr>

  // ---------- rebasing ----------

  function Replace(e: Expr, to: Renaming): Expr {
    if e in to then to[e] else e
  }

  /** Terms are rewritten from the inside out. */
  function Rebase(e: Expr, to: Renaming): Expr {
    match e
    case Call(op, args) => Replace(Call(op, seq(|args|, k requires 0 <= k < |args| => Rebase(args[k], to))), to)
    case _ => Replace(e, to)
  }

  /** A call of an opaque operator, its arguments rewritten, that nothing replaces. */
  predicate Unmapped(e: Expr, to: Renaming, opaqueOps: set<string>) {
    e.Call? &&
    (|| (exists k :: 0 <= k < |e.args| && Unmapped(e.args[k], to, opaqueOps))
     || (e.op in opaqueOps && Call(e.op, seq(|e.args|, k requires 0 <= k < |e.args| => Rebase(e.args[k], to))) !in to))
  }

  function RebaseFact(f: Fact, to: Renaming): Fact {
    match f
    case Eq(l, r) => Eq(Rebase(l, to), Rebase(r, to))
    case Holds(e) => Holds(Rebase(e, to))
  }

  function RebaseAction(a: Action, to: Renaming): Action {
    match a
    case Insert(e) => Insert(Rebase(e, to))
    case Let(x, e) => Let(x, Rebase(e, to))
    case Union(l, r) => Union(Rebase(l, to), Rebase(r, to))
    case OtherAction => OtherAction
  }

  predicate Rebasable(c: Command) {
    match c
    case Act(_) => true
    case Check(_) => true
    case Fail(inner) => Rebasable(inner)
    case _ => false
  }

  function RebaseCommand(c: Command, to: Renaming): Command
    requires Rebasable(c)
  {
    match c
    case Act(a) => Act(RebaseAction(a, to))
    case Check(fs) => Check(seq(|fs|, k requires 0 <= k < |fs| => RebaseFact(fs[k], to)))
    case Fail(inner) => Fail(RebaseCommand(inner, to))
  }

  function FactTerms(f: Fact): set<Expr> {
    match f case Eq(l, r) => {l, r} case Holds(e) => {e}
  }

  function Terms(c: Command): set<Expr> {
    match c
    case Act(Insert(e)) => {e}
    case Act(Let(_, e)) => {e}
    case Act(Union(l, r)) => {l, r}
    case Check(fs) => set f, e | f in fs && e in FactTerms(f) :: e
    case Fail(inner) => Terms(inner)
    case _ => {}
  }

  predicate MappedTerms(terms: set<Expr>, to: Renaming, opaqueOps: set<string>) {
    forall e :: e in terms ==> !Unmapped(e, to, opaqueOps)
  }

  predicate AllMapped(cmds: seq<Command>, to: Renaming, opaqueOps: set<string>) {
    forall k :: 0 <= k < |cmds| ==> MappedTerms(Terms(cmds[k]), to, opaqueOps)
  }

  predicate AllRebasable(cmds: seq<Command>) {
    forall k :: 0 <= k < |cmds| ==> Rebasable(cmds[k])
  }

  function RebaseAll(cmds: seq<Command>, to: Renaming): (r: seq<Command>)
    requires AllRebasable(cmds)
    ensures |r| == |cmds| && forall k :: 0 <= k < |cmds| ==> r[k] == RebaseCommand(cmds[k], to)
  {
    seq(|cmds|, k requires 0 <= k < |cmds| => RebaseCommand(cmds[k], to))
  }

  // ---------- ordered occurrences ----------

  /** Positions in order at which the commands occur. */
  predicate Occurs(pattern: seq<Command>, text: seq<Command>, at: seq<nat>) {
    && |at| == |pattern|
    && (forall k :: 0 <= k < |at| ==> at[k] < |text| && text[at[k]] == pattern[k])
    && forall j, k :: 0 <= j < k < |at| ==> at[j] < at[k]
  }

  /** No occurrence of the commands ends before the cursor. */
  ghost predicate Earliest(pattern: seq<Command>, text: seq<Command>, cursor: nat) {
    forall at: seq<nat> {:trigger Occurs(pattern, text, at)} :: Occurs(pattern, text, at) && at != [] ==> cursor <= at[|at| - 1] + 1
  }

  lemma OccursFront(pattern: seq<Command>, c: Command, text: seq<Command>, at: seq<nat>)
    requires Occurs(pattern + [c], text, at)
    ensures Occurs(pattern, text, at[..|pattern|]) && at[|pattern|] < |text| && text[at[|pattern|]] == c
    ensures forall k :: 0 <= k < |pattern| ==> at[k] < at[|pattern|]
  {
    var all, n := pattern + [c], |pattern|;
    forall k | 0 <= k < n ensures at[k] < |text| && text[at[k]] == pattern[k] { assert all[k] == pattern[k]; }
    assert all[n] == c;
  }

  /** The first position from the cursor on. */
  method Position(text: seq<Command>, c: Command, from: nat) returns (r: Option<nat>)
    requires from <= |text|
    ensures match r
            case None => forall i :: from <= i < |text| ==> text[i] != c
            case Some(i) => from <= i < |text| && text[i] == c && forall j :: from <= j < i ==> text[j] != c
  {
    for i := from to |text|
      invariant forall j :: from <= j < i ==> text[j] != c
    {
      if text[i] == c { return Some(i); }
    }
    r := None;
  }

  /** Taking the first occurrence each time finds an occurrence exactly if there is one. */
  method FirstFit(pattern: seq<Command>, text: seq<Command>) returns (r: Option<seq<nat>>)
    ensures match r
            case None => forall at: seq<nat> :: !Occurs(pattern, text, at)
            case Some(at) => Occurs(pattern, text, at)
  {
    var at: seq<nat> := [];
    var cursor: nat := 0;
    for k := 0 to |pattern|
      invariant Occurs(pattern[..k], text, at) && cursor <= |text| && (forall j :: 0 <= j < k ==> at[j] < cursor)
      invariant Earliest(pattern[..k], text, cursor) && (k == 0 ==> cursor == 0)
    {
      var next := Position(text, pattern[k], cursor);
      assert pattern[..k + 1] == pattern[..k] + [pattern[k]];
      forall other: seq<nat> | Occurs(pattern[..k + 1], text, other) ensures cursor <= other[k] {
        OccursFront(pattern[..k], pattern[k], text, other);
        if k > 0 { assert Occurs(pattern[..k], text, other[..k]) && other[..k][k - 1] == other[k - 1]; }
      }
      if next.None? {
        forall other: seq<nat> ensures !Occurs(pattern, text, other) { NoWhole(pattern, text, other, k, cursor); }
        return None;
      }
      forall other: seq<nat> | Occurs(pattern[..k + 1], text, other) ensures next.value <= other[k] {
        OccursFront(pattern[..k], pattern[k], text, other);
      }
      at, cursor := at + [next.value], next.value + 1;
    }
    assert pattern[..|pattern|] == pattern;
    r := Some(at);
  }

  lemma NoWhole(pattern: seq<Command>, text: seq<Command>, other: seq<nat>, k: nat, cursor: nat)
    requires k < |pattern| && forall i :: cursor <= i < |text| ==> text[i] != pattern[k]
    requires forall at: seq<nat> {:trigger Occurs(pattern[..k + 1], text, at)} :: Occurs(pattern[..k + 1], text, at) ==> cursor <= at[k]
    ensures !Occurs(pattern, text, other)
  {
    if Occurs(pattern, text, other) { OccursPrefix(pattern, text, other, k + 1); }
  }

  lemma OccursPrefix(pattern: seq<Command>, text: seq<Command>, at: seq<nat>, k: nat)
    requires Occurs(pattern, text, at) && k <= |pattern|
    ensures Occurs(pattern[..k], text, at[..k])
  {
  }

  // ---------- extensions ----------

  /** Every port of the parent is a value of the child, of the same sort. */
  predicate Bound(child: Prepared, ports: seq<Port>) {
    forall k :: 0 <= k < |ports| ==> ports[k].token in child.values && child.values[ports[k].token].sort == ports[k].sort
  }

  /** Parent terms to child terms of the same history token. */
  function Ported(child: Prepared, ports: seq<Port>): Renaming
    requires Bound(child, ports)
  {
    if ports == [] then map[]
    else
      var port := ports[|ports| - 1];
      Ported(child, ports[..|ports| - 1])[port.term := child.values[port.token].term]
  }

  /** The parent's commands in the child's terms. */
  function Rebased(child: Prepared, p: Prepared): (r: seq<Command>)
    requires Bound(child, p.ports) && AllRebasable(p.commands)
    ensures |r| == |p.commands|
  {
    RebaseAll(p.commands, Ported(child, p.ports))
  }

  predicate Comparable(child: Prepared, p: Prepared) {
    && p.environment == child.environment && p.members < child.members
    && Bound(child, p.ports) && AllRebasable(p.commands) && AllRebasable(p.validation)
    && AllMapped(p.commands + p.validation, Ported(child, p.ports), p.opaqueOps)
  }

  predicate ChecksKept(child: Prepared, p: Prepared)
    requires Comparable(child, p)
  {
    forall k :: 0 <= k < |p.validation| ==> RebaseCommand(p.validation[k], Ported(child, p.ports)) in child.commands + child.validation
  }

  ghost predicate Fits(child: Prepared, p: Prepared) {
    Comparable(child, p) && ChecksKept(child, p) && exists at: seq<nat> :: Occurs(Rebased(child, p), child.commands, at)
  }

  /** Where the parent's commands occur among the child's, if the child extends the parent. */
  method Match(child: Prepared, p: Prepared) returns (r: Option<seq<nat>>)
    ensures r.Some? <==> Fits(child, p)
    ensures r.Some? ==> Comparable(child, p) && Occurs(Rebased(child, p), child.commands, r.value)
    ensures r.Some? ==> forall to :: Sends(child, p.ports, to) ==> Occurs(RebaseAll(p.commands, to), child.commands, r.value)
  {
    if !Comparable(child, p) { return None; }
    PortedSends(child, p.ports);
    forall to | Sends(child, p.ports, to) ensures to == Ported(child, p.ports) {
      SendsUnique(child, p.ports, to, Ported(child, p.ports));
    }
    r := FirstFit(Rebased(child, p), child.commands);
    if !ChecksKept(child, p) { r := None; }
  }

  /** The commands at positions below `n` that are not removed. */
  function Without(text: seq<Command>, removed: set<nat>, n: nat): seq<Command>
    requires n <= |text|
  {
    if n == 0 then [] else if n - 1 in removed then Without(text, removed, n - 1) else Without(text, removed, n - 1) + [text[n - 1]]
  }

  /** The removed positions are those of some occurrence of every parent, in order. */
  ghost predicate Removes(child: Prepared, parents: seq<Prepared>, removed: set<nat>) {
    exists ats: seq<seq<nat>> :: RemovedAt(child, parents, ats, removed)
  }

  ghost predicate OccursAt(child: Prepared, parents: seq<Prepared>, ats: seq<seq<nat>>, k: nat)
    requires k < |parents| == |ats|
  {
    Comparable(child, parents[k]) && Occurs(Rebased(child, parents[k]), child.commands, ats[k])
  }

  ghost predicate RemovedAt(child: Prepared, parents: seq<Prepared>, ats: seq<seq<nat>>, removed: set<nat>) {
    && |ats| == |parents| && (forall k: nat {:trigger OccursAt(child, parents, ats, k)} :: k < |parents| ==> OccursAt(child, parents, ats, k))
    && forall i: nat :: i in removed <==> exists k: nat :: k < |ats| && i in ats[k]
  }

  lemma RemovedNext(child: Prepared, parents: seq<Prepared>, p: Prepared, ats: seq<seq<nat>>, removed: set<nat>, at: seq<nat>)
    requires RemovedAt(child, parents, ats, removed) && Comparable(child, p) && Occurs(Rebased(child, p), child.commands, at)
    ensures RemovedAt(child, parents + [p], ats + [at], removed + set i | i in at)
  {
    var all, more, gone := parents + [p], ats + [at], removed + set i | i in at;
    forall k: nat | k < |all| ensures OccursAt(child, all, more, k) {
      if k < |parents| { assert OccursAt(child, parents, ats, k); }
    }
    forall i: nat ensures i in gone <==> exists k: nat :: k < |more| && i in more[k] {
      if i in removed {
        var k: nat :| k < |ats| && i in ats[k];
        assert more[k] == ats[k];
      } else if i in at {
        assert more[|ats|] == at;
      }
      if k: nat :| k < |more| && i in more[k] && k < |ats| { assert i in ats[k]; }
    }
  }

  /** What remains of the child's replay once all its parents are taken as given. */
  method Extension(child: Prepared, parents: seq<Prepared>) returns (r: Option<seq<Command>>)
    ensures r.Some? <==> parents != [] && forall k :: 0 <= k < |parents| ==> Fits(child, parents[k])
    ensures r.Some? ==> exists removed: set<nat> :: Removes(child, parents, removed) && r.value == Without(child.commands, removed, |child.commands|)
  {
    if parents == [] { return None; }
    var removed: set<nat> := {};
    ghost var ats: seq<seq<nat>> := [];
    assert RemovedAt(child, parents[..0], ats, removed);
    for k := 0 to |parents|
      invariant RemovedAt(child, parents[..k], ats, removed) && forall j :: 0 <= j < k ==> Fits(child, parents[j])
    {
      var at := Match(child, parents[k]);
      if at.None? { return None; }
      RemovedNext(child, parents[..k], parents[k], ats, removed, at.value);
      assert parents[..k + 1] == parents[..k] + [parents[k]];
      removed, ats := removed + (set i | i in at.value), ats + [at.value];
    }
    assert parents[..|parents|] == parents;
    assert Removes(child, parents, removed);
    var residual: seq<Command>, n := [], 0;
    while n < |child.commands|
      invariant n <= |child.commands| && residual == Without(child.commands, removed, n)
    {
      if n !in removed { residual := residual + [child.commands[n]]; }
      n := n + 1;
    }
    r := Some(residual);
  }

  /** Insertions, unions and positive checks; a let is not accepted here. */
  predicate PositiveCommands(cmds: seq<Command>, ops: set<string>) {
    forall k :: 0 <= k < |cmds| ==> Positive(cmds[k], ops) && !(cmds[k].Act? && cmds[k].action.Let?)
  }

  // ---------- what extensions preserve ----------

  ghost predicate FromParents(laws: iset<Clause>, child: Prepared, parents: seq<Prepared>, f: Fact) {
    exists k :: 0 <= k < |parents| && FromParent(laws, child, parents[k], f)
  }

  ghost predicate FromParent(laws: iset<Clause>, child: Prepared, p: Prepared, f: Fact) {
    Comparable(child, p) && f in Closure(laws, Adds(Rebased(child, p)))
  }

  /** The facts of all saturated parents. */
  ghost function ParentFacts(laws: iset<Clause>, child: Prepared, parents: seq<Prepared>): Facts {
    iset f | FromParents(laws, child, parents, f)
  }

  lemma AddsAt(cmds: seq<Command>, k: nat, f: Fact)
    requires k < |cmds| && cmds[k].Act? && f in Added(cmds[k].action)
    ensures f in Adds(cmds)
  {
  }

  /** What a removed command adds, a parent adds. */
  lemma RemovedInherited(laws: iset<Clause>, child: Prepared, parents: seq<Prepared>, removed: set<nat>, i: nat, f: Fact)
    requires Removes(child, parents, removed) && i in removed && i < |child.commands|
    requires child.commands[i].Act? && f in Added(child.commands[i].action)
    ensures f in ParentFacts(laws, child, parents)
  {
    var ats: seq<seq<nat>> :| RemovedAt(child, parents, ats, removed);
    var k: nat :| k < |ats| && i in ats[k];
    assert OccursAt(child, parents, ats, k);
    var rebased := Rebased(child, parents[k]);
    var j: nat :| j < |ats[k]| && ats[k][j] == i;
    AddsAt(rebased, j, f);
    ClosureExtends(laws, Adds(rebased));
    assert FromParent(laws, child, parents[k], f);
  }

  /** Parents add nothing that the child does not add. */
  lemma ParentsWithin(laws: iset<Clause>, child: Prepared, parents: seq<Prepared>, removed: set<nat>)
    requires Removes(child, parents, removed)
    ensures ParentFacts(laws, child, parents) <= Closure(laws, Adds(child.commands))
  {
    var ats: seq<seq<nat>> :| RemovedAt(child, parents, ats, removed);
    forall f | FromParents(laws, child, parents, f) ensures f in Closure(laws, Adds(child.commands)) {
      var k :| 0 <= k < |parents| && FromParent(laws, child, parents[k], f);
      assert OccursAt(child, parents, ats, k);
      var rebased := Rebased(child, parents[k]);
      forall g | g in Adds(rebased) ensures g in Adds(child.commands) {
        var j: nat :| j < |rebased| && rebased[j].Act? && g in Added(rebased[j].action);
        AddsAt(child.commands, ats[k][j], g);
      }
      ClosureMonotone(laws, laws, Adds(rebased), Adds(child.commands));
    }
  }

  lemma AddsFront(text: seq<Command>, n: nat)
    requires 0 < n <= |text|
    ensures Adds(text[..n]) == Adds(text[..n - 1]) + Adds([text[n - 1]])
  {
    assert text[..n] == text[..n - 1] + [text[n - 1]];
    AddsConcat(text[..n - 1], [text[n - 1]]);
  }

  lemma AddsWithout(text: seq<Command>, removed: set<nat>, n: nat)
    requires 0 < n <= |text|
    ensures Adds(Without(text, removed, n)) == Adds(Without(text, removed, n - 1)) + if n - 1 in removed then iset{} else Adds([text[n - 1]])
  {
    AddsConcat(Without(text, removed, n - 1), [text[n - 1]]);
  }

  lemma {:induction false} KeptAdded(text: seq<Command>, removed: set<nat>, n: nat)
    requires n <= |text|
    ensures Adds(Without(text, removed, n)) <= Adds(text[..n])
  {
    if n > 0 {
      KeptAdded(text, removed, n - 1);
      AddsFront(text, n);
      AddsWithout(text, removed, n);
    }
  }

  /** Every fact the child adds is added by a kept command or inherited. */
  lemma {:induction false} KeptOrInherited(laws: iset<Clause>, child: Prepared, parents: seq<Prepared>, removed: set<nat>, n: nat)
    requires Removes(child, parents, removed) && n <= |child.commands|
    ensures Adds(child.commands[..n]) <= Adds(Without(child.commands, removed, n)) + ParentFacts(laws, child, parents)
  {
    if n > 0 {
      KeptOrInherited(laws, child, parents, removed, n - 1);
      if n - 1 in removed { CommandInherited(laws, child, parents, removed, n - 1); }
      KeptStep(child.commands, removed, n, ParentFacts(laws, child, parents));
    }
  }

  lemma KeptStep(text: seq<Command>, removed: set<nat>, n: nat, given: Facts)
    requires 0 < n <= |text| && (n - 1 in removed ==> Adds([text[n - 1]]) <= given)
    requires Adds(text[..n - 1]) <= Adds(Without(text, removed, n - 1)) + given
    ensures Adds(text[..n]) <= Adds(Without(text, removed, n)) + given
  {
    AddsFront(text, n);
    AddsWithout(text, removed, n);
  }

  lemma CommandInherited(laws: iset<Clause>, child: Prepared, parents: seq<Prepared>, removed: set<nat>, i: nat)
    requires Removes(child, parents, removed) && i in removed && i < |child.commands|
    ensures Adds([child.commands[i]]) <= ParentFacts(laws, child, parents)
  {
    var c := child.commands[i];
    AddsOne(c);
    if c.Act? {
      forall f | f in Added(c.action) ensures f in ParentFacts(laws, child, parents) {
        RemovedInherited(laws, child, parents, removed, i, f);
      }
    }
  }

  /** Saturating all parents first and then running the rest reaches the same facts as the whole child. */
  lemma ExtensionEndsAlike(kernel: iset<Clause>, child: Prepared, parents: seq<Prepared>, removed: set<nat>)
    requires Removes(child, parents, removed)
    ensures Closure(Laws(kernel, child.environment),
                    ParentFacts(Laws(kernel, child.environment), child, parents) + Adds(Without(child.commands, removed, |child.commands|)))
         == Closure(Laws(kernel, child.environment), Adds(child.commands))
  {
    var all, whole := Laws(kernel, child.environment), Adds(child.commands);
    var given, rest := ParentFacts(all, child, parents), Adds(Without(child.commands, removed, |child.commands|));
    assert child.commands[..|child.commands|] == child.commands;
    KeptAdded(child.commands, removed, |child.commands|);
    KeptOrInherited(all, child, parents, removed, |child.commands|);
    ParentsWithin(all, child, parents, removed);
    ClosureExtends(all, whole);
    ClosureMonotone(all, all, given + rest, Closure(all, whole));
    ClosureIdempotent(all, whole);
    ClosureMonotone(all, all, whole, given + rest);
  }

  /** Before each kept command the warm replay knows at least what the whole replay knows. */
  lemma {:induction false} WarmAhead(kernel: iset<Clause>, child: Prepared, parents: seq<Prepared>, removed: set<nat>, start: Facts, warm: Facts,
                                     ops: set<string>, n: nat)
    requires Removes(child, parents, removed) && n <= |child.commands| && PositiveCommands(child.commands, ops)
    requires start <= warm && Closed(kernel, warm) && ParentFacts(kernel, child, parents) <= warm
    ensures Run(kernel, start, child.commands[..n]).state <= Run(kernel, warm, Without(child.commands, removed, n)).state
    ensures Run(kernel, start, child.commands[..n]).ok ==> Run(kernel, warm, Without(child.commands, removed, n)).ok
  {
    if n > 0 {
      var front, last := child.commands[..n - 1], child.commands[n - 1];
      var kept := Without(child.commands, removed, n - 1);
      WarmAhead(kernel, child, parents, removed, start, warm, ops, n - 1);
      assert child.commands[..n] == front + [last];
      RunConcat(kernel, start, front, [last]);
      RunConcat(kernel, warm, kept, [last]);
      var cold, ahead := Run(kernel, start, front).state, Run(kernel, warm, kept).state;
      if n - 1 in removed {
        WarmKnows(kernel, child, parents, removed, warm, n);
        NextState(kernel, cold, last, ahead);
      } else {
        ReplayGrows(kernel, cold, ahead, [last], ops);
      }
    }
  }

  lemma NextState(kernel: iset<Clause>, cold: Facts, last: Command, ahead: Facts)
    requires cold <= ahead && Closed(kernel, ahead) && (last.Act? ==> Added(last.action) <= ahead)
    ensures Run(kernel, cold, [last]).state <= ahead
  {
    assert [last][1..] == [];
    if last.Act? { ClosureMonotone(kernel, kernel, cold + Added(last.action), ahead); }
  }

  lemma WarmKnows(kernel: iset<Clause>, child: Prepared, parents: seq<Prepared>, removed: set<nat>, warm: Facts, n: nat)
    requires Removes(child, parents, removed) && 0 < n <= |child.commands| && n - 1 in removed
    requires Closed(kernel, warm) && ParentFacts(kernel, child, parents) <= warm
    ensures var ahead, last := Run(kernel, warm, Without(child.commands, removed, n - 1)).state, child.commands[n - 1];
            Closed(kernel, ahead) && (last.Act? ==> Added(last.action) <= ahead)
  {
    var kept, last := Without(child.commands, removed, n - 1), child.commands[n - 1];
    RunState(kernel, warm, kept);
    ClosureExtends(kernel, warm + Adds(kept));
    CommandInherited(kernel, child, parents, removed, n - 1);
    AddsOne(last);
  }

  /** The rest passes from the saturated parents whenever the whole child passes from nothing. */
  lemma ExtensionPasses(kernel: iset<Clause>, child: Prepared, parents: seq<Prepared>, removed: set<nat>, ops: set<string>)
    requires Removes(child, parents, removed) && PositiveCommands(child.commands, ops)
    requires Run(kernel, Closure(kernel, iset{}), child.commands).ok
    ensures var all := Laws(kernel, child.environment);
            Run(kernel, Closure(all, ParentFacts(all, child, parents)), Without(child.commands, removed, |child.commands|)).ok
  {
    var all := Laws(kernel, child.environment);
    var given := ParentFacts(all, child, parents);
    var warm := Closure(all, given);
    ClosureExtends(all, given);
    ClosureExtends(kernel, warm);
    ClosureMonotone(kernel, all, warm, warm);
    ClosureIdempotent(all, given);
    ClosureMonotone(kernel, all, iset{}, given);
    MoreLaws(kernel, all, child, parents);
    WarmAhead(kernel, child, parents, removed, Closure(kernel, iset{}), warm, ops, |child.commands|);
    assert child.commands[..|child.commands|] == child.commands;
  }

  lemma MoreLaws(kernel: iset<Clause>, all: iset<Clause>, child: Prepared, parents: seq<Prepared>)
    requires kernel <= all
    ensures ParentFacts(kernel, child, parents) <= ParentFacts(all, child, parents)
  {
    forall f | FromParents(kernel, child, parents, f) ensures FromParents(all, child, parents, f) {
      var k :| 0 <= k < |parents| && FromParent(kernel, child, parents[k], f);
      ClosureMonotone(kernel, all, Adds(Rebased(child, parents[k])), Adds(Rebased(child, parents[k])));
      assert FromParent(all, child, parents[k], f);
    }
  }

  // ---------- saturating before rebasing ----------

  function RebaseFacts(fs: seq<Fact>, to: Renaming): (r: seq<Fact>)
    ensures |r| == |fs| && forall k :: 0 <= k < |fs| ==> r[k] == RebaseFact(fs[k], to)
  {
    seq(|fs|, k requires 0 <= k < |fs| => RebaseFact(fs[k], to))
  }

  function RebaseClause(c: Clause, to: Renaming): Clause {
    Clause(RebaseFacts(c.premises, to), RebaseFact(c.conclusion, to))
  }

  /** Laws that do not look inside the rewritten terms. */
  ghost predicate Respects(laws: iset<Clause>, to: Renaming) {
    forall c :: c in laws ==> RebaseClause(c, to) in laws
  }

  ghost function Image(fs: Facts, to: Renaming): Facts {
    iset f | f in fs :: RebaseFact(f, to)
  }

  /** Rewriting a proof proves the rewritten fact. */
  lemma {:induction false} ProofRebased(laws: iset<Clause>, base: Facts, to: Renaming, p: Proof)
    requires Respects(laws, to) && Proves(laws, base, p)
    ensures Derived(laws, Image(base, to), RebaseFact(Conclusion(p), to))
  {
    match p {
      case Given(f) =>
        assert Proves(laws, Image(base, to), Given(RebaseFact(f, to)));
      case By(c, subs) =>
        var moved := RebaseClause(c, to);
        forall k | 0 <= k < |subs| ensures Derived(laws, Image(base, to), moved.premises[k]) { ProofRebased(laws, base, to, subs[k]); }
        var proofs := seq(|subs|, k requires 0 <= k < |subs| => ProofOf(laws, Image(base, to), moved.premises[k]));
        assert Proves(laws, Image(base, to), By(moved, proofs));
    }
  }

  lemma ClosureRebased(laws: iset<Clause>, base: Facts, to: Renaming)
    requires Respects(laws, to)
    ensures Image(base, to) <= Image(Closure(laws, base), to) <= Closure(laws, Image(base, to))
  {
    ClosureExtends(laws, base);
    forall f | Derived(laws, base, f) ensures RebaseFact(f, to) in Closure(laws, Image(base, to)) {
      var p :| Proves(laws, base, p) && Conclusion(p) == f;
      ProofRebased(laws, base, to, p);
    }
  }

  /** No rewritten term is a variable, a literal or a call of one of the operators. */
  predicate Foreign(to: Renaming, ops: set<string>) {
    forall e :: e in to ==> e.Call? && e.op !in ops
  }

  function RebaseSubst(sub: Subst, to: Renaming): Subst {
    map x | x in sub :: Rebase(sub[x], to)
  }

  /** Rewriting an instance of a pattern gives an instance of the pattern. */
  lemma {:induction false} InstanceRebased(e: Expr, sub: Subst, to: Renaming, ops: set<string>)
    requires Foreign(to, ops) && PositiveExpr(e, ops)
    ensures Rebase(Instance(e, sub), to) == Instance(e, RebaseSubst(sub, to))
  {
    match e {
      case Var(_) =>
      case Lit(_) =>
      case Call(op, args) =>
        var inst := seq(|args|, k requires 0 <= k < |args| => Instance(args[k], sub));
        var moved := seq(|args|, k requires 0 <= k < |args| => Instance(args[k], RebaseSubst(sub, to)));
        forall k | 0 <= k < |args| ensures Rebase(inst[k], to) == moved[k] { InstanceRebased(args[k], sub, to, ops); }
        assert seq(|inst|, k requires 0 <= k < |inst| => Rebase(inst[k], to)) == moved;
    }
  }

  lemma FactInstanceRebased(f: Fact, sub: Subst, to: Renaming, ops: set<string>)
    requires Foreign(to, ops) && PositiveFact(f, ops)
    ensures RebaseFact(FactInstance(f, sub), to) == FactInstance(f, RebaseSubst(sub, to))
  {
    match f {
      case Eq(l, r) =>
        InstanceRebased(l, sub, to, ops);
        InstanceRebased(r, sub, to, ops);
      case Holds(e) =>
        InstanceRebased(e, sub, to, ops);
    }
  }

  lemma AddedRebased(a: Action, to: Renaming)
    requires !a.Let?
    ensures Added(RebaseAction(a, to)) == Image(Added(a), to)
  {
    match a {
      case Insert(e) => assert Image(Added(a), to) == iset{RebaseFact(Holds(e), to)};
      case Union(l, r) => assert Image(Added(a), to) == iset{RebaseFact(Holds(l), to), RebaseFact(Holds(r), to), RebaseFact(Eq(l, r), to)};
      case OtherAction =>
    }
  }

  lemma ActionInstanceRebased(a: Action, sub: Subst, to: Renaming, ops: set<string>)
    requires Foreign(to, ops) && PositiveAction(a, ops)
    ensures RebaseAction(ActionInstance(a, sub), to) == ActionInstance(a, RebaseSubst(sub, to))
  {
    match a {
      case Insert(e) => InstanceRebased(e, sub, to, ops);
      case Let(_, e) => InstanceRebased(e, sub, to, ops);
      case Union(l, r) =>
        InstanceRebased(l, sub, to, ops);
        InstanceRebased(r, sub, to, ops);
    }
  }

  /** Positive rules without lets. */
  predicate PositiveRules(environment: seq<Command>, ops: set<string>) {
    forall k :: 0 <= k < |environment| && environment[k].Rule? ==> PositiveRule(environment[k], ops)
  }

  predicate PositiveRule(rule: Command, ops: set<string>)
    requires rule.Rule?
  {
    PositiveFacts(rule.body, ops) && forall j :: 0 <= j < |rule.head| ==> PositiveAction(rule.head[j], ops) && !rule.head[j].Let?
  }

  lemma RuleClauseRebased(rule: Command, c: Clause, to: Renaming, ops: set<string>)
    requires rule.Rule? && RuleClause(rule, c) && PositiveRule(rule, ops) && Foreign(to, ops)
    ensures RuleClause(rule, RebaseClause(c, to))
  {
    var sub: Subst, h: nat :| Instantiates(rule, c, sub, h);
    var moved, a := RebaseSubst(sub, to), rule.head[h];
    forall k | 0 <= k < |rule.body| ensures RebaseFact(c.premises[k], to) == FactInstance(rule.body[k], moved) {
      FactInstanceRebased(rule.body[k], sub, to, ops);
    }
    assert RebaseFacts(c.premises, to) == BodyInstance(rule.body, moved);
    ActionInstanceRebased(a, sub, to, ops);
    AddedRebased(ActionInstance(a, sub), to);
    assert Instantiates(rule, RebaseClause(c, to), moved, h);
  }

  /** Positive rules respect every rewriting of terms they do not mention. */
  lemma LawsRespect(kernel: iset<Clause>, environment: seq<Command>, to: Renaming, ops: set<string>)
    requires Respects(kernel, to) && PositiveRules(environment, ops) && Foreign(to, ops)
    ensures Respects(Laws(kernel, environment), to)
  {
    forall c | FromRules(environment, c) ensures FromRules(environment, RebaseClause(c, to)) {
      var k :| 0 <= k < |environment| && environment[k].Rule? && RuleClause(environment[k], c);
      RuleClauseRebased(environment[k], c, to, ops);
    }
  }

  lemma AddsRebased(cmds: seq<Command>, to: Renaming, ops: set<string>)
    requires AllRebasable(cmds) && PositiveCommands(cmds, ops)
    ensures Adds(RebaseAll(cmds, to)) == Image(Adds(cmds), to)
  {
    var moved := RebaseAll(cmds, to);
    forall k | 0 <= k < |cmds| && cmds[k].Act? ensures Added(moved[k].action) == Image(Added(cmds[k].action), to) {
      AddedRebased(cmds[k].action, to);
    }
    forall f | f in Adds(moved) ensures f in Image(Adds(cmds), to) {
      var k :| 0 <= k < |moved| && moved[k].Act? && f in Added(moved[k].action);
      assert cmds[k].Act? && f in Image(Added(cmds[k].action), to);
    }
    forall f | f in Adds(cmds) ensures RebaseFact(f, to) in Adds(moved) {
      var k :| 0 <= k < |cmds| && cmds[k].Act? && f in Added(cmds[k].action);
      assert moved[k].Act? && RebaseFact(f, to) in Added(moved[k].action);
    }
  }

  /** What the parent, saturated in its own terms, leaves in the child's terms. */
  ghost function Moved(laws: iset<Clause>, child: Prepared, p: Prepared): Facts
    requires Comparable(child, p)
  {
    Image(Closure(laws, Adds(p.commands)), Ported(child, p.ports))
  }

  /** Saturating a parent in its own terms and rewriting the facts, or rewriting first: both saturate to the same facts. */
  lemma SaturateThenRebase(kernel: iset<Clause>, child: Prepared, p: Prepared, rest: Facts, ops: set<string>)
    requires Comparable(child, p) && Respects(kernel, Ported(child, p.ports)) && Foreign(Ported(child, p.ports), ops)
    requires PositiveRules(child.environment, ops) && PositiveCommands(p.commands, ops + p.opaqueOps)
    ensures Closure(Laws(kernel, child.environment), Moved(Laws(kernel, child.environment), child, p) + rest)
         == Closure(Laws(kernel, child.environment), Adds(Rebased(child, p)) + rest)
  {
    var all, to, base := Laws(kernel, child.environment), Ported(child, p.ports), Adds(p.commands);
    LawsRespect(kernel, child.environment, to, ops);
    ClosureRebased(all, base, to);
    AddsRebased(p.commands, to, ops + p.opaqueOps);
    ClosureMonotone(all, all, Image(base, to) + rest, Moved(all, child, p) + rest);
    ClosureMonotone(all, all, Moved(all, child, p) + rest, Closure(all, Image(base, to)) + rest);
    SaturateEarly(all, all, Image(base, to), rest);
  }

  // ---------- what rebasing means ----------

  /** Each port term goes to the child's term of the port's token; of two ports with one term the later counts. */
  ghost predicate Sends(child: Prepared, ports: seq<Port>, to: Renaming)
    requires Bound(child, ports)
  {
    && (forall e :: e in to <==> PortTerm(ports, e))
    && forall k: nat :: IsLast(ports, k) ==> ports[k].term in to && to[ports[k].term] == child.values[ports[k].token].term
  }

  /** No later port has the same term. */
  ghost predicate IsLast(ports: seq<Port>, k: nat) {
    k < |ports| && forall j :: k < j < |ports| ==> ports[j].term != ports[k].term
  }

  ghost predicate PortTerm(ports: seq<Port>, e: Expr) {
    exists k :: 0 <= k < |ports| && ports[k].term == e
  }

  lemma {:induction false} PortedSends(child: Prepared, ports: seq<Port>)
    requires Bound(child, ports)
    ensures Sends(child, ports, Ported(child, ports))
  {
    if ports != [] {
      var n := |ports| - 1;
      PortedSends(child, ports[..n]);
      SendsNext(child, ports, Ported(child, ports[..n]));
    }
  }

  lemma SendsNext(child: Prepared, ports: seq<Port>, to: Renaming)
    requires Bound(child, ports) && ports != [] && Sends(child, ports[..|ports| - 1], to)
    ensures var last := ports[|ports| - 1]; Sends(child, ports, to[last.term := child.values[last.token].term])
  {
    var n := |ports| - 1;
    var now := to[ports[n].term := child.values[ports[n].token].term];
    forall e ensures e in now <==> PortTerm(ports, e) { PortTermNext(ports, e); }
    forall k: nat | IsLast(ports, k) ensures ports[k].term in now && now[ports[k].term] == child.values[ports[k].token].term {
      if k < n { LastInFront(ports, k); }
    }
  }

  lemma LastInFront(ports: seq<Port>, k: nat)
    requires IsLast(ports, k) && k < |ports| - 1
    ensures IsLast(ports[..|ports| - 1], k) && ports[|ports| - 1].term != ports[k].term && ports[..|ports| - 1][k] == ports[k]
  {
    var front := ports[..|ports| - 1];
    assert forall j :: k < j < |front| ==> front[j] == ports[j];
  }

  lemma PortTermNext(ports: seq<Port>, e: Expr)
    requires ports != []
    ensures PortTerm(ports, e) <==> PortTerm(ports[..|ports| - 1], e) || ports[|ports| - 1].term == e
  {
    var n := |ports| - 1;
    if k :| 0 <= k < |ports| && ports[k].term == e && k < n { assert ports[..n][k].term == e; }
    if k :| 0 <= k < n && ports[..n][k].term == e { assert ports[k].term == e; }
  }

  lemma SendsUnique(child: Prepared, ports: seq<Port>, a: Renaming, b: Renaming)
    requires Bound(child, ports) && Sends(child, ports, a) && Sends(child, ports, b)
    ensures a == b
  {
    forall e | e in a ensures a[e] == b[e] {
      assert PortTerm(ports, e);
      var k := LastPort(ports, e);
    }
  }

  lemma {:induction false} LastPort(ports: seq<Port>, e: Expr) returns (k: nat)
    requires PortTerm(ports, e)
    ensures IsLast(ports, k) && ports[k].term == e
  {
    var n := |ports| - 1;
    if ports[n].term == e { return n; }
    var i :| 0 <= i < |ports| && ports[i].term == e;
    assert ports[..n][i].term == e;
    k := LastPort(ports[..n], e);
    forall j | k < j < |ports| ensures ports[j].term != e { if j < n { assert ports[..n][j] == ports[j]; } }
  }

  ghost predicate Subterm(x: Expr, e: Expr) {
    x == e || (e.Call? && exists k :: 0 <= k < |e.args| && Subterm(x, e.args[k]))
  }

  /** All outermost occurrences of the terms are exchanged at once. */
  function Exchange(e: Expr, to: Renaming): Expr {
    if e in to then to[e]
    else match e
      case Call(op, args) => Call(op, seq(|args|, k requires 0 <= k < |args| => Exchange(args[k], to)))
      case _ => e
  }

  /** The terms are calls, and inside none of them lies one of the terms or one of their images. */
  ghost predicate Apart(to: Renaming) {
    forall t :: t in to ==> t.Call? && forall k :: 0 <= k < |t.args| ==> Untouched(t.args[k], to)
  }

  ghost predicate Untouched(e: Expr, to: Renaming) {
    forall x :: Subterm(x, e) ==> x !in to && x !in to.Values
  }

  lemma {:induction false} ExchangeNothing(e: Expr, to: Renaming)
    requires forall x :: Subterm(x, e) ==> x !in to
    ensures Exchange(e, to) == e
  {
    assert Subterm(e, e);
    if e.Call? {
      forall k | 0 <= k < |e.args| ensures Exchange(e.args[k], to) == e.args[k] {
        forall x | Subterm(x, e.args[k]) ensures x !in to { assert Subterm(x, e); }
        ExchangeNothing(e.args[k], to);
      }
    }
  }

  /** An exchange leaves an image behind. */
  lemma {:induction false} ExchangeMarks(e: Expr, to: Renaming, x: Expr) returns (y: Expr)
    requires Subterm(x, e) && x in to
    ensures Subterm(y, Exchange(e, to)) && y in to.Values
  {
    if e in to {
      y := to[e];
    } else {
      var k :| 0 <= k < |e.args| && Subterm(x, e.args[k]);
      y := ExchangeMarks(e.args[k], to, x);
      assert Exchange(e, to).args[k] == Exchange(e.args[k], to);
    }
  }

  /** Rewriting the arguments of a call neither makes nor unmakes a term that is to be exchanged. */
  lemma SameTerm(op: string, args: seq<Expr>, to: Renaming)
    requires Apart(to)
    ensures var moved := seq(|args|, k requires 0 <= k < |args| => Exchange(args[k], to));
            (Call(op, moved) in to <==> Call(op, args) in to) && (Call(op, args) in to ==> moved == args)
  {
    var moved := seq(|args|, k requires 0 <= k < |args| => Exchange(args[k], to));
    if Call(op, args) in to {
      forall k | 0 <= k < |args| ensures moved[k] == args[k] {
        assert Untouched(Call(op, args).args[k], to);
        ExchangeNothing(args[k], to);
      }
      assert moved == args;
    }
    if Call(op, moved) in to {
      forall k | 0 <= k < |args| ensures moved[k] == args[k] {
        assert Untouched(Call(op, moved).args[k], to);
        forall x | Subterm(x, args[k]) ensures x !in to {
          if x in to { var y := ExchangeMarks(args[k], to, x); }
        }
        ExchangeNothing(args[k], to);
      }
      assert moved == args;
    }
  }

  /** Rewriting from the inside out exchanges all outermost occurrences at once, if the terms are apart. */
  lemma {:induction false} RebaseExchanges(e: Expr, to: Renaming)
    requires Apart(to)
    ensures Rebase(e, to) == Exchange(e, to)
  {
    match e {
      case Call(op, args) =>
        var moved := seq(|args|, k requires 0 <= k < |args| => Exchange(args[k], to));
        forall k | 0 <= k < |args| ensures Rebase(args[k], to) == moved[k] { RebaseExchanges(args[k], to); }
        assert seq(|args|, k requires 0 <= k < |args| => Rebase(args[k], to)) == moved;
        SameTerm(op, args, to);
      case _ =>
    }
  }

  /** Nested terms are not exchanged at once: the inner one goes first and the outer one is no longer found. */
  lemma NestedTermsMissed()
    ensures exists to: Renaming, e :: Rebase(e, to) != Exchange(e, to)
  {
    var inner, outer := Call("Input", [Lit(7)]), Call("Pair", [Call("Input", [Lit(7)])]);
    var to: Renaming := map[inner := Lit(1), outer := Lit(2)];
    assert Rebase(Lit(7), to) == Lit(7);
    assert seq(1, k requires 0 <= k < 1 => Rebase(inner.args[k], to)) == [Lit(7)];
    assert Rebase(inner, to) == Lit(1);
    assert seq(1, k requires 0 <= k < 1 => Rebase(outer.args[k], to)) == [Lit(1)];
    assert Rebase(outer, to) == Call("Pair", [Lit(1)]) && Exchange(outer, to) == Lit(2);
  }

  function ExchangeFact(f: Fact, to: Renaming): Fact {
    match f
    case Eq(l, r) => Eq(Exchange(l, to), Exchange(r, to))
    case Holds(e) => Holds(Exchange(e, to))
  }

  /** A command with the terms exchanged throughout. */
  function Exchanged(c: Command, to: Renaming): Command {
    match c
    case Act(Insert(e)) => Act(Insert(Exchange(e, to)))
    case Act(Let(x, e)) => Act(Let(x, Exchange(e, to)))
    case Act(Union(l, r)) => Act(Union(Exchange(l, to), Exchange(r, to)))
    case Check(fs) => Check(seq(|fs|, k requires 0 <= k < |fs| => ExchangeFact(fs[k], to)))
    case Fail(inner) => Fail(Exchanged(inner, to))
    case _ => c
  }

  lemma {:induction false} CommandExchanged(c: Command, to: Renaming)
    requires Apart(to) && Rebasable(c)
    ensures RebaseCommand(c, to) == Exchanged(c, to)
  {
    match c {
      case Act(Insert(e)) => RebaseExchanges(e, to);
      case Act(Let(_, e)) => RebaseExchanges(e, to);
      case Act(Union(l, r)) =>
        RebaseExchanges(l, to);
        RebaseExchanges(r, to);
      case Act(OtherAction) =>
      case Check(fs) =>
        var moved := Exchanged(c, to).facts;
        forall k | 0 <= k < |fs| ensures RebaseFact(fs[k], to) == moved[k] { FactExchanged(fs[k], to); }
      case Fail(inner) => CommandExchanged(inner, to);
    }
  }

  lemma FactExchanged(f: Fact, to: Renaming)
    requires Apart(to)
    ensures RebaseFact(f, to) == ExchangeFact(f, to)
  {
    match f {
      case Eq(l, r) =>
        RebaseExchanges(l, to);
        RebaseExchanges(r, to);
      case Holds(e) => RebaseExchanges(e, to);
    }
  }

  /** A call of an opaque operator is unmapped exactly if it occurs and is no port term. */
  lemma {:induction false} UnmappedMeans(e: Expr, to: Renaming, opaqueOps: set<string>)
    requires Apart(to)
    ensures Unmapped(e, to, opaqueOps) <==> exists x :: Subterm(x, e) && Stray(x, to, opaqueOps)
  {
    if e.Call? {
      var moved := seq(|e.args|, k requires 0 <= k < |e.args| => Exchange(e.args[k], to));
      forall k | 0 <= k < |e.args|
        ensures Rebase(e.args[k], to) == moved[k]
        ensures Unmapped(e.args[k], to, opaqueOps) <==> exists x :: Subterm(x, e.args[k]) && Stray(x, to, opaqueOps)
      {
        RebaseExchanges(e.args[k], to);
        UnmappedMeans(e.args[k], to, opaqueOps);
      }
      assert seq(|e.args|, k requires 0 <= k < |e.args| => Rebase(e.args[k], to)) == moved;
      SameTerm(e.op, e.args, to);
      assert Call(e.op, e.args) == e;
      if Unmapped(e, to, opaqueOps) {
        if k :| 0 <= k < |e.args| && Unmapped(e.args[k], to, opaqueOps) {
          var x :| Subterm(x, e.args[k]) && Stray(x, to, opaqueOps);
          assert Subterm(x, e);
        } else {
          assert Subterm(e, e) && Stray(e, to, opaqueOps);
        }
      }
      if x :| Subterm(x, e) && Stray(x, to, opaqueOps) {
        if x != e {
          var k :| 0 <= k < |e.args| && Subterm(x, e.args[k]);
          assert Unmapped(e.args[k], to, opaqueOps);
        }
      }
    }
  }

  ghost predicate Stray(x: Expr, to: Renaming, opaqueOps: set<string>) {
    x.Call? && x.op in opaqueOps && x !in to
  }

  ghost predicate InFact(x: Expr, f: Fact) {
    match f
    case Eq(l, r) => Subterm(x, l) || Subterm(x, r)
    case Holds(e) => Subterm(x, e)
  }

  /** The term occurs somewhere in the command. */
  ghost predicate InCommand(x: Expr, c: Command) {
    match c
    case Act(Insert(e)) => Subterm(x, e)
    case Act(Let(_, e)) => Subterm(x, e)
    case Act(Union(l, r)) => Subterm(x, l) || Subterm(x, r)
    case Check(fs) => exists k :: 0 <= k < |fs| && InFact(x, fs[k])
    case Fail(inner) => InCommand(x, inner)
    case _ => false
  }

  lemma {:induction false} TermsMeans(c: Command, x: Expr)
    ensures InCommand(x, c) <==> InSome(x, Terms(c))
  {
    match c {
      case Act(a) => ActionTermsMean(a, x);
      case Check(fs) =>
        if k :| 0 <= k < |fs| && InFact(x, fs[k]) {
          var e := FactTermWith(fs[k], x);
          assert fs[k] in fs && e in Terms(c);
          FoundIn(x, Terms(c), e);
        }
        if InSome(x, Terms(c)) {
          var e :| e in Terms(c) && Subterm(x, e);
          var f :| f in fs && e in FactTerms(f);
          var k :| 0 <= k < |fs| && fs[k] == f;
          assert InFact(x, fs[k]);
        }
      case Fail(inner) => TermsMeans(inner, x);
      case _ =>
    }
  }

  lemma ActionTermsMean(a: Action, x: Expr)
    ensures InCommand(x, Act(a)) <==> InSome(x, Terms(Act(a)))
  {
    match a {
      case Insert(e) => assert Terms(Act(a)) == {e};
      case Let(_, e) => assert Terms(Act(a)) == {e};
      case Union(l, r) => assert Terms(Act(a)) == {l, r};
      case OtherAction =>
    }
    forall e | e in Terms(Act(a)) && Subterm(x, e) ensures InSome(x, Terms(Act(a))) { FoundIn(x, Terms(Act(a)), e); }
  }

  ghost predicate InSome(x: Expr, terms: set<Expr>) {
    exists e :: e in terms && Subterm(x, e)
  }

  lemma FoundIn(x: Expr, terms: set<Expr>, e: Expr)
    requires e in terms && Subterm(x, e)
    ensures InSome(x, terms)
  {
  }

  lemma FactTermWith(f: Fact, x: Expr) returns (e: Expr)
    requires InFact(x, f)
    ensures e in FactTerms(f) && Subterm(x, e)
  {
    match f {
      case Eq(l, r) => e := if Subterm(x, l) then l else r;
      case Holds(t) => e := t;
    }
  }

  /** No command holds a call of an opaque operator that is no port term. */
  ghost predicate NoStray(cmds: seq<Command>, to: Renaming, opaqueOps: set<string>) {
    forall k, x :: 0 <= k < |cmds| && InCommand(x, cmds[k]) ==> !Stray(x, to, opaqueOps)
  }

  lemma AllMappedMeans(cmds: seq<Command>, to: Renaming, opaqueOps: set<string>)
    requires Apart(to)
    ensures AllMapped(cmds, to, opaqueOps) <==> NoStray(cmds, to, opaqueOps)
  {
    if AllMapped(cmds, to, opaqueOps) {
      forall k, x | 0 <= k < |cmds| && InCommand(x, cmds[k]) ensures !Stray(x, to, opaqueOps) {
        TermsMeans(cmds[k], x);
        var e :| e in Terms(cmds[k]) && Subterm(x, e);
        assert MappedTerms(Terms(cmds[k]), to, opaqueOps);
        UnmappedMeans(e, to, opaqueOps);
      }
    }
    if NoStray(cmds, to, opaqueOps) {
      forall k | 0 <= k < |cmds| ensures MappedTerms(Terms(cmds[k]), to, opaqueOps) {
        forall e | e in Terms(cmds[k]) ensures !Unmapped(e, to, opaqueOps) {
          UnmappedMeans(e, to, opaqueOps);
          forall x | Subterm(x, e) ensures !Stray(x, to, opaqueOps) {
            TermsMeans(cmds[k], x);
            FoundIn(x, Terms(cmds[k]), e);
            assert InCommand(x, cmds[k]);
          }
        }
      }
    }
  }

  /** Actions, checks, and commands that must fail made of them. */
  ghost predicate Replayed(cmds: seq<Command>) {
    forall k :: 0 <= k < |cmds| ==> Rebasable(cmds[k])
  }

  /** The exchanged commands stand among the child's, in order. */
  ghost predicate InOrder(cmds: seq<Command>, to: Renaming, text: seq<Command>) {
    exists at: seq<nat> :: InOrderAt(cmds, to, text, at)
  }

  ghost predicate InOrderAt(cmds: seq<Command>, to: Renaming, text: seq<Command>, at: seq<nat>) {
    && |at| == |cmds| && (forall k :: 0 <= k < |at| ==> at[k] < |text| && text[at[k]] == Exchanged(cmds[k], to))
    && forall j, k :: 0 <= j < k < |at| ==> at[j] < at[k]
  }

  /**
   * A child extends a parent exactly if it has the same environment and more members, every port of the parent
   * is a value of the child with the same sort, no opaque call is left over, and with every port term exchanged for
   * the child's term of its token the parent's commands stand among the child's in order and its checks among the child's.
   */
  lemma FitsMeans(child: Prepared, p: Prepared, to: Renaming)
    requires (Bound(child, p.ports) ==> Sends(child, p.ports, to)) && Apart(to)
    ensures Fits(child, p) <==>
              && p.environment == child.environment && p.members <= child.members && p.members != child.members
              && (forall port :: port in p.ports ==> port.token in child.values && child.values[port.token].sort == port.sort)
              && Replayed(p.commands) && Replayed(p.validation) && NoStray(p.commands + p.validation, to, p.opaqueOps)
              && InOrder(p.commands, to, child.commands)
              && forall c :: c in p.validation ==> Exchanged(c, to) in child.commands || Exchanged(c, to) in child.validation
  {
    PortsBound(child, p.ports);
    if Bound(child, p.ports) {
      PortedSends(child, p.ports);
      SendsUnique(child, p.ports, to, Ported(child, p.ports));
      AllMappedMeans(p.commands + p.validation, to, p.opaqueOps);
      if Replayed(p.commands) { OccursMeans(p.commands, to, child.commands); }
      assert to == Ported(child, p.ports) && (Replayed(p.commands) <==> AllRebasable(p.commands));
      assert Replayed(p.validation) <==> AllRebasable(p.validation);
      if Comparable(child, p) {
        ChecksMeans(child, p, to);
        assert Rebased(child, p) == RebaseAll(p.commands, to);
      }
    }
  }

  lemma PortsBound(child: Prepared, ports: seq<Port>)
    ensures Bound(child, ports) <==> forall port :: port in ports ==> port.token in child.values && child.values[port.token].sort == port.sort
  {
    if forall port :: port in ports ==> port.token in child.values && child.values[port.token].sort == port.sort {
      forall k | 0 <= k < |ports| ensures ports[k].token in child.values && child.values[ports[k].token].sort == ports[k].sort {
        assert ports[k] in ports;
      }
    }
  }

  lemma OccursMeans(cmds: seq<Command>, to: Renaming, text: seq<Command>)
    requires Apart(to) && AllRebasable(cmds)
    ensures (exists at: seq<nat> :: Occurs(RebaseAll(cmds, to), text, at)) <==> InOrder(cmds, to, text)
  {
    forall k | 0 <= k < |cmds| ensures RebaseCommand(cmds[k], to) == Exchanged(cmds[k], to) { CommandExchanged(cmds[k], to); }
    forall at: seq<nat> ensures Occurs(RebaseAll(cmds, to), text, at) <==> InOrderAt(cmds, to, text, at) {}
  }

  lemma ChecksMeans(child: Prepared, p: Prepared, to: Renaming)
    requires Comparable(child, p) && to == Ported(child, p.ports) && Apart(to)
    ensures ChecksKept(child, p) <==>
              forall c :: c in p.validation ==> Exchanged(c, to) in child.commands || Exchanged(c, to) in child.validation
  {
    forall k | 0 <= k < |p.validation| ensures RebaseCommand(p.validation[k], to) == Exchanged(p.validation[k], to) {
      CommandExchanged(p.validation[k], to);
    }
    if ChecksKept(child, p) {
      forall c | c in p.validation ensures Exchanged(c, to) in child.commands || Exchanged(c, to) in child.validation {
        var k :| 0 <= k < |p.validation| && p.validation[k] == c;
        assert RebaseCommand(p.validation[k], to) in child.commands + child.validation;
      }
    }
    if forall c :: c in p.validation ==> Exchanged(c, to) in child.commands || Exchanged(c, to) in child.validation {
      forall k | 0 <= k < |p.validation| ensures RebaseCommand(p.validation[k], to) in child.commands + child.validation {
        assert p.validation[k] in p.validation;
      }
    }
  }

  /** The child's commands are the parent's with the port terms exchanged. */
  ghost predicate SameReplay(child: Prepared, p: Prepared, to: Renaming) {
    |child.commands| == |p.commands| && forall k :: 0 <= k < |p.commands| ==> child.commands[k] == Exchanged(p.commands[k], to)
  }

  lemma SameReplayInOrder(child: Prepared, p: Prepared, to: Renaming)
    requires SameReplay(child, p, to)
    ensures InOrder(p.commands, to, child.commands)
  {
    var all: seq<nat> := seq(|p.commands|, k => k);
    assert InOrderAt(p.commands, to, child.commands, all);
  }

  /** Of a child that is its parent with the terms exchanged nothing is left. */
  lemma SameReplayLeavesNothing(child: Prepared, p: Prepared, to: Renaming, removed: set<nat>)
    requires SameReplay(child, p, to) && Removes(child, [p], removed)
    ensures Without(child.commands, removed, |child.commands|) == []
  {
    var n := |child.commands|;
    var ats: seq<seq<nat>> :| RemovedAt(child, [p], ats, removed);
    assert OccursAt(child, [p], ats, 0);
    FullRange(ats[0], n);
    forall i: nat | i < n ensures i in removed { assert ats[0][i] == i && i in ats[0]; }
    NothingLeft(child.commands, removed, n);
  }

  lemma {:induction false} FullRange(at: seq<nat>, n: nat)
    requires |at| == n && (forall k :: 0 <= k < n ==> at[k] < n) && forall j, k :: 0 <= j < k < n ==> at[j] < at[k]
    ensures forall k :: 0 <= k < n ==> at[k] == k
  {
    if n > 0 {
      var front := at[..n - 1];
      forall k | 0 <= k < n - 1 ensures front[k] < n - 1 { assert at[k] < at[n - 1]; }
      FullRange(front, n - 1);
      if n > 1 { assert front[n - 2] == n - 2 && at[n - 2] < at[n - 1]; }
    }
  }

  lemma {:induction false} NothingLeft(text: seq<Command>, removed: set<nat>, n: nat)
    requires n <= |text| && forall i: nat :: i < n ==> i in removed
    ensures Without(text, removed, n) == []
  {
    if n > 0 { NothingLeft(text, removed, n - 1); }
  }
}
