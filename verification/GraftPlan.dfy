/**
 * Exact prefix reuse (`plan` of src/native_ripen_graft.rs): when the replay of a
 * child starts with the stages of its parent, a session of the child may start
 * from the saturated parent and run only the rest.
 *
 * `GraftEndsAlike` says that such a session saturates to the same facts as a cold
 * one, and `GraftPasses` that every check that passed cold still passes, for replays
 * as `Write` makes them. `GraftPassesIff` gives the exact condition for any replays
 * that `Plan` accepts, and `EarlyCheckFails` one that misses it.
 */
module GraftPlan {
  import opened Wrappers
  import opened ReplayClosure

  datatype Stage = Stage(record: nat, start: nat, end: nat)
  datatype Parameter = Parameter(token: nat, sort: string)
  datatype Origin = Origin(environmentEnd: nat, parameterEnd: nat, stages: seq<Stage>, parameters: seq<Parameter>)
  datatype Graft = Graft(delta: seq<Command>, skippedStages: nat, skippedCommands: nat)

  // ---------- what is compared ----------

  function Names(c: Command): set<string> {
    match c
    case Datatype(variants) => set x | x in variants
    case Constructor(x) => {x}
    case Relation(x) => {x}
    case _ => {}
  }

  function Ops(environment: seq<Command>): set<string> {
    set k, x | 0 <= k < |environment| && x in Names(environment[k]) :: x
  }

  predicate PositiveDeclaration(c: Command, ops: set<string>) {
    match c
    case Sort(presort) => !presort
    case Rule(body, head) => PositiveFacts(body, ops) && forall k :: 0 <= k < |head| ==> PositiveAction(head[k], ops)
    case Datatype(_) => true
    case Constructor(_) => true
    case Relation(_) => true
    case Ruleset => true
    case _ => false
  }

  predicate AllPositive(cmds: seq<Command>, ops: set<string>) {
    forall k :: 0 <= k < |cmds| ==> Positive(cmds[k], ops)
  }

  predicate AllChecks(cmds: seq<Command>) {
    forall k :: 0 <= k < |cmds| ==> cmds[k].Check?
  }

  predicate PositiveEnvironment(environment: seq<Command>) {
    forall k :: 0 <= k < |environment| ==> PositiveDeclaration(environment[k], Ops(environment))
  }

  /** Where the first stages end. */
  function EndOf(stages: seq<Stage>, from: nat, n: nat): nat
    requires n <= |stages|
  {
    if n == 0 then from else stages[n - 1].end
  }

  /** Each of the first stages starts where the one before ends. */
  predicate Contiguous(stages: seq<Stage>, from: nat, limit: nat, n: nat) {
    n <= |stages| && forall k: nat {:trigger Follows(stages, from, limit, k)} :: k < n ==> Follows(stages, from, limit, k)
  }

  predicate Follows(stages: seq<Stage>, from: nat, limit: nat, k: nat)
    requires k < |stages|
  {
    stages[k].start == EndOf(stages, from, k) && stages[k].start <= stages[k].end <= limit
  }

  predicate SameStage(parent: seq<Command>, a: Stage, child: seq<Command>, b: Stage) {
    && a.record == b.record && a.start <= a.end <= |parent| && b.start <= b.end <= |child|
    && parent[a.start..a.end] == child[b.start..b.end]
  }

  predicate SameStages(parent: seq<Command>, ps: seq<Stage>, child: seq<Command>, cs: seq<Stage>, n: nat) {
    n <= |ps| && n <= |cs| && forall k: nat {:trigger SameStage(parent, ps[k], child, cs[k])} :: k < n ==> SameStage(parent, ps[k], child, cs[k])
  }

  predicate SameEnvironment(parent: seq<Command>, po: Origin, child: seq<Command>, co: Origin) {
    && po.environmentEnd <= po.parameterEnd <= |parent| && co.environmentEnd <= co.parameterEnd <= |child|
    && parent[..po.environmentEnd] == child[..co.environmentEnd]
  }

  predicate SameTokens(po: Origin, co: Origin) {
    |po.parameters| <= |co.parameters| && po.parameters == co.parameters[..|po.parameters|]
  }

  predicate SameTerms(parent: seq<Command>, po: Origin, child: seq<Command>, co: Origin)
    requires SameEnvironment(parent, po, child, co)
  {
    && po.parameterEnd - po.environmentEnd <= co.parameterEnd - co.environmentEnd
    && parent[po.environmentEnd..po.parameterEnd] == child[co.environmentEnd..co.environmentEnd + po.parameterEnd - po.environmentEnd]
  }

  predicate PositiveReplays(parent: seq<Command>, po: Origin, child: seq<Command>, co: Origin)
    requires SameEnvironment(parent, po, child, co)
  {
    var environment := child[..co.environmentEnd];
    && PositiveEnvironment(environment)
    && AllPositive(parent[po.environmentEnd..], Ops(environment)) && AllPositive(child[co.environmentEnd..], Ops(environment))
  }

  /** The child's stages start with the parent's, and only checks follow the stages of either. */
  predicate Staged(parent: seq<Command>, ps: seq<Stage>, pp: nat, child: seq<Command>, cs: seq<Stage>, cp: nat) {
    && Contiguous(ps, pp, |parent|, |ps|) && Contiguous(cs, cp, |child|, |cs|) && SameStages(parent, ps, child, cs, |ps|)
    && EndOf(ps, pp, |ps|) <= |parent| && AllChecks(parent[EndOf(ps, pp, |ps|)..])
    && EndOf(cs, cp, |cs|) <= |child| && AllChecks(child[EndOf(cs, cp, |cs|)..])
  }

  /** The child is the parent's environment, parameters and stages with more parameters and stages, then only checks. */
  predicate Accepts(parent: seq<Command>, po: Origin, child: seq<Command>, co: Origin) {
    && SameEnvironment(parent, po, child, co) && PositiveReplays(parent, po, child, co)
    && 0 < |po.stages| < |co.stages| && SameTokens(po, co) && SameTerms(parent, po, child, co)
    && Staged(parent, po.stages, po.parameterEnd, child, co.stages, co.parameterEnd)
  }

  // ---------- the parts of both replays ----------

  datatype Parts = Parts(params: seq<Command>, extra: seq<Command>, prefix: seq<Command>, suffix: seq<Command>,
                         parentChecks: seq<Command>, childChecks: seq<Command>)

  function PartsOf(parent: seq<Command>, po: Origin, child: seq<Command>, co: Origin): (r: Parts)
    requires Accepts(parent, po, child, co)
  {
    Bounds(co.stages, co.parameterEnd, |child|, |po.stages|, |co.stages|);
    Bounds(po.stages, po.parameterEnd, |parent|, 0, |po.stages|);
    var shared := co.environmentEnd + po.parameterEnd - po.environmentEnd;
    var middle, end := EndOf(co.stages, co.parameterEnd, |po.stages|), EndOf(co.stages, co.parameterEnd, |co.stages|);
    Parts(child[co.environmentEnd..shared], child[shared..co.parameterEnd], child[co.parameterEnd..middle], child[middle..end],
          parent[EndOf(po.stages, po.parameterEnd, |po.stages|)..], child[end..])
  }

  /** Stages lie one after the other. */
  lemma {:induction false} Bounds(stages: seq<Stage>, from: nat, limit: nat, n: nat, m: nat)
    requires Contiguous(stages, from, limit, m) && n <= m && from <= limit
    ensures from <= EndOf(stages, from, n) <= EndOf(stages, from, m) <= limit
    decreases m
  {
    if m > 0 {
      Bounds(stages, from, limit, if n < m then n else m - 1, m - 1);
      assert Follows(stages, from, limit, m - 1);
    }
  }

  lemma Joined(s: seq<Command>, i: nat, j: nat, k: nat)
    requires i <= j <= k <= |s|
    ensures s[i..k] == s[i..j] + s[j..k]
  {
  }

  /** Equal stages have equal contents. */
  lemma {:induction false} SameContents(parent: seq<Command>, ps: seq<Stage>, p0: nat, child: seq<Command>, cs: seq<Stage>, c0: nat, n: nat)
    requires p0 <= |parent| && c0 <= |child| && Contiguous(ps, p0, |parent|, |ps|) && Contiguous(cs, c0, |child|, |cs|)
    requires SameStages(parent, ps, child, cs, n)
    ensures p0 <= EndOf(ps, p0, n) <= |parent| && c0 <= EndOf(cs, c0, n) <= |child|
    ensures parent[p0..EndOf(ps, p0, n)] == child[c0..EndOf(cs, c0, n)]
    decreases n
  {
    Bounds(ps, p0, |parent|, 0, n);
    Bounds(cs, c0, |child|, 0, n);
    if n > 0 {
      var m := n - 1;
      SameContents(parent, ps, p0, child, cs, c0, m);
      var a, b := ps[m], cs[m];
      assert SameStage(parent, a, child, b) && Follows(ps, p0, |parent|, m) && Follows(cs, c0, |child|, m);
      SameStep(parent, p0, a, child, c0, b);
    }
  }

  lemma SameStep(parent: seq<Command>, p0: nat, a: Stage, child: seq<Command>, c0: nat, b: Stage)
    requires SameStage(parent, a, child, b) && p0 <= a.start && c0 <= b.start && parent[p0..a.start] == child[c0..b.start]
    ensures parent[p0..a.end] == child[c0..b.end]
  {
    Joined(parent, p0, a.start, a.end);
    Joined(child, c0, b.start, b.end);
  }

  /** The parent's replay is made of its parts. */
  lemma ParentMade(parent: seq<Command>, po: Origin, child: seq<Command>, co: Origin)
    requires Accepts(parent, po, child, co)
    ensures var r := PartsOf(parent, po, child, co); parent == child[..co.environmentEnd] + r.params + r.prefix + r.parentChecks
  {
    SameContents(parent, po.stages, po.parameterEnd, child, co.stages, co.parameterEnd, |po.stages|);
    ReplayCuts(parent, po.environmentEnd, po.parameterEnd, EndOf(po.stages, po.parameterEnd, |po.stages|));
  }

  /** So is the child's. */
  lemma ChildMade(parent: seq<Command>, po: Origin, child: seq<Command>, co: Origin)
    requires Accepts(parent, po, child, co)
    ensures var r := PartsOf(parent, po, child, co);
            child == child[..co.environmentEnd] + r.params + r.extra + r.prefix + r.suffix + r.childChecks
  {
    Bounds(co.stages, co.parameterEnd, |child|, |po.stages|, |co.stages|);
    MoreCuts(child, co.environmentEnd, co.environmentEnd + po.parameterEnd - po.environmentEnd, co.parameterEnd,
             EndOf(co.stages, co.parameterEnd, |po.stages|), EndOf(co.stages, co.parameterEnd, |co.stages|), PartsOf(parent, po, child, co));
  }

  lemma ReplayCuts(s: seq<Command>, i: nat, j: nat, k: nat)
    requires i <= j <= k <= |s|
    ensures s == s[..i] + s[i..j] + s[j..k] + s[k..]
  {
  }

  lemma MoreCuts(s: seq<Command>, i: nat, j: nat, k: nat, l: nat, m: nat, r: Parts)
    requires i <= j <= k <= l <= m <= |s|
    requires r.params == s[i..j] && r.extra == s[j..k] && r.prefix == s[k..l] && r.suffix == s[l..m] && r.childChecks == s[m..]
    ensures s == s[..i] + r.params + r.extra + r.prefix + r.suffix + r.childChecks
  {
    ReplayCuts(s, i, j, k);
    Joined(s, k, l, m);
    Joined(s, k, m, |s|);
    assert s[k..] == s[k..|s|] && s[m..] == s[m..|s|];
  }

  // ---------- sessions ----------

  /** A cold session runs actions and failing checks in order and keeps plain checks for the end. */
  function Immediate(cmds: seq<Command>): seq<Command> {
    if cmds == [] then []
    else
      var front := Immediate(cmds[..|cmds| - 1]);
      if cmds[|cmds| - 1].Check? then front else front + [cmds[|cmds| - 1]]
  }

  ghost function ColdRun(kernel: iset<Clause>, replay: seq<Command>): Ran {
    Run(kernel, Closure(kernel, iset{}), Immediate(replay))
  }

  /** Plain checks are made on the saturated facts. */
  ghost predicate PassesAtEnd(state: Facts, replay: seq<Command>) {
    forall k :: 0 <= k < |replay| && replay[k].Check? ==> Passes(state, replay[k])
  }

  lemma {:induction false} ImmediateConcat(a: seq<Command>, b: seq<Command>)
    ensures Immediate(a + b) == Immediate(a) + Immediate(b)
    decreases |b|
  {
    if b == [] {
      assert a + b == a;
    } else {
      var n := |b| - 1;
      assert (a + b)[..|a + b| - 1] == a + b[..n] && (a + b)[|a + b| - 1] == b[n];
      ImmediateConcat(a, b[..n]);
    }
  }

  lemma {:induction false} ImmediateAdds(cmds: seq<Command>, ops: set<string>)
    ensures Adds(Immediate(cmds)) == Adds(cmds)
    ensures AllPositive(cmds, ops) ==> AllPositive(Immediate(cmds), ops)
    ensures AllChecks(cmds) ==> Immediate(cmds) == []
    ensures (forall k :: 0 <= k < |cmds| ==> !cmds[k].Check?) ==> Immediate(cmds) == cmds
    decreases |cmds|
  {
    if cmds != [] {
      var n := |cmds| - 1;
      ImmediateAdds(cmds[..n], ops);
      assert cmds == cmds[..n] + [cmds[n]];
      AddsConcat(cmds[..n], [cmds[n]]);
      AddsConcat(Immediate(cmds[..n]), [cmds[n]]);
      AddsOne(cmds[n]);
    }
  }

  lemma KernelStart(kernel: iset<Clause>)
    ensures Closed(kernel, Closure(kernel, iset{}))
  {
    ClosureIdempotent(kernel, iset{});
  }

  /** A cold session saturates to the closure of all its replay adds. */
  lemma ColdEnds(kernel: iset<Clause>, all: iset<Clause>, replay: seq<Command>)
    requires kernel <= all
    ensures Closure(all, ColdRun(kernel, replay).state) == Closure(all, Adds(replay))
  {
    var start, added := Closure(kernel, iset{}), Adds(replay);
    KernelStart(kernel);
    RunState(kernel, start, Immediate(replay));
    ImmediateAdds(replay, {});
    SaturateEarly(kernel, all, start + added, iset{});
    SaturateEarly(kernel, all, iset{}, added);
    assert start + added + iset{} == start + added && iset{} + added == added;
    assert Closure(kernel, start + added) + iset{} == Closure(kernel, start + added);
  }

  function Delta(parent: seq<Command>, po: Origin, child: seq<Command>, co: Origin): seq<Command>
    requires Accepts(parent, po, child, co)
  {
    PartsOf(parent, po, child, co).extra + PartsOf(parent, po, child, co).suffix
  }

  ghost function Saturated(kernel: iset<Clause>, program: seq<Command>, environmentEnd: nat): Facts
    requires environmentEnd <= |program|
  {
    Closure(Laws(kernel, program[..environmentEnd]), ColdRun(kernel, program[environmentEnd..]).state)
  }

  ghost function GraftRun(kernel: iset<Clause>, parent: seq<Command>, po: Origin, child: seq<Command>, co: Origin): Ran
    requires Accepts(parent, po, child, co)
  {
    Run(kernel, Saturated(kernel, parent, po.environmentEnd), Delta(parent, po, child, co))
  }

  function ParentReplay(r: Parts): seq<Command> {
    r.params + r.prefix + r.parentChecks
  }

  function ChildReplay(r: Parts): seq<Command> {
    r.params + r.extra + r.prefix + r.suffix + r.childChecks
  }

  /** What both replays add. */
  lemma AddedParts(r: Parts)
    requires AllChecks(r.parentChecks) && AllChecks(r.childChecks)
    ensures Adds(ParentReplay(r)) == Adds(r.params) + Adds(r.prefix)
    ensures Adds(ChildReplay(r)) == Adds(r.params) + Adds(r.prefix) + (Adds(r.extra) + Adds(r.suffix))
  {
    AddsConcat(r.params + r.prefix, r.parentChecks);
    AddsConcat(r.params, r.prefix);
    AddsConcat(r.params + r.extra + r.prefix + r.suffix, r.childChecks);
    AddsConcat(r.params + r.extra + r.prefix, r.suffix);
    AddsConcat(r.params + r.extra, r.prefix);
    AddsConcat(r.params, r.extra);
  }

  lemma AfterEnvironment(environment: seq<Command>, a: seq<Command>, b: seq<Command>, c: seq<Command>, d: seq<Command>, e: seq<Command>)
    ensures (environment + a + b + c + d + e)[|environment|..] == a + b + c + d + e
    ensures (environment + a + b + c)[|environment|..] == a + b + c
  {
    assert environment + a + b + c == environment + (a + b + c);
    assert environment + a + b + c + d + e == environment + (a + b + c + d + e);
  }

  lemma ReplayParts(parent: seq<Command>, po: Origin, child: seq<Command>, co: Origin)
    requires Accepts(parent, po, child, co)
    ensures parent[po.environmentEnd..] == ParentReplay(PartsOf(parent, po, child, co))
    ensures child[co.environmentEnd..] == ChildReplay(PartsOf(parent, po, child, co))
  {
    var r := PartsOf(parent, po, child, co);
    ParentMade(parent, po, child, co);
    ChildMade(parent, po, child, co);
    AfterEnvironment(child[..co.environmentEnd], r.params, r.prefix, r.parentChecks, [], []);
    AfterEnvironment(child[..co.environmentEnd], r.params, r.extra, r.prefix, r.suffix, r.childChecks);
  }

  /** Prefix reuse preserves meaning: grafted or cold, the child saturates to the same facts. */
  lemma GraftEndsAlike(kernel: iset<Clause>, parent: seq<Command>, po: Origin, child: seq<Command>, co: Origin)
    requires Accepts(parent, po, child, co)
    ensures Closure(Laws(kernel, child[..co.environmentEnd]), GraftRun(kernel, parent, po, child, co).state)
         == Saturated(kernel, child, co.environmentEnd)
  {
    var all, r := Laws(kernel, child[..co.environmentEnd]), PartsOf(parent, po, child, co);
    var shared, delta := Adds(parent[po.environmentEnd..]), Delta(parent, po, child, co);
    var warm := Saturated(kernel, parent, po.environmentEnd);
    ColdEnds(kernel, all, parent[po.environmentEnd..]);
    ColdEnds(kernel, all, child[co.environmentEnd..]);
    ReplayParts(parent, po, child, co);
    AddedParts(r);
    AddsConcat(r.extra, r.suffix);
    ClosedUnderFewer(kernel, all, shared);
    RunState(kernel, warm, delta);
    SaturateEarly(kernel, all, warm + Adds(delta), iset{});
    SaturateEarly(all, all, shared, Adds(delta));
    assert warm + Adds(delta) + iset{} == warm + Adds(delta);
    assert Closure(kernel, warm + Adds(delta)) + iset{} == Closure(kernel, warm + Adds(delta));
    assert shared + Adds(delta) == Adds(child[co.environmentEnd..]);
  }

  lemma ClosedUnderFewer(kernel: iset<Clause>, all: iset<Clause>, base: Facts)
    requires kernel <= all
    ensures Closed(kernel, Closure(all, base))
  {
    ClosureExtends(kernel, Closure(all, base));
    ClosureMonotone(kernel, all, Closure(all, base), Closure(all, base));
    ClosureIdempotent(all, base);
  }

  // ---------- checks ----------

  predicate NoPlainChecks(cmds: seq<Command>) {
    forall k :: 0 <= k < |cmds| ==> !cmds[k].Check?
  }

  /** A start from `wide` passes the rest if a start from less passed everything. */
  lemma RestPasses(kernel: iset<Clause>, wide: Facts, params: seq<Command>, extra: seq<Command>, prefix: seq<Command>, suffix: seq<Command>,
                   ops: set<string>)
    requires Closed(kernel, wide) && Adds(params) + Adds(prefix) <= wide
    requires AllPositive(extra, ops) && AllPositive(suffix, ops)
    requires Run(kernel, Closure(kernel, iset{}), params + extra + prefix + suffix).ok
    ensures Run(kernel, wide, extra + suffix).ok
  {
    var start := Closure(kernel, iset{});
    KernelStart(kernel);
    RunConcat(kernel, start, params + extra + prefix, suffix);
    RunConcat(kernel, start, params + extra, prefix);
    RunConcat(kernel, start, params, extra);
    RunConcat(kernel, wide, extra, suffix);
    RunState(kernel, start, params);
    RunState(kernel, start, params + extra + prefix);
    RunState(kernel, wide, extra);
    AddsConcat(params + extra, prefix);
    AddsConcat(params, extra);
    ClosureMonotone(kernel, kernel, iset{}, wide);
    ClosureMonotone(kernel, kernel, start + Adds(params), wide);
    ReplayGrows(kernel, Run(kernel, start, params).state, wide, extra, ops);
    ClosureMonotone(kernel, kernel, start + Adds(params + extra + prefix), wide + Adds(extra));
    ReplayGrows(kernel, Run(kernel, start, params + extra + prefix).state, Run(kernel, wide, extra).state, suffix, ops);
  }

  lemma PositiveParts(r: Parts, ops: set<string>)
    requires AllPositive(ChildReplay(r), ops)
    ensures AllPositive(r.extra, ops) && AllPositive(r.suffix, ops)
  {
    var replay := ChildReplay(r);
    forall k | 0 <= k < |r.extra| ensures Positive(r.extra[k], ops) { assert r.extra[k] == replay[|r.params| + k]; }
    forall k | 0 <= k < |r.suffix| ensures Positive(r.suffix[k], ops) {
      assert r.suffix[k] == replay[|r.params| + |r.extra| + |r.prefix| + k];
    }
  }

  /** Started from its saturated parent, the rest passes all checks but the plain ones, which a cold session does not make yet. */
  lemma PartsPass(kernel: iset<Clause>, all: iset<Clause>, r: Parts, ops: set<string>)
    requires kernel <= all && AllPositive(ChildReplay(r), ops) && AllChecks(r.parentChecks) && AllChecks(r.childChecks)
    requires ColdRun(kernel, ChildReplay(r)).ok
    ensures Run(kernel, Closure(all, Adds(ParentReplay(r))), Immediate(r.extra + r.suffix)).ok
  {
    AddedParts(r);
    ClosedUnderFewer(kernel, all, Adds(ParentReplay(r)));
    ClosureExtends(all, Adds(ParentReplay(r)));
    ImmediateParts(r, ops);
    ImmediateConcat(r.extra, r.suffix);
    PositiveParts(r, ops);
    ImmediateAdds(r.params, ops);
    ImmediateAdds(r.extra, ops);
    ImmediateAdds(r.prefix, ops);
    ImmediateAdds(r.suffix, ops);
    RestPasses(kernel, Closure(all, Adds(ParentReplay(r))), Immediate(r.params), Immediate(r.extra), Immediate(r.prefix),
               Immediate(r.suffix), ops);
  }

  /** Every plain check holds where it stands. */
  ghost predicate PlainChecksHold(kernel: iset<Clause>, start: Facts, cmds: seq<Command>) {
    forall k :: 0 <= k < |cmds| && cmds[k].Check? ==> Passes(Run(kernel, start, cmds[..k]).state, cmds[k])
  }

  lemma PlainNext(kernel: iset<Clause>, start: Facts, front: seq<Command>, last: Command)
    ensures PlainChecksHold(kernel, start, front + [last]) <==>
              PlainChecksHold(kernel, start, front) && (last.Check? ==> Passes(Run(kernel, start, front).state, last))
  {
    var cmds, n := front + [last], |front|;
    assert cmds[n] == last && cmds[..n] == front;
    assert forall k :: 0 <= k < n ==> front[..k] == cmds[..k] && front[k] == cmds[k];
    if PlainChecksHold(kernel, start, cmds) {
      forall k | 0 <= k < n && front[k].Check? ensures Passes(Run(kernel, start, front[..k]).state, front[k]) {
        assert cmds[k].Check?;
      }
    }
  }

  /** A run passes if its plain checks hold and the run without them passes. */
  lemma {:induction false} PlainApart(kernel: iset<Clause>, start: Facts, cmds: seq<Command>)
    ensures Run(kernel, start, cmds).state == Run(kernel, start, Immediate(cmds)).state
    ensures Run(kernel, start, cmds).ok <==> Run(kernel, start, Immediate(cmds)).ok && PlainChecksHold(kernel, start, cmds)
    decreases |cmds|
  {
    if cmds != [] {
      var n := |cmds| - 1;
      var front, last := cmds[..n], cmds[n];
      PlainApart(kernel, start, front);
      assert front + [last] == cmds;
      RunConcat(kernel, start, front, [last]);
      RunConcat(kernel, start, Immediate(front), [last]);
      assert [last][1..] == [];
      PlainNext(kernel, start, front, last);
    }
  }

  /** The facts of every plain check follow by the kernel's laws from the parent's facts and what the commands before it add. */
  ghost predicate ReadyChecks(kernel: iset<Clause>, warm: Facts, cmds: seq<Command>) {
    forall k :: 0 <= k < |cmds| && cmds[k].Check? ==> Passes(Closure(kernel, warm + Adds(cmds[..k])), cmds[k])
  }

  /** A graft of a child that starts cold passes exactly if its plain checks are ready. */
  lemma GraftPassesIff(kernel: iset<Clause>, parent: seq<Command>, po: Origin, child: seq<Command>, co: Origin)
    requires Accepts(parent, po, child, co) && ColdRun(kernel, child[co.environmentEnd..]).ok
    ensures GraftRun(kernel, parent, po, child, co).ok <==>
              ReadyChecks(kernel, Saturated(kernel, parent, po.environmentEnd), Delta(parent, po, child, co))
  {
    var all := Laws(kernel, child[..co.environmentEnd]);
    var warm, delta := Saturated(kernel, parent, po.environmentEnd), Delta(parent, po, child, co);
    ReplayParts(parent, po, child, co);
    ColdEnds(kernel, all, parent[po.environmentEnd..]);
    ClosedUnderFewer(kernel, all, Adds(parent[po.environmentEnd..]));
    PartsPass(kernel, all, PartsOf(parent, po, child, co), Ops(child[..co.environmentEnd]));
    PlainApart(kernel, warm, delta);
    forall k | 0 <= k < |delta| ensures Run(kernel, warm, delta[..k]).state == Closure(kernel, warm + Adds(delta[..k])) {
      RunState(kernel, warm, delta[..k]);
    }
  }

  // ---------- replays as they are written ----------

  /** One application of a history: what it needs and does. */
  datatype Recorded = Recorded(record: nat, commands: seq<Command>)

  /** Plain checks become checks that must not fail, made at this exact stage. */
  function Timely(cmds: seq<Command>): (r: seq<Command>)
    ensures |r| == |cmds| && NoPlainChecks(r)
    ensures forall k :: 0 <= k < |cmds| ==> forall state :: Passes(state, r[k]) <==> Passes(state, cmds[k])
  {
    seq(|cmds|, k requires 0 <= k < |cmds| => if cmds[k].Check? then Fail(Fail(cmds[k])) else cmds[k])
  }

  /** Plain checks stand only behind the stages. */
  predicate Written(program: seq<Command>, origin: Origin) {
    && origin.environmentEnd <= origin.parameterEnd <= EndOf(origin.stages, origin.parameterEnd, |origin.stages|) <= |program|
    && Contiguous(origin.stages, origin.parameterEnd, |program|, |origin.stages|)
    && NoPlainChecks(program[origin.environmentEnd..origin.parameterEnd])
    && NoPlainChecks(program[origin.parameterEnd..EndOf(origin.stages, origin.parameterEnd, |origin.stages|)])
  }

  function Inserts(terms: seq<Expr>): (r: seq<Command>)
    ensures |r| == |terms| && forall k :: 0 <= k < |r| ==> r[k] == Act(Insert(terms[k]))
  {
    seq(|terms|, k requires 0 <= k < |terms| => Act(Insert(terms[k])))
  }

  /** Environment, boundary terms, one stage for each application, then the final checks. */
  method Write(environment: seq<Command>, terms: seq<Expr>, parameters: seq<Parameter>, history: seq<Recorded>, finals: seq<Command>)
    returns (program: seq<Command>, origin: Origin)
    ensures Written(program, origin) && program[..origin.environmentEnd] == environment && |origin.stages| == |history|
    ensures origin.parameters == parameters && program[origin.environmentEnd..origin.parameterEnd] == Inserts(terms)
    ensures program[EndOf(origin.stages, origin.parameterEnd, |origin.stages|)..] == finals
    ensures forall k :: 0 <= k < |history| ==> IsStage(program, origin.stages[k], history[k])
  {
    program := environment + Inserts(terms);
    var from, stages: seq<Stage> := |program|, [];
    ghost var start := program;
    for k := 0 to |history|
      invariant start <= program && |stages| == k && EndOf(stages, from, k) == |program| && Contiguous(stages, from, |program|, k)
      invariant NoPlainChecks(program[from..]) && forall j :: 0 <= j < k ==> IsStage(program, stages[j], history[j])
    {
      var stage := Stage(history[k].record, |program|, |program + Timely(history[k].commands)|);
      StageWritten(program, stages, from, history, k, stage);
      program, stages := program + Timely(history[k].commands), stages + [stage];
    }
    FinalsWritten(program, stages, from, history, finals);
    origin := Origin(|environment|, from, stages, parameters);
    program := program + finals;
  }

  predicate IsStage(program: seq<Command>, stage: Stage, h: Recorded) {
    stage.record == h.record && stage.start <= stage.end <= |program| && program[stage.start..stage.end] == Timely(h.commands)
  }

  predicate AreStages(program: seq<Command>, stages: seq<Stage>, from: nat, history: seq<Recorded>, n: nat) {
    && n == |stages| <= |history| && from <= |program| && EndOf(stages, from, n) == |program| && Contiguous(stages, from, |program|, n)
    && NoPlainChecks(program[from..]) && forall j :: 0 <= j < n ==> IsStage(program, stages[j], history[j])
  }

  lemma StageWritten(program: seq<Command>, stages: seq<Stage>, from: nat, history: seq<Recorded>, k: nat, stage: Stage)
    requires k < |history| && AreStages(program, stages, from, history, k)
    requires stage == Stage(history[k].record, |program|, |program + Timely(history[k].commands)|)
    ensures AreStages(program + Timely(history[k].commands), stages + [stage], from, history, k + 1)
  {
    var more, all := program + Timely(history[k].commands), stages + [stage];
    forall i: nat | i < k + 1 ensures Follows(all, from, |more|, i) {
      if i < k { assert Follows(stages, from, |program|, i) && all[i] == stages[i]; }
    }
    assert more[from..] == program[from..] + Timely(history[k].commands);
    forall j | 0 <= j < k + 1 ensures IsStage(more, all[j], history[j]) {
      if j < k { assert IsStage(program, stages[j], history[j]) && more[stages[j].start..stages[j].end] == program[stages[j].start..stages[j].end]; }
    }
  }

  lemma FinalsWritten(program: seq<Command>, stages: seq<Stage>, from: nat, history: seq<Recorded>, finals: seq<Command>)
    requires AreStages(program, stages, from, history, |history|)
    ensures Contiguous(stages, from, |program + finals|, |history|)
    ensures (program + finals)[from..|program|] == program[from..] && (program + finals)[|program|..] == finals
    ensures forall j :: 0 <= j < |history| ==> IsStage(program + finals, stages[j], history[j])
  {
    forall i: nat | i < |history| ensures Follows(stages, from, |program + finals|, i) { assert Follows(stages, from, |program|, i); }
    forall j | 0 <= j < |history| ensures IsStage(program + finals, stages[j], history[j]) {
      assert IsStage(program, stages[j], history[j]);
      assert (program + finals)[stages[j].start..stages[j].end] == program[stages[j].start..stages[j].end];
    }
  }

  lemma WrittenDelta(parent: seq<Command>, po: Origin, child: seq<Command>, co: Origin)
    requires Accepts(parent, po, child, co) && Written(child, co)
    ensures NoPlainChecks(Delta(parent, po, child, co))
  {
    Bounds(co.stages, co.parameterEnd, |child|, |po.stages|, |co.stages|);
    var ce, cp, shared := co.environmentEnd, co.parameterEnd, co.environmentEnd + po.parameterEnd - po.environmentEnd;
    var middle, end := EndOf(co.stages, cp, |po.stages|), EndOf(co.stages, cp, |co.stages|);
    SpanNoPlain(child, ce, cp, shared, cp);
    SpanNoPlain(child, cp, end, middle, end);
  }

  lemma SpanNoPlain(s: seq<Command>, i: nat, j: nat, k: nat, l: nat)
    requires i <= k <= l <= j <= |s| && NoPlainChecks(s[i..j])
    ensures NoPlainChecks(s[k..l])
  {
    forall n | 0 <= n < |s[k..l]| ensures !s[k..l][n].Check? { assert s[k..l][n] == s[i..j][k - i + n]; }
  }

  /** For replays as they are written, every check that passed cold still passes after the graft. */
  lemma GraftPasses(kernel: iset<Clause>, parent: seq<Command>, po: Origin, child: seq<Command>, co: Origin)
    requires Accepts(parent, po, child, co) && Written(child, co) && ColdRun(kernel, child[co.environmentEnd..]).ok
    ensures GraftRun(kernel, parent, po, child, co).ok
  {
    WrittenDelta(parent, po, child, co);
    GraftPassesIff(kernel, parent, po, child, co);
  }

  lemma ImmediateParts(r: Parts, ops: set<string>)
    requires AllChecks(r.childChecks)
    ensures Immediate(r.params + r.extra + r.prefix + r.suffix + r.childChecks)
         == Immediate(r.params) + Immediate(r.extra) + Immediate(r.prefix) + Immediate(r.suffix)
  {
    ImmediateConcat(r.params + r.extra + r.prefix + r.suffix, r.childChecks);
    ImmediateConcat(r.params + r.extra + r.prefix, r.suffix);
    ImmediateConcat(r.params + r.extra, r.prefix);
    ImmediateConcat(r.params, r.extra);
    ImmediateAdds(r.childChecks, ops);
  }

  // ---------- planning ----------

  /** A plan exists exactly for an accepted pair, and holds exactly the rest of the child. */
  predicate Planned(r: Result<Graft>, parent: seq<Command>, po: Origin, child: seq<Command>, co: Origin) {
    match r
    case Err(_) => !Accepts(parent, po, child, co)
    case Ok(g) =>
      && Accepts(parent, po, child, co) && g.delta == Delta(parent, po, child, co)
      && g.skippedStages == |po.stages| && g.skippedCommands == EndOf(po.stages, po.parameterEnd, |po.stages|) - po.environmentEnd
  }

  /** Compares the replays stage by stage and returns what the child still has to run. */
  method Plan(parent: seq<Command>, po: Origin, child: seq<Command>, co: Origin) returns (r: Result<Graft>)
    ensures Planned(r, parent, po, child, co)
  {
    if !SameEnvironment(parent, po, child, co) { return Err("environment differs"); }
    if !PositiveReplays(parent, po, child, co) { return Err("nonpositive"); }
    if po.stages == [] || |po.stages| >= |co.stages| { return Err("not a strict prefix"); }
    if !SameTokens(po, co) { return Err("tokens differ"); }
    if !SameTerms(parent, po, child, co) { return Err("terms differ"); }
    var staged, rest, pend := Stages(parent, po.stages, po.parameterEnd, child, co.stages, co.parameterEnd);
    if !staged { return Err("stages differ"); }
    DeltaMade(parent, po, child, co, rest);
    var extra := child[co.environmentEnd + po.parameterEnd - po.environmentEnd..co.parameterEnd];
    r := Ok(Graft(extra + rest, |po.stages|, pend - po.environmentEnd));
  }

  lemma DeltaMade(parent: seq<Command>, po: Origin, child: seq<Command>, co: Origin, rest: seq<Command>)
    requires Accepts(parent, po, child, co)
    requires EndOf(co.stages, co.parameterEnd, |po.stages|) <= EndOf(co.stages, co.parameterEnd, |co.stages|) <= |child|
    requires rest == child[EndOf(co.stages, co.parameterEnd, |po.stages|)..EndOf(co.stages, co.parameterEnd, |co.stages|)]
    ensures Delta(parent, po, child, co) == child[co.environmentEnd + po.parameterEnd - po.environmentEnd..co.parameterEnd] + rest
  {
  }

  method Stages(parent: seq<Command>, ps: seq<Stage>, pp: nat, child: seq<Command>, cs: seq<Stage>, cp: nat)
    returns (staged: bool, rest: seq<Command>, pend: nat)
    requires pp <= |parent| && cp <= |child| && |ps| < |cs|
    ensures staged <==> Staged(parent, ps, pp, child, cs, cp)
    ensures staged ==> pend == EndOf(ps, pp, |ps|) && pp <= pend
    ensures staged ==> cp <= EndOf(cs, cp, |ps|) <= EndOf(cs, cp, |cs|) <= |child| && rest == child[EndOf(cs, cp, |ps|)..EndOf(cs, cp, |cs|)]
  {
    var same, cend;
    rest := [];
    same, pend, cend := Prefix(parent, ps, pp, child, cs, cp);
    if !same {
      return false, rest, pend;
    }
    var valid, more, end := Suffix(child, cs, cp, |ps|, cend);
    if !valid { return false, rest, pend; }
    rest := more;
    staged := AllChecks(parent[pend..]) && AllChecks(child[end..]);
    Bounds(ps, pp, |parent|, 0, |ps|);
    Bounds(cs, cp, |child|, |ps|, |cs|);
    Bounds(cs, cp, |child|, 0, |ps|);
  }

  /** Walks the stages of both replays together. */
  method Prefix(parent: seq<Command>, ps: seq<Stage>, pp: nat, child: seq<Command>, cs: seq<Stage>, cp: nat)
    returns (same: bool, pend: nat, cend: nat)
    requires pp <= |parent| && cp <= |child| && |ps| < |cs|
    ensures same <==> SameStages(parent, ps, child, cs, |ps|) && Contiguous(ps, pp, |parent|, |ps|) && Contiguous(cs, cp, |child|, |ps|)
    ensures same ==> pend == EndOf(ps, pp, |ps|) <= |parent| && cend == EndOf(cs, cp, |ps|) <= |child|
  {
    pend, cend := pp, cp;
    var k := 0;
    while k < |ps|
      invariant k <= |ps| && pend == EndOf(ps, pp, k) <= |parent| && cend == EndOf(cs, cp, k) <= |child|
      invariant SameStages(parent, ps, child, cs, k) && Contiguous(ps, pp, |parent|, k) && Contiguous(cs, cp, |child|, k)
    {
      var a, b := ps[k], cs[k];
      assert Follows(ps, pp, |parent|, k) <==> a.start == pend && a.start <= a.end <= |parent|;
      assert Follows(cs, cp, |child|, k) <==> b.start == cend && b.start <= b.end <= |child|;
      assert SameStage(parent, ps[k], child, cs[k]) <==> SameStage(parent, a, child, b);
      if a.record != b.record || a.start != pend || b.start != cend || a.start > a.end || a.end > |parent| || b.start > b.end
         || b.end > |child| || parent[a.start..a.end] != child[b.start..b.end] {
        return false, pend, cend;
      }
      pend, cend, k := a.end, b.end, k + 1;
    }
    same := true;
  }

  /** Collects the remaining stages in place. */
  method Suffix(child: seq<Command>, cs: seq<Stage>, cp: nat, from: nat, cend: nat) returns (valid: bool, rest: seq<Command>, end: nat)
    requires from <= |cs| && Contiguous(cs, cp, |child|, from) && cend == EndOf(cs, cp, from) <= |child|
    ensures valid <==> Contiguous(cs, cp, |child|, |cs|)
    ensures valid ==> cend <= end == EndOf(cs, cp, |cs|) <= |child| && rest == child[cend..end]
  {
    rest, end := [], cend;
    var k := from;
    while k < |cs|
      invariant from <= k <= |cs| && Contiguous(cs, cp, |child|, k)
      invariant cend <= end == EndOf(cs, cp, k) <= |child| && rest == child[cend..end]
    {
      assert Follows(cs, cp, |child|, k) <==> cs[k].start == end && cs[k].start <= cs[k].end <= |child|;
      if cs[k].start != end || cs[k].start > cs[k].end || cs[k].end > |child| {
        return false, rest, end;
      }
      Joined(child, cend, end, cs[k].end);
      rest := rest + child[cs[k].start..cs[k].end];
      end, k := cs[k].end, k + 1;
    }
    valid := true;
  }

  // ---------- a plain check inside a stage ----------

  function Nullary(op: string): Fact {
    Holds(Call(op, []))
  }

  /** One rule, from A to B. */
  function SmallEnvironment(): seq<Command> {
    [Datatype(["A", "B", "C"]), Rule([Nullary("A")], [Insert(Call("B", []))])]
  }

  function AddC(): Command {
    Act(Insert(Call("C", [])))
  }

  function AddA(): Command {
    Act(Insert(Call("A", [])))
  }

  function CheckB(): Command {
    Check([Nullary("B")])
  }

  function SmallParent(): (r: (seq<Command>, Origin)) {
    (SmallEnvironment() + [AddC()], Origin(2, 2, [Stage(0, 2, 3)], []))
  }

  function SmallChild(): (r: (seq<Command>, Origin)) {
    (SmallEnvironment() + [AddC(), AddA(), CheckB()], Origin(2, 2, [Stage(0, 2, 3), Stage(1, 3, 5)], []))
  }

  lemma SmallPositive()
    ensures PositiveEnvironment(SmallEnvironment())
    ensures AllPositive([AddC()], Ops(SmallEnvironment())) && AllPositive([AddC(), AddA(), CheckB()], Ops(SmallEnvironment()))
  {
    var environment := SmallEnvironment();
    assert environment[0] == Datatype(["A", "B", "C"]);
    assert "A" in Ops(environment) && "B" in Ops(environment) && "C" in Ops(environment) by {
      assert "A" in ["A", "B", "C"] && "B" in ["A", "B", "C"] && "C" in ["A", "B", "C"];
      assert "A" in Names(environment[0]) && "B" in Names(environment[0]) && "C" in Names(environment[0]);
    }
  }

  lemma SmallAccepted()
    ensures Accepts(SmallParent().0, SmallParent().1, SmallChild().0, SmallChild().1)
    ensures Delta(SmallParent().0, SmallParent().1, SmallChild().0, SmallChild().1) == [AddA(), CheckB()]
    ensures SmallParent().0[2..] == [AddC()] && SmallChild().0[2..] == [AddC(), AddA(), CheckB()]
    ensures SmallParent().0[..2] == SmallEnvironment() && SmallChild().0[..2] == SmallEnvironment()
  {
    var parent, po, child, co := SmallParent().0, SmallParent().1, SmallChild().0, SmallChild().1;
    assert parent[..2] == SmallEnvironment() && child[..2] == SmallEnvironment();
    assert parent[2..] == [AddC()] && child[2..] == [AddC(), AddA(), CheckB()];
    SmallPositive();
    assert parent[2..3] == [AddC()] == child[2..3];
    assert parent[3..] == [] && child[5..] == [];
  }

  /** Without its rule's premise nothing is derived. */
  lemma {:induction false} OnlyC(p: Proof)
    requires Proves(Laws(iset{}, SmallEnvironment()), iset{Nullary("C")}, p)
    ensures Conclusion(p) == Nullary("C")
  {
    match p {
      case Given(_) =>
      case By(c, subs) =>
        var environment := SmallEnvironment();
        assert FromRules(environment, c);
        var k :| 0 <= k < |environment| && environment[k].Rule? && RuleClause(environment[k], c);
        var sub: Subst, h: nat :| Instantiates(environment[k], c, sub, h);
        assert c.premises[0] == Nullary("A") by { assert Instance(Call("A", []), sub) == Call("A", []); }
        OnlyC(subs[0]);
    }
  }

  lemma {:induction false} NoLaws(base: Facts, p: Proof)
    requires Proves(iset{}, base, p)
    ensures Conclusion(p) in base
  {
  }

  lemma BDerived(base: Facts)
    requires Nullary("A") in base
    ensures Nullary("B") in Closure(Laws(iset{}, SmallEnvironment()), base)
  {
    var environment := SmallEnvironment();
    var c := Clause([Nullary("A")], Nullary("B"));
    assert Instance(Call("A", []), map[]) == Call("A", []) && Instance(Call("B", []), map[]) == Call("B", []);
    assert BodyInstance([Nullary("A")], map[]) == [Nullary("A")];
    assert Instantiates(environment[1], c, map[], 0);
    assert FromRules(environment, c);
    assert Proves(Laws(iset{}, environment), base, By(c, [Given(Nullary("A"))]));
  }

  lemma ColdSide(child: seq<Command>)
    requires |child| == 5 && child[..2] == SmallEnvironment() && child[2..] == [AddC(), AddA(), CheckB()]
    ensures ColdRun(iset{}, child[2..]).ok && PassesAtEnd(Saturated(iset{}, child, 2), child[2..])
  {
    var replay, all := child[2..], Laws(iset{}, SmallEnvironment());
    ColdPart(iset{}, replay);
    ColdEnds(iset{}, all, replay);
    assert Nullary("A") in Adds(replay) by { assert replay[1] == AddA() && Nullary("A") in Added(AddA().action); }
    BDerived(Adds(replay));
  }

  lemma WarmSide(parent: seq<Command>)
    requires |parent| == 3 && parent[..2] == SmallEnvironment() && parent[2..] == [AddC()]
    ensures Saturated(iset{}, parent, 2) == Closure(Laws(iset{}, SmallEnvironment()), iset{Nullary("C")})
  {
    ColdEnds(iset{}, Laws(iset{}, SmallEnvironment()), parent[2..]);
    AddsOne(AddC());
  }

  /**
   * `Plan` alone does not need its replays to be written by `Write`. Given a plain check inside a stage,
   * which `Write` never leaves there, it accepts a child whose check a cold session makes after saturation,
   * and passes, and a graft makes at once, and fails.
   */
  lemma EarlyCheckFails()
    ensures var parent, child := SmallParent(), SmallChild();
            && Accepts(parent.0, parent.1, child.0, child.1) && child.1.environmentEnd == 2 <= |child.0|
            && ColdRun(iset{}, child.0[2..]).ok && PassesAtEnd(Saturated(iset{}, child.0, 2), child.0[2..])
            && !GraftRun(iset{}, parent.0, parent.1, child.0, child.1).ok
  {
    SmallAccepted();
    ColdSide(SmallChild().0);
    WarmSide(SmallParent().0);
    GraftPassesIff(iset{}, SmallParent().0, SmallParent().1, SmallChild().0, SmallChild().1);
    BNotYet(Saturated(iset{}, SmallParent().0, 2), [AddA(), CheckB()]);
  }

  lemma ColdPart(kernel: iset<Clause>, replay: seq<Command>)
    requires replay == [AddC(), AddA(), CheckB()]
    ensures ColdRun(kernel, replay).ok
  {
    var start := Closure(kernel, iset{});
    assert replay[..2] == [AddC(), AddA()] && [AddC(), AddA()][..1] == [AddC()] && [AddC()][..0] == [];
    assert Immediate([AddC()]) == [AddC()];
    assert Immediate([AddC(), AddA()]) == [AddC(), AddA()];
    assert Immediate(replay) == [AddC()] + [AddA()];
    RunConcat(kernel, start, [AddC()], [AddA()]);
    assert [AddC()][1..] == [] && [AddA()][1..] == [];
  }

  lemma BNotYet(warm: Facts, delta: seq<Command>)
    requires warm == Closure(Laws(iset{}, SmallEnvironment()), iset{Nullary("C")}) && delta == [AddA(), CheckB()]
    ensures !ReadyChecks(iset{}, warm, delta)
  {
    var kernel: iset<Clause> := iset{};
    assert delta[..1] == [AddA()];
    AddsOne(AddA());
    var state := Closure(kernel, warm + Adds(delta[..1]));
    forall f | f in state ensures f != Nullary("B") {
      var p :| Proves(kernel, warm + Added(AddA().action), p) && Conclusion(p) == f;
      NoLaws(warm + Added(AddA().action), p);
      if f in warm {
        var q :| Proves(Laws(kernel, SmallEnvironment()), iset{Nullary("C")}, q) && Conclusion(q) == f;
        OnlyC(q);
      }
    }
    assert delta[1].Check? && !Passes(state, delta[1]) by { assert delta[1] == CheckB() && [Nullary("B")][0] == Nullary("B"); }
  }
}
