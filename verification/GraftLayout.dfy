/**
 * What `plan` of src/native_ripen_graft.rs accepts, said of the replays alone:
 * both are an environment, boundary terms, stages and final checks laid one
 * after the other where their origins say, and the child has the parent's with
 * more terms and stages (`PlanMeans`).
 */
module GraftLayout {
  import opened Wrappers
  import opened ReplayClosure
  import opened GraftPlan

  /** The commands of stages one after the other. */
  function Flat(stages: seq<seq<Command>>): seq<Command> {
    if stages == [] then [] else Flat(stages[..|stages| - 1]) + stages[|stages| - 1]
  }

  /** The replay has these parts, and its origin says where they begin and end. */
  predicate Laid(program: seq<Command>, o: Origin, environment: seq<Command>, terms: seq<Command>, stages: seq<seq<Command>>, finals: seq<Command>) {
    && program == environment + terms + Flat(stages) + finals
    && o.environmentEnd == |environment| && o.parameterEnd == |environment| + |terms| && |o.stages| == |stages|
    && forall k: nat {:trigger StageLaid(o, stages, k)} :: k < |stages| ==> StageLaid(o, stages, k)
  }

  predicate StageLaid(o: Origin, stages: seq<seq<Command>>, k: nat)
    requires k < |stages| == |o.stages|
  {
    o.stages[k].start == o.parameterEnd + |Flat(stages[..k])| && o.stages[k].end == o.stages[k].start + |stages[k]|
  }

  // ---------- operators ----------

  function OpsIn(e: Expr): set<string> {
    if e.Call? then {e.op} + OpsInAll(e.args) else {}
  }

  function OpsInAll(es: seq<Expr>): set<string> {
    if es == [] then {} else OpsInAll(es[..|es| - 1]) + OpsIn(es[|es| - 1])
  }

  function OpsInFact(f: Fact): set<string> {
    match f case Eq(l, r) => OpsIn(l) + OpsIn(r) case Holds(e) => OpsIn(e)
  }

  function OpsInFacts(fs: seq<Fact>): set<string> {
    set f, x | f in fs && x in OpsInFact(f) :: x
  }

  function OpsInAction(a: Action): set<string> {
    match a
    case Insert(e) => OpsIn(e)
    case Let(_, e) => OpsIn(e)
    case Union(l, r) => OpsIn(l) + OpsIn(r)
    case OtherAction => {}
  }

  predicate Declares(c: Command, x: string) {
    (c.Datatype? && x in c.variants) || ((c.Constructor? || c.Relation?) && x == c.name)
  }

  /** Every operator is one of a datatype, constructor or relation of the environment. */
  ghost predicate AllDeclared(environment: seq<Command>, ops: set<string>) {
    forall x :: x in ops ==> exists k :: 0 <= k < |environment| && Declares(environment[k], x)
  }

  /** Declarations, and rules that only insert, bind and unite. */
  ghost predicate Growing(environment: seq<Command>, c: Command) {
    match c
    case Rule(body, head) =>
      && AllDeclared(environment, OpsInFacts(body))
      && forall k :: 0 <= k < |head| ==> !head[k].OtherAction? && AllDeclared(environment, OpsInAction(head[k]))
    case Sort(presort) => !presort
    case Act(_) => false
    case Check(_) => false
    case Fail(_) => false
    case OtherCommand => false
    case _ => true
  }

  /** Insertions, bindings, unions, and checks that must hold, directly or as failures of failures. */
  ghost predicate Replayable(environment: seq<Command>, c: Command) {
    || (c.Act? && !c.action.OtherAction? && AllDeclared(environment, OpsInAction(c.action)))
    || (c.Check? && AllDeclared(environment, OpsInFacts(c.facts)))
    || (c.Fail? && c.command.Fail? && c.command.command.Check? && AllDeclared(environment, OpsInFacts(c.command.command.facts)))
  }

  lemma {:induction false} PositiveExprMeans(e: Expr, ops: set<string>)
    ensures PositiveExpr(e, ops) <==> OpsIn(e) <= ops
    decreases e, 1
  {
    if e.Call? { PositiveAllMeans(e.args, ops); }
  }

  lemma {:induction false} PositiveAllMeans(es: seq<Expr>, ops: set<string>)
    ensures (forall k :: 0 <= k < |es| ==> PositiveExpr(es[k], ops)) <==> OpsInAll(es) <= ops
    decreases es, 0
  {
    if es != [] {
      var n := |es| - 1;
      PositiveAllMeans(es[..n], ops);
      PositiveExprMeans(es[n], ops);
      assert forall k :: 0 <= k < n ==> es[..n][k] == es[k];
    }
  }

  lemma PositiveFactMeans(f: Fact, ops: set<string>)
    ensures PositiveFact(f, ops) <==> OpsInFact(f) <= ops
  {
    match f
    case Eq(l, r) => PositiveExprMeans(l, ops); PositiveExprMeans(r, ops);
    case Holds(e) => PositiveExprMeans(e, ops);
  }

  lemma PositiveFactsMeans(fs: seq<Fact>, ops: set<string>)
    ensures PositiveFacts(fs, ops) <==> OpsInFacts(fs) <= ops
  {
    forall f ensures PositiveFact(f, ops) <==> OpsInFact(f) <= ops { PositiveFactMeans(f, ops); }
    if PositiveFacts(fs, ops) {
      forall x | x in OpsInFacts(fs) ensures x in ops {
        var f :| f in fs && x in OpsInFact(f);
        assert PositiveFact(f, ops);
      }
    }
    if OpsInFacts(fs) <= ops {
      forall k | 0 <= k < |fs| ensures PositiveFact(fs[k], ops) {
        assert fs[k] in fs;
        assert forall x :: x in OpsInFact(fs[k]) ==> x in OpsInFacts(fs);
      }
    }
  }

  lemma PositiveActionMeans(a: Action, ops: set<string>)
    ensures PositiveAction(a, ops) <==> !a.OtherAction? && OpsInAction(a) <= ops
  {
    match a
    case Insert(e) => PositiveExprMeans(e, ops);
    case Let(_, e) => PositiveExprMeans(e, ops);
    case Union(l, r) => PositiveExprMeans(l, ops); PositiveExprMeans(r, ops);
    case OtherAction =>
  }

  lemma OpsMean(environment: seq<Command>, used: set<string>)
    ensures used <= Ops(environment) <==> AllDeclared(environment, used)
  {
    forall x ensures x in Ops(environment) <==> exists k :: 0 <= k < |environment| && Declares(environment[k], x) {
      if x in Ops(environment) {
        var k :| 0 <= k < |environment| && x in Names(environment[k]);
        assert Declares(environment[k], x);
      }
      if k :| 0 <= k < |environment| && Declares(environment[k], x) {
        assert x in Names(environment[k]);
      }
    }
  }

  lemma DeclarationMeans(environment: seq<Command>, c: Command)
    ensures PositiveDeclaration(c, Ops(environment)) <==> Growing(environment, c)
  {
    if c.Rule? {
      PositiveFactsMeans(c.body, Ops(environment));
      OpsMean(environment, OpsInFacts(c.body));
      forall k | 0 <= k < |c.head|
        ensures PositiveAction(c.head[k], Ops(environment)) <==>
                  !c.head[k].OtherAction? && AllDeclared(environment, OpsInAction(c.head[k])) {
        PositiveActionMeans(c.head[k], Ops(environment));
        OpsMean(environment, OpsInAction(c.head[k]));
      }
    }
  }

  lemma PositiveMeans(environment: seq<Command>, c: Command)
    ensures Positive(c, Ops(environment)) <==> Replayable(environment, c)
  {
    match c
    case Act(a) =>
      PositiveActionMeans(a, Ops(environment));
      OpsMean(environment, OpsInAction(a));
    case Check(fs) =>
      PositiveFactsMeans(fs, Ops(environment));
      OpsMean(environment, OpsInFacts(fs));
    case Fail(Fail(Check(fs))) =>
      PositiveFactsMeans(fs, Ops(environment));
      OpsMean(environment, OpsInFacts(fs));
    case _ =>
  }

  // ---------- layouts ----------

  /** The parts that two replays share, and those that only one of them has. */
  datatype Layout = Layout(environment: seq<Command>, terms: seq<Command>, extra: seq<Command>,
                           stages: seq<seq<Command>>, later: seq<seq<Command>>,
                           parentChecks: seq<Command>, childChecks: seq<Command>)

  /** The child's replay is the parent's with more boundary terms and stages; checks end both. */
  predicate LaidOut(parent: seq<Command>, po: Origin, child: seq<Command>, co: Origin, l: Layout) {
    && Laid(parent, po, l.environment, l.terms, l.stages, l.parentChecks)
    && Laid(child, co, l.environment, l.terms + l.extra, l.stages + l.later, l.childChecks)
    && l.stages != [] && l.later != []
    && (forall k :: 0 <= k < |l.parentChecks| ==> l.parentChecks[k].Check?)
    && (forall k :: 0 <= k < |l.childChecks| ==> l.childChecks[k].Check?)
  }

  /** The same records in the stages, the same tokens of the same sorts at the boundary. */
  predicate SameOrigins(po: Origin, co: Origin) {
    && |po.stages| <= |co.stages| && (forall k :: 0 <= k < |po.stages| ==> po.stages[k].record == co.stages[k].record)
    && |po.parameters| <= |co.parameters|
    && forall k :: 0 <= k < |po.parameters| ==>
         po.parameters[k].token == co.parameters[k].token && po.parameters[k].sort == co.parameters[k].sort
  }

  ghost predicate AllGrowing(parent: seq<Command>, child: seq<Command>, environment: seq<Command>) {
    && (forall k :: 0 <= k < |environment| ==> Growing(environment, environment[k]))
    && (forall k :: |environment| <= k < |parent| ==> Replayable(environment, parent[k]))
    && forall k :: |environment| <= k < |child| ==> Replayable(environment, child[k])
  }

  ghost predicate Extends(parent: seq<Command>, po: Origin, child: seq<Command>, co: Origin, l: Layout) {
    LaidOut(parent, po, child, co, l) && SameOrigins(po, co) && AllGrowing(parent, child, l.environment)
  }

  lemma GrowingMeans(parent: seq<Command>, po: Origin, child: seq<Command>, co: Origin)
    requires SameEnvironment(parent, po, child, co)
    ensures PositiveReplays(parent, po, child, co) <==> AllGrowing(parent, child, child[..co.environmentEnd])
  {
    var environment := child[..co.environmentEnd];
    forall c ensures PositiveDeclaration(c, Ops(environment)) <==> Growing(environment, c) { DeclarationMeans(environment, c); }
    forall c ensures Positive(c, Ops(environment)) <==> Replayable(environment, c) { PositiveMeans(environment, c); }
    assert |environment| == po.environmentEnd;
    var p, d := parent[po.environmentEnd..], child[co.environmentEnd..];
    assert forall k :: |environment| <= k < |parent| ==> parent[k] == p[k - |environment|];
    assert forall k :: |environment| <= k < |child| ==> child[k] == d[k - |environment|];
  }

  // ---------- from a layout to the checks ----------

  lemma {:induction false} FlatConcat(a: seq<seq<Command>>, b: seq<seq<Command>>)
    ensures Flat(a + b) == Flat(a) + Flat(b)
    decreases |b|
  {
    if b == [] {
      assert a + b == a;
    } else {
      var n := |b| - 1;
      assert (a + b)[..|a| + n] == a + b[..n] && (a + b)[|a| + n] == b[n];
      FlatConcat(a, b[..n]);
    }
  }

  lemma FlatStep(stages: seq<seq<Command>>, k: nat)
    requires k < |stages|
    ensures Flat(stages[..k + 1]) == Flat(stages[..k]) + stages[k]
  {
    assert stages[..k + 1][..k] == stages[..k] && stages[..k + 1][k] == stages[k];
  }

  /** The stages lie where the layout puts them. */
  lemma {:induction false} LaidEnds(program: seq<Command>, o: Origin, environment: seq<Command>, terms: seq<Command>,
                                    stages: seq<seq<Command>>, finals: seq<Command>, n: nat)
    requires Laid(program, o, environment, terms, stages, finals) && n <= |stages|
    ensures EndOf(o.stages, o.parameterEnd, n) == o.parameterEnd + |Flat(stages[..n])| <= |program|
    ensures Contiguous(o.stages, o.parameterEnd, |program|, n)
    ensures program[o.parameterEnd..EndOf(o.stages, o.parameterEnd, n)] == Flat(stages[..n])
  {
    assert stages[..n] + stages[n..] == stages;
    FlatConcat(stages[..n], stages[n..]);
    var front := environment + terms;
    assert program == front + Flat(stages[..n]) + (Flat(stages[n..]) + finals);
    if n > 0 {
      LaidEnds(program, o, environment, terms, stages, finals, n - 1);
      FlatStep(stages, n - 1);
      assert StageLaid(o, stages, n - 1);
      assert Follows(o.stages, o.parameterEnd, |program|, n - 1);
    }
  }

  /** The contents of one stage. */
  lemma StageContents(program: seq<Command>, o: Origin, environment: seq<Command>, terms: seq<Command>,
                      stages: seq<seq<Command>>, finals: seq<Command>, k: nat)
    requires Laid(program, o, environment, terms, stages, finals) && k < |stages|
    ensures o.stages[k].start <= o.stages[k].end <= |program| && program[o.stages[k].start..o.stages[k].end] == stages[k]
  {
    LaidEnds(program, o, environment, terms, stages, finals, k + 1);
    LaidEnds(program, o, environment, terms, stages, finals, k);
    FlatStep(stages, k);
    assert StageLaid(o, stages, k);
    var whole := program[o.parameterEnd..o.stages[k].end];
    assert whole == Flat(stages[..k]) + stages[k];
    assert program[o.stages[k].start..o.stages[k].end] == whole[|Flat(stages[..k])|..];
  }

  lemma LaidStaged(parent: seq<Command>, po: Origin, child: seq<Command>, co: Origin, l: Layout)
    requires LaidOut(parent, po, child, co, l) && SameOrigins(po, co)
    ensures Staged(parent, po.stages, po.parameterEnd, child, co.stages, co.parameterEnd)
  {
    var all, terms := l.stages + l.later, l.terms + l.extra;
    LaidEnds(parent, po, l.environment, l.terms, l.stages, l.parentChecks, |l.stages|);
    LaidEnds(child, co, l.environment, terms, all, l.childChecks, |all|);
    assert l.stages[..|l.stages|] == l.stages && all[..|all|] == all;
    assert parent[EndOf(po.stages, po.parameterEnd, |po.stages|)..] == l.parentChecks;
    assert child[EndOf(co.stages, co.parameterEnd, |co.stages|)..] == l.childChecks;
    forall k: nat | k < |po.stages| ensures SameStage(parent, po.stages[k], child, co.stages[k]) {
      StageContents(parent, po, l.environment, l.terms, l.stages, l.parentChecks, k);
      StageContents(child, co, l.environment, terms, all, l.childChecks, k);
      assert all[k] == l.stages[k];
    }
  }

  lemma LaidAccepted(parent: seq<Command>, po: Origin, child: seq<Command>, co: Origin, l: Layout)
    requires Extends(parent, po, child, co, l)
    ensures Accepts(parent, po, child, co)
  {
    LaidStaged(parent, po, child, co, l);
    assert parent[..po.environmentEnd] == l.environment == child[..co.environmentEnd];
    GrowingMeans(parent, po, child, co);
    assert parent[po.environmentEnd..po.parameterEnd] == l.terms;
    assert child[co.environmentEnd..co.environmentEnd + |l.terms|] == l.terms;
    assert po.parameters == co.parameters[..|po.parameters|];
  }

  /** The plan is the child's own terms and stages. */
  lemma LaidDelta(parent: seq<Command>, po: Origin, child: seq<Command>, co: Origin, l: Layout)
    requires Extends(parent, po, child, co, l) && Accepts(parent, po, child, co)
    ensures Delta(parent, po, child, co) == l.extra + Flat(l.later)
  {
    var all, terms := l.stages + l.later, l.terms + l.extra;
    LaidEnds(child, co, l.environment, terms, all, l.childChecks, |l.stages|);
    LaidEnds(child, co, l.environment, terms, all, l.childChecks, |all|);
    assert all[..|all|] == all && all[..|l.stages|] == l.stages;
    FlatConcat(l.stages, l.later);
    var shared := co.environmentEnd + |l.terms|;
    assert child[shared..co.parameterEnd] == l.extra;
    var middle, end := EndOf(co.stages, co.parameterEnd, |po.stages|), EndOf(co.stages, co.parameterEnd, |co.stages|);
    assert child[middle..end] == child[co.parameterEnd..end][|Flat(l.stages)|..];
  }

  lemma LaidSkips(parent: seq<Command>, po: Origin, l: Layout)
    requires Laid(parent, po, l.environment, l.terms, l.stages, l.parentChecks)
    ensures EndOf(po.stages, po.parameterEnd, |po.stages|) == |l.environment| + |l.terms| + |Flat(l.stages)|
  {
    LaidEnds(parent, po, l.environment, l.terms, l.stages, l.parentChecks, |l.stages|);
    assert l.stages[..|l.stages|] == l.stages;
  }

  // ---------- from the checks to a layout ----------

  function Pieces(program: seq<Command>, stages: seq<Stage>): (r: seq<seq<Command>>)
    requires forall k :: 0 <= k < |stages| ==> stages[k].start <= stages[k].end <= |program|
    ensures |r| == |stages| && forall k :: 0 <= k < |r| ==> r[k] == program[stages[k].start..stages[k].end]
  {
    seq(|stages|, k requires 0 <= k < |stages| => program[stages[k].start..stages[k].end])
  }

  lemma {:induction false} PiecesFlat(program: seq<Command>, stages: seq<Stage>, from: nat, n: nat)
    requires n <= |stages| && from <= |program| && Contiguous(stages, from, |program|, |stages|)
    requires forall k :: 0 <= k < |stages| ==> stages[k].start <= stages[k].end <= |program|
    ensures from <= EndOf(stages, from, n) <= |program|
    ensures Flat(Pieces(program, stages)[..n]) == program[from..EndOf(stages, from, n)]
  {
    Bounds(stages, from, |program|, n, |stages|);
    if n > 0 {
      PiecesFlat(program, stages, from, n - 1);
      FlatStep(Pieces(program, stages), n - 1);
      assert Follows(stages, from, |program|, n - 1);
    }
  }

  lemma StagesInside(stages: seq<Stage>, from: nat, limit: nat)
    requires Contiguous(stages, from, limit, |stages|)
    ensures forall k :: 0 <= k < |stages| ==> stages[k].start <= stages[k].end <= limit
  {
    forall k: nat | k < |stages| ensures stages[k].start <= stages[k].end <= limit { assert Follows(stages, from, limit, k); }
  }

  /** A replay is laid out by its own pieces. */
  lemma PiecesLaid(program: seq<Command>, o: Origin)
    requires o.environmentEnd <= o.parameterEnd <= |program| && Contiguous(o.stages, o.parameterEnd, |program|, |o.stages|)
    requires forall k :: 0 <= k < |o.stages| ==> o.stages[k].start <= o.stages[k].end <= |program|
    requires EndOf(o.stages, o.parameterEnd, |o.stages|) <= |program|
    ensures Laid(program, o, program[..o.environmentEnd], program[o.environmentEnd..o.parameterEnd], Pieces(program, o.stages),
                 program[EndOf(o.stages, o.parameterEnd, |o.stages|)..])
  {
    var stages, n := Pieces(program, o.stages), |o.stages|;
    PiecesFlat(program, o.stages, o.parameterEnd, n);
    assert stages[..n] == stages;
    ReplayCuts(program, o.environmentEnd, o.parameterEnd, EndOf(o.stages, o.parameterEnd, n));
    forall k: nat | k < n ensures StageLaid(o, stages, k) { PieceLaid(program, o, k); }
  }

  lemma PieceLaid(program: seq<Command>, o: Origin, k: nat)
    requires o.parameterEnd <= |program| && Contiguous(o.stages, o.parameterEnd, |program|, |o.stages|) && k < |o.stages|
    requires forall j :: 0 <= j < |o.stages| ==> o.stages[j].start <= o.stages[j].end <= |program|
    ensures StageLaid(o, Pieces(program, o.stages), k)
  {
    PiecesFlat(program, o.stages, o.parameterEnd, k);
    assert Follows(o.stages, o.parameterEnd, |program|, k);
  }

  lemma AcceptedLaid(parent: seq<Command>, po: Origin, child: seq<Command>, co: Origin) returns (l: Layout)
    requires Accepts(parent, po, child, co)
    ensures Extends(parent, po, child, co, l)
  {
    StagesInside(po.stages, po.parameterEnd, |parent|);
    StagesInside(co.stages, co.parameterEnd, |child|);
    var n, mine, all := |po.stages|, Pieces(parent, po.stages), Pieces(child, co.stages);
    SamePieces(parent, po, child, co);
    var shared := co.environmentEnd + po.parameterEnd - po.environmentEnd;
    l := Layout(child[..co.environmentEnd], child[co.environmentEnd..shared], child[shared..co.parameterEnd], mine, all[n..],
                parent[EndOf(po.stages, po.parameterEnd, n)..], child[EndOf(co.stages, co.parameterEnd, |co.stages|)..]);
    PiecesLaid(parent, po);
    PiecesLaid(child, co);
    Joined(child, co.environmentEnd, shared, co.parameterEnd);
    GrowingMeans(parent, po, child, co);
    SameTokensMean(po, co);
  }

  lemma SamePieces(parent: seq<Command>, po: Origin, child: seq<Command>, co: Origin)
    requires SameStages(parent, po.stages, child, co.stages, |po.stages|)
    requires forall k :: 0 <= k < |po.stages| ==> po.stages[k].start <= po.stages[k].end <= |parent|
    requires forall k :: 0 <= k < |co.stages| ==> co.stages[k].start <= co.stages[k].end <= |child|
    ensures var mine, all := Pieces(parent, po.stages), Pieces(child, co.stages);
            all == mine + all[|po.stages|..] && forall k :: 0 <= k < |po.stages| ==> po.stages[k].record == co.stages[k].record
  {
    var n, mine, all := |po.stages|, Pieces(parent, po.stages), Pieces(child, co.stages);
    forall k: nat | k < n ensures mine[k] == all[k] && po.stages[k].record == co.stages[k].record {
      assert SameStage(parent, po.stages[k], child, co.stages[k]);
    }
    assert mine == all[..n];
  }

  lemma SameTokensMean(po: Origin, co: Origin)
    requires SameTokens(po, co)
    ensures forall k :: 0 <= k < |po.parameters| ==> po.parameters[k] == co.parameters[k]
  {
    forall k | 0 <= k < |po.parameters| ensures po.parameters[k] == co.parameters[k] {
      assert po.parameters[k] == co.parameters[..|po.parameters|][k];
    }
  }

  /**
   * There is a plan exactly if the child's replay is the parent's with more boundary terms and stages, of commands
   * that only add facts; and then it is those terms and stages, in order, and skips what both have.
   */
  lemma PlanMeans(parent: seq<Command>, po: Origin, child: seq<Command>, co: Origin, r: Result<Graft>)
    requires Planned(r, parent, po, child, co)
    ensures r.Ok? <==> exists l: Layout :: Extends(parent, po, child, co, l)
    ensures forall l: Layout :: Extends(parent, po, child, co, l) ==>
              r == Ok(Graft(l.extra + Flat(l.later), |l.stages|, |l.terms| + |Flat(l.stages)|))
  {
    if Accepts(parent, po, child, co) {
      var l := AcceptedLaid(parent, po, child, co);
    }
    forall l: Layout | Extends(parent, po, child, co, l)
      ensures r == Ok(Graft(l.extra + Flat(l.later), |l.stages|, |l.terms| + |Flat(l.stages)|)) {
      LaidAccepted(parent, po, child, co, l);
      LaidDelta(parent, po, child, co, l);
      LaidSkips(parent, po, l);
    }
  }
}
