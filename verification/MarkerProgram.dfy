/**
 * `validate_scope` and `transform` of examples/eggcc_marker.rs on whole programs,
 * and the theorem that the transformed program preserves the source
 * (`ProgramPreserved`).
 */
module MarkerProgram {
  import opened Wrappers
  import opened FactQueries
  import opened MarkerRewrite
  import opened MarkerOccurrences
  import opened MarkerView
  import opened MarkerSchedule
  import opened MarkerTransform

  // ---------- programs in scope ----------

  predicate NoUntil(s: Schedule) {
    match s
    case Run(config) => config.until.None?
    case Repeat(_, body) => NoUntil(body)
    case Saturate(body) => NoUntil(body)
    case Sequence(children) => forall i :: 0 <= i < |children| ==> NoUntil(children[i])
  }

  predicate Installs(c: Command) {
    c.RuleCommand? || c.Schema?
  }

  /** A schedule was run before command `k`. */
  predicate Ran(program: seq<Command>, k: nat) {
    exists j :: 0 <= j < k && j < |program| && program[j].RunSchedule?
  }

  predicate Fits(c: Command, executed: bool) {
    match c
    case RunSchedule(s) => NoUntil(s)
    case Unsupported(_) => false
    case _ => !(Installs(c) && executed)
  }

  /** No includes, scopes or `until`, and no rule or schema after the first schedule. */
  predicate InScope(program: seq<Command>) {
    forall k: nat {:trigger Ran(program, k)} {:trigger program[k]} :: k < |program| ==> Fits(program[k], Ran(program, k))
  }

  /** The same said of every run of every schedule and of every pair of commands. */
  ghost predicate PlainScope(program: seq<Command>) {
    && (forall k :: 0 <= k < |program| ==> !program[k].Unsupported?)
    && (forall k :: 0 <= k < |program| && program[k].RunSchedule? ==> forall run :: run in RunsOf(program[k].schedule) ==> run.until.None?)
    && forall j, k :: 0 <= j < k < |program| && program[j].RunSchedule? ==> !program[k].RuleCommand? && !program[k].Schema?
  }

  lemma {:induction false} NoUntilMeans(s: Schedule)
    ensures NoUntil(s) <==> forall run :: run in RunsOf(s) ==> run.until.None?
    decreases s, 1
  {
    match s
    case Run(config) =>
    case Repeat(_, body) => NoUntilMeans(body);
    case Saturate(body) => NoUntilMeans(body);
    case Sequence(children) => NoUntilAllMeans(children);
  }

  lemma {:induction false} NoUntilAllMeans(ss: seq<Schedule>)
    ensures (forall i :: 0 <= i < |ss| ==> NoUntil(ss[i])) <==> forall run :: run in RunsOfAll(ss) ==> run.until.None?
    decreases ss, 0
  {
    if ss != [] {
      NoUntilMeans(ss[0]);
      NoUntilAllMeans(ss[1..]);
      assert (forall i :: 0 <= i < |ss| ==> NoUntil(ss[i])) <==> NoUntil(ss[0]) && forall i :: 0 <= i < |ss[1..]| ==> NoUntil(ss[1..][i]) by {
        assert forall i :: 1 <= i < |ss| ==> ss[i] == ss[1..][i - 1];
      }
    }
  }

  lemma InScopeMeans(program: seq<Command>)
    ensures InScope(program) <==> PlainScope(program)
  {
    forall s: Schedule ensures NoUntil(s) <==> forall run :: run in RunsOf(s) ==> run.until.None? { NoUntilMeans(s); }
    if PlainScope(program) {
      forall k: nat | k < |program| ensures Fits(program[k], Ran(program, k)) {}
    }
    if InScope(program) {
      forall j, k | 0 <= j < k < |program| && program[j].RunSchedule? ensures !program[k].RuleCommand? && !program[k].Schema? {
        assert Ran(program, k) && Fits(program[k], Ran(program, k));
      }
    }
  }

  method ValidateScope(program: seq<Command>) returns (r: Result<()>)
    ensures r.Ok? <==> InScope(program)
    ensures r.Ok? <==> PlainScope(program)
  {
    InScopeMeans(program);
    var executed := false;
    for i := 0 to |program|
      invariant forall k: nat {:trigger program[k]} :: k < i ==> Fits(program[k], Ran(program, k))
      invariant executed <==> Ran(program, i)
    {
      assert Ran(program, i + 1) <==> Ran(program, i) || program[i].RunSchedule?;
      var verdict := Check(program[i], executed);
      if verdict.Err? { return verdict; }
      executed := executed || program[i].RunSchedule?;
    }
    r := Ok(());
  }

  method Check(c: Command, executed: bool) returns (r: Result<()>)
    ensures r.Ok? <==> Fits(c, executed)
  {
    if c.RunSchedule? && !NoUntil(c.schedule) {
      return Err("until schedule");
    }
    if c.Unsupported? {
      return Err("not flattened");
    }
    if Installs(c) && executed {
      return Err("late installation");
    }
    return Ok(());
  }

  function RulesIn(c: Command): seq<Rule> {
    if c.RuleCommand? then [c.rule] else []
  }

  function RulesOf(program: seq<Command>): seq<Rule> {
    if program == [] then [] else RulesIn(program[0]) + RulesOf(program[1..])
  }

  lemma {:induction false} RulesOfConcat(xs: seq<Command>, ys: seq<Command>)
    ensures RulesOf(xs + ys) == RulesOf(xs) + RulesOf(ys)
  {
    if xs == [] {
      assert xs + ys == ys;
    } else {
      assert (xs + ys)[1..] == xs[1..] + ys;
      RulesOfConcat(xs[1..], ys);
      assert RulesIn(xs[0]) + (RulesOf(xs[1..]) + RulesOf(ys)) == (RulesIn(xs[0]) + RulesOf(xs[1..])) + RulesOf(ys);
    }
  }

  lemma {:induction false} NoRules(program: seq<Command>)
    requires forall i :: 0 <= i < |program| ==> !program[i].RuleCommand?
    ensures RulesOf(program) == []
  {
    if program != [] { NoRules(program[1..]); }
  }

  /** In a program in scope every schedule already runs with all rules. */
  lemma NoLateRules(program: seq<Command>, i: nat)
    requires InScope(program) && i < |program| && program[i].RunSchedule?
    ensures RulesOf(program[..i]) == RulesOf(program)
  {
    var rest := program[i..];
    assert program == program[..i] + rest;
    RulesOfConcat(program[..i], rest);
    forall k | 0 <= k < |rest| ensures !rest[k].RuleCommand? {
      assert rest[k] == program[i + k] && (k > 0 ==> Ran(program, i + k));
    }
    NoRules(rest);
  }

  // ---------- what a program does ----------

  predicate IsEvent(c: Command) {
    c.RunSchedule? || c.Action?
  }

  function EventsIn(c: Command): seq<Command> {
    if IsEvent(c) then [c] else []
  }

  function Events(program: seq<Command>): seq<Command> {
    if program == [] then [] else EventsIn(program[0]) + Events(program[1..])
  }

  lemma {:induction false} EventsConcat(xs: seq<Command>, ys: seq<Command>)
    ensures Events(xs + ys) == Events(xs) + Events(ys)
  {
    if xs == [] {
      assert xs + ys == ys;
    } else {
      assert (xs + ys)[1..] == xs[1..] + ys;
      EventsConcat(xs[1..], ys);
      assert EventsIn(xs[0]) + (Events(xs[1..]) + Events(ys)) == (EventsIn(xs[0]) + Events(xs[1..])) + Events(ys);
    }
  }

  lemma {:induction false} NoEvents(program: seq<Command>)
    requires forall i :: 0 <= i < |program| ==> !IsEvent(program[i])
    ensures Events(program) == []
  {
    if program != [] { NoEvents(program[1..]); }
  }

  /** Schedules and actions in order; `None` when a schedule has not settled within `fuel`. */
  ghost function RunEvents<S>(leaf: (S, Config) -> Out<S>, act: (S, string) -> S, events: seq<Command>, st: S, fuel: nat): Option<S> {
    if events == [] then Some(st)
    else match events[0]
      case RunSchedule(s) =>
        var o := Exec(leaf, s, st, fuel);
        if o.None? then None else RunEvents(leaf, act, events[1..], o.value.state, fuel)
      case Action(x) => RunEvents(leaf, act, events[1..], act(st, x), fuel)
      case _ => RunEvents(leaf, act, events[1..], st, fuel)
  }

  ghost function SourceActs(s: Setting): (Tables, string) -> Tables {
    (t, x) => s.kernel.act(t, x).tables
  }

  ghost function TargetActs(s: Setting): (Marked<Tables, iset<Row>>, string) -> Marked<Tables, iset<Row>> {
    (st: Marked<Tables, iset<Row>>, x: string) => Marked(s.kernel.act(st.data, x).tables, Image(s.kernel.act(st.data, x).canon, st.view))
  }

  ghost function SourceRun(s: Setting, program: seq<Command>, t: Tables, fuel: nat): Option<Tables> {
    RunEvents(SourceLeaves(s, RulesOf(program)), SourceActs(s), Events(program), t, fuel)
  }

  ghost function TargetRun(s: Setting, program: seq<Command>, st: Marked<Tables, iset<Row>>, fuel: nat): Option<Marked<Tables, iset<Row>>>
    requires ValidMotif(s.c, s.m)
  {
    RunEvents(TargetLeaves(s, RulesOf(program)), TargetActs(s), Events(program), st, fuel)
  }

  // ---------- the transformed program ----------

  ghost function EditCommand(s: Setting, active: set<string>, c: Command): Command {
    if c.RuleCommand? then RuleCommand(Edited(s, active, c.rule)) else c
  }

  function RefreshCommand(consumers: set<string>, marker: string, c: Command): Command {
    if c.RunSchedule? then RunSchedule(BeforeRuns(c.schedule, consumers, marker)) else c
  }

  ghost function Mapped(s: Setting, active: set<string>, consumers: set<string>, c: Command): Command {
    RefreshCommand(consumers, s.marker, EditCommand(s, active, c))
  }

  ghost function MappedAll(s: Setting, active: set<string>, consumers: set<string>, program: seq<Command>): (r: seq<Command>)
    ensures |r| == |program| && forall i :: 0 <= i < |r| ==> r[i] == Mapped(s, active, consumers, program[i])
  {
    seq(|program|, i requires 0 <= i < |program| => Mapped(s, active, consumers, program[i]))
  }

  /** The view, its builder and the ruleset that refreshes it. */
  function Declarations(s: Setting): seq<Command>
    requires ValidMotif(s.c, s.m)
  {
    var types := ViewTypes(s.c, s.m);
    var fields := Fields(s.view, |types|);
    var n := if s.projected then |types| - 1 else |types|;
    [DeclareView(s.view, types[..n], s.marker), Materialise(s.marker, fields[..n], BuilderBody(s.c, s.m, Vars(fields)))]
  }

  /** An active rule in whose body the motif occurs. */
  ghost predicate ReadsView(s: Setting, active: set<string>, c: Command) {
    c.RuleCommand? && c.rule.ruleset in active && Occurs(s.m, s.projected, c.rule.body)
  }

  /** The rulesets of the rules among the first `n` commands that read the view. */
  ghost function Consumers(s: Setting, active: set<string>, program: seq<Command>, n: nat): set<string>
    requires n <= |program|
  {
    if n == 0 then {}
    else Consumers(s, active, program, n - 1) + if ReadsView(s, active, program[n - 1]) then {program[n - 1].rule.ruleset} else {}
  }

  /** Exactly the rulesets of the rules that read the view. */
  lemma {:induction false} ConsumersAre(s: Setting, active: set<string>, program: seq<Command>, n: nat, ruleset: string)
    requires n <= |program|
    ensures ruleset in Consumers(s, active, program, n) <==>
              exists i :: 0 <= i < n && ReadsView(s, active, program[i]) && program[i].rule.ruleset == ruleset
  {
    if n > 0 { ConsumersAre(s, active, program, n - 1, ruleset); }
  }

  /** A rewritten rule comes no earlier than the declarations and belongs to a consumer. */
  ghost predicate ReaderFits(s: Setting, active: set<string>, consumers: set<string>, at: nat, k: nat, c: Command) {
    c.RuleCommand? && (ReadsView(s, active, c) || Edited(s, active, c.rule) != c.rule) ==> at <= k && c.rule.ruleset in consumers
  }

  /** The declarations come right before the first rule that reads the view; without such a rule nothing is added. */
  ghost predicate IsTransformed(s: Setting, active: set<string>, consumers: set<string>, program: seq<Command>, at: nat, result: seq<Command>)
    requires ValidMotif(s.c, s.m)
  {
    var mapped := MappedAll(s, active, consumers, program);
    && at <= |program| && consumers == Consumers(s, active, program, |program|)
    && result == (if consumers == {} then mapped else mapped[..at] + Declarations(s) + mapped[at..])
    && (forall i: nat {:trigger program[i]} :: i < |program| ==> ReaderFits(s, active, consumers, at, i, program[i]))
    && (consumers != {} ==> at < |program| && ReadsView(s, active, program[at]))
  }

  // ---------- preservation ----------

  lemma {:induction false} RulesOfMapped(s: Setting, active: set<string>, consumers: set<string>, program: seq<Command>)
    ensures RulesOf(MappedAll(s, active, consumers, program)) == EditedAll(s, active, RulesOf(program))
  {
    if program != [] {
      var mapped := MappedAll(s, active, consumers, program);
      assert mapped[1..] == MappedAll(s, active, consumers, program[1..]);
      RulesOfMapped(s, active, consumers, program[1..]);
      assert mapped[0] == Mapped(s, active, consumers, program[0]);
      if program[0].RuleCommand? {
        var rules := RulesOf(program);
        assert rules == [program[0].rule] + RulesOf(program[1..]) && rules[1..] == RulesOf(program[1..]);
        assert RulesOf(mapped) == [Edited(s, active, rules[0])] + RulesOf(mapped[1..]);
      } else {
        assert RulesOf(mapped) == RulesOf(mapped[1..]) && RulesOf(program) == RulesOf(program[1..]);
      }
    }
  }

  lemma MappedConcat(s: Setting, active: set<string>, consumers: set<string>, xs: seq<Command>, ys: seq<Command>)
    ensures MappedAll(s, active, consumers, xs + ys) == MappedAll(s, active, consumers, xs) + MappedAll(s, active, consumers, ys)
  {
  }

  lemma MappedOne(s: Setting, active: set<string>, consumers: set<string>, c: Command)
    ensures MappedAll(s, active, consumers, [c]) == [Mapped(s, active, consumers, c)]
    ensures EventsIn(Mapped(s, active, consumers, c)) == MappedAll(s, active, consumers, EventsIn(c))
  {
    assert MappedAll(s, active, consumers, []) == [];
    if IsEvent(c) { assert EventsIn(c) == [c]; }
  }

  lemma {:induction false} EventsMapped(s: Setting, active: set<string>, consumers: set<string>, program: seq<Command>)
    ensures Events(MappedAll(s, active, consumers, program)) == MappedAll(s, active, consumers, Events(program))
  {
    if program != [] {
      var c, rest := program[0], program[1..];
      assert program == [c] + rest;
      MappedConcat(s, active, consumers, [c], rest);
      MappedOne(s, active, consumers, c);
      EventsConcat([Mapped(s, active, consumers, c)], MappedAll(s, active, consumers, rest));
      EventsMapped(s, active, consumers, rest);
      MappedConcat(s, active, consumers, EventsIn(c), Events(rest));
      EventsOne(Mapped(s, active, consumers, c));
    }
  }

  lemma EventsOne(c: Command)
    ensures Events([c]) == EventsIn(c)
  {
    assert [c][1..] == [];
  }

  lemma DeclarationsAreSilent(s: Setting)
    requires ValidMotif(s.c, s.m)
    ensures RulesOf(Declarations(s)) == [] && Events(Declarations(s)) == []
  {
    NoRules(Declarations(s));
    NoEvents(Declarations(s));
  }

  lemma ResultParts(s: Setting, active: set<string>, consumers: set<string>, program: seq<Command>, at: nat, result: seq<Command>)
    requires ValidMotif(s.c, s.m) && IsTransformed(s, active, consumers, program, at, result)
    ensures RulesOf(result) == EditedAll(s, active, RulesOf(program))
    ensures Events(result) == MappedAll(s, active, consumers, Events(program))
  {
    var mapped := MappedAll(s, active, consumers, program);
    RulesOfMapped(s, active, consumers, program);
    EventsMapped(s, active, consumers, program);
    if consumers != {} {
      DeclarationsAreSilent(s);
      SilentBetween(mapped, at, Declarations(s));
    }
  }

  /** Commands that are neither rules nor events can be put anywhere. */
  lemma SilentBetween(commands: seq<Command>, at: nat, extra: seq<Command>)
    requires at <= |commands| && RulesOf(extra) == [] && Events(extra) == []
    ensures RulesOf(commands[..at] + extra + commands[at..]) == RulesOf(commands)
    ensures Events(commands[..at] + extra + commands[at..]) == Events(commands)
  {
    var x, y := commands[..at], commands[at..];
    assert commands == x + y;
    RulesOfConcat(x, extra);
    RulesOfConcat(x + extra, y);
    RulesOfConcat(x, y);
    EventsConcat(x, extra);
    EventsConcat(x + extra, y);
    EventsConcat(x, y);
  }

  ghost predicate EventsAvoid(s: Setting, events: seq<Command>) {
    forall i :: 0 <= i < |events| && events[i].RunSchedule? ==> Avoids(events[i].schedule, s.marker)
  }

  /** The transformed events follow a run of the source events. */
  lemma {:induction false} EventsFollow(s: Setting, active: set<string>, consumers: set<string>, rules: seq<Rule>, events: seq<Command>,
                                       t: Tables, rows: iset<Row>, fuel: nat)
    requires SettingFits(s) && RulesFit(s, active, consumers, rules) && EventsAvoid(s, events) && Valid(s.c, s.m, s.projected, t, rows)
    requires RunEvents(SourceLeaves(s, rules), SourceActs(s), events, t, fuel).Some?
    ensures var a := RunEvents(SourceLeaves(s, rules), SourceActs(s), events, t, fuel).value;
            var b := RunEvents(TargetLeaves(s, EditedAll(s, active, rules)), TargetActs(s),
                               MappedAll(s, active, consumers, events), Marked(t, rows), fuel + 1);
            b.Some? && b.value.data == a && Valid(s.c, s.m, s.projected, a, b.value.view)
    decreases |events|
  {
    if events != [] {
      var now := MappedAll(s, active, consumers, events);
      assert now[1..] == MappedAll(s, active, consumers, events[1..]);
      match events[0]
      case RunSchedule(sched) =>
        var p := Leaves(s, active, consumers, rules);
        LeavesSound(s, active, consumers, rules);
        Simulate(p, sched, t, rows, fuel);
        var mid := Exec(p.target, BeforeRuns(sched, consumers, s.marker), Marked(t, rows), fuel + 1).value.state;
        EventsFollow(s, active, consumers, rules, events[1..], mid.data, mid.view, fuel);
      case Action(x) =>
        var e := s.kernel.act(t, x);
        JoinGrows(s.c, s.m, s.projected, t, e, rows);
        EventsFollow(s, active, consumers, rules, events[1..], e.tables, Image(e.canon, rows), fuel);
      case _ =>
        EventsFollow(s, active, consumers, rules, events[1..], t, rows, fuel);
    }
  }

  /** A run of the transformed events comes from one of the source events. */
  lemma {:induction false} EventsReflect(s: Setting, active: set<string>, consumers: set<string>, rules: seq<Rule>, events: seq<Command>,
                                        t: Tables, rows: iset<Row>, fuel: nat)
    requires SettingFits(s) && RulesFit(s, active, consumers, rules) && EventsAvoid(s, events) && Valid(s.c, s.m, s.projected, t, rows)
    requires RunEvents(TargetLeaves(s, EditedAll(s, active, rules)), TargetActs(s),
                       MappedAll(s, active, consumers, events), Marked(t, rows), fuel).Some?
    ensures var a := RunEvents(SourceLeaves(s, rules), SourceActs(s), events, t, fuel);
            var b := RunEvents(TargetLeaves(s, EditedAll(s, active, rules)), TargetActs(s),
                               MappedAll(s, active, consumers, events), Marked(t, rows), fuel).value;
            a.Some? && b.data == a.value && Valid(s.c, s.m, s.projected, a.value, b.view)
    decreases |events|
  {
    if events != [] {
      var now := MappedAll(s, active, consumers, events);
      assert now[1..] == MappedAll(s, active, consumers, events[1..]);
      match events[0]
      case RunSchedule(sched) =>
        var p := Leaves(s, active, consumers, rules);
        LeavesSound(s, active, consumers, rules);
        Reflect(p, sched, t, rows, fuel);
        var mid := Exec(p.target, BeforeRuns(sched, consumers, s.marker), Marked(t, rows), fuel).value.state;
        EventsReflect(s, active, consumers, rules, events[1..], mid.data, mid.view, fuel);
      case Action(x) =>
        var e := s.kernel.act(t, x);
        JoinGrows(s.c, s.m, s.projected, t, e, rows);
        EventsReflect(s, active, consumers, rules, events[1..], e.tables, Image(e.canon, rows), fuel);
      case _ =>
        EventsReflect(s, active, consumers, rules, events[1..], t, rows, fuel);
    }
  }

  /** The program names neither the view nor its ruleset, and is in scope. */
  ghost predicate ProgramFits(s: Setting, active: set<string>, consumers: set<string>, program: seq<Command>) {
    && SettingFits(s) && RulesFit(s, active, consumers, RulesOf(program)) && EventsAvoid(s, Events(program))
  }

  /** The transformed program terminates exactly when the source does, with the same original tables. */
  lemma ProgramPreserved(s: Setting, active: set<string>, consumers: set<string>, program: seq<Command>, at: nat, result: seq<Command>, t: Tables)
    requires ProgramFits(s, active, consumers, program) && IsTransformed(s, active, consumers, program, at, result) && Present(s.m, t)
    ensures (exists f: nat :: SourceRun(s, program, t, f).Some?) <==> (exists f: nat :: TargetRun(s, result, Marked(t, iset{}), f).Some?)
    ensures forall f: nat, g: nat :: SourceRun(s, program, t, f).Some? && TargetRun(s, result, Marked(t, iset{}), g).Some? ==>
              TargetRun(s, result, Marked(t, iset{}), g).value.data == SourceRun(s, program, t, f).value
  {
    ResultParts(s, active, consumers, program, at, result);
    var rules, events := RulesOf(program), Events(program);
    if f: nat :| SourceRun(s, program, t, f).Some? {
      EventsFollow(s, active, consumers, rules, events, t, iset{}, f);
      assert TargetRun(s, result, Marked(t, iset{}), f + 1).Some?;
    }
    if f: nat :| TargetRun(s, result, Marked(t, iset{}), f).Some? {
      EventsReflect(s, active, consumers, rules, events, t, iset{}, f);
      assert SourceRun(s, program, t, f).Some?;
    }
    forall f: nat, g: nat | SourceRun(s, program, t, f).Some? && TargetRun(s, result, Marked(t, iset{}), g).Some?
      ensures TargetRun(s, result, Marked(t, iset{}), g).value.data == SourceRun(s, program, t, f).value
    {
      EventsReflect(s, active, consumers, rules, events, t, iset{}, g);
      MoreFuelEvents(SourceLeaves(s, rules), SourceActs(s), events, t, f, if f < g then g else f);
      MoreFuelEvents(SourceLeaves(s, rules), SourceActs(s), events, t, g, if f < g then g else f);
    }
  }

  lemma {:induction false} MoreFuelEvents<S>(leaf: (S, Config) -> Out<S>, act: (S, string) -> S, events: seq<Command>, st: S, f: nat, g: nat)
    requires f <= g && RunEvents(leaf, act, events, st, f).Some?
    ensures RunEvents(leaf, act, events, st, g) == RunEvents(leaf, act, events, st, f)
    decreases |events|
  {
    if events != [] {
      match events[0]
      case RunSchedule(s) =>
        MoreFuel(leaf, s, st, f, g);
        MoreFuelEvents(leaf, act, events[1..], Exec(leaf, s, st, f).value.state, f, g);
      case Action(x) => MoreFuelEvents(leaf, act, events[1..], act(st, x), f, g);
      case _ => MoreFuelEvents(leaf, act, events[1..], st, f, g);
    }
  }

  // ---------- the transformation itself ----------

  predicate Contains(text: string, sub: string) {
    exists i: nat | i <= |text| :: At(text, sub, i)
  }

  predicate At(text: string, sub: string, i: nat) {
    i + |sub| <= |text| && text[i..i + |sub|] == sub
  }

  /** A name that does not occur in the program text. */
  method FreshName(text: string) returns (name: string)
    ensures !Contains(text, name) && "__RipView" <= name
  {
    name := "__RipView";
    while Contains(text, name)
      invariant "__RipView" <= name
      decreases |text| - |name|
    {
      name := name + "_";
    }
  }

  lemma PrefixOccurs(text: string, sub: string, x: string)
    requires Contains(text, x) && sub <= x
    ensures Contains(text, sub)
  {
    var i: nat :| i <= |text| && At(text, x, i);
    assert text[i..i + |sub|] == x[..|sub|];
    assert At(text, sub, i);
  }

  predicate NamesOccur(text: string, e: Expr) {
    match e
    case Var(x) => Contains(text, x)
    case Lit(_) => true
    case Call(op, args) => Contains(text, op) && forall i :: 0 <= i < |args| ==> NamesOccur(text, args[i])
  }

  predicate FactOccurs(text: string, f: Fact) {
    match f case Eq(l, r) => NamesOccur(text, l) && NamesOccur(text, r) case Holds(e) => NamesOccur(text, e)
  }

  predicate RuleOccurs(text: string, r: Rule) {
    && Contains(text, r.ruleset) && (forall x :: x in r.scope ==> Contains(text, x))
    && forall f :: f in r.body ==> FactOccurs(text, f)
  }

  predicate ScheduleOccurs(text: string, s: Schedule) {
    match s
    case Run(config) => Contains(text, config.ruleset)
    case Repeat(_, body) => ScheduleOccurs(text, body)
    case Saturate(body) => ScheduleOccurs(text, body)
    case Sequence(children) => forall i :: 0 <= i < |children| ==> ScheduleOccurs(text, children[i])
  }

  lemma {:induction false} FreshExpr(text: string, view: string, e: Expr)
    requires !Contains(text, view) && NamesOccur(text, e)
    ensures KnownExpr(view + "Binding", 0, e) && Unread(view, e)
    decreases e
  {
    match e
    case Var(x) =>
      if view + "Binding" <= x {
        assert view <= x;
        PrefixOccurs(text, view, x);
        assert false;
      }
    case Lit(_) =>
    case Call(op, args) =>
      if op == view { PrefixOccurs(text, view, op); }
      forall i | 0 <= i < |args| ensures KnownExpr(view + "Binding", 0, args[i]) && Unread(view, args[i]) {
        FreshExpr(text, view, args[i]);
      }
  }

  lemma {:induction false} FreshSchedule(text: string, view: string, s: Schedule)
    requires !Contains(text, view) && ScheduleOccurs(text, s) && NoUntil(s)
    ensures Avoids(s, view + "Build")
    decreases s
  {
    match s
    case Run(config) => if config.ruleset == view + "Build" { PrefixOccurs(text, view, config.ruleset); }
    case Repeat(_, body) => FreshSchedule(text, view, body);
    case Saturate(body) => FreshSchedule(text, view, body);
    case Sequence(children) =>
      forall i | 0 <= i < |children| ensures Avoids(children[i], view + "Build") { FreshSchedule(text, view, children[i]); }
  }

  /** A view name that does not occur in the text makes every rule of the program fit. */
  lemma FreshRule(s: Setting, active: set<string>, consumers: set<string>, text: string, r: Rule)
    requires !Contains(text, s.view) && s.prefix == s.view + "Binding" && s.marker == s.view + "Build"
    requires RuleOccurs(text, r) && (forall f :: f in r.body ==> WellFormedFact(s.c, f))
    requires Edited(s, active, r) != r ==> r.ruleset in consumers
    ensures RuleFits(s, active, consumers, r)
  {
    forall f | f in r.body ensures KnownFact(s.prefix, 0, f) && UnreadFact(s.view, f) {
      match f
      case Eq(x, y) => FreshExpr(text, s.view, x); FreshExpr(text, s.view, y);
      case Holds(e) => FreshExpr(text, s.view, e);
    }
    forall x | x in r.scope ensures !(s.prefix <= x) {
      if s.prefix <= x {
        assert s.view <= x;
        PrefixOccurs(text, s.view, x);
        assert false;
      }
    }
    if r.ruleset == s.marker { PrefixOccurs(text, s.view, r.ruleset); }
  }

  /** Rewrites one rule in place and counts the occurrences. */
  method EditRule(m: Motif, view: string, prefix: string, projected: bool, r: Rule) returns (n: nat, edited: Rule)
    ensures edited == r.(body := RewriteBody(m, view, prefix, projected, r.body)) && (n > 0 <==> Occurs(m, projected, r.body))
    ensures n == 0 ==> edited == r
  {
    var rule := new EditedRule(r.ruleset, r.body);
    n := rule.Rewrite(m, view, prefix, projected);
    edited := r.(body := rule.body);
  }

  /** The first `n` commands, with their rules edited. */
  ghost function EditCommands(s: Setting, active: set<string>, program: seq<Command>, n: nat): (r: seq<Command>)
    requires n <= |program|
    ensures |r| == n && forall i :: 0 <= i < |r| ==> r[i] == EditCommand(s, active, program[i])
  {
    seq(n, i requires 0 <= i < n => EditCommand(s, active, program[i]))
  }

  /** `extra` put into `commands` at position `at`. */
  function Inserted(commands: seq<Command>, at: nat, extra: seq<Command>): seq<Command>
    requires at <= |commands|
  {
    commands[..at] + extra + commands[at..]
  }

  /** The first pass over `i` commands: rules edited, declarations in front of the first reader of the view. */
  ghost predicate Edits(s: Setting, active: set<string>, consumers: set<string>, program: seq<Command>, i: nat, at: nat, result: seq<Command>)
    requires ValidMotif(s.c, s.m) && i <= |program|
  {
    && Readers(s, active, consumers, program, i, at)
    && result == Inserted(EditCommands(s, active, program, i), at, if consumers == {} then [] else Declarations(s))
  }

  ghost predicate Readers(s: Setting, active: set<string>, consumers: set<string>, program: seq<Command>, i: nat, at: nat)
    requires i <= |program|
  {
    && at <= i && consumers == Consumers(s, active, program, i) && (consumers == {} ==> at == i)
    && (forall k: nat {:trigger ReaderFits(s, active, consumers, at, k, program[k])} :: k < i ==> ReaderFits(s, active, consumers, at, k, program[k]))
    && (consumers != {} ==> at < i && ReadsView(s, active, program[at]))
  }

  lemma InsertedAppend(commands: seq<Command>, at: nat, extra: seq<Command>, c: Command)
    requires at <= |commands|
    ensures Inserted(commands + [c], at, extra) == Inserted(commands, at, extra) + [c]
  {
    assert (commands + [c])[..at] == commands[..at] && (commands + [c])[at..] == commands[at..] + [c];
  }

  lemma EditCommandsNext(s: Setting, active: set<string>, program: seq<Command>, i: nat)
    requires i < |program|
    ensures EditCommands(s, active, program, i + 1) == EditCommands(s, active, program, i) + [EditCommand(s, active, program[i])]
  {
  }

  /** A command that does not start reading the view. */
  lemma ReadersOn(s: Setting, active: set<string>, consumers: set<string>, program: seq<Command>, i: nat, at: nat)
    requires i < |program| && Readers(s, active, consumers, program, i, at)
    requires consumers == {} ==> !ReadsView(s, active, program[i])
    requires !ReadsView(s, active, program[i]) ==> EditCommand(s, active, program[i]) == program[i]
    ensures var more := Consumers(s, active, program, i + 1);
            (more == {} <==> consumers == {}) && Readers(s, active, more, program, i + 1, if more == {} then i + 1 else at)
  {
    var more := Consumers(s, active, program, i + 1);
    forall k: nat | k < i + 1 ensures ReaderFits(s, active, more, if more == {} then i + 1 else at, k, program[k]) {
      if k < i { assert ReaderFits(s, active, consumers, at, k, program[k]); }
    }
  }

  lemma EditsOn(s: Setting, active: set<string>, consumers: set<string>, program: seq<Command>, i: nat, at: nat, result: seq<Command>)
    requires ValidMotif(s.c, s.m) && i < |program| && Edits(s, active, consumers, program, i, at, result)
    requires consumers == {} ==> !ReadsView(s, active, program[i])
    requires !ReadsView(s, active, program[i]) ==> EditCommand(s, active, program[i]) == program[i]
    ensures var more := Consumers(s, active, program, i + 1);
            Edits(s, active, more, program, i + 1, if more == {} then i + 1 else at, result + [EditCommand(s, active, program[i])])
  {
    ReadersOn(s, active, consumers, program, i, at);
    EditCommandsNext(s, active, program, i);
    TextOn(EditCommands(s, active, program, i), at, if consumers == {} then [] else Declarations(s), EditCommand(s, active, program[i]));
  }

  lemma TextOn(commands: seq<Command>, at: nat, extra: seq<Command>, c: Command)
    requires at <= |commands|
    ensures Inserted(commands + [c], at, extra) == Inserted(commands, at, extra) + [c]
    ensures extra == [] ==> Inserted(commands + [c], |commands| + 1, extra) == Inserted(commands, at, extra) + [c]
  {
    InsertedAppend(commands, at, extra, c);
    assert (commands + [c])[..|commands| + 1] == commands + [c];
    assert commands[..at] + commands[at..] == commands;
  }

  /** The first rule that reads the view. */
  lemma EditsStart(s: Setting, active: set<string>, program: seq<Command>, i: nat, at: nat, result: seq<Command>)
    requires ValidMotif(s.c, s.m) && i < |program| && Edits(s, active, {}, program, i, at, result) && ReadsView(s, active, program[i])
    ensures Edits(s, active, {program[i].rule.ruleset}, program, i + 1, i, result + Declarations(s) + [EditCommand(s, active, program[i])])
  {
    var e := EditCommands(s, active, program, i);
    var c := EditCommand(s, active, program[i]);
    EditCommandsNext(s, active, program, i);
    assert e[..i] == e && Inserted(e, i, []) == e;
    assert (e + [c])[..i] == e && (e + [c])[i..] == [c];
    forall k: nat | k < i + 1 ensures ReaderFits(s, active, {program[i].rule.ruleset}, i, k, program[k]) {
      if k < i { assert ReaderFits(s, active, {}, at, k, program[k]); }
    }
  }

  /** The rewritten rules, with the declarations in front of the first reader of the view. */
  method EditRules(ghost s: Setting, program: seq<Command>, active: set<string>, declarations: seq<Command>,
                   m: Motif, view: string, prefix: string, projected: bool)
    returns (result: seq<Command>, consumers: set<string>, ghost at: nat)
    requires ValidMotif(s.c, s.m) && declarations == Declarations(s)
    requires s.m == m && s.view == view && s.prefix == prefix && s.projected == projected
    ensures Edits(s, active, consumers, program, |program|, at, result)
  {
    result, consumers, at := [], {}, 0;
    for i := 0 to |program|
      invariant Edits(s, active, consumers, program, i, at, result)
    {
      result, consumers, at := EditNext(s, program, active, declarations, m, view, prefix, projected, i, at, result, consumers);
    }
  }

  /** One command of the first pass. */
  method EditNext(ghost s: Setting, program: seq<Command>, active: set<string>, declarations: seq<Command>,
                  m: Motif, view: string, prefix: string, projected: bool, i: nat, ghost at: nat, before: seq<Command>, readers: set<string>)
    returns (result: seq<Command>, consumers: set<string>, ghost to: nat)
    requires ValidMotif(s.c, s.m) && declarations == Declarations(s) && i < |program|
    requires s.m == m && s.view == view && s.prefix == prefix && s.projected == projected
    requires Edits(s, active, readers, program, i, at, before)
    ensures Edits(s, active, consumers, program, i + 1, to, result)
  {
    var n, c := EditOne(s, active, m, view, prefix, projected, program[i]);
    result, consumers, to := Append(s, program, active, declarations, i, at, before, readers, n, c);
  }

  method EditOne(ghost s: Setting, active: set<string>, m: Motif, view: string, prefix: string, projected: bool, c: Command)
    returns (n: nat, edited: Command)
    requires s.m == m && s.view == view && s.prefix == prefix && s.projected == projected
    ensures edited == EditCommand(s, active, c) && (n > 0 <==> ReadsView(s, active, c)) && (n == 0 ==> edited == c)
  {
    n, edited := 0, c;
    if c.RuleCommand? && c.rule.ruleset in active {
      var rule;
      n, rule := EditRule(m, view, prefix, projected, c.rule);
      edited := RuleCommand(rule);
    }
  }

  /** One command of the first pass, after `n` rewrites. */
  method Append(ghost s: Setting, program: seq<Command>, ghost active: set<string>, declarations: seq<Command>, i: nat, ghost at: nat,
                before: seq<Command>, readers: set<string>, n: nat, c: Command)
    returns (result: seq<Command>, consumers: set<string>, ghost to: nat)
    requires ValidMotif(s.c, s.m) && declarations == Declarations(s) && i < |program|
    requires Edits(s, active, readers, program, i, at, before) && c == EditCommand(s, active, program[i])
    requires (n > 0 <==> ReadsView(s, active, program[i])) && (n == 0 ==> c == program[i])
    ensures Edits(s, active, consumers, program, i + 1, to, result)
  {
    if n > 0 && readers == {} {
      EditsStart(s, active, program, i, at, before);
      return before + declarations + [c], {program[i].rule.ruleset}, i;
    }
    consumers := if n > 0 then readers + {program[i].rule.ruleset} else readers;
    EditsOn(s, active, readers, program, i, at, before);
    result, to := before + [c], if consumers == {} then i + 1 else at;
  }

  function RefreshAll(consumers: set<string>, marker: string, commands: seq<Command>): (r: seq<Command>)
    ensures |r| == |commands| && forall i :: 0 <= i < |r| ==> r[i] == RefreshCommand(consumers, marker, commands[i])
  {
    seq(|commands|, i requires 0 <= i < |commands| => RefreshCommand(consumers, marker, commands[i]))
  }

  lemma RefreshInserted(s: Setting, active: set<string>, consumers: set<string>, program: seq<Command>, at: nat, extra: seq<Command>)
    requires at <= |program| && forall i :: 0 <= i < |extra| ==> !extra[i].RunSchedule?
    ensures RefreshAll(consumers, s.marker, Inserted(EditCommands(s, active, program, |program|), at, extra)) ==
              Inserted(MappedAll(s, active, consumers, program), at, extra)
  {
  }

  /** The second pass: a refresh before every consumer. */
  method RefreshSchedules(commands: seq<Command>, consumers: set<string>, marker: string) returns (result: seq<Command>)
    ensures result == RefreshAll(consumers, marker, commands)
  {
    result := commands;
    for i := 0 to |result|
      invariant |result| == |commands|
      invariant forall k :: 0 <= k < i ==> result[k] == RefreshCommand(consumers, marker, commands[k])
      invariant forall k :: i <= k < |result| ==> result[k] == commands[k]
    {
      if result[i].RunSchedule? {
        result := result[i := RunSchedule(BeforeRuns(result[i].schedule, consumers, marker))];
      }
    }
    assert result == RefreshAll(consumers, marker, commands);
  }

  /** Some active rule nests the motif, and all of them do so only at the roots of facts. */
  predicate RootsOnly(m: Motif, program: seq<Command>, active: set<string>) {
    && (exists i :: 0 <= i < |program| && NestsIn(m, active, program[i]))
    && (forall i :: 0 <= i < |program| ==> RootsIn(m, active, program[i]))
  }

  predicate NestsIn(m: Motif, active: set<string>, c: Command) {
    c.RuleCommand? && c.rule.ruleset in active && exists k :: 0 <= k < |c.rule.body| && !CleanFact(m, c.rule.body[k])
  }

  predicate RootsIn(m: Motif, active: set<string>, c: Command) {
    c.RuleCommand? && c.rule.ruleset in active ==> forall k :: 0 <= k < |c.rule.body| ==> OnlyAtRoot(m, c.rule.body[k])
  }

  /** Whether the view can leave out the value of the outer constructor. */
  method Projects(m: Motif, program: seq<Command>, active: set<string>) returns (projected: bool)
    ensures projected <==> RootsOnly(m, program, active)
    ensures projected ==> m.Nested?
  {
    var total, roots := 0, 0;
    for i := 0 to |program|
      invariant 0 <= roots <= total && (total == roots <==> forall k :: 0 <= k < i ==> RootsIn(m, active, program[k]))
      invariant total > 0 <==> exists k :: 0 <= k < i && NestsIn(m, active, program[k])
    {
      var c := program[i];
      if c.RuleCommand? && c.rule.ruleset in active {
        var t, r := Tally(m, c.rule.body);
        total, roots := total + t, roots + r;
      }
    }
    projected := m.Nested? && total > 0 && total == roots;
    if m.Shared? && exists k :: 0 <= k < |program| && NestsIn(m, active, program[k]) {
      var k :| 0 <= k < |program| && NestsIn(m, active, program[k]);
      var j :| 0 <= j < |program[k].rule.body| && !CleanFact(m, program[k].rule.body[j]);
      SharedNestsNothing(m, program[k].rule.body[j]);
    }
  }

  lemma SharedNestsNothing(m: Motif, f: Fact)
    requires m.Shared?
    ensures CleanFact(m, f)
  {
    match f
    case Eq(l, r) => SharedIsClean(m, l); SharedIsClean(m, r);
    case Holds(e) => SharedIsClean(m, e);
  }

  lemma {:induction false} SharedIsClean(m: Motif, e: Expr)
    requires m.Shared?
    ensures Clean(m, e)
    decreases e
  {
    if e.Call? {
      forall i | 0 <= i < |e.args| ensures Clean(m, e.args[i]) { SharedIsClean(m, e.args[i]); }
    }
  }

  /** No active rule of the transformed program has an occurrence left, at any depth. */
  lemma NoOccurrenceLeft(s: Setting, program: seq<Command>, active: set<string>, i: nat)
    requires s.projected <==> RootsOnly(s.m, program, active)
    requires i < |program| && program[i].RuleCommand? && program[i].rule.ruleset in active
    requires s.m.Nested? ==> s.view != s.m.outer
    ensures !Occurs(s.m, false, Edited(s, active, program[i].rule).body)
  {
    assert s.projected ==> RootsIn(s.m, active, program[i]);
    NothingLeft(s.m, s.view, s.prefix, s.projected, program[i].rule.body);
  }

  /** The names that the transformation derives from the view. */
  ghost function SettingFor(kernel: Kernel, c: Schemas, m: Motif, projected: bool, view: string): Setting {
    Setting(kernel, c, m, projected, view, view + "Binding", view + "Build")
  }

  /** The transformed program, the name of the view, whether it is projected, and the consumers. */
  method Transform(c: Schemas, m: Motif, program: seq<Command>, active: set<string>, text: string, ghost kernel: Kernel)
    returns (result: seq<Command>, view: string, projected: bool, consumers: set<string>)
    requires ValidMotif(c, m)
    ensures !Contains(text, view) && (projected <==> RootsOnly(m, program, active)) && (projected ==> m.Nested?)
    ensures exists at: nat :: IsTransformed(SettingFor(kernel, c, m, projected, view), active, consumers, program, at, result)
  {
    view := FreshName(text);
    projected := Projects(m, program, active);
    var marker, prefix := view + "Build", view + "Binding";
    ghost var s := SettingFor(kernel, c, m, projected, view);
    var fields, types, body := MotifVariables(c, m, view);
    var n := if projected then |types| - 1 else |types|;
    var declarations := [DeclareView(view, types[..n], marker), Materialise(marker, fields[..n], body)];
    var edited;
    ghost var at;
    edited, consumers, at := EditRules(s, program, active, declarations, m, view, prefix, projected);
    result := RefreshSchedules(edited, consumers, marker);
    EditedThenRefreshed(s, active, consumers, program, at, edited, result);
  }

  lemma EditedThenRefreshed(s: Setting, active: set<string>, consumers: set<string>, program: seq<Command>, at: nat,
                            edited: seq<Command>, result: seq<Command>)
    requires ValidMotif(s.c, s.m) && Edits(s, active, consumers, program, |program|, at, edited)
    requires result == RefreshAll(consumers, s.marker, edited)
    ensures IsTransformed(s, active, consumers, program, at, result)
  {
    RefreshInserted(s, active, consumers, program, at, if consumers == {} then [] else Declarations(s));
    var mapped := MappedAll(s, active, consumers, program);
    assert consumers == {} ==> Inserted(mapped, at, []) == mapped;
    forall i: nat | i < |program| ensures ReaderFits(s, active, consumers, at, i, program[i]) {}
  }

  /** Everything together: what `Transform` returns preserves the source program. */
  lemma TransformPreserves(s: Setting, active: set<string>, consumers: set<string>, program: seq<Command>, at: nat, result: seq<Command>,
                           text: string, t: Tables)
    requires SettingFits(s) && InScope(program) && IsTransformed(s, active, consumers, program, at, result) && Present(s.m, t)
    requires !Contains(text, s.view) && s.prefix == s.view + "Binding" && s.marker == s.view + "Build"
    requires forall i :: 0 <= i < |program| && program[i].RuleCommand? ==>
               RuleOccurs(text, program[i].rule) && forall f :: f in program[i].rule.body ==> WellFormedFact(s.c, f)
    requires forall i :: 0 <= i < |program| && program[i].RunSchedule? ==> ScheduleOccurs(text, program[i].schedule)
    ensures (exists f: nat :: SourceRun(s, program, t, f).Some?) <==> (exists f: nat :: TargetRun(s, result, Marked(t, iset{}), f).Some?)
    ensures forall f: nat, g: nat :: SourceRun(s, program, t, f).Some? && TargetRun(s, result, Marked(t, iset{}), g).Some? ==>
              TargetRun(s, result, Marked(t, iset{}), g).value.data == SourceRun(s, program, t, f).value
  {
    forall r | r in RulesOf(program) ensures RuleFits(s, active, consumers, r) {
      var i := RuleAt(program, r);
      FreshRule(s, active, consumers, text, r);
    }
    var events := Events(program);
    forall k | 0 <= k < |events| && events[k].RunSchedule? ensures Avoids(events[k].schedule, s.marker) {
      var i := EventAt(program, events[k]);
      FreshSchedule(text, s.view, program[i].schedule);
    }
    ProgramPreserved(s, active, consumers, program, at, result, t);
  }

  lemma {:induction false} RuleAt(program: seq<Command>, r: Rule) returns (i: nat)
    requires r in RulesOf(program)
    ensures i < |program| && program[i] == RuleCommand(r)
  {
    if program[0] == RuleCommand(r) { return 0; }
    i := RuleAt(program[1..], r);
    i := i + 1;
  }

  lemma {:induction false} EventAt(program: seq<Command>, c: Command) returns (i: nat)
    requires c in Events(program)
    ensures i < |program| && program[i] == c
  {
    if program[0] == c { return 0; }
    i := EventAt(program[1..], c);
    i := i + 1;
  }
}
