/**
 * The rules of the source transformation of examples/eggcc_marker.rs: rule bodies
 * read a view, and a builder rule maintains it.  `LeavesSound`: in both programs
 * refreshed consumers and all other rulesets fire on the same matches.
 */
module MarkerTransform {
  import opened Wrappers
  import opened FactQueries
  import opened MarkerRewrite
  import opened MarkerView
  import opened MarkerSchedule

  datatype Rule = Rule(ruleset: string, name: string, body: seq<Fact>, scope: set<string>)

  datatype Command =
    | RuleCommand(rule: Rule)
    | Schema(text: string)
    | Unsupported(text: string)
    | RunSchedule(schedule: Schedule)
    | Action(text: string)
    | Other(text: string)
    | DeclareView(name: string, types: seq<string>, ruleset: string)
    | Materialise(ruleset: string, fields: seq<string>, facts: seq<Fact>)

  // ---------- the engine ----------

  /** New tables, whether anything changed, and the canonical value of every old value. */
  datatype Effect = Effect(tables: Tables, changed: bool, canon: map<Value, Value>)

  /** Values that no union touched stand for themselves. */
  function Canon(canon: map<Value, Value>, v: Value): Value {
    if v in canon then canon[v] else v
  }

  /** Actions fire on the matches of the rules of a ruleset; commands act on the tables. */
  datatype Kernel = Kernel(prim: (string, Row) -> Option<Value>,
                           fire: (Tables, string, seq<iset<Env>>) -> Effect,
                           act: (Tables, string) -> Effect)

  datatype Setting = Setting(kernel: Kernel, c: Schemas, m: Motif, projected: bool, view: string, prefix: string, marker: string)

  ghost function StoreOf(s: Setting, t: Tables, rows: iset<Row>): Store {
    Store(t, s.kernel.prim, s.view, rows)
  }

  function MapRow(canon: map<Value, Value>, row: Row): (r: Row)
    ensures |r| == |row| && forall k :: 0 <= k < |row| ==> r[k] == Canon(canon, row[k])
  {
    seq(|row|, k requires 0 <= k < |row| => Canon(canon, row[k]))
  }

  ghost function Image(canon: map<Value, Value>, rows: iset<Row>): iset<Row> {
    iset r: Row | InImage(canon, rows, r)
  }

  ghost predicate InImage(canon: map<Value, Value>, rows: iset<Row>, r: Row) {
    exists row :: row in rows && r == MapRow(canon, row)
  }

  /** A table keeps its rows, up to canonical values. */
  ghost predicate Keeps(before: Tables, e: Effect, op: string) {
    op in before ==> op in e.tables && forall key :: key in before[op] ==>
      MapRow(e.canon, key) in e.tables[op] && e.tables[op][MapRow(e.canon, key)] == Canon(e.canon, before[op][key])
  }

  /** The motif's tables only grow; an effect without change is the identity. */
  ghost predicate Monotone(m: Motif, before: Tables, e: Effect) {
    && Keeps(before, e, if m.Nested? then m.outer else m.a)
    && Keeps(before, e, if m.Nested? then m.inner else m.b)
    && (!e.changed ==> e.tables == before && e.canon == map[])
  }

  ghost predicate MonotoneKernel(s: Setting) {
    && (forall t, r, ms {:trigger s.kernel.fire(t, r, ms)} :: Monotone(s.m, t, s.kernel.fire(t, r, ms)))
    && forall t, x {:trigger s.kernel.act(t, x)} :: Monotone(s.m, t, s.kernel.act(t, x))
  }

  ghost function RuleMatches(st: Store, rules: seq<Rule>, ruleset: string): seq<iset<Env>> {
    if rules == [] then []
    else if rules[0].ruleset == ruleset then [Matches(st, rules[0].body, rules[0].scope)] + RuleMatches(st, rules[1..], ruleset)
    else RuleMatches(st, rules[1..], ruleset)
  }

  /** One native run of a ruleset. */
  ghost function Leaf(s: Setting, rules: seq<Rule>, st: Marked<Tables, iset<Row>>, config: Config): Out<Marked<Tables, iset<Row>>> {
    var store := StoreOf(s, st.data, st.view);
    if config.until.Some? && exists env: Env :: BodyHolds(store, config.until.value, env) then Out(st, false)
    else
      var e := s.kernel.fire(st.data, config.ruleset, RuleMatches(store, rules, config.ruleset));
      Out(Marked(e.tables, Image(e.canon, st.view)), e.changed)
  }

  /** Rows that the builder rule emits. */
  ghost function Built(s: Setting, t: Tables): iset<Row>
    requires ValidMotif(s.c, s.m)
  {
    iset row: Row | IsBuilt(s, t, row)
  }

  ghost predicate IsBuilt(s: Setting, t: Tables, row: Row)
    requires ValidMotif(s.c, s.m)
  {
    exists env: Env :: Emits(s.c, StoreOf(s, t, iset{}), s.m, s.view, s.projected, row, env)
  }

  ghost function SourceLeaf(s: Setting, rules: seq<Rule>, t: Tables, config: Config): Out<Tables> {
    var o := Leaf(s, rules, Marked(t, iset{}), config);
    Out(o.state.data, o.updated)
  }

  ghost function TargetLeaf(s: Setting, rules: seq<Rule>, st: Marked<Tables, iset<Row>>, config: Config): Out<Marked<Tables, iset<Row>>>
    requires ValidMotif(s.c, s.m)
  {
    if config.ruleset == s.marker then
      var rows := st.view + Built(s, st.data);
      Out(Marked(st.data, rows), rows != st.view)
    else Leaf(s, rules, st, config)
  }

  // ---------- the view under engine steps ----------

  ghost predicate Present(m: Motif, t: Tables) {
    match m case Nested(outer, _, inner) => outer in t && inner in t case Shared(a, _, b, _) => a in t && b in t
  }

  /** The view holds some rows of the join. */
  ghost predicate Valid(c: Schemas, m: Motif, projected: bool, t: Tables, rows: iset<Row>)
    requires ValidMotif(c, m)
  {
    Present(m, t) && rows <= Join(c, t, m, projected)
  }

  lemma MapConcat(canon: map<Value, Value>, x: Row, y: Row)
    ensures MapRow(canon, x + y) == MapRow(canon, x) + MapRow(canon, y)
  {
  }

  lemma MapParts(canon: map<Value, Value>, row: Row, i: nat)
    requires i <= |row|
    ensures MapRow(canon, row[..i]) == MapRow(canon, row)[..i] && MapRow(canon, row[i..]) == MapRow(canon, row)[i..]
  {
  }

  lemma MapThree(canon: map<Value, Value>, x: Row, y: Row, z: Row)
    ensures MapRow(canon, x + y + z) == MapRow(canon, x) + MapRow(canon, y) + MapRow(canon, z)
  {
    MapConcat(canon, x, y);
    MapConcat(canon, x + y, z);
  }

  lemma MapWith(canon: map<Value, Value>, x: Row, v: Value, z: Row)
    ensures MapRow(canon, x + [v] + z) == MapRow(canon, x) + [Canon(canon, v)] + MapRow(canon, z)
  {
    MapThree(canon, x, [v], z);
    assert MapRow(canon, [v]) == [Canon(canon, v)];
  }

  lemma RootGrows(c: Schemas, m: Motif, t: Tables, e: Effect, x: Row, key: Row, z: Row)
    requires ValidMotif(c, m) && m.Nested? && Present(m, t) && Monotone(m, t, e)
    requires |x| == m.slot && |key| == |c[m.inner].args| && |x| + 1 + |z| == |c[m.outer].args|
    requires NestedRoot(c, t, m, x + key + z).Some?
    ensures NestedRoot(c, e.tables, m, MapRow(e.canon, x + key + z)) ==
              Some(Canon(e.canon, NestedRoot(c, t, m, x + key + z).value))
  {
    RootOfParts(c, t, m, x, key, z);
    var v := t[m.inner][key];
    var x', key', z' := MapRow(e.canon, x), MapRow(e.canon, key), MapRow(e.canon, z);
    RootOfParts(c, e.tables, m, x', key', z');
    MapThree(e.canon, x, key, z);
    MapWith(e.canon, x, v, z);
  }

  lemma NestedGrows(c: Schemas, m: Motif, t: Tables, e: Effect, row: Row)
    requires ValidMotif(c, m) && m.Nested? && Present(m, t) && Monotone(m, t, e)
    requires NestedRoot(c, t, m, row).Some?
    ensures NestedRoot(c, e.tables, m, MapRow(e.canon, row)) == Some(Canon(e.canon, NestedRoot(c, t, m, row).value))
  {
    var x, key, z := NestedCut(c, m, row);
    RootGrows(c, m, t, e, x, key, z);
  }

  lemma NestedCut(c: Schemas, m: Motif, row: Row) returns (x: Row, key: Row, z: Row)
    requires ValidMotif(c, m) && m.Nested? && |row| == |c[m.outer].args| - 1 + |c[m.inner].args|
    ensures row == x + key + z
    ensures |x| == m.slot && |key| == |c[m.inner].args| && |x| + 1 + |z| == |c[m.outer].args|
  {
    var front;
    front, z := Cut(row, m.slot + |c[m.inner].args|);
    x, key := Cut(front, m.slot);
  }

  lemma PairGrows(c: Schemas, m: Motif, t: Tables, e: Effect, xs: Row, zs: Row)
    requires ValidMotif(c, m) && m.Shared? && Present(m, t) && Monotone(m, t, e)
    requires |xs| == |c[m.a].args| && |zs| == |c[m.b].args| - 1
    requires xs in t[m.a] && With(zs, m.bi, xs[m.ai]) in t[m.b]
    ensures MapRow(e.canon, xs) in e.tables[m.a]
    ensures With(MapRow(e.canon, zs), m.bi, MapRow(e.canon, xs)[m.ai]) in e.tables[m.b]
  {
    var v := xs[m.ai];
    var ys := With(zs, m.bi, v);
    MapWith(e.canon, zs[..m.bi], v, zs[m.bi..]);
    MapParts(e.canon, zs, m.bi);
  }

  lemma SharedGrows(c: Schemas, m: Motif, t: Tables, e: Effect, xs: Row, zs: Row)
    requires ValidMotif(c, m) && m.Shared? && Present(m, t) && Monotone(m, t, e)
    requires |xs| == |c[m.a].args| && |zs| == |c[m.b].args| - 1 && InJoin(c, t, m, false, xs + zs)
    ensures InJoin(c, e.tables, m, false, MapRow(e.canon, xs + zs))
  {
    JoinOfParts(c, t, m, xs, zs);
    PairGrows(c, m, t, e, xs, zs);
    MapConcat(e.canon, xs, zs);
    JoinOfParts(c, e.tables, m, MapRow(e.canon, xs), MapRow(e.canon, zs));
  }

  lemma Cut(row: Row, i: nat) returns (x: Row, y: Row)
    requires i <= |row|
    ensures row == x + y && |x| == i
  {
    x, y := row[..i], row[i..];
  }

  /** Monotone steps keep the view inside the join. */
  lemma JoinGrows(c: Schemas, m: Motif, projected: bool, t: Tables, e: Effect, rows: iset<Row>)
    requires ValidMotif(c, m) && (projected ==> m.Nested?) && Valid(c, m, projected, t, rows) && Monotone(m, t, e)
    ensures Valid(c, m, projected, e.tables, Image(e.canon, rows))
  {
    forall r | r in Image(e.canon, rows) ensures InJoin(c, e.tables, m, projected, r) {
      assert InImage(e.canon, rows, r);
      var row :| row in rows && r == MapRow(e.canon, row);
      RowGrows(c, m, projected, t, e, row);
    }
  }

  lemma RowGrows(c: Schemas, m: Motif, projected: bool, t: Tables, e: Effect, row: Row)
    requires ValidMotif(c, m) && (projected ==> m.Nested?) && Present(m, t) && Monotone(m, t, e)
    requires InJoin(c, t, m, projected, row)
    ensures InJoin(c, e.tables, m, projected, MapRow(e.canon, row))
  {
    if m.Shared? {
      var xs, zs := Cut(row, |c[m.a].args|);
      SharedGrows(c, m, t, e, xs, zs);
    } else if projected {
      NestedGrows(c, m, t, e, row);
    } else {
      var front, now := row[..|row| - 1], MapRow(e.canon, row);
      NestedGrows(c, m, t, e, front);
      MapParts(e.canon, row, |row| - 1);
    }
  }

  /** A deletion from a motif table leaves a stale view row behind, so mutable tables are refused as motifs. */
  lemma DeletionBreaksView() returns (c: Schemas, m: Motif, t: Tables, e: Effect, rows: iset<Row>)
    ensures ValidMotif(c, m) && Valid(c, m, true, t, rows) && Present(m, e.tables)
    ensures e.canon == map[] && !Valid(c, m, true, e.tables, Image(e.canon, rows))
  {
    c := map["F" := Constructor(["E"], "E"), "G" := Constructor(["E"], "E")];
    m := Nested("F", 0, "G");
    t := map["F" := map[[1] := 2], "G" := map[[0] := 1]];
    e := Effect(map["F" := map[[1] := 2], "G" := map[]], true, map[]);
    var row: Row := [0];
    rows := iset{row};
    assert row[0..1] == [0] && row[..0] + [1] + row[1..] == [1];
    assert NestedRoot(c, t, m, row) == Some(2);
    assert MapRow(e.canon, row) == row;
    assert InImage(e.canon, rows, row);
    assert NestedRoot(c, e.tables, m, row) == None;
    assert row !in Join(c, e.tables, m, true);
  }

  // ---------- source and transformed leaves agree ----------

  /** The rule as the transformed program has it. */
  ghost function Edited(s: Setting, active: set<string>, r: Rule): Rule {
    if r.ruleset in active then r.(body := RewriteBody(s.m, s.view, s.prefix, s.projected, r.body)) else r
  }

  ghost function EditedAll(s: Setting, active: set<string>, rules: seq<Rule>): (r: seq<Rule>)
    ensures |r| == |rules|
  {
    if rules == [] then [] else [Edited(s, active, rules[0])] + EditedAll(s, active, rules[1..])
  }

  /** What the names and the parser guarantee of a rule; a rewritten rule belongs to a consumer. */
  ghost predicate RuleFits(s: Setting, active: set<string>, consumers: set<string>, r: Rule) {
    && (forall f :: f in r.body ==> WellFormedFact(s.c, f) && UnreadFact(s.view, f))
    && KnownBody(s.prefix, 0, r.body) && Older(s.prefix, r.scope) && r.ruleset != s.marker
    && (Edited(s, active, r) != r ==> r.ruleset in consumers)
  }

  ghost predicate SettingFits(s: Setting) {
    && ValidMotif(s.c, s.m) && (s.projected ==> s.m.Nested?) && s.view !in s.c
    && MonotoneKernel(s)
  }

  ghost predicate RulesFit(s: Setting, active: set<string>, consumers: set<string>, rules: seq<Rule>) {
    forall r :: r in rules ==> RuleFits(s, active, consumers, r)
  }

  ghost function TheJoin(s: Setting, t: Tables): iset<Row>
    requires ValidMotif(s.c, s.m)
  {
    Join(s.c, t, s.m, s.projected)
  }

  lemma EditedMatches(s: Setting, active: set<string>, consumers: set<string>, r: Rule, t: Tables, rows: iset<Row>)
    requires SettingFits(s) && Present(s.m, t) && RuleFits(s, active, consumers, r)
    requires r.ruleset in consumers ==> rows == TheJoin(s, t)
    ensures Matches(StoreOf(s, t, rows), Edited(s, active, r).body, r.scope) == Matches(StoreOf(s, t, iset{}), r.body, r.scope)
  {
    var st := StoreOf(s, t, iset{});
    UnreadMatches(st, rows, r.body, r.scope);
    if Edited(s, active, r) != r {
      RewriteSameMatches(s.c, StoreOf(s, t, rows), s.m, s.prefix, s.projected, r.body, r.scope);
    }
  }

  lemma {:induction false} EditedRuleMatches(s: Setting, active: set<string>, consumers: set<string>, rules: seq<Rule>, ruleset: string,
                                            t: Tables, rows: iset<Row>)
    requires SettingFits(s) && Present(s.m, t) && RulesFit(s, active, consumers, rules)
    requires ruleset in consumers ==> rows == TheJoin(s, t)
    ensures RuleMatches(StoreOf(s, t, rows), EditedAll(s, active, rules), ruleset) == RuleMatches(StoreOf(s, t, iset{}), rules, ruleset)
    decreases |rules|
  {
    if rules != [] {
      var now := EditedAll(s, active, rules);
      assert now[1..] == EditedAll(s, active, rules[1..]) && now[0] == Edited(s, active, rules[0]);
      assert rules[0] in rules;
      assert RulesFit(s, active, consumers, rules[1..]) by {
        forall r | r in rules[1..] ensures RuleFits(s, active, consumers, r) { assert r in rules; }
      }
      EditedRuleMatches(s, active, consumers, rules[1..], ruleset, t, rows);
      if rules[0].ruleset == ruleset { EditedMatches(s, active, consumers, rules[0], t, rows); }
    }
  }

  ghost function SourceLeaves(s: Setting, rules: seq<Rule>): (Tables, Config) -> Out<Tables> {
    (t, config) => SourceLeaf(s, rules, t, config)
  }

  ghost function TargetLeaves(s: Setting, rules: seq<Rule>): (Marked<Tables, iset<Row>>, Config) -> Out<Marked<Tables, iset<Row>>>
    requires ValidMotif(s.c, s.m)
  {
    (st, config) => TargetLeaf(s, rules, st, config)
  }

  /** The leaves of both programs, as the schedule theorem takes them. */
  ghost function Leaves(s: Setting, active: set<string>, consumers: set<string>, rules: seq<Rule>): Pair<Tables, iset<Row>>
    requires ValidMotif(s.c, s.m)
  {
    Pair(SourceLeaves(s, rules), TargetLeaves(s, EditedAll(s, active, rules)),
         t => TheJoin(s, t),
         (t, rows) => Valid(s.c, s.m, s.projected, t, rows), s.marker, consumers)
  }

  lemma BuiltIsJoin(s: Setting, t: Tables)
    requires SettingFits(s) && Present(s.m, t)
    ensures Built(s, t) == TheJoin(s, t)
  {
    forall row: Row ensures row in Built(s, t) <==> row in TheJoin(s, t) {
      BuilderBuildsJoin(s.c, StoreOf(s, t, iset{}), s.m, s.view, s.projected, row);
    }
  }

  lemma ImageUnchanged(rows: iset<Row>)
    ensures Image(map[], rows) == rows
  {
    forall r: Row ensures r in Image(map[], rows) <==> r in rows {
      assert forall row: Row :: MapRow(map[], row) == row;
      assert r in Image(map[], rows) <==> InImage(map[], rows, r);
    }
  }

  lemma LeafFollows(s: Setting, active: set<string>, consumers: set<string>, rules: seq<Rule>, t: Tables, rows: iset<Row>, config: Config)
    requires SettingFits(s) && RulesFit(s, active, consumers, rules) && Valid(s.c, s.m, s.projected, t, rows)
    requires config.until.None? && config.ruleset != s.marker && (config.ruleset in consumers ==> rows == TheJoin(s, t))
    ensures LeafAgrees(Leaves(s, active, consumers, rules), t, rows, config)
  {
    EditedRuleMatches(s, active, consumers, rules, config.ruleset, t, rows);
    var e := s.kernel.fire(t, config.ruleset, RuleMatches(StoreOf(s, t, iset{}), rules, config.ruleset));
    JoinGrows(s.c, s.m, s.projected, t, e, rows);
    ImageUnchanged(rows);
  }

  lemma LeavesSound(s: Setting, active: set<string>, consumers: set<string>, rules: seq<Rule>)
    requires SettingFits(s) && RulesFit(s, active, consumers, rules)
    ensures Sound(Leaves(s, active, consumers, rules))
  {
    var p := Leaves(s, active, consumers, rules);
    forall t: Tables, rows: iset<Row>, config: Config | p.valid(t, rows) && config.until.None?
      ensures if config.ruleset == p.marker then RefreshExact(p, t, rows, config)
              else config.ruleset !in p.consumers || rows == p.exact(t) ==> LeafAgrees(p, t, rows, config)
    {
      if config.ruleset == p.marker {
        BuiltIsJoin(s, t);
        assert rows + TheJoin(s, t) == TheJoin(s, t);
      } else if config.ruleset !in p.consumers || rows == p.exact(t) {
        LeafFollows(s, active, consumers, rules, t, rows, config);
      }
    }
  }
}
