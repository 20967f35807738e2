/**
 * Refreshing a view before each consumer (examples/eggcc_marker.rs, `before_runs`),
 * under the native schedule semantics (egglog/src/lib.rs, `run_schedule`).
 *
 * A refresh counts as an update, so loops of the transformed schedule may run
 * longer than those of the source; `RefreshPreserves` says that the original
 * state and termination are nevertheless the same.
 */
module MarkerSchedule {
  import opened Wrappers
  import opened MarkerRewrite

  datatype Config = Config(ruleset: string, until: Option<seq<Fact>>)
  datatype Schedule =
    | Run(config: Config)
    | Repeat(count: nat, body: Schedule)
    | Saturate(body: Schedule)
    | Sequence(children: seq<Schedule>)

  datatype Out<S> = Out(state: S, updated: bool)

  // ---------- running schedules ----------

  /** `None` when a Saturate has not settled after `fuel` iterations. */
  ghost function Exec<S>(leaf: (S, Config) -> Out<S>, s: Schedule, st: S, fuel: nat): Option<Out<S>>
    decreases s, 0, 0
  {
    match s
    case Run(config) => Some(leaf(st, config))
    case Sequence(children) => ExecAll(leaf, children, st, fuel)
    case Repeat(n, body) => Loop(leaf, body, st, n, true, fuel)
    case Saturate(body) => Loop(leaf, body, st, fuel, false, fuel)
  }

  ghost function ExecAll<S>(leaf: (S, Config) -> Out<S>, ss: seq<Schedule>, st: S, fuel: nat): Option<Out<S>>
    decreases ss, 0, 0
  {
    if ss == [] then Some(Out(st, false))
    else
      match Exec(leaf, ss[0], st, fuel)
      case None => None
      case Some(first) =>
        match ExecAll(leaf, ss[1..], first.state, fuel)
        case None => None
        case Some(rest) => Some(Out(rest.state, first.updated || rest.updated))
  }

  /** Iterations until one of them changes nothing; running out of them ends a Repeat but not a Saturate. */
  ghost function Loop<S>(leaf: (S, Config) -> Out<S>, body: Schedule, st: S, left: nat, bounded: bool, fuel: nat): Option<Out<S>>
    decreases body, 1, left
  {
    if left == 0 then (if bounded then Some(Out(st, false)) else None)
    else
      match Exec(leaf, body, st, fuel)
      case None => None
      case Some(first) =>
        if !first.updated then Some(first)
        else
          match Loop(leaf, body, first.state, left - 1, bounded, fuel)
          case None => None
          case Some(rest) => Some(Out(rest.state, true))
  }

  /** More fuel does not change a result. */
  lemma {:induction false} MoreFuel<S>(leaf: (S, Config) -> Out<S>, s: Schedule, st: S, f: nat, g: nat)
    requires f <= g && Exec(leaf, s, st, f).Some?
    ensures Exec(leaf, s, st, g) == Exec(leaf, s, st, f)
    decreases s, 0, 0
  {
    match s
    case Run(_) =>
    case Sequence(children) => MoreFuelAll(leaf, children, st, f, g);
    case Repeat(n, body) => MoreFuelLoop(leaf, body, st, n, n, true, f, g);
    case Saturate(body) => MoreFuelLoop(leaf, body, st, f, g, false, f, g);
  }

  lemma {:induction false} MoreFuelAll<S>(leaf: (S, Config) -> Out<S>, ss: seq<Schedule>, st: S, f: nat, g: nat)
    requires f <= g && ExecAll(leaf, ss, st, f).Some?
    ensures ExecAll(leaf, ss, st, g) == ExecAll(leaf, ss, st, f)
    decreases ss, 0, 0
  {
    if ss != [] {
      MoreFuel(leaf, ss[0], st, f, g);
      MoreFuelAll(leaf, ss[1..], Exec(leaf, ss[0], st, f).value.state, f, g);
    }
  }

  lemma {:induction false} MoreFuelLoop<S>(leaf: (S, Config) -> Out<S>, body: Schedule, st: S, l: nat, n: nat, bounded: bool, f: nat, g: nat)
    requires f <= g && Loop(leaf, body, st, l, bounded, f).Some? && (if bounded then l == n else l <= n)
    ensures Loop(leaf, body, st, n, bounded, g) == Loop(leaf, body, st, l, bounded, f)
    decreases body, 1, l
  {
    if l > 0 {
      MoreFuel(leaf, body, st, f, g);
      var first := Exec(leaf, body, st, f).value;
      if first.updated { MoreFuelLoop(leaf, body, first.state, l - 1, n - 1, bounded, f, g); }
    }
  }

  // ---------- the transformation ----------

  /** A refresh immediately before each consumer. */
  function BeforeRuns(s: Schedule, consumers: set<string>, marker: string): Schedule {
    match s
    case Run(config) =>
      if config.ruleset in consumers then Sequence([Run(Config(marker, None)), Run(config)]) else s
    case Repeat(n, body) => Repeat(n, BeforeRuns(body, consumers, marker))
    case Saturate(body) => Saturate(BeforeRuns(body, consumers, marker))
    case Sequence(children) => Sequence(BeforeAll(children, consumers, marker))
  }

  function BeforeAll(ss: seq<Schedule>, consumers: set<string>, marker: string): (r: seq<Schedule>)
    ensures |r| == |ss|
  {
    if ss == [] then [] else [BeforeRuns(ss[0], consumers, marker)] + BeforeAll(ss[1..], consumers, marker)
  }

  /** The schedule has no `until` and never runs the new ruleset. */
  predicate Avoids(s: Schedule, ruleset: string) {
    match s
    case Run(config) => config.until.None? && config.ruleset != ruleset
    case Repeat(_, body) => Avoids(body, ruleset)
    case Saturate(body) => Avoids(body, ruleset)
    case Sequence(children) => forall i :: 0 <= i < |children| ==> Avoids(children[i], ruleset)
  }

  /** The runs of a schedule as they are written, in order. */
  function RunsOf(s: Schedule): seq<Config> {
    match s
    case Run(config) => [config]
    case Repeat(_, body) => RunsOf(body)
    case Saturate(body) => RunsOf(body)
    case Sequence(children) => RunsOfAll(children)
  }

  function RunsOfAll(ss: seq<Schedule>): seq<Config> {
    if ss == [] then [] else RunsOf(ss[0]) + RunsOfAll(ss[1..])
  }

  /** The runs that are no refreshes. */
  function Others(runs: seq<Config>, marker: string): seq<Config> {
    if runs == [] then [] else (if runs[0].ruleset == marker then [] else [runs[0]]) + Others(runs[1..], marker)
  }

  lemma {:induction false} OthersConcat(xs: seq<Config>, ys: seq<Config>, marker: string)
    ensures Others(xs + ys, marker) == Others(xs, marker) + Others(ys, marker)
  {
    if xs == [] {
      assert xs + ys == ys;
    } else {
      assert (xs + ys)[1..] == xs[1..] + ys;
      OthersConcat(xs[1..], ys, marker);
    }
  }

  /** Every consumer comes right after a refresh, and every refresh right before a consumer. */
  predicate Refreshed(runs: seq<Config>, consumers: set<string>, marker: string) {
    && (forall i :: 0 <= i < |runs| && runs[i].ruleset in consumers ==> i > 0 && runs[i - 1] == Config(marker, None))
    && (forall i :: 0 <= i < |runs| && runs[i].ruleset == marker ==> i + 1 < |runs| && runs[i + 1].ruleset in consumers)
  }

  lemma RefreshedConcat(xs: seq<Config>, ys: seq<Config>, consumers: set<string>, marker: string)
    requires Refreshed(xs, consumers, marker) && Refreshed(ys, consumers, marker)
    ensures Refreshed(xs + ys, consumers, marker)
  {
    var runs := xs + ys;
    forall i | 0 <= i < |runs| && runs[i].ruleset in consumers ensures i > 0 && runs[i - 1] == Config(marker, None) {
      assert i < |xs| ==> xs[i].ruleset in consumers;
      assert i >= |xs| ==> ys[i - |xs|].ruleset in consumers;
    }
    forall i | 0 <= i < |runs| && runs[i].ruleset == marker ensures i + 1 < |runs| && runs[i + 1].ruleset in consumers {
      assert i < |xs| ==> xs[i].ruleset == marker && runs[i + 1] == xs[i + 1];
      assert i >= |xs| ==> ys[i - |xs|].ruleset == marker && runs[i + 1] == ys[i + 1 - |xs|];
    }
  }

  /** One refresh immediately before each consumer, none anywhere else, and otherwise the runs of the source. */
  lemma {:induction false} OneRefreshEach(s: Schedule, consumers: set<string>, marker: string)
    requires Avoids(s, marker) && marker !in consumers
    ensures var now := RunsOf(BeforeRuns(s, consumers, marker));
            Refreshed(now, consumers, marker) && Others(now, marker) == RunsOf(s)
    decreases s, 1
  {
    match s
    case Run(config) =>
      if config.ruleset in consumers {
        var now := [Run(Config(marker, None)), Run(config)];
        assert RunsOfAll(now[1..]) == [config];
        assert RunsOfAll(now) == [Config(marker, None), config];
        assert Others([config], marker) == [config];
      }
    case Repeat(_, body) => OneRefreshEach(body, consumers, marker);
    case Saturate(body) => OneRefreshEach(body, consumers, marker);
    case Sequence(children) => OneRefreshEachAll(children, consumers, marker);
  }

  lemma {:induction false} OneRefreshEachAll(ss: seq<Schedule>, consumers: set<string>, marker: string)
    requires (forall i :: 0 <= i < |ss| ==> Avoids(ss[i], marker)) && marker !in consumers
    ensures var now := RunsOfAll(BeforeAll(ss, consumers, marker));
            Refreshed(now, consumers, marker) && Others(now, marker) == RunsOfAll(ss)
    decreases ss, 0
  {
    if ss != [] {
      OneRefreshEach(ss[0], consumers, marker);
      OneRefreshEachAll(ss[1..], consumers, marker);
      var x, y := RunsOf(BeforeRuns(ss[0], consumers, marker)), RunsOfAll(BeforeAll(ss[1..], consumers, marker));
      assert BeforeAll(ss, consumers, marker)[1..] == BeforeAll(ss[1..], consumers, marker);
      RefreshedConcat(x, y, consumers, marker);
      OthersConcat(x, y, marker);
    }
  }

  // ---------- the two programs ----------

  datatype Marked<D, V> = Marked(data: D, view: V)

  /** Leaves of the source and of the transformed program, and the exact view of a state. */
  datatype Pair<!D, !V> = Pair(source: (D, Config) -> Out<D>, target: (Marked<D, V>, Config) -> Out<Marked<D, V>>,
                               exact: D -> V, valid: (D, V) -> bool, marker: string, consumers: set<string>)

  ghost predicate LeafAgrees<D, V>(p: Pair<D, V>, d: D, v: V, config: Config) {
    var a, b := p.source(d, config), p.target(Marked(d, v), config);
    && b.state.data == a.state && b.updated == a.updated && p.valid(a.state, b.state.view)
    && (!a.updated ==> a.state == d && b.state.view == v)
  }

  ghost predicate RefreshExact<D, V>(p: Pair<D, V>, d: D, v: V, config: Config) {
    p.target(Marked(d, v), config) == Out(Marked(d, p.exact(d)), v != p.exact(d)) && p.valid(d, p.exact(d))
  }

  /** Refreshing makes the view exact; other leaves agree, consumers only on an exact view. */
  ghost predicate Sound<D(!new), V(!new)>(p: Pair<D, V>) {
    forall d: D, v: V, config: Config {:trigger LeafAgrees(p, d, v, config)} {:trigger RefreshExact(p, d, v, config)} ::
      p.valid(d, v) && config.until.None? ==>
        if config.ruleset == p.marker then RefreshExact(p, d, v, config)
        else config.ruleset !in p.consumers || v == p.exact(d) ==> LeafAgrees(p, d, v, config)
  }

  // ---------- iterations that change nothing ----------

  /** The state stays; the view stays or becomes exact, and only that counts as an update. */
  ghost predicate Settled<D, V>(p: Pair<D, V>, d: D, v: V, o: Option<Out<Marked<D, V>>>) {
    && o.Some? && o.value.state.data == d && p.valid(d, o.value.state.view)
    && (o.value.state.view == v || o.value.state.view == p.exact(d))
    && (o.value.updated <==> o.value.state.view != v)
  }

  lemma {:induction false} Quiet<D(!new), V(!new)>(p: Pair<D, V>, s: Schedule, d: D, v: V, f: nat)
    requires Sound(p) && p.valid(d, v) && Avoids(s, p.marker)
    requires var a := Exec(p.source, s, d, f); a.Some? && !a.value.updated
    ensures Exec(p.source, s, d, f).value.state == d
    ensures Settled(p, d, v, Exec(p.target, BeforeRuns(s, p.consumers, p.marker), Marked(d, v), f + 1))
    decreases s, 0, 0
  {
    match s
    case Run(config) => QuietLeaf(p, config, d, v, f);
    case Sequence(children) => QuietAll(p, children, d, v, f);
    case Repeat(n, body) => QuietLoop(p, body, d, v, n, n, true, f);
    case Saturate(body) => QuietLoop(p, body, d, v, f, f + 1, false, f);
  }

  lemma ExecPair<S>(leaf: (S, Config) -> Out<S>, x: Config, y: Config, st: S, fuel: nat)
    ensures var one := leaf(st, x); var two := leaf(one.state, y);
            Exec(leaf, Sequence([Run(x), Run(y)]), st, fuel) == Some(Out(two.state, one.updated || two.updated))
  {
    var ss := [Run(x), Run(y)];
    var one := leaf(st, x);
    var two := leaf(one.state, y);
    assert ss[1..] == [Run(y)] && [Run(y)][1..] == [];
    assert ExecAll(leaf, [], two.state, fuel) == Some(Out(two.state, false));
    assert ExecAll(leaf, [Run(y)], one.state, fuel) == Some(two) by {
      assert Exec(leaf, [Run(y)][0], one.state, fuel) == Some(two);
    }
    assert Exec(leaf, ss[0], st, fuel) == Some(one);
  }

  lemma QuietLeaf<D(!new), V(!new)>(p: Pair<D, V>, config: Config, d: D, v: V, f: nat)
    requires Sound(p) && p.valid(d, v) && config.until.None? && config.ruleset != p.marker && !p.source(d, config).updated
    ensures p.source(d, config).state == d
    ensures Settled(p, d, v, Exec(p.target, BeforeRuns(Run(config), p.consumers, p.marker), Marked(d, v), f + 1))
  {
    if config.ruleset in p.consumers {
      var refresh := Config(p.marker, None);
      assert RefreshExact(p, d, v, refresh);
      assert LeafAgrees(p, d, p.exact(d), config);
      ExecPair(p.target, refresh, config, Marked(d, v), f + 1);
    } else {
      assert LeafAgrees(p, d, v, config);
    }
  }

  lemma {:induction false} QuietAll<D(!new), V(!new)>(p: Pair<D, V>, ss: seq<Schedule>, d: D, v: V, f: nat)
    requires Sound(p) && p.valid(d, v) && forall i :: 0 <= i < |ss| ==> Avoids(ss[i], p.marker)
    requires var a := ExecAll(p.source, ss, d, f); a.Some? && !a.value.updated
    ensures ExecAll(p.source, ss, d, f).value.state == d
    ensures Settled(p, d, v, ExecAll(p.target, BeforeAll(ss, p.consumers, p.marker), Marked(d, v), f + 1))
    decreases ss, 0, 0
  {
    if ss != [] {
      var now := BeforeAll(ss, p.consumers, p.marker);
      assert now[1..] == BeforeAll(ss[1..], p.consumers, p.marker);
      Quiet(p, ss[0], d, v, f);
      var mid := Exec(p.target, now[0], Marked(d, v), f + 1).value.state.view;
      QuietAll(p, ss[1..], d, mid, f);
    }
  }

  /** One iteration makes the view exact, the next finds nothing to do. */
  lemma {:induction false} QuietLoop<D(!new), V(!new)>(p: Pair<D, V>, body: Schedule, d: D, v: V, l: nat, n: nat, bounded: bool, f: nat)
    requires Sound(p) && p.valid(d, v) && Avoids(body, p.marker) && (if bounded then n == l else n > l)
    requires var a := Loop(p.source, body, d, l, bounded, f); a.Some? && !a.value.updated
    ensures Loop(p.source, body, d, l, bounded, f).value.state == d
    ensures Settled(p, d, v, Loop(p.target, BeforeRuns(body, p.consumers, p.marker), Marked(d, v), n, bounded, f + 1))
    decreases body, 1, l
  {
    if l > 0 {
      Quiet(p, body, d, v, f);
      var b := BeforeRuns(body, p.consumers, p.marker);
      var first := Exec(p.target, b, Marked(d, v), f + 1).value;
      if first.updated && n > 1 {
        Quiet(p, body, d, p.exact(d), f);
        assert Loop(p.target, b, first.state, n - 1, bounded, f + 1) == Exec(p.target, b, first.state, f + 1);
      }
    }
  }

  // ---------- every run ----------

  ghost predicate Follows<D, V>(p: Pair<D, V>, a: Out<D>, o: Option<Out<Marked<D, V>>>) {
    o.Some? && o.value.state.data == a.state && p.valid(a.state, o.value.state.view) && (a.updated ==> o.value.updated)
  }

  /** A terminating source run is followed by the transformed one. */
  lemma {:induction false} Simulate<D(!new), V(!new)>(p: Pair<D, V>, s: Schedule, d: D, v: V, f: nat)
    requires Sound(p) && p.valid(d, v) && Avoids(s, p.marker) && Exec(p.source, s, d, f).Some?
    ensures Follows(p, Exec(p.source, s, d, f).value, Exec(p.target, BeforeRuns(s, p.consumers, p.marker), Marked(d, v), f + 1))
    decreases s, 0, 0
  {
    match s
    case Run(config) => SimulateLeaf(p, config, d, v, f);
    case Sequence(children) => SimulateAll(p, children, d, v, f);
    case Repeat(n, body) => SimulateLoop(p, body, d, v, n, n, true, f);
    case Saturate(body) => SimulateLoop(p, body, d, v, f, f + 1, false, f);
  }

  lemma SimulateLeaf<D(!new), V(!new)>(p: Pair<D, V>, config: Config, d: D, v: V, f: nat)
    requires Sound(p) && p.valid(d, v) && config.until.None? && config.ruleset != p.marker
    ensures Follows(p, p.source(d, config), Exec(p.target, BeforeRuns(Run(config), p.consumers, p.marker), Marked(d, v), f + 1))
  {
    if config.ruleset in p.consumers {
      var refresh := Config(p.marker, None);
      assert RefreshExact(p, d, v, refresh);
      assert LeafAgrees(p, d, p.exact(d), config);
      ExecPair(p.target, refresh, config, Marked(d, v), f + 1);
    } else {
      assert LeafAgrees(p, d, v, config);
    }
  }

  lemma {:induction false} SimulateAll<D(!new), V(!new)>(p: Pair<D, V>, ss: seq<Schedule>, d: D, v: V, f: nat)
    requires Sound(p) && p.valid(d, v) && (forall i :: 0 <= i < |ss| ==> Avoids(ss[i], p.marker)) && ExecAll(p.source, ss, d, f).Some?
    ensures Follows(p, ExecAll(p.source, ss, d, f).value,
                    ExecAll(p.target, BeforeAll(ss, p.consumers, p.marker), Marked(d, v), f + 1))
    decreases ss, 0, 0
  {
    if ss != [] {
      var now := BeforeAll(ss, p.consumers, p.marker);
      assert now[1..] == BeforeAll(ss[1..], p.consumers, p.marker);
      Simulate(p, ss[0], d, v, f);
      var mid := Exec(p.target, now[0], Marked(d, v), f + 1).value.state;
      SimulateAll(p, ss[1..], mid.data, mid.view, f);
    }
  }

  lemma {:induction false} SimulateLoop<D(!new), V(!new)>(p: Pair<D, V>, body: Schedule, d: D, v: V, l: nat, n: nat, bounded: bool, f: nat)
    requires Sound(p) && p.valid(d, v) && Avoids(body, p.marker) && (if bounded then n == l else n > l)
    requires Loop(p.source, body, d, l, bounded, f).Some?
    ensures Follows(p, Loop(p.source, body, d, l, bounded, f).value,
                    Loop(p.target, BeforeRuns(body, p.consumers, p.marker), Marked(d, v), n, bounded, f + 1))
    decreases body, 1, l
  {
    if l > 0 {
      var first := Exec(p.source, body, d, f).value;
      if first.updated {
        Simulate(p, body, d, v, f);
        var mid := Exec(p.target, BeforeRuns(body, p.consumers, p.marker), Marked(d, v), f + 1).value.state;
        SimulateLoop(p, body, mid.data, mid.view, l - 1, n - 1, bounded, f);
      } else {
        QuietLoop(p, body, d, v, l, n, bounded, f);
      }
    }
  }

  /** A terminating transformed run comes from a terminating source run. */
  lemma {:induction false} Reflect<D(!new), V(!new)>(p: Pair<D, V>, s: Schedule, d: D, v: V, f: nat)
    requires Sound(p) && p.valid(d, v) && Avoids(s, p.marker)
    requires Exec(p.target, BeforeRuns(s, p.consumers, p.marker), Marked(d, v), f).Some?
    ensures Exec(p.source, s, d, f).Some?
    ensures Follows(p, Exec(p.source, s, d, f).value, Exec(p.target, BeforeRuns(s, p.consumers, p.marker), Marked(d, v), f))
    decreases s, 0, 0
  {
    match s {
      case Run(config) =>
      case Sequence(children) => ReflectAll(p, children, d, v, f);
      case Repeat(n, body) => ReflectLoop(p, body, d, v, n, true, f);
      case Saturate(body) => ReflectLoop(p, body, d, v, f, false, f);
    }
    Simulate(p, s, d, v, f);
    MoreFuel(p.target, BeforeRuns(s, p.consumers, p.marker), Marked(d, v), f, f + 1);
  }

  lemma {:induction false} ReflectAll<D(!new), V(!new)>(p: Pair<D, V>, ss: seq<Schedule>, d: D, v: V, f: nat)
    requires Sound(p) && p.valid(d, v) && forall i :: 0 <= i < |ss| ==> Avoids(ss[i], p.marker)
    requires ExecAll(p.target, BeforeAll(ss, p.consumers, p.marker), Marked(d, v), f).Some?
    ensures ExecAll(p.source, ss, d, f).Some?
    decreases ss, 0, 0
  {
    if ss != [] {
      var now := BeforeAll(ss, p.consumers, p.marker);
      assert now[1..] == BeforeAll(ss[1..], p.consumers, p.marker);
      Reflect(p, ss[0], d, v, f);
      var mid := Exec(p.target, now[0], Marked(d, v), f).value.state;
      ReflectAll(p, ss[1..], mid.data, mid.view, f);
    }
  }

  lemma {:induction false} ReflectLoop<D(!new), V(!new)>(p: Pair<D, V>, body: Schedule, d: D, v: V, l: nat, bounded: bool, f: nat)
    requires Sound(p) && p.valid(d, v) && Avoids(body, p.marker)
    requires Loop(p.target, BeforeRuns(body, p.consumers, p.marker), Marked(d, v), l, bounded, f).Some?
    ensures Loop(p.source, body, d, l, bounded, f).Some?
    decreases body, 1, l
  {
    if l > 0 {
      Reflect(p, body, d, v, f);
      var mid := Exec(p.target, BeforeRuns(body, p.consumers, p.marker), Marked(d, v), f).value;
      if Exec(p.source, body, d, f).value.updated {
        ReflectLoop(p, body, mid.state.data, mid.state.view, l - 1, bounded, f);
      }
    }
  }

  ghost predicate Terminates<S>(leaf: (S, Config) -> Out<S>, s: Schedule, st: S) {
    exists f: nat :: Exec(leaf, s, st, f).Some?
  }

  /** The original tables and termination do not depend on the refreshes. */
  lemma RefreshPreserves<D(!new), V(!new)>(p: Pair<D, V>, s: Schedule, d: D, v: V)
    requires Sound(p) && p.valid(d, v) && Avoids(s, p.marker)
    ensures Terminates(p.source, s, d) <==> Terminates(p.target, BeforeRuns(s, p.consumers, p.marker), Marked(d, v))
    ensures forall f: nat, g: nat ::
              var a, b := Exec(p.source, s, d, f), Exec(p.target, BeforeRuns(s, p.consumers, p.marker), Marked(d, v), g);
              a.Some? && b.Some? ==> b.value.state.data == a.value.state && p.valid(a.value.state, b.value.state.view)
  {
    var t := BeforeRuns(s, p.consumers, p.marker);
    if f: nat :| Exec(p.source, s, d, f).Some? { Simulate(p, s, d, v, f); }
    if f: nat :| Exec(p.target, t, Marked(d, v), f).Some? { Reflect(p, s, d, v, f); }
    forall f: nat, g: nat | Exec(p.source, s, d, f).Some? && Exec(p.target, t, Marked(d, v), g).Some?
      ensures Exec(p.target, t, Marked(d, v), g).value.state.data == Exec(p.source, s, d, f).value.state
      ensures p.valid(Exec(p.source, s, d, f).value.state, Exec(p.target, t, Marked(d, v), g).value.state.view)
    {
      Reflect(p, s, d, v, g);
      var h := if f < g then g else f;
      MoreFuel(p.source, s, d, f, h);
      MoreFuel(p.source, s, d, g, h);
    }
  }
}
