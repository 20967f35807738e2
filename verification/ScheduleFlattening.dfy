/**
 * The schedule debugger of examples/rule_repl.rs: nested Sequence and Repeat
 * schedules are unpacked into a linear list of packets and a list of jump
 * records, and a cursor runs the packets, jumping out of a Repeat when the last
 * iteration reported that it can stop.
 *
 * The reference is the native recursive interpreter (egglog/src/lib.rs
 * `run_schedule`, replayed by `walk` in src/cell_schedule.rs).  The theorem is
 * that any debugging session that is driven to the end has run exactly the same
 * leaves, in the same order, and reached the same state.
 */
module ScheduleFlattening {

  // Run and Saturate stay atomic native commands; their effect is arbitrary.
  datatype Schedule =
    | Run(ruleset: string)
    | Saturate(inner: Schedule)
    | Sequence(children: seq<Schedule>)
    | Repeat(count: nat, body: Schedule)
  {
    predicate Atomic() { Run? || Saturate? }
  }

  datatype Command = RunSchedule(schedule: Schedule) | Host(text: string)

  /** The native engine: what an atomic schedule does and whether it can stop, and what a host command does. */
  datatype Engine<!S> = Engine(leaf: (S, Schedule) -> (S, bool), host: (S, string) -> S)

  datatype Step = OfCommand(index: nat) | Child(index: nat) | Iteration(index: nat)
  datatype Label = SetupBefore(index: nat) | FinalCommands | Leaf(path: seq<Step>)

  // ---------- the reference interpreter ----------

  /** One executed leaf: where it sits in the program, and what it reported. */
  datatype Executed = Executed(path: seq<Step>, canStop: bool)

  datatype Report<!S> = Report(state: S, trace: seq<Executed>, canStop: bool)

  function Native<S>(e: Engine<S>, s: Schedule, path: seq<Step>, st: S): Report<S>
    decreases s, 1, 0
  {
    match s
    case Sequence(_) => NativeFrom(e, s, 0, path, st)
    case Repeat(n, body) => NativeRepeat(e, body, 0, n, path, st)
    case _ => var (st', stop) := e.leaf(st, s); Report(st', [Executed(path, stop)], stop)
  }

  /** Children i.. of a sequence; the flags of all of them are joined. */
  function NativeFrom<S>(e: Engine<S>, s: Schedule, i: nat, path: seq<Step>, st: S): Report<S>
    requires s.Sequence? && i <= |s.children|
    decreases s, 0, |s.children| - i
  {
    if i == |s.children| then Report(st, [], true)
    else
      var first := Native(e, s.children[i], path + [Child(i)], st);
      var rest := NativeFrom(e, s, i + 1, path, first.state);
      Report(rest.state, first.trace + rest.trace, first.canStop && rest.canStop)
  }

  /** Iterations i..n of a body, left early by an iteration that can stop. */
  function NativeRepeat<S>(e: Engine<S>, body: Schedule, i: nat, n: nat, path: seq<Step>, st: S): Report<S>
    requires i <= n
    decreases body, 2, n - i
  {
    if i == n then Report(st, [], true)
    else
      var first := Native(e, body, path + [Iteration(i)], st);
      if first.canStop then first
      else
        var rest := NativeRepeat(e, body, i + 1, n, path, first.state);
        Report(rest.state, first.trace + rest.trace, false)
  }

  /** The intact command stream, as the control run executes it. */
  function NativeProgram<S>(e: Engine<S>, commands: seq<Command>, i: nat, st: S): (r: Report<S>)
    requires i <= |commands|
    decreases |commands| - i
  {
    if i == |commands| then Report(st, [], true)
    else
      match commands[i]
      case Host(text) => NativeProgram(e, commands, i + 1, e.host(st, text))
      case RunSchedule(s) =>
        var first := Native(e, s, [OfCommand(i)], st);
        var rest := NativeProgram(e, commands, i + 1, first.state);
        Report(rest.state, first.trace + rest.trace, first.canStop && rest.canStop)
  }

  // ---------- flattening ----------

  datatype Packet = Packet(name: Label, commands: seq<Command>)
  datatype RepeatEnd = RepeatEnd(start: nat, end: nat, exit: nat)
  datatype Span = Span(start: nat, end: nat)
  datatype JournalRow = JournalRow(packet: nat, name: Label, canStop: bool)

  /** Number of packets of a schedule. */
  function Size(s: Schedule): nat
    decreases s, 1, 0
  {
    match s
    case Sequence(_) => SizeFrom(s, 0)
    case Repeat(n, body) => Times(n, Size(body))
    case _ => 1
  }

  /** Packets of `k` iterations. */
  function Times(k: nat, size: nat): nat {
    if k == 0 then 0 else size + Times(k - 1, size)
  }

  function SizeFrom(s: Schedule, i: nat): nat
    requires s.Sequence? && i <= |s.children|
    decreases s, 0, |s.children| - i
  {
    if i == |s.children| then 0 else Size(s.children[i]) + SizeFrom(s, i + 1)
  }

  ghost function Packets(s: Schedule, path: seq<Step>): seq<Packet>
    decreases s, 1, 0
  {
    match s
    case Sequence(_) => PacketsFrom(s, 0, path)
    case Repeat(n, body) => PacketsRepeat(body, 0, n, path)
    case _ => [Packet(Leaf(path), [RunSchedule(s)])]
  }

  ghost function PacketsFrom(s: Schedule, i: nat, path: seq<Step>): seq<Packet>
    requires s.Sequence? && i <= |s.children|
    decreases s, 0, |s.children| - i
  {
    if i == |s.children| then [] else Packets(s.children[i], path + [Child(i)]) + PacketsFrom(s, i + 1, path)
  }

  ghost function PacketsRepeat(body: Schedule, i: nat, n: nat, path: seq<Step>): seq<Packet>
    requires i <= n
    decreases body, 2, n - i
  {
    if i == n then [] else Packets(body, path + [Iteration(i)]) + PacketsRepeat(body, i + 1, n, path)
  }

  /** The jump records of a schedule whose packets start at `base`. */
  ghost function Ends(s: Schedule, base: nat): set<RepeatEnd>
    decreases s, 1, 0
  {
    match s
    case Sequence(_) => EndsFrom(s, 0, base)
    case Repeat(n, body) => EndsRepeat(body, 0, n, base) + OwnEnds(Size(body), 0, n, base, base + Times(n, Size(body)))
    case _ => {}
  }

  ghost function EndsFrom(s: Schedule, i: nat, base: nat): set<RepeatEnd>
    requires s.Sequence? && i <= |s.children|
    decreases s, 0, |s.children| - i
  {
    if i == |s.children| then {} else Ends(s.children[i], base) + EndsFrom(s, i + 1, base + Size(s.children[i]))
  }

  ghost function EndsRepeat(body: Schedule, i: nat, n: nat, base: nat): set<RepeatEnd>
    requires i <= n
    decreases body, 2, n - i
  {
    if i == n then {} else Ends(body, base) + EndsRepeat(body, i + 1, n, base + Size(body))
  }

  ghost function OwnEnds(size: nat, i: nat, n: nat, base: nat, exit: nat): set<RepeatEnd>
    requires i <= n
    decreases n - i
  {
    if i == n then {} else {RepeatEnd(base, base + size, exit)} + OwnEnds(size, i + 1, n, base + size, exit)
  }

  // ---------- the cursor machine ----------

  /** All journal rows of the iteration that just ended reported that they can stop. */
  predicate AllStop(r: RepeatEnd, journal: seq<JournalRow>) {
    forall k :: 0 <= k < |journal| && r.start <= journal[k].packet < r.end ==> journal[k].canStop
  }

  predicate Applies(r: RepeatEnd, journal: seq<JournalRow>, cursor: nat) {
    r.end == cursor && r.exit > cursor && AllStop(r, journal)
  }

  /** Furthest exit of a record that applies, or the cursor itself. */
  function Jump(repeats: seq<RepeatEnd>, journal: seq<JournalRow>, cursor: nat): (next: nat)
    ensures next >= cursor
    ensures forall k :: 0 <= k < |repeats| && Applies(repeats[k], journal, cursor) ==> repeats[k].exit <= next
    ensures next == cursor || exists k :: 0 <= k < |repeats| && Applies(repeats[k], journal, cursor) && repeats[k].exit == next
  {
    if repeats == [] then cursor
    else
      var rest := Jump(repeats[1..], journal, cursor);
      assert forall k :: 1 <= k < |repeats| ==> repeats[k] == repeats[1..][k - 1];
      assert rest != cursor ==> exists k :: 1 <= k < |repeats| && Applies(repeats[k], journal, cursor) && repeats[k].exit == rest by {
        if rest != cursor {
          var k :| 0 <= k < |repeats[1..]| && Applies(repeats[1..][k], journal, cursor) && repeats[1..][k].exit == rest;
          assert Applies(repeats[k + 1], journal, cursor);
        }
      }
      if Applies(repeats[0], journal, cursor) && repeats[0].exit > rest then repeats[0].exit else rest
  }

  /** Where `advance` leaves the cursor. */
  ghost function Settle(repeats: seq<RepeatEnd>, journal: seq<JournalRow>, cursor: nat, limit: nat): (c: nat)
    requires cursor <= limit && forall k :: 0 <= k < |repeats| ==> repeats[k].exit <= limit
    ensures cursor <= c <= limit
    decreases limit - cursor
  {
    var next := Jump(repeats, journal, cursor);
    if next == cursor then cursor else Settle(repeats, journal, next, limit)
  }

  /** Result of the commands of one packet: the flags of its schedule outputs are joined. */
  function RunPacket<S>(e: Engine<S>, commands: seq<Command>, st: S): (S, bool)
  {
    if commands == [] then (st, true)
    else
      match commands[0]
      case Host(text) => RunPacket(e, commands[1..], e.host(st, text))
      case RunSchedule(s) =>
        var r := Native(e, s, [], st);
        var (st', stop) := RunPacket(e, commands[1..], r.state);
        (st', r.canStop && stop)
  }

  /** `pending` marks a cursor that a finished packet moved and `advance` has not settled. */
  datatype Config<!S> = Config(cursor: nat, pending: bool, state: S, journal: seq<JournalRow>)

  ghost predicate Linked(packets: seq<Packet>, repeats: seq<RepeatEnd>) {
    forall k :: 0 <= k < |repeats| ==> repeats[k].exit <= |packets|
  }

  /** One move: settle or jump a pending cursor, or run the packet under it. */
  ghost function Next<S>(e: Engine<S>, packets: seq<Packet>, repeats: seq<RepeatEnd>, c: Config<S>): (d: Config<S>)
    requires Linked(packets, repeats) && c.cursor <= |packets|
    ensures d.cursor <= |packets|
  {
    if c.pending then
      var next := Jump(repeats, c.journal, c.cursor);
      if next == c.cursor then c.(pending := false) else c.(cursor := next)
    else if c.cursor == |packets| then c
    else
      var p := packets[c.cursor];
      var (st, stop) := RunPacket(e, p.commands, c.state);
      Config(c.cursor + 1, true, st, c.journal + [JournalRow(c.cursor, p.name, stop)])
  }

  /** The configuration in which the run from `c` ends. */
  ghost function Complete<S>(e: Engine<S>, packets: seq<Packet>, repeats: seq<RepeatEnd>, c: Config<S>): Config<S>
    requires Linked(packets, repeats) && c.cursor <= |packets|
    decreases |packets| - c.cursor, c.pending
  {
    if !c.pending && c.cursor == |packets| then c
    else Complete(e, packets, repeats, Next(e, packets, repeats, c))
  }

  lemma {:induction false} SettledRunIsSame<S>(e: Engine<S>, packets: seq<Packet>, repeats: seq<RepeatEnd>, c: Config<S>)
    requires Linked(packets, repeats) && c.cursor <= |packets| && c.pending
    ensures Complete(e, packets, repeats, c)
         == Complete(e, packets, repeats, Config(Settle(repeats, c.journal, c.cursor, |packets|), false, c.state, c.journal))
    decreases |packets| - c.cursor
  {
    var next := Jump(repeats, c.journal, c.cursor);
    if next != c.cursor {
      SettledRunIsSame(e, packets, repeats, c.(cursor := next));
    }
  }

  /** One packet further, with the cursor settled. */
  ghost function AfterPacket<S>(e: Engine<S>, packets: seq<Packet>, repeats: seq<RepeatEnd>, c: Config<S>): (d: Config<S>)
    requires Linked(packets, repeats) && c.cursor < |packets|
    ensures c.cursor < d.cursor <= |packets|
  {
    var (st, stop) := RunPacket(e, packets[c.cursor].commands, c.state);
    var journal := c.journal + [JournalRow(c.cursor, packets[c.cursor].name, stop)];
    Config(Settle(repeats, journal, c.cursor + 1, |packets|), false, st, journal)
  }

  /** Running one packet and settling the cursor does not change the end of the run. */
  lemma PacketRunIsSame<S>(e: Engine<S>, packets: seq<Packet>, repeats: seq<RepeatEnd>, c: Config<S>)
    requires Linked(packets, repeats) && c.cursor < |packets| && !c.pending
    ensures Complete(e, packets, repeats, c) == Complete(e, packets, repeats, AfterPacket(e, packets, repeats, c))
  {
    var (st, stop) := RunPacket(e, packets[c.cursor].commands, c.state);
    SettledRunIsSame(e, packets, repeats, Config(c.cursor + 1, true, st, c.journal + [JournalRow(c.cursor, packets[c.cursor].name, stop)]));
  }

  /** A flattened program with the function `end` that its moves do not change. */
  datatype Machine<!S> = Machine(engine: Engine<S>, packets: seq<Packet>, repeats: seq<RepeatEnd>, end: Config<S> -> Config<S>)

  ghost predicate IsMachine<S(!new)>(m: Machine<S>) {
    && Linked(m.packets, m.repeats)
    && (forall c: Config<S> {:trigger Next(m.engine, m.packets, m.repeats, c)} ::
          c.cursor <= |m.packets| ==> m.end(c) == m.end(Next(m.engine, m.packets, m.repeats, c)))
    && (forall c: Config<S> :: c.cursor == |m.packets| && !c.pending ==> m.end(c) == c)
  }

  ghost function MachineOf<S(!new)>(e: Engine<S>, packets: seq<Packet>, repeats: seq<RepeatEnd>): (m: Machine<S>)
    requires Linked(packets, repeats)
    ensures IsMachine(m) && m.engine == e && m.packets == packets && m.repeats == repeats
    ensures forall c: Config<S> :: c.cursor <= |packets| ==> m.end(c) == Complete(e, packets, repeats, c)
  {
    Machine(e, packets, repeats, (c: Config<S>) => if c.cursor <= |packets| then Complete(e, packets, repeats, c) else c)
  }

  // ---------- shape of the flattened schedule ----------

  lemma {:induction false} PacketCount(s: Schedule, path: seq<Step>)
    ensures |Packets(s, path)| == Size(s)
    decreases s, 1, 0
  {
    match s
    case Sequence(_) => PacketCountFrom(s, 0, path);
    case Repeat(n, body) => PacketCountRepeat(body, 0, n, path);
    case _ =>
  }

  lemma {:induction false} PacketCountFrom(s: Schedule, i: nat, path: seq<Step>)
    requires s.Sequence? && i <= |s.children|
    ensures |PacketsFrom(s, i, path)| == SizeFrom(s, i)
    decreases s, 0, |s.children| - i
  {
    if i < |s.children| {
      PacketCount(s.children[i], path + [Child(i)]);
      PacketCountFrom(s, i + 1, path);
    }
  }

  lemma {:induction false} PacketCountRepeat(body: Schedule, i: nat, n: nat, path: seq<Step>)
    requires i <= n
    ensures |PacketsRepeat(body, i, n, path)| == Times(n - i, Size(body))
    decreases body, 2, n - i
  {
    if i < n {
      PacketCount(body, path + [Iteration(i)]);
      PacketCountRepeat(body, i + 1, n, path);
    }
  }

  lemma {:induction false} TimesZero(k: nat)
    ensures Times(k, 0) == 0
  {
    if k > 0 { TimesZero(k - 1); }
  }

  /** Records stay inside their schedule, and an empty iteration has nowhere to jump. */
  ghost predicate Inside(r: RepeatEnd, from: nat, to: nat) {
    from <= r.start <= r.end <= r.exit <= to && (r.start == r.end ==> r.exit == r.start)
  }

  ghost predicate AllInside(rs: set<RepeatEnd>, from: nat, to: nat) {
    forall r :: r in rs ==> Inside(r, from, to)
  }

  lemma {:induction false} EndsInside(s: Schedule, base: nat)
    ensures AllInside(Ends(s, base), base, base + Size(s))
    decreases s, 1, 0
  {
    match s
    case Sequence(_) => EndsFromInside(s, 0, base);
    case Repeat(n, body) =>
      EndsRepeatInside(body, 0, n, base);
      OwnEndsInside(Size(body), 0, n, base);
    case _ =>
  }

  lemma {:induction false} EndsFromInside(s: Schedule, i: nat, base: nat)
    requires s.Sequence? && i <= |s.children|
    ensures AllInside(EndsFrom(s, i, base), base, base + SizeFrom(s, i))
    decreases s, 0, |s.children| - i
  {
    if i < |s.children| {
      EndsInside(s.children[i], base);
      EndsFromInside(s, i + 1, base + Size(s.children[i]));
    }
  }

  lemma {:induction false} EndsRepeatInside(body: Schedule, i: nat, n: nat, base: nat)
    requires i <= n
    ensures AllInside(EndsRepeat(body, i, n, base), base, base + Times(n - i, Size(body)))
    decreases body, 2, n - i
  {
    if i < n {
      EndsInside(body, base);
      EndsRepeatInside(body, i + 1, n, base + Size(body));
    }
  }

  lemma {:induction false} OwnEndsInside(size: nat, i: nat, n: nat, base: nat)
    requires i <= n
    ensures AllInside(OwnEnds(size, i, n, base, base + Times(n - i, size)), base, base + Times(n - i, size))
    decreases n - i
  {
    if i < n {
      OwnEndsInside(size, i + 1, n, base + size);
        TimesZero(n - (i + 1));
    }
  }

  // ---------- the flattened run simulates the interpreter ----------

  /** `ps` and `own` are the part of the flattened program that one schedule contributed. */
  ghost predicate Embedded(packets: seq<Packet>, repeats: seq<RepeatEnd>, ps: seq<Packet>, own: set<RepeatEnd>, base: nat) {
    && base + |ps| <= |packets|
    && packets[base..base + |ps|] == ps
    && (forall r :: r in own ==> r in repeats)
    && (forall r :: r in repeats ==> r in own || r.end <= base || r.end >= base + |ps|)
  }

  ghost predicate AllBefore(journal: seq<JournalRow>, base: nat) {
    forall k :: 0 <= k < |journal| ==> journal[k].packet < base
  }

  /** The journal rows of a range of packets are the executed leaves of the interpreter. */
  ghost predicate Recorded(rows: seq<JournalRow>, trace: seq<Executed>, from: nat, to: nat) {
    && |rows| == |trace|
    && forall k :: 0 <= k < |rows| ==>
         from <= rows[k].packet < to && rows[k].name == Leaf(trace[k].path) && rows[k].canStop == trace[k].canStop
  }

  ghost predicate AllCanStop(trace: seq<Executed>) {
    forall k :: 0 <= k < |trace| ==> trace[k].canStop
  }

  lemma {:induction false} FlagIsJoined<S>(e: Engine<S>, s: Schedule, path: seq<Step>, st: S)
    ensures Native(e, s, path, st).canStop == AllCanStop(Native(e, s, path, st).trace)
    decreases s, 1, 0
  {
    match s
    case Sequence(_) => FlagIsJoinedFrom(e, s, 0, path, st);
    case Repeat(n, body) => FlagIsJoinedRepeat(e, body, 0, n, path, st);
    case _ =>
      var (st', stop) := e.leaf(st, s);
      assert Native(e, s, path, st).trace[0].canStop == stop;
  }

  lemma {:induction false} FlagIsJoinedFrom<S>(e: Engine<S>, s: Schedule, i: nat, path: seq<Step>, st: S)
    requires s.Sequence? && i <= |s.children|
    ensures NativeFrom(e, s, i, path, st).canStop == AllCanStop(NativeFrom(e, s, i, path, st).trace)
    decreases s, 0, |s.children| - i
  {
    if i < |s.children| {
      var first := Native(e, s.children[i], path + [Child(i)], st);
      FlagIsJoined(e, s.children[i], path + [Child(i)], st);
      FlagIsJoinedFrom(e, s, i + 1, path, first.state);
      AllCanStopConcat(first.trace, NativeFrom(e, s, i + 1, path, first.state).trace);
    }
  }

  lemma {:induction false} FlagIsJoinedRepeat<S>(e: Engine<S>, body: Schedule, i: nat, n: nat, path: seq<Step>, st: S)
    requires i <= n
    ensures NativeRepeat(e, body, i, n, path, st).canStop == AllCanStop(NativeRepeat(e, body, i, n, path, st).trace)
    decreases body, 2, n - i
  {
    if i < n {
      var first := Native(e, body, path + [Iteration(i)], st);
      FlagIsJoined(e, body, path + [Iteration(i)], st);
      if !first.canStop {
        FlagIsJoinedRepeat(e, body, i + 1, n, path, first.state);
        AllCanStopConcat(first.trace, NativeRepeat(e, body, i + 1, n, path, first.state).trace);
      }
    }
  }

  lemma AllCanStopConcat(a: seq<Executed>, b: seq<Executed>)
    ensures AllCanStop(a + b) <==> AllCanStop(a) && AllCanStop(b)
  {
    assert forall k :: 0 <= k < |a| ==> a[k] == (a + b)[k];
    assert forall k :: 0 <= k < |b| ==> b[k] == (a + b)[|a| + k];
  }

  /** The stop test of a record looks at exactly the rows of its own iteration. */
  lemma IterationStops(journal: seq<JournalRow>, rows: seq<JournalRow>, trace: seq<Executed>, r: RepeatEnd)
    requires AllBefore(journal, r.start) && Recorded(rows, trace, r.start, r.end)
    ensures AllStop(r, journal + rows) == AllCanStop(trace)
  {
    var all := journal + rows;
    assert forall k :: 0 <= k < |rows| ==> rows[k] == all[|journal| + k];
    assert forall k :: 0 <= k < |all| && r.start <= all[k].packet ==> k >= |journal| && all[k] == rows[k - |journal|];
  }

  lemma Settles<S(!new)>(m: Machine<S>, c: Config<S>)
    requires IsMachine(m) && c.cursor <= |m.packets|
    requires forall r :: r in m.repeats ==> !Applies(r, c.journal, c.cursor)
    ensures m.end(c) == m.end(c.(pending := false))
  {
    var next := Next(m.engine, m.packets, m.repeats, c);
    assert forall k :: 0 <= k < |m.repeats| ==> m.repeats[k] in m.repeats;
  }

  lemma Jumps<S(!new)>(m: Machine<S>, c: Config<S>, own: RepeatEnd)
    requires IsMachine(m) && c.cursor <= |m.packets| && c.pending
    requires own in m.repeats && Applies(own, c.journal, c.cursor)
    requires forall r :: r in m.repeats && Applies(r, c.journal, c.cursor) ==> r.exit == own.exit
    ensures own.exit <= |m.packets|
    ensures m.end(c) == m.end(c.(cursor := own.exit))
  {
    var next := Next(m.engine, m.packets, m.repeats, c);
    assert forall k :: 0 <= k < |m.repeats| ==> m.repeats[k] in m.repeats;
    var i :| 0 <= i < |m.repeats| && m.repeats[i] == own;
  }

  /** The two halves of an embedded part are embedded when the other records end outside them. */
  lemma EmbeddedSplit(packets: seq<Packet>, repeats: seq<RepeatEnd>, ps: seq<Packet>, qs: seq<Packet>,
                      own: set<RepeatEnd>, left: set<RepeatEnd>, right: set<RepeatEnd>, base: nat)
    requires Embedded(packets, repeats, ps + qs, own, base)
    requires left + right <= own
    requires forall r :: r in own ==> r in left || r.end <= base || r.end >= base + |ps|
    requires forall r :: r in own ==> r in right || r.end <= base + |ps| || r.end >= base + |ps| + |qs|
    ensures Embedded(packets, repeats, ps, left, base)
    ensures Embedded(packets, repeats, qs, right, base + |ps|)
  {
    var all := packets[base..base + |ps + qs|];
    assert packets[base..base + |ps|] == all[..|ps|] == ps;
    assert packets[base + |ps|..base + |ps| + |qs|] == all[|ps|..] == qs;
  }

  /** A schedule without packets runs nothing and may always be left. */
  lemma {:induction false} NativeNothing<S>(e: Engine<S>, s: Schedule, path: seq<Step>, st: S)
    requires Size(s) == 0
    ensures Native(e, s, path, st) == Report(st, [], true)
    decreases s, 1
  {
    match s
    case Sequence(_) => NativeNothingFrom(e, s, 0, path, st);
    case Repeat(n, body) =>
      if n > 0 {
        NativeNothing(e, body, path + [Iteration(0)], st);
      }
  }

  lemma {:induction false} NativeNothingFrom<S>(e: Engine<S>, s: Schedule, i: nat, path: seq<Step>, st: S)
    requires s.Sequence? && i <= |s.children| && SizeFrom(s, i) == 0
    ensures NativeFrom(e, s, i, path, st) == Report(st, [], true)
    decreases s, 0, |s.children| - i
  {
    if i < |s.children| {
      NativeNothing(e, s.children[i], path + [Child(i)], st);
      NativeNothingFrom(e, s, i + 1, path, st);
    }
  }

  lemma {:induction false} OwnEndsShape(size: nat, i: nat, n: nat, base: nat, exit: nat)
    requires i <= n
    ensures forall r :: r in OwnEnds(size, i, n, base, exit) ==>
              r.exit == exit && r.end >= base + size && (r.end == base + size && size > 0 ==> r.start == base)
    decreases n - i
  {
    if i < n {
      OwnEndsShape(size, i + 1, n, base + size, exit);
    }
  }

  lemma RecordedConcat(a: seq<JournalRow>, s: seq<Executed>, b: seq<JournalRow>, t: seq<Executed>, from: nat, mid: nat, to: nat)
    requires from <= mid <= to
    requires Recorded(a, s, from, mid) && Recorded(b, t, mid, to)
    ensures Recorded(a + b, s + t, from, to)
  {
  }

  /** The run from `base` passes `to` with the state and the leaves of the report. */
  ghost predicate Reaches<S(!new)>(m: Machine<S>,
                             base: nat, st: S, journal: seq<JournalRow>, to: nat, r: Report<S>, rows: seq<JournalRow>)
    requires IsMachine(m)
  {
    && base <= to <= |m.packets|
    && Recorded(rows, r.trace, base, to)
    && m.end(Config(base, false, st, journal))
    == m.end(Config(to, to > base, r.state, journal + rows))
  }

  lemma ReachesThen<S(!new)>(m: Machine<S>, base: nat, st: S, journal: seq<JournalRow>,
                       mid: nat, first: Report<S>, rows: seq<JournalRow>, to: nat, rest: Report<S>, more: seq<JournalRow>, r: Report<S>)
    requires IsMachine(m) && base <= mid <= to <= |m.packets| && (mid < to || base == mid)
    requires Reaches(m, base, st, journal, mid, first, rows)
    requires Reaches(m, mid, first.state, journal + rows, to, rest, more)
    requires mid > base ==>
               m.end(Config(mid, true, first.state, journal + rows)) == m.end(Config(mid, false, first.state, journal + rows))
    requires r.state == rest.state && r.trace == first.trace + rest.trace
    ensures Reaches(m, base, st, journal, to, r, rows + more)
  {
    assert journal + rows + more == journal + (rows + more);
    RecordedConcat(rows, first.trace, more, rest.trace, base, mid, to);
  }

  lemma ReachedAllBefore<S(!new)>(m: Machine<S>, base: nat, st: S, journal: seq<JournalRow>,
                            to: nat, r: Report<S>, rows: seq<JournalRow>)
    requires IsMachine(m) && AllBefore(journal, base)
    requires Reaches(m, base, st, journal, to, r, rows)
    ensures AllBefore(journal + rows, to)
  {
  }

  lemma ReachesSame<S(!new)>(m: Machine<S>, base: nat, st: S, journal: seq<JournalRow>,
                       to: nat, r: Report<S>, rows: seq<JournalRow>, s: Report<S>)
    requires IsMachine(m) && Reaches(m, base, st, journal, to, r, rows)
    requires s.state == r.state && s.trace == r.trace
    ensures Reaches(m, base, st, journal, to, s, rows)
  {
  }

  lemma ReachesNothing<S(!new)>(m: Machine<S>, base: nat, st: S, journal: seq<JournalRow>)
    requires IsMachine(m) && base <= |m.packets|
    ensures Reaches(m, base, st, journal, base, Report(st, [], true), [])
  {
    assert journal + [] == journal;
  }

  lemma {:induction false} Simulates<S(!new)>(m: Machine<S>,
                                        s: Schedule, base: nat, path: seq<Step>, st: S, journal: seq<JournalRow>)
    returns (rows: seq<JournalRow>)
    requires IsMachine(m) && AllBefore(journal, base)
    requires Embedded(m.packets, m.repeats, Packets(s, path), Ends(s, base), base)
    ensures Reaches(m, base, st, journal, base + Size(s), Native(m.engine, s, path, st), rows)
    decreases s, 1, 0
  {
    match s
    case Sequence(_) =>
      rows := SimulatesFrom(m, s, 0, base, path, st, journal);
    case Repeat(n, body) =>
      rows := SimulatesRepeat(m, body, 0, n, base, path, st, journal, base + Size(s));
    case _ =>
      rows := SimulatesLeaf(m, s, base, path, st, journal);
  }

  lemma ChildEmbedded(packets: seq<Packet>, repeats: seq<RepeatEnd>, s: Schedule, i: nat, base: nat, path: seq<Step>)
    requires s.Sequence? && i < |s.children|
    requires Embedded(packets, repeats, PacketsFrom(s, i, path), EndsFrom(s, i, base), base)
    ensures base + SizeFrom(s, i) <= |packets|
    ensures Embedded(packets, repeats, Packets(s.children[i], path + [Child(i)]), Ends(s.children[i], base), base)
    ensures Embedded(packets, repeats, PacketsFrom(s, i + 1, path), EndsFrom(s, i + 1, base + Size(s.children[i])),
                     base + Size(s.children[i]))
    ensures SizeFrom(s, i + 1) > 0 && Size(s.children[i]) > 0 ==>
              forall r :: r in repeats && r.end == base + Size(s.children[i]) ==> r.exit <= r.end
  {
    var child, childPath := s.children[i], path + [Child(i)];
    var mid := base + Size(child);
    PacketCount(child, childPath);
    PacketCountFrom(s, i, path);
    PacketCountFrom(s, i + 1, path);
    EndsInside(child, base);
    EndsFromInside(s, i + 1, mid);
    EmbeddedSplit(packets, repeats, Packets(child, childPath), PacketsFrom(s, i + 1, path),
                  EndsFrom(s, i, base), Ends(child, base), EndsFrom(s, i + 1, mid), base);
  }

  lemma {:induction false} SimulatesFrom<S(!new)>(m: Machine<S>,
                                            s: Schedule, i: nat, base: nat, path: seq<Step>, st: S, journal: seq<JournalRow>)
    returns (rows: seq<JournalRow>)
    requires s.Sequence? && i <= |s.children|
    requires IsMachine(m) && AllBefore(journal, base)
    requires Embedded(m.packets, m.repeats, PacketsFrom(s, i, path), EndsFrom(s, i, base), base)
    ensures Reaches(m, base, st, journal, base + SizeFrom(s, i), NativeFrom(m.engine, s, i, path, st), rows)
    decreases s, 0, |s.children| - i
  {
    if i == |s.children| {
      ReachesNothing(m, base, st, journal);
      rows := [];
      return;
    }
    var child, mid := s.children[i], base + Size(s.children[i]);
    ChildEmbedded(m.packets, m.repeats, s, i, base, path);
    rows := Simulates(m, child, base, path + [Child(i)], st, journal);
    var first := Native(m.engine, child, path + [Child(i)], st);
    if SizeFrom(s, i + 1) == 0 && Size(child) > 0 {
      NativeNothingFrom(m.engine, s, i + 1, path, first.state);
      assert first.trace + [] == first.trace;
      ReachesSame(m, base, st, journal, mid, first, rows, NativeFrom(m.engine, s, i, path, st));
    } else {
      ReachedAllBefore(m, base, st, journal, mid, first, rows);
      if Size(child) > 0 {
        Settles(m, Config(mid, true, first.state, journal + rows));
      }
      var more := SimulatesFrom(m, s, i + 1, mid, path, first.state, journal + rows);
      ReachesThen(m, base, st, journal, mid, first, rows, base + SizeFrom(s, i),
                  NativeFrom(m.engine, s, i + 1, path, first.state), more, NativeFrom(m.engine, s, i, path, st));
      rows := rows + more;
    }
  }

  lemma SimulatesLeaf<S(!new)>(m: Machine<S>,
                         s: Schedule, base: nat, path: seq<Step>, st: S, journal: seq<JournalRow>)
    returns (rows: seq<JournalRow>)
    requires s.Atomic() && IsMachine(m) && base < |m.packets|
    requires m.packets[base..base + 1] == [Packet(Leaf(path), [RunSchedule(s)])]
    ensures Reaches(m, base, st, journal, base + 1, Native(m.engine, s, path, st), rows)
  {
    var (st', stop) := m.engine.leaf(st, s);
    rows := [JournalRow(base, Leaf(path), stop)];
    var next := Next(m.engine, m.packets, m.repeats, Config(base, false, st, journal));
    assert m.packets[base] == m.packets[base..base + 1][0];
    assert RunPacket(m.engine, [RunSchedule(s)], st) == (st', stop) by {
      assert RunPacket(m.engine, [RunSchedule(s)][1..], st') == (st', true);
    }
  }

  /** Records that could apply between two iterations: only the one of the iteration that just ended. */
  lemma BetweenIterations(packets: seq<Packet>, repeats: seq<RepeatEnd>, body: Schedule, i: nat, n: nat,
                          base: nat, path: seq<Step>, exit: nat)
    requires i + 1 < n && Size(body) > 0 && exit == base + Times(n - i, Size(body))
    requires Embedded(packets, repeats, PacketsRepeat(body, i, n, path),
                      EndsRepeat(body, i, n, base) + OwnEnds(Size(body), i, n, base, exit), base)
    ensures exit > base + Size(body)
    ensures RepeatEnd(base, base + Size(body), exit) in repeats
    ensures forall r :: r in repeats && r.end == base + Size(body) && r.exit > r.end ==>
              r == RepeatEnd(base, base + Size(body), exit)
  {
    var size := Size(body);
    PacketCountRepeat(body, i, n, path);
    EndsInside(body, base);
    EndsRepeatInside(body, i + 1, n, base + size);
    OwnEndsShape(size, i, n, base, exit);
    assert RepeatEnd(base, base + size, exit) in OwnEnds(size, i, n, base, exit);
  }

  /** After an iteration that is not the last: out of the loop if it can stop, on to the next one if not. */
  lemma IterationEnds<S(!new)>(m: Machine<S>, body: Schedule, base: nat, bodyPath: seq<Step>, st: S,
                               journal: seq<JournalRow>, rows: seq<JournalRow>, exit: nat)
    requires IsMachine(m) && AllBefore(journal, base) && base + Size(body) < exit <= |m.packets|
    requires Recorded(rows, Native(m.engine, body, bodyPath, st).trace, base, base + Size(body))
    requires RepeatEnd(base, base + Size(body), exit) in m.repeats
    requires forall r :: r in m.repeats && r.end == base + Size(body) && r.exit > r.end ==>
               r == RepeatEnd(base, base + Size(body), exit)
    ensures var first := Native(m.engine, body, bodyPath, st);
            m.end(Config(base + Size(body), true, first.state, journal + rows)) ==
            m.end(Config(if first.canStop then exit else base + Size(body), first.canStop, first.state, journal + rows))
  {
    var first, own := Native(m.engine, body, bodyPath, st), RepeatEnd(base, base + Size(body), exit);
    IterationStops(journal, rows, first.trace, own);
    FlagIsJoined(m.engine, body, bodyPath, st);
    if first.canStop {
      Jumps(m, Config(base + Size(body), true, first.state, journal + rows), own);
    } else {
      Settles(m, Config(base + Size(body), true, first.state, journal + rows));
    }
  }

  /** The records of a loop are those of its next iteration, those after it, and the iteration's own. */
  lemma IterationRecords(body: Schedule, i: nat, n: nat, base: nat, exit: nat)
    requires i < n && exit == base + Times(n - i, Size(body))
    ensures var size := Size(body); var own := EndsRepeat(body, i, n, base) + OwnEnds(size, i, n, base, exit);
            var left := Ends(body, base); var right := EndsRepeat(body, i + 1, n, base + size) + OwnEnds(size, i + 1, n, base + size, exit);
            && left + right <= own && exit == base + size + Times(n - (i + 1), size)
            && (forall r :: r in own ==> r in left || r.end <= base || r.end >= base + size)
            && forall r :: r in own ==> r in right || r.end <= base + size || r.end >= exit
  {
    EndsInside(body, base);
    EndsRepeatInside(body, i + 1, n, base + Size(body));
    OwnEndsShape(Size(body), i, n, base, exit);
  }

  lemma IterationEmbedded(packets: seq<Packet>, repeats: seq<RepeatEnd>, body: Schedule, i: nat, n: nat,
                          base: nat, path: seq<Step>, exit: nat)
    requires i < n && exit == base + Times(n - i, Size(body))
    requires Embedded(packets, repeats, PacketsRepeat(body, i, n, path),
                      EndsRepeat(body, i, n, base) + OwnEnds(Size(body), i, n, base, exit), base)
    ensures exit == base + Size(body) + Times(n - (i + 1), Size(body)) <= |packets|
    ensures Embedded(packets, repeats, Packets(body, path + [Iteration(i)]), Ends(body, base), base)
    ensures Embedded(packets, repeats, PacketsRepeat(body, i + 1, n, path),
                     EndsRepeat(body, i + 1, n, base + Size(body)) + OwnEnds(Size(body), i + 1, n, base + Size(body), exit),
                     base + Size(body))
  {
    var size := Size(body);
    PacketCount(body, path + [Iteration(i)]);
    PacketCountRepeat(body, i, n, path);
    PacketCountRepeat(body, i + 1, n, path);
    IterationRecords(body, i, n, base, exit);
    EmbeddedSplit(packets, repeats, Packets(body, path + [Iteration(i)]), PacketsRepeat(body, i + 1, n, path),
                  EndsRepeat(body, i, n, base) + OwnEnds(size, i, n, base, exit),
                  Ends(body, base),
                  EndsRepeat(body, i + 1, n, base + size) + OwnEnds(size, i + 1, n, base + size, exit), base);
  }

  /** An iteration after which no packet of the loop is left. */
  lemma LastIteration<S(!new)>(m: Machine<S>, body: Schedule, i: nat, n: nat, base: nat, path: seq<Step>, st: S,
                               journal: seq<JournalRow>, exit: nat, rows: seq<JournalRow>)
    requires IsMachine(m) && i < n && exit == base + Times(n - i, Size(body)) && (Size(body) == 0 || i + 1 == n)
    requires Reaches(m, base, st, journal, base + Size(body), Native(m.engine, body, path + [Iteration(i)], st), rows)
    ensures Reaches(m, base, st, journal, exit, NativeRepeat(m.engine, body, i, n, path, st), rows)
  {
    var first := Native(m.engine, body, path + [Iteration(i)], st);
    if Size(body) == 0 {
      NativeNothing(m.engine, body, path + [Iteration(i)], st);
      TimesZero(n - i);
    } else {
      assert NativeRepeat(m.engine, body, i + 1, n, path, first.state) == Report(first.state, [], true);
      assert first.trace + [] == first.trace;
    }
    ReachesSame(m, base, st, journal, exit, first, rows, NativeRepeat(m.engine, body, i, n, path, st));
  }

  lemma {:induction false} SimulatesRepeat<S(!new)>(m: Machine<S>,
                                              body: Schedule, i: nat, n: nat, base: nat, path: seq<Step>, st: S,
                                              journal: seq<JournalRow>, exit: nat)
    returns (rows: seq<JournalRow>)
    requires i <= n && exit == base + Times(n - i, Size(body))
    requires IsMachine(m) && AllBefore(journal, base)
    requires Embedded(m.packets, m.repeats, PacketsRepeat(body, i, n, path),
                      EndsRepeat(body, i, n, base) + OwnEnds(Size(body), i, n, base, exit), base)
    ensures Reaches(m, base, st, journal, exit, NativeRepeat(m.engine, body, i, n, path, st), rows)
    decreases body, 2, n - i
  {
    if i == n {
      ReachesNothing(m, base, st, journal);
      rows := [];
      return;
    }
    var mid, bodyPath := base + Size(body), path + [Iteration(i)];
    IterationEmbedded(m.packets, m.repeats, body, i, n, base, path, exit);
    rows := Simulates(m, body, base, bodyPath, st, journal);
    var first := Native(m.engine, body, bodyPath, st);
    if Size(body) == 0 || i + 1 == n {
      LastIteration(m, body, i, n, base, path, st, journal, exit, rows);
    } else {
      BetweenIterations(m.packets, m.repeats, body, i, n, base, path, exit);
      IterationEnds(m, body, base, bodyPath, st, journal, rows, exit);
      if !first.canStop {
        ReachedAllBefore(m, base, st, journal, mid, first, rows);
        var more := SimulatesRepeat(m, body, i + 1, n, mid, path, first.state, journal + rows, exit);
        var rest := NativeRepeat(m.engine, body, i + 1, n, path, first.state);
        var both := Report(rest.state, first.trace + rest.trace, false);
        assert NativeRepeat(m.engine, body, i, n, path, st) == both;
        ReachesThen(m, base, st, journal, mid, first, rows, exit, rest, more, both);
        rows := rows + more;
      }
    }
  }

  // ---------- whole programs ----------

  /** Host commands are batched into one packet before the next schedule, or at the end. */
  ghost function ProgramPackets(commands: seq<Command>, i: nat, setup: seq<Command>): seq<Packet>
    requires i <= |commands|
    decreases |commands| - i
  {
    if i == |commands| then (if setup == [] then [] else [Packet(FinalCommands, setup)])
    else if commands[i].Host? then ProgramPackets(commands, i + 1, setup + [commands[i]])
    else (if setup == [] then [] else [Packet(SetupBefore(i), setup)])
         + (Packets(commands[i].schedule, [OfCommand(i)]) + ProgramPackets(commands, i + 1, []))
  }

  ghost function ProgramEnds(commands: seq<Command>, i: nat, setup: seq<Command>, base: nat): set<RepeatEnd>
    requires i <= |commands|
    decreases |commands| - i
  {
    if i == |commands| then {}
    else if commands[i].Host? then ProgramEnds(commands, i + 1, setup + [commands[i]], base)
    else
      var from := if setup == [] then base else base + 1;
      Ends(commands[i].schedule, from) + ProgramEnds(commands, i + 1, [], from + Size(commands[i].schedule))
  }

  ghost function RunHosts<S>(e: Engine<S>, setup: seq<Command>, st: S): S
    requires forall k :: 0 <= k < |setup| ==> setup[k].Host?
  {
    if setup == [] then st else RunHosts(e, setup[1..], e.host(st, setup[0].text))
  }

  lemma {:induction false} RunHostsPacket<S>(e: Engine<S>, setup: seq<Command>, st: S)
    requires forall k :: 0 <= k < |setup| ==> setup[k].Host?
    ensures RunPacket(e, setup, st) == (RunHosts(e, setup, st), true)
  {
    if setup != [] { RunHostsPacket(e, setup[1..], e.host(st, setup[0].text)); }
  }

  lemma {:induction false} RunHostsAppend<S>(e: Engine<S>, setup: seq<Command>, text: string, st: S)
    requires forall k :: 0 <= k < |setup| ==> setup[k].Host?
    ensures RunHosts(e, setup + [Host(text)], st) == e.host(RunHosts(e, setup, st), text)
  {
    if setup == [] {
      assert [Host(text)][1..] == [];
    } else {
      assert (setup + [Host(text)])[1..] == setup[1..] + [Host(text)];
      RunHostsAppend(e, setup[1..], text, e.host(st, setup[0].text));
    }
  }

  lemma {:induction false} ProgramEndsInside(commands: seq<Command>, i: nat, setup: seq<Command>, base: nat)
    requires i <= |commands|
    ensures AllInside(ProgramEnds(commands, i, setup, base), base, base + |ProgramPackets(commands, i, setup)|)
    ensures i < |commands| && !commands[i].Host? && setup != [] ==>
              AllInside(ProgramEnds(commands, i, setup, base), base + 1, base + |ProgramPackets(commands, i, setup)|)
    decreases |commands| - i
  {
    if i < |commands| {
      if commands[i].Host? {
        ProgramEndsInside(commands, i + 1, setup + [commands[i]], base);
      } else {
        var from := if setup == [] then base else base + 1;
        EndsInside(commands[i].schedule, from);
        PacketCount(commands[i].schedule, [OfCommand(i)]);
        ProgramEndsInside(commands, i + 1, [], from + Size(commands[i].schedule));
      }
    }
  }

  /** The schedule leaves in a journal. */
  function Leaves(journal: seq<JournalRow>): seq<Executed> {
    if journal == [] then []
    else if journal[0].name.Leaf? then [Executed(journal[0].name.path, journal[0].canStop)] + Leaves(journal[1..])
    else Leaves(journal[1..])
  }

  lemma {:induction false} LeavesConcat(a: seq<JournalRow>, b: seq<JournalRow>)
    ensures Leaves(a + b) == Leaves(a) + Leaves(b)
  {
    if a == [] {
      assert a + b == b;
    } else {
      assert (a + b)[1..] == a[1..] + b;
      LeavesConcat(a[1..], b);
    }
  }

  lemma {:induction false} LeavesRecorded(rows: seq<JournalRow>, trace: seq<Executed>, from: nat, to: nat)
    requires Recorded(rows, trace, from, to)
    ensures Leaves(rows) == trace
  {
    if rows != [] {
      LeavesRecorded(rows[1..], trace[1..], from, to);
      assert trace == [trace[0]] + trace[1..];
    }
  }

  /** From `base` the machine journals `rows` and ends with what is reported. */
  ghost predicate EndsAs<S(!new)>(m: Machine<S>, r: Report<S>, base: nat, st: S, journal: seq<JournalRow>, rows: seq<JournalRow>) {
    Leaves(rows) == r.trace && m.end(Config(base, false, st, journal)) == Config(|m.packets|, false, r.state, journal + rows)
  }

  lemma EndsAsOn<S(!new)>(m: Machine<S>, r: Report<S>, base: nat, st: S, journal: seq<JournalRow>,
                          rest: Report<S>, to: nat, later: S, first: seq<JournalRow>, more: seq<JournalRow>)
    requires EndsAs(m, rest, to, later, journal + first, more) && r.state == rest.state && r.trace == Leaves(first) + rest.trace
    requires m.end(Config(base, false, st, journal)) == m.end(Config(to, false, later, journal + first))
    ensures EndsAs(m, r, base, st, journal, first + more)
  {
    LeavesConcat(first, more);
    assert journal + first + more == journal + (first + more);
  }

  /** Every journal entry after the setup packet, settled: nothing jumps over a command boundary. */
  lemma {:induction false} SimulatesProgram<S(!new)>(m: Machine<S>, commands: seq<Command>, i: nat, setup: seq<Command>,
                                                     base: nat, st: S, journal: seq<JournalRow>)
    returns (rows: seq<JournalRow>)
    requires i <= |commands| && forall k :: 0 <= k < |setup| ==> setup[k].Host?
    requires IsMachine(m) && AllBefore(journal, base)
    requires base + |ProgramPackets(commands, i, setup)| == |m.packets|
    requires Embedded(m.packets, m.repeats, ProgramPackets(commands, i, setup), ProgramEnds(commands, i, setup, base), base)
    ensures EndsAs(m, NativeProgram(m.engine, commands, i, RunHosts(m.engine, setup, st)), base, st, journal, rows)
    decreases |commands| - i, |setup|
  {
    if i < |commands| && commands[i].Host? {
      RunHostsAppend(m.engine, setup, commands[i].text, st);
      rows := SimulatesProgram(m, commands, i + 1, setup + [commands[i]], base, st, journal);
    } else if setup != [] {
      var now := RunHosts(m.engine, setup, st);
      var row := SimulatesSetup(m, commands, i, setup, base, st, journal);
      var more := SimulatesProgram(m, commands, i, [], base + 1, now, journal + [row]);
      rows := [row] + more;
      var r := NativeProgram(m.engine, commands, i, now);
      EndsAsOn(m, r, base, st, journal, r, base + 1, now, [row], more);
    } else if i == |commands| {
      rows := [];
      assert journal + rows == journal;
    } else {
      var first := SimulatesCommand(m, commands, i, base, st, journal);
      var s, r := commands[i].schedule, Native(m.engine, commands[i].schedule, [OfCommand(i)], st);
      var more := SimulatesProgram(m, commands, i + 1, [], base + Size(s), r.state, journal + first);
      rows := first + more;
      LeavesRecorded(first, r.trace, base, base + Size(s));
      CommandThenRest(m.engine, commands, i, st);
      EndsAsOn(m, NativeProgram(m.engine, commands, i, st), base, st, journal,
               NativeProgram(m.engine, commands, i + 1, r.state), base + Size(s), r.state, first, more);
    }
  }

  /** A command and the rest of the program make the program. */
  lemma CommandThenRest<S(!new)>(e: Engine<S>, commands: seq<Command>, i: nat, st: S)
    requires i < |commands| && !commands[i].Host?
    ensures var r := Native(e, commands[i].schedule, [OfCommand(i)], st);
            var rest := NativeProgram(e, commands, i + 1, r.state);
            NativeProgram(e, commands, i, st).state == rest.state && NativeProgram(e, commands, i, st).trace == r.trace + rest.trace
  {
  }

  /** The packet that batches the host commands. */
  lemma SimulatesSetup<S(!new)>(m: Machine<S>, commands: seq<Command>, i: nat, setup: seq<Command>,
                                base: nat, st: S, journal: seq<JournalRow>)
    returns (row: JournalRow)
    requires i <= |commands| && setup != [] && forall k :: 0 <= k < |setup| ==> setup[k].Host?
    requires i < |commands| ==> !commands[i].Host?
    requires IsMachine(m) && AllBefore(journal, base)
    requires base + |ProgramPackets(commands, i, setup)| == |m.packets|
    requires Embedded(m.packets, m.repeats, ProgramPackets(commands, i, setup), ProgramEnds(commands, i, setup, base), base)
    ensures !row.name.Leaf? && AllBefore(journal + [row], base + 1)
    ensures base + 1 + |ProgramPackets(commands, i, [])| == |m.packets|
    ensures Embedded(m.packets, m.repeats, ProgramPackets(commands, i, []), ProgramEnds(commands, i, [], base + 1), base + 1)
    ensures m.end(Config(base, false, st, journal)) ==
            m.end(Config(base + 1, false, RunHosts(m.engine, setup, st), journal + [row]))
  {
    var p := ProgramPackets(commands, i, setup)[0];
    var rest := ProgramPackets(commands, i, []);
    assert ProgramPackets(commands, i, setup) == [p] + rest;
    ProgramEndsInside(commands, i, setup, base);
    EmbeddedSplit(m.packets, m.repeats, [p], rest, ProgramEnds(commands, i, setup, base), {},
                  ProgramEnds(commands, i, [], base + 1), base);
    assert m.packets[base] == m.packets[base..base + 1][0] == p;
    RunHostsPacket(m.engine, setup, st);
    row := JournalRow(base, p.name, true);
    var next := Next(m.engine, m.packets, m.repeats, Config(base, false, st, journal));
    Settles(m, next);
  }

  /** One schedule command, with the cursor settled on the packet after it. */
  lemma SimulatesCommand<S(!new)>(m: Machine<S>, commands: seq<Command>, i: nat, base: nat, st: S, journal: seq<JournalRow>)
    returns (rows: seq<JournalRow>)
    requires i < |commands| && !commands[i].Host?
    requires IsMachine(m) && AllBefore(journal, base)
    requires base + |ProgramPackets(commands, i, [])| == |m.packets|
    requires Embedded(m.packets, m.repeats, ProgramPackets(commands, i, []), ProgramEnds(commands, i, [], base), base)
    ensures var s := commands[i].schedule; var to := base + Size(s); var r := Native(m.engine, s, [OfCommand(i)], st);
            && Recorded(rows, r.trace, base, to) && AllBefore(journal + rows, to)
            && to + |ProgramPackets(commands, i + 1, [])| == |m.packets|
            && Embedded(m.packets, m.repeats, ProgramPackets(commands, i + 1, []), ProgramEnds(commands, i + 1, [], to), to)
            && m.end(Config(base, false, st, journal)) == m.end(Config(to, false, r.state, journal + rows))
  {
    var s := commands[i].schedule;
    var to := base + Size(s);
    var ps, rest := Packets(s, [OfCommand(i)]), ProgramPackets(commands, i + 1, []);
    assert ProgramPackets(commands, i, []) == ps + rest;
    PacketCount(s, [OfCommand(i)]);
    EndsInside(s, base);
    ProgramEndsInside(commands, i + 1, [], to);
    EmbeddedSplit(m.packets, m.repeats, ps, rest, ProgramEnds(commands, i, [], base), Ends(s, base),
                  ProgramEnds(commands, i + 1, [], to), base);
    rows := Simulates(m, s, base, [OfCommand(i)], st, journal);
    var r := Native(m.engine, s, [OfCommand(i)], st);
    ReachedAllBefore(m, base, st, journal, to, r, rows);
    if Size(s) > 0 {
      Settles(m, Config(to, true, r.state, journal + rows));
    }
  }

  // ---------- the debugger ----------

  function ToSet(rs: seq<RepeatEnd>): set<RepeatEnd> {
    set r | r in rs
  }

  /** The flattened form of a program, record order aside. */
  ghost predicate Flattened(commands: seq<Command>, packets: seq<Packet>, repeats: seq<RepeatEnd>) {
    packets == ProgramPackets(commands, 0, []) && ToSet(repeats) == ProgramEnds(commands, 0, [], 0)
  }

  lemma FlattenedIsLinked(commands: seq<Command>, packets: seq<Packet>, repeats: seq<RepeatEnd>)
    requires Flattened(commands, packets, repeats)
    ensures Linked(packets, repeats)
  {
    ProgramEndsInside(commands, 0, [], 0);
    assert forall k :: 0 <= k < |repeats| ==> repeats[k] in ToSet(repeats);
  }

  /** Main theorem: the cursor machine ends in the state of the intact program, having run the same leaves. */
  lemma FlatteningPreserves<S(!new)>(e: Engine<S>, commands: seq<Command>, packets: seq<Packet>, repeats: seq<RepeatEnd>, st: S)
    requires Flattened(commands, packets, repeats) && Linked(packets, repeats)
    ensures var end := Complete(e, packets, repeats, Config(0, false, st, []));
            && end.cursor == |packets| && !end.pending
            && end.state == NativeProgram(e, commands, 0, st).state
            && Leaves(end.journal) == NativeProgram(e, commands, 0, st).trace
  {
    var m := MachineOf(e, packets, repeats);
    assert forall r :: r in repeats <==> r in ToSet(repeats);
    assert packets[0..|packets|] == packets;
    var rows := SimulatesProgram(m, commands, 0, [], 0, st, []);
    assert [] + rows == rows;
    assert m.end(Config(0, false, st, [])) == Complete(e, packets, repeats, Config(0, false, st, []));
  }

  /** Follows jump records until none applies. */
  method Advance(from: nat, repeats: seq<RepeatEnd>, journal: seq<JournalRow>, ghost limit: nat) returns (c: nat)
    requires from <= limit && forall k :: 0 <= k < |repeats| ==> repeats[k].exit <= limit
    ensures c == Settle(repeats, journal, from, limit) && from <= c <= limit
    ensures forall k :: 0 <= k < |repeats| ==> !Applies(repeats[k], journal, c)
  {
    c := from;
    while true
      invariant c <= limit && Settle(repeats, journal, c, limit) == Settle(repeats, journal, from, limit)
      decreases limit - c
    {
      var next := Jump(repeats, journal, c);
      if next == c { return; }
      c := next;
    }
  }

  datatype Request = NextPackets(count: nat) | Until(filter: Label -> bool) | Finish

  // ---------- where a request pauses ----------

  /** Packets run one after the other, each from a cursor before the stop, up to the first cursor that is not. */
  ghost predicate DrivesTo<S>(e: Engine<S>, packets: seq<Packet>, repeats: seq<RepeatEnd>, stop: nat, run: seq<Config<S>>)
    requires Linked(packets, repeats) && stop <= |packets|
  {
    && run != [] && run[|run| - 1].cursor >= stop
    && (forall i :: 0 <= i < |run| - 1 ==> run[i].cursor < stop)
    && (forall i :: 0 <= i < |run| - 1 ==> run[i + 1] == AfterPacket(e, packets, repeats, run[i]))
  }

  /** `to` is the first settled configuration from `from` whose cursor is at or beyond the stop. */
  ghost predicate PausesAt<S(!new)>(e: Engine<S>, packets: seq<Packet>, repeats: seq<RepeatEnd>, from: Config<S>, stop: nat, to: Config<S>)
    requires Linked(packets, repeats) && stop <= |packets|
  {
    exists run: seq<Config<S>> :: DrivesTo(e, packets, repeats, stop, run) && run[0] == from && run[|run| - 1] == to
  }

  lemma {:induction false} RunsAlike<S>(e: Engine<S>, packets: seq<Packet>, repeats: seq<RepeatEnd>, stop: nat,
                                        a: seq<Config<S>>, b: seq<Config<S>>)
    requires Linked(packets, repeats) && stop <= |packets|
    requires DrivesTo(e, packets, repeats, stop, a) && DrivesTo(e, packets, repeats, stop, b) && a[0] == b[0]
    ensures a == b
    decreases |a|
  {
    assert |a| > 1 <==> a[0].cursor < stop;
    assert |b| > 1 <==> b[0].cursor < stop;
    if |a| > 1 {
      RunsAlike(e, packets, repeats, stop, a[1..], b[1..]);
      assert a == [a[0]] + a[1..] && b == [b[0]] + b[1..];
    }
  }

  /** There is only one place where a request pauses. */
  lemma PausesOnce<S(!new)>(e: Engine<S>, packets: seq<Packet>, repeats: seq<RepeatEnd>, from: Config<S>, stop: nat, a: Config<S>, b: Config<S>)
    requires Linked(packets, repeats) && stop <= |packets|
    requires PausesAt(e, packets, repeats, from, stop, a) && PausesAt(e, packets, repeats, from, stop, b)
    ensures a == b
  {
    var x: seq<Config<S>> :| DrivesTo(e, packets, repeats, stop, x) && x[0] == from && x[|x| - 1] == a;
    var y: seq<Config<S>> :| DrivesTo(e, packets, repeats, stop, y) && y[0] == from && y[|y| - 1] == b;
    RunsAlike(e, packets, repeats, stop, x, y);
  }

  /** The new journal rows are of packets between the cursor and the stop, in order. */
  ghost predicate RowsUpTo(rows: seq<JournalRow>, from: nat, stop: nat) {
    && (forall i :: 0 <= i < |rows| ==> from <= rows[i].packet < stop)
    && (forall i, j :: 0 <= i < j < |rows| ==> rows[i].packet < rows[j].packet)
  }

  /** Exactly the packets before the stop were run; a packet at the stop or beyond never is. */
  lemma {:induction false} RowsOfRun<S>(e: Engine<S>, packets: seq<Packet>, repeats: seq<RepeatEnd>, stop: nat, run: seq<Config<S>>)
    returns (rows: seq<JournalRow>)
    requires Linked(packets, repeats) && stop <= |packets| && DrivesTo(e, packets, repeats, stop, run)
    ensures run[|run| - 1].journal == run[0].journal + rows && |rows| == |run| - 1
    ensures RowsUpTo(rows, run[0].cursor, stop) && (rows != [] ==> rows[0].packet == run[0].cursor)
    decreases |run|
  {
    if |run| == 1 {
      rows := [];
    } else {
      var next := AfterPacket(e, packets, repeats, run[0]);
      var rest := RowsOfRun(e, packets, repeats, stop, run[1..]);
      var row := next.journal[|run[0].journal|];
      rows := [row] + rest;
      assert next.journal == run[0].journal + [row];
      assert run[0].journal + [row] + rest == run[0].journal + rows;
    }
  }

  lemma {:induction false} SettledThere(repeats: seq<RepeatEnd>, journal: seq<JournalRow>, cursor: nat, limit: nat)
    requires cursor <= limit && forall k :: 0 <= k < |repeats| ==> repeats[k].exit <= limit
    ensures forall k :: 0 <= k < |repeats| ==> !Applies(repeats[k], journal, Settle(repeats, journal, cursor, limit))
    decreases limit - cursor
  {
    var next := Jump(repeats, journal, cursor);
    if next != cursor { SettledThere(repeats, journal, next, limit); }
  }

  /** After a packet the prompt never stands where an iteration that could stop has ended before its exit. */
  lemma PausesSettled<S(!new)>(e: Engine<S>, packets: seq<Packet>, repeats: seq<RepeatEnd>, from: Config<S>, stop: nat, to: Config<S>, k: nat)
    requires Linked(packets, repeats) && stop <= |packets| && from.cursor < stop && k < |repeats|
    requires PausesAt(e, packets, repeats, from, stop, to)
    requires repeats[k].end == to.cursor && repeats[k].exit > to.cursor
    ensures exists i :: 0 <= i < |to.journal| && repeats[k].start <= to.journal[i].packet < repeats[k].end && !to.journal[i].canStop
  {
    var run: seq<Config<S>> :| DrivesTo(e, packets, repeats, stop, run) && run[0] == from && run[|run| - 1] == to;
    var last := run[|run| - 2];
    assert to == AfterPacket(e, packets, repeats, last);
    SettledThere(repeats, to.journal, last.cursor + 1, |packets|);
    assert !Applies(repeats[k], to.journal, to.cursor);
  }

  /** A request for `count` packets runs at most so many, at least one if it can, and with `count` 1 exactly one. */
  lemma CountIsKept<S(!new)>(e: Engine<S>, packets: seq<Packet>, repeats: seq<RepeatEnd>, from: Config<S>, count: nat, to: Config<S>)
    requires Linked(packets, repeats) && from.cursor < |packets| && count > 0
    requires PausesAt(e, packets, repeats, from, if from.cursor + count < |packets| then from.cursor + count else |packets|, to)
    ensures |from.journal| < |to.journal| <= |from.journal| + count
    ensures count == 1 ==> to == AfterPacket(e, packets, repeats, from)
  {
    var stop := if from.cursor + count < |packets| then from.cursor + count else |packets|;
    var run: seq<Config<S>> :| DrivesTo(e, packets, repeats, stop, run) && run[0] == from && run[|run| - 1] == to;
    var rows := RowsOfRun(e, packets, repeats, stop, run);
    ManyRows(rows, from.cursor, stop);
    assert run[1] == AfterPacket(e, packets, repeats, from);
  }

  lemma {:induction false} ManyRows(rows: seq<JournalRow>, from: nat, stop: nat)
    requires RowsUpTo(rows, from, stop) && from <= stop
    ensures |rows| <= stop - from
    decreases |rows|
  {
    if rows != [] {
      var n := |rows| - 1;
      ManyRows(rows[..n], from, rows[n].packet);
    }
  }

  /** The first packet from the cursor whose label fits. */
  ghost predicate FirstFit(packets: seq<Packet>, filter: Label -> bool, cursor: nat, found: nat) {
    && cursor <= found < |packets| && filter(packets[found].name)
    && forall k :: cursor <= k < found ==> !filter(packets[k].name)
  }

  ghost predicate Fits(packets: seq<Packet>, filter: Label -> bool, cursor: nat) {
    exists k :: cursor <= k < |packets| && filter(packets[k].name)
  }

  /** What a request does to a paused session. */
  ghost predicate Handled<S(!new)>(e: Engine<S>, packets: seq<Packet>, repeats: seq<RepeatEnd>, request: Request, from: Config<S>, to: Config<S>)
    requires Linked(packets, repeats)
  {
    match request
    case NextPackets(count) =>
      PausesAt(e, packets, repeats, from, if from.cursor + count < |packets| then from.cursor + count else |packets|, to)
    case Until(filter) =>
      if Fits(packets, filter, from.cursor)
      then exists found: nat :: FirstFit(packets, filter, from.cursor, found) && PausesAt(e, packets, repeats, from, found, to)
      else to == from
    case Finish => PausesAt(e, packets, repeats, from, |packets|, to)
  }

  class Debugger<S(!new)> {
    const engine: Engine<S>
    var state: S
    var packets: seq<Packet>
    var repeats: seq<RepeatEnd>
    var cursor: nat
    var journal: seq<JournalRow>

    ghost predicate Ready()
      reads this
    {
      Linked(packets, repeats) && cursor <= |packets|
    }

    ghost function Outcome(): Config<S>
      reads this
      requires Ready()
    {
      Complete(engine, packets, repeats, Config(cursor, false, state, journal))
    }

    /** The session is still on the way to what the intact program does. */
    ghost predicate Faithful(commands: seq<Command>, initial: S)
      reads this
    {
      && Ready()
      && var reference := NativeProgram(engine, commands, 0, initial);
         Outcome().state == reference.state && Leaves(Outcome().journal) == reference.trace
    }

    constructor (e: Engine<S>, initial: S, commands: seq<Command>)
      ensures engine == e && cursor == 0 && Faithful(commands, initial)
    {
      engine, state, packets, repeats, cursor, journal := e, initial, [], [], 0, [];
      new;
      Load(commands);
      FlattenedIsLinked(commands, packets, repeats);
      FlatteningPreserves(e, commands, packets, repeats, initial);
    }

    /** Unpacks Sequence and Repeat, pushing packets and jump records. */
    method Schedule(s: Schedule, path: seq<Step>)
      modifies this`packets, this`repeats
      ensures packets == old(packets) + Packets(s, path)
      ensures ToSet(repeats) == old(ToSet(repeats)) + Ends(s, |old(packets)|)
      decreases s, 1
    {
      match s
      case Sequence(_) => ScheduleChildren(s, path);
      case Repeat(_, _) => ScheduleIterations(s, path);
      case _ => packets := packets + [Packet(Leaf(path), [RunSchedule(s)])];
    }

    method ScheduleChildren(s: Schedule, path: seq<Step>)
      requires s.Sequence?
      modifies this`packets, this`repeats
      ensures packets == old(packets) + Packets(s, path)
      ensures ToSet(repeats) == old(ToSet(repeats)) + Ends(s, |old(packets)|)
      decreases s, 0
    {
      for i := 0 to |s.children|
        invariant packets + PacketsFrom(s, i, path) == old(packets) + Packets(s, path)
        invariant ToSet(repeats) + EndsFrom(s, i, |packets|) == old(ToSet(repeats)) + Ends(s, |old(packets)|)
      {
        PacketCount(s.children[i], path + [Child(i)]);
        Schedule(s.children[i], path + [Child(i)]);
      }
    }

    method ScheduleIterations(s: Schedule, path: seq<Step>)
      requires s.Repeat?
      modifies this`packets, this`repeats
      ensures packets == old(packets) + Packets(s, path)
      ensures ToSet(repeats) == old(ToSet(repeats)) + Ends(s, |old(packets)|)
      decreases s, 0
    {
      var n, body := s.count, s.body;
      var iterations: seq<Span> := [];
      ghost var packets0, records0 := packets, ToSet(repeats);
      for i := 0 to n
        invariant Unrolling(body, i, n, path, packets0, records0, packets, ToSet(repeats), iterations)
      {
        var start := |packets|;
        ghost var now, records := packets, ToSet(repeats);
        Schedule(body, path + [Iteration(i)]);
        UnrollingStep(body, i, n, path, packets0, records0, now, records, iterations);
        iterations := iterations + [Span(start, |packets|)];
      }
      var exit := |packets|;
      ToSetConcat(repeats, Exits(iterations, exit));
      repeats := repeats + Exits(iterations, exit);
    }

    /** Batches host commands between the unpacked schedules. */
    method Load(commands: seq<Command>)
      requires packets == [] && repeats == []
      modifies this`packets, this`repeats
      ensures Flattened(commands, packets, repeats)
    {
      var setup: seq<Command> := [];
      for i := 0 to |commands|
        invariant packets + ProgramPackets(commands, i, setup) == ProgramPackets(commands, 0, [])
        invariant ToSet(repeats) + ProgramEnds(commands, i, setup, |packets|) == ProgramEnds(commands, 0, [], 0)
      {
        match commands[i]
        case RunSchedule(s) =>
          if setup != [] {
            packets := packets + [Packet(SetupBefore(i), setup)];
            setup := [];
          }
          PacketCount(s, [OfCommand(i)]);
          Schedule(s, [OfCommand(i)]);
        case Host(_) =>
          setup := setup + [commands[i]];
      }
      if setup != [] {
        packets := packets + [Packet(FinalCommands, setup)];
      }
    }

    /** Runs one packet natively, journals it and moves the cursor on. */
    method Execute()
      requires Ready() && cursor < |packets|
      modifies this`state, this`journal, this`cursor
      ensures old(Ready()) && Config(cursor, false, state, journal) == AfterPacket(engine, packets, repeats, old(Config(cursor, false, state, journal)))
    {
      var (st, stop) := RunPacket(engine, packets[cursor].commands, state);
      var rows := journal + [JournalRow(cursor, packets[cursor].name, stop)];
      var next := Advance(cursor + 1, repeats, rows, |packets|);
      state, journal, cursor := st, rows, next;
    }

    /** Where the prompt stands. */
    ghost function Here(): Config<S>
      reads this
    {
      Config(cursor, false, state, journal)
    }

    /** Packets are run only while the cursor is before the stop. */
    method Drive(stop: nat)
      requires Ready() && stop <= |packets|
      modifies this`state, this`journal, this`cursor
      ensures Ready() && cursor >= stop && cursor >= old(cursor)
      ensures Outcome() == old(Outcome())
      ensures old(Ready()) && PausesAt(engine, packets, repeats, old(Here()), stop, Here())
    {
      ghost var run := [Here()];
      while cursor < stop
        invariant Ready() && cursor >= old(cursor)
        invariant Outcome() == old(Outcome())
        invariant run != [] && run[0] == old(Here()) && run[|run| - 1] == Here()
        invariant forall i :: 0 <= i < |run| - 1 ==> run[i].cursor < stop
        invariant forall i :: 0 <= i < |run| - 1 ==> run[i + 1] == AfterPacket(engine, packets, repeats, run[i])
        decreases |packets| - cursor
      {
        PacketRunIsSame(engine, packets, repeats, Here());
        Execute();
        run := run + [Here()];
      }
      assert DrivesTo(engine, packets, repeats, stop, run);
    }

    /**
     * One command of the prompt: it pauses at the first settled cursor at or beyond its stop.
     * Pausing anywhere leaves the outcome of the session unchanged.
     */
    method Handle(request: Request, ghost commands: seq<Command>, ghost initial: S)
      requires Faithful(commands, initial)
      modifies this`state, this`journal, this`cursor
      ensures Faithful(commands, initial) && cursor >= old(cursor)
      ensures Handled(engine, packets, repeats, request, old(Here()), Here())
      ensures request.Finish? ==>
                var reference := NativeProgram(engine, commands, 0, initial);
                cursor == |packets| && state == reference.state && Leaves(journal) == reference.trace
    {
      match request
      case NextPackets(count) =>
        Drive(if cursor + count < |packets| then cursor + count else |packets|);
      case Until(filter) =>
        var found := cursor;
        while found < |packets| && !filter(packets[found].name)
          invariant cursor <= found <= |packets| && forall k :: cursor <= k < found ==> !filter(packets[k].name)
        {
          found := found + 1;
        }
        if found < |packets| {
          assert FirstFit(packets, filter, cursor, found);
          Drive(found);
        }
      case Finish =>
        Drive(|packets|);
    }
  }

  function Exits(iterations: seq<Span>, exit: nat): seq<RepeatEnd> {
    seq(|iterations|, k requires 0 <= k < |iterations| => RepeatEnd(iterations[k].start, iterations[k].end, exit))
  }

  lemma ExitsAppend(iterations: seq<Span>, last: Span, exit: nat)
    ensures ToSet(Exits(iterations + [last], exit)) == ToSet(Exits(iterations, exit)) + {RepeatEnd(last.start, last.end, exit)}
  {
    assert Exits(iterations + [last], exit) == Exits(iterations, exit) + [RepeatEnd(last.start, last.end, exit)];
  }

  /** `i` of the `n` iterations are unrolled: what was pushed and what is still to come make up the whole. */
  ghost predicate Unrolling(body: Schedule, i: nat, n: nat, path: seq<Step>, packets0: seq<Packet>, records0: set<RepeatEnd>,
                            packets: seq<Packet>, records: set<RepeatEnd>, iterations: seq<Span>)
  {
    var size, base := Size(body), |packets0|;
    var end := base + Times(n, size);
    && i <= n
    && |packets| + Times(n - i, size) == end
    && packets + PacketsRepeat(body, i, n, path) == packets0 + PacketsRepeat(body, 0, n, path)
    && records + EndsRepeat(body, i, n, |packets|) == records0 + EndsRepeat(body, 0, n, base)
    && ToSet(Exits(iterations, end)) + OwnEnds(size, i, n, |packets|, end) == OwnEnds(size, 0, n, base, end)
  }

  lemma UnrollingStep(body: Schedule, i: nat, n: nat, path: seq<Step>, packets0: seq<Packet>, records0: set<RepeatEnd>,
                      packets: seq<Packet>, records: set<RepeatEnd>, iterations: seq<Span>)
    requires i < n && Unrolling(body, i, n, path, packets0, records0, packets, records, iterations)
    ensures var next := packets + Packets(body, path + [Iteration(i)]);
            Unrolling(body, i + 1, n, path, packets0, records0, next, records + Ends(body, |packets|),
                      iterations + [Span(|packets|, |next|)])
  {
    PacketCount(body, path + [Iteration(i)]);
    var start, after, end := |packets|, |packets| + Size(body), |packets0| + Times(n, Size(body));
    ExitsAppend(iterations, Span(start, after), end);
    Regroup(records, Ends(body, start), EndsRepeat(body, i + 1, n, after));
    Regroup(ToSet(Exits(iterations, end)), {RepeatEnd(start, after, end)}, OwnEnds(Size(body), i + 1, n, after, end));
    assert (packets + Packets(body, path + [Iteration(i)])) + PacketsRepeat(body, i + 1, n, path)
        == packets + PacketsRepeat(body, i, n, path);
  }

  lemma Regroup(a: set<RepeatEnd>, b: set<RepeatEnd>, c: set<RepeatEnd>)
    ensures (a + b) + c == a + (b + c)
  {
  }

  lemma ToSetConcat(a: seq<RepeatEnd>, b: seq<RepeatEnd>)
    ensures ToSet(a + b) == ToSet(a) + ToSet(b)
  {
  }
}
