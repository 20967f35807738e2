/**
 * `retain_body` of src/native_cell_ports.rs: a baked body is carried into a
 * target body along an interface map, by forced propagation over constructor
 * rows with counters of missing arguments.
 *
 * The specification is order-free: the rows are grounded in the seeded values,
 * and some map extends the seed and sends every row to a row of the target.
 */
module BodyTransport {
  import opened Collections
  import opened Wrappers

  datatype Slot = Slot(sort: string, literal: Option<string>)
  datatype Row = Row(op: string, args: seq<nat>, result: nat)
  datatype Body = Body(scope: string, values: seq<Slot>, rows: seq<Row>, subsumed: set<nat>)
  datatype Port = Port(sort: string, value: nat, marker: string, parameter: string)
  datatype Instance = Instance(ports: seq<Port>, markers: set<string>)

  datatype Key = Key(op: string, args: seq<nat>)
  datatype Lit = Lit(sort: string, literal: string)
  datatype Index = Index(rows: map<Key, nat>, literals: map<Lit, nat>)

  type Values = map<nat, nat>

  // ---------- the index of a target ----------

  predicate LiteralAt(b: Body, i: nat, l: Lit) {
    i < |b.values| && b.values[i] == Slot(l.sort, Some(l.literal))
  }

  predicate RowAt(b: Body, i: nat, k: Key, result: nat) {
    i < |b.rows| && i !in b.subsumed && b.rows[i] == Row(k.op, k.args, result)
  }

  ghost predicate Indexes(b: Body, index: Index) {
    && (forall l :: l in index.literals ==> LiteralAt(b, index.literals[l], l))
    && (forall i: nat, l {:trigger LiteralAt(b, i, l)} :: LiteralAt(b, i, l) ==> l in index.literals)
    && (forall k :: k in index.rows ==> exists i: nat :: RowAt(b, i, k, index.rows[k]))
    && forall i: nat, k, r {:trigger RowAt(b, i, k, r)} :: RowAt(b, i, k, r) ==> k in index.rows
  }

  method NewIndex(b: Body) returns (index: Index)
    ensures Indexes(b, index)
  {
    var literals := IndexLiterals(b);
    var rows: map<Key, nat> := map[];
    for i := 0 to |b.rows|
      invariant forall k :: k in rows ==> exists j: nat :: j < i && RowAt(b, j, k, rows[k])
      invariant forall j: nat, k, r {:trigger RowAt(b, j, k, r)} :: j < i && RowAt(b, j, k, r) ==> k in rows
    {
      if i !in b.subsumed {
        var k := Key(b.rows[i].op, b.rows[i].args);
        assert RowAt(b, i, k, b.rows[i].result);
        rows := rows[k := b.rows[i].result];
      }
    }
    index := Index(rows, literals);
  }

  method IndexLiterals(b: Body) returns (literals: map<Lit, nat>)
    ensures forall l :: l in literals ==> LiteralAt(b, literals[l], l)
    ensures forall i: nat, l {:trigger LiteralAt(b, i, l)} :: LiteralAt(b, i, l) ==> l in literals
  {
    literals := map[];
    for i := 0 to |b.values|
      invariant forall l :: l in literals ==> LiteralAt(b, literals[l], l)
      invariant forall j: nat, l {:trigger LiteralAt(b, j, l)} :: j < i && LiteralAt(b, j, l) ==> l in literals
    {
      if b.values[i].literal.Some? {
        literals := literals[Lit(b.values[i].sort, b.values[i].literal.value) := i];
      }
    }
  }

  // ---------- what a transport is ----------

  ghost predicate Mapped(h: Values, args: seq<nat>) {
    forall k :: 0 <= k < |args| ==> args[k] in h
  }

  function Image(h: Values, args: seq<nat>): (r: seq<nat>)
    requires Mapped(h, args)
    ensures |r| == |args| && forall k :: 0 <= k < |args| ==> r[k] == h[args[k]]
  {
    seq(|args|, k requires 0 <= k < |args| => h[args[k]])
  }

  /** The row goes to a row of the target. */
  ghost predicate Carried(rows: map<Key, nat>, h: Values, r: Row) {
    && Mapped(h, r.args) && r.result in h
    && Key(r.op, Image(h, r.args)) in rows && rows[Key(r.op, Image(h, r.args))] == h[r.result]
  }

  ghost predicate Extends(h: Values, m: Values) {
    forall v :: v in m ==> v in h && h[v] == m[v]
  }

  ghost predicate Transports(target: map<Key, nat>, rows: seq<Row>, seed: Values, h: Values) {
    Extends(h, seed) && forall i {:trigger rows[i]} :: 0 <= i < |rows| ==> Carried(target, h, rows[i])
  }

  predicate Within(args: seq<nat>, c: set<nat>) {
    forall k :: 0 <= k < |args| ==> args[k] in c
  }

  ghost predicate Closed(rows: seq<Row>, c: set<nat>) {
    forall i {:trigger rows[i]} :: 0 <= i < |rows| && Within(rows[i].args, c) ==> rows[i].result in c
  }

  /** Forced propagation from the seeds reaches the arguments of every row. */
  ghost predicate Grounded(rows: seq<Row>, seeds: set<nat>) {
    forall c: set<nat> {:trigger Closed(rows, c)} :: seeds <= c && Closed(rows, c) ==>
      forall i {:trigger rows[i]} :: 0 <= i < |rows| ==> Within(rows[i].args, c)
  }

  /** Transports agree wherever propagation forces them. */
  ghost predicate Forced(target: map<Key, nat>, rows: seq<Row>, seed: Values, m: Values) {
    && Extends(m, seed)
    && (forall h: Values {:trigger Transports(target, rows, seed, h)} :: Transports(target, rows, seed, h) ==> Extends(h, m))
    && forall c: set<nat> {:trigger Closed(rows, c)} :: seed.Keys <= c && Closed(rows, c) ==> m.Keys <= c
  }

  // ---------- the worklist ----------

  function Unknown(m: Values, args: seq<nat>): (u: set<nat>)
    ensures u == {} <==> Mapped(m, args)
  {
    var u := set v | v in args && v !in m;
    assert u == {} ==> forall k :: 0 <= k < |args| ==> args[k] in args && args[k] !in u;
    u
  }

  type Waiting = map<nat, seq<nat>>

  predicate Waits(waiting: Waiting, v: nat, i: nat) {
    v in waiting && i in waiting[v]
  }

  lemma DistinctAppend(s: seq<nat>, x: nat)
    requires Distinct(s) && x !in s
    ensures Distinct(s + [x]) && forall y :: y in s + [x] <==> y in s || y == x
  {
  }

  /** Counters and waiting lists say what each row still misses. */
  ghost predicate Counted(rows: seq<Row>, m: Values, missing: seq<nat>, waiting: Waiting) {
    && |missing| == |rows|
    && (forall i {:trigger missing[i]} :: 0 <= i < |rows| ==> missing[i] == |Unknown(m, rows[i].args)|)
    && (forall v, i: nat {:trigger Waits(waiting, v, i)} :: Waits(waiting, v, i) <==> i < |rows| && v in Unknown(m, rows[i].args))
    && forall v {:trigger waiting[v]} :: v in waiting ==> Distinct(waiting[v])
  }

  /** Rows whose arguments are all mapped are queued or checked, once. */
  ghost predicate Scheduled(rows: seq<Row>, m: Values, queue: seq<nat>, checked: seq<nat>) {
    && Distinct(checked + queue)
    && forall i: nat {:trigger i in checked + queue} :: i in checked + queue <==> i < |rows| && Mapped(m, rows[i].args)
  }

  ghost predicate CheckedCarried(target: map<Key, nat>, rows: seq<Row>, m: Values, checked: seq<nat>) {
    forall i: nat {:trigger i in checked} :: i in checked ==> i < |rows| && Carried(target, m, rows[i])
  }

  /** One more value is mapped: rows that waited for it miss one argument less. */
  lemma UnknownAfter(m: Values, args: seq<nat>, v: nat, to: nat)
    requires v !in m
    ensures Unknown(m[v := to], args) == Unknown(m, args) - {v}
    ensures |Unknown(m[v := to], args)| == |Unknown(m, args)| - if v in Unknown(m, args) then 1 else 0
  {
    assert Unknown(m[v := to], args) == Unknown(m, args) - {v};
  }

  /** Wakes the consumers of a value. */
  method Wake(consumers: seq<nat>, before: seq<nat>, queue: seq<nat>) returns (missing: seq<nat>, more: seq<nat>)
    requires Distinct(consumers) && forall c :: c in consumers ==> c < |before| && before[c] > 0
    ensures |missing| == |before|
    ensures forall i {:trigger missing[i]} :: 0 <= i < |before| ==> missing[i] + (if i in consumers then 1 else 0) == before[i]
    ensures queue <= more && Distinct(more[|queue|..])
    ensures forall i: nat {:trigger i in more[|queue|..]} :: i in more[|queue|..] <==> i in consumers && i < |before| && before[i] == 1
  {
    missing, more := before, queue;
    for k := 0 to |consumers|
      invariant |missing| == |before|
      invariant forall i {:trigger missing[i]} :: 0 <= i < |before| ==> missing[i] + (if i in consumers[..k] then 1 else 0) == before[i]
      invariant queue <= more && Distinct(more[|queue|..])
      invariant forall i: nat {:trigger i in more[|queue|..]} :: i in more[|queue|..] <==> i in consumers[..k] && i < |before| && before[i] == 1
    {
      var c := consumers[k];
      assert consumers[..k + 1] == consumers[..k] + [c] && c in consumers && c !in consumers[..k];
      missing := missing[c := missing[c] - 1];
      if missing[c] == 0 {
        assert (more + [c])[|queue|..] == more[|queue|..] + [c];
        assert c !in more[|queue|..];
        more := more + [c];
      }
    }
    assert consumers[..|consumers|] == consumers;
  }

  /** Counters, waiting lists and queue after a value is mapped. */
  lemma WokenUp(rows: seq<Row>, m: Values, missing: seq<nat>, waiting: Waiting, queue: seq<nat>, checked: seq<nat>,
                v: nat, to: nat, consumers: seq<nat>, missing': seq<nat>, queue': seq<nat>)
    requires Counted(rows, m, missing, waiting) && Scheduled(rows, m, queue, checked) && v !in m
    requires consumers == if v in waiting then waiting[v] else []
    requires |missing'| == |missing| && queue <= queue' && Distinct(queue'[|queue|..])
    requires forall i {:trigger missing'[i]} :: 0 <= i < |missing| ==> missing'[i] + (if i in consumers then 1 else 0) == missing[i]
    requires forall i: nat {:trigger i in queue'[|queue|..]} :: i in queue'[|queue|..] <==>
               i in consumers && i < |missing| && missing[i] == 1
    ensures Counted(rows, m[v := to], missing', waiting - {v}) && Scheduled(rows, m[v := to], queue', checked)
  {
    var now, left := m[v := to], waiting - {v};
    forall i: nat ensures i in consumers <==> i < |rows| && v in Unknown(m, rows[i].args) {
      assert i in consumers <==> Waits(waiting, v, i);
    }
    forall i | 0 <= i < |rows| ensures missing'[i] == |Unknown(now, rows[i].args)| {
      UnknownAfter(m, rows[i].args, v, to);
      assert missing[i] == |Unknown(m, rows[i].args)|;
    }
    forall w, i: nat ensures Waits(left, w, i) <==> i < |rows| && w in Unknown(now, rows[i].args) {
      assert Waits(waiting, w, i) <==> i < |rows| && w in Unknown(m, rows[i].args);
    }
    forall w | w in left ensures Distinct(left[w]) { assert Distinct(waiting[w]); }
    NewlyMapped(rows, m, missing, queue, checked, v, to, consumers, queue');
  }

  lemma NewlyMapped(rows: seq<Row>, m: Values, missing: seq<nat>, queue: seq<nat>, checked: seq<nat>,
                    v: nat, to: nat, consumers: seq<nat>, queue': seq<nat>)
    requires |missing| == |rows| && Scheduled(rows, m, queue, checked) && v !in m
    requires forall i {:trigger missing[i]} :: 0 <= i < |rows| ==> missing[i] == |Unknown(m, rows[i].args)|
    requires forall i: nat {:trigger i in consumers} :: i in consumers <==> i < |rows| && v in Unknown(m, rows[i].args)
    requires queue <= queue' && Distinct(queue'[|queue|..])
    requires forall i: nat {:trigger i in queue'[|queue|..]} :: i in queue'[|queue|..] <==>
               i in consumers && i < |missing| && missing[i] == 1
    ensures Scheduled(rows, m[v := to], queue', checked)
  {
    var now, more := m[v := to], queue'[|queue|..];
    var was, all := checked + queue, checked + queue';
    assert queue' == queue + more && all == was + more;
    forall i: nat | i < |rows| ensures i in more <==> Mapped(now, rows[i].args) && !Mapped(m, rows[i].args) {
      UnknownAfter(m, rows[i].args, v, to);
      assert missing[i] == |Unknown(m, rows[i].args)|;
    }
    forall i: nat ensures i in all <==> i < |rows| && Mapped(now, rows[i].args) {
      assert i in all <==> i in was || i in more;
      assert i in more ==> i < |rows|;
      assert i < |rows| && Mapped(m, rows[i].args) ==> Mapped(now, rows[i].args);
    }
    forall i, j | 0 <= i < j < |all| ensures all[i] != all[j] {
      if i < |was| <= j {
        assert all[i] in was && all[j] == more[j - |was|] && all[j] in more;
      } else if |was| <= i {
        assert all[i] == more[i - |was|] && all[j] == more[j - |was|];
      }
    }
  }

  // ---------- forced propagation ----------

  /** Everything the loop knows: counters, queue, checked rows and what is forced so far. */
  ghost predicate Working(target: map<Key, nat>, rows: seq<Row>, seed: Values, m: Values, missing: seq<nat>, waiting: Waiting,
                          queue: seq<nat>, checked: seq<nat>)
  {
    && Counted(rows, m, missing, waiting) && Scheduled(rows, m, queue, checked)
    && CheckedCarried(target, rows, m, checked) && Forced(target, rows, seed, m)
  }

  lemma ImageSame(h: Values, m: Values, args: seq<nat>)
    requires Extends(h, m) && Mapped(m, args)
    ensures Mapped(h, args) && Image(h, args) == Image(m, args)
  {
  }

  /** A row whose arguments are mapped forces its result. */
  lemma RowForces(target: map<Key, nat>, rows: seq<Row>, seed: Values, m: Values, i: nat, h: Values)
    requires Forced(target, rows, seed, m) && i < |rows| && Mapped(m, rows[i].args) && Transports(target, rows, seed, h)
    ensures Key(rows[i].op, Image(m, rows[i].args)) in target
    ensures rows[i].result in h && h[rows[i].result] == target[Key(rows[i].op, Image(m, rows[i].args))]
  {
    assert Extends(h, m) && Carried(target, h, rows[i]);
    ImageSame(h, m, rows[i].args);
  }

  lemma ForcedNext(target: map<Key, nat>, rows: seq<Row>, seed: Values, m: Values, i: nat, to: nat)
    requires Forced(target, rows, seed, m) && i < |rows| && Mapped(m, rows[i].args) && rows[i].result !in m
    requires Key(rows[i].op, Image(m, rows[i].args)) in target && to == target[Key(rows[i].op, Image(m, rows[i].args))]
    ensures Forced(target, rows, seed, m[rows[i].result := to])
  {
    var now := m[rows[i].result := to];
    forall h: Values | Transports(target, rows, seed, h) ensures Extends(h, now) {
      RowForces(target, rows, seed, m, i, h);
      assert Extends(h, m);
    }
    forall c: set<nat> | seed.Keys <= c && Closed(rows, c) ensures now.Keys <= c {
      assert m.Keys <= c;
      assert Within(rows[i].args, c);
    }
  }

  lemma CarriedStill(target: map<Key, nat>, rows: seq<Row>, m: Values, checked: seq<nat>, v: nat, to: nat)
    requires CheckedCarried(target, rows, m, checked) && v !in m
    ensures CheckedCarried(target, rows, m[v := to], checked)
  {
    forall i: nat | i in checked ensures i < |rows| && Carried(target, m[v := to], rows[i]) {
      ImageSame(m[v := to], m, rows[i].args);
    }
  }

  lemma Dequeue(rows: seq<Row>, m: Values, queue: seq<nat>, checked: seq<nat>)
    requires Scheduled(rows, m, queue, checked) && queue != []
    ensures Scheduled(rows, m, queue[1..], checked + [queue[0]]) && queue[0] < |rows| && Mapped(m, rows[queue[0]].args)
  {
    assert (checked + [queue[0]]) + queue[1..] == checked + queue;
    assert queue[0] in checked + queue;
  }

  datatype Work = Work(m: Values, missing: seq<nat>, waiting: Waiting, queue: seq<nat>, checked: seq<nat>)

  ghost predicate At(target: map<Key, nat>, rows: seq<Row>, seed: Values, w: Work) {
    Working(target, rows, seed, w.m, w.missing, w.waiting, w.queue, w.checked)
  }

  /** One row off the queue; `None` when no transport exists. */
  method Check(target: map<Key, nat>, rows: seq<Row>, ghost seed: Values, w: Work) returns (next: Option<Work>)
    requires At(target, rows, seed, w) && w.queue != []
    ensures next.Some? ==> At(target, rows, seed, next.value) && |next.value.checked| == |w.checked| + 1
    ensures next.None? ==> forall h: Values :: !Transports(target, rows, seed, h)
  {
    var i := w.queue[0];
    Dequeue(rows, w.m, w.queue, w.checked);
    var r := rows[i];
    var key := Key(r.op, Image(w.m, r.args));
    if key !in target {
      forall h: Values ensures !Transports(target, rows, seed, h) {
        if Transports(target, rows, seed, h) { RowForces(target, rows, seed, w.m, i, h); }
      }
      return None;
    }
    var to := target[key];
    if r.result in w.m {
      if w.m[r.result] != to {
        forall h: Values ensures !Transports(target, rows, seed, h) {
          if Transports(target, rows, seed, h) {
            RowForces(target, rows, seed, w.m, i, h);
          }
        }
        return None;
      }
      return Some(w.(queue := w.queue[1..], checked := w.checked + [i]));
    }
    var n := Learn(target, rows, seed, w, i, to);
    next := Some(n);
  }

  /** Maps the result of row `i` and wakes the rows that waited for it. */
  method Learn(target: map<Key, nat>, rows: seq<Row>, ghost seed: Values, w: Work, i: nat, to: nat) returns (next: Work)
    requires At(target, rows, seed, w) && w.queue != [] && i == w.queue[0] && i < |rows| && Mapped(w.m, rows[i].args)
    requires Key(rows[i].op, Image(w.m, rows[i].args)) in target && to == target[Key(rows[i].op, Image(w.m, rows[i].args))]
    requires rows[i].result !in w.m
    ensures At(target, rows, seed, next) && next.checked == w.checked + [i]
  {
    var v := rows[i].result;
    var consumers := if v in w.waiting then w.waiting[v] else [];
    Dequeue(rows, w.m, w.queue, w.checked);
    ConsumersMiss(rows, w, v, consumers);
    var missing, queue := Wake(consumers, w.missing, w.queue[1..]);
    WokenUp(rows, w.m, w.missing, w.waiting, w.queue[1..], w.checked + [i], v, to, consumers, missing, queue);
    ForcedNext(target, rows, seed, w.m, i, to);
    CarriedStill(target, rows, w.m, w.checked, v, to);
    ImageSame(w.m[v := to], w.m, rows[i].args);
    next := Work(w.m[v := to], missing, w.waiting - {v}, queue, w.checked + [i]);
  }

  lemma ConsumersMiss(rows: seq<Row>, w: Work, v: nat, consumers: seq<nat>)
    requires Counted(rows, w.m, w.missing, w.waiting) && consumers == if v in w.waiting then w.waiting[v] else []
    ensures Distinct(consumers) && forall c :: c in consumers ==> c < |w.missing| && w.missing[c] > 0
  {
    forall c | c in consumers ensures c < |w.missing| && w.missing[c] > 0 {
      assert Waits(w.waiting, v, c);
      assert v in Unknown(w.m, rows[c].args);
      assert w.missing[c] == |Unknown(w.m, rows[c].args)|;
    }
  }

  /** When the queue is empty, the mapped values are closed: rows left over are out of reach. */
  lemma LeftOver(target: map<Key, nat>, rows: seq<Row>, seed: Values, w: Work)
    requires At(target, rows, seed, w) && w.queue == []
    ensures |w.checked| == |rows| ==> Transports(target, rows, seed, w.m) && Grounded(rows, seed.Keys)
    ensures |w.checked| != |rows| ==> !Grounded(rows, seed.Keys)
  {
    assert w.checked + w.queue == w.checked;
    assert forall i: nat :: i in w.checked <==> i < |rows| && Mapped(w.m, rows[i].args);
    if |w.checked| == |rows| {
      AllListed(w.checked, |rows|);
      forall i | 0 <= i < |rows| ensures Carried(target, w.m, rows[i]) { assert i in w.checked; }
      forall c: set<nat> | seed.Keys <= c && Closed(rows, c)
        ensures forall i {:trigger rows[i]} :: 0 <= i < |rows| ==> Within(rows[i].args, c)
      {
        assert w.m.Keys <= c;
        forall i | 0 <= i < |rows| ensures Within(rows[i].args, c) { assert i in w.checked; }
      }
    } else {
      var i := Unlisted(w.checked, |rows|);
      assert seed.Keys <= w.m.Keys;
      forall k | 0 <= k < |rows| && Within(rows[k].args, w.m.Keys) ensures rows[k].result in w.m.Keys {
        assert Mapped(w.m, rows[k].args);
        assert k in w.checked && Carried(target, w.m, rows[k]);
      }
      assert Closed(rows, w.m.Keys) && !Mapped(w.m, rows[i].args);
      assert !Within(rows[i].args, w.m.Keys);
    }
  }

  lemma AllListed(s: seq<nat>, n: nat)
    requires Distinct(s) && |s| == n && forall i :: i in s ==> i < n
    ensures forall i: nat :: i < n ==> i in s
  {
    DistinctSize(s);
    Subset(ToSet(s), Upto(n));
    forall i: nat | i < n ensures i in s { assert i in ToSet(s); }
  }

  lemma Unlisted(s: seq<nat>, n: nat) returns (i: nat)
    requires Distinct(s) && |s| != n && forall i :: i in s ==> i < n
    ensures i < n && i !in s
  {
    DistinctSize(s);
    assert ToSet(s) <= Upto(n) && ToSet(s) != Upto(n);
    i :| i in Upto(n) && i !in ToSet(s);
  }

  // ---------- the start of the worklist ----------

  method Prepare(target: map<Key, nat>, rows: seq<Row>, seed: Values) returns (w: Work)
    ensures At(target, rows, seed, w) && w.m == seed && w.checked == []
  {
    var missing: seq<nat>, waiting: Waiting, queue: seq<nat> := [], map[], [];
    for i := 0 to |rows|
      invariant |missing| == i && forall k {:trigger missing[k]} :: 0 <= k < i ==> missing[k] == |Unknown(seed, rows[k].args)|
      invariant forall v, k: nat {:trigger Waits(waiting, v, k)} :: Waits(waiting, v, k) <==> k < i && v in Unknown(seed, rows[k].args)
      invariant forall v {:trigger waiting[v]} :: v in waiting ==> Distinct(waiting[v])
      invariant Distinct(queue)
      invariant forall k: nat {:trigger k in queue} :: k in queue <==> k < i && Mapped(seed, rows[k].args)
    {
      var unknown := Unknown(seed, rows[i].args);
      missing := missing + [|unknown|];
      if unknown == {} {
        DistinctAppend(queue, i);
        queue := queue + [i];
      }
      forall v | v in waiting ensures i !in waiting[v] { assert !Waits(waiting, v, i); }
      waiting := Enlist(waiting, unknown, i);
    }
    w := Work(seed, missing, waiting, queue, []);
    assert [] + queue == queue;
  }

  /** Row `i` waits for each unknown value. */
  method Enlist(before: Waiting, unknown: set<nat>, i: nat) returns (waiting: Waiting)
    requires forall v :: v in before ==> Distinct(before[v]) && i !in before[v]
    ensures forall v, k: nat {:trigger Waits(waiting, v, k)} :: Waits(waiting, v, k) <==> Waits(before, v, k) || (k == i && v in unknown)
    ensures forall v {:trigger waiting[v]} :: v in waiting ==> Distinct(waiting[v])
  {
    waiting := before;
    var todo := unknown;
    while todo != {}
      invariant todo <= unknown
      invariant forall v, k: nat {:trigger Waits(waiting, v, k)} ::
                  Waits(waiting, v, k) <==> Waits(before, v, k) || (k == i && v in unknown - todo)
      invariant forall v {:trigger waiting[v]} :: v in waiting ==> Distinct(waiting[v])
      decreases todo
    {
      var v :| v in todo;
      var list := if v in waiting then waiting[v] else [];
      assert !Waits(before, v, i);
      assert !Waits(waiting, v, i);
      DistinctAppend(list, i);
      ghost var was := waiting;
      waiting := waiting[v := list + [i]];
      todo := todo - {v};
      forall u, k: nat ensures Waits(waiting, u, k) <==> Waits(before, u, k) || (k == i && u in unknown - todo) {
        assert Waits(waiting, u, k) <==> Waits(was, u, k) || (u == v && k == i);
      }
    }
  }

  /** Forced propagation from the seed: a transport that every other one extends, or none. */
  method Propagate(target: map<Key, nat>, rows: seq<Row>, seed: Values) returns (r: Option<Work>)
    ensures r.Some? <==> Grounded(rows, seed.Keys) && exists h: Values :: Transports(target, rows, seed, h)
    ensures r.Some? ==> Transports(target, rows, seed, r.value.m) && Forced(target, rows, seed, r.value.m)
    ensures r.Some? ==> |r.value.checked| == |rows| && forall i: nat :: i in r.value.checked <==> i < |rows|
  {
    var w := Prepare(target, rows, seed);
    while w.queue != []
      invariant At(target, rows, seed, w) && |w.checked| <= |rows|
      decreases |rows| - |w.checked|
    {
      var next := Check(target, rows, seed, w);
      if next.None? { return None; }
      w := next.value;
      CheckedBound(rows, w.m, w.queue, w.checked);
    }
    LeftOver(target, rows, seed, w);
    if |w.checked| != |rows| { return None; }
    assert w.checked + [] == w.checked;
    forall i: nat | i in w.checked ensures i < |rows| { assert i in w.checked + w.queue; }
    AllListed(w.checked, |rows|);
    r := Some(w);
  }

  lemma CheckedBound(rows: seq<Row>, m: Values, queue: seq<nat>, checked: seq<nat>)
    requires Scheduled(rows, m, queue, checked)
    ensures |checked| <= |rows|
  {
    var all := checked + queue;
    forall i, j | 0 <= i < j < |checked| ensures checked[i] != checked[j] { assert all[i] == checked[i] && all[j] == checked[j]; }
    DistinctSize(checked);
    assert forall i :: i in checked ==> i in all;
    Subset(ToSet(checked), Upto(|rows|));
  }

  // ---------- seeds ----------

  predicate PortFits(src: Instance, dst: Instance, ports: seq<nat>, k: nat)
    requires k < |ports| == |src.ports|
  {
    ports[k] < |dst.ports| && src.ports[k].sort == dst.ports[ports[k]].sort
  }

  ghost predicate PortSent(src: Instance, dst: Instance, ports: seq<nat>, m: Values, k: nat)
    requires k < |ports| == |src.ports|
  {
    PortFits(src, dst, ports, k) && src.ports[k].value in m && m[src.ports[k].value] == dst.ports[ports[k]].value
  }

  ghost predicate PortValue(src: Instance, upTo: nat, v: nat) {
    exists k: nat :: k < upTo && k < |src.ports| && src.ports[k].value == v
  }

  /** The interface map: ports have their sorts and no value goes to two places. */
  ghost predicate PortMap(src: Instance, dst: Instance, ports: seq<nat>, m: Values) {
    && |ports| == |src.ports|
    && (forall k: nat {:trigger PortSent(src, dst, ports, m, k)} :: k < |ports| ==> PortSent(src, dst, ports, m, k))
    && forall v {:trigger v in m} :: v in m ==> PortValue(src, |src.ports|, v)
  }

  method SeedPorts(src: Instance, dst: Instance, ports: seq<nat>) returns (r: Option<Values>)
    ensures r.Some? ==> PortMap(src, dst, ports, r.value)
    ensures r.None? ==> forall m: Values :: !PortMap(src, dst, ports, m)
  {
    if |ports| != |src.ports| { return None; }
    var m: Values := map[];
    for k := 0 to |ports|
      invariant forall j: nat {:trigger PortSent(src, dst, ports, m, j)} :: j < k ==> PortSent(src, dst, ports, m, j)
      invariant forall v {:trigger v in m} :: v in m ==> PortValue(src, k, v)
    {
      if !PortFits(src, dst, ports, k) {
        forall other: Values ensures !PortMap(src, dst, ports, other) { assert !PortSent(src, dst, ports, other, k); }
        return None;
      }
      var v, to := src.ports[k].value, dst.ports[ports[k]].value;
      if v in m && m[v] != to {
        NoPortMap(src, dst, ports, m, k);
        return None;
      }
      ghost var was := m;
      m := m[v := to];
      forall j: nat | j < k ensures PortSent(src, dst, ports, m, j) { assert PortSent(src, dst, ports, was, j); }
      forall u | u in m ensures PortValue(src, k + 1, u) { assert u != v ==> PortValue(src, k, u); }
    }
    r := Some(m);
  }

  lemma NoPortMap(src: Instance, dst: Instance, ports: seq<nat>, m: Values, k: nat)
    requires k < |ports| == |src.ports| && PortFits(src, dst, ports, k)
    requires forall j: nat {:trigger PortSent(src, dst, ports, m, j)} :: j < k ==> PortSent(src, dst, ports, m, j)
    requires PortValue(src, k, src.ports[k].value)
    requires src.ports[k].value in m && m[src.ports[k].value] != dst.ports[ports[k]].value
    ensures forall other: Values :: !PortMap(src, dst, ports, other)
  {
    var j: nat :| j < k && src.ports[j].value == src.ports[k].value;
    assert PortSent(src, dst, ports, m, j);
    forall other: Values ensures !PortMap(src, dst, ports, other) {
      assert !(PortSent(src, dst, ports, other, j) && PortSent(src, dst, ports, other, k));
    }
  }

  /** Literals of the source that occur in the target. */
  predicate Anchored(source: Body, index: Index, v: nat) {
    v < |source.values| && source.values[v].literal.Some? && Lit(source.values[v].sort, source.values[v].literal.value) in index.literals
  }

  function Anchor(source: Body, index: Index, v: nat): nat
    requires Anchored(source, index, v)
  {
    index.literals[Lit(source.values[v].sort, source.values[v].literal.value)]
  }

  /** Literals go to their occurrences in the target, other values as the interface says. */
  ghost predicate Seeded(source: Body, index: Index, ports: Values, seed: Values) {
    && (forall v: nat :: v in seed <==> v in ports || Anchored(source, index, v))
    && forall v: nat :: v in seed ==> seed[v] == if Anchored(source, index, v) then Anchor(source, index, v) else ports[v]
  }

  method SeedLiterals(source: Body, index: Index, ports: Values) returns (seed: Values)
    ensures Seeded(source, index, ports, seed)
  {
    seed := ports;
    for i := 0 to |source.values|
      invariant forall v: nat :: v in seed <==> v in ports || (v < i && Anchored(source, index, v))
      invariant forall v: nat :: v in seed ==>
                  seed[v] == if v < i && Anchored(source, index, v) then Anchor(source, index, v) else ports[v]
    {
      if Anchored(source, index, i) {
        seed := seed[i := Anchor(source, index, i)];
      }
    }
  }

  // ---------- the rows to retain ----------

  predicate MarkerFits(source: Body, src: Instance, r: Row) {
    && |r.args| == 1 && r.args[0] < |source.values|
    && exists k :: 0 <= k < |src.ports| && src.ports[k].marker == r.op &&
         source.values[r.args[0]].literal == Some(src.ports[k].parameter) && src.ports[k].value == r.result
  }

  predicate Retained(source: Body, src: Instance, i: nat) {
    i < |source.rows| && i !in source.subsumed && source.rows[i].op !in src.markers
  }

  ghost predicate MarkersFit(source: Body, src: Instance) {
    forall i: nat {:trigger source.rows[i]} :: i < |source.rows| && i !in source.subsumed && source.rows[i].op in src.markers ==>
      MarkerFits(source, src, source.rows[i])
  }

  ghost predicate Selection(source: Body, src: Instance, ids: seq<nat>) {
    Distinct(ids) && forall i: nat {:trigger i in ids} :: i in ids <==> Retained(source, src, i)
  }

  /** Visible rows that are no parameter markers; markers must be those of the interface. */
  method SelectRows(source: Body, src: Instance) returns (r: Option<seq<nat>>)
    ensures r.Some? <==> MarkersFit(source, src)
    ensures r.Some? ==> Selection(source, src, r.value)
  {
    var ids: seq<nat> := [];
    for i := 0 to |source.rows|
      invariant Distinct(ids) && forall k: nat {:trigger k in ids} :: k in ids <==> k < i && Retained(source, src, k)
      invariant forall k: nat {:trigger source.rows[k]} :: k < i && k !in source.subsumed && source.rows[k].op in src.markers ==>
                  MarkerFits(source, src, source.rows[k])
    {
      if i !in source.subsumed {
        if source.rows[i].op in src.markers {
          if !MarkerFits(source, src, source.rows[i]) { return None; }
        } else {
          DistinctAppend(ids, i);
          ids := ids + [i];
        }
      }
    }
    r := Some(ids);
  }

  // ---------- the whole transport ----------

  datatype Transport = Transport(values: Values, checked: seq<nat>, ports: seq<nat>)

  /** A map that carries the body: every retained row goes to a visible row of the target. */
  ghost predicate Carries(source: Body, index: Index, src: Instance, seed: Values, h: Values) {
    && Extends(h, seed)
    && forall i: nat {:trigger Retained(source, src, i)} :: Retained(source, src, i) ==> Carried(index.rows, h, source.rows[i])
  }

  ghost predicate ClosedBody(source: Body, src: Instance, c: set<nat>) {
    forall i: nat {:trigger Retained(source, src, i)} ::
      Retained(source, src, i) && Within(source.rows[i].args, c) ==> source.rows[i].result in c
  }

  /** Forced propagation reaches every retained row. */
  ghost predicate GroundedBody(source: Body, src: Instance, seeds: set<nat>) {
    forall c: set<nat> {:trigger ClosedBody(source, src, c)} :: seeds <= c && ClosedBody(source, src, c) ==>
      forall i: nat {:trigger Retained(source, src, i)} :: Retained(source, src, i) ==> Within(source.rows[i].args, c)
  }

  /** What the interface, the literals and the markers must satisfy before any row is looked at. */
  ghost predicate Admitted(source: Body, target: Body, index: Index, src: Instance, dst: Instance, ports: seq<nat>, seed: Values) {
    && source.scope == target.scope && MarkersFit(source, src)
    && exists m: Values :: PortMap(src, dst, ports, m) && Seeded(source, index, m, seed)
  }

  lemma PickedRows(source: Body, src: Instance, index: Index, ids: seq<nat>, seed: Values)
    requires Selection(source, src, ids) && forall k :: 0 <= k < |ids| ==> ids[k] < |source.rows|
    ensures forall h: Values :: Transports(index.rows, Pick(source.rows, ids), seed, h) <==> Carries(source, index, src, seed, h)
    ensures forall c: set<nat> :: Closed(Pick(source.rows, ids), c) <==> ClosedBody(source, src, c)
    ensures Grounded(Pick(source.rows, ids), seed.Keys) <==> GroundedBody(source, src, seed.Keys)
  {
    var rows := Pick(source.rows, ids);
    forall k | 0 <= k < |ids| ensures Retained(source, src, ids[k]) && rows[k] == source.rows[ids[k]] { assert ids[k] in ids; }
    forall h: Values ensures Transports(index.rows, rows, seed, h) <==> Carries(source, index, src, seed, h) {
      PickedTransports(source, src, index, ids, seed, h);
    }
    forall c: set<nat> ensures Closed(rows, c) <==> ClosedBody(source, src, c) { PickedClosed(source, src, ids, c); }
    if Grounded(rows, seed.Keys) {
      forall c: set<nat> | seed.Keys <= c && ClosedBody(source, src, c)
        ensures forall i: nat {:trigger Retained(source, src, i)} :: Retained(source, src, i) ==> Within(source.rows[i].args, c)
      {
        assert Closed(rows, c);
        PickedWithin(source, src, ids, c);
      }
    }
    if GroundedBody(source, src, seed.Keys) {
      forall c: set<nat> | seed.Keys <= c && Closed(rows, c)
        ensures forall k {:trigger rows[k]} :: 0 <= k < |rows| ==> Within(rows[k].args, c)
      {
        assert ClosedBody(source, src, c);
        PickedWithin(source, src, ids, c);
      }
    }
  }

  lemma PickedTransports(source: Body, src: Instance, index: Index, ids: seq<nat>, seed: Values, h: Values)
    requires Selection(source, src, ids) && forall k :: 0 <= k < |ids| ==> ids[k] < |source.rows|
    ensures Transports(index.rows, Pick(source.rows, ids), seed, h) <==> Carries(source, index, src, seed, h)
  {
    var rows := Pick(source.rows, ids);
    if Transports(index.rows, rows, seed, h) {
      forall i: nat | Retained(source, src, i) ensures Carried(index.rows, h, source.rows[i]) {
        assert i in ids;
        var k :| 0 <= k < |ids| && ids[k] == i;
        assert rows[k] == source.rows[i];
      }
    }
    if Carries(source, index, src, seed, h) {
      forall k | 0 <= k < |rows| ensures Carried(index.rows, h, rows[k]) { assert ids[k] in ids && Retained(source, src, ids[k]); }
    }
  }

  lemma PickedClosed(source: Body, src: Instance, ids: seq<nat>, c: set<nat>)
    requires Selection(source, src, ids) && forall k :: 0 <= k < |ids| ==> ids[k] < |source.rows|
    ensures Closed(Pick(source.rows, ids), c) <==> ClosedBody(source, src, c)
  {
    var rows := Pick(source.rows, ids);
    if Closed(rows, c) {
      forall i: nat | Retained(source, src, i) && Within(source.rows[i].args, c) ensures source.rows[i].result in c {
        assert i in ids;
        var k :| 0 <= k < |ids| && ids[k] == i;
        assert rows[k] == source.rows[i];
      }
    }
    if ClosedBody(source, src, c) {
      forall k | 0 <= k < |rows| && Within(rows[k].args, c) ensures rows[k].result in c {
        assert ids[k] in ids && Retained(source, src, ids[k]);
      }
    }
  }

  lemma PickedWithin(source: Body, src: Instance, ids: seq<nat>, c: set<nat>)
    requires Selection(source, src, ids) && forall k :: 0 <= k < |ids| ==> ids[k] < |source.rows|
    ensures var rows := Pick(source.rows, ids);
            (forall k {:trigger rows[k]} :: 0 <= k < |rows| ==> Within(rows[k].args, c)) <==>
            forall i: nat {:trigger Retained(source, src, i)} :: Retained(source, src, i) ==> Within(source.rows[i].args, c)
  {
    var rows := Pick(source.rows, ids);
    if forall k {:trigger rows[k]} :: 0 <= k < |rows| ==> Within(rows[k].args, c) {
      forall i: nat | Retained(source, src, i) ensures Within(source.rows[i].args, c) {
        assert i in ids;
        var k :| 0 <= k < |ids| && ids[k] == i;
        assert rows[k] == source.rows[i];
      }
    }
    if forall i: nat {:trigger Retained(source, src, i)} :: Retained(source, src, i) ==> Within(source.rows[i].args, c) {
      forall k | 0 <= k < |rows| ensures Within(rows[k].args, c) { assert ids[k] in ids && Retained(source, src, ids[k]); }
    }
  }

  lemma PortMapUnique(src: Instance, dst: Instance, ports: seq<nat>, a: Values, b: Values)
    requires PortMap(src, dst, ports, a) && PortMap(src, dst, ports, b)
    ensures a == b
  {
    forall v | v in a ensures v in b && a[v] == b[v] { PortMapWithin(src, dst, ports, a, b, v); }
    forall v | v in b ensures v in a && a[v] == b[v] { PortMapWithin(src, dst, ports, b, a, v); }
    assert a.Keys == b.Keys;
  }

  lemma PortMapWithin(src: Instance, dst: Instance, ports: seq<nat>, a: Values, b: Values, v: nat)
    requires PortMap(src, dst, ports, a) && PortMap(src, dst, ports, b) && v in a
    ensures v in b && b[v] == a[v]
  {
    assert PortValue(src, |src.ports|, v);
    var k: nat :| k < |src.ports| && src.ports[k].value == v;
    assert PortSent(src, dst, ports, a, k) && PortSent(src, dst, ports, b, k);
  }

  /** There is only one seed. */
  lemma SeedUnique(source: Body, target: Body, index: Index, src: Instance, dst: Instance, ports: seq<nat>, a: Values, b: Values)
    requires Admitted(source, target, index, src, dst, ports, a) && Admitted(source, target, index, src, dst, ports, b)
    ensures a == b
  {
    var x: Values :| PortMap(src, dst, ports, x) && Seeded(source, index, x, a);
    var y: Values :| PortMap(src, dst, ports, y) && Seeded(source, index, y, b);
    PortMapUnique(src, dst, ports, x, y);
    SeededUnique(source, index, x, a, b);
  }

  lemma SeededUnique(source: Body, index: Index, m: Values, a: Values, b: Values)
    requires Seeded(source, index, m, a) && Seeded(source, index, m, b)
    ensures a == b
  {
    assert a.Keys == b.Keys;
  }

  /** The interface is admitted, propagation reaches every retained row, and some map carries them all. */
  ghost predicate Transportable(source: Body, target: Body, index: Index, src: Instance, dst: Instance, ports: seq<nat>, seed: Values) {
    && Admitted(source, target, index, src, dst, ports, seed) && GroundedBody(source, src, seed.Keys)
    && exists h: Values :: Carries(source, index, src, seed, h)
  }

  /** `h` carries the body, and every map that does so extends `h`. */
  ghost predicate LeastTransport(source: Body, target: Body, index: Index, src: Instance, dst: Instance, ports: seq<nat>, seed: Values, h: Values) {
    && Admitted(source, target, index, src, dst, ports, seed) && Carries(source, index, src, seed, h)
    && forall other: Values {:trigger Carries(source, index, src, seed, other)} ::
         Carries(source, index, src, seed, other) ==> Extends(other, h)
  }

  lemma CheckedRows(source: Body, src: Instance, ids: seq<nat>, done: seq<nat>, checked: seq<nat>)
    requires Selection(source, src, ids) && |done| == |ids| == |checked| && forall i: nat :: i < |ids| ==> i in done
    requires forall k :: 0 <= k < |done| ==> done[k] < |ids| && checked[k] == ids[done[k]]
    ensures forall i: nat :: i in checked <==> Retained(source, src, i)
  {
    forall i: nat | i in checked ensures Retained(source, src, i) {
      var k :| 0 <= k < |checked| && checked[k] == i;
      assert ids[done[k]] in ids;
    }
    forall i: nat | Retained(source, src, i) ensures i in checked {
      assert i in ids;
      var j: nat :| j < |ids| && ids[j] == i;
      assert j in done;
      var k :| 0 <= k < |done| && done[k] == j;
      assert checked[k] == i;
    }
  }

  /** Succeeds exactly when the body is transportable; the result is the least transport, over all retained rows. */
  method RetainBody(source: Body, target: Body, src: Instance, dst: Instance, ports: seq<nat>, index: Index)
    returns (r: Option<Transport>)
    requires Indexes(target, index)
    ensures r.Some? <==> exists seed: Values :: Transportable(source, target, index, src, dst, ports, seed)
    ensures r.Some? ==> exists seed: Values :: LeastTransport(source, target, index, src, dst, ports, seed, r.value.values)
    ensures r.Some? ==> r.value.ports == ports && forall i: nat :: i in r.value.checked <==> Retained(source, src, i)
  {
    if source.scope != target.scope { return None; }
    var m := SeedPorts(src, dst, ports);
    if m.None? { return None; }
    var seed := SeedLiterals(source, index, m.value);
    var ids := SelectRows(source, src);
    if ids.None? { return None; }
    assert Admitted(source, target, index, src, dst, ports, seed);
    forall other: Values | Admitted(source, target, index, src, dst, ports, other) ensures other == seed {
      SeedUnique(source, target, index, src, dst, ports, other, seed);
    }
    r := Transfer(source, src, ports, index, ids.value, seed);
    if r.Some? {
      assert LeastTransport(source, target, index, src, dst, ports, seed, r.value.values);
      assert Transportable(source, target, index, src, dst, ports, seed);
    }
  }

  /** Propagation over the selected rows. */
  method Transfer(source: Body, src: Instance, ports: seq<nat>, index: Index, ids: seq<nat>, seed: Values) returns (r: Option<Transport>)
    requires Selection(source, src, ids)
    ensures r.Some? <==> GroundedBody(source, src, seed.Keys) && exists h: Values :: Carries(source, index, src, seed, h)
    ensures r.Some? ==> Carries(source, index, src, seed, r.value.values)
    ensures r.Some? ==> forall h: Values {:trigger Carries(source, index, src, seed, h)} ::
              Carries(source, index, src, seed, h) ==> Extends(h, r.value.values)
    ensures r.Some? ==> r.value.ports == ports && forall i: nat :: i in r.value.checked <==> Retained(source, src, i)
  {
    forall k | 0 <= k < |ids| ensures ids[k] < |source.rows| { assert ids[k] in ids; }
    var rows := Pick(source.rows, ids);
    PickedRows(source, src, index, ids, seed);
    var w := Propagate(index.rows, rows, seed);
    if w.None? { return None; }
    var done := w.value.checked;
    forall k | 0 <= k < |done| ensures done[k] < |ids| { assert done[k] in done; }
    var checked := Pick(ids, done);
    CheckedRows(source, src, ids, done, checked);
    r := Some(Transport(w.value.m, checked, ports));
  }

  // ---------- literals ----------

  /** A mapped literal keeps its literal exactly when the literal occurs in the target. */
  lemma LiteralsKept(source: Body, target: Body, index: Index, src: Instance, dst: Instance, ports: seq<nat>, seed: Values, h: Values, v: nat)
    requires Indexes(target, index) && Admitted(source, target, index, src, dst, ports, seed) && Extends(h, seed)
    requires v in h && v < |source.values| && source.values[v].literal.Some?
    ensures h[v] < |target.values| && target.values[h[v]] == source.values[v] <==> Anchored(source, index, v)
  {
    var m: Values :| PortMap(src, dst, ports, m) && Seeded(source, index, m, seed);
    var l := Lit(source.values[v].sort, source.values[v].literal.value);
    if Anchored(source, index, v) {
      assert v in seed && h[v] == seed[v] && LiteralAt(target, index.literals[l], l);
    } else if h[v] < |target.values| && target.values[h[v]] == source.values[v] {
      assert LiteralAt(target, h[v], l);
    }
  }

  /** The transport extends the interface map exactly when no port is a literal that sits elsewhere in the target. */
  lemma PortsKept(source: Body, target: Body, index: Index, src: Instance, dst: Instance, ports: seq<nat>, m: Values, seed: Values)
    requires PortMap(src, dst, ports, m) && Seeded(source, index, m, seed)
    ensures Extends(seed, m) <==> forall v :: v in m && Anchored(source, index, v) ==> Anchor(source, index, v) == m[v]
  {
  }

  /** A visible marker row names a port of the source, whose value goes to the port that the interface says or to its literal. */
  lemma MarkersCarried(source: Body, target: Body, index: Index, src: Instance, dst: Instance, ports: seq<nat>, seed: Values, h: Values, i: nat)
    returns (k: nat)
    requires Admitted(source, target, index, src, dst, ports, seed) && Extends(h, seed)
    requires i < |source.rows| && i !in source.subsumed && source.rows[i].op in src.markers
    ensures k < |src.ports| == |ports| && ports[k] < |dst.ports|
    ensures source.rows[i].op == src.ports[k].marker && source.rows[i].result == src.ports[k].value
    ensures |source.rows[i].args| == 1 && source.rows[i].args[0] < |source.values|
    ensures source.values[source.rows[i].args[0]].literal == Some(src.ports[k].parameter)
    ensures source.rows[i].result in h
    ensures !Anchored(source, index, source.rows[i].result) ==> h[source.rows[i].result] == dst.ports[ports[k]].value
  {
    var r := source.rows[i];
    assert MarkerFits(source, src, r);
    k :| 0 <= k < |src.ports| && src.ports[k].marker == r.op &&
         source.values[r.args[0]].literal == Some(src.ports[k].parameter) && src.ports[k].value == r.result;
    var m: Values :| PortMap(src, dst, ports, m) && Seeded(source, index, m, seed);
    assert PortSent(src, dst, ports, m, k);
  }

  // ---------- inputs at the edge ----------

  function Literal(text: string): Slot {
    Slot("i64", Some(text))
  }

  function Single(value: nat): Instance {
    Instance([Port("i64", value, "", "")], {})
  }

  /** A port that is the literal 7, sent to the literal 3 in a target that also holds 7, goes to 7 after all. */
  lemma PortOverridden(source: Body, target: Body, index: Index)
    requires source == Body("", [Literal("7")], [], {}) && target == Body("", [Literal("3"), Literal("7")], [], {}) && Indexes(target, index)
    ensures PortMap(Single(0), Single(0), [0], map[0 := 0]) && Seeded(source, index, map[0 := 0], map[0 := 1])
    ensures !Extends(map[0 := 1], map[0 := 0])
  {
    var m: Values := map[0 := 0];
    assert PortSent(Single(0), Single(0), [0], m, 0);
    assert Single(0).ports[0].value == 0 && PortValue(Single(0), 1, 0);
    assert LiteralAt(target, 1, Lit("i64", "7"));
    assert Anchored(source, index, 0) && LiteralAt(target, index.literals[Lit("i64", "7")], Lit("i64", "7"));
  }

  /** A literal that the target lacks, as the result of a constant, is carried to another literal. */
  lemma LiteralChanged(source: Body, target: Body, index: Index)
    requires source == Body("", [Literal("7")], [Row("c", [], 0)], {}) && target == Body("", [Literal("8")], [Row("c", [], 0)], {})
    requires Indexes(target, index)
    ensures Carries(source, index, Instance([], {}), map[], map[0 := 0]) && target.values[0] != source.values[0]
  {
    var k := Key("c", []);
    assert RowAt(target, 0, k, 0);
    var i: nat :| RowAt(target, i, k, index.rows[k]);
    forall j: nat | Retained(source, Instance([], {}), j) ensures Carried(index.rows, map[0 := 0], source.rows[j]) {
      assert Image(map[0 := 0], source.rows[0].args) == [];
    }
  }
}
