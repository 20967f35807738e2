/**
 * `contains` of src/reuse_fragment.rs: does a baked body contain a match of a
 * conjunctive fragment?  The search is iterative: an explicit depth, one
 * candidate counter and one undo trail for each level.
 *
 * The specification is the existence of a homomorphism (`Homomorphism`), which
 * knows nothing of domains, candidate order, trails or depth, and which exists
 * exactly if the fragment holds wherever the body does (`Implied`).
 */
module ReuseFragment {
  import opened Wrappers

  datatype Slot = Slot(sort: string, literal: Option<string>)
  datatype Atom = Atom(op: string, cols: seq<nat>)
  datatype Query = Query(values: seq<Slot>, atoms: seq<Atom>)

  // ---------- what the search decides ----------

  /** Every atom lists its inputs and at most one output, all of them slots of the query. */
  predicate WellFormed(q: Query, arities: seq<nat>) {
    && |q.atoms| == |arities|
    && forall i :: 0 <= i < |q.atoms| ==>
         && arities[i] <= |q.atoms[i].cols| <= arities[i] + 1
         && forall k :: 0 <= k < |q.atoms[i].cols| ==> q.atoms[i].cols[k] < |q.values|
  }

  /** A query slot may be sent to a body slot of its sort, carrying its literal if it has one. */
  predicate SlotFits(a: Slot, b: Slot) {
    a.sort == b.sort && (a.literal.Some? ==> b.literal == a.literal)
  }

  /** `h` sends the listed columns to the leading columns of a body row. */
  ghost predicate Sends(h: seq<nat>, cols: seq<nat>, row: seq<nat>) {
    && |cols| <= |row|
    && forall k :: 0 <= k < |cols| ==> cols[k] < |h| && h[cols[k]] == row[k]
  }

  /** Atom `i` of the query goes to row `j` of the body under `h`. */
  ghost predicate AtomImage(body: Query, bodyArities: seq<nat>, query: Query, arities: seq<nat>,
                            h: seq<nat>, i: nat, j: nat)
    requires WellFormed(body, bodyArities) && WellFormed(query, arities)
    requires i < |query.atoms| && j < |body.atoms|
  {
    && query.atoms[i].op == body.atoms[j].op
    && arities[i] == bodyArities[j]
    && Sends(h, query.atoms[i].cols, body.atoms[j].cols)
    && forall k :: 0 <= k < |query.atoms[i].cols| ==>
         SlotFits(query.values[query.atoms[i].cols[k]], body.values[body.atoms[j].cols[k]])
  }

  ghost predicate AtomSent(body: Query, bodyArities: seq<nat>, query: Query, arities: seq<nat>, h: seq<nat>, i: nat)
    requires WellFormed(body, bodyArities) && WellFormed(query, arities)
    requires i < |query.atoms|
  {
    exists j: nat :: j < |body.atoms| && AtomImage(body, bodyArities, query, arities, h, i, j)
  }

  /** A possibly non-injective map of query slots to body slots sending every atom to some row. */
  ghost predicate Homomorphism(body: Query, bodyArities: seq<nat>, query: Query, arities: seq<nat>, h: seq<nat>)
    requires WellFormed(body, bodyArities) && WellFormed(query, arities)
  {
    && |h| == |query.values|
    && forall i: nat :: i < |query.atoms| ==> AtomSent(body, bodyArities, query, arities, h, i)
  }

  // ---------- what a homomorphism is good for ----------

  /** A row of a table: its operator, the number of its inputs, and its elements. */
  datatype Record = Record(op: string, arity: nat, elements: seq<nat>)

  /** Elements with their sorts, those that are literal values with their literals, and rows of elements. */
  datatype Database = Database(elements: seq<Slot>, records: seq<Record>)

  /** The record matches the leading columns, in sort and value, under `g`. */
  ghost predicate RecordMatches(db: Database, q: Query, arities: seq<nat>, g: seq<nat>, i: nat, j: nat)
    requires WellFormed(q, arities) && i < |q.atoms| && j < |db.records|
  {
    var cols, r := q.atoms[i].cols, db.records[j];
    && r.op == q.atoms[i].op && r.arity == arities[i] && |cols| <= |r.elements|
    && forall k :: 0 <= k < |cols| ==>
         && cols[k] < |g| && g[cols[k]] == r.elements[k] && r.elements[k] < |db.elements|
         && db.elements[r.elements[k]].sort == q.values[cols[k]].sort
         && (q.values[cols[k]].literal.Some? ==> db.elements[r.elements[k]].literal == q.values[cols[k]].literal)
  }

  ghost predicate AtomHolds(db: Database, q: Query, arities: seq<nat>, g: seq<nat>, i: nat)
    requires WellFormed(q, arities) && i < |q.atoms|
  {
    exists j: nat :: j < |db.records| && RecordMatches(db, q, arities, g, i, j)
  }

  /** The conjunction holds in the database under `g`. */
  ghost predicate Holds(db: Database, q: Query, arities: seq<nat>, g: seq<nat>)
    requires WellFormed(q, arities)
  {
    |g| == |q.values| && forall i: nat :: i < |q.atoms| ==> AtomHolds(db, q, arities, g, i)
  }

  ghost predicate Satisfied(db: Database, q: Query, arities: seq<nat>)
    requires WellFormed(q, arities)
  {
    exists g :: Holds(db, q, arities, g)
  }

  /** Wherever the body holds, the query does. */
  ghost predicate Implied(body: Query, bodyArities: seq<nat>, query: Query, arities: seq<nat>)
    requires WellFormed(body, bodyArities) && WellFormed(query, arities)
  {
    forall db: Database :: Satisfied(db, body, bodyArities) ==> Satisfied(db, query, arities)
  }

  /** A match of the body, read along the homomorphism, is one of the query. */
  lemma AlongHolds(db: Database, body: Query, bodyArities: seq<nat>, query: Query, arities: seq<nat>, h: seq<nat>, g: seq<nat>)
    requires WellFormed(body, bodyArities) && WellFormed(query, arities)
    requires Homomorphism(body, bodyArities, query, arities, h) && Holds(db, body, bodyArities, g)
    ensures Satisfied(db, query, arities)
  {
    var f := seq(|h|, v requires 0 <= v < |h| => if h[v] < |g| then g[h[v]] else 0);
    forall i: nat | i < |query.atoms| ensures AtomHolds(db, query, arities, f, i) {
      assert AtomSent(body, bodyArities, query, arities, h, i);
      var j: nat :| j < |body.atoms| && AtomImage(body, bodyArities, query, arities, h, i, j);
      assert AtomHolds(db, body, bodyArities, g, j);
      var n: nat :| n < |db.records| && RecordMatches(db, body, bodyArities, g, j, n);
      assert RecordMatches(db, query, arities, f, i, n);
    }
    assert Holds(db, query, arities, f);
  }

  /** The body as a database. */
  function Canonical(body: Query, bodyArities: seq<nat>): (db: Database)
    requires WellFormed(body, bodyArities)
  {
    Database(body.values, seq(|body.atoms|, j requires 0 <= j < |body.atoms| => Record(body.atoms[j].op, bodyArities[j], body.atoms[j].cols)))
  }

  lemma CanonicalHolds(body: Query, bodyArities: seq<nat>)
    requires WellFormed(body, bodyArities)
    ensures Satisfied(Canonical(body, bodyArities), body, bodyArities)
  {
    var g := seq(|body.values|, v requires 0 <= v < |body.values| => v);
    forall i: nat | i < |body.atoms| ensures AtomHolds(Canonical(body, bodyArities), body, bodyArities, g, i) {
      assert RecordMatches(Canonical(body, bodyArities), body, bodyArities, g, i, i);
    }
    assert Holds(Canonical(body, bodyArities), body, bodyArities, g);
  }

  /** A homomorphism exists exactly if the query holds in every database in which the body does. */
  lemma HomomorphismMeansImplied(body: Query, bodyArities: seq<nat>, query: Query, arities: seq<nat>)
    requires WellFormed(body, bodyArities) && WellFormed(query, arities)
    ensures (exists h :: Homomorphism(body, bodyArities, query, arities, h)) <==> Implied(body, bodyArities, query, arities)
  {
    if h :| Homomorphism(body, bodyArities, query, arities, h) {
      forall db: Database | Satisfied(db, body, bodyArities) ensures Satisfied(db, query, arities) {
        var g :| Holds(db, body, bodyArities, g);
        AlongHolds(db, body, bodyArities, query, arities, h, g);
      }
    }
    if Implied(body, bodyArities, query, arities) {
      var db := Canonical(body, bodyArities);
      CanonicalHolds(body, bodyArities);
      assert Satisfied(db, query, arities);
      var h :| Holds(db, query, arities, h);
      forall i: nat | i < |query.atoms| ensures AtomSent(body, bodyArities, query, arities, h, i) {
        assert AtomHolds(db, query, arities, h, i);
        var j: nat :| j < |db.records| && RecordMatches(db, query, arities, h, i, j);
        assert AtomImage(body, bodyArities, query, arities, h, i, j);
      }
      assert Homomorphism(body, bodyArities, query, arities, h);
    }
  }

  // ---------- candidate rows ----------

  /** The row test that fills the candidate domains. */
  predicate Compatible(body: Query, bodyArities: seq<nat>, query: Query, arities: seq<nat>, i: nat, j: nat)
    requires WellFormed(body, bodyArities) && WellFormed(query, arities)
    requires i < |query.atoms| && j < |body.atoms|
  {
    && query.atoms[i].op == body.atoms[j].op
    && arities[i] == bodyArities[j]
    && |query.atoms[i].cols| <= |body.atoms[j].cols|
    && forall k :: 0 <= k < |query.atoms[i].cols| ==>
         SlotFits(query.values[query.atoms[i].cols[k]], body.values[body.atoms[j].cols[k]])
  }

  method Candidates(body: Query, bodyArities: seq<nat>, query: Query, arities: seq<nat>, i: nat)
    returns (rows: seq<nat>)
    requires WellFormed(body, bodyArities) && WellFormed(query, arities)
    requires i < |query.atoms|
    ensures forall c :: 0 <= c < |rows| ==> rows[c] < |body.atoms| && Compatible(body, bodyArities, query, arities, i, rows[c])
    ensures forall j: nat :: j < |body.atoms| && Compatible(body, bodyArities, query, arities, i, j) ==> j in rows
  {
    rows := [];
    for j := 0 to |body.atoms|
      invariant forall c :: 0 <= c < |rows| ==> rows[c] < |body.atoms| && Compatible(body, bodyArities, query, arities, i, rows[c])
      invariant forall r: nat :: r < j && Compatible(body, bodyArities, query, arities, i, r) ==> r in rows
    {
      if Compatible(body, bodyArities, query, arities, i, j) {
        rows := rows + [j];
      }
    }
  }

  // ---------- atom order ----------

  ghost predicate IsOrder(order: seq<nat>, n: nat) {
    forall d :: 0 <= d < |order| ==> order[d] < n
  }

  /** Stable insertion of a level into an order sorted by domain size. */
  function Insert(i: nat, order: seq<nat>, key: seq<nat>): (r: seq<nat>)
    requires i < |key| && forall d :: 0 <= d < |order| ==> order[d] < |key|
    ensures |r| == |order| + 1
    ensures forall d :: 0 <= d < |r| ==> r[d] < |key|
    ensures forall x :: x in r <==> x == i || x in order
  {
    if order == [] then [i]
    else if key[order[0]] <= key[i] then [order[0]] + Insert(i, order[1..], key)
    else [i] + order
  }

  /** 0..n sorted by `key`, equal keys in their original order. */
  function SortByKey(n: nat, key: seq<nat>): (r: seq<nat>)
    requires n <= |key|
    ensures |r| == n && IsOrder(r, |key|)
    ensures forall i: nat :: i < n ==> i in r
  {
    if n == 0 then [] else Insert(n - 1, SortByKey(n - 1, key), key)
  }

  // ---------- the search problem, one level for each atom ----------

  /** `cols[d]` are the slots bound at level d, `images[d]` the rows tried there in turn. */
  datatype Problem = Problem(width: nat, cols: seq<seq<nat>>, images: seq<seq<seq<nat>>>)

  ghost predicate ValidProblem(p: Problem) {
    && |p.cols| == |p.images|
    && (forall d, k :: 0 <= d < |p.cols| && 0 <= k < |p.cols[d]| ==> p.cols[d][k] < p.width)
    && (forall d, c :: 0 <= d < |p.images| && 0 <= c < |p.images[d]| ==> |p.cols[d]| <= |p.images[d][c]|)
  }

  /** Choosing row c[d] at each level is consistent, as the assignment `h` shows. */
  ghost predicate Solves(p: Problem, c: seq<nat>, h: seq<nat>)
    requires ValidProblem(p)
  {
    && |c| == |p.cols| && |h| == p.width
    && forall d :: 0 <= d < |c| ==> c[d] < |p.images[d]| && Sends(h, p.cols[d], p.images[d][c[d]])
  }

  type Mapping = seq<Option<nat>>

  /** Entering a level bound exactly the slots of its trail, all of them free before. */
  ghost predicate Entered(before: Mapping, after: Mapping, trail: seq<nat>, cols: seq<nat>, row: seq<nat>) {
    && |before| == |after|
    && |cols| <= |row|
    && (forall q :: q in trail ==> q < |before| && before[q].None? && q in cols)
    && (forall q :: 0 <= q < |before| && q !in trail ==> after[q] == before[q])
    && (forall k :: 0 <= k < |cols| ==> cols[k] < |after| && after[cols[k]] == Some(row[k]))
  }

  /** `h` extends every binding of the mapping. */
  ghost predicate Extends(h: seq<nat>, m: Mapping) {
    |h| == |m| && forall q :: 0 <= q < |m| && m[q].Some? ==> h[q] == m[q].value
  }

  /** The mappings at the live levels are what the live trails recorded. */
  ghost predicate Trace(p: Problem, next: seq<nat>, trails: seq<seq<nat>>, depth: nat, snaps: seq<Mapping>)
    requires ValidProblem(p)
  {
    && |next| == |trails| == |p.cols| && depth <= |p.cols| && |snaps| == depth + 1
    && snaps[0] == seq(p.width, _ => None)
    && (forall d :: 0 <= d < |p.cols| ==> next[d] <= |p.images[d]|)
    && (forall d :: depth < d < |p.cols| ==> next[d] == 0)
    && (forall d :: depth <= d < |p.cols| ==> trails[d] == [])
    && (forall d :: 0 <= d < depth ==> 1 <= next[d])
    && forall d :: 0 <= d < depth ==>
         Entered(snaps[d], snaps[d + 1], trails[d], p.cols[d], p.images[d][next[d] - 1])
  }

  ghost predicate SamePrefix(c: seq<nat>, next: seq<nat>, d: nat) {
    d <= |c| && d <= |next| && forall e :: 0 <= e < d ==> c[e] + 1 == next[e]
  }

  /** The choices still ahead of the search position, in the order it visits them. */
  ghost predicate Ahead(c: seq<nat>, next: seq<nat>, depth: nat) {
    forall d :: 0 <= d <= depth && d < |c| && d < |next| && SamePrefix(c, next, d) ==>
      if d < depth then c[d] + 1 >= next[d] else c[d] >= next[d]
  }

  ghost predicate NothingMissed(p: Problem, next: seq<nat>, depth: nat)
    requires ValidProblem(p)
  {
    forall c, h :: Solves(p, c, h) ==> Ahead(c, next, depth)
  }

  lemma {:induction false} TraceForces(p: Problem, next: seq<nat>, trails: seq<seq<nat>>, depth: nat, snaps: seq<Mapping>,
                                       c: seq<nat>, h: seq<nat>, d: nat)
    requires ValidProblem(p) && Trace(p, next, trails, depth, snaps)
    requires d <= depth && Solves(p, c, h) && SamePrefix(c, next, d)
    ensures |snaps[d]| == p.width && Extends(h, snaps[d])
  {
    if d > 0 {
      TraceForces(p, next, trails, depth, snaps, c, h, d - 1);
      assert Entered(snaps[d - 1], snaps[d], trails[d - 1], p.cols[d - 1], p.images[d - 1][next[d - 1] - 1]);
      assert c[d - 1] + 1 == next[d - 1];
      assert Sends(h, p.cols[d - 1], p.images[d - 1][c[d - 1]]);
    }
  }

  lemma {:induction false} TraceKeeps(p: Problem, next: seq<nat>, trails: seq<seq<nat>>, depth: nat, snaps: seq<Mapping>,
                                      d: nat, e: nat)
    requires ValidProblem(p) && Trace(p, next, trails, depth, snaps)
    requires d <= e <= depth
    ensures |snaps[d]| == |snaps[e]|
    ensures forall q :: 0 <= q < |snaps[d]| && snaps[d][q].Some? ==> snaps[e][q] == snaps[d][q]
    decreases e - d
  {
    if d < e {
      TraceKeeps(p, next, trails, depth, snaps, d, e - 1);
      assert Entered(snaps[e - 1], snaps[e], trails[e - 1], p.cols[e - 1], p.images[e - 1][next[e - 1] - 1]);
    }
  }

  /** A completed descent is a solution. */
  lemma TraceSolves(p: Problem, next: seq<nat>, trails: seq<seq<nat>>, snaps: seq<Mapping>) returns (c: seq<nat>, h: seq<nat>)
    requires ValidProblem(p) && Trace(p, next, trails, |p.cols|, snaps)
    ensures Solves(p, c, h)
  {
    var n := |p.cols|;
    TraceKeeps(p, next, trails, n, snaps, 0, n);
    c := seq(n, d requires 0 <= d < n && 1 <= next[d] => next[d] - 1);
    h := seq(p.width, q requires 0 <= q < p.width => if snaps[n][q].Some? then snaps[n][q].value else 0);
    forall d | 0 <= d < n
      ensures c[d] < |p.images[d]| && Sends(h, p.cols[d], p.images[d][c[d]])
    {
      assert Entered(snaps[d], snaps[d + 1], trails[d], p.cols[d], p.images[d][next[d] - 1]);
      TraceKeeps(p, next, trails, n, snaps, d + 1, n);
    }
  }

  // ---------- termination measure ----------

  /** One more candidate at level d outweighs everything the search can still do below it. */
  ghost function Weight(p: Problem, d: nat): (w: nat)
    requires d <= |p.images|
    ensures w >= 2
    decreases |p.images| - d
  {
    if d + 1 >= |p.images| then 2 else |p.images[d + 1]| * Weight(p, d + 1) + 2
  }

  ghost function Remaining(p: Problem, next: seq<nat>, d: nat): nat
    requires d < |p.images| && |next| == |p.images| && next[d] <= |p.images[d]|
  {
    (|p.images[d]| - next[d]) * Weight(p, d)
  }

  /** Work left at the levels below `upTo`. */
  ghost function Work(p: Problem, next: seq<nat>, upTo: nat): nat
    requires upTo <= |p.images| && |next| == |p.images|
    requires forall d :: 0 <= d < |next| ==> next[d] <= |p.images[d]|
  {
    if upTo == 0 then 0 else Work(p, next, upTo - 1) + Remaining(p, next, upTo - 1)
  }

  lemma {:induction false} WorkAgrees(p: Problem, a: seq<nat>, b: seq<nat>, upTo: nat)
    requires upTo <= |p.images| && |a| == |b| == |p.images|
    requires forall d :: 0 <= d < |a| ==> a[d] <= |p.images[d]| && b[d] <= |p.images[d]|
    requires a[..upTo] == b[..upTo]
    ensures Work(p, a, upTo) == Work(p, b, upTo)
  {
    if upTo > 0 {
      assert a[..upTo - 1] == a[..upTo][..upTo - 1] == b[..upTo][..upTo - 1] == b[..upTo - 1];
      assert a[upTo - 1] == a[..upTo][upTo - 1] == b[..upTo][upTo - 1] == b[upTo - 1];
      WorkAgrees(p, a, b, upTo - 1);
    }
  }

  /** What the search loop still has to do at the given position. */
  ghost function Measure(p: Problem, next: seq<nat>, depth: nat): nat
    requires depth <= |p.images| && |next| == |p.images|
    requires forall d :: 0 <= d < |next| ==> next[d] <= |p.images[d]|
  {
    Work(p, next, if depth < |next| then depth + 1 else depth) + depth
  }

  lemma MeasureTry(p: Problem, before: seq<nat>, after: seq<nat>, depth: nat)
    requires depth < |p.images| && |before| == |p.images|
    requires forall d :: 0 <= d < |before| ==> before[d] <= |p.images[d]|
    requires before[depth] < |p.images[depth]| && after == before[depth := before[depth] + 1]
    requires depth + 1 < |before| ==> before[depth + 1] == 0
    ensures Measure(p, after, depth) < Measure(p, before, depth)
    ensures Measure(p, after, depth + 1) < Measure(p, before, depth)
  {
    WorkAgrees(p, before, after, depth);
    var w := Weight(p, depth);
    var left := |p.images[depth]| - before[depth];
    assert left * w == (left - 1) * w + w;
  }

  lemma MeasureBack(p: Problem, before: seq<nat>, after: seq<nat>, depth: nat)
    requires 0 < depth < |p.images| && |before| == |p.images|
    requires forall d :: 0 <= d < |before| ==> before[d] <= |p.images[d]|
    requires before[depth] == |p.images[depth]| && after == before[depth := 0]
    ensures Measure(p, after, depth - 1) < Measure(p, before, depth)
  {
    WorkAgrees(p, before, after, depth);
  }

  // ---------- binding and undoing one row ----------

  method BindRow(mapping: array<Option<nat>>, cols: seq<nat>, row: seq<nat>) returns (valid: bool, trail: seq<nat>)
    requires |cols| <= |row|
    requires forall k :: 0 <= k < |cols| ==> cols[k] < mapping.Length
    modifies mapping
    ensures forall q :: q in trail ==> q < mapping.Length && old(mapping[..])[q].None?
    ensures forall q :: 0 <= q < mapping.Length && q !in trail ==> mapping[q] == old(mapping[..])[q]
    ensures valid ==> Entered(old(mapping[..]), mapping[..], trail, cols, row)
    ensures !valid ==> forall h :: Extends(h, old(mapping[..])) ==> !Sends(h, cols, row)
  {
    ghost var was := mapping[..];
    valid, trail := true, [];
    for i := 0 to |cols|
      invariant forall q :: q in trail ==> q < mapping.Length && was[q].None?
      invariant forall q :: q in trail ==> exists k :: 0 <= k < i && cols[k] == q
      invariant forall q :: 0 <= q < mapping.Length && q !in trail ==> mapping[q] == was[q]
      invariant forall k :: 0 <= k < i ==> mapping[cols[k]] == Some(row[k])
    {
      var q := cols[i];
      if mapping[q].Some? {
        if mapping[q].value != row[i] {
          forall h | Extends(h, was)
            ensures !Sends(h, cols, row)
          {
            if q in trail {
              var k :| 0 <= k < i && cols[k] == q;
              assert row[k] != row[i];
            }
          }
          return false, trail;
        }
      } else {
        assert forall k :: 0 <= k < i ==> cols[k] != q;
        mapping[q] := Some(row[i]);
        trail := trail + [q];
      }
    }
  }

  method Undo(mapping: array<Option<nat>>, trail: seq<nat>, ghost was: Mapping)
    requires |was| == mapping.Length
    requires forall q :: q in trail ==> q < mapping.Length && was[q].None?
    requires forall q :: 0 <= q < mapping.Length && q !in trail ==> mapping[q] == was[q]
    modifies mapping
    ensures mapping[..] == was
  {
    for i := 0 to |trail|
      invariant forall q :: 0 <= q < mapping.Length && q !in trail[i..] ==> mapping[q] == was[q]
    {
      assert trail[i] in trail;
      assert trail[i..] == [trail[i]] + trail[i + 1..];
      mapping[trail[i]] := None;
    }
  }

  // ---------- the loop ----------

  /** The whole loop invariant, on values. */
  ghost predicate At(p: Problem, mapping: Mapping, next: seq<nat>, trails: seq<seq<nat>>, depth: nat, snaps: seq<Mapping>)
    requires ValidProblem(p)
  {
    Trace(p, next, trails, depth, snaps) && mapping == snaps[depth] && NothingMissed(p, next, depth)
  }

  lemma Start(p: Problem, mapping: Mapping, next: seq<nat>, trails: seq<seq<nat>>)
    requires ValidProblem(p)
    requires mapping == seq(p.width, _ => None)
    requires next == seq(|p.cols|, _ => 0) && trails == seq(|p.cols|, _ => [])
    ensures At(p, mapping, next, trails, 0, [mapping])
  {
  }

  lemma StepBack(p: Problem, mapping: Mapping, next: seq<nat>, trails: seq<seq<nat>>, depth: nat, snaps: seq<Mapping>)
    requires ValidProblem(p) && At(p, mapping, next, trails, depth, snaps)
    requires 0 < depth < |p.cols| && next[depth] == |p.images[depth]|
    ensures Entered(snaps[depth - 1], mapping, trails[depth - 1], p.cols[depth - 1], p.images[depth - 1][next[depth - 1] - 1])
    ensures At(p, snaps[depth - 1], next[depth := 0], trails[depth - 1 := []], depth - 1, snaps[..depth])
    ensures Measure(p, next[depth := 0], depth - 1) < Measure(p, next, depth)
  {
    NothingMissedBack(p, next, next[depth := 0], depth);
    MeasureBack(p, next, next[depth := 0], depth);
  }

  lemma StepEnter(p: Problem, mapping: Mapping, next: seq<nat>, trails: seq<seq<nat>>, depth: nat, snaps: seq<Mapping>,
                  after: Mapping, trail: seq<nat>)
    requires ValidProblem(p) && At(p, mapping, next, trails, depth, snaps)
    requires depth < |p.cols| && next[depth] < |p.images[depth]|
    requires Entered(mapping, after, trail, p.cols[depth], p.images[depth][next[depth]])
    ensures At(p, after, next[depth := next[depth] + 1], trails[depth := trail], depth + 1, snaps + [after])
    ensures Measure(p, next[depth := next[depth] + 1], depth + 1) < Measure(p, next, depth)
  {
    NothingMissedEnter(p, next, next[depth := next[depth] + 1], depth);
    MeasureTry(p, next, next[depth := next[depth] + 1], depth);
  }

  lemma StepReject(p: Problem, mapping: Mapping, next: seq<nat>, trails: seq<seq<nat>>, depth: nat, snaps: seq<Mapping>)
    requires ValidProblem(p) && At(p, mapping, next, trails, depth, snaps)
    requires depth < |p.cols| && next[depth] < |p.images[depth]|
    requires forall h :: Extends(h, mapping) ==> !Sends(h, p.cols[depth], p.images[depth][next[depth]])
    ensures At(p, mapping, next[depth := next[depth] + 1], trails, depth, snaps)
    ensures Measure(p, next[depth := next[depth] + 1], depth) < Measure(p, next, depth)
  {
    NothingMissedReject(p, next, next[depth := next[depth] + 1], trails, depth, snaps, p.images[depth][next[depth]]);
    MeasureTry(p, next, next[depth := next[depth] + 1], depth);
  }

  /** A level without candidates left is reset, and the level above it undone. */
  method Retreat(p: Problem, mapping: array<Option<nat>>, next: array<nat>, trails: array<seq<nat>>, depth: nat,
                 ghost snaps: seq<Mapping>)
    requires ValidProblem(p) && At(p, mapping[..], next[..], trails[..], depth, snaps)
    requires 0 < depth < |p.cols| && next[depth] == |p.images[depth]|
    modifies mapping, next, trails
    ensures At(p, mapping[..], next[..], trails[..], depth - 1, snaps[..depth])
    ensures Measure(p, next[..], depth - 1) < old(Measure(p, next[..], depth))
  {
    StepBack(p, mapping[..], next[..], trails[..], depth, snaps);
    ghost var was, recorded := next[..], trails[..];
    next[depth] := 0;
    Undo(mapping, trails[depth - 1], snaps[depth - 1]);
    trails[depth - 1] := [];
    assert next[..] == was[depth := 0] && trails[..] == recorded[depth - 1 := []];
  }

  /** The next candidate of a level is bound, or refused without a trace. */
  method Try(p: Problem, mapping: array<Option<nat>>, next: array<nat>, trails: array<seq<nat>>, depth: nat,
             ghost snaps: seq<Mapping>)
    returns (valid: bool)
    requires ValidProblem(p) && At(p, mapping[..], next[..], trails[..], depth, snaps)
    requires depth < |p.cols| && next[depth] < |p.images[depth]|
    modifies mapping, next, trails
    ensures valid ==> At(p, mapping[..], next[..], trails[..], depth + 1, snaps + [mapping[..]])
    ensures valid ==> Measure(p, next[..], depth + 1) < old(Measure(p, next[..], depth))
    ensures !valid ==> At(p, mapping[..], next[..], trails[..], depth, snaps)
    ensures !valid ==> Measure(p, next[..], depth) < old(Measure(p, next[..], depth))
    ensures !valid ==> mapping[..] == old(mapping[..]) && trails[..] == old(trails[..])
  {
    ghost var start, was, recorded := mapping[..], next[..], trails[..];
    TraceKeeps(p, was, recorded, depth, snaps, 0, depth);
    var row := p.images[depth][next[depth]];
    next[depth] := next[depth] + 1;
    assert next[..] == was[depth := was[depth] + 1];
    var trail;
    valid, trail := BindRow(mapping, p.cols[depth], row);
    if valid {
      StepEnter(p, start, was, recorded, depth, snaps, mapping[..], trail);
      trails[depth] := trail;
      assert trails[..] == recorded[depth := trail];
    } else {
      StepReject(p, start, was, recorded, depth, snaps);
      Undo(mapping, trail, start);
    }
  }

  method Search(p: Problem) returns (found: bool)
    requires ValidProblem(p)
    ensures found <==> exists c, h :: Solves(p, c, h)
  {
    var n := |p.cols|;
    var mapping := new Option<nat>[p.width](_ => None);
    var next := new nat[n](_ => 0);
    var trails := new seq<nat>[n](_ => []);
    var depth := 0;
    ghost var snaps: seq<Mapping> := [mapping[..]];
    Start(p, mapping[..], next[..], trails[..]);
    while depth != n
      invariant depth <= n
      invariant At(p, mapping[..], next[..], trails[..], depth, snaps)
      decreases Measure(p, next[..], depth)
    {
      if next[depth] == |p.images[depth]| {
        if depth == 0 {
          ExhaustedRoot(p, next[..]);
          return false;
        }
        Retreat(p, mapping, next, trails, depth, snaps);
        snaps := snaps[..depth];
        depth := depth - 1;
      } else {
        var valid := Try(p, mapping, next, trails, depth, snaps);
        if valid {
          snaps := snaps + [mapping[..]];
          depth := depth + 1;
        }
      }
    }
    ghost var c, h := TraceSolves(p, next[..], trails[..], snaps);
    found := true;
  }

  lemma ExhaustedRoot(p: Problem, next: seq<nat>)
    requires ValidProblem(p) && |p.cols| > 0 && |next| == |p.cols|
    requires next[0] == |p.images[0]| && NothingMissed(p, next, 0)
    ensures forall c, h :: !Solves(p, c, h)
  {
    forall c: seq<nat>, h
      ensures !Solves(p, c, h)
    {
      assert SamePrefix(c, next, 0);
    }
  }

  lemma NothingMissedBack(p: Problem, was: seq<nat>, now: seq<nat>, depth: nat)
    requires ValidProblem(p) && |was| == |p.cols| && 0 < depth < |p.cols|
    requires was[depth] == |p.images[depth]| && now == was[depth := 0]
    requires NothingMissed(p, was, depth)
    ensures NothingMissed(p, now, depth - 1)
  {
    forall c, h | Solves(p, c, h)
      ensures Ahead(c, now, depth - 1)
    {
      assert Ahead(c, was, depth);
      forall d | 0 <= d <= depth - 1 && SamePrefix(c, now, d)
        ensures if d < depth - 1 then c[d] + 1 >= now[d] else c[d] >= now[d]
      {
        assert SamePrefix(c, was, d);
        assert c[depth] < |p.images[depth]|;
        assert !SamePrefix(c, was, depth);
      }
    }
  }

  lemma NothingMissedEnter(p: Problem, was: seq<nat>, now: seq<nat>, depth: nat)
    requires ValidProblem(p) && |was| == |p.cols| && depth < |p.cols|
    requires now == was[depth := was[depth] + 1]
    requires depth + 1 < |was| ==> was[depth + 1] == 0
    requires NothingMissed(p, was, depth)
    ensures NothingMissed(p, now, depth + 1)
  {
    forall c, h | Solves(p, c, h)
      ensures Ahead(c, now, depth + 1)
    {
      assert Ahead(c, was, depth);
      forall d | 0 <= d <= depth + 1 && d < |c| && SamePrefix(c, now, d)
        ensures if d < depth + 1 then c[d] + 1 >= now[d] else c[d] >= now[d]
      {
        if d <= depth {
          assert SamePrefix(c, was, d);
        }
      }
    }
  }

  /** A row that contradicts the live bindings cannot be part of any solution with this prefix. */
  lemma NothingMissedReject(p: Problem, was: seq<nat>, now: seq<nat>, trails: seq<seq<nat>>, depth: nat,
                            snaps: seq<Mapping>, row: seq<nat>)
    requires ValidProblem(p) && Trace(p, was, trails, depth, snaps) && depth < |p.cols|
    requires was[depth] < |p.images[depth]| && row == p.images[depth][was[depth]]
    requires now == was[depth := was[depth] + 1]
    requires forall h :: Extends(h, snaps[depth]) ==> !Sends(h, p.cols[depth], row)
    requires NothingMissed(p, was, depth)
    ensures NothingMissed(p, now, depth)
  {
    forall c, h | Solves(p, c, h)
      ensures Ahead(c, now, depth)
    {
      assert Ahead(c, was, depth);
      forall d | 0 <= d <= depth && SamePrefix(c, now, d)
        ensures if d < depth then c[d] + 1 >= now[d] else c[d] >= now[d]
      {
        assert SamePrefix(c, was, d);
        if d == depth {
          TraceForces(p, was, trails, depth, snaps, c, h, depth);
          assert Sends(h, p.cols[depth], p.images[depth][c[depth]]);
        }
      }
    }
  }

  // ---------- from the query to the search and back ----------

  ghost predicate Domains(body: Query, bodyArities: seq<nat>, query: Query, arities: seq<nat>, domains: seq<seq<nat>>)
    requires WellFormed(body, bodyArities) && WellFormed(query, arities)
  {
    && |domains| <= |query.atoms|
    && (forall i, c :: 0 <= i < |domains| && 0 <= c < |domains[i]| ==>
          domains[i][c] < |body.atoms| && Compatible(body, bodyArities, query, arities, i, domains[i][c]))
    && (forall i: nat, j: nat :: i < |domains| && j < |body.atoms| && Compatible(body, bodyArities, query, arities, i, j) ==>
          j in domains[i])
  }

  /** The levels that an atom order and the candidate domains give. */
  function Levels(body: Query, query: Query, domains: seq<seq<nat>>, order: seq<nat>): (p: Problem)
    requires |domains| == |query.atoms|
    requires IsOrder(order, |query.atoms|)
    requires forall i, c :: 0 <= i < |domains| && 0 <= c < |domains[i]| ==> domains[i][c] < |body.atoms|
    ensures |p.cols| == |p.images| == |order| && p.width == |query.values|
    ensures forall d :: 0 <= d < |order| ==> |p.images[d]| == |domains[order[d]]|
    ensures forall d :: 0 <= d < |order| ==> p.cols[d] == query.atoms[order[d]].cols
    ensures forall d, c :: 0 <= d < |order| && 0 <= c < |domains[order[d]]| ==>
              p.images[d][c] == body.atoms[domains[order[d]][c]].cols
  {
    Problem(|query.values|,
            seq(|order|, d requires 0 <= d < |order| => query.atoms[order[d]].cols),
            seq(|order|, d requires 0 <= d < |order| =>
              seq(|domains[order[d]]|, c requires 0 <= c < |domains[order[d]]| =>
                body.atoms[domains[order[d]][c]].cols)))
  }

  lemma LevelsDecide(body: Query, bodyArities: seq<nat>, query: Query, arities: seq<nat>,
                     domains: seq<seq<nat>>, order: seq<nat>)
    requires WellFormed(body, bodyArities) && WellFormed(query, arities)
    requires Domains(body, bodyArities, query, arities, domains) && |domains| == |query.atoms|
    requires IsOrder(order, |query.atoms|) && forall i: nat :: i < |query.atoms| ==> i in order
    ensures var p := Levels(body, query, domains, order);
            ValidProblem(p) &&
            ((exists c, h :: Solves(p, c, h)) <==> exists h :: Homomorphism(body, bodyArities, query, arities, h))
  {
    var p := Levels(body, query, domains, order);
    forall c, h | Solves(p, c, h)
      ensures Homomorphism(body, bodyArities, query, arities, h)
    {
      SolutionIsHomomorphism(body, bodyArities, query, arities, domains, order, c, h);
    }
    forall h | Homomorphism(body, bodyArities, query, arities, h)
      ensures exists c :: Solves(p, c, h)
    {
      var c := HomomorphismIsSolution(body, bodyArities, query, arities, domains, order, h);
    }
  }

  lemma SolutionIsHomomorphism(body: Query, bodyArities: seq<nat>, query: Query, arities: seq<nat>,
                               domains: seq<seq<nat>>, order: seq<nat>, c: seq<nat>, h: seq<nat>)
    requires WellFormed(body, bodyArities) && WellFormed(query, arities)
    requires Domains(body, bodyArities, query, arities, domains) && |domains| == |query.atoms|
    requires IsOrder(order, |query.atoms|) && forall i: nat :: i < |query.atoms| ==> i in order
    requires ValidProblem(Levels(body, query, domains, order)) && Solves(Levels(body, query, domains, order), c, h)
    ensures Homomorphism(body, bodyArities, query, arities, h)
  {
    forall i: nat | i < |query.atoms|
      ensures AtomSent(body, bodyArities, query, arities, h, i)
    {
      assert i in order;
      var d: nat :| d < |order| && order[d] == i;
      var j := domains[i][c[d]];
      assert j in domains[i];
      assert AtomImage(body, bodyArities, query, arities, h, i, j);
    }
  }

  lemma HomomorphismIsSolution(body: Query, bodyArities: seq<nat>, query: Query, arities: seq<nat>,
                               domains: seq<seq<nat>>, order: seq<nat>, h: seq<nat>) returns (c: seq<nat>)
    requires WellFormed(body, bodyArities) && WellFormed(query, arities)
    requires Domains(body, bodyArities, query, arities, domains) && |domains| == |query.atoms|
    requires IsOrder(order, |query.atoms|) && forall i: nat :: i < |query.atoms| ==> i in order
    requires ValidProblem(Levels(body, query, domains, order)) && Homomorphism(body, bodyArities, query, arities, h)
    ensures Solves(Levels(body, query, domains, order), c, h)
  {
    var p := Levels(body, query, domains, order);
    c := [];
    while |c| < |order|
      invariant |c| <= |order|
      invariant forall d :: 0 <= d < |c| ==> c[d] < |p.images[d]| && Sends(h, p.cols[d], p.images[d][c[d]])
    {
      var i := order[|c|];
      assert i in order;
      assert AtomSent(body, bodyArities, query, arities, h, i);
      var j: nat :| j < |body.atoms| && AtomImage(body, bodyArities, query, arities, h, i, j);
      assert j in domains[i];
      var k: nat :| k < |domains[i]| && domains[i][k] == j;
      c := c + [k];
    }
  }

  /** An atom without candidates rules every homomorphism out. */
  lemma EmptyDomain(body: Query, bodyArities: seq<nat>, query: Query, arities: seq<nat>, i: nat, h: seq<nat>)
    requires WellFormed(body, bodyArities) && WellFormed(query, arities) && i < |query.atoms|
    requires forall j: nat :: j < |body.atoms| ==> !Compatible(body, bodyArities, query, arities, i, j)
    ensures !Homomorphism(body, bodyArities, query, arities, h)
  {
    forall j: nat | j < |body.atoms|
      ensures !AtomImage(body, bodyArities, query, arities, h, i, j)
    {
      assert !Compatible(body, bodyArities, query, arities, i, j);
    }
    assert !AtomSent(body, bodyArities, query, arities, h, i);
  }

  /** Decides the existence of a homomorphism, and rejects exactly the malformed schemas. */
  method Contains(body: Query, bodyArities: seq<nat>, query: Query, arities: seq<nat>) returns (r: Result<bool>)
    ensures r.Ok? <==> WellFormed(body, bodyArities) && WellFormed(query, arities)
    ensures r.Ok? ==> (r.value <==> exists h :: Homomorphism(body, bodyArities, query, arities, h))
    ensures r.Ok? ==> (r.value <==> Implied(body, bodyArities, query, arities))
  {
    if !WellFormed(body, bodyArities) || !WellFormed(query, arities) {
      return Err("malformed fragment schema or value slot");
    }
    HomomorphismMeansImplied(body, bodyArities, query, arities);
    var domains: seq<seq<nat>> := [];
    for i := 0 to |query.atoms|
      invariant |domains| == i && Domains(body, bodyArities, query, arities, domains)
    {
      var rows := Candidates(body, bodyArities, query, arities, i);
      if rows == [] {
        forall h ensures !Homomorphism(body, bodyArities, query, arities, h) {
          EmptyDomain(body, bodyArities, query, arities, i, h);
        }
        return Ok(false);
      }
      domains := domains + [rows];
    }
    var order := SortByKey(|domains|, seq(|domains|, i requires 0 <= i < |domains| => |domains[i]|));
    LevelsDecide(body, bodyArities, query, arities, domains, order);
    var found := Search(Levels(body, query, domains, order));
    return Ok(found);
  }
}
