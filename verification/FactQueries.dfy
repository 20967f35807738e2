/**
 * The part of the engine that src/native_factored_query.rs relies on
 * (egglog/src/fact_query.rs): conjunctive queries over tables whose outputs are
 * functions of their keys, and the scan that looks for one fresh answer.
 */
module FactQueries {
  import opened Wrappers

  type Value = nat
  type Row = seq<Value>

  datatype Literal = Literal(sort: string, value: Value)
  datatype Slot = Slot(sort: string, literal: Option<Literal>)
  datatype Atom = Atom(op: string, cols: seq<nat>)
  datatype FactQuery = FactQuery(values: seq<Slot>, atoms: seq<Atom>, projection: seq<nat>)

  datatype Schema = Schema(input: seq<string>, output: string)
  datatype Catalog = Catalog(sorts: set<string>, schemas: map<string, Schema>)

  /** A table maps key tuples to outputs; a relation has a private output. */
  type Tables = map<string, map<Row, Value>>

  // ---------- which queries the engine accepts ----------

  function ColumnSort(s: Schema, k: nat): string
    requires k <= |s.input|
  {
    if k < |s.input| then s.input[k] else s.output
  }

  predicate SlotAccepted(c: Catalog, s: Slot) {
    s.sort in c.sorts && (s.literal.Some? ==> s.literal.value.sort == s.sort)
  }

  /** The table exists, the arity fits and every column is a slot of the query. */
  predicate AtomShaped(c: Catalog, n: nat, a: Atom) {
    && a.op in c.schemas
    && |c.schemas[a.op].input| <= |a.cols| <= |c.schemas[a.op].input| + 1
    && forall k :: 0 <= k < |a.cols| ==> a.cols[k] < n
  }

  predicate AtomAccepted(c: Catalog, values: seq<Slot>, a: Atom) {
    && AtomShaped(c, |values|, a)
    && forall k :: 0 <= k < |a.cols| ==> values[a.cols[k]].sort == ColumnSort(c.schemas[a.op], k)
  }

  predicate Bound(atoms: seq<Atom>, v: nat) {
    exists a :: a in atoms && v in a.cols
  }

  /** The checks of `compile_fact_query`; the engine compiles exactly the queries that pass them. */
  predicate Accepted(c: Catalog, q: FactQuery) {
    && (forall i :: 0 <= i < |q.values| ==> SlotAccepted(c, q.values[i]))
    && (forall i :: 0 <= i < |q.atoms| ==> AtomAccepted(c, q.values, q.atoms[i]))
    && (forall i :: 0 <= i < |q.projection| ==> Bound(q.atoms, q.projection[i]))
  }

  // ---------- what a query means ----------

  function Pick(row: Row, cols: seq<nat>): (r: Row)
    requires forall k :: 0 <= k < |cols| ==> cols[k] < |row|
    ensures |r| == |cols| && forall k :: 0 <= k < |cols| ==> r[k] == row[cols[k]]
  {
    seq(|cols|, k requires 0 <= k < |cols| => row[cols[k]])
  }

  predicate InRange(cols: seq<nat>, n: nat) {
    forall k :: 0 <= k < |cols| ==> cols[k] < n
  }

  /** The row of the atom is in its table; an omitted output is existential. */
  ghost predicate Holds(c: Catalog, t: Tables, a: Atom, env: Row) {
    && a.op in c.schemas && a.op in t && InRange(a.cols, |env|)
    && var arity := |c.schemas[a.op].input|;
       && arity <= |a.cols| <= arity + 1
       && Pick(env, a.cols[..arity]) in t[a.op]
       && (|a.cols| == arity + 1 ==> t[a.op][Pick(env, a.cols[..arity])] == env[a.cols[arity]])
  }

  ghost predicate RespectsLiterals(values: seq<Slot>, env: Row) {
    && |env| == |values|
    && forall v :: 0 <= v < |values| && values[v].literal.Some? ==> env[v] == values[v].literal.value.value
  }

  ghost predicate Satisfies(c: Catalog, t: Tables, q: FactQuery, env: Row) {
    && RespectsLiterals(q.values, env)
    && forall a :: a in q.atoms ==> Holds(c, t, a, env)
  }

  ghost predicate Solves(c: Catalog, t: Tables, q: FactQuery, row: Row, env: Row) {
    Satisfies(c, t, q, env) && InRange(q.projection, |env|) && row == Pick(env, q.projection)
  }

  ghost predicate IsAnswer(c: Catalog, t: Tables, q: FactQuery, row: Row) {
    exists env: Row :: Solves(c, t, q, row, env)
  }

  /** Rows the engine enumerates for a query, in any order and with any repetition. */
  ghost predicate Enumerates(c: Catalog, t: Tables, q: FactQuery, rows: seq<Row>) {
    forall row :: row in rows <==> IsAnswer(c, t, q, row)
  }

  // ---------- the scan for a fresh answer ----------

  datatype Partition = Partition(matched: Option<Row>, novel: Option<Row>, seen: set<Row>)

  /**
   * `run_fact_query_partition`: the callback keeps the first row, the first row outside `excluded`,
   * where the run stops, and the excluded rows met on the way.
   */
  function Scan(rows: seq<Row>, excluded: set<Row>): (p: Partition)
    ensures p.matched.Some? <==> rows != []
    ensures p.matched.Some? ==> p.matched.value in rows
    ensures p.novel.Some? <==> exists r :: r in rows && r !in excluded
    ensures p.novel.Some? ==> p.novel.value in rows && p.novel.value !in excluded
    ensures p.novel.None? ==> forall r :: r in p.seen <==> r in rows
  {
    if rows == [] then Partition(None, None, {})
    else if rows[0] !in excluded then Partition(Some(rows[0]), Some(rows[0]), {})
    else
      var rest := Scan(rows[1..], excluded);
      assert forall r :: r in rows <==> r == rows[0] || r in rows[1..];
      Partition(Some(rows[0]), rest.novel, {rows[0]} + rest.seen)
  }
}
