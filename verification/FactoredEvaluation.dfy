/**
 * What a factored query returns (src/native_factored_query.rs, `put`, `all`, `difference`).
 *
 * `Factorisation` reduces the answers of the flat conjunction to those of the
 * factors; the methods below are proved against the flat answers.
 */
module FactoredEvaluation {
  import Collections
  import opened Wrappers
  import opened FactQueries
  import opened FactoredQuery

  // ---------- the product of the factors is the flat query ----------

  ghost predicate Agree(a: Row, b: Row, cols: seq<nat>) {
    |a| == |b| && forall k :: 0 <= k < |cols| && cols[k] < |a| ==> a[cols[k]] == b[cols[k]]
  }

  lemma HoldsDepends(c: Catalog, t: Tables, a: Atom, e: Row, f: Row)
    requires Agree(e, f, a.cols) && Holds(c, t, a, e)
    ensures Holds(c, t, a, f)
  {
    var arity := |c.schemas[a.op].input|;
    assert Pick(e, a.cols[..arity]) == Pick(f, a.cols[..arity]);
  }

  /** Two solutions of factors agree on every functionally determined value. */
  lemma {:induction false} FixedAgree(c: Catalog, t: Tables, flat: FactQuery, fixed: set<nat>, order: seq<nat>, e: Row, f: Row)
    requires Derivation(c, flat.values, flat.atoms, order) && Elements(order) <= fixed
    requires RespectsLiterals(flat.values, e) && RespectsLiterals(flat.values, f)
    requires forall a :: a in flat.atoms && Ground(a, fixed) ==> Holds(c, t, a, e) && Holds(c, t, a, f)
    ensures forall k :: 0 <= k < |order| && order[k] < |e| ==> e[order[k]] == f[order[k]]
  {
    if order != [] {
      var n := |order| - 1;
      assert forall k :: 0 <= k < n ==> order[..n][..k] == order[..k];
      FixedAgree(c, t, flat, fixed, order[..n], e, f);
      var v, known := order[n], Elements(order[..n]);
      assert Derived(c, flat.values, flat.atoms, known, v);
      if !IsLiteral(flat.values, v) {
        var a :| a in flat.atoms && Determines(c, a, known, v);
        DeterminedAgree(c, t, fixed, known, a, v, order[..n], e, f);
      }
      forall k | 0 <= k < |order| && order[k] < |e| ensures e[order[k]] == f[order[k]] {
        if k < n { assert order[k] == order[..n][k]; }
      }
    }
  }

  lemma {:induction false} NothingFree(cols: seq<nat>, fixed: set<nat>)
    requires forall x :: x in cols ==> x in fixed
    ensures Free(cols, fixed) == []
  {
    if cols != [] { NothingFree(cols[1..], fixed); }
  }

  lemma DeterminedAgree(c: Catalog, t: Tables, fixed: set<nat>, known: set<nat>, a: Atom, v: nat, order: seq<nat>, e: Row, f: Row)
    requires Determines(c, a, known, v) && known == Elements(order) && known <= fixed && v in fixed
    requires |e| == |f| && forall k :: 0 <= k < |order| && order[k] < |e| ==> e[order[k]] == f[order[k]]
    requires Ground(a, fixed) ==> Holds(c, t, a, e) && Holds(c, t, a, f)
    ensures v < |e| ==> e[v] == f[v]
  {
    var arity := |c.schemas[a.op].input|;
    forall x | x in a.cols ensures x in fixed {
      var k :| 0 <= k < |a.cols| && a.cols[k] == x;
      assert k < arity ==> x in known;
    }
    NothingFree(a.cols, fixed);
    forall k | 0 <= k < arity ensures e[a.cols[k]] == f[a.cols[k]] {
      assert a.cols[k] in order;
    }
    assert Pick(e, a.cols[..arity]) == Pick(f, a.cols[..arity]);
  }

  /** Every column of the projection belongs to exactly one factor. */
  ghost predicate Layout(q: Query) {
    && (forall i {:trigger q.pieces[i]} :: 0 <= i < |q.pieces| ==> Ascending(q.pieces[i].columns) && InRange(q.pieces[i].columns, q.width))
    && (forall i, j, col :: 0 <= i < j < |q.pieces| && col in q.pieces[i].columns ==> col !in q.pieces[j].columns)
    && forall col: nat {:trigger Owned(q, col)} :: col < q.width ==> Owned(q, col)
  }

  ghost predicate Owned(q: Query, col: nat) {
    exists i :: 0 <= i < |q.pieces| && col in q.pieces[i].columns
  }

  lemma {:induction false} FirstBinder(pieces: seq<Piece>, v: nat) returns (i: nat)
    requires BoundBy(pieces, v)
    ensures i < |pieces| && Bound(pieces[i].query.atoms, v) && !BoundBy(pieces[..i], v)
    decreases |pieces|
  {
    i :| 0 <= i < |pieces| && Bound(pieces[i].query.atoms, v);
    if BoundBy(pieces[..i], v) {
      var j := FirstBinder(pieces[..i], v);
      assert pieces[..i][..j] == pieces[..j];
      i := j;
    }
  }

  lemma ColumnOwner(c: Catalog, flat: FactQuery, plan: Plan, pieces: seq<Piece>, col: nat) returns (i: nat)
    requires Accepted(c, flat) && Analysed(c, flat, plan) && Splits(c, flat, plan, pieces) && pieces != []
    requires col < |flat.projection|
    ensures i < |pieces| && col in pieces[i].columns
  {
    var v := flat.projection[col];
    assert Bound(flat.atoms, v);
    var a :| a in flat.atoms && v in a.cols;
    if v in plan.fixed {
      var j := AtomSomewhere(c, flat, plan, pieces, a);
      assert Bound(pieces[j].query.atoms, v);
      i := FirstBinder(pieces, v);
    } else {
      var k :| 0 <= k < |flat.atoms| && flat.atoms[k] == a;
      assert OneClass(flat.atoms[k], plan.fixed, plan.rep);
      FreeInGroup(plan, a, v);
      assert IsGroup(flat, plan, plan.rep[v]) && plan.rep[v] in plan.ids;
      i :| 0 <= i < |plan.ids| && plan.ids[i] == plan.rep[v];
    }
    assert FactorAt(c, flat, plan, pieces, i) && Owns(flat, plan, pieces, i, col);
  }

  lemma OneOwner(c: Catalog, flat: FactQuery, plan: Plan, pieces: seq<Piece>, i: nat, j: nat, col: nat)
    requires Splits(c, flat, plan, pieces) && Ascending(plan.ids) && i < j < |pieces|
    requires col in pieces[i].columns
    ensures col !in pieces[j].columns
  {
    assert FactorAt(c, flat, plan, pieces, i) && FactorAt(c, flat, plan, pieces, j);
    if col < |flat.projection| {
      assert Owns(flat, plan, pieces, i, col);
      var v := flat.projection[col];
      if v in plan.fixed {
        assert pieces[..j][i] == pieces[i];
        assert BoundBy(pieces[..j], v);
      }
      assert !Owns(flat, plan, pieces, j, col);
    }
  }

  /** The columns of the factors partition the projection, repeated columns included. */
  lemma ColumnsPartition(c: Catalog, flat: FactQuery, q: Query, plan: Plan)
    requires Accepted(c, flat) && Factored(c, flat, q, plan)
    ensures Layout(q)
  {
    if |plan.ids| <= 1 {
      forall col: nat | col < q.width ensures Owned(q, col) {
        assert q.pieces[0].columns[col] in q.pieces[0].columns;
      }
    } else {
      forall i | 0 <= i < |q.pieces|
        ensures Ascending(q.pieces[i].columns) && InRange(q.pieces[i].columns, q.width)
      {
        assert FactorAt(c, flat, plan, q.pieces, i);
      }
      forall i, j, col | 0 <= i < j < |q.pieces| && col in q.pieces[i].columns ensures col !in q.pieces[j].columns {
        OneOwner(c, flat, plan, q.pieces, i, j, col);
      }
      forall col: nat | col < q.width ensures Owned(q, col) {
        var i := ColumnOwner(c, flat, plan, q.pieces, col);
      }
    }
  }

  /** Every factor has the row's columns among its answers. */
  ghost predicate InProduct(c: Catalog, t: Tables, q: Query, row: Row) {
    && |row| == q.width
    && forall i {:trigger q.pieces[i]} :: 0 <= i < |q.pieces| ==>
         InRange(q.pieces[i].columns, |row|) && IsAnswer(c, t, q.pieces[i].query, Pick(row, q.pieces[i].columns))
  }

  lemma FlatInProduct(c: Catalog, t: Tables, flat: FactQuery, plan: Plan, pieces: seq<Piece>, row: Row)
    requires Splits(c, flat, plan, pieces) && IsAnswer(c, t, flat, row)
    ensures InProduct(c, t, Query(pieces, |flat.projection|), row)
  {
    var env: Row :| Solves(c, t, flat, row, env);
    forall i | 0 <= i < |pieces|
      ensures InRange(pieces[i].columns, |row|) && IsAnswer(c, t, pieces[i].query, Pick(row, pieces[i].columns))
    {
      assert FactorAt(c, flat, plan, pieces, i);
      assert Satisfies(c, t, pieces[i].query, env);
      assert Pick(row, pieces[i].columns) == Pick(env, pieces[i].query.projection);
      assert Solves(c, t, pieces[i].query, Pick(row, pieces[i].columns), env);
    }
  }

  ghost function Witness(c: Catalog, t: Tables, q: FactQuery, row: Row): (env: Row)
    requires IsAnswer(c, t, q, row)
    ensures Solves(c, t, q, row, env)
  {
    var env: Row :| Solves(c, t, q, row, env); env
  }

  /** The witnesses of the factors for one row. */
  ghost predicate Witnesses(c: Catalog, t: Tables, pieces: seq<Piece>, row: Row, ws: seq<Row>) {
    && |ws| == |pieces|
    && forall i {:trigger ws[i]} :: 0 <= i < |pieces| ==>
         InRange(pieces[i].columns, |row|) && Solves(c, t, pieces[i].query, Pick(row, pieces[i].columns), ws[i])
  }

  /** Which factor's witness supplies a value: the first for determined ones, the factor of its class for free ones. */
  ghost predicate Supplies(plan: Plan, i: nat, v: nat)
    requires i < |plan.ids|
  {
    if v in plan.fixed then i == 0 else v < |plan.rep| && plan.rep[v] == plan.ids[i]
  }

  ghost function Supplier(plan: Plan, v: nat): (i: nat)
    requires plan.ids != []
    ensures i < |plan.ids|
    ensures (exists k: nat :: k < |plan.ids| && Supplies(plan, k, v)) ==> Supplies(plan, i, v)
  {
    if k: nat :| k < |plan.ids| && Supplies(plan, k, v) then k else 0
  }

  ghost function Combined(plan: Plan, ws: seq<Row>, n: nat): (env: Row)
    requires |ws| == |plan.ids| > 0 && forall i :: 0 <= i < |ws| ==> |ws[i]| == n
    ensures |env| == n && forall v :: 0 <= v < n ==> env[v] == ws[Supplier(plan, v)][v]
  {
    seq(n, v requires 0 <= v < n => ws[Supplier(plan, v)][v])
  }

  lemma SuppliedBy(plan: Plan, i: nat, v: nat)
    requires i < |plan.ids| && Ascending(plan.ids) && v !in plan.fixed && v < |plan.rep| && plan.rep[v] == plan.ids[i]
    ensures Supplier(plan, v) == i
  {
    assert Supplies(plan, i, v);
    var k := Supplier(plan, v);
    assert plan.ids[k] == plan.ids[i];
  }

  /** All witnesses agree with the combined one on determined values. */
  lemma DeterminedSame(c: Catalog, t: Tables, flat: FactQuery, plan: Plan, pieces: seq<Piece>, row: Row, ws: seq<Row>, i: nat, j: nat, v: nat)
    requires Analysed(c, flat, plan) && Splits(c, flat, plan, pieces) && Witnesses(c, t, pieces, row, ws)
    requires i < |pieces| && j < |pieces| && v in plan.fixed && v < |flat.values|
    ensures |ws[i]| == |ws[j]| == |flat.values| && ws[i][v] == ws[j][v]
  {
    assert FactorAt(c, flat, plan, pieces, i) && FactorAt(c, flat, plan, pieces, j);
    forall a | a in flat.atoms && Ground(a, plan.fixed) ensures Holds(c, t, a, ws[i]) && Holds(c, t, a, ws[j]) {
      assert a in pieces[i].query.atoms && a in pieces[j].query.atoms;
    }
    FixedAgree(c, t, flat, plan.fixed, plan.order, ws[i], ws[j]);
    assert v in plan.order;
  }

  /** The combined environment agrees with each factor's witness on the factor's own values. */
  lemma CombinedAgrees(c: Catalog, t: Tables, flat: FactQuery, plan: Plan, pieces: seq<Piece>, row: Row, ws: seq<Row>, i: nat, v: nat)
    requires Analysed(c, flat, plan) && Splits(c, flat, plan, pieces) && Witnesses(c, t, pieces, row, ws) && Ascending(plan.ids)
    requires i < |pieces| && v < |flat.values| && forall k :: 0 <= k < |ws| ==> |ws[k]| == |flat.values|
    requires v in plan.fixed || plan.rep[v] == plan.ids[i]
    ensures Combined(plan, ws, |flat.values|)[v] == ws[i][v]
  {
    if v in plan.fixed {
      assert Supplies(plan, 0, v);
      DeterminedSame(c, t, flat, plan, pieces, row, ws, i, Supplier(plan, v), v);
    } else {
      SuppliedBy(plan, i, v);
    }
  }

  lemma SameLength(c: Catalog, t: Tables, flat: FactQuery, plan: Plan, pieces: seq<Piece>, row: Row, ws: seq<Row>)
    requires Splits(c, flat, plan, pieces) && Witnesses(c, t, pieces, row, ws)
    ensures forall k :: 0 <= k < |ws| ==> |ws[k]| == |flat.values| && RespectsLiterals(flat.values, ws[k])
  {
    forall k | 0 <= k < |ws| ensures |ws[k]| == |flat.values| && RespectsLiterals(flat.values, ws[k]) {
      assert FactorAt(c, flat, plan, pieces, k);
    }
  }

  lemma CombinedHolds(c: Catalog, t: Tables, flat: FactQuery, plan: Plan, pieces: seq<Piece>, row: Row, ws: seq<Row>, a: Atom)
    requires Accepted(c, flat) && Analysed(c, flat, plan) && Splits(c, flat, plan, pieces) && pieces != []
    requires Witnesses(c, t, pieces, row, ws) && Ascending(plan.ids) && a in flat.atoms
    requires forall k :: 0 <= k < |ws| ==> |ws[k]| == |flat.values|
    ensures Holds(c, t, a, Combined(plan, ws, |flat.values|))
  {
    var env := Combined(plan, ws, |flat.values|);
    var i := AtomSomewhere(c, flat, plan, pieces, a);
    var m: nat :| m < |flat.atoms| && flat.atoms[m] == a;
    assert AtomAccepted(c, flat.values, flat.atoms[m]) && OneClass(flat.atoms[m], plan.fixed, plan.rep);
    assert |ws[i]| == |flat.values|;
    assert Solves(c, t, pieces[i].query, Pick(row, pieces[i].columns), ws[i]);
    assert Holds(c, t, a, ws[i]);
    forall k | 0 <= k < |a.cols| ensures env[a.cols[k]] == ws[i][a.cols[k]] {
      var v := a.cols[k];
      if v !in plan.fixed {
        assert v in Free(a.cols, plan.fixed);
        FreeInGroup(plan, a, v);
      }
      CombinedAgrees(c, t, flat, plan, pieces, row, ws, i, v);
    }
    HoldsDepends(c, t, a, ws[i], env);
  }

  lemma CombinedProjects(c: Catalog, t: Tables, flat: FactQuery, plan: Plan, pieces: seq<Piece>, row: Row, ws: seq<Row>, col: nat)
    requires Accepted(c, flat) && Analysed(c, flat, plan) && Splits(c, flat, plan, pieces) && pieces != []
    requires Witnesses(c, t, pieces, row, ws) && Ascending(plan.ids) && col < |row| == |flat.projection|
    requires forall k :: 0 <= k < |ws| ==> |ws[k]| == |flat.values|
    requires flat.projection[col] < |flat.values|
    ensures Combined(plan, ws, |flat.values|)[flat.projection[col]] == row[col]
  {
    var v := flat.projection[col];
    var i := ColumnOwner(c, flat, plan, pieces, col);
    assert FactorAt(c, flat, plan, pieces, i) && Owns(flat, plan, pieces, i, col);
    CombinedAgrees(c, t, flat, plan, pieces, row, ws, i, v);
    var k :| 0 <= k < |pieces[i].columns| && pieces[i].columns[k] == col;
    assert Solves(c, t, pieces[i].query, Pick(row, pieces[i].columns), ws[i]);
    assert Pick(row, pieces[i].columns)[k] == row[col] && pieces[i].query.projection[k] == v;
    assert Pick(ws[i], pieces[i].query.projection)[k] == ws[i][v];
  }

  lemma ProductInFlat(c: Catalog, t: Tables, flat: FactQuery, plan: Plan, pieces: seq<Piece>, row: Row)
    requires Accepted(c, flat) && Analysed(c, flat, plan) && Splits(c, flat, plan, pieces) && pieces != [] && Ascending(plan.ids)
    requires InProduct(c, t, Query(pieces, |flat.projection|), row)
    ensures IsAnswer(c, t, flat, row)
  {
    var q := Query(pieces, |flat.projection|);
    assert forall i :: 0 <= i < |pieces| ==> q.pieces[i] == pieces[i];
    var ws := seq(|pieces|, i requires 0 <= i < |pieces| => Witness(c, t, pieces[i].query, Pick(row, pieces[i].columns)));
    assert Witnesses(c, t, pieces, row, ws);
    SameLength(c, t, flat, plan, pieces, row, ws);
    var env := Combined(plan, ws, |flat.values|);
    ProjectionInRange(c, flat);
    forall a | a in flat.atoms ensures Holds(c, t, a, env) {
      CombinedHolds(c, t, flat, plan, pieces, row, ws, a);
    }
    forall col: nat | col < |row| ensures env[flat.projection[col]] == row[col] {
      CombinedProjects(c, t, flat, plan, pieces, row, ws, col);
    }
    assert row == Pick(env, flat.projection);
    assert Solves(c, t, flat, row, env);
  }

  lemma ProjectionInRange(c: Catalog, flat: FactQuery)
    requires Accepted(c, flat)
    ensures InRange(flat.projection, |flat.values|)
  {
    forall k | 0 <= k < |flat.projection| ensures flat.projection[k] < |flat.values| {
      assert Bound(flat.atoms, flat.projection[k]);
      var a :| a in flat.atoms && flat.projection[k] in a.cols;
      assert AtomAccepted(c, flat.values, a);
    }
  }

  /** The answers of the flat conjunction are exactly the product of the answers of the factors. */
  lemma Factorisation(c: Catalog, t: Tables, flat: FactQuery, q: Query, plan: Plan, row: Row)
    requires Accepted(c, flat) && Factored(c, flat, q, plan)
    ensures IsAnswer(c, t, flat, row) <==> InProduct(c, t, q, row)
  {
    if |plan.ids| <= 1 {
      assert q.pieces[0] == Piece(flat, Columns(q.width));
      if |row| == q.width { assert Pick(row, Columns(q.width)) == row; }
    } else {
      assert q == Query(q.pieces, |flat.projection|);
      if IsAnswer(c, t, flat, row) {
        FlatInProduct(c, t, flat, plan, q.pieces, row);
      }
      if InProduct(c, t, q, row) {
        ProductInFlat(c, t, flat, plan, q.pieces, row);
      }
    }
  }

  // ---------- writing one factor's row into a tuple ----------

  /** `after` is `before` with `values` written at `columns`. */
  ghost predicate Written(before: Row, columns: seq<nat>, values: Row, after: Row) {
    && |after| == |before| && InRange(columns, |before|)
    && Pick(after, columns) == values
    && forall k: nat {:trigger after[k]} :: k < |before| && k !in columns ==> after[k] == before[k]
  }

  method Put(columns: seq<nat>, values: Row, output: array<Value>)
    requires Ascending(columns) && InRange(columns, output.Length) && |values| == |columns|
    modifies output
    ensures Written(old(output[..]), columns, values, output[..])
  {
    for k := 0 to |columns|
      invariant forall j :: 0 <= j < k ==> output[columns[j]] == values[j]
      invariant forall x: nat {:trigger output[x]} :: x < output.Length && x !in columns[..k] ==> output[x] == old(output[..])[x]
    {
      assert columns[..k + 1] == columns[..k] + [columns[k]];
      output[columns[k]] := values[k];
    }
    assert columns[..|columns|] == columns;
    assert Pick(output[..], columns) == values;
  }

  lemma WriteTwice(before: Row, columns: seq<nat>, values: Row, one: Row, two: Row)
    requires Written(before, columns, values, one) && Written(before, columns, values, two)
    ensures one == two
  {
    forall k | 0 <= k < |before| ensures one[k] == two[k] {
      if k in columns {
        var j :| 0 <= j < |columns| && columns[j] == k;
        assert Pick(one, columns)[j] == Pick(two, columns)[j];
      }
    }
  }

  /** Writing other columns leaves a selection alone. */
  lemma PickElsewhere(before: Row, columns: seq<nat>, values: Row, after: Row, others: seq<nat>)
    requires Written(before, columns, values, after) && InRange(others, |before|)
    requires forall x :: x in others ==> x !in columns
    ensures Pick(after, others) == Pick(before, others)
  {
    forall k | 0 <= k < |others| ensures Pick(after, others)[k] == Pick(before, others)[k] {
      assert others[k] in others;
    }
  }

  // ---------- tuples that agree with some factors ----------

  /** Column `col` belongs to a factor from `i` on. */
  ghost predicate OwnedFrom(q: Query, i: nat, col: nat) {
    exists j :: i <= j < |q.pieces| && col in q.pieces[j].columns
  }

  /** The rows of factors `i..` extend `base` to `row`. */
  ghost predicate Completes(q: Query, rows: seq<seq<Row>>, i: nat, base: Row, row: Row) {
    && |rows| == |q.pieces| && |row| == |base|
    && (forall j {:trigger rows[j]} :: i <= j < |q.pieces| ==> InRange(q.pieces[j].columns, |row|) && Pick(row, q.pieces[j].columns) in rows[j])
    && forall col: nat {:trigger OwnedFrom(q, i, col)} :: col < |row| && !OwnedFrom(q, i, col) ==> row[col] == base[col]
  }

  /** Both tuples agree outside the columns of factors `i..`. */
  ghost predicate SameOutside(q: Query, i: nat, a: Row, b: Row) {
    |a| == |b| && forall col: nat {:trigger OwnedFrom(q, i, col)} :: col < |a| && !OwnedFrom(q, i, col) ==> a[col] == b[col]
  }

  lemma OwnedFromNext(q: Query, i: nat, col: nat)
    requires i < |q.pieces|
    ensures OwnedFrom(q, i, col) <==> OwnedFrom(q, i + 1, col) || col in q.pieces[i].columns
  {
    if OwnedFrom(q, i, col) && col !in q.pieces[i].columns {
      var j :| i <= j < |q.pieces| && col in q.pieces[j].columns;
      assert i + 1 <= j;
    }
  }

  lemma CompletesOutside(q: Query, rows: seq<seq<Row>>, i: nat, a: Row, b: Row, row: Row)
    requires SameOutside(q, i, a, b)
    ensures Completes(q, rows, i, a, row) <==> Completes(q, rows, i, b, row)
  {
    if Completes(q, rows, i, a, row) { CompletesSame(q, rows, i, a, b, row); }
    if Completes(q, rows, i, b, row) { CompletesSame(q, rows, i, b, a, row); }
  }

  lemma CompletesSame(q: Query, rows: seq<seq<Row>>, i: nat, a: Row, b: Row, row: Row)
    requires SameOutside(q, i, a, b) && Completes(q, rows, i, a, row)
    ensures Completes(q, rows, i, b, row)
  {
    forall j | i <= j < |q.pieces| ensures InRange(q.pieces[j].columns, |row|) && Pick(row, q.pieces[j].columns) in rows[j] {
      var mine := rows[j];
      assert InRange(q.pieces[j].columns, |row|) && Pick(row, q.pieces[j].columns) in mine;
    }
    forall col: nat | col < |row| && !OwnedFrom(q, i, col) ensures row[col] == b[col] {}
  }

  /** Choosing a row of factor `i` first. */
  lemma CompletesStep(q: Query, rows: seq<seq<Row>>, i: nat, base: Row, r: Row, next: Row, row: Row)
    requires Layout(q) && |base| == q.width && |rows| == |q.pieces| && i < |q.pieces| && r in rows[i]
    requires Written(base, q.pieces[i].columns, r, next)
    ensures Completes(q, rows, i + 1, next, row) <==>
              Completes(q, rows, i, base, row) && Pick(row, q.pieces[i].columns) == r
  {
    var mine := q.pieces[i].columns;
    if Completes(q, rows, i + 1, next, row) {
      forall col: nat | col < |row| && !OwnedFrom(q, i, col) ensures row[col] == base[col] {
        OwnedFromNext(q, i, col);
      }
      forall k | 0 <= k < |mine| ensures row[mine[k]] == r[k] {
        assert mine[k] in mine && Pick(next, mine)[k] == r[k];
        assert !OwnedFrom(q, i + 1, mine[k]);
      }
      assert Pick(row, mine) == r;
    }
    if Completes(q, rows, i, base, row) && Pick(row, mine) == r {
      forall col: nat | col < |row| && !OwnedFrom(q, i + 1, col) ensures row[col] == next[col] {
        OwnedFromNext(q, i, col);
        if col in mine {
          var k :| 0 <= k < |mine| && mine[k] == col;
          assert Pick(row, mine)[k] == Pick(next, mine)[k];
        }
      }
    }
  }

  lemma CompletesLast(q: Query, rows: seq<seq<Row>>, base: Row, row: Row)
    requires |rows| == |q.pieces|
    ensures Completes(q, rows, |rows|, base, row) <==> row == base
  {
    if Completes(q, rows, |rows|, base, row) {
      forall col: nat | col < |row| ensures row[col] == base[col] {
        assert !OwnedFrom(q, |rows|, col);
      }
    }
  }

  // ---------- the search for a fresh recombination ----------

  ghost predicate Distinct(rows: seq<Row>) {
    forall k, l :: 0 <= k < l < |rows| ==> rows[k] != rows[l]
  }

  /** Distinct rows of the right width for every factor. */
  ghost predicate Choices(q: Query, rows: seq<seq<Row>>) {
    && |rows| == |q.pieces|
    && forall j {:trigger rows[j]} :: 0 <= j < |rows| ==>
         Distinct(rows[j]) && forall r :: r in rows[j] ==> |r| == |q.pieces[j].columns|
  }

  /** The tuples seen among those that complete `base`: all excluded, but for the one returned. */
  ghost predicate Explored(q: Query, rows: seq<seq<Row>>, excluded: set<Row>, i: nat, base: Row,
                           found: Option<Row>, visited: set<Row>)
  {
    && (forall row :: row in visited ==> Completes(q, rows, i, base, row))
    && match found
       case None => visited <= excluded && forall row :: Completes(q, rows, i, base, row) ==> row in visited
       case Some(row) => row in visited && row !in excluded && visited - {row} <= excluded
  }

  /** The first `k` rows of factor `i` are exhausted. */
  ghost predicate Exhausted(q: Query, rows: seq<seq<Row>>, excluded: set<Row>, i: nat, base: Row, k: nat, visited: set<Row>)
    requires i < |rows| == |q.pieces| && k <= |rows[i]| && InRange(q.pieces[i].columns, |base|)
  {
    && visited <= excluded
    && (forall row :: row in visited ==> Completes(q, rows, i, base, row) && Pick(row, q.pieces[i].columns) in rows[i][..k])
    && forall row :: Completes(q, rows, i, base, row) && Pick(row, q.pieces[i].columns) in rows[i][..k] ==> row in visited
  }

  lemma ExploreNext(q: Query, rows: seq<seq<Row>>, excluded: set<Row>, i: nat, base: Row, k: nat, visited: set<Row>,
                    now: Row, next: Row, found: Option<Row>, more: set<Row>)
    requires Layout(q) && Choices(q, rows) && i < |rows| && k < |rows[i]| && |base| == q.width
    requires InRange(q.pieces[i].columns, |base|) && Exhausted(q, rows, excluded, i, base, k, visited)
    requires SameOutside(q, i, base, now) && Written(now, q.pieces[i].columns, rows[i][k], next)
    requires Explored(q, rows, excluded, i + 1, next, found, more)
    ensures visited !! more
    ensures found.Some? ==> Explored(q, rows, excluded, i, base, found, visited + more)
    ensures found.None? ==> Exhausted(q, rows, excluded, i, base, k + 1, visited + more)
  {
    var cols := q.pieces[i].columns;
    forall row ensures Completes(q, rows, i + 1, next, row) <==>
                         Completes(q, rows, i, base, row) && Pick(row, cols) == rows[i][k]
    {
      CompletesStep(q, rows, i, now, rows[i][k], next, row);
      CompletesOutside(q, rows, i, base, now, row);
    }
    assert rows[i][..k + 1] == rows[i][..k] + [rows[i][k]];
    assert rows[i][k] !in rows[i][..k];
  }

  lemma OutsideNext(q: Query, i: nat, base: Row, now: Row, next: Row, end: Row, values: Row)
    requires i < |q.pieces| && SameOutside(q, i, base, now)
    requires Written(now, q.pieces[i].columns, values, next) && SameOutside(q, i + 1, next, end)
    ensures SameOutside(q, i, base, end)
  {
    forall col: nat | col < |base| && !OwnedFrom(q, i, col) ensures base[col] == end[col] {
      OwnedFromNext(q, i, col);
    }
  }

  lemma DisjointSize(a: set<Row>, b: set<Row>)
    requires a !! b
    ensures |a + b| == |a| + |b|
  {
  }

  lemma LeafExplored(q: Query, rows: seq<seq<Row>>, excluded: set<Row>, base: Row)
    requires |rows| == |q.pieces|
    ensures Explored(q, rows, excluded, |rows|, base, if base in excluded then None else Some(base), {base})
  {
    forall row ensures Completes(q, rows, |rows|, base, row) <==> row == base {
      CompletesLast(q, rows, base, row);
    }
  }

  lemma AllExhausted(q: Query, rows: seq<seq<Row>>, excluded: set<Row>, i: nat, base: Row, visited: set<Row>)
    requires i < |rows| == |q.pieces| && InRange(q.pieces[i].columns, |base|)
    requires Exhausted(q, rows, excluded, i, base, |rows[i]|, visited)
    ensures Explored(q, rows, excluded, i, base, None, visited)
  {
    assert rows[i][..|rows[i]|] == rows[i];
    forall row | Completes(q, rows, i, base, row) ensures row in visited {
      assert Pick(row, q.pieces[i].columns) in rows[i];
    }
  }

  /** Depth-first over the recorded rows; `inspected` counts the complete tuples compared with the exclusions. */
  method Search(q: Query, rows: seq<seq<Row>>, excluded: set<Row>, i: nat, out: array<Value>)
    returns (found: Option<Row>, ghost visited: set<Row>, ghost inspected: nat)
    requires Layout(q) && Choices(q, rows) && i <= |rows| && out.Length == q.width
    modifies out
    ensures SameOutside(q, i, old(out[..]), out[..])
    ensures Explored(q, rows, excluded, i, old(out[..]), found, visited) && inspected == |visited|
    decreases |rows| - i, 1
  {
    ghost var base := out[..];
    if i == |rows| {
      visited, inspected := {base}, 1;
      LeafExplored(q, rows, excluded, base);
      return if out[..] in excluded then None else Some(out[..]), visited, inspected;
    }
    visited, inspected, found := {}, 0, None;
    for k := 0 to |rows[i]|
      invariant SameOutside(q, i, base, out[..]) && inspected == |visited| && found.None?
      invariant InRange(q.pieces[i].columns, |base|) && Exhausted(q, rows, excluded, i, base, k, visited)
    {
      found, visited, inspected := TryRow(q, rows, excluded, i, k, out, base, visited);
      if found.Some? { return; }
    }
    AllExhausted(q, rows, excluded, i, base, visited);
  }

  /** One row of factor `i`, with everything that completes it. */
  method TryRow(q: Query, rows: seq<seq<Row>>, excluded: set<Row>, i: nat, k: nat, out: array<Value>, ghost base: Row, ghost before: set<Row>)
    returns (found: Option<Row>, ghost visited: set<Row>, ghost inspected: nat)
    requires Layout(q) && Choices(q, rows) && i < |rows| && k < |rows[i]| && out.Length == q.width == |base|
    requires InRange(q.pieces[i].columns, |base|) && SameOutside(q, i, base, out[..])
    requires Exhausted(q, rows, excluded, i, base, k, before)
    modifies out
    ensures SameOutside(q, i, base, out[..]) && inspected == |visited|
    ensures found.Some? ==> Explored(q, rows, excluded, i, base, found, visited)
    ensures found.None? ==> Exhausted(q, rows, excluded, i, base, k + 1, visited)
    decreases |rows| - i, 0
  {
    ghost var now := out[..];
    assert rows[i][k] in rows[i];
    Put(q.pieces[i].columns, rows[i][k], out);
    ghost var next := out[..];
    ghost var more, count;
    found, more, count := Search(q, rows, excluded, i + 1, out);
    ExploreNext(q, rows, excluded, i, base, k, before, now, next, found, more);
    OutsideNext(q, i, base, now, next, out[..], rows[i][k]);
    DisjointSize(before, more);
    visited, inspected := before + more, |before| + count;
  }

  // ---------- runs of the factors ----------

  /** One engine run of every factor, in some order. */
  ghost predicate Runs(c: Catalog, t: Tables, q: Query, runs: seq<seq<Row>>) {
    && |runs| == |q.pieces|
    && forall i {:trigger runs[i]} :: 0 <= i < |runs| ==> Enumerates(c, t, q.pieces[i].query, runs[i])
  }

  /** The projection of every factor has the factor's width. */
  ghost predicate Widths(q: Query) {
    forall i {:trigger q.pieces[i]} :: 0 <= i < |q.pieces| ==> |q.pieces[i].query.projection| == |q.pieces[i].columns|
  }

  lemma FactorWidths(c: Catalog, flat: FactQuery, q: Query, plan: Plan)
    requires Factored(c, flat, q, plan)
    ensures Widths(q) && |q.pieces| > 0
  {
    if |plan.ids| > 1 {
      forall i | 0 <= i < |q.pieces| ensures |q.pieces[i].query.projection| == |q.pieces[i].columns| {
        assert FactorAt(c, flat, plan, q.pieces, i);
      }
    }
  }

  lemma RunWidth(c: Catalog, t: Tables, q: Query, runs: seq<seq<Row>>, i: nat, r: Row)
    requires Widths(q) && Runs(c, t, q, runs) && i < |runs| && r in runs[i]
    ensures |r| == |q.pieces[i].columns|
  {
    assert IsAnswer(c, t, q.pieces[i].query, r);
  }

  /** A tuple whose columns come from the runs. */
  ghost predicate Assembled(q: Query, runs: seq<seq<Row>>, row: Row) {
    && |row| == q.width && |runs| == |q.pieces|
    && forall i {:trigger runs[i]} {:trigger q.pieces[i]} :: 0 <= i < |runs| ==>
         InRange(q.pieces[i].columns, |row|) && Pick(row, q.pieces[i].columns) in runs[i]
  }

  lemma AssembledIsAnswer(c: Catalog, t: Tables, flat: FactQuery, q: Query, plan: Plan, runs: seq<seq<Row>>, row: Row)
    requires Accepted(c, flat) && Factored(c, flat, q, plan) && Runs(c, t, q, runs)
    ensures Assembled(q, runs, row) <==> IsAnswer(c, t, flat, row)
  {
    Factorisation(c, t, flat, q, plan, row);
    if InProduct(c, t, q, row) {
      forall i | 0 <= i < |runs|
        ensures InRange(q.pieces[i].columns, |row|) && Pick(row, q.pieces[i].columns) in runs[i]
      {
        assert IsAnswer(c, t, q.pieces[i].query, Pick(row, q.pieces[i].columns));
      }
    }
    if Assembled(q, runs, row) {
      forall i | 0 <= i < |q.pieces|
        ensures InRange(q.pieces[i].columns, |row|) && IsAnswer(c, t, q.pieces[i].query, Pick(row, q.pieces[i].columns))
      {
        assert Pick(row, q.pieces[i].columns) in runs[i];
      }
    }
  }

  // ---------- difference ----------

  datatype Outcome = Outcome(matched: Option<Row>, novel: Option<Row>)
  datatype Fresh = Fresh(piece: nat, row: Row)

  /** What the answers must look like. */
  ghost predicate Exact(c: Catalog, t: Tables, flat: FactQuery, excluded: set<Row>, o: Outcome) {
    && (o.matched.Some? <==> exists row :: IsAnswer(c, t, flat, row))
    && (o.matched.Some? ==> IsAnswer(c, t, flat, o.matched.value))
    && (o.novel.Some? <==> exists row :: IsAnswer(c, t, flat, row) && row !in excluded)
    && (o.novel.Some? ==> IsAnswer(c, t, flat, o.novel.value) && o.novel.value !in excluded)
  }

  function Projections(excluded: set<Row>, columns: seq<nat>): (r: set<Row>)
    ensures forall e :: e in excluded && InRange(columns, |e|) ==> Pick(e, columns) in r
  {
    set e | e in excluded && InRange(columns, |e|) :: Pick(e, columns)
  }

  /** After `i` factors: a partial match, a component outside all exclusions, or the complete runs of the factors. */
  ghost predicate Gathered(q: Query, runs: seq<seq<Row>>, excluded: set<Row>, i: nat, matched: Row, novel: Option<Fresh>,
                           rows: seq<seq<Row>>)
  {
    && |runs| == |q.pieces| && i <= |runs| && |matched| == q.width && |rows| == i
    && (forall j {:trigger runs[j]} {:trigger q.pieces[j]} :: 0 <= j < i ==>
          InRange(q.pieces[j].columns, |matched|) && Pick(matched, q.pieces[j].columns) in runs[j])
    && match novel
       case Some(f) =>
         && f.piece < i && f.row in runs[f.piece]
         && f.row !in Projections(excluded, q.pieces[f.piece].columns)
       case None =>
         forall j {:trigger rows[j]} :: 0 <= j < i ==>
           Distinct(rows[j]) && forall r :: r in rows[j] <==> r in runs[j]
  }

  lemma GatheredNext(q: Query, runs: seq<seq<Row>>, excluded: set<Row>, i: nat, before: Row, novel: Option<Fresh>,
                     rows: seq<seq<Row>>, one: Row, after: Row, now: Option<Fresh>, mine: seq<Row>)
    requires Layout(q) && Gathered(q, runs, excluded, i, before, novel, rows) && i < |runs|
    requires one in runs[i] && Written(before, q.pieces[i].columns, one, after)
    requires match now
             case Some(f) => novel == now || (f.piece == i && f.row in runs[i] && f.row !in Projections(excluded, q.pieces[i].columns))
             case None => novel.None? && Distinct(mine) && forall r :: r in mine <==> r in runs[i]
    ensures Gathered(q, runs, excluded, i + 1, after, now, rows + [mine])
  {
    forall j | 0 <= j < i + 1
      ensures InRange(q.pieces[j].columns, |after|) && Pick(after, q.pieces[j].columns) in runs[j]
    {
      if j < i {
        assert Pick(before, q.pieces[j].columns) in runs[j];
        PickElsewhere(before, q.pieces[i].columns, one, after, q.pieces[j].columns);
      }
    }
  }

  method Listed(s: set<Row>) returns (rows: seq<Row>)
    ensures Distinct(rows) && forall r :: r in rows <==> r in s
  {
    rows := [];
    var rest := s;
    while rest != {}
      invariant rest <= s && Distinct(rows) && forall r :: r in rows <==> r in s - rest
      decreases rest
    {
      var r :| r in rest;
      assert r !in rows;
      rows, rest := rows + [r], rest - {r};
    }
  }

  /** One factor of `difference`: its match, perhaps a fresh component, and its recorded rows. */
  method Gather(c: Catalog, t: Tables, q: Query, runs: seq<seq<Row>>, excluded: set<Row>, i: nat, was: Option<Fresh>)
    returns (one: Option<Row>, now: Option<Fresh>, mine: seq<Row>)
    requires Widths(q) && Runs(c, t, q, runs) && i < |runs|
    ensures one.None? <==> runs[i] == []
    ensures one.Some? ==> one.value in runs[i]
    ensures was.Some? ==> now == was
    ensures one.Some? && was.None? && now.Some? ==>
              now.value.piece == i && now.value.row in runs[i] && now.value.row !in Projections(excluded, q.pieces[i].columns)
    ensures one.Some? && now.None? ==> was.None? && Distinct(mine) && forall r :: r in mine <==> r in runs[i]
  {
    var columns := q.pieces[i].columns;
    var existsOnly := was.Some? || columns == [];
    var known := if existsOnly then {} else Projections(excluded, columns);
    var p := Scan(runs[i], known);
    one, now, mine := p.matched, was, [];
    if p.matched.None? { return; }
    if !existsOnly && p.novel.Some? {
      now := Some(Fresh(i, p.novel.value));
    }
    if columns == [] {
      mine := [[]];
      forall r | r in runs[i] ensures r == [] { RunWidth(c, t, q, runs, i, r); }
    } else {
      mine := Listed(p.seen);
    }
  }

  lemma NoAnswers(c: Catalog, t: Tables, flat: FactQuery, q: Query, plan: Plan, runs: seq<seq<Row>>, i: nat)
    requires Accepted(c, flat) && Factored(c, flat, q, plan) && Runs(c, t, q, runs) && i < |runs| && runs[i] == []
    ensures forall row :: !IsAnswer(c, t, flat, row)
  {
    forall row ensures !IsAnswer(c, t, flat, row) {
      AssembledIsAnswer(c, t, flat, q, plan, runs, row);
      assert !Assembled(q, runs, row) by { assert |runs[i]| == 0; }
    }
  }

  /** Replacing the columns of one factor by another of its rows keeps an assembled tuple assembled. */
  lemma Replaced(q: Query, runs: seq<seq<Row>>, i: nat, before: Row, values: Row, after: Row)
    requires Layout(q) && Assembled(q, runs, before) && i < |runs| && values in runs[i]
    requires Written(before, q.pieces[i].columns, values, after)
    ensures Assembled(q, runs, after)
  {
    forall j | 0 <= j < |runs|
      ensures InRange(q.pieces[j].columns, |after|) && Pick(after, q.pieces[j].columns) in runs[j]
    {
      assert Pick(before, q.pieces[j].columns) in runs[j];
      if j != i { PickElsewhere(before, q.pieces[i].columns, values, after, q.pieces[j].columns); }
    }
  }

  lemma CompleteIsAssembled(q: Query, rows: seq<seq<Row>>, runs: seq<seq<Row>>, base: Row, row: Row)
    requires Layout(q) && |base| == q.width && |rows| == |runs| == |q.pieces|
    requires forall j {:trigger rows[j]} :: 0 <= j < |rows| ==> forall r :: r in rows[j] <==> r in runs[j]
    ensures Completes(q, rows, 0, base, row) <==> Assembled(q, runs, row)
  {
    if Completes(q, rows, 0, base, row) {
      forall j | 0 <= j < |runs| ensures InRange(q.pieces[j].columns, |row|) && Pick(row, q.pieces[j].columns) in runs[j] {
        assert Pick(row, q.pieces[j].columns) in rows[j];
      }
    }
    if Assembled(q, runs, row) {
      forall j | 0 <= j < |rows| ensures InRange(q.pieces[j].columns, |row|) && Pick(row, q.pieces[j].columns) in rows[j] {
        assert Pick(row, q.pieces[j].columns) in runs[j];
      }
      forall col: nat | col < |row| && !OwnedFrom(q, 0, col) ensures row[col] == base[col] {
        assert Owned(q, col);
      }
    }
  }

  lemma VisitedBound(visited: set<Row>, excluded: set<Row>, found: Option<Row>)
    requires match found case None => visited <= excluded case Some(row) => visited - {row} <= excluded
    ensures |visited| <= |excluded| + 1
  {
    Collections.Subset(if found.Some? then visited - {found.value} else visited, excluded);
    if found.Some? { assert visited <= (visited - {found.value}) + {found.value}; Collections.Subset(visited, (visited - {found.value}) + {found.value}); }
  }

  lemma ChoicesFrom(c: Catalog, t: Tables, q: Query, runs: seq<seq<Row>>, rows: seq<seq<Row>>)
    requires Widths(q) && Runs(c, t, q, runs) && |rows| == |runs|
    requires forall j {:trigger rows[j]} :: 0 <= j < |rows| ==> Distinct(rows[j]) && forall r :: r in rows[j] <==> r in runs[j]
    ensures Choices(q, rows)
  {
    forall j, r | 0 <= j < |rows| && r in rows[j] ensures |r| == |q.pieces[j].columns| {
      RunWidth(c, t, q, runs, j, r);
    }
  }

  /** The search over complete runs decides whether some answer is outside the exclusions. */
  method Recombine(c: Catalog, t: Tables, ghost flat: FactQuery, q: Query, ghost plan: Plan, ghost runs: seq<seq<Row>>,
                   rows: seq<seq<Row>>, excluded: set<Row>, matched: Row)
    returns (novel: Option<Row>, ghost inspected: nat)
    requires Accepted(c, flat) && Factored(c, flat, q, plan) && Runs(c, t, q, runs) && Layout(q) && Widths(q)
    requires |rows| == |runs| && |matched| == q.width
    requires forall j {:trigger rows[j]} :: 0 <= j < |rows| ==> Distinct(rows[j]) && forall r :: r in rows[j] <==> r in runs[j]
    ensures novel.Some? <==> exists row :: IsAnswer(c, t, flat, row) && row !in excluded
    ensures novel.Some? ==> IsAnswer(c, t, flat, novel.value) && novel.value !in excluded
    ensures inspected <= |excluded| + 1
  {
    ChoicesFrom(c, t, q, runs, rows);
    var out := new Value[q.width](k requires 0 <= k < |matched| => matched[k]);
    ghost var visited;
    novel, visited, inspected := Search(q, rows, excluded, 0, out);
    VisitedBound(visited, excluded, novel);
    forall row ensures Completes(q, rows, 0, matched, row) <==> IsAnswer(c, t, flat, row) {
      CompleteIsAssembled(q, rows, runs, matched, row);
      AssembledIsAnswer(c, t, flat, q, plan, runs, row);
    }
  }

  /** A match, and an answer outside `excluded`, each exactly when there is one. */
  method Difference(c: Catalog, t: Tables, ghost flat: FactQuery, q: Query, ghost plan: Plan, runs: seq<seq<Row>>, excluded: set<Row>)
    returns (r: Result<Outcome>, ghost inspected: nat)
    requires Accepted(c, flat) && Factored(c, flat, q, plan) && Runs(c, t, q, runs)
    ensures r.Err? <==> |q.pieces| > 1 && exists e :: e in excluded && |e| != q.width
    ensures r.Ok? ==> Exact(c, t, flat, excluded, r.value)
    ensures inspected <= |excluded| + 1
  {
    inspected := 0;
    FactorWidths(c, flat, q, plan);
    ColumnsPartition(c, flat, q, plan);
    if |q.pieces| == 1 {
      var p := Scan(runs[0], excluded);
      SingleRun(c, t, flat, q, plan, runs);
      return Ok(Outcome(p.matched, p.novel)), inspected;
    }
    if exists e :: e in excluded && |e| != q.width {
      return Err("factored exclusion tuple width mismatch"), inspected;
    }
    var matched := new Value[q.width](_ => 0);
    var found, novel, rows := Collect(c, t, flat, q, plan, runs, excluded, matched);
    if !found {
      return Ok(Outcome(None, None)), inspected;
    }
    var o;
    o, inspected := Decide(c, t, flat, q, plan, runs, excluded, matched, novel, rows);
    r := Ok(o);
  }

  /** One pass over the factors; stops as soon as one of them is empty. */
  method Collect(c: Catalog, t: Tables, ghost flat: FactQuery, q: Query, ghost plan: Plan, runs: seq<seq<Row>>,
                 excluded: set<Row>, matched: array<Value>)
    returns (found: bool, novel: Option<Fresh>, rows: seq<seq<Row>>)
    requires Accepted(c, flat) && Factored(c, flat, q, plan) && Runs(c, t, q, runs) && Layout(q) && Widths(q)
    requires matched.Length == q.width
    modifies matched
    ensures !found ==> forall row :: !IsAnswer(c, t, flat, row)
    ensures found ==> Gathered(q, runs, excluded, |q.pieces|, matched[..], novel, rows)
  {
    found, novel, rows := true, None, [];
    for i := 0 to |q.pieces|
      invariant found && Gathered(q, runs, excluded, i, matched[..], novel, rows)
    {
      var one, now, mine := Gather(c, t, q, runs, excluded, i, novel);
      if one.None? {
        NoAnswers(c, t, flat, q, plan, runs, i);
        return false, None, [];
      }
      ghost var before := matched[..];
      RunWidth(c, t, q, runs, i, one.value);
      Put(q.pieces[i].columns, one.value, matched);
      GatheredNext(q, runs, excluded, i, before, novel, rows, one.value, matched[..], now, mine);
      novel, rows := now, rows + [mine];
    }
  }

  /** The three ways to an answer outside `excluded`: the match itself, a fresh component, a recombination. */
  method Decide(c: Catalog, t: Tables, ghost flat: FactQuery, q: Query, ghost plan: Plan, ghost runs: seq<seq<Row>>,
                excluded: set<Row>, matched: array<Value>, novel: Option<Fresh>, rows: seq<seq<Row>>)
    returns (o: Outcome, ghost inspected: nat)
    requires Accepted(c, flat) && Factored(c, flat, q, plan) && Runs(c, t, q, runs) && Layout(q) && Widths(q)
    requires Gathered(q, runs, excluded, |q.pieces|, matched[..], novel, rows)
    modifies matched
    ensures Exact(c, t, flat, excluded, o)
    ensures inspected <= |excluded| + 1
  {
    inspected := 0;
    var whole := matched[..];
    assert Assembled(q, runs, whole);
    AssembledIsAnswer(c, t, flat, q, plan, runs, whole);
    if whole !in excluded {
      return Outcome(Some(whole), Some(whole)), inspected;
    }
    if novel.Some? {
      var f := novel.value;
      RunWidth(c, t, q, runs, f.piece, f.row);
      Put(q.pieces[f.piece].columns, f.row, matched);
      Replaced(q, runs, f.piece, whole, f.row, matched[..]);
      AssembledIsAnswer(c, t, flat, q, plan, runs, matched[..]);
      assert Pick(matched[..], q.pieces[f.piece].columns) == f.row;
      return Outcome(Some(whole), Some(matched[..])), inspected;
    }
    var other;
    other, inspected := Recombine(c, t, flat, q, plan, runs, rows, excluded, whole);
    o := Outcome(Some(whole), other);
  }

  lemma SingleRun(c: Catalog, t: Tables, flat: FactQuery, q: Query, plan: Plan, runs: seq<seq<Row>>)
    requires Factored(c, flat, q, plan) && Runs(c, t, q, runs) && |q.pieces| == 1
    ensures forall row :: row in runs[0] <==> IsAnswer(c, t, flat, row)
  {
    assert |plan.ids| <= 1;
    assert q.pieces[0].query == flat && Enumerates(c, t, q.pieces[0].query, runs[0]);
  }

  // ---------- all answers ----------

  /** `x` is one of `prefixes` with one of `rows` written at `columns`. */
  ghost predicate From(columns: seq<nat>, prefixes: seq<Row>, rows: seq<Row>, x: Row) {
    exists a, b :: a in prefixes && b in rows && Written(a, columns, b, x)
  }

  method Copy(prefix: Row, columns: seq<nat>, values: Row) returns (x: Row)
    requires Ascending(columns) && InRange(columns, |prefix|) && |values| == |columns|
    ensures Written(prefix, columns, values, x)
  {
    var out := new Value[|prefix|](i requires 0 <= i < |prefix| => prefix[i]);
    assert out[..] == prefix;
    Put(columns, values, out);
    x := out[..];
  }

  /** Copies of one prefix, one for each row. */
  method Extend(prefix: Row, columns: seq<nat>, rows: seq<Row>) returns (part: seq<Row>)
    requires Ascending(columns) && InRange(columns, |prefix|)
    requires Distinct(rows) && forall b :: b in rows ==> |b| == |columns|
    ensures forall x :: x in part <==> From(columns, [prefix], rows, x)
    ensures Distinct(part)
  {
    part := [];
    for k := 0 to |rows|
      invariant |part| == k
      invariant forall j :: 0 <= j < k ==> Written(prefix, columns, rows[j], part[j])
    {
      assert rows[k] in rows;
      var x := Copy(prefix, columns, rows[k]);
      part := part + [x];
    }
    PartIs(prefix, columns, rows, part);
  }

  lemma PartIs(prefix: Row, columns: seq<nat>, rows: seq<Row>, part: seq<Row>)
    requires |part| == |rows| && Distinct(rows) && forall j :: 0 <= j < |rows| ==> Written(prefix, columns, rows[j], part[j])
    ensures forall x :: x in part <==> From(columns, [prefix], rows, x)
    ensures Distinct(part)
  {
    forall x | x in part ensures From(columns, [prefix], rows, x) {
      var j :| 0 <= j < |part| && part[j] == x;
      assert prefix in [prefix] && rows[j] in rows;
    }
    forall x | From(columns, [prefix], rows, x) ensures x in part {
      var b :| b in rows && Written(prefix, columns, b, x);
      var j :| 0 <= j < |rows| && rows[j] == b;
      WriteTwice(prefix, columns, b, x, part[j]);
    }
    forall j, k | 0 <= j < k < |part| ensures part[j] != part[k] {
      assert Pick(part[j], columns) == rows[j] && Pick(part[k], columns) == rows[k];
    }
  }

  ghost predicate Blank(columns: seq<nat>, a: Row) {
    forall k: nat :: k < |a| && k in columns ==> a[k] == 0
  }

  /** A blank prefix can be read back from the tuple it was extended to. */
  lemma PrefixIsUnique(columns: seq<nat>, a: Row, b: Row, v: Row, w: Row, x: Row)
    requires Blank(columns, a) && Blank(columns, b) && Written(a, columns, v, x) && Written(b, columns, w, x)
    ensures a == b
  {
    forall k: nat | k < |a| ensures a[k] == b[k] {
      assert k in columns || x[k] == a[k];
    }
  }

  lemma PartIsNew(columns: seq<nat>, prefixes: seq<Row>, rows: seq<Row>, p: nat, x: Row)
    requires Distinct(prefixes) && p < |prefixes| && From(columns, [prefixes[p]], rows, x)
    requires forall a :: a in prefixes ==> Blank(columns, a)
    ensures !From(columns, prefixes[..p], rows, x)
  {
    var b :| b in rows && Written(prefixes[p], columns, b, x);
    if From(columns, prefixes[..p], rows, x) {
      var a, w :| a in prefixes[..p] && w in rows && Written(a, columns, w, x);
      assert a in prefixes && prefixes[p] in prefixes;
      PrefixIsUnique(columns, prefixes[p], a, b, w, x);
      assert false;
    }
  }

  /** The product of the prefixes and the rows of one factor. */
  method Multiply(prefixes: seq<Row>, columns: seq<nat>, rows: seq<Row>) returns (next: seq<Row>)
    requires Distinct(prefixes) && Distinct(rows) && Ascending(columns)
    requires forall a :: a in prefixes ==> Blank(columns, a) && InRange(columns, |a|)
    requires forall b :: b in rows ==> |b| == |columns|
    ensures Distinct(next) && forall x :: x in next <==> From(columns, prefixes, rows, x)
  {
    next := [];
    for p := 0 to |prefixes|
      invariant Distinct(next)
      invariant forall x :: x in next <==> From(columns, prefixes[..p], rows, x)
    {
      assert prefixes[p] in prefixes && prefixes[..p + 1] == prefixes[..p] + [prefixes[p]];
      var part := Extend(prefixes[p], columns, rows);
      forall x | x in part ensures x !in next { PartIsNew(columns, prefixes, rows, p, x); }
      FromAppend(columns, prefixes[..p], prefixes[p], rows);
      DistinctConcat(next, part);
      next := next + part;
    }
    assert prefixes[..|prefixes|] == prefixes;
  }

  lemma DistinctConcat(a: seq<Row>, b: seq<Row>)
    requires Distinct(a) && Distinct(b) && forall x :: x in b ==> x !in a
    ensures Distinct(a + b)
  {
    var all := a + b;
    forall k, l | 0 <= k < l < |all| ensures all[k] != all[l] {
      if k < |a| <= l { assert b[l - |a|] in b && a[k] in a; }
    }
  }

  lemma FromAppend(columns: seq<nat>, prefixes: seq<Row>, last: Row, rows: seq<Row>)
    ensures forall x :: From(columns, prefixes + [last], rows, x) <==> From(columns, prefixes, rows, x) || From(columns, [last], rows, x)
  {
    assert forall a :: a in prefixes + [last] <==> a in prefixes || a in [last];
  }

  /** Column `col` belongs to one of the first `i` factors. */
  ghost predicate OwnedBefore(q: Query, i: nat, col: nat) {
    exists j :: 0 <= j < i && j < |q.pieces| && col in q.pieces[j].columns
  }

  /** The first `i` factors are filled in, the rest is blank. */
  ghost predicate Prefixed(q: Query, runs: seq<seq<Row>>, i: nat, row: Row) {
    && |row| == q.width && i <= |runs| == |q.pieces|
    && (forall j {:trigger runs[j]} {:trigger q.pieces[j]} :: 0 <= j < i ==> InRange(q.pieces[j].columns, |row|) && Pick(row, q.pieces[j].columns) in runs[j])
    && forall col: nat {:trigger OwnedBefore(q, i, col)} :: col < |row| && !OwnedBefore(q, i, col) ==> row[col] == 0
  }

  lemma OwnedBeforeNext(q: Query, i: nat, col: nat)
    requires i < |q.pieces|
    ensures OwnedBefore(q, i + 1, col) <==> OwnedBefore(q, i, col) || col in q.pieces[i].columns
  {
    if OwnedBefore(q, i + 1, col) && col !in q.pieces[i].columns {
      var j :| 0 <= j < i + 1 && col in q.pieces[j].columns;
      assert j < i;
    }
  }

  lemma PrefixedIsBlank(q: Query, runs: seq<seq<Row>>, i: nat, row: Row)
    requires Layout(q) && Prefixed(q, runs, i, row) && i < |runs|
    ensures Blank(q.pieces[i].columns, row) && InRange(q.pieces[i].columns, |row|)
  {
    forall k: nat | k < |row| && k in q.pieces[i].columns ensures row[k] == 0 {
      assert !OwnedBefore(q, i, k);
    }
  }

  lemma PrefixedForward(q: Query, runs: seq<seq<Row>>, i: nat, a: Row, b: Row, x: Row)
    requires Layout(q) && Prefixed(q, runs, i, a) && i < |runs| && b in runs[i] && Written(a, q.pieces[i].columns, b, x)
    ensures Prefixed(q, runs, i + 1, x)
  {
    forall j | 0 <= j < i + 1 ensures InRange(q.pieces[j].columns, |x|) && Pick(x, q.pieces[j].columns) in runs[j] {
      if j < i {
        assert Pick(a, q.pieces[j].columns) in runs[j];
        PickElsewhere(a, q.pieces[i].columns, b, x, q.pieces[j].columns);
      }
    }
    forall col: nat | col < |x| && !OwnedBefore(q, i + 1, col) ensures x[col] == 0 {
      OwnedBeforeNext(q, i, col);
    }
  }

  lemma PrefixedBackward(q: Query, runs: seq<seq<Row>>, i: nat, x: Row) returns (a: Row)
    requires Layout(q) && i < |runs| && Prefixed(q, runs, i + 1, x)
    ensures Prefixed(q, runs, i, a) && InRange(q.pieces[i].columns, |x|)
    ensures Pick(x, q.pieces[i].columns) in runs[i] && Written(a, q.pieces[i].columns, Pick(x, q.pieces[i].columns), x)
  {
    var cols := q.pieces[i].columns;
    a := seq(|x|, k requires 0 <= k < |x| => if k in cols then 0 else x[k]);
    assert Pick(x, cols) in runs[i];
    forall j | 0 <= j < i ensures InRange(q.pieces[j].columns, |a|) && Pick(a, q.pieces[j].columns) in runs[j] {
      assert Pick(x, q.pieces[j].columns) in runs[j];
      PickElsewhere(a, cols, Pick(x, cols), x, q.pieces[j].columns);
    }
    forall col: nat | col < |a| && !OwnedBefore(q, i, col) ensures a[col] == 0 {
      OwnedBeforeNext(q, i, col);
    }
  }

  lemma PrefixedNext(q: Query, runs: seq<seq<Row>>, i: nat, prefixes: seq<Row>, rows: seq<Row>, x: Row)
    requires Layout(q) && i < |runs| == |q.pieces| && forall a :: a in prefixes <==> Prefixed(q, runs, i, a)
    requires forall b :: b in rows <==> b in runs[i]
    ensures From(q.pieces[i].columns, prefixes, rows, x) <==> Prefixed(q, runs, i + 1, x)
  {
    var cols := q.pieces[i].columns;
    if From(cols, prefixes, rows, x) {
      var a, b :| a in prefixes && b in rows && Written(a, cols, b, x);
      PrefixedForward(q, runs, i, a, b, x);
    }
    if Prefixed(q, runs, i + 1, x) {
      var a := PrefixedBackward(q, runs, i, x);
      assert a in prefixes && Pick(x, cols) in rows;
    }
  }

  lemma PrefixedAll(q: Query, runs: seq<seq<Row>>, row: Row)
    requires Layout(q) && |runs| == |q.pieces|
    ensures Prefixed(q, runs, |runs|, row) <==> Assembled(q, runs, row)
  {
    forall col: nat | col < q.width ensures OwnedBefore(q, |runs|, col) {
      assert Owned(q, col);
    }
    if Prefixed(q, runs, |runs|, row) {
      assert Assembled(q, runs, row);
    }
  }

  lemma FirstPrefix(q: Query, runs: seq<seq<Row>>, zero: Row)
    requires |zero| == q.width && |runs| == |q.pieces| && forall k :: 0 <= k < |zero| ==> zero[k] == 0
    ensures forall a :: a in [zero] <==> Prefixed(q, runs, 0, a)
  {
    forall a | Prefixed(q, runs, 0, a) ensures a == zero {
      forall k: nat | k < |a| ensures a[k] == zero[k] { assert !OwnedBefore(q, 0, k); }
    }
  }

  lemma StepAllowed(c: Catalog, t: Tables, q: Query, runs: seq<seq<Row>>, i: nat, product: seq<Row>, rows: seq<Row>)
    requires Layout(q) && Widths(q) && Runs(c, t, q, runs) && i < |runs|
    requires forall a :: a in product <==> Prefixed(q, runs, i, a)
    requires forall b :: b in rows <==> b in runs[i]
    ensures forall a :: a in product ==> Blank(q.pieces[i].columns, a) && InRange(q.pieces[i].columns, |a|)
    ensures forall b :: b in rows ==> |b| == |q.pieces[i].columns|
    ensures forall x :: From(q.pieces[i].columns, product, rows, x) <==> Prefixed(q, runs, i + 1, x)
  {
    forall b | b in rows ensures |b| == |q.pieces[i].columns| { RunWidth(c, t, q, runs, i, b); }
    forall a | a in product ensures Blank(q.pieces[i].columns, a) && InRange(q.pieces[i].columns, |a|) {
      PrefixedIsBlank(q, runs, i, a);
    }
    forall x ensures From(q.pieces[i].columns, product, rows, x) <==> Prefixed(q, runs, i + 1, x) {
      PrefixedNext(q, runs, i, product, rows, x);
    }
  }

  /** `product` lists the tuples of the first `i` factors once each. */
  ghost predicate Prefixes(q: Query, runs: seq<seq<Row>>, i: nat, product: seq<Row>) {
    Distinct(product) && forall a :: a in product <==> Prefixed(q, runs, i, a)
  }

  /** The product with one more factor. */
  method Times(c: Catalog, t: Tables, q: Query, ghost runs: seq<seq<Row>>, i: nat, product: seq<Row>, rows: seq<Row>)
    returns (next: seq<Row>)
    requires Layout(q) && Widths(q) && Runs(c, t, q, runs) && i < |runs| && Prefixes(q, runs, i, product)
    requires Distinct(rows) && forall b :: b in rows <==> b in runs[i]
    ensures Prefixes(q, runs, i + 1, next)
  {
    StepAllowed(c, t, q, runs, i, product, rows);
    next := Multiply(product, q.pieces[i].columns, rows);
  }

  lemma PrefixesAll(c: Catalog, t: Tables, flat: FactQuery, q: Query, plan: Plan, runs: seq<seq<Row>>, product: seq<Row>)
    requires Accepted(c, flat) && Factored(c, flat, q, plan) && Runs(c, t, q, runs) && Layout(q)
    requires Prefixes(q, runs, |runs|, product)
    ensures forall row :: row in product <==> IsAnswer(c, t, flat, row)
  {
    forall row ensures row in product <==> IsAnswer(c, t, flat, row) {
      PrefixedAll(q, runs, row);
      AssembledIsAnswer(c, t, flat, q, plan, runs, row);
    }
  }

  /** All answers of the flat query; without repetition when there are several factors. */
  method All(c: Catalog, t: Tables, ghost flat: FactQuery, q: Query, ghost plan: Plan, runs: seq<seq<Row>>) returns (product: seq<Row>)
    requires Accepted(c, flat) && Factored(c, flat, q, plan) && Runs(c, t, q, runs)
    ensures forall row :: row in product <==> IsAnswer(c, t, flat, row)
    ensures |q.pieces| > 1 ==> Distinct(product)
  {
    FactorWidths(c, flat, q, plan);
    ColumnsPartition(c, flat, q, plan);
    if |q.pieces| == 1 {
      SingleRun(c, t, flat, q, plan, runs);
      return runs[0];
    }
    product := [seq(q.width, _ => 0)];
    FirstPrefix(q, runs, product[0]);
    for i := 0 to |q.pieces|
      invariant Prefixes(q, runs, i, product)
    {
      var rows := Listed(set r | r in runs[i]);
      if |runs[i]| > 0 { assert runs[i][0] in rows; }
      if rows == [] {
        NoAnswers(c, t, flat, q, plan, runs, i);
        return [];
      }
      product := Times(c, t, q, runs, i, product, rows);
    }
    PrefixesAll(c, t, flat, q, plan, runs, product);
  }
}
