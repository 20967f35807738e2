/**
 * Factored conjunctive queries of src/native_factored_query.rs.
 *
 * `Compile` splits a conjunction into factors that share only functionally
 * determined values; the answers of the flat conjunction are the product of the
 * answers of the factors (`Factorisation`).
 */
module FactoredQuery {
  import Collections
  import opened Wrappers
  import opened FactQueries

  datatype Piece = Piece(query: FactQuery, columns: seq<nat>)
  datatype Query = Query(pieces: seq<Piece>, width: nat)

  // ---------- functionally determined values ----------

  predicate IsLiteral(values: seq<Slot>, v: nat) {
    v < |values| && values[v].literal.Some?
  }

  /** The output column of the atom is a function of values in `known`. */
  predicate Determines(c: Catalog, a: Atom, known: set<nat>, v: nat) {
    && a.op in c.schemas
    && var arity := |c.schemas[a.op].input|;
       |a.cols| == arity + 1 && a.cols[arity] == v && forall k :: 0 <= k < arity ==> a.cols[k] in known
  }

  /** The atom has a column for the output, and all its other columns are among the values. */
  predicate InputsIn(c: Catalog, a: Atom, known: set<nat>) {
    && a.op in c.schemas && |a.cols| == |c.schemas[a.op].input| + 1
    && forall k :: 0 <= k < |a.cols| - 1 ==> a.cols[k] in known
  }

  function Elements(s: seq<nat>): set<nat> {
    set v | v in s
  }

  ghost predicate Derived(c: Catalog, values: seq<Slot>, atoms: seq<Atom>, known: set<nat>, v: nat) {
    IsLiteral(values, v) || exists a :: a in atoms && Determines(c, a, known, v)
  }

  /** A derivation: each value is a literal or the output of an atom whose inputs come earlier. */
  ghost predicate Derivation(c: Catalog, values: seq<Slot>, atoms: seq<Atom>, order: seq<nat>) {
    forall k {:trigger order[k]} :: 0 <= k < |order| ==> Derived(c, values, atoms, Elements(order[..k]), order[k])
  }

  ghost predicate Closed(c: Catalog, values: seq<Slot>, atoms: seq<Atom>, known: set<nat>) {
    && (forall v: nat :: IsLiteral(values, v) ==> v in known)
    && forall a, v :: a in atoms && Determines(c, a, known, v) ==> v in known
  }

  /** The least set of values that the literals and the functional tables determine. */
  ghost predicate FixedValues(c: Catalog, values: seq<Slot>, atoms: seq<Atom>, known: set<nat>, order: seq<nat>) {
    Elements(order) == known && Derivation(c, values, atoms, order) && Closed(c, values, atoms, known)
  }

  /** Determined values are least: they lie in every closed set. */
  lemma {:induction false} FixedIsLeast(c: Catalog, values: seq<Slot>, atoms: seq<Atom>, order: seq<nat>, other: set<nat>)
    requires Derivation(c, values, atoms, order) && Closed(c, values, atoms, other)
    ensures Elements(order) <= other
  {
    if order != [] {
      var n := |order| - 1;
      assert forall k :: 0 <= k < n ==> order[..n][..k] == order[..k];
      FixedIsLeast(c, values, atoms, order[..n], other);
      assert Derived(c, values, atoms, Elements(order[..n]), order[n]);
      assert forall v :: v in order ==> v in order[..n] || v == order[n];
    }
  }

  lemma DerivationAppend(c: Catalog, values: seq<Slot>, atoms: seq<Atom>, order: seq<nat>, v: nat)
    requires Derivation(c, values, atoms, order) && Derived(c, values, atoms, Elements(order), v)
    ensures Derivation(c, values, atoms, order + [v]) && Elements(order + [v]) == Elements(order) + {v}
  {
    var longer := order + [v];
    forall k | 0 <= k < |longer| ensures Derived(c, values, atoms, Elements(longer[..k]), longer[k]) {
      assert longer[..k] == order[..k];
      if k < |order| { assert Derived(c, values, atoms, Elements(order[..k]), order[k]); }
      else { assert order[..k] == order; }
    }
  }

  /** The fixpoint loop. */
  method FixValues(c: Catalog, values: seq<Slot>, atoms: seq<Atom>) returns (known: set<nat>, ghost order: seq<nat>)
    requires forall i :: 0 <= i < |atoms| ==> AtomShaped(c, |values|, atoms[i])
    ensures FixedValues(c, values, atoms, known, order)
    ensures forall v :: v in known ==> v < |values|
    ensures forall v: nat :: v < |values| && values[v].literal.Some? ==> v in known
    ensures forall i :: 0 <= i < |atoms| && InputsIn(c, atoms[i], known) ==> atoms[i].cols[|atoms[i].cols| - 1] in known
  {
    known, order := {}, [];
    for v := 0 to |values|
      invariant Elements(order) == known && Derivation(c, values, atoms, order)
      invariant forall u :: u in known ==> u < |values|
      invariant forall u: nat :: u < v && IsLiteral(values, u) ==> u in known
    {
      if values[v].literal.Some? {
        DerivationAppend(c, values, atoms, order, v);
        known, order := known + {v}, order + [v];
      }
    }
    while true
      invariant Elements(order) == known && Derivation(c, values, atoms, order)
      invariant forall u :: u in known ==> u < |values|
      invariant forall u: nat :: IsLiteral(values, u) ==> u in known
      decreases |values| - |known|
    {
      var before := known;
      known, order := Sweep(c, values, atoms, known, order);
      if |known| == |before| {
        Collections.Subset(before, known);
        break;
      }
      Collections.BelowSize(known, |values|);
      Collections.Subset(before, known);
    }
    forall i | 0 <= i < |atoms| && InputsIn(c, atoms[i], known) ensures atoms[i].cols[|atoms[i].cols| - 1] in known {
      assert Determines(c, atoms[i], known, atoms[i].cols[|atoms[i].cols| - 1]);
    }
  }

  /** One pass over the atoms, adding every output whose inputs are known by then. */
  method Sweep(c: Catalog, values: seq<Slot>, atoms: seq<Atom>, before: set<nat>, ghost order: seq<nat>)
    returns (known: set<nat>, ghost longer: seq<nat>)
    requires forall i :: 0 <= i < |atoms| ==> AtomShaped(c, |values|, atoms[i])
    requires Elements(order) == before && Derivation(c, values, atoms, order)
    requires forall u :: u in before ==> u < |values|
    ensures before <= known && forall u :: u in known ==> u < |values|
    ensures Elements(longer) == known && Derivation(c, values, atoms, longer)
    ensures known == before ==> forall a, v :: a in atoms && Determines(c, a, before, v) ==> v in before
  {
    known, longer := before, order;
    for i := 0 to |atoms|
      invariant before <= known && forall u :: u in known ==> u < |values|
      invariant Elements(longer) == known && Derivation(c, values, atoms, longer)
      invariant known == before ==> NothingNew(c, atoms, i, before)
    {
      var cols, arity := atoms[i].cols, |c.schemas[atoms[i].op].input|;
      if |cols| == arity + 1 && forall k :: 0 <= k < arity ==> cols[k] in known {
        assert Determines(c, atoms[i], known, cols[arity]);
        DerivationAppend(c, values, atoms, longer, cols[arity]);
        known, longer := known + {cols[arity]}, longer + [cols[arity]];
      }
    }
  }

  /** The first atoms determine nothing that is not known. */
  ghost predicate NothingNew(c: Catalog, atoms: seq<Atom>, n: nat, known: set<nat>) {
    n <= |atoms| && forall i, v :: 0 <= i < n && Determines(c, atoms[i], known, v) ==> v in known
  }

  // ---------- classes of free values ----------

  /** Roots and distances of a compressed union-find. */
  datatype Classes = Classes(rep: seq<nat>, depth: seq<nat>)

  ghost predicate NodeAt(parents: seq<nat>, cls: Classes, x: nat)
    requires |parents| == |cls.rep| == |cls.depth| && x < |parents|
  {
    && parents[x] < |parents| && cls.rep[x] < |parents|
    && cls.depth[cls.rep[x]] == 0 && cls.rep[cls.rep[x]] == cls.rep[x]
    && if parents[x] == x then cls.rep[x] == x
       else cls.rep[x] != x && cls.depth[parents[x]] < cls.depth[x] && cls.rep[parents[x]] == cls.rep[x]
  }

  ghost predicate Forest(parents: seq<nat>, cls: Classes) {
    && |parents| == |cls.rep| == |cls.depth|
    && forall x: nat {:trigger NodeAt(parents, cls, x)} :: x < |parents| ==> NodeAt(parents, cls, x)
  }

  /** The root of `x`, pointing every value on the way straight at it. */
  method Root(parents: array<nat>, x: nat, ghost cls: Classes) returns (r: nat)
    requires Forest(parents[..], cls) && x < parents.Length
    modifies parents
    ensures Forest(parents[..], cls) && r == cls.rep[x]
    decreases cls.depth[x]
  {
    assert NodeAt(parents[..], cls, x);
    if parents[x] != x {
      var top := Root(parents, parents[x], cls);
      ghost var before := parents[..];
      parents[x] := top;
      CompressKeeps(before, parents[..], cls, x);
    }
    assert NodeAt(parents[..], cls, x);
    r := parents[x];
  }

  lemma CompressKeeps(before: seq<nat>, after: seq<nat>, cls: Classes, x: nat)
    requires Forest(before, cls) && x < |before| && cls.rep[x] != x && after == before[x := cls.rep[x]]
    ensures Forest(after, cls)
  {
    forall y: nat | y < |after| ensures NodeAt(after, cls, y) {
      assert NodeAt(before, cls, y) && NodeAt(before, cls, x) && NodeAt(before, cls, cls.rep[x]);
    }
  }

  ghost function Joined(cls: Classes, a: nat, b: nat): (m: Classes)
    requires |cls.rep| == |cls.depth|
    ensures |m.rep| == |m.depth| == |cls.rep|
    ensures forall x :: 0 <= x < |cls.rep| ==> m.rep[x] == if cls.rep[x] == b then a else cls.rep[x]
    ensures forall x :: 0 <= x < |cls.rep| ==> m.depth[x] == if cls.rep[x] == b && a != b then cls.depth[x] + 1 else cls.depth[x]
  {
    Classes(seq(|cls.rep|, x requires 0 <= x < |cls.rep| => if cls.rep[x] == b then a else cls.rep[x]),
            seq(|cls.rep|, x requires 0 <= x < |cls.rep| => if cls.rep[x] == b && a != b then cls.depth[x] + 1 else cls.depth[x]))
  }

  lemma JoinKeeps(before: seq<nat>, after: seq<nat>, cls: Classes, a: nat, b: nat)
    requires Forest(before, cls) && a < |before| && b < |before|
    requires cls.rep[a] == a && cls.rep[b] == b && after == before[b := a]
    ensures Forest(after, Joined(cls, a, b))
  {
    var m := Joined(cls, a, b);
    forall y: nat | y < |after| ensures NodeAt(after, m, y) {
      assert NodeAt(before, cls, y) && NodeAt(before, cls, a) && NodeAt(before, cls, b);
    }
  }

  /** All free columns of the atom are in one class. */
  ghost predicate OneClass(a: Atom, fixed: set<nat>, rep: seq<nat>) {
    && InRange(a.cols, |rep|)
    && forall x, y :: x in a.cols && y in a.cols && x !in fixed && y !in fixed ==> rep[x] == rep[y]
  }

  ghost predicate Respects(atoms: seq<Atom>, fixed: set<nat>, rep: seq<nat>) {
    forall i {:trigger OneClass(atoms[i], fixed, rep)} :: 0 <= i < |atoms| ==> OneClass(atoms[i], fixed, rep)
  }

  ghost predicate RefinesAt(rep: seq<nat>, coarse: seq<nat>, x: nat, y: nat)
    requires |rep| == |coarse| && x < |rep| && y < |rep|
  {
    rep[x] == rep[y] ==> coarse[x] == coarse[y]
  }

  /** `coarse` joins all that `rep` joins. */
  ghost predicate Refines(rep: seq<nat>, coarse: seq<nat>) {
    |rep| == |coarse| && forall x: nat, y: nat {:trigger RefinesAt(rep, coarse, x, y)} ::
      x < |rep| && y < |rep| ==> RefinesAt(rep, coarse, x, y)
  }

  /** The classes are the finest ones that put the free columns of each atom together. */
  ghost predicate Finest(atoms: seq<Atom>, fixed: set<nat>, rep: seq<nat>) {
    && Respects(atoms, fixed, rep)
    && forall other: seq<nat> {:trigger Respects(atoms, fixed, other)} ::
         |other| == |rep| && Respects(atoms, fixed, other) ==> Refines(rep, other)
  }

  /** Free columns of an atom, in order. */
  function Free(cols: seq<nat>, fixed: set<nat>): (r: seq<nat>)
    ensures forall x :: x in r <==> x in cols && x !in fixed
    ensures forall k :: 0 <= k < |r| ==> r[k] in cols && r[k] !in fixed
  {
    if cols == [] then []
    else
      assert forall x :: x in cols <==> x == cols[0] || x in cols[1..];
      if cols[0] in fixed then Free(cols[1..], fixed) else [cols[0]] + Free(cols[1..], fixed)
  }

  /** Joins the classes of the free columns of every atom. */
  method UnifyFree(atoms: seq<Atom>, fixed: set<nat>, parents: array<nat>) returns (ghost cls: Classes)
    requires forall x :: 0 <= x < parents.Length ==> parents[x] == x
    requires forall i :: 0 <= i < |atoms| ==> InRange(atoms[i].cols, parents.Length)
    modifies parents
    ensures Forest(parents[..], cls) && Finest(atoms, fixed, cls.rep)
  {
    cls := Classes(seq(parents.Length, x => x), seq(parents.Length, x => 0));
    assert forall x: nat :: x < parents.Length ==> NodeAt(parents[..], cls, x);
    for i := 0 to |atoms|
      invariant Forest(parents[..], cls)
      invariant Finest(atoms[..i], fixed, cls.rep)
    {
      ghost var before := cls;
      cls := UnifyAtom(atoms[i], fixed, parents, cls);
      assert atoms[..i + 1] == atoms[..i] + [atoms[i]];
      FinestNext(atoms[..i], atoms[i], fixed, before.rep, cls.rep);
    }
    assert atoms[..|atoms|] == atoms;
  }

  /** The relation between the classes before and after one atom. */
  ghost predicate UnifiedBy(a: Atom, fixed: set<nat>, before: seq<nat>, after: seq<nat>) {
    && Refines(before, after) && OneClass(a, fixed, after)
    && forall other: seq<nat> {:trigger Refines(before, other)} :: Refines(before, other) && OneClass(a, fixed, other) ==> Refines(after, other)
  }

  lemma FinestNext(done: seq<Atom>, a: Atom, fixed: set<nat>, before: seq<nat>, after: seq<nat>)
    requires Finest(done, fixed, before) && UnifiedBy(a, fixed, before, after)
    ensures Finest(done + [a], fixed, after)
  {
    var all := done + [a];
    forall i | 0 <= i < |all| ensures OneClass(all[i], fixed, after) {
      if i < |done| {
        assert OneClass(done[i], fixed, before);
        forall x, y | x in all[i].cols && y in all[i].cols && x !in fixed && y !in fixed ensures after[x] == after[y] {
          assert RefinesAt(before, after, x, y);
        }
      }
    }
    forall other: seq<nat> | |other| == |after| && Respects(all, fixed, other) ensures Refines(after, other) {
      forall i | 0 <= i < |done| ensures OneClass(done[i], fixed, other) { assert OneClass(all[i], fixed, other); }
      assert Respects(done, fixed, other);
      assert OneClass(all[|done|], fixed, other);
      assert Refines(before, other);
    }
  }

  /** Joining the classes of two free columns of an atom is forced. */
  lemma JoinForced(a: Atom, fixed: set<nat>, cls: Classes, parents: seq<nat>, x: nat, y: nat, other: seq<nat>)
    requires Forest(parents, cls) && x in a.cols && y in a.cols && x !in fixed && y !in fixed && InRange(a.cols, |parents|)
    requires Refines(cls.rep, other) && OneClass(a, fixed, other)
    ensures Refines(Joined(cls, cls.rep[x], cls.rep[y]).rep, other)
  {
    var m := Joined(cls, cls.rep[x], cls.rep[y]);
    forall u: nat, v: nat | u < |other| && v < |other| ensures RefinesAt(m.rep, other, u, v) {
      assert RefinesAt(cls.rep, other, u, v) && RefinesAt(cls.rep, other, u, x) && RefinesAt(cls.rep, other, u, y)
          && RefinesAt(cls.rep, other, v, x) && RefinesAt(cls.rep, other, v, y);
    }
  }

  lemma JoinCoarser(start: seq<nat>, cls: Classes, a: nat, b: nat)
    requires Refines(start, cls.rep) && |cls.rep| == |cls.depth|
    ensures Refines(start, Joined(cls, a, b).rep)
  {
    var m := Joined(cls, a, b);
    forall u: nat, v: nat | u < |start| && v < |start| ensures RefinesAt(start, m.rep, u, v) {
      assert RefinesAt(start, cls.rep, u, v);
    }
  }

  method Unite(parents: array<nat>, x: nat, y: nat, ghost was: Classes) returns (ghost cls: Classes)
    requires Forest(parents[..], was) && x < parents.Length && y < parents.Length
    modifies parents
    ensures Forest(parents[..], cls) && cls == Joined(was, was.rep[x], was.rep[y])
  {
    var a := Root(parents, x, was);
    var b := Root(parents, y, was);
    ghost var before := parents[..];
    assert NodeAt(before, was, x) && NodeAt(before, was, y);
    parents[b] := a;
    cls := Joined(was, a, b);
    JoinKeeps(before, parents[..], was, a, b);
  }

  /** Only joins that the atom forces were made. */
  ghost predicate Forced(a: Atom, fixed: set<nat>, start: seq<nat>, rep: seq<nat>) {
    && Refines(start, rep)
    && forall other: seq<nat> {:trigger Refines(start, other)} :: Refines(start, other) && OneClass(a, fixed, other) ==> Refines(rep, other)
  }

  /** The first free columns are in one class. */
  ghost predicate Together(free: seq<nat>, k: nat, rep: seq<nat>) {
    k <= |free| && forall j {:trigger free[j]} :: 0 <= j < k ==> free[j] < |rep| && free[0] < |rep| && rep[free[j]] == rep[free[0]]
  }

  lemma UnitedNext(a: Atom, fixed: set<nat>, start: seq<nat>, was: Classes, parents: seq<nat>, free: seq<nat>, k: nat)
    requires Forest(parents, was) && free == Free(a.cols, fixed) && 0 < k < |free| && InRange(a.cols, |parents|)
    requires Forced(a, fixed, start, was.rep) && Together(free, k, was.rep)
    ensures free[0] in a.cols && free[k] in a.cols && free[0] < |was.rep| && free[k] < |was.rep|
    ensures var rep := Joined(was, was.rep[free[0]], was.rep[free[k]]).rep; Forced(a, fixed, start, rep) && Together(free, k + 1, rep)
  {
    assert free[0] in a.cols && free[k] in a.cols;
    var rep := Joined(was, was.rep[free[0]], was.rep[free[k]]).rep;
    JoinCoarser(start, was, was.rep[free[0]], was.rep[free[k]]);
    forall other: seq<nat> | Refines(start, other) && OneClass(a, fixed, other) ensures Refines(rep, other) {
      JoinForced(a, fixed, was, parents, free[0], free[k], other);
    }
  }

  method UnifyAtom(a: Atom, fixed: set<nat>, parents: array<nat>, ghost start: Classes) returns (ghost cls: Classes)
    requires Forest(parents[..], start) && InRange(a.cols, parents.Length)
    modifies parents
    ensures Forest(parents[..], cls) && UnifiedBy(a, fixed, start.rep, cls.rep)
  {
    cls := start;
    var free := Free(a.cols, fixed);
    SelfRefines(start.rep);
    if |free| > 0 {
      assert free[0] in a.cols;
      for k := 1 to |free|
        invariant Forest(parents[..], cls) && Forced(a, fixed, start.rep, cls.rep) && Together(free, k, cls.rep)
      {
        ghost var was := cls;
        UnitedNext(a, fixed, start.rep, was, parents[..], free, k);
        cls := Unite(parents, free[0], free[k], was);
      }
    }
    TogetherIsOneClass(a, fixed, free, cls.rep);
  }

  lemma SelfRefines(rep: seq<nat>)
    ensures Refines(rep, rep)
  {
  }

  lemma TogetherIsOneClass(a: Atom, fixed: set<nat>, free: seq<nat>, rep: seq<nat>)
    requires free == Free(a.cols, fixed) && InRange(a.cols, |rep|) && Together(free, |free|, rep)
    ensures OneClass(a, fixed, rep)
  {
    forall x | x in a.cols && x !in fixed ensures rep[x] == rep[free[0]] {
      var j :| 0 <= j < |free| && free[j] == x;
    }
  }

  // ---------- groups of atoms ----------

  /** An atom without free columns is repeated in every factor. */
  predicate Ground(a: Atom, fixed: set<nat>) {
    Free(a.cols, fixed) == []
  }

  ghost predicate InGroup(a: Atom, fixed: set<nat>, rep: seq<nat>, id: nat) {
    var free := Free(a.cols, fixed);
    free != [] && free[0] < |rep| && rep[free[0]] == id
  }

  type Groups = map<nat, seq<nat>>

  predicate Member(groups: Groups, id: nat, i: nat) {
    id in groups && i in groups[id]
  }

  ghost predicate Grouped(atoms: seq<Atom>, fixed: set<nat>, rep: seq<nat>, groups: Groups, ground: seq<nat>) {
    && (forall id, i: nat {:trigger Member(groups, id, i)} :: Member(groups, id, i) ==> i < |atoms| && InGroup(atoms[i], fixed, rep, id))
    && (forall id :: id in groups ==> groups[id] != [])
    && (forall i: nat, id {:trigger InGroup(atoms[i], fixed, rep, id)} :: i < |atoms| && InGroup(atoms[i], fixed, rep, id) ==>
          Member(groups, id, i))
    && (forall i :: i in ground ==> i < |atoms| && Ground(atoms[i], fixed))
    && (forall i: nat {:trigger Ground(atoms[i], fixed)} :: i < |atoms| && Ground(atoms[i], fixed) ==> i in ground)
  }

  method GroupAtoms(atoms: seq<Atom>, fixed: set<nat>, parents: array<nat>, ghost cls: Classes) returns (groups: Groups, ground: seq<nat>)
    requires Forest(parents[..], cls)
    requires forall i :: 0 <= i < |atoms| ==> InRange(atoms[i].cols, parents.Length)
    modifies parents
    ensures Forest(parents[..], cls) && Grouped(atoms, fixed, cls.rep, groups, ground)
  {
    groups, ground := map[], [];
    for i := 0 to |atoms|
      invariant Forest(parents[..], cls)
      invariant Grouped(atoms[..i], fixed, cls.rep, groups, ground)
    {
      var free := Free(atoms[i].cols, fixed);
      assert atoms[..i + 1] == atoms[..i] + [atoms[i]];
      if free != [] {
        assert free[0] in atoms[i].cols;
        var id := Root(parents, free[0], cls);
        GroupedNext(atoms[..i], atoms[i], fixed, cls.rep, groups, ground, id);
        groups := groups[id := (if id in groups then groups[id] else []) + [i]];
      } else {
        GroundNext(atoms[..i], atoms[i], fixed, cls.rep, groups, ground);
        ground := ground + [i];
      }
    }
    assert atoms[..|atoms|] == atoms;
  }

  lemma GroupedNext(atoms: seq<Atom>, a: Atom, fixed: set<nat>, rep: seq<nat>, groups: Groups, ground: seq<nat>, id: nat)
    requires Grouped(atoms, fixed, rep, groups, ground) && InGroup(a, fixed, rep, id)
    ensures Grouped(atoms + [a], fixed, rep, groups[id := (if id in groups then groups[id] else []) + [|atoms|]], ground)
  {
    var all, now := atoms + [a], groups[id := (if id in groups then groups[id] else []) + [|atoms|]];
    forall i: nat, g | i < |all| && InGroup(all[i], fixed, rep, g) ensures Member(now, g, i) {
      if i < |atoms| { assert InGroup(atoms[i], fixed, rep, g) && Member(groups, g, i); }
    }
    forall g, i: nat | Member(now, g, i) ensures i < |all| && InGroup(all[i], fixed, rep, g) {
      if g != id || i != |atoms| { assert Member(groups, g, i); }
    }
    forall i: nat | i < |all| && Ground(all[i], fixed) ensures i in ground {
      assert i < |atoms| && Ground(atoms[i], fixed);
    }
  }

  lemma GroundNext(atoms: seq<Atom>, a: Atom, fixed: set<nat>, rep: seq<nat>, groups: Groups, ground: seq<nat>)
    requires Grouped(atoms, fixed, rep, groups, ground) && Ground(a, fixed)
    ensures Grouped(atoms + [a], fixed, rep, groups, ground + [|atoms|])
  {
    var all := atoms + [a];
    forall i: nat, g | i < |all| && InGroup(all[i], fixed, rep, g) ensures Member(groups, g, i) {
      assert i < |atoms| && InGroup(atoms[i], fixed, rep, g);
    }
    forall i: nat | i < |all| && Ground(all[i], fixed) ensures i in ground + [|atoms|] {
      if i < |atoms| { assert Ground(atoms[i], fixed); }
    }
  }

  // ---------- pieces ----------

  /** What the compiler knows about a split: determined values, their derivation, classes and group identifiers. */
  datatype Plan = Plan(fixed: set<nat>, order: seq<nat>, rep: seq<nat>, ids: seq<nat>)

  /** Atoms at the given positions, in their original order. */
  function Fragment(atoms: seq<Atom>, members: set<nat>): (r: seq<Atom>)
    ensures forall a :: a in r <==> exists i :: 0 <= i < |atoms| && i in members && atoms[i] == a
  {
    if atoms == [] then []
    else
      var n := |atoms| - 1;
      var front := Fragment(atoms[..n], members);
      if n in members then front + [atoms[n]] else front
  }

  /** The factor of one group: its atoms and all ground atoms. */
  ghost predicate IsFactor(flat: FactQuery, plan: Plan, id: nat, p: Piece) {
    && p.query.values == flat.values
    && (forall a :: a in p.query.atoms <==>
          a in flat.atoms && (Ground(a, plan.fixed) || InGroup(a, plan.fixed, plan.rep, id)))
    && Ascending(p.columns) && InRange(p.columns, |flat.projection|)
    && p.query.projection == Pick(flat.projection, p.columns)
  }

  predicate Ascending(s: seq<nat>) {
    forall i, j :: 0 <= i < j < |s| ==> s[i] < s[j]
  }

  ghost predicate BoundBy(pieces: seq<Piece>, v: nat) {
    exists i :: 0 <= i < |pieces| && Bound(pieces[i].query.atoms, v)
  }

  /** Column `col` belongs to piece `i`: by class if it is free, to the first factor that binds it if it is determined. */
  ghost predicate Owns(flat: FactQuery, plan: Plan, pieces: seq<Piece>, i: nat, col: nat)
    requires i < |pieces| == |plan.ids| && col < |flat.projection|
  {
    var v := flat.projection[col];
    if v in plan.fixed then Bound(pieces[i].query.atoms, v) && !BoundBy(pieces[..i], v)
    else v < |plan.rep| && plan.rep[v] == plan.ids[i]
  }

  ghost predicate FactorAt(c: Catalog, flat: FactQuery, plan: Plan, pieces: seq<Piece>, i: nat)
    requires i < |pieces| == |plan.ids|
  {
    && IsFactor(flat, plan, plan.ids[i], pieces[i]) && Accepted(c, pieces[i].query)
    && forall col: nat {:trigger Owns(flat, plan, pieces, i, col)} :: col < |flat.projection| ==>
         (col in pieces[i].columns <==> Owns(flat, plan, pieces, i, col))
  }

  ghost predicate Splits(c: Catalog, flat: FactQuery, plan: Plan, pieces: seq<Piece>) {
    && |pieces| == |plan.ids|
    && forall i: nat {:trigger FactorAt(c, flat, plan, pieces, i)} :: i < |pieces| ==> FactorAt(c, flat, plan, pieces, i)
  }

  ghost predicate IsGroup(flat: FactQuery, plan: Plan, id: nat) {
    exists a :: a in flat.atoms && InGroup(a, plan.fixed, plan.rep, id)
  }

  /** The determined values and the classes of the rest. */
  ghost predicate Analysed(c: Catalog, flat: FactQuery, plan: Plan) {
    && |plan.rep| == |flat.values|
    && FixedValues(c, flat.values, flat.atoms, plan.fixed, plan.order)
    && Finest(flat.atoms, plan.fixed, plan.rep)
    && forall id: nat {:trigger id in plan.ids} :: id in plan.ids <==> IsGroup(flat, plan, id)
  }

  ghost predicate Factored(c: Catalog, flat: FactQuery, q: Query, plan: Plan) {
    && q.width == |flat.projection|
    && Analysed(c, flat, plan) && Ascending(plan.ids)
    && if |plan.ids| <= 1 then q.pieces == [Piece(flat, Columns(|flat.projection|))]
       else Splits(c, flat, plan, q.pieces)
  }

  function Columns(n: nat): (r: seq<nat>)
    ensures |r| == n && forall k :: 0 <= k < n ==> r[k] == k
  {
    seq(n, k => k)
  }

  /** Whether the factor of group `id` takes a projected value. */
  ghost predicate Takes(fixed: set<nat>, rep: seq<nat>, id: nat, fragment: seq<Atom>, done: bool, v: nat)
    requires v < |rep|
  {
    if v in fixed then !done && Bound(fragment, v) else rep[v] == id
  }

  ghost predicate TakesUpTo(flat: FactQuery, fixed: set<nat>, rep: seq<nat>, id: nat, fragment: seq<Atom>, done: seq<bool>,
                            columns: seq<nat>, n: nat)
    requires n <= |done| == |flat.projection| && InRange(flat.projection, |rep|)
  {
    && Ascending(columns) && InRange(columns, n)
    && forall col: nat {:trigger col in columns} :: col < n ==>
         (col in columns <==> Takes(fixed, rep, id, fragment, done[col], flat.projection[col]))
  }

  /** The columns one factor takes over from the projection. */
  method TakeColumns(flat: FactQuery, fixed: set<nat>, id: nat, fragment: seq<Atom>, taken: array<bool>,
                     parents: array<nat>, ghost cls: Classes)
    returns (columns: seq<nat>)
    requires Forest(parents[..], cls) && taken.Length == |flat.projection|
    requires InRange(flat.projection, parents.Length)
    modifies parents, taken
    ensures Forest(parents[..], cls)
    ensures TakesUpTo(flat, fixed, cls.rep, id, fragment, old(taken[..]), columns, |flat.projection|)
    ensures forall col: nat {:trigger taken[col]} :: col < |flat.projection| ==>
              taken[col] == (old(taken[..])[col] || col in columns)
  {
    columns := [];
    for col := 0 to |flat.projection|
      invariant Forest(parents[..], cls) && taken[..] == old(taken[..])
      invariant TakesUpTo(flat, fixed, cls.rep, id, fragment, old(taken[..]), columns, col)
    {
      var v := flat.projection[col];
      var take;
      if v in fixed {
        assert taken[col] == taken[..][col];
        take := !taken[col] && Bound(fragment, v);
      } else {
        var r := Root(parents, v, cls);
        take := r == id;
      }
      if take { columns := columns + [col]; }
    }
    for k := 0 to |columns|
      invariant Forest(parents[..], cls)
      invariant forall col: nat {:trigger taken[col]} :: col < |flat.projection| ==>
                  taken[col] == (old(taken[..])[col] || col in columns[..k])
    {
      assert columns[..k + 1] == columns[..k] + [columns[k]];
      taken[columns[k]] := true;
    }
    assert columns[..|columns|] == columns;
  }

  // ---------- compilation ----------

  /** A free value that an atom binds lies in the group of the atom. */
  lemma FreeInGroup(plan: Plan, a: Atom, v: nat)
    requires OneClass(a, plan.fixed, plan.rep) && v in a.cols && v !in plan.fixed
    ensures InGroup(a, plan.fixed, plan.rep, plan.rep[v])
  {
    var free := Free(a.cols, plan.fixed);
    assert v in free && free[0] in a.cols && free[0] !in plan.fixed;
  }

  /** A factor of an accepted query is accepted. */
  lemma FactorAccepted(c: Catalog, flat: FactQuery, plan: Plan, id: nat, p: Piece)
    requires Accepted(c, flat) && Finest(flat.atoms, plan.fixed, plan.rep) && IsFactor(flat, plan, id, p)
    requires forall col: nat {:trigger col in p.columns} :: col in p.columns ==>
               var v := flat.projection[col];
               if v in plan.fixed then Bound(p.query.atoms, v) else v < |plan.rep| && plan.rep[v] == id
    ensures Accepted(c, p.query)
  {
    forall i | 0 <= i < |p.query.atoms| ensures AtomAccepted(c, flat.values, p.query.atoms[i]) {
      assert p.query.atoms[i] in flat.atoms;
    }
    forall i | 0 <= i < |p.query.projection| ensures Bound(p.query.atoms, p.query.projection[i]) {
      var col := p.columns[i];
      var v := flat.projection[col];
      assert col in p.columns;
      if v !in plan.fixed {
        assert Bound(flat.atoms, v);
        var a :| a in flat.atoms && v in a.cols;
        var k :| 0 <= k < |flat.atoms| && flat.atoms[k] == a;
        assert OneClass(flat.atoms[k], plan.fixed, plan.rep);
        FreeInGroup(plan, a, v);
      }
    }
  }

  /** Every atom of the flat query is in some factor. */
  lemma AtomSomewhere(c: Catalog, flat: FactQuery, plan: Plan, pieces: seq<Piece>, a: Atom) returns (i: nat)
    requires Analysed(c, flat, plan) && Splits(c, flat, plan, pieces) && pieces != [] && a in flat.atoms
    ensures i < |pieces| && a in pieces[i].query.atoms
    ensures Ground(a, plan.fixed) || InGroup(a, plan.fixed, plan.rep, plan.ids[i])
  {
    if Ground(a, plan.fixed) {
      i := 0;
    } else {
      var k :| 0 <= k < |flat.atoms| && flat.atoms[k] == a;
      var v := Free(a.cols, plan.fixed)[0];
      assert v in a.cols && OneClass(flat.atoms[k], plan.fixed, plan.rep);
      assert InGroup(a, plan.fixed, plan.rep, plan.rep[v]);
      assert IsGroup(flat, plan, plan.rep[v]);
      assert plan.rep[v] in plan.ids;
      i :| 0 <= i < |plan.ids| && plan.ids[i] == plan.rep[v];
    }
    assert FactorAt(c, flat, plan, pieces, i);
  }

  /** A query whose factors are all accepted is accepted. */
  lemma FactorsAccepted(c: Catalog, flat: FactQuery, plan: Plan, pieces: seq<Piece>)
    requires Analysed(c, flat, plan) && Splits(c, flat, plan, pieces) && pieces != []
    requires forall i :: 0 <= i < |flat.projection| ==> Bound(flat.atoms, flat.projection[i])
    ensures Accepted(c, flat)
  {
    assert FactorAt(c, flat, plan, pieces, 0);
    forall k | 0 <= k < |flat.atoms| ensures AtomAccepted(c, flat.values, flat.atoms[k]) {
      var i := AtomSomewhere(c, flat, plan, pieces, flat.atoms[k]);
      assert FactorAt(c, flat, plan, pieces, i);
    }
  }

  /** `taken` marks the determined columns that the pieces bind. */
  ghost predicate Marks(flat: FactQuery, fixed: set<nat>, pieces: seq<Piece>, taken: seq<bool>) {
    && |taken| == |flat.projection|
    && forall col: nat {:trigger taken[col]} :: col < |flat.projection| && flat.projection[col] in fixed ==>
         (taken[col] <==> BoundBy(pieces, flat.projection[col]))
  }

  lemma BoundByAppend(pieces: seq<Piece>, p: Piece, v: nat)
    ensures BoundBy(pieces + [p], v) <==> BoundBy(pieces, v) || Bound(p.query.atoms, v)
  {
    var all := pieces + [p];
    if BoundBy(pieces, v) {
      var i :| 0 <= i < |pieces| && Bound(pieces[i].query.atoms, v);
      assert Bound(all[i].query.atoms, v);
    }
    if Bound(p.query.atoms, v) { assert Bound(all[|pieces|].query.atoms, v); }
  }

  lemma MarksNext(flat: FactQuery, plan: Plan, pieces: seq<Piece>, id: nat, p: Piece, before: seq<bool>, after: seq<bool>)
    requires InRange(flat.projection, |plan.rep|) && Marks(flat, plan.fixed, pieces, before) && |after| == |before|
    requires TakesUpTo(flat, plan.fixed, plan.rep, id, p.query.atoms, before, p.columns, |flat.projection|)
    requires forall col: nat {:trigger after[col]} :: col < |after| ==> after[col] == (before[col] || col in p.columns)
    ensures Marks(flat, plan.fixed, pieces + [p], after)
  {
    forall col: nat | col < |flat.projection| && flat.projection[col] in plan.fixed
      ensures after[col] <==> BoundBy(pieces + [p], flat.projection[col])
    {
      BoundByAppend(pieces, p, flat.projection[col]);
      assert before[col] || !before[col];
    }
  }

  lemma SplitsNext(c: Catalog, flat: FactQuery, plan: Plan, pieces: seq<Piece>, id: nat, p: Piece, taken: seq<bool>)
    requires Splits(c, flat, plan, pieces) && InRange(flat.projection, |plan.rep|) && Marks(flat, plan.fixed, pieces, taken)
    requires IsFactor(flat, plan, id, p) && Accepted(c, p.query)
    requires TakesUpTo(flat, plan.fixed, plan.rep, id, p.query.atoms, taken, p.columns, |flat.projection|)
    ensures Splits(c, flat, plan.(ids := plan.ids + [id]), pieces + [p])
  {
    var all, now := pieces + [p], plan.(ids := plan.ids + [id]);
    forall i: nat | i < |all| ensures FactorAt(c, flat, now, all, i) {
      if i < |pieces| {
        assert FactorAt(c, flat, plan, pieces, i);
        assert all[..i] == pieces[..i];
        forall col: nat | col < |flat.projection| ensures col in all[i].columns <==> Owns(flat, now, all, i, col) {
          assert Owns(flat, now, all, i, col) <==> Owns(flat, plan, pieces, i, col);
        }
      } else {
        assert all[..i] == pieces;
        assert forall col: nat :: col < |flat.projection| ==> (taken[col] || !taken[col]);
      }
    }
  }

  /** One factor: its fragment, its columns and the engine's verdict. */
  method MakePiece(c: Catalog, flat: FactQuery, fixed: set<nat>, id: nat, members: set<nat>, taken: array<bool>,
                   parents: array<nat>, ghost cls: Classes)
    returns (p: Piece)
    requires Forest(parents[..], cls) && taken.Length == |flat.projection| && InRange(flat.projection, parents.Length)
    modifies parents, taken
    ensures Forest(parents[..], cls)
    ensures p.query.values == flat.values && p.query.atoms == Fragment(flat.atoms, members)
    ensures TakesUpTo(flat, fixed, cls.rep, id, p.query.atoms, old(taken[..]), p.columns, |flat.projection|)
    ensures p.query.projection == Pick(flat.projection, p.columns)
    ensures forall col: nat {:trigger taken[col]} :: col < |flat.projection| ==>
              taken[col] == (old(taken[..])[col] || col in p.columns)
  {
    var fragment := Fragment(flat.atoms, members);
    var columns := TakeColumns(flat, fixed, id, fragment, taken, parents, cls);
    p := Piece(FactQuery(flat.values, fragment, Pick(flat.projection, columns)), columns);
  }

  lemma FragmentOfGroup(flat: FactQuery, plan: Plan, groups: Groups, ground: seq<nat>, id: nat, p: Piece)
    requires Grouped(flat.atoms, plan.fixed, plan.rep, groups, ground) && id in groups
    requires p.query.values == flat.values && p.query.atoms == Fragment(flat.atoms, Elements(groups[id] + ground))
    requires Ascending(p.columns) && InRange(p.columns, |flat.projection|)
    requires p.query.projection == Pick(flat.projection, p.columns)
    ensures IsFactor(flat, plan, id, p)
  {
    var members := Elements(groups[id] + ground);
    forall a | a in p.query.atoms
      ensures a in flat.atoms && (Ground(a, plan.fixed) || InGroup(a, plan.fixed, plan.rep, id))
    {
      var i: nat :| i < |flat.atoms| && i in members && flat.atoms[i] == a;
      assert Member(groups, id, i) || i in ground;
    }
    forall a | a in flat.atoms && (Ground(a, plan.fixed) || InGroup(a, plan.fixed, plan.rep, id))
      ensures a in p.query.atoms
    {
      var i: nat :| i < |flat.atoms| && flat.atoms[i] == a;
      assert InGroup(flat.atoms[i], plan.fixed, plan.rep, id) ==> Member(groups, id, i);
      assert Ground(flat.atoms[i], plan.fixed) ==> i in ground;
      assert i in members;
    }
  }

  lemma OwnedColumns(flat: FactQuery, plan: Plan, id: nat, p: Piece, done: seq<bool>)
    requires |done| == |flat.projection| && InRange(flat.projection, |plan.rep|)
    requires TakesUpTo(flat, plan.fixed, plan.rep, id, p.query.atoms, done, p.columns, |flat.projection|)
    ensures forall col: nat {:trigger col in p.columns} :: col in p.columns ==>
              var v := flat.projection[col];
              if v in plan.fixed then Bound(p.query.atoms, v) else v < |plan.rep| && plan.rep[v] == id
  {
    forall col: nat | col in p.columns ensures
      var v := flat.projection[col];
      if v in plan.fixed then Bound(p.query.atoms, v) else v < |plan.rep| && plan.rep[v] == id
    {
      assert Takes(plan.fixed, plan.rep, id, p.query.atoms, done[col], flat.projection[col]);
    }
  }

  /** The factors, by ascending group identifier. */
  method Split(c: Catalog, flat: FactQuery, groups: Groups, ground: seq<nat>, parents: array<nat>,
               ghost cls: Classes, fixed: set<nat>, ghost start: Plan)
    returns (r: Result<seq<Piece>>, ghost plan: Plan)
    requires start.fixed == fixed && start.rep == cls.rep && start.ids == []
    requires Forest(parents[..], cls) && InRange(flat.projection, parents.Length)
    requires Finest(flat.atoms, fixed, cls.rep) && Grouped(flat.atoms, fixed, cls.rep, groups, ground)
    modifies parents
    ensures plan == start.(ids := plan.ids)
    ensures r.Ok? ==> Ascending(plan.ids) && Splits(c, flat, plan, r.value)
    ensures r.Ok? ==> forall id: nat :: id in plan.ids <==> id in groups && id < parents.Length
    ensures r.Err? ==> !Accepted(c, flat)
  {
    var pieces: seq<Piece> := [];
    var taken := new bool[|flat.projection|](_ => false);
    plan := start;
    for id := 0 to parents.Length
      invariant Forest(parents[..], cls) && plan == start.(ids := plan.ids)
      invariant Ascending(plan.ids) && InRange(plan.ids, id)
      invariant forall i: nat :: i in plan.ids <==> i in groups && i < id
      invariant Splits(c, flat, plan, pieces) && Marks(flat, fixed, pieces, taken[..])
    {
      if id in groups {
        ghost var before := taken[..];
        var p := MakePiece(c, flat, fixed, id, Elements(groups[id] + ground), taken, parents, cls);
        FragmentOfGroup(flat, plan, groups, ground, id, p);
        OwnedColumns(flat, plan, id, p, before);
        if !Accepted(c, p.query) {
          if Accepted(c, flat) { FactorAccepted(c, flat, plan, id, p); }
          return Err("native query"), plan;
        }
        SplitsNext(c, flat, plan, pieces, id, p, before);
        MarksNext(flat, plan, pieces, id, p, before, taken[..]);
        pieces, plan := pieces + [p], plan.(ids := plan.ids + [id]);
      }
    }
    r := Ok(pieces);
  }

  predicate Fits(c: Catalog, a: Atom)
    requires a.op in c.schemas
  {
    |c.schemas[a.op].input| <= |a.cols| <= |c.schemas[a.op].input| + 1
  }

  /** What the checks before the analysis establish. */
  predicate Shaped(c: Catalog, flat: FactQuery) {
    && (forall i :: 0 <= i < |flat.atoms| ==> AtomShaped(c, |flat.values|, flat.atoms[i]))
    && forall i :: 0 <= i < |flat.projection| ==> Bound(flat.atoms, flat.projection[i])
  }

  method Check(c: Catalog, flat: FactQuery) returns (error: Option<string>)
    ensures error.None? <==> Shaped(c, flat)
  {
    if (exists i :: 0 <= i < |flat.atoms| && exists k :: 0 <= k < |flat.atoms[i].cols| && flat.atoms[i].cols[k] >= |flat.values|) ||
       (exists i :: 0 <= i < |flat.projection| && !Bound(flat.atoms, flat.projection[i])) {
      return Some("invalid factored query variable/projection");
    }
    if exists i :: 0 <= i < |flat.atoms| && flat.atoms[i].op !in c.schemas {
      return Some("unknown factored query table");
    }
    if exists i :: 0 <= i < |flat.atoms| && !Fits(c, flat.atoms[i]) {
      return Some("factored query atom arity mismatch");
    }
    return None;
  }

  lemma GroupsAreGroups(flat: FactQuery, plan: Plan, groups: Groups, ground: seq<nat>, parents: seq<nat>, cls: Classes)
    requires Grouped(flat.atoms, plan.fixed, plan.rep, groups, ground) && Forest(parents, cls) && plan.rep == cls.rep
    ensures forall id: nat :: id in groups <==> IsGroup(flat, plan, id)
    ensures forall id: nat :: id in groups ==> id < |parents|
  {
    forall id: nat | id in groups ensures IsGroup(flat, plan, id) && id < |parents| {
      var i := groups[id][0];
      assert Member(groups, id, i);
      assert NodeAt(parents, cls, Free(flat.atoms[i].cols, plan.fixed)[0]);
    }
    forall id: nat | IsGroup(flat, plan, id) ensures id in groups {
      var a :| a in flat.atoms && InGroup(a, plan.fixed, plan.rep, id);
      var i: nat :| i < |flat.atoms| && flat.atoms[i] == a;
      assert InGroup(flat.atoms[i], plan.fixed, plan.rep, id);
      assert Member(groups, id, i);
    }
  }

  lemma OneKey(keys: set<nat>, ids: seq<nat>)
    requires |keys| > 1 && forall id: nat :: id in ids <==> id in keys
    ensures |ids| > 1
  {
    var a :| a in keys;
    assert keys == {a} + (keys - {a});
    var b :| b in keys - {a};
    var i :| 0 <= i < |ids| && ids[i] == a;
    var j :| 0 <= j < |ids| && ids[j] == b;
  }

  lemma FewKeys(keys: set<nat>) returns (ids: seq<nat>)
    requires |keys| <= 1
    ensures |ids| <= 1 && forall id: nat :: id in ids <==> id in keys
  {
    if keys == {} {
      ids := [];
    } else {
      var k :| k in keys;
      assert |keys - {k}| == 0;
      assert keys == {k} + (keys - {k});
      ids := [k];
    }
  }

  /** Compiles a conjunction into independent factors; succeeds exactly on the queries the engine accepts. */
  method Compile(c: Catalog, values: seq<Slot>, atoms: seq<Atom>, projection: seq<nat>)
    returns (r: Result<Query>, ghost plan: Plan)
    ensures r.Ok? <==> Accepted(c, FactQuery(values, atoms, projection))
    ensures r.Ok? ==> Factored(c, FactQuery(values, atoms, projection), r.value, plan)
  {
    var flat := FactQuery(values, atoms, projection);
    plan := Plan({}, [], [], []);
    var error := Check(c, flat);
    if error.Some? {
      return Err(error.value), plan;
    }
    BoundInRange(c, flat);
    var fixed; ghost var order;
    fixed, order := FixValues(c, values, atoms);
    var parents := new nat[|values|]((x: nat) => x);
    ghost var cls := UnifyFree(atoms, fixed, parents);
    var groups, ground := GroupAtoms(atoms, fixed, parents, cls);
    ghost var start := Plan(fixed, order, cls.rep, []);
    GroupsAreGroups(flat, start, groups, ground, parents[..], cls);
    if |groups| <= 1 {
      if !Accepted(c, flat) {
        return Err("native query"), plan;
      }
      ghost var ids := FewKeys(groups.Keys);
      plan := start.(ids := ids);
      SamePlan(c, flat, start, plan);
      r := Ok(Query([Piece(flat, Columns(|projection|))], |projection|));
    } else {
      var pieces;
      pieces, plan := Split(c, flat, groups, ground, parents, cls, fixed, start);
      if pieces.Err? {
        return Err(pieces.message), plan;
      }
      OneKey(groups.Keys, plan.ids);
      SamePlan(c, flat, start, plan);
      FactorsAccepted(c, flat, plan, pieces.value);
      r := Ok(Query(pieces.value, |projection|));
    }
  }

  lemma BoundInRange(c: Catalog, flat: FactQuery)
    requires Shaped(c, flat)
    ensures InRange(flat.projection, |flat.values|)
    ensures forall i :: 0 <= i < |flat.atoms| ==> InRange(flat.atoms[i].cols, |flat.values|)
  {
    forall i | 0 <= i < |flat.projection| ensures flat.projection[i] < |flat.values| {
      assert Bound(flat.atoms, flat.projection[i]);
    }
  }

  lemma SamePlan(c: Catalog, flat: FactQuery, start: Plan, plan: Plan)
    requires |start.rep| == |flat.values| && plan == start.(ids := plan.ids)
    requires FixedValues(c, flat.values, flat.atoms, plan.fixed, plan.order) && Finest(flat.atoms, plan.fixed, plan.rep)
    requires forall id: nat {:trigger id in plan.ids} :: id in plan.ids <==> IsGroup(flat, start, id)
    ensures Analysed(c, flat, plan)
  {
    forall id: nat ensures IsGroup(flat, start, id) == IsGroup(flat, plan, id) {
    }
  }
}
