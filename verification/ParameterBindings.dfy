/**
 * `bindings` of src/cc_merge.rs: every way to bind k parameters to n existing
 * classes or to fresh variables, one representative for each renaming of the
 * fresh variables.
 *
 * The reference is the set of arbitrary assignments up to renaming
 * (`SameAssignment`); `ExactlyOnce` says that the recursion meets each class of
 * assignments once.
 */
module ParameterBindings {

  datatype Visit = Visit(binding: seq<nat>, fresh_: nat)

  // ---------- assignments up to renaming ----------

  /** Values below `n` are existing classes and fixed; fresh variables may be renamed. */
  ghost predicate SameAssignment(n: nat, a: seq<nat>, b: seq<nat>) {
    && |a| == |b|
    && forall i: nat, j: nat {:trigger PairAt(n, a, b, i, j)} :: i < |a| && j < |a| ==> PairAt(n, a, b, i, j)
  }

  ghost predicate PairAt(n: nat, a: seq<nat>, b: seq<nat>, i: nat, j: nat)
    requires i < |a| == |b| && j < |a|
  {
    (a[i] < n <==> b[i] < n) && (a[i] < n ==> a[i] == b[i]) && (a[i] == a[j] <==> b[i] == b[j])
  }

  lemma SameFront(n: nat, a: seq<nat>, b: seq<nat>)
    requires SameAssignment(n, a, b) && a != []
    ensures SameAssignment(n, a[..|a| - 1], b[..|a| - 1])
  {
    var x, y := a[..|a| - 1], b[..|a| - 1];
    forall i: nat, j: nat | i < |x| && j < |x| ensures PairAt(n, x, y, i, j) { assert PairAt(n, a, b, i, j); }
  }

  /** Fresh variables of a binding that numbers them in order of appearance. */
  function Fresh(n: nat, s: seq<nat>): nat {
    if s == [] then 0
    else
      var before := Fresh(n, s[..|s| - 1]);
      if s[|s| - 1] == n + before then before + 1 else before
  }

  /** Each value is an existing class, an earlier fresh variable or the next one. */
  ghost predicate Canonical(n: nat, s: seq<nat>) {
    forall i {:trigger s[i]} :: 0 <= i < |s| ==> s[i] <= n + Fresh(n, s[..i])
  }

  // ---------- the enumeration ----------

  /** Visits below a prefix, choice by choice. */
  ghost function Extensions(n: nat, k: nat, prefix: seq<nat>, f: nat): seq<Visit>
    requires |prefix| <= k
    decreases k - |prefix|, 1, 0
  {
    if |prefix| == k then [Visit(prefix, f)] else Choices(n, k, prefix, f, n + f + 1)
  }

  /** Visits of the first `c` choices. */
  ghost function Choices(n: nat, k: nat, prefix: seq<nat>, f: nat, c: nat): seq<Visit>
    requires |prefix| < k
    decreases k - |prefix|, 0, c
  {
    if c == 0 then [] else Choices(n, k, prefix, f, c - 1) + Extensions(n, k, prefix + [c - 1], Used(n, f, c - 1))
  }

  /** Fresh variables in use after one more choice. */
  function Used(n: nat, f: nat, choice: nat): nat {
    if choice == n + f then f + 1 else f
  }

  ghost predicate AllAccepted(refused: set<Visit>, vs: seq<Visit>) {
    forall v :: v in vs ==> v !in refused
  }

  /** The visits up to the first refused one. */
  ghost function Heard(refused: set<Visit>, vs: seq<Visit>): seq<Visit> {
    if vs == [] then [] else if vs[0] in refused then [vs[0]] else [vs[0]] + Heard(refused, vs[1..])
  }

  lemma {:induction false} HeardConcat(refused: set<Visit>, a: seq<Visit>, b: seq<Visit>)
    ensures Heard(refused, a + b) == if AllAccepted(refused, a) then a + Heard(refused, b) else Heard(refused, a)
    decreases |a|
  {
    if a == [] {
      assert a + b == b;
    } else {
      HeardConcat(refused, a[1..], b);
      assert (a + b)[0] == a[0] && (a + b)[1..] == a[1..] + b;
      assert forall v :: v in a <==> v == a[0] || v in a[1..];
      assert [a[0]] + (a[1..] + Heard(refused, b)) == a + Heard(refused, b);
    }
  }

  lemma HeardAll(refused: set<Visit>, vs: seq<Visit>)
    requires AllAccepted(refused, vs)
    ensures Heard(refused, vs) == vs
  {
    HeardConcat(refused, vs, []);
    assert vs + [] == vs;
  }

  /** The shared prefix and what the callback was given; the callback may refuse and end the enumeration. */
  class Enumeration {
    const n: nat
    const k: nat
    const refused: set<Visit>
    var prefix: seq<nat>
    var visited: seq<Visit>

    constructor (n: nat, k: nat, refused: set<Visit>)
      ensures this.n == n && this.k == k && this.refused == refused && prefix == [] && visited == []
    {
      this.n, this.k, this.refused, prefix, visited := n, k, refused, [], [];
    }

    method Bindings(fresh_: nat) returns (ok: bool)
      requires |prefix| <= k
      modifies this
      ensures ok <==> AllAccepted(refused, Extensions(n, k, old(prefix), fresh_))
      ensures visited == old(visited) + Heard(refused, Extensions(n, k, old(prefix), fresh_))
      ensures if ok then prefix == old(prefix) else visited != [] && visited[|visited| - 1] in refused && prefix == visited[|visited| - 1].binding
      decreases k - |prefix|
    {
      ghost var start := prefix;
      if |prefix| == k {
        visited := visited + [Visit(prefix, fresh_)];
        return Visit(prefix, fresh_) !in refused;
      }
      for choice := 0 to n + fresh_ + 1
        invariant prefix == start && |start| < k
        invariant visited == old(visited) + Choices(n, k, start, fresh_, choice)
        invariant AllAccepted(refused, Choices(n, k, start, fresh_, choice))
      {
        prefix := prefix + [choice];
        ok := Bindings(fresh_ + if choice == n + fresh_ then 1 else 0);
        AfterChoice(refused, n, k, start, fresh_, choice, old(visited), ok, visited);
        if !ok { return; }
        prefix := prefix[..|prefix| - 1];
        assert prefix == start;
      }
      ok := true;
      HeardAll(refused, Extensions(n, k, start, fresh_));
    }
  }

  /** The choices so far and the next one decide the next prefix of choices; a refusal refuses them all. */
  lemma ChoiceAccepted(refused: set<Visit>, n: nat, k: nat, prefix: seq<nat>, f: nat, c: nat, limit: nat)
    requires |prefix| < k && c < limit && AllAccepted(refused, Choices(n, k, prefix, f, c))
    ensures Choices(n, k, prefix, f, c + 1) == Choices(n, k, prefix, f, c) + Extensions(n, k, prefix + [c], Used(n, f, c))
    ensures AllAccepted(refused, Choices(n, k, prefix, f, c + 1)) <==> AllAccepted(refused, Extensions(n, k, prefix + [c], Used(n, f, c)))
    ensures !AllAccepted(refused, Extensions(n, k, prefix + [c], Used(n, f, c))) ==>
      !AllAccepted(refused, Choices(n, k, prefix, f, limit)) &&
      Heard(refused, Choices(n, k, prefix, f, limit)) ==
        Choices(n, k, prefix, f, c) + Heard(refused, Extensions(n, k, prefix + [c], Used(n, f, c)))
  {
    var done, next := Choices(n, k, prefix, f, c), Extensions(n, k, prefix + [c], Used(n, f, c));
    ChoicesGrow(n, k, prefix, f, c + 1, limit);
    var later := Choices(n, k, prefix, f, limit)[|done + next|..];
    assert Choices(n, k, prefix, f, limit) == (done + next) + later;
    HeardConcat(refused, done + next, later);
    HeardConcat(refused, done, next);
  }

  /** What was heard after the next choice. */
  lemma AfterChoice(refused: set<Visit>, n: nat, k: nat, start: seq<nat>, f: nat, c: nat, before: seq<Visit>, ok: bool, now: seq<Visit>)
    requires |start| < k && c <= n + f && AllAccepted(refused, Choices(n, k, start, f, c))
    requires ok <==> AllAccepted(refused, Extensions(n, k, start + [c], Used(n, f, c)))
    requires now == before + Choices(n, k, start, f, c) + Heard(refused, Extensions(n, k, start + [c], Used(n, f, c)))
    ensures ok ==> now == before + Choices(n, k, start, f, c + 1) && AllAccepted(refused, Choices(n, k, start, f, c + 1))
    ensures !ok ==> now == before + Heard(refused, Extensions(n, k, start, f)) && !AllAccepted(refused, Extensions(n, k, start, f))
  {
    ChoiceAccepted(refused, n, k, start, f, c, n + f + 1);
    if ok { HeardAll(refused, Extensions(n, k, start + [c], Used(n, f, c))); }
  }

  lemma {:induction false} ChoicesGrow(n: nat, k: nat, prefix: seq<nat>, f: nat, c: nat, d: nat)
    requires |prefix| < k && c <= d
    ensures Choices(n, k, prefix, f, c) <= Choices(n, k, prefix, f, d)
    decreases d
  {
    if c < d { ChoicesGrow(n, k, prefix, f, c, d - 1); }
  }

  // ---------- which bindings are visited ----------

  ghost predicate Completes(n: nat, k: nat, prefix: seq<nat>, s: seq<nat>) {
    |s| == k && prefix <= s && forall i {:trigger s[i]} :: |prefix| <= i < |s| ==> s[i] <= n + Fresh(n, s[..i])
  }

  /** The visits below a prefix are its canonical completions with their fresh counts. */
  lemma {:induction false} VisitsAreCompletions(n: nat, k: nat, prefix: seq<nat>, f: nat, v: Visit)
    requires |prefix| <= k && f == Fresh(n, prefix)
    ensures v in Extensions(n, k, prefix, f) <==> Completes(n, k, prefix, v.binding) && v.fresh_ == Fresh(n, v.binding)
    decreases k - |prefix|, 1, 0
  {
    if |prefix| == k {
      if Completes(n, k, prefix, v.binding) { assert v.binding == prefix; }
    } else {
      ChoicesAreCompletions(n, k, prefix, f, n + f + 1, v);
      if Completes(n, k, prefix, v.binding) {
        assert v.binding[..|prefix|] == prefix && v.binding[|prefix|] <= n + Fresh(n, v.binding[..|prefix|]);
      }
    }
  }

  lemma {:induction false} ChoicesAreCompletions(n: nat, k: nat, prefix: seq<nat>, f: nat, c: nat, v: Visit)
    requires |prefix| < k && f == Fresh(n, prefix) && c <= n + f + 1
    ensures v in Choices(n, k, prefix, f, c) <==>
              Completes(n, k, prefix, v.binding) && v.binding[|prefix|] < c && v.fresh_ == Fresh(n, v.binding)
    decreases k - |prefix|, 0, c
  {
    if c > 0 {
      ChoicesAreCompletions(n, k, prefix, f, c - 1, v);
      FreshNext(n, prefix, c - 1);
      VisitsAreCompletions(n, k, prefix + [c - 1], Used(n, f, c - 1), v);
      NextCompletes(n, k, prefix, c - 1, v.binding);
    }
  }

  lemma FreshNext(n: nat, prefix: seq<nat>, x: nat)
    ensures Fresh(n, prefix + [x]) == Used(n, Fresh(n, prefix), x)
  {
    assert (prefix + [x])[..|prefix|] == prefix;
  }

  lemma NextCompletes(n: nat, k: nat, prefix: seq<nat>, x: nat, s: seq<nat>)
    requires |prefix| < k && x <= n + Fresh(n, prefix)
    ensures Completes(n, k, prefix + [x], s) <==> Completes(n, k, prefix, s) && s[|prefix|] == x
  {
    var next := prefix + [x];
    if Completes(n, k, next, s) {
      assert s[..|prefix|] == prefix && s[|prefix|] == next[|prefix|];
    }
    if Completes(n, k, prefix, s) && s[|prefix|] == x {
      assert next == s[..|next|];
    }
  }

  ghost predicate NoRepeat(vs: seq<Visit>) {
    forall i, j :: 0 <= i < j < |vs| ==> vs[i].binding != vs[j].binding
  }

  lemma NoRepeatConcat(xs: seq<Visit>, ys: seq<Visit>)
    requires NoRepeat(xs) && NoRepeat(ys) && forall x, y :: x in xs && y in ys ==> x.binding != y.binding
    ensures NoRepeat(xs + ys)
  {
    var all := xs + ys;
    forall i, j | 0 <= i < j < |all| ensures all[i].binding != all[j].binding {
      if i < |xs| <= j { assert all[i] in xs && all[j] in ys; }
    }
  }

  /** No binding is visited twice. */
  lemma {:induction false} VisitsDiffer(n: nat, k: nat, prefix: seq<nat>, f: nat)
    requires |prefix| <= k
    ensures NoRepeat(Extensions(n, k, prefix, f)) && AllExtend(prefix, Extensions(n, k, prefix, f))
    decreases k - |prefix|, 1, 0
  {
    if |prefix| < k { ChoicesDiffer(n, k, prefix, f, n + f + 1); }
  }

  ghost predicate AllExtend(prefix: seq<nat>, vs: seq<Visit>) {
    forall v :: v in vs ==> prefix <= v.binding
  }

  /** The first choices only. */
  ghost predicate AllBelow(prefix: seq<nat>, c: nat, vs: seq<Visit>) {
    forall v :: v in vs ==> prefix <= v.binding && |v.binding| > |prefix| && v.binding[|prefix|] < c
  }

  lemma {:induction false} ChoicesDiffer(n: nat, k: nat, prefix: seq<nat>, f: nat, c: nat)
    requires |prefix| < k
    ensures NoRepeat(Choices(n, k, prefix, f, c)) && AllBelow(prefix, c, Choices(n, k, prefix, f, c))
    decreases k - |prefix|, 0, c
  {
    if c > 0 {
      ChoicesDiffer(n, k, prefix, f, c - 1);
      VisitsDiffer(n, k, prefix + [c - 1], Used(n, f, c - 1));
      OneMoreChoice(prefix, c - 1, Choices(n, k, prefix, f, c - 1), Extensions(n, k, prefix + [c - 1], Used(n, f, c - 1)));
    }
  }

  lemma OneMoreChoice(prefix: seq<nat>, c: nat, front: seq<Visit>, last: seq<Visit>)
    requires NoRepeat(front) && AllBelow(prefix, c, front) && NoRepeat(last) && AllExtend(prefix + [c], last)
    ensures NoRepeat(front + last) && AllBelow(prefix, c + 1, front + last)
  {
    var next := prefix + [c];
    forall w | w in last ensures prefix <= w.binding && |w.binding| > |prefix| && w.binding[|prefix|] == c {
      assert next <= w.binding && w.binding[|prefix|] == next[|prefix|];
      assert prefix == next[..|prefix|];
    }
    NoRepeatConcat(front, last);
  }

  // ---------- one representative for each class ----------

  /** Every fresh variable below the count occurs. */
  lemma {:induction false} FreshOccur(n: nat, s: seq<nat>, x: nat)
    requires n <= x < n + Fresh(n, s)
    ensures x in s
  {
    var front := s[..|s| - 1];
    if s[|s| - 1] != x { FreshOccur(n, front, x); }
  }

  lemma {:induction false} CanonicalBelow(n: nat, s: seq<nat>, i: nat)
    requires Canonical(n, s) && i < |s|
    ensures s[i] < n + Fresh(n, s)
  {
    var front := s[..|s| - 1];
    assert s[|s| - 1] <= n + Fresh(n, front);
    if i < |front| {
      CanonicalPrefix(n, s);
      CanonicalBelow(n, front, i);
    }
  }

  lemma CanonicalPrefix(n: nat, s: seq<nat>)
    requires Canonical(n, s) && s != []
    ensures Canonical(n, s[..|s| - 1])
  {
    var front := s[..|s| - 1];
    forall i | 0 <= i < |front| ensures front[i] <= n + Fresh(n, front[..i]) {
      assert front[i] == s[i] && front[..i] == s[..i];
    }
  }

  /** Two canonical bindings of one assignment are equal. */
  lemma {:induction false} CanonicalUnique(n: nat, a: seq<nat>, b: seq<nat>)
    requires Canonical(n, a) && Canonical(n, b) && SameAssignment(n, a, b)
    ensures a == b
  {
    if a != [] {
      var last := |a| - 1;
      CanonicalPrefix(n, a);
      CanonicalPrefix(n, b);
      SameFront(n, a, b);
      CanonicalUnique(n, a[..last], b[..last]);
      assert a[last] <= n + Fresh(n, a[..last]) && b[last] <= n + Fresh(n, b[..last]);
      LastSame(n, a, b);
      assert a == a[..last] + [a[last]] && b == b[..last] + [b[last]];
    }
  }

  lemma LastSame(n: nat, a: seq<nat>, b: seq<nat>)
    requires SameAssignment(n, a, b) && a != [] && a[..|a| - 1] == b[..|a| - 1]
    requires a[|a| - 1] <= n + Fresh(n, a[..|a| - 1]) && b[|a| - 1] <= n + Fresh(n, a[..|a| - 1])
    ensures a[|a| - 1] == b[|a| - 1]
  {
    var last, front := |a| - 1, a[..|a| - 1];
    assert PairAt(n, a, b, last, last);
    if n <= a[last] < n + Fresh(n, front) {
      FreshOccur(n, front, a[last]);
      var i: nat :| i < last && front[i] == a[last];
      assert PairAt(n, a, b, i, last) && b[i] == b[..last][i];
    }
    if n <= b[last] < n + Fresh(n, front) {
      FreshOccur(n, front, b[last]);
      var i: nat :| i < last && front[i] == b[last];
      assert PairAt(n, a, b, i, last) && b[i] == b[..last][i];
    }
  }

  /** The canonical form of an assignment. */
  lemma {:induction false} Canonicalise(n: nat, a: seq<nat>) returns (b: seq<nat>)
    ensures Canonical(n, b) && SameAssignment(n, a, b)
  {
    if a == [] { return []; }
    var last := |a| - 1;
    var front := Canonicalise(n, a[..last]);
    var x;
    if a[last] < n {
      x := a[last];
    } else if i: nat :| i < last && a[i] == a[last] {
      x := front[i];
      CanonicalBelow(n, front, i);
      assert PairAt(n, a[..last], front, i, i) && a[..last][i] == a[i];
    } else {
      x := n + Fresh(n, front);
    }
    b := front + [x];
    CanonicalAppend(n, front, x);
    forall i: nat | i < |front| ensures RelatedAt(n, a, front, x, i) && (a[last] < n <==> x < n) {
      LastRelated(n, a, front, x, i);
    }
    SameAppend(n, a, front, x);
  }

  /** The value that keeps the pattern of `a` after `front`. */
  ghost predicate Fitting(n: nat, a: seq<nat>, front: seq<nat>, x: nat)
    requires a != [] && |front| == |a| - 1
  {
    if a[|a| - 1] < n then x == a[|a| - 1]
    else if a[|a| - 1] in a[..|a| - 1] then exists i :: 0 <= i < |front| && a[i] == a[|a| - 1] && front[i] == x
    else x == n + Fresh(n, front)
  }

  lemma CanonicalAppend(n: nat, front: seq<nat>, x: nat)
    requires Canonical(n, front) && x <= n + Fresh(n, front)
    ensures Canonical(n, front + [x])
  {
    var b := front + [x];
    forall i | 0 <= i < |b| ensures b[i] <= n + Fresh(n, b[..i]) {
      if i < |front| { assert b[..i] == front[..i] && b[i] == front[i]; } else { assert b[..i] == front; }
    }
  }

  ghost predicate RelatedAt(n: nat, a: seq<nat>, front: seq<nat>, x: nat, i: nat)
    requires i < |front| == |a| - 1
  {
    && (a[i] < n <==> front[i] < n) && (a[i] < n ==> a[i] == front[i])
    && (a[i] == a[|a| - 1] <==> front[i] == x)
  }

  lemma SameAppend(n: nat, a: seq<nat>, front: seq<nat>, x: nat)
    requires a != [] && SameAssignment(n, a[..|a| - 1], front)
    requires (a[|a| - 1] < n <==> x < n) && (x < n ==> a[|a| - 1] == x)
    requires forall i: nat {:trigger RelatedAt(n, a, front, x, i)} :: i < |front| ==> RelatedAt(n, a, front, x, i)
    ensures SameAssignment(n, a, front + [x])
  {
    var b, last := front + [x], |a| - 1;
    forall i: nat, j: nat | i < |a| && j < |a| ensures PairAt(n, a, b, i, j) {
      if i < last { assert RelatedAt(n, a, front, x, i) && a[..last][i] == a[i]; }
      if j < last { assert RelatedAt(n, a, front, x, j) && a[..last][j] == a[j]; }
      if i < last && j < last { assert PairAt(n, a[..last], front, i, j); }
    }
  }

  lemma LastRelated(n: nat, a: seq<nat>, front: seq<nat>, x: nat, i: nat)
    requires a != [] && Canonical(n, front) && SameAssignment(n, a[..|a| - 1], front) && Fitting(n, a, front, x) && i < |front|
    ensures RelatedAt(n, a, front, x, i) && (a[|a| - 1] < n <==> x < n)
  {
    var last := |a| - 1;
    assert PairAt(n, a[..last], front, i, i) && a[..last][i] == a[i];
    if a[last] >= n {
      if a[last] in a[..last] {
        var j: nat :| j < |front| && a[j] == a[last] && front[j] == x;
        assert PairAt(n, a[..last], front, j, i) && a[..last][j] == a[j];
      } else {
        CanonicalBelow(n, front, i);
        assert a[i] in a[..last];
      }
    }
  }

  /** Visit `i` of the whole enumeration stands for the assignment. */
  ghost predicate MetAt(n: nat, k: nat, a: seq<nat>, i: nat) {
    i < |Extensions(n, k, [], 0)| && SameAssignment(n, a, Extensions(n, k, [], 0)[i].binding)
  }

  /** Every assignment of k parameters is visited once, up to the names of its fresh variables. */
  lemma ExactlyOnce(n: nat, k: nat, a: seq<nat>)
    requires |a| == k
    ensures exists i: nat :: MetAt(n, k, a, i)
    ensures forall i: nat, j: nat :: MetAt(n, k, a, i) && MetAt(n, k, a, j) ==> i == j
  {
    var all := Extensions(n, k, [], 0);
    var b := Canonicalise(n, a);
    VisitsAreCompletions(n, k, [], 0, Visit(b, Fresh(n, b)));
    var m: nat :| m < |all| && all[m] == Visit(b, Fresh(n, b));
    assert MetAt(n, k, a, m);
    VisitsDiffer(n, k, [], 0);
    forall i: nat, j: nat | MetAt(n, k, a, i) && MetAt(n, k, a, j) ensures i == j {
      VisitsAreCompletions(n, k, [], 0, all[i]);
      VisitsAreCompletions(n, k, [], 0, all[j]);
      assert all[i] in all && all[j] in all;
      SameChain(n, a, all[i].binding, all[j].binding);
      CanonicalUnique(n, all[i].binding, all[j].binding);
    }
  }

  lemma SameChain(n: nat, a: seq<nat>, b: seq<nat>, c: seq<nat>)
    requires SameAssignment(n, a, b) && SameAssignment(n, a, c)
    ensures SameAssignment(n, b, c)
  {
    forall i: nat, j: nat | i < |b| && j < |b| ensures PairAt(n, b, c, i, j) {
      assert PairAt(n, a, b, i, j) && PairAt(n, a, c, i, j);
    }
  }

  // ---------- how many ----------

  function Times(c: nat, m: nat): nat {
    if c == 0 then 0 else Times(c - 1, m) + m
  }

  /** Number of visits with `fresh_` variables in use and `r` parameters left. */
  ghost function Count(n: nat, fresh_: nat, r: nat): nat
    decreases r
  {
    if r == 0 then 1 else Times(n + fresh_, Count(n, fresh_, r - 1)) + Count(n, fresh_ + 1, r - 1)
  }

  lemma {:induction false} VisitCount(n: nat, k: nat, prefix: seq<nat>, f: nat)
    requires |prefix| <= k
    ensures |Extensions(n, k, prefix, f)| == Count(n, f, k - |prefix|)
    decreases k - |prefix|, 1, 0
  {
    if |prefix| < k {
      ChoiceCount(n, k, prefix, f, n + f);
      VisitCount(n, k, prefix + [n + f], f + 1);
    }
  }

  lemma {:induction false} ChoiceCount(n: nat, k: nat, prefix: seq<nat>, f: nat, c: nat)
    requires |prefix| < k && c <= n + f
    ensures |Choices(n, k, prefix, f, c)| == Times(c, Count(n, f, k - |prefix| - 1))
    decreases k - |prefix|, 0, c
  {
    if c > 0 {
      ChoiceCount(n, k, prefix, f, c - 1);
      VisitCount(n, k, prefix + [c - 1], f);
    }
  }
}
