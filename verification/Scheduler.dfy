/**
 * The job scheduler of src/native_saturated_rule_composition_pipeline.rs.
 *
 * Entries are registered as jobs; equivalent ones become aliases, children of
 * recorded parents wait for them, the others run in fair sweeps. The sessions
 * are environment: each has some number of sweeps and some end, cold or grafted.
 *
 * `Accounted` is what every step keeps: each unfinished job is in exactly one of
 * the pending list, the live work and the aliases. `ChainEnds` says that waiting
 * never goes in circles, and `Drain` that the loop over `HasWork` ends with
 * every job finished.
 */
module Scheduler {
  import opened Wrappers

  datatype State = Running | WaitingEquivalent | WaitingParent | Saturated | ObservedUnfinished | Rejected

  datatype Job = Job(state: State, entry: Option<string>, equivalentTo: Option<nat>, waitingFor: Option<nat>)

  /** How a session ends. */
  datatype Fate = Completes(certified: bool) | Stops | Fails

  /** What starting a session for an entry does. */
  datatype Life = Refused | Lives(shared: bool, sweeps: nat, fate: Fate)

  datatype Session = Session(shared: bool, base: Option<nat>, sweeps: nat, fate: Fate, ended: bool)
  datatype Work = Work(id: nat, session: Session)
  datatype Pending = Pending(id: nat, key: string, parent: Option<nat>, cold: Life, grafted: Life)

  /** A possible parent unit: how many stages a graft would skip, if one can be planned. */
  datatype Offer = Offer(unit: nat, plan: Option<nat>)
  datatype Discovery = Discovery(unit: nat, prepares: bool, key: string, offers: seq<Offer>, cold: Life, grafted: Life)

  datatype Sched = Sched(jobs: seq<Job>, work: seq<Work>, workIndex: map<nat, nat>, pending: seq<Pending>,
                         owners: map<string, nat>, aliases: map<nat, nat>, unitJobs: map<nat, nat>)

  predicate Unfinished(st: State) {
    st == Running || st == WaitingEquivalent || st == WaitingParent
  }

  function Verdict(fate: Fate): State {
    match fate
    case Completes(_) => Saturated
    case Stops => ObservedUnfinished
    case Fails => Rejected
  }

  // ---------- single steps on values ----------

  function WithState(s: Sched, id: nat, st: State): Sched
    requires id < |s.jobs|
  {
    s.(jobs := s.jobs[id := s.jobs[id].(state := st)])
  }

  function Alias(s: Sched, id: nat, owner: nat): Sched
    requires id < |s.jobs|
  {
    s.(aliases := s.aliases[id := owner], jobs := s.jobs[id := s.jobs[id].(state := WaitingEquivalent, equivalentTo := Some(owner))])
  }

  /** The job registered for the unit, if its entry was written and a graft can be planned. */
  predicate Eligible(s: Sched, o: Offer) {
    && o.plan.Some? && o.unit in s.unitJobs && s.unitJobs[o.unit] < |s.jobs| && s.jobs[s.unitJobs[o.unit]].entry.Some?
  }

  function Register(s: Sched, d: Discovery, parent: Option<nat>): Sched {
    var id := |s.jobs|;
    if !d.prepares then s.(jobs := s.jobs + [Job(Rejected, None, None, None)], unitJobs := s.unitJobs[d.unit := id])
    else
      var t := s.(jobs := s.jobs + [Job(Running, Some(d.key), None, None)], unitJobs := s.unitJobs[d.unit := id]);
      if d.key in s.owners then Alias(t, id, s.owners[d.key])
      else t.(pending := s.pending + [Pending(id, d.key, parent, d.cold, d.grafted)])
  }

  /** The job that does the work of `p`. */
  function Resolve(s: Sched, p: nat): nat {
    if p in s.aliases then s.aliases[p] else p
  }

  predicate Certified(s: Sched, p: nat) {
    && p < |s.jobs| && s.jobs[p].state == Saturated && p in s.workIndex && s.workIndex[p] < |s.work|
    && s.work[s.workIndex[p]].session.ended && s.work[s.workIndex[p]].session.fate == Completes(true)
  }

  predicate Blocked(s: Sched, p: Pending) {
    p.parent.Some? && Resolve(s, p.parent.value) < |s.jobs| && Unfinished(s.jobs[Resolve(s, p.parent.value)].state)
  }

  function Base(s: Sched, p: Pending): Option<nat> {
    if p.parent.Some? && Certified(s, Resolve(s, p.parent.value)) then Some(Resolve(s, p.parent.value)) else None
  }

  function Start(s: Sched, p: Pending): Sched
    requires p.id < |s.jobs|
  {
    var base := Base(s, p);
    match if base.Some? then p.grafted else p.cold
    case Refused => s.(jobs := s.jobs[p.id := s.jobs[p.id].(state := Rejected, waitingFor := None)])
    case Lives(shared, sweeps, fate) =>
      s.(jobs := s.jobs[p.id := s.jobs[p.id].(state := Running, waitingFor := None)],
         owners := if shared then s.owners[p.key := p.id] else s.owners,
         workIndex := s.workIndex[p.id := |s.work|],
         work := s.work + [Work(p.id, Session(shared, base, sweeps, fate, false))])
  }

  /** One pending entry is aliased, kept waiting, or started. */
  function Place(s: Sched, p: Pending): Sched
    requires p.id < |s.jobs|
  {
    if p.key in s.owners then Alias(s, p.id, s.owners[p.key])
    else if Blocked(s, p) then
      s.(pending := s.pending + [p],
         jobs := s.jobs[p.id := s.jobs[p.id].(state := WaitingParent, waitingFor := Some(Resolve(s, p.parent.value)))])
    else Start(s, p)
  }

  /** One sweep of one session. */
  function Swept(session: Session): Session {
    if session.sweeps > 0 then session.(sweeps := session.sweeps - 1) else session.(ended := true)
  }

  function Advance(s: Sched, k: nat): Sched
    requires k < |s.work| && s.work[k].id < |s.jobs|
  {
    var w := s.work[k];
    if s.jobs[w.id].state != Running then s
    else
      var session := Swept(w.session);
      var t := s.(work := s.work[k := w.(session := session)]);
      if session.ended then WithState(t, w.id, Verdict(session.fate)) else t
  }

  // ---------- what every step keeps ----------

  ghost predicate Listed(all: seq<Pending>, i: nat) {
    exists k :: 0 <= k < |all| && all[k].id == i
  }

  ghost predicate WorkFits(s: Sched, k: nat)
    requires k < |s.work|
  {
    var w := s.work[k];
    && w.id < |s.jobs| && w.id in s.workIndex && s.workIndex[w.id] == k && s.jobs[w.id].entry.Some?
    && s.jobs[w.id].state == (if w.session.ended then Verdict(w.session.fate) else Running)
    && (w.session.base.Some? ==> Certified(s, w.session.base.value) && s.workIndex[w.session.base.value] < k)
  }

  ghost predicate IndexFits(s: Sched, i: nat) {
    i in s.workIndex ==> i < |s.jobs| && s.workIndex[i] < |s.work| && s.work[s.workIndex[i]].id == i
  }

  ghost predicate PendingFits(s: Sched, p: Pending) {
    && p.id < |s.jobs| && p.id !in s.workIndex && p.id !in s.aliases && s.jobs[p.id].entry == Some(p.key)
    && (s.jobs[p.id].state == Running || s.jobs[p.id].state == WaitingParent) && (p.parent.Some? ==> p.parent.value < p.id)
  }

  ghost predicate AliasFits(s: Sched, i: nat) {
    i in s.aliases ==>
      && var owner := s.aliases[i];
      && i < |s.jobs| && owner < |s.jobs| && i !in s.workIndex && owner in s.workIndex
      && s.jobs[i].entry == s.jobs[owner].entry && s.jobs[i].equivalentTo == Some(owner)
      && (s.jobs[i].state == WaitingEquivalent || (s.jobs[i].state == s.jobs[owner].state && !Unfinished(s.jobs[i].state)))
  }

  ghost predicate OwnerFits(s: Sched, key: string) {
    key in s.owners ==> s.owners[key] in s.workIndex && s.owners[key] < |s.jobs| && s.jobs[s.owners[key]].entry == Some(key)
  }

  /** An unfinished job has a place. */
  ghost predicate Accounted(s: Sched, all: seq<Pending>, i: nat)
    requires i < |s.jobs|
  {
    Unfinished(s.jobs[i].state) ==> i in s.workIndex || i in s.aliases || Listed(all, i)
  }

  predicate Ascending(all: seq<Pending>) {
    forall k, l :: 0 <= k < l < |all| ==> all[k].id < all[l].id
  }

  ghost predicate Well(s: Sched, all: seq<Pending>) {
    && (forall k: nat {:trigger WorkFits(s, k)} :: k < |s.work| ==> WorkFits(s, k))
    && (forall i: nat {:trigger IndexFits(s, i)} :: IndexFits(s, i))
    && (forall p {:trigger PendingFits(s, p)} :: p in all ==> PendingFits(s, p)) && Ascending(all)
    && (forall i: nat {:trigger AliasFits(s, i)} :: AliasFits(s, i))
    && (forall key {:trigger OwnerFits(s, key)} :: OwnerFits(s, key))
    && forall i: nat {:trigger Accounted(s, all, i)} :: i < |s.jobs| ==> Accounted(s, all, i)
  }

  /** A pending entry waits for an earlier job that is no alias. */
  ghost predicate Waits(s: Sched, p: Pending) {
    && p.id < |s.jobs| && s.jobs[p.id].state == WaitingParent && p.parent.Some?
    && s.jobs[p.id].waitingFor == Some(Resolve(s, p.parent.value))
  }

  /** After activation every pending entry waits. */
  ghost predicate Settled(s: Sched) {
    forall p {:trigger Waits(s, p)} :: p in s.pending ==> Waits(s, p)
  }

  /** After sharing, aliases wait only for running owners. */
  ghost predicate Shared(s: Sched) {
    forall i: nat {:trigger i in s.aliases} :: i in s.aliases && i < |s.jobs| && s.jobs[i].state == WaitingEquivalent ==>
      s.aliases[i] < |s.jobs| && s.jobs[s.aliases[i]].state == Running
  }

  ghost predicate Valid(s: Sched) {
    Well(s, s.pending) && Settled(s) && Shared(s)
  }

  /** Finished jobs stay as they ended; entries and live sessions are never lost. */
  ghost predicate Continues(s: Sched, t: Sched) {
    && |s.jobs| <= |t.jobs| && |s.work| <= |t.work|
    && (forall i: nat {:trigger s.jobs[i]} :: i < |s.jobs| ==>
          t.jobs[i].entry == s.jobs[i].entry && (!Unfinished(s.jobs[i].state) ==> t.jobs[i].state == s.jobs[i].state))
    && forall k: nat {:trigger s.work[k]} :: k < |s.work| ==> t.work[k].id == s.work[k].id
  }

  // ---------- consequences ----------

  /** An unfinished job is in exactly one of the live work, the aliases and the pending list. */
  lemma ExactlyOnePlace(s: Sched, i: nat)
    requires Well(s, s.pending) && i < |s.jobs|
    ensures i in s.workIndex ==> i !in s.aliases && !Listed(s.pending, i)
    ensures i in s.aliases ==> !Listed(s.pending, i)
    ensures Unfinished(s.jobs[i].state) ==> i in s.workIndex || i in s.aliases || Listed(s.pending, i)
    ensures Listed(s.pending, i) ==> Unfinished(s.jobs[i].state)
  {
    assert Accounted(s, s.pending, i) && AliasFits(s, i) && IndexFits(s, i);
    if Listed(s.pending, i) {
      var k :| 0 <= k < |s.pending| && s.pending[k].id == i;
      assert s.pending[k] in s.pending;
      assert PendingFits(s, s.pending[k]);
    }
  }

  /**
   * Where the waiting of job `i` ends. A later job is waited for only as the owner of an aliased parent,
   * and owners have live work.
   */
  function Root(s: Sched, i: nat): nat
    requires i < |s.jobs|
    decreases i
  {
    match s.jobs[i].waitingFor
    case Some(q) => if s.jobs[i].state != WaitingParent then i else if q < i then Root(s, q) else q
    case None => i
  }

  /** Waiting never goes in circles: it ends at a job with live work or at a finished one. */
  lemma {:induction false} ChainEnds(s: Sched, i: nat)
    requires Valid(s) && i < |s.jobs| && i !in s.aliases
    ensures var r := Root(s, i); r < |s.jobs| && r !in s.aliases && (Unfinished(s.jobs[r].state) ==> s.jobs[r].state == Running && r in s.workIndex)
    decreases i
  {
    ExactlyOnePlace(s, i);
    if Listed(s.pending, i) {
      var k :| 0 <= k < |s.pending| && s.pending[k].id == i;
      var p := s.pending[k];
      assert p in s.pending && Waits(s, p) && PendingFits(s, p);
      var q := Resolve(s, p.parent.value);
      assert AliasFits(s, p.parent.value);
      assert AliasFits(s, q);
      if q < i {
        ChainEnds(s, q);
      } else {
        assert IndexFits(s, q);
        assert WorkFits(s, s.workIndex[q]);
      }
    } else if i in s.workIndex {
      assert IndexFits(s, i);
      assert WorkFits(s, s.workIndex[i]);
    }
  }

  // ---------- every micro-step keeps it ----------

  lemma RegisterKeeps(s: Sched, d: Discovery, parent: Option<nat>)
    requires Well(s, s.pending) && (parent.Some? ==> parent.value < |s.jobs|)
    ensures Well(Register(s, d, parent), Register(s, d, parent).pending)
  {
    var id, t := |s.jobs|, Register(s, d, parent);
    assert IndexFits(s, id) && AliasFits(s, id) && OwnerFits(s, d.key);
    forall k: nat | k < |t.work| ensures WorkFits(t, k) { assert WorkFits(s, k); }
    forall i: nat ensures IndexFits(t, i) { assert IndexFits(s, i); }
    forall i: nat ensures AliasFits(t, i) { assert AliasFits(s, i); }
    forall key ensures OwnerFits(t, key) { assert OwnerFits(s, key); }
    RegisterListed(s, d, parent);
  }

  lemma RegisterContinues(s: Sched, d: Discovery, parent: Option<nat>)
    ensures Continues(s, Register(s, d, parent)) && |Register(s, d, parent).jobs| == |s.jobs| + 1
  {
    assert forall i: nat :: i < |s.jobs| ==> Register(s, d, parent).jobs[i] == s.jobs[i];
  }

  lemma RegisterListed(s: Sched, d: Discovery, parent: Option<nat>)
    requires Well(s, s.pending) && (parent.Some? ==> parent.value < |s.jobs|)
    ensures var t := Register(s, d, parent);
            && (forall p :: p in t.pending ==> PendingFits(t, p)) && Ascending(t.pending)
            && forall i: nat :: i < |t.jobs| ==> Accounted(t, t.pending, i)
  {
    var id, t := |s.jobs|, Register(s, d, parent);
    var all := t.pending;
    assert IndexFits(s, id) && AliasFits(s, id);
    forall p | p in all ensures PendingFits(t, p) { if p in s.pending { assert PendingFits(s, p); } }
    forall i: nat | i < |t.jobs| ensures Accounted(t, all, i) {
      if i < id {
        assert Accounted(s, s.pending, i);
        if Listed(s.pending, i) { ListedPrefix(s.pending, all, i); }
      } else if |all| > |s.pending| {
        assert all[|s.pending|].id == i;
      }
    }
    forall k | 0 <= k < |s.pending| ensures s.pending[k].id < id {
      assert s.pending[k] in s.pending;
      assert PendingFits(s, s.pending[k]);
    }
  }

  lemma ListedPrefix(some: seq<Pending>, all: seq<Pending>, i: nat)
    requires some <= all && Listed(some, i)
    ensures Listed(all, i)
  {
    var k :| 0 <= k < |some| && some[k].id == i;
    assert all[k].id == i;
  }

  /** Taking out one pending entry. */
  lemma WithoutOne(kept: seq<Pending>, p: Pending, rest: seq<Pending>)
    requires Ascending(kept + [p] + rest)
    ensures Ascending(kept + rest)
    ensures forall q :: q in kept + rest ==> q in kept + [p] + rest && q.id != p.id
  {
    var all, less := kept + [p] + rest, kept + rest;
    assert forall k :: 0 <= k < |less| ==> less[k] == all[if k < |kept| then k else k + 1];
    assert all[|kept|] == p;
  }

  lemma ListedWithoutOne(kept: seq<Pending>, p: Pending, rest: seq<Pending>, i: nat)
    requires Listed(kept + [p] + rest, i) && i != p.id
    ensures Listed(kept + rest, i)
  {
    var all, less := kept + [p] + rest, kept + rest;
    var k :| 0 <= k < |all| && all[k].id == i;
    assert less[if k < |kept| then k else k - 1].id == i;
  }

  ghost predicate Placing(s: Sched, p: Pending, rest: seq<Pending>) {
    Well(s, s.pending + [p] + rest) && PendingFits(s, p)
  }

  lemma AliasPlaced(s: Sched, p: Pending, rest: seq<Pending>)
    requires Placing(s, p, rest) && p.key in s.owners
    ensures Well(Alias(s, p.id, s.owners[p.key]), s.pending + rest)
  {
    var t, all, less := Alias(s, p.id, s.owners[p.key]), s.pending + [p] + rest, s.pending + rest;
    WithoutOne(s.pending, p, rest);
    assert OwnerFits(s, p.key) && AliasFits(s, p.id);
    forall k: nat | k < |t.work| ensures WorkFits(t, k) { assert WorkFits(s, k); }
    forall i: nat ensures IndexFits(t, i) { assert IndexFits(s, i); }
    forall q | q in less ensures PendingFits(t, q) { assert PendingFits(s, q); }
    forall i: nat ensures AliasFits(t, i) { assert AliasFits(s, i); }
    forall key ensures OwnerFits(t, key) { assert OwnerFits(s, key); }
    forall i: nat | i < |t.jobs| ensures Accounted(t, less, i) {
      assert Accounted(s, all, i);
      if i != p.id && Listed(all, i) { ListedWithoutOne(s.pending, p, rest, i); }
    }
  }

  lemma WaitPlaced(s: Sched, p: Pending, rest: seq<Pending>, q: nat)
    requires Placing(s, p, rest)
    ensures Well(s.(pending := s.pending + [p], jobs := s.jobs[p.id := s.jobs[p.id].(state := WaitingParent, waitingFor := Some(q))]),
                 s.pending + [p] + rest)
  {
    var t, all := s.(pending := s.pending + [p], jobs := s.jobs[p.id := s.jobs[p.id].(state := WaitingParent, waitingFor := Some(q))]),
                  s.pending + [p] + rest;
    forall k: nat | k < |t.work| ensures WorkFits(t, k) { assert WorkFits(s, k); }
    forall i: nat ensures IndexFits(t, i) { assert IndexFits(s, i); }
    forall r | r in all ensures PendingFits(t, r) { assert PendingFits(s, r); }
    forall i: nat ensures AliasFits(t, i) { assert AliasFits(s, i); }
    forall key ensures OwnerFits(t, key) { assert OwnerFits(s, key); }
    forall i: nat | i < |t.jobs| ensures Accounted(t, all, i) {
      assert Accounted(s, all, i);
      if i == p.id { assert all[|s.pending|].id == i; }
    }
  }

  lemma StartWork(s: Sched, p: Pending, k: nat)
    requires PendingFits(s, p) && k < |Start(s, p).work| && (k < |s.work| ==> WorkFits(s, k))
    ensures WorkFits(Start(s, p), k)
  {
  }

  lemma StartPlaced(s: Sched, p: Pending, rest: seq<Pending>)
    requires Placing(s, p, rest)
    ensures Well(Start(s, p), s.pending + rest)
  {
    var t, all, less := Start(s, p), s.pending + [p] + rest, s.pending + rest;
    WithoutOne(s.pending, p, rest);
    forall k: nat | k < |t.work| ensures WorkFits(t, k) { StartWork(s, p, k); }
    forall i: nat ensures IndexFits(t, i) { assert IndexFits(s, i); }
    forall q | q in less ensures PendingFits(t, q) { assert PendingFits(s, q); }
    forall i: nat ensures AliasFits(t, i) { assert AliasFits(s, i); }
    forall key ensures OwnerFits(t, key) { assert OwnerFits(s, key); }
    forall i: nat | i < |t.jobs| ensures Accounted(t, less, i) {
      assert Accounted(s, all, i);
      if i != p.id && Listed(all, i) { ListedWithoutOne(s.pending, p, rest, i); }
    }
  }

  /** Placing an entry keeps its place or gives it another. */
  lemma PlaceKeeps(s: Sched, p: Pending, rest: seq<Pending>)
    requires Placing(s, p, rest)
    ensures Well(Place(s, p), Place(s, p).pending + rest)
  {
    if p.key in s.owners {
      AliasPlaced(s, p, rest);
    } else if Blocked(s, p) {
      WaitPlaced(s, p, rest, Resolve(s, p.parent.value));
    } else {
      StartPlaced(s, p, rest);
    }
  }

  lemma PlaceContinues(s: Sched, p: Pending)
    requires PendingFits(s, p)
    ensures Continues(s, Place(s, p)) && |Place(s, p).jobs| == |s.jobs|
  {
  }

  lemma PlaceWaits(s: Sched, p: Pending, q: Pending)
    requires PendingFits(s, p) && PendingFits(s, q) && q.id < p.id && Waits(s, q)
    ensures Waits(Place(s, p), q)
  {
  }

  lemma PlaceSettled(s: Sched, p: Pending, rest: seq<Pending>)
    requires Placing(s, p, rest) && Settled(s)
    ensures Settled(Place(s, p))
  {
    var t, all := Place(s, p), s.pending + [p] + rest;
    forall q | q in t.pending ensures Waits(t, q) {
      if q in s.pending {
        var k :| 0 <= k < |s.pending| && s.pending[k] == q;
        assert all[k] == q && all[|s.pending|] == p;
        assert q in all && PendingFits(s, q);
        PlaceWaits(s, p, q);
      }
    }
  }

  /** A certified job is not running, so no sweep touches it. */
  lemma AdvanceCertified(s: Sched, k: nat, base: nat)
    requires k < |s.work| && WorkFits(s, k) && Certified(s, base) && IndexFits(s, base)
    ensures Certified(Advance(s, k), base)
  {
  }

  lemma AdvanceWork(s: Sched, k: nat, j: nat)
    requires k < |s.work| && WorkFits(s, k) && j < |s.work| && WorkFits(s, j)
    requires s.work[j].session.base.Some? ==> Certified(Advance(s, k), s.work[j].session.base.value)
    ensures WorkFits(Advance(s, k), j)
  {
  }

  lemma AdvanceKeeps(s: Sched, all: seq<Pending>, k: nat)
    requires Well(s, all) && k < |s.work| && s.work[k].id < |s.jobs|
    ensures Well(Advance(s, k), all)
  {
    var t := Advance(s, k);
    assert WorkFits(s, k);
    forall j: nat | j < |t.work| ensures WorkFits(t, j) {
      assert WorkFits(s, j);
      if s.work[j].session.base.Some? {
        assert IndexFits(s, s.work[j].session.base.value);
        AdvanceCertified(s, k, s.work[j].session.base.value);
      }
      AdvanceWork(s, k, j);
    }
    forall i: nat ensures IndexFits(t, i) { assert IndexFits(s, i); }
    forall p | p in all ensures PendingFits(t, p) { assert PendingFits(s, p); }
    forall i: nat ensures AliasFits(t, i) { assert AliasFits(s, i); }
    forall key ensures OwnerFits(t, key) { assert OwnerFits(s, key); }
    forall i: nat | i < |t.jobs| ensures Accounted(t, all, i) { assert Accounted(s, all, i); }
  }

  // ---------- progress ----------

  function Span(life: Life): nat {
    match life case Refused => 0 case Lives(_, sweeps, _) => sweeps + 1
  }

  function WorkLoad(work: seq<Work>): nat {
    if work == [] then 0
    else
      var w := work[|work| - 1].session;
      WorkLoad(work[..|work| - 1]) + if w.ended then 0 else w.sweeps + 1
  }

  /** A pending entry costs its activation and its longer life. */
  function PendingLoad(all: seq<Pending>): nat {
    if all == [] then 0
    else
      var p := all[|all| - 1];
      PendingLoad(all[..|all| - 1]) + 1 + if Span(p.cold) > Span(p.grafted) then Span(p.cold) else Span(p.grafted)
  }

  function Load(s: Sched, all: seq<Pending>): nat {
    WorkLoad(s.work) + PendingLoad(all)
  }

  lemma {:induction false} PendingLoadSplit(a: seq<Pending>, b: seq<Pending>)
    ensures PendingLoad(a + b) == PendingLoad(a) + PendingLoad(b)
  {
    if b == [] {
      assert a + b == a;
    } else {
      var n := |b| - 1;
      assert (a + b)[..|a + b| - 1] == a + b[..n] && (a + b)[|a + b| - 1] == b[n];
      PendingLoadSplit(a, b[..n]);
    }
  }

  lemma {:induction false} WorkLoadAt(work: seq<Work>, k: nat, w: Work)
    requires k < |work| && !work[k].session.ended
    requires w.session == Swept(work[k].session)
    ensures WorkLoad(work[k := w]) < WorkLoad(work)
  {
    var n := |work| - 1;
    if k == n {
      assert work[k := w][..n] == work[..n];
    } else {
      WorkLoadAt(work[..n], k, w);
      assert work[k := w][..n] == work[..n][k := w];
    }
  }

  lemma PendingLoadOne(a: seq<Pending>, p: Pending, b: seq<Pending>)
    ensures PendingLoad(a + [p] + b) == PendingLoad(a + b) + PendingLoad([p])
    ensures PendingLoad([p]) > Span(p.cold) && PendingLoad([p]) > Span(p.grafted)
  {
    PendingLoadSplit(a + [p], b);
    PendingLoadSplit(a, [p]);
    PendingLoadSplit(a, b);
    assert [p][..0] == [];
  }

  lemma StartLoad(s: Sched, p: Pending)
    requires p.id < |s.jobs|
    ensures WorkLoad(Start(s, p).work) < WorkLoad(s.work) + PendingLoad([p])
  {
    var t := Start(s, p);
    PendingLoadOne([], p, []);
    if |t.work| > |s.work| { assert t.work[..|s.work|] == s.work; }
  }

  /** Activation never adds load, and takes some off for every entry that stops waiting. */
  lemma PlaceLoad(s: Sched, p: Pending, rest: seq<Pending>)
    requires p.id < |s.jobs|
    ensures Load(Place(s, p), Place(s, p).pending + rest) <= Load(s, s.pending + [p] + rest)
    ensures p.key in s.owners || !Blocked(s, p) ==>
      Load(Place(s, p), Place(s, p).pending + rest) < Load(s, s.pending + [p] + rest)
  {
    PendingLoadOne(s.pending, p, rest);
    if p.key !in s.owners && !Blocked(s, p) { StartLoad(s, p); }
  }

  lemma AdvanceLoad(s: Sched, all: seq<Pending>, k: nat)
    requires k < |s.work| && WorkFits(s, k)
    ensures Load(Advance(s, k), all) <= Load(s, all)
    ensures s.jobs[s.work[k].id].state == Running ==> Load(Advance(s, k), all) < Load(s, all)
  {
    if s.jobs[s.work[k].id].state == Running {
      WorkLoadAt(s.work, k, s.work[k].(session := Swept(s.work[k].session)));
    }
  }

  // ---------- whole phases ----------

  /** The first offer that skips most stages. */
  function Best(s: Sched, offers: seq<Offer>): (r: Option<Offer>)
    ensures r.Some? ==> Eligible(s, r.value)
  {
    if offers == [] then None
    else
      var o, best := offers[|offers| - 1], Best(s, offers[..|offers| - 1]);
      if Eligible(s, o) && (best.None? || o.plan.value > best.value.plan.value) then Some(o) else best
  }

  predicate FirstBest(s: Sched, offers: seq<Offer>, k: nat) {
    && k < |offers| && Eligible(s, offers[k])
    && forall l :: 0 <= l < |offers| && Eligible(s, offers[l]) ==>
         offers[l].plan.value <= offers[k].plan.value && (l < k ==> offers[l].plan.value < offers[k].plan.value)
  }

  lemma {:induction false} BestIsFirstBest(s: Sched, offers: seq<Offer>)
    ensures Best(s, offers).None? <==> forall o :: o in offers ==> !Eligible(s, o)
    ensures Best(s, offers).Some? ==> exists k: nat :: FirstBest(s, offers, k) && offers[k] == Best(s, offers).value
  {
    if offers != [] {
      var n := |offers| - 1;
      var front := offers[..n];
      BestIsFirstBest(s, front);
      assert forall o :: o in offers <==> o in front || o == offers[n];
      assert forall l :: 0 <= l < n ==> offers[l] == front[l] && front[l] in front;
      if Best(s, front).Some? {
        var k: nat :| FirstBest(s, front, k) && front[k] == Best(s, front).value;
        assert FirstBest(s, offers, if Best(s, offers) == Best(s, front) then k else n);
      } else if Eligible(s, offers[n]) {
        assert FirstBest(s, offers, n);
      }
    }
  }

  function ParentFor(s: Sched, reuse: bool, d: Discovery): (r: Option<nat>)
    ensures r.Some? ==> r.value < |s.jobs|
  {
    if !reuse then None else match Best(s, d.offers) case None => None case Some(o) => Some(s.unitJobs[o.unit])
  }

  function RegisterAll(s: Sched, reuse: bool, ds: seq<Discovery>): Sched {
    if ds == [] then s
    else
      var t := RegisterAll(s, reuse, ds[..|ds| - 1]);
      Register(t, ds[|ds| - 1], ParentFor(t, reuse, ds[|ds| - 1]))
  }

  ghost predicate InRange(s: Sched, queue: seq<Pending>) {
    forall p :: p in queue ==> p.id < |s.jobs|
  }

  function PlaceAll(s: Sched, queue: seq<Pending>): (t: Sched)
    requires InRange(s, queue)
    decreases |queue|
  {
    if queue == [] then s
    else
      assert queue[0] in queue && forall p :: p in queue[1..] ==> p in queue;
      PlaceAll(Place(s, queue[0]), queue[1..])
  }

  function Activated(s: Sched): Sched
    requires InRange(s, s.pending)
  {
    PlaceAll(s.(pending := []), s.pending)
  }

  ghost predicate WorkInRange(s: Sched) {
    forall k :: 0 <= k < |s.work| ==> s.work[k].id < |s.jobs|
  }

  /** One sweep of every live session from position `k`. */
  function AdvanceAll(s: Sched, k: nat): Sched
    requires WorkInRange(s) && k <= |s.work|
    decreases |s.work| - k
  {
    if k == |s.work| then s else AdvanceAll(Advance(s, k), k + 1)
  }

  /** An alias takes over the end of its owner. */
  function SharedJob(s: Sched, i: nat): Job
    requires i < |s.jobs|
  {
    if i in s.aliases && s.aliases[i] < |s.jobs| && s.jobs[i].state == WaitingEquivalent && !Unfinished(s.jobs[s.aliases[i]].state)
    then s.jobs[i].(state := s.jobs[s.aliases[i]].state) else s.jobs[i]
  }

  function ShareAll(s: Sched): Sched {
    s.(jobs := seq(|s.jobs|, i requires 0 <= i < |s.jobs| => SharedJob(s, i)))
  }

  // ---------- a whole step ----------

  lemma ContinuesOn(s: Sched, t: Sched, u: Sched)
    requires Continues(s, t) && Continues(t, u)
    ensures Continues(s, u)
  {
    forall i: nat | i < |s.jobs|
      ensures u.jobs[i].entry == s.jobs[i].entry && (!Unfinished(s.jobs[i].state) ==> u.jobs[i].state == s.jobs[i].state)
    {
      assert t.jobs[i].entry == s.jobs[i].entry;
    }
    forall k: nat | k < |s.work| ensures u.work[k].id == s.work[k].id { assert t.work[k].id == s.work[k].id; }
  }

  ghost predicate Known(s: Sched) {
    forall u :: u in s.unitJobs ==> s.unitJobs[u] < |s.jobs|
  }

  /** All pending entries wait for an unfinished job. */
  ghost predicate Held(s: Sched) {
    Settled(s) && forall p {:trigger Blocked(s, p)} :: p in s.pending ==> Blocked(s, p)
  }

  predicate HasWorkIn(s: Sched) {
    exists i :: 0 <= i < |s.jobs| && Unfinished(s.jobs[i].state)
  }

  predicate Final(st: State) {
    st == Saturated || st == ObservedUnfinished || st == Rejected
  }

  lemma {:induction false} RegisterAllKeeps(s: Sched, reuse: bool, ds: seq<Discovery>)
    requires Well(s, s.pending)
    ensures var t := RegisterAll(s, reuse, ds);
            Well(t, t.pending) && Continues(s, t) && |t.jobs| == |s.jobs| + |ds| && t.work == s.work
  {
    if ds != [] {
      var n := |ds| - 1;
      var t := RegisterAll(s, reuse, ds[..n]);
      RegisterAllKeeps(s, reuse, ds[..n]);
      var parent := ParentFor(t, reuse, ds[n]);
      RegisterKeeps(t, ds[n], parent);
      RegisterContinues(t, ds[n], parent);
      ContinuesOn(s, t, Register(t, ds[n], parent));
    }
  }

  /** Between the phases of activation. */
  ghost predicate Activating(s: Sched, queue: seq<Pending>) {
    Well(s, s.pending + queue) && Held(s)
  }

  lemma WaitingBefore(s: Sched, p: Pending, rest: seq<Pending>, q: Pending)
    requires Well(s, s.pending + [p] + rest) && q in s.pending
    ensures PendingFits(s, q) && PendingFits(s, p) && q.id < p.id
  {
    var all := s.pending + [p] + rest;
    var k :| 0 <= k < |s.pending| && s.pending[k] == q;
    assert all[k] == q && all[|s.pending|] == p;
    assert q in all && p in all;
  }

  lemma PlaceHeld(s: Sched, p: Pending, rest: seq<Pending>)
    requires Placing(s, p, rest) && Held(s)
    ensures Held(Place(s, p))
  {
    var t := Place(s, p);
    PlaceSettled(s, p, rest);
    forall q | q in t.pending ensures Blocked(t, q) {
      if q in s.pending {
        WaitingBefore(s, p, rest, q);
        assert Blocked(s, q) && AliasFits(s, q.parent.value);
        assert AliasFits(s, Resolve(s, q.parent.value));
      } else {
        assert q == p;
        assert AliasFits(s, q.parent.value);
      }
    }
  }

  lemma {:induction false} PlaceAllKeeps(s: Sched, queue: seq<Pending>)
    requires InRange(s, queue) && Activating(s, queue)
    ensures var t := PlaceAll(s, queue); Activating(t, []) && Continues(s, t) && |t.jobs| == |s.jobs|
    decreases |queue|
  {
    if queue == [] {
      assert s.pending + [] == s.pending;
    } else {
      var p, rest := queue[0], queue[1..];
      assert s.pending + [p] + rest == s.pending + queue;
      assert p in s.pending + queue && forall q :: q in rest ==> q in queue;
      PlaceKeeps(s, p, rest);
      PlaceHeld(s, p, rest);
      PlaceContinues(s, p);
      PlaceAllKeeps(Place(s, p), rest);
      ContinuesOn(s, Place(s, p), PlaceAll(s, queue));
    }
  }

  /** Nothing moved: every entry still waits, and some job is unfinished. */
  ghost predicate Stuck(s: Sched) {
    Shared(s) && HasWorkIn(s)
  }

  lemma PlaceStuck(s: Sched, p: Pending, rest: seq<Pending>)
    requires Placing(s, p, rest) && Stuck(s) && p.key !in s.owners && Blocked(s, p)
    ensures Stuck(Place(s, p))
  {
    var t := Place(s, p);
    assert Unfinished(t.jobs[p.id].state);
    forall i: nat | i in t.aliases && i < |t.jobs| && t.jobs[i].state == WaitingEquivalent
      ensures t.aliases[i] < |t.jobs| && t.jobs[t.aliases[i]].state == Running
    {
      assert AliasFits(s, i) && i in s.aliases;
    }
  }

  lemma {:induction false} PlaceAllLoad(s: Sched, queue: seq<Pending>)
    requires InRange(s, queue) && Activating(s, queue)
    ensures Load(PlaceAll(s, queue), PlaceAll(s, queue).pending) <= Load(s, s.pending + queue)
    ensures Stuck(s) ==> Stuck(PlaceAll(s, queue)) || Load(PlaceAll(s, queue), PlaceAll(s, queue).pending) < Load(s, s.pending + queue)
    decreases |queue|
  {
    if queue == [] {
      assert s.pending + [] == s.pending;
    } else {
      PlaceNext(s, queue);
      PlaceOneLoad(s, queue);
      PlaceAllLoad(Place(s, queue[0]), queue[1..]);
    }
  }

  lemma PlaceOneLoad(s: Sched, queue: seq<Pending>)
    requires queue != [] && InRange(s, queue) && Activating(s, queue) && queue[0].id < |s.jobs|
    ensures var t, rest := Place(s, queue[0]), queue[1..];
            && Load(t, t.pending + rest) <= Load(s, s.pending + queue)
            && (Stuck(s) ==> Stuck(t) || Load(t, t.pending + rest) < Load(s, s.pending + queue))
  {
    var p, rest := queue[0], queue[1..];
    assert s.pending + [p] + rest == s.pending + queue;
    assert p in s.pending + queue && forall q :: q in rest ==> q in queue;
    PlaceLoad(s, p, rest);
    if Stuck(s) && p.key !in s.owners && Blocked(s, p) { PlaceStuck(s, p, rest); }
  }

  /** If every pending entry waits, some session runs. */
  lemma SomeoneRuns(s: Sched) returns (k: nat)
    requires Well(s, s.pending) && Held(s) && Stuck(s)
    ensures k < |s.work| && WorkFits(s, k) && s.jobs[s.work[k].id].state == Running
  {
    var i :| 0 <= i < |s.jobs| && Unfinished(s.jobs[i].state);
    k := RunsFor(s, i);
  }

  lemma {:induction false} RunsFor(s: Sched, i: nat) returns (k: nat)
    requires Well(s, s.pending) && Held(s) && Shared(s) && i < |s.jobs| && Unfinished(s.jobs[i].state)
    ensures k < |s.work| && WorkFits(s, k) && s.jobs[s.work[k].id].state == Running
    decreases if i in s.workIndex then 0 else if i in s.aliases then 1 else i + 2
  {
    assert Accounted(s, s.pending, i) && IndexFits(s, i) && AliasFits(s, i);
    if i in s.workIndex {
      k := s.workIndex[i];
      assert WorkFits(s, k);
    } else if i in s.aliases {
      k := RunsFor(s, s.aliases[i]);
    } else {
      var n :| 0 <= n < |s.pending| && s.pending[n].id == i;
      var p := s.pending[n];
      assert p in s.pending && PendingFits(s, p) && Blocked(s, p);
      assert AliasFits(s, p.parent.value);
      k := RunsFor(s, Resolve(s, p.parent.value));
    }
  }

  lemma PendingFieldIrrelevant(s: Sched, kept: seq<Pending>, all: seq<Pending>)
    requires Well(s, all)
    ensures Well(s.(pending := kept), all)
  {
    var t := s.(pending := kept);
    forall k: nat | k < |t.work| ensures WorkFits(t, k) { assert WorkFits(s, k); }
    forall i: nat ensures IndexFits(t, i) { assert IndexFits(s, i); }
    forall p | p in all ensures PendingFits(t, p) { assert PendingFits(s, p); }
    forall i: nat ensures AliasFits(t, i) { assert AliasFits(s, i); }
    forall key ensures OwnerFits(t, key) { assert OwnerFits(s, key); }
    forall i: nat | i < |t.jobs| ensures Accounted(t, all, i) { assert Accounted(s, all, i); }
  }

  function SweptOnce(w: Work): Work {
    if w.session.ended then w else w.(session := Swept(w.session))
  }

  ghost predicate SweptFrom(s: Sched, t: Sched, k: nat) {
    |t.work| == |s.work| && forall j {:trigger t.work[j]} :: 0 <= j < |s.work| ==> t.work[j] == if j < k then s.work[j] else SweptOnce(s.work[j])
  }

  lemma AdvanceSettled(s: Sched, k: nat)
    requires Well(s, s.pending) && Settled(s) && k < |s.work| && s.work[k].id < |s.jobs|
    ensures Settled(Advance(s, k)) && Continues(s, Advance(s, k)) && WorkInRange(Advance(s, k))
    ensures Advance(s, k).work == s.work[k := SweptOnce(s.work[k])]
  {
    var t := Advance(s, k);
    assert WorkFits(s, k);
    forall p | p in t.pending ensures Waits(t, p) { assert Waits(s, p) && PendingFits(s, p); }
    forall j | 0 <= j < |t.work| ensures t.work[j].id < |t.jobs| { assert WorkFits(s, j); }
  }

  lemma AdvanceOne(s: Sched, k: nat) returns (t: Sched)
    requires Well(s, s.pending) && Settled(s) && k < |s.work| && s.work[k].id < |s.jobs|
    ensures t == Advance(s, k) && Well(t, t.pending) && Settled(t) && WorkInRange(t) && Continues(s, t)
    ensures t.pending == s.pending && |t.jobs| == |s.jobs| && t.work == s.work[k := SweptOnce(s.work[k])]
    ensures Load(t, t.pending) <= Load(s, s.pending) && (!s.work[k].session.ended ==> Load(t, t.pending) < Load(s, s.pending))
  {
    t := Advance(s, k);
    assert WorkFits(s, k);
    AdvanceKeeps(s, s.pending, k);
    AdvanceSettled(s, k);
    AdvanceLoad(s, s.pending, k);
  }

  lemma {:induction false} AdvanceAllKeeps(s: Sched, k: nat)
    requires Well(s, s.pending) && Settled(s) && WorkInRange(s) && k <= |s.work|
    ensures var t := AdvanceAll(s, k);
            && Well(t, t.pending) && Settled(t) && t.pending == s.pending && Continues(s, t) && |t.jobs| == |s.jobs| && SweptFrom(s, t, k)
            && Load(t, t.pending) <= Load(s, s.pending)
    decreases |s.work| - k
  {
    if k < |s.work| {
      var t := AdvanceOne(s, k);
      AdvanceAllKeeps(t, k + 1);
      ContinuesOn(s, t, AdvanceAll(s, k));
    }
  }

  /** A running session makes a sweep count. */
  lemma {:induction false} AdvanceAllLoad(s: Sched, k: nat, n: nat)
    requires Well(s, s.pending) && Settled(s) && WorkInRange(s) && k <= n < |s.work| && !s.work[n].session.ended
    ensures Load(AdvanceAll(s, k), s.pending) < Load(s, s.pending)
    decreases n - k
  {
    var t := AdvanceOne(s, k);
    if k == n { AdvanceAllKeeps(t, k + 1); } else { AdvanceAllLoad(t, k + 1, n); }
  }

  lemma ShareAllKeeps(s: Sched)
    requires Well(s, s.pending) && Settled(s)
    ensures Valid(ShareAll(s)) && Continues(s, ShareAll(s))
  {
    var t, all := ShareAll(s), s.pending;
    forall j: nat | j < |t.work| ensures WorkFits(t, j) { SharedWork(s, j); }
    forall i: nat ensures IndexFits(t, i) { assert IndexFits(s, i); }
    forall p | p in all ensures PendingFits(t, p) && Waits(t, p) {
      assert PendingFits(s, p) && Waits(s, p);
      assert t.jobs[p.id] == s.jobs[p.id];
    }
    forall i: nat ensures AliasFits(t, i) { SharedAlias(s, i); }
    forall key ensures OwnerFits(t, key) { assert OwnerFits(s, key); }
    forall i: nat | i < |t.jobs| ensures Accounted(t, all, i) { assert Accounted(s, all, i); }
    forall i: nat | i in t.aliases && i < |t.jobs| && t.jobs[i].state == WaitingEquivalent
      ensures t.aliases[i] < |t.jobs| && t.jobs[t.aliases[i]].state == Running
    {
      SharedAlias(s, i);
      assert IndexFits(s, s.aliases[i]);
      assert WorkFits(s, s.workIndex[s.aliases[i]]);
    }
  }

  lemma SharedWork(s: Sched, j: nat)
    requires Well(s, s.pending) && j < |s.work|
    ensures WorkFits(ShareAll(s), j)
  {
    assert WorkFits(s, j) && AliasFits(s, s.work[j].id);
    if s.work[j].session.base.Some? { assert AliasFits(s, s.work[j].session.base.value); }
  }

  lemma SharedAlias(s: Sched, i: nat)
    requires Well(s, s.pending)
    ensures AliasFits(ShareAll(s), i) && AliasFits(s, i)
    ensures i in s.aliases ==> ShareAll(s).jobs[s.aliases[i]] == s.jobs[s.aliases[i]]
  {
    assert AliasFits(s, i);
    if i in s.aliases { assert AliasFits(s, s.aliases[i]); }
  }

  // ---------- a turn ----------

  /** Activation, one sweep of every live session, and sharing. */
  ghost predicate Turned(s: Sched, t: Sched) {
    InRange(s, s.pending) && WorkInRange(Activated(s)) && t == ShareAll(AdvanceAll(Activated(s), 0))
  }

  lemma Ranges(s: Sched)
    requires Well(s, s.pending)
    ensures InRange(s, s.pending) && WorkInRange(s)
  {
    forall p | p in s.pending ensures p.id < |s.jobs| { assert PendingFits(s, p); }
    forall k | 0 <= k < |s.work| ensures s.work[k].id < |s.jobs| { assert WorkFits(s, k); }
  }

  lemma ActivatedKeeps(s: Sched)
    requires Well(s, s.pending)
    ensures InRange(s, s.pending)
    ensures var t := Activated(s); Well(t, t.pending) && Held(t) && WorkInRange(t) && Continues(s, t) && |t.jobs| == |s.jobs|
    ensures var t := Activated(s); Load(t, t.pending) <= Load(s, s.pending) && (Stuck(s) ==> Stuck(t) || Load(t, t.pending) < Load(s, s.pending))
  {
    Ranges(s);
    BareFits(s);
    PlaceAllKeeps(s.(pending := []), s.pending);
    assert Activated(s).pending + [] == Activated(s).pending;
    Ranges(Activated(s));
    ActivatedLoad(s);
  }

  lemma ActivatedLoad(s: Sched)
    requires Well(s, s.pending) && InRange(s, s.pending)
    ensures var t := Activated(s); Load(t, t.pending) <= Load(s, s.pending) && (Stuck(s) ==> Stuck(t) || Load(t, t.pending) < Load(s, s.pending))
  {
    BareFits(s);
    PlaceAllLoad(s.(pending := []), s.pending);
  }

  lemma BareFits(s: Sched)
    requires Well(s, s.pending)
    ensures var bare := s.(pending := []); Well(bare, s.pending) && bare.pending + s.pending == s.pending && (Stuck(s) ==> Stuck(bare))
  {
    PendingFieldIrrelevant(s, [], s.pending);
  }

  /** What every turn keeps. */
  lemma TurnKeeps(s: Sched, t: Sched)
    requires Well(s, s.pending) && Turned(s, t)
    ensures Valid(t) && Continues(s, t) && |t.jobs| == |s.jobs|
  {
    ActivatedKeeps(s);
    var u := Activated(s);
    var v := AdvanceAll(u, 0);
    AdvanceAllKeeps(u, 0);
    ShareAllKeeps(v);
    ContinuesOn(s, u, v);
    ContinuesOn(s, v, t);
  }

  /** With unfinished jobs and nothing new, every turn makes progress. */
  lemma TurnProgresses(s: Sched, t: Sched)
    requires Valid(s) && HasWorkIn(s) && Turned(s, t)
    ensures Load(t, t.pending) < Load(s, s.pending)
  {
    ActivatedKeeps(s);
    var u := Activated(s);
    AdvanceAllKeeps(u, 0);
    if Load(u, u.pending) == Load(s, s.pending) {
      var k := SomeoneRuns(u);
      AdvanceAllLoad(u, 0, k);
    }
  }

  lemma {:induction false} PlaceAllWork(s: Sched, queue: seq<Pending>)
    requires InRange(s, queue)
    ensures s.work <= PlaceAll(s, queue).work
    decreases |queue|
  {
    if queue != [] {
      assert queue[0] in queue && forall p :: p in queue[1..] ==> p in queue;
      PlaceAllWork(Place(s, queue[0]), queue[1..]);
    }
  }

  /** Fairness: each turn sweeps every live session exactly once. */
  lemma TurnIsFair(s: Sched, t: Sched)
    requires Well(s, s.pending) && Turned(s, t)
    ensures |s.work| <= |t.work| && forall k :: 0 <= k < |s.work| ==> t.work[k] == SweptOnce(s.work[k])
  {
    ActivatedKeeps(s);
    PlaceAllWork(s.(pending := []), s.pending);
    AdvanceAllKeeps(Activated(s), 0);
    assert forall k :: 0 <= k < |s.work| ==> Activated(s).work[k] == s.work[k];
  }

  /** A finished session gives its job the verdict of its end; a graft rests on a certified job. */
  lemma Outcome(s: Sched, i: nat)
    requires Valid(s) && i in s.workIndex
    ensures i < |s.jobs| && s.workIndex[i] < |s.work|
    ensures var w, state := s.work[s.workIndex[i]].session, s.jobs[i].state;
            && (state == Running <==> !w.ended)
            && (state == Saturated <==> w.ended && w.fate.Completes?)
            && (state == ObservedUnfinished <==> w.ended && w.fate.Stops?)
            && (state == Rejected <==> w.ended && w.fate.Fails?)
    ensures var base := s.work[s.workIndex[i]].session.base;
            base.Some? ==> base.value != i && EndedCertified(s, base.value)
  {
    assert IndexFits(s, i);
    assert WorkFits(s, s.workIndex[i]);
  }

  /** The job's session has ended with its certificate. */
  predicate EndedCertified(s: Sched, i: nat) {
    && i < |s.jobs| && s.jobs[i].state == Saturated && i in s.workIndex && s.workIndex[i] < |s.work|
    && s.work[s.workIndex[i]].session.ended && s.work[s.workIndex[i]].session.fate.Completes?
    && s.work[s.workIndex[i]].session.fate.certified
  }

  /** The new session at the end of the work, or a rejection. */
  predicate Started(s: Sched, p: Pending, life: Life, base: Option<nat>, after: Sched) {
    && p.id < |after.jobs|
    && match life
       case Refused => after.jobs[p.id].state == Rejected && after.work == s.work
       case Lives(shared, sweeps, fate) =>
         && after.jobs[p.id].state == Running
         && after.work == s.work + [Work(p.id, Session(shared, base, sweeps, fate, false))]
         && (after.owners == if shared then s.owners[p.key := p.id] else s.owners)
  }

  /** A job starts from its parent exactly when the job that did the parent's work is saturated with a certificate. */
  lemma StartsFrom(s: Sched, all: seq<Pending>, p: Pending)
    requires Well(s, all) && p in all && p.id < |s.jobs| && p.key !in s.owners
    ensures p.parent.None? ==> Started(s, p, p.cold, None, Place(s, p))
    ensures p.parent.Some? ==>
              var q := if p.parent.value in s.aliases then s.aliases[p.parent.value] else p.parent.value;
              && q < |s.jobs|
              && match s.jobs[q].state
                 case Running | WaitingParent | WaitingEquivalent =>
                   Place(s, p).work == s.work && Place(s, p).pending == s.pending + [p]
                 case Saturated =>
                   if q in s.workIndex && s.workIndex[q] < |s.work| && s.work[s.workIndex[q]].session.fate == Completes(true)
                   then Started(s, p, p.grafted, Some(q), Place(s, p))
                   else Started(s, p, p.cold, None, Place(s, p))
                 case ObservedUnfinished | Rejected => Started(s, p, p.cold, None, Place(s, p))
  {
    assert PendingFits(s, p);
    if p.parent.Some? {
      var q := if p.parent.value in s.aliases then s.aliases[p.parent.value] else p.parent.value;
      assert AliasFits(s, p.parent.value) && IndexFits(s, q);
      if q in s.workIndex { assert WorkFits(s, s.workIndex[q]); }
    }
  }

  /** Equivalent entries end alike. */
  lemma AliasEndsAlike(s: Sched, i: nat)
    requires Valid(s) && i in s.aliases
    ensures i < |s.jobs| && s.aliases[i] < |s.jobs| && s.aliases[i] !in s.aliases
    ensures s.jobs[i].entry == s.jobs[s.aliases[i]].entry
    ensures if s.jobs[s.aliases[i]].state == Running then s.jobs[i].state == WaitingEquivalent
            else s.jobs[i].state == s.jobs[s.aliases[i]].state
    ensures s.jobs[s.aliases[i]].state == Running || !Unfinished(s.jobs[s.aliases[i]].state)
  {
    assert AliasFits(s, i) && AliasFits(s, s.aliases[i]) && IndexFits(s, s.aliases[i]);
    assert WorkFits(s, s.workIndex[s.aliases[i]]);
  }

  // ---------- the pipeline as an object ----------

  class Pipeline {
    const reuse: bool
    var jobs: seq<Job>
    var work: seq<Work>
    var workIndex: map<nat, nat>
    var unitJobs: map<nat, nat>
    var pending: seq<Pending>
    var owners: map<string, nat>
    var aliases: map<nat, nat>

    ghost function View(): Sched
      reads this
    {
      Sched(jobs, work, workIndex, pending, owners, aliases, unitJobs)
    }

    constructor (reuse: bool)
      ensures Valid(View()) && jobs == [] && this.reuse == reuse
    {
      this.reuse := reuse;
      jobs, work, workIndex, unitJobs, pending, owners, aliases := [], [], map[], map[], [], map[], map[];
    }

    method HasWork() returns (r: bool)
      ensures r <==> HasWorkIn(View())
      ensures !r <==> forall i :: 0 <= i < |jobs| ==> Final(jobs[i].state)
    {
      for i := 0 to |jobs|
        invariant forall j :: 0 <= j < i ==> !Unfinished(jobs[j].state)
      {
        if Unfinished(jobs[i].state) { return true; }
      }
      r := false;
    }

    /** The recorded parent whose graft skips most stages. */
    method ChooseParent(d: Discovery) returns (selected: Option<nat>)
      ensures selected == ParentFor(View(), reuse, d)
    {
      if !reuse { return None; }
      var best: Option<Offer> := None;
      for k := 0 to |d.offers|
        invariant best == Best(View(), d.offers[..k])
      {
        var o := d.offers[k];
        assert d.offers[..k + 1][..k] == d.offers[..k];
        if o.plan.Some? && o.unit in unitJobs && unitJobs[o.unit] < |jobs| && jobs[unitJobs[o.unit]].entry.Some? {
          if best.None? || o.plan.value > best.value.plan.value { best := Some(o); }
        }
      }
      assert d.offers[..|d.offers|] == d.offers;
      selected := if best.None? then None else Some(unitJobs[best.value.unit]);
    }

    method RegisterEntry(d: Discovery)
      modifies this
      ensures View() == Register(old(View()), d, ParentFor(old(View()), reuse, d))
    {
      var id := |jobs|;
      var job := Job(Rejected, None, None, None);
      if d.prepares {
        var parent := ChooseParent(d);
        job := Job(Running, Some(d.key), None, None);
        if d.key in owners {
          aliases := aliases[id := owners[d.key]];
          job := job.(state := WaitingEquivalent, equivalentTo := Some(owners[d.key]));
        } else {
          pending := pending + [Pending(id, d.key, parent, d.cold, d.grafted)];
        }
      }
      jobs := jobs + [job];
      unitJobs := unitJobs[d.unit := id];
    }

    /**
     * One pending entry is aliased, kept waiting, or started. One alias step finds the job that does the
     * parent's work, where the source follows aliases until there is none: owners are never aliases (`AliasFits`).
     */
    method Activate(p: Pending)
      requires p.id < |jobs| && (forall i :: i in aliases ==> i < |jobs| && aliases[i] < |jobs|) && (p.parent.Some? ==> p.parent.value < |jobs|)
      requires forall i :: i in workIndex ==> workIndex[i] < |work|
      modifies this
      ensures View() == Place(old(View()), p)
    {
      if p.key in owners {
        var owner := owners[p.key];
        aliases := aliases[p.id := owner];
        jobs := jobs[p.id := jobs[p.id].(state := WaitingEquivalent, equivalentTo := Some(owner))];
        return;
      }
      var base: Option<nat> := None;
      if p.parent.Some? {
        var parent := p.parent.value;
        if parent in aliases { parent := aliases[parent]; }
        match jobs[parent].state {
          case Running | WaitingParent | WaitingEquivalent =>
            jobs := jobs[p.id := jobs[p.id].(state := WaitingParent, waitingFor := Some(parent))];
            pending := pending + [p];
            return;
          case Saturated =>
            if parent in workIndex {
              var session := work[workIndex[parent]].session;
              if session.ended && session.fate == Completes(true) { base := Some(parent); }
            }
          case ObservedUnfinished | Rejected =>
        }
      }
      Begin(p, base);
    }

    /** A session starts, from a snapshot of its parent or cold, or is refused. */
    method Begin(p: Pending, base: Option<nat>)
      requires p.id < |jobs| && base == Base(View(), p)
      modifies this
      ensures View() == Start(old(View()), p)
    {
      match if base.Some? then p.grafted else p.cold {
        case Refused => jobs := jobs[p.id := jobs[p.id].(state := Rejected, waitingFor := None)];
        case Lives(shared, sweeps, fate) =>
          jobs := jobs[p.id := jobs[p.id].(state := Running, waitingFor := None)];
          if shared { owners := owners[p.key := p.id]; }
          workIndex := workIndex[p.id := |work|];
          work := work + [Work(p.id, Session(shared, base, sweeps, fate, false))];
      }
    }

    method ActivatePending()
      requires Well(View(), pending)
      modifies this
      ensures InRange(old(View()), old(pending)) && View() == Activated(old(View()))
    {
      Ranges(View());
      ghost var before := View();
      PendingFieldIrrelevant(View(), [], pending);
      var queue := pending;
      pending := [];
      assert [] + queue == queue;
      var k := 0;
      while k < |queue|
        invariant k <= |queue| && InRange(View(), queue[k..]) && Activating(View(), queue[k..])
        invariant PlaceAll(View(), queue[k..]) == Activated(before)
      {
        PlaceNext(View(), queue[k..]);
        assert queue[k..][1..] == queue[k + 1..];
        Activate(queue[k]);
        k := k + 1;
      }
    }

    /** One sweep of every running session. */
    method Sweep()
      requires Well(View(), pending)
      modifies this
      ensures WorkInRange(old(View())) && View() == AdvanceAll(old(View()), 0)
    {
      Ranges(View());
      ghost var before := View();
      for k := 0 to |work|
        invariant |work| == |before.work| && WorkInRange(View()) && AdvanceAll(View(), k) == AdvanceAll(before, 0)
      {
        AdvanceSession(k);
      }
    }

    method AdvanceSession(k: nat)
      requires k < |work| && work[k].id < |jobs|
      modifies this`jobs, this`work
      ensures View() == Advance(old(View()), k)
    {
      var id, session := work[k].id, work[k].session;
      if jobs[id].state == Running {
        session := if session.sweeps > 0 then session.(sweeps := session.sweeps - 1) else session.(ended := true);
        work := work[k := work[k].(session := session)];
        if session.ended { jobs := jobs[id := jobs[id].(state := Verdict(session.fate))]; }
      }
    }

    /** Aliases take over the ends of their owners. */
    method ShareEnds()
      requires Well(View(), pending)
      modifies this`jobs
      ensures View() == ShareAll(old(View()))
    {
      ghost var before := View();
      var todo := aliases.Keys;
      while todo != {}
        invariant todo <= aliases.Keys && |jobs| == |before.jobs|
        invariant forall i: nat :: i < |jobs| ==> jobs[i] == if i in todo then before.jobs[i] else SharedJob(before, i)
      {
        var id :| id in todo;
        SharedAlias(before, id);
        SharedAlias(before, aliases[id]);
        var state := jobs[aliases[id]].state;
        if jobs[id].state == WaitingEquivalent && !Unfinished(state) { jobs := jobs[id := jobs[id].(state := state)]; }
        todo := todo - {id};
      }
      assert jobs == ShareAll(before).jobs;
    }

    /** Registers what was discovered, then activates, sweeps and shares. */
    method Step(ds: seq<Discovery>)
      requires Valid(View())
      modifies this
      ensures Turned(RegisterAll(old(View()), reuse, ds), View())
      ensures Valid(View()) && Continues(old(View()), View()) && |jobs| == |old(jobs)| + |ds|
      ensures ds == [] && HasWorkIn(old(View())) ==> Load(View(), pending) < Load(old(View()), old(pending))
    {
      ghost var before := View();
      for k := 0 to |ds|
        invariant View() == RegisterAll(before, reuse, ds[..k])
      {
        assert ds[..k + 1][..k] == ds[..k];
        RegisterEntry(ds[k]);
      }
      assert ds[..|ds|] == ds;
      ghost var registered := View();
      RegisterAllKeeps(before, reuse, ds);
      Turn();
      TurnKeeps(registered, View());
      ContinuesOn(before, registered, View());
      if ds == [] && HasWorkIn(before) { TurnProgresses(before, View()); }
    }

    method Turn()
      requires Well(View(), pending)
      modifies this
      ensures Turned(old(View()), View())
    {
      ActivatedKeeps(View());
      ActivatePending();
      AdvanceAllKeeps(View(), 0);
      Sweep();
      ShareEnds();
    }

    /** The loop over `HasWork`, with finitely many later discoveries: it ends, and then every job is finished. */
    method Drain(later: seq<seq<Discovery>>)
      requires Valid(View())
      modifies this
      ensures Valid(View()) && Continues(old(View()), View())
      ensures forall i :: 0 <= i < |jobs| ==> Final(jobs[i].state)
    {
      ghost var before := View();
      var rest := later;
      var busy := HasWork();
      while busy
        invariant Valid(View()) && Continues(before, View()) && (busy <==> HasWorkIn(View()))
        decreases |rest|, Load(View(), pending)
      {
        ghost var now := View();
        if rest != [] {
          Step(rest[0]);
          rest := rest[1..];
        } else {
          Step([]);
        }
        ContinuesOn(before, now, View());
        busy := HasWork();
      }
    }
  }

  lemma PlaceNext(s: Sched, queue: seq<Pending>)
    requires queue != [] && InRange(s, queue) && Activating(s, queue)
    ensures var p, rest := queue[0], queue[1..]; InRange(Place(s, p), rest) && Activating(Place(s, p), rest)
    ensures PlaceAll(s, queue) == PlaceAll(Place(s, queue[0]), queue[1..])
    ensures queue[0].id < |s.jobs| && (queue[0].parent.Some? ==> queue[0].parent.value < |s.jobs|)
    ensures forall i :: i in s.aliases ==> i < |s.jobs| && s.aliases[i] < |s.jobs|
    ensures forall i :: i in s.workIndex ==> s.workIndex[i] < |s.work|
  {
    var p, rest := queue[0], queue[1..];
    assert s.pending + [p] + rest == s.pending + queue;
    assert p in s.pending + queue && forall q :: q in rest ==> q in queue;
    PlaceKeeps(s, p, rest);
    PlaceHeld(s, p, rest);
    PlaceContinues(s, p);
    forall i | i in s.aliases ensures i < |s.jobs| && s.aliases[i] < |s.jobs| { assert AliasFits(s, i); }
    forall i | i in s.workIndex ensures s.workIndex[i] < |s.work| { assert IndexFits(s, i); }
  }
}
