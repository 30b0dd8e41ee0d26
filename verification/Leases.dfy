/**
 The lease manager: three maps behind three locks. A fenced grant is a sequence
 of lock sections (check, insert, draw a token, store it for the lease, store it
 for the resource) and any other operation may run between two of them.
 Tokens of one manager share their node id and are modelled by their number.
 */
module Leases {
  import opened Prelude

  datatype Lease = Lease(workload: nat, resource: nat, expires: int, generation: nat, renewable: bool)

  datatype Grant =
    | Checked(workload: nat, resource: nat, renewable: bool, since: int)
    | Inserted(lease: nat, resource: nat)
    | Drawn(lease: nat, resource: nat, token: nat)
    | Recorded(lease: nat, resource: nat, token: nat)

  datatype Owner = Owner(lease: nat, resource: nat)

  /** `owners` and `retired` are history: who drew a token, and which tokens were current and replaced. */
  datatype State = State(
    now: int,
    duration: int,
    leases: map<nat, Lease>,
    leaseTokens: map<nat, nat>,
    resourceTokens: map<nat, nat>,
    counter: nat,
    nextLease: nat,
    grants: map<nat, Grant>,
    sweeps: map<nat, set<nat>>,
    owners: map<nat, Owner>,
    retired: set<nat>)

  datatype Action =
    | Tick(to: int)
    | Check(thread: nat, workload: nat, resource: nat, renewable: bool)
    | Insert(thread: nat, stamp: int)
    | Draw(thread: nat)
    | StoreLeaseToken(thread: nat)
    | StoreResourceToken(thread: nat)
    | Release(lease: nat)
    | Renew(lease: nat, generation: nat)
    | Sweep(thread: nat)
    | SweepTokens(thread: nat)

  predicate IsValid(l: Lease, now: int) {
    now < l.expires
  }

  predicate HasValidLease(leases: map<nat, Lease>, workload: nat, now: int) {
    exists l :: l in leases && leases[l].workload == workload && IsValid(leases[l], now)
  }

  predicate CanRenew(s: State, l: nat, generation: nat) {
    l in s.leases && s.leases[l].generation == generation && IsValid(s.leases[l], s.now) && s.leases[l].renewable
  }

  /** `authorize`: the lease is valid, the token is the one it was given, and that token is current. */
  predicate Authorizes(s: State, l: nat, token: nat) {
    && l in s.leases && IsValid(s.leases[l], s.now)
    && l in s.leaseTokens && s.leaseTokens[l] == token
    && s.leases[l].resource in s.resourceTokens && s.resourceTokens[s.leases[l].resource] == token
  }

  predicate Enabled(s: State, a: Action) {
    match a
    case Tick(to) => s.now <= to
    case Check(t, _, _, _) => t !in s.grants
    case Insert(t, stamp) => t in s.grants && s.grants[t].Checked? && s.grants[t].since <= stamp <= s.now
    case Draw(t) => t in s.grants && s.grants[t].Inserted?
    case StoreLeaseToken(t) => t in s.grants && s.grants[t].Drawn?
    case StoreResourceToken(t) => t in s.grants && s.grants[t].Recorded?
    case Release(l) => true
    case Renew(_, _) => true
    case Sweep(t) => t !in s.sweeps
    case SweepTokens(t) => t in s.sweeps
  }

  function DoInsert(s: State, t: nat, stamp: int): State
    requires t in s.grants && s.grants[t].Checked?
  {
    var g := s.grants[t];
    if HasValidLease(s.leases, g.workload, s.now) then s.(grants := s.grants - {t})
    else s.(leases := s.leases[s.nextLease := Lease(g.workload, g.resource, stamp + s.duration, 1, g.renewable)],
            nextLease := s.nextLease + 1,
            grants := s.grants[t := Inserted(s.nextLease, g.resource)])
  }

  function DoDraw(s: State, t: nat): State
    requires t in s.grants && s.grants[t].Inserted?
  {
    var g, token := s.grants[t], s.counter + 1;
    s.(counter := token, owners := s.owners[token := Owner(g.lease, g.resource)], grants := s.grants[t := Drawn(g.lease, g.resource, token)])
  }

  function DoStoreResource(s: State, t: nat): State
    requires t in s.grants && s.grants[t].Recorded?
  {
    var g := s.grants[t];
    s.(retired := if g.resource in s.resourceTokens then s.retired + {s.resourceTokens[g.resource]} else s.retired,
       resourceTokens := s.resourceTokens[g.resource := g.token],
       grants := s.grants - {t})
  }

  function DoCheck(s: State, t: nat, w: nat, r: nat, renewable: bool): State {
    if HasValidLease(s.leases, w, s.now) then s
    else s.(grants := s.grants[t := Checked(w, r, renewable, s.now)])
  }

  function DoStoreLease(s: State, t: nat): State
    requires t in s.grants && s.grants[t].Drawn?
  {
    var g := s.grants[t];
    s.(leaseTokens := s.leaseTokens[g.lease := g.token], grants := s.grants[t := Recorded(g.lease, g.resource, g.token)])
  }

  function DoSweep(s: State, t: nat): State {
    var stale := set l | l in s.leases && !IsValid(s.leases[l], s.now);
    s.(leases := s.leases - stale, sweeps := s.sweeps[t := stale])
  }

  function Do(s: State, a: Action): State
    requires Enabled(s, a)
  {
    match a
    case Tick(to) => s.(now := to)
    case Check(t, w, r, renewable) => DoCheck(s, t, w, r, renewable)
    case Insert(t, stamp) => DoInsert(s, t, stamp)
    case Draw(t) => DoDraw(s, t)
    case StoreLeaseToken(t) => DoStoreLease(s, t)
    case StoreResourceToken(t) => DoStoreResource(s, t)
    case Release(l) =>
      if l in s.leases then s.(leases := s.leases - {l}, leaseTokens := s.leaseTokens - {l}) else s
    case Renew(l, g) =>
      if CanRenew(s, l, g) then s.(leases := s.leases[l := s.leases[l].(expires := s.now + s.duration, generation := g + 1)]) else s
    case Sweep(t) => DoSweep(s, t)
    case SweepTokens(t) =>
      s.(leaseTokens := s.leaseTokens - s.sweeps[t], sweeps := s.sweeps - {t})
  }

  predicate Initial(s: State) {
    && s.leases == map[] && s.leaseTokens == map[] && s.resourceTokens == map[] && s.counter == 0
    && s.grants == map[] && s.sweeps == map[] && s.owners == map[] && s.retired == {}
  }

  ghost predicate StepAt(run: seq<State>, acts: seq<Action>, i: nat)
    requires i + 1 < |run| && i < |acts|
  {
    Enabled(run[i], acts[i]) && run[i + 1] == Do(run[i], acts[i])
  }

  ghost predicate IsRun(run: seq<State>, acts: seq<Action>) {
    && |run| == |acts| + 1 && Initial(run[0])
    && forall i :: 0 <= i < |acts| ==> StepAt(run, acts, i)
  }

  // ---------------------------------------------------------------------------
  // Invariants
  // ---------------------------------------------------------------------------

  /** Thread t drew token v for lease l on resource r and has not published it. */
  predicate Holds(grants: map<nat, Grant>, t: nat, l: nat, v: nat, r: nat) {
    t in grants && grants[t] in {Drawn(l, r, v), Recorded(l, r, v)}
  }

  /** Every token in use was drawn once, for one lease on one resource. */
  ghost predicate Owned(s: State) {
    && (forall v :: v in s.owners <==> 1 <= v <= s.counter)
    && (forall l :: l in s.leaseTokens ==> s.leaseTokens[l] in s.owners && s.owners[s.leaseTokens[l]].lease == l)
    && (forall r :: r in s.resourceTokens ==> s.resourceTokens[r] in s.owners && s.owners[s.resourceTokens[r]].resource == r)
    && (forall t, l, v, r :: Holds(s.grants, t, l, v, r) ==> v in s.owners && s.owners[v] == Owner(l, r))
  }

  /** A token is held by one grant, then current once, then retired for good. */
  ghost predicate Staged(s: State) {
    && (forall t, u, l, m, v, r, q :: Holds(s.grants, t, l, v, r) && Holds(s.grants, u, m, v, q) ==> t == u)
    && (forall t, l, v, r, q :: Holds(s.grants, t, l, v, r) && q in s.resourceTokens ==> s.resourceTokens[q] != v)
    && (forall t, l, v, r :: Holds(s.grants, t, l, v, r) ==> v !in s.retired)
    && (forall r :: r in s.resourceTokens ==> s.resourceTokens[r] !in s.retired)
    && (forall v :: v in s.retired ==> v in s.owners)
  }

  /** Unexpired leases of one workload. */
  predicate Rivals(s: State, l: nat, m: nat)
    requires l in s.leases && m in s.leases
  {
    s.leases[l].workload == s.leases[m].workload && IsValid(s.leases[l], s.now) && IsValid(s.leases[m], s.now)
  }

  /** No workload holds two unexpired leases. */
  ghost predicate OneLeaseEach(s: State) {
    && (forall l :: l in s.leases ==> l < s.nextLease)
    && (forall l, m :: l in s.leases && m in s.leases && Rivals(s, l, m) ==> l == m)
  }

  /** No lease runs longer than one duration from now. */
  ghost predicate Timely(s: State) {
    forall l :: l in s.leases ==> s.leases[l].expires <= s.now + s.duration
  }

  ghost predicate Inv(s: State) {
    Owned(s) && Staged(s) && OneLeaseEach(s) && Timely(s)
  }

  /** Only a draw adds a held token, and only its own publication ends the holding. */
  lemma HeldAfter(s: State, a: Action, t: nat, l: nat, v: nat, r: nat)
    requires Enabled(s, a) && Holds(Do(s, a).grants, t, l, v, r)
    ensures if a.Draw? && a.thread == t then v == s.counter + 1 && s.grants[t] == Inserted(l, r)
            else Holds(s.grants, t, l, v, r) && !(a.StoreResourceToken? && a.thread == t)
  {}

  ghost predicate Published(s: State, a: Action) {
    a.StoreResourceToken? && a.thread in s.grants && s.grants[a.thread].Recorded?
  }

  /** Only publishing a token changes what is current. */
  lemma CurrentAfter(s: State, a: Action)
    requires Enabled(s, a)
    ensures Published(s, a) ==> var g := s.grants[a.thread];
                                && Holds(s.grants, a.thread, g.lease, g.token, g.resource)
                                && Do(s, a).resourceTokens == s.resourceTokens[g.resource := g.token]
                                && Do(s, a).retired == s.retired + if g.resource in s.resourceTokens then {s.resourceTokens[g.resource]} else {}
    ensures !Published(s, a) ==> Do(s, a).resourceTokens == s.resourceTokens && Do(s, a).retired == s.retired
    ensures a.Draw? ==> var g := s.grants[a.thread];
                        Do(s, a).counter == s.counter + 1 && Do(s, a).owners == s.owners[s.counter + 1 := Owner(g.lease, g.resource)]
    ensures !a.Draw? ==> Do(s, a).counter == s.counter && Do(s, a).owners == s.owners
  {}

  lemma LeaseTokensAfter(s: State, a: Action, l: nat)
    requires Enabled(s, a) && l in Do(s, a).leaseTokens
    ensures || (l in s.leaseTokens && Do(s, a).leaseTokens[l] == s.leaseTokens[l])
            || (a.StoreLeaseToken? && a.thread in s.grants && s.grants[a.thread].Drawn? && var g := s.grants[a.thread];
                l == g.lease && Do(s, a).leaseTokens[l] == g.token && Holds(s.grants, a.thread, l, g.token, g.resource))
  {}

  lemma StepKeepsOwned(s: State, a: Action)
    requires Owned(s) && Enabled(s, a)
    ensures Owned(Do(s, a))
  {
    var s' := Do(s, a);
    CurrentAfter(s, a);
    forall l | l in s'.leaseTokens ensures s'.leaseTokens[l] in s'.owners && s'.owners[s'.leaseTokens[l]].lease == l {
      LeaseTokensAfter(s, a, l);
    }
    forall t, l, v, r | Holds(s'.grants, t, l, v, r) ensures v in s'.owners && s'.owners[v] == Owner(l, r) {
      HeldAfter(s, a, t, l, v, r);
    }
  }

  lemma StepKeepsStaged(s: State, a: Action)
    requires Owned(s) && Staged(s) && Enabled(s, a)
    ensures Staged(Do(s, a))
  {
    var s' := Do(s, a);
    CurrentAfter(s, a);
    forall t, u, l, m, v, r, q | Holds(s'.grants, t, l, v, r) && Holds(s'.grants, u, m, v, q) ensures t == u {
      HeldAfter(s, a, t, l, v, r);
      HeldAfter(s, a, u, m, v, q);
    }
    forall t, l, v, r | Holds(s'.grants, t, l, v, r)
      ensures v !in s'.retired && forall q :: q in s'.resourceTokens ==> s'.resourceTokens[q] != v
    {
      HeldAfter(s, a, t, l, v, r);
    }
  }

  lemma StepKeepsOneLeaseEach(s: State, a: Action)
    requires OneLeaseEach(s) && Enabled(s, a)
    ensures OneLeaseEach(Do(s, a))
  {}

  lemma StepKeepsTimely(s: State, a: Action)
    requires Timely(s) && Enabled(s, a)
    ensures Timely(Do(s, a))
  {}

  lemma {:induction false} EveryRunKeepsInv(run: seq<State>, acts: seq<Action>, i: nat)
    requires IsRun(run, acts) && i < |run|
    ensures Inv(run[i])
  {
    if i > 0 {
      EveryRunKeepsInv(run, acts, i - 1);
      assert StepAt(run, acts, i - 1);
      StepKeepsOwned(run[i - 1], acts[i - 1]);
      StepKeepsStaged(run[i - 1], acts[i - 1]);
      StepKeepsOneLeaseEach(run[i - 1], acts[i - 1]);
      StepKeepsTimely(run[i - 1], acts[i - 1]);
    }
  }

  // ---------------------------------------------------------------------------
  // Main results
  // ---------------------------------------------------------------------------

  /** Under every interleaving, at most one lease authorizes per resource, with at most one token. */
  lemma MutualExclusion(run: seq<State>, acts: seq<Action>, i: nat, l: nat, m: nat, v: nat, w: nat)
    requires IsRun(run, acts) && i < |run| && Authorizes(run[i], l, v) && Authorizes(run[i], m, w)
    requires run[i].leases[l].resource == run[i].leases[m].resource
    ensures l == m && v == w
  {
    EveryRunKeepsInv(run, acts, i);
  }

  lemma {:induction false} RetiredGrows(run: seq<State>, acts: seq<Action>, i: nat, j: nat)
    requires IsRun(run, acts) && i <= j < |run|
    ensures run[i].retired <= run[j].retired
  {
    if i < j {
      RetiredGrows(run, acts, i, j - 1);
      assert StepAt(run, acts, j - 1);
      CurrentAfter(run[j - 1], acts[j - 1]);
    }
  }

  lemma {:induction false} CurrentOrRetired(run: seq<State>, acts: seq<Action>, i: nat, j: nat, r: nat)
    requires IsRun(run, acts) && i <= j < |run| && r in run[i].resourceTokens
    ensures r in run[j].resourceTokens
    ensures run[j].resourceTokens[r] == run[i].resourceTokens[r] || run[i].resourceTokens[r] in run[j].retired
  {
    if i < j {
      CurrentOrRetired(run, acts, i, j - 1, r);
      assert StepAt(run, acts, j - 1);
      CurrentAfter(run[j - 1], acts[j - 1]);
      RetiredGrows(run, acts, j - 1, j);
    }
  }

  /** Sweeping out expired leases takes no authority from anyone. */
  lemma SweepKeepsAuthority(s: State, t: nat, l: nat, v: nat)
    requires t !in s.sweeps
    ensures var swept := Do(Do(s, Sweep(t)), SweepTokens(t)); Authorizes(swept, l, v) <==> Authorizes(s, l, v)
  {}

  /** A token that was current and was replaced never authorizes again, for any lease. */
  lemma ReplacedTokenIsDead(run: seq<State>, acts: seq<Action>, i: nat, j: nat, k: nat, r: nat, l: nat)
    requires IsRun(run, acts) && i <= j <= k < |run| && r in run[i].resourceTokens
    requires r in run[j].resourceTokens && run[j].resourceTokens[r] != run[i].resourceTokens[r]
    ensures !Authorizes(run[k], l, run[i].resourceTokens[r])
  {
    CurrentOrRetired(run, acts, i, j, r);
    RetiredGrows(run, acts, j, k);
    EveryRunKeepsInv(run, acts, k);
  }

  /** With a clock that never goes back, each workload has at most one unexpired lease. */
  lemma OneUnexpiredLease(run: seq<State>, acts: seq<Action>, i: nat, l: nat, m: nat)
    requires IsRun(run, acts) && i < |run| && l in run[i].leases && m in run[i].leases
    requires Rivals(run[i], l, m)
    ensures l == m
  {
    EveryRunKeepsInv(run, acts, i);
  }

  // ---------------------------------------------------------------------------
  // Do tokens only go up?
  // ---------------------------------------------------------------------------

  /** Step k draws token v for a grant on resource r. */
  ghost predicate Drew(run: seq<State>, acts: seq<Action>, k: nat, r: nat, v: nat) {
    && k < |acts| && k < |run| && acts[k].Draw? && acts[k].thread in run[k].grants
    && run[k].grants[acts[k].thread].Inserted? && run[k].grants[acts[k].thread].resource == r && v == run[k].counter + 1
  }

  /** Step k publishes token v as the current token of resource r. */
  ghost predicate Publishes(run: seq<State>, acts: seq<Action>, k: nat, r: nat, v: nat) {
    && k < |acts| && k < |run| && acts[k].StoreResourceToken? && acts[k].thread in run[k].grants
    && run[k].grants[acts[k].thread].Recorded? && run[k].grants[acts[k].thread].resource == r && run[k].grants[acts[k].thread].token == v
  }

  /** Every token published for r is higher than the one it replaces. */
  ghost predicate Ascends(run: seq<State>, acts: seq<Action>, r: nat) {
    forall k: nat, v: nat :: Publishes(run, acts, k, r, v) && r in run[k].resourceTokens ==> run[k].resourceTokens[r] < v
  }

  /** Of two grants for r that publish, the one that drew first publishes first. */
  ghost predicate InDrawOrder(run: seq<State>, acts: seq<Action>, r: nat) {
    forall a: nat, b: nat, p: nat, q: nat, v: nat, w: nat ::
      Drew(run, acts, a, r, v) && Drew(run, acts, b, r, w) && Publishes(run, acts, p, r, v) && Publishes(run, acts, q, r, w) && a < b ==> p < q
  }

  lemma {:induction false} CounterGrows(run: seq<State>, acts: seq<Action>, i: nat, j: nat)
    requires IsRun(run, acts) && i <= j < |run|
    ensures run[i].counter <= run[j].counter
  {
    if i < j {
      CounterGrows(run, acts, i, j - 1);
      assert StepAt(run, acts, j - 1);
      CurrentAfter(run[j - 1], acts[j - 1]);
    }
  }

  /** Tokens are numbered in the order they are drawn. */
  lemma DrawsAreNumbered(run: seq<State>, acts: seq<Action>, a: nat, b: nat, r: nat, v: nat, w: nat)
    requires IsRun(run, acts) && Drew(run, acts, a, r, v) && Drew(run, acts, b, r, w)
    ensures a < b <==> v < w
  {
    assert StepAt(run, acts, a) && StepAt(run, acts, b);
    CurrentAfter(run[a], acts[a]);
    CurrentAfter(run[b], acts[b]);
    if a < b {
      CounterGrows(run, acts, a + 1, b);
    } else if b < a {
      CounterGrows(run, acts, b + 1, a);
    }
  }

  lemma {:induction false} HeldWasDrawn(run: seq<State>, acts: seq<Action>, k: nat, t: nat, l: nat, v: nat, r: nat) returns (a: nat)
    requires IsRun(run, acts) && k < |run| && Holds(run[k].grants, t, l, v, r)
    ensures a < k && Drew(run, acts, a, r, v)
  {
    assert StepAt(run, acts, k - 1);
    HeldAfter(run[k - 1], acts[k - 1], t, l, v, r);
    if acts[k - 1].Draw? && acts[k - 1].thread == t {
      a := k - 1;
    } else {
      a := HeldWasDrawn(run, acts, k - 1, t, l, v, r);
    }
  }

  lemma PublishedWasDrawn(run: seq<State>, acts: seq<Action>, k: nat, r: nat, v: nat) returns (a: nat)
    requires IsRun(run, acts) && Publishes(run, acts, k, r, v)
    ensures a < k && Drew(run, acts, a, r, v)
  {
    var g := run[k].grants[acts[k].thread];
    a := HeldWasDrawn(run, acts, k, acts[k].thread, g.lease, v, r);
  }

  lemma {:induction false} CurrentWasPublished(run: seq<State>, acts: seq<Action>, k: nat, r: nat) returns (p: nat)
    requires IsRun(run, acts) && k < |run| && r in run[k].resourceTokens
    ensures p < k && Publishes(run, acts, p, r, run[k].resourceTokens[r])
  {
    assert StepAt(run, acts, k - 1);
    CurrentAfter(run[k - 1], acts[k - 1]);
    if Published(run[k - 1], acts[k - 1]) && run[k - 1].grants[acts[k - 1].thread].resource == r {
      p := k - 1;
    } else {
      p := CurrentWasPublished(run, acts, k - 1, r);
    }
  }

  /** Where every publication raises the token, the current token never falls. */
  lemma {:induction false} CurrentNeverFalls(run: seq<State>, acts: seq<Action>, i: nat, j: nat, r: nat)
    requires IsRun(run, acts) && Ascends(run, acts, r) && i <= j < |run| && r in run[i].resourceTokens
    ensures r in run[j].resourceTokens && run[i].resourceTokens[r] <= run[j].resourceTokens[r]
  {
    if i < j {
      CurrentNeverFalls(run, acts, i, j - 1, r);
      assert StepAt(run, acts, j - 1);
      CurrentAfter(run[j - 1], acts[j - 1]);
      if Published(run[j - 1], acts[j - 1]) {
        var g := run[j - 1].grants[acts[j - 1].thread];
        assert Publishes(run, acts, j - 1, g.resource, g.token);
      }
    }
  }

  lemma LaterPublicationIsHigher(run: seq<State>, acts: seq<Action>, p: nat, q: nat, r: nat, v: nat, w: nat)
    requires IsRun(run, acts) && Ascends(run, acts, r) && Publishes(run, acts, p, r, v) && Publishes(run, acts, q, r, w) && p < q
    ensures v < w
  {
    assert StepAt(run, acts, p);
    CurrentAfter(run[p], acts[p]);
    CurrentNeverFalls(run, acts, p + 1, q, r);
  }

  lemma PublishedIsNotCurrent(run: seq<State>, acts: seq<Action>, k: nat, r: nat, v: nat)
    requires IsRun(run, acts) && Publishes(run, acts, k, r, v) && r in run[k].resourceTokens
    ensures run[k].resourceTokens[r] != v
  {
    EveryRunKeepsInv(run, acts, k);
    assert Holds(run[k].grants, acts[k].thread, run[k].grants[acts[k].thread].lease, v, r);
  }

  /** A resource's tokens only go up exactly when its grants publish in the order they drew. */
  lemma TokensAscendIffInDrawOrder(run: seq<State>, acts: seq<Action>, r: nat)
    requires IsRun(run, acts)
    ensures Ascends(run, acts, r) <==> InDrawOrder(run, acts, r)
  {
    if Ascends(run, acts, r) {
      forall a: nat, b: nat, p: nat, q: nat, v: nat, w: nat |
        Drew(run, acts, a, r, v) && Drew(run, acts, b, r, w) && Publishes(run, acts, p, r, v) && Publishes(run, acts, q, r, w) && a < b
        ensures p < q
      {
        DrawsAreNumbered(run, acts, a, b, r, v, w);
        if q < p {
          LaterPublicationIsHigher(run, acts, q, p, r, w, v);
        }
      }
    }
    if InDrawOrder(run, acts, r) {
      forall k: nat, v: nat | Publishes(run, acts, k, r, v) && r in run[k].resourceTokens ensures run[k].resourceTokens[r] < v {
        var c := run[k].resourceTokens[r];
        var p := CurrentWasPublished(run, acts, k, r);
        var a := PublishedWasDrawn(run, acts, p, r, c);
        var b := PublishedWasDrawn(run, acts, k, r, v);
        PublishedIsNotCurrent(run, acts, k, r, v);
        DrawsAreNumbered(run, acts, b, a, r, v, c);
      }
    }
  }

  // ---------------------------------------------------------------------------
  // Grants that do not overlap publish in order
  // ---------------------------------------------------------------------------

  /** No other grant for the resource holds a token it has yet to publish. */
  ghost predicate DrawsAlone(s: State, r: nat) {
    forall u, l, v :: !Holds(s.grants, u, l, v, r)
  }

  ghost predicate NeverOverlaps(run: seq<State>, acts: seq<Action>, r: nat) {
    forall k: nat, v: nat :: Drew(run, acts, k, r, v) ==> DrawsAlone(run[k], r)
  }

  /** The token yet to be published for r, if any, is the only one and above the current one. */
  ghost predicate Ascending(s: State, r: nat) {
    && (r in s.resourceTokens ==> s.resourceTokens[r] <= s.counter)
    && (forall t, l, v: nat :: Holds(s.grants, t, l, v, r) ==> v <= s.counter && (r in s.resourceTokens ==> s.resourceTokens[r] < v))
    && (forall t, u, l, m, v, w :: Holds(s.grants, t, l, v, r) && Holds(s.grants, u, m, w, r) ==> t == u)
  }

  lemma StepKeepsAscending(s: State, a: Action, r: nat)
    requires Ascending(s, r) && Enabled(s, a) && (a.Draw? && s.grants[a.thread].resource == r ==> DrawsAlone(s, r))
    ensures Ascending(Do(s, a), r)
  {
    var s' := Do(s, a);
    CurrentAfter(s, a);
    forall t, u, l, m, v, w | Holds(s'.grants, t, l, v, r) && Holds(s'.grants, u, m, w, r) ensures t == u {
      HeldAfter(s, a, t, l, v, r);
      HeldAfter(s, a, u, m, w, r);
    }
    forall t, l, v: nat | Holds(s'.grants, t, l, v, r) ensures v <= s'.counter && (r in s'.resourceTokens ==> s'.resourceTokens[r] < v) {
      HeldAfter(s, a, t, l, v, r);
    }
  }

  lemma {:induction false} RunKeepsAscending(run: seq<State>, acts: seq<Action>, i: nat, r: nat)
    requires IsRun(run, acts) && NeverOverlaps(run, acts, r) && i < |run|
    ensures Ascending(run[i], r)
  {
    if i > 0 {
      RunKeepsAscending(run, acts, i - 1, r);
      assert StepAt(run, acts, i - 1);
      if acts[i - 1].Draw? && run[i - 1].grants[acts[i - 1].thread].resource == r {
        assert Drew(run, acts, i - 1, r, run[i - 1].counter + 1);
      }
      StepKeepsAscending(run[i - 1], acts[i - 1], r);
    }
  }

  /** When grants for a resource do not overlap, every new owner's token is higher than the last. */
  lemma TokensGoUp(run: seq<State>, acts: seq<Action>, r: nat)
    requires IsRun(run, acts) && NeverOverlaps(run, acts, r)
    ensures Ascends(run, acts, r)
  {
    forall k: nat, v: nat | Publishes(run, acts, k, r, v) && r in run[k].resourceTokens ensures run[k].resourceTokens[r] < v {
      RunKeepsAscending(run, acts, k, r);
      assert Holds(run[k].grants, acts[k].thread, run[k].grants[acts[k].thread].lease, v, r);
    }
  }

  ghost predicate Reached(s: State) {
    exists run, acts :: IsRun(run, acts) && run[|run| - 1] == s
  }

  lemma ReachNext(s: State, a: Action)
    requires Reached(s) && Enabled(s, a)
    ensures Reached(Do(s, a))
  {
    var run, acts :| IsRun(run, acts) && run[|run| - 1] == s;
    var run', acts' := run + [Do(s, a)], acts + [a];
    forall i | 0 <= i < |acts'| ensures StepAt(run', acts', i) {
      if i < |acts| {
        assert StepAt(run, acts, i);
      }
    }
    assert IsRun(run', acts') && run'[|run'| - 1] == Do(s, a);
  }

  lemma PrepareLease(s: State, t: nat, w: nat, r: nat) returns (end: State)
    requires Reached(s) && t !in s.grants && forall l :: l in s.leases ==> s.leases[l].workload != w
    ensures Reached(end) && end.grants == s.grants[t := Inserted(s.nextLease, r)]
    ensures end.resourceTokens == s.resourceTokens && end.counter == s.counter
    ensures end.leases == s.leases[s.nextLease := Lease(w, r, s.now + s.duration, 1, true)]
  {
    ReachNext(s, Check(t, w, r, true));
    var s1 := Do(s, Check(t, w, r, true));
    assert s1 == s.(grants := s.grants[t := Checked(w, r, true, s.now)]);
    ReachNext(s1, Insert(t, s.now));
    end := Do(s1, Insert(t, s.now));
    assert end == DoInsert(s1, t, s.now);
  }

  lemma PrepareToken(s: State, t: nat, l: nat, r: nat) returns (end: State)
    requires Reached(s) && t in s.grants && s.grants[t] == Inserted(l, r)
    ensures Reached(end) && end.grants == s.grants[t := Recorded(l, r, s.counter + 1)]
    ensures end.resourceTokens == s.resourceTokens && end.counter == s.counter + 1 && end.leases == s.leases
  {
    ReachNext(s, Draw(t));
    var s1 := Do(s, Draw(t));
    assert s1 == DoDraw(s, t);
    ReachNext(s1, StoreLeaseToken(t));
    end := Do(s1, StoreLeaseToken(t));
    assert end == DoStoreLease(s1, t);
  }

  /** A grant that stops just before publishing its token. */
  lemma Prepare(s: State, t: nat, w: nat, r: nat) returns (end: State)
    requires Reached(s) && t !in s.grants && forall l :: l in s.leases ==> s.leases[l].workload != w
    ensures Reached(end) && end.grants == s.grants[t := Recorded(s.nextLease, r, s.counter + 1)]
    ensures end.resourceTokens == s.resourceTokens && end.counter == s.counter + 1
    ensures end.leases == s.leases[s.nextLease := Lease(w, r, s.now + s.duration, 1, true)]
  {
    var mid := PrepareLease(s, t, w, r);
    end := PrepareToken(mid, t, s.nextLease, r);
  }

  /** Two overlapping grants for one resource can publish in the other order, so the current token goes down. */
  lemma TokensCanGoDown() returns (s: State, a: Action)
    ensures Reached(s) && Enabled(s, a) && 0 in s.resourceTokens && 0 in Do(s, a).resourceTokens
    ensures Do(s, a).resourceTokens[0] < s.resourceTokens[0]
  {
    var s0 := State(0, 10, map[], map[], map[], 0, 0, map[], map[], map[], {});
    assert IsRun([s0], []) && [s0][|[s0]| - 1] == s0;
    var s1 := Prepare(s0, 1, 1, 0);
    var s2 := Prepare(s1, 2, 2, 0);
    ReachNext(s2, StoreResourceToken(2));
    s, a := Do(s2, StoreResourceToken(2)), StoreResourceToken(1);
  }

  // ---------------------------------------------------------------------------
  // The manager object
  // ---------------------------------------------------------------------------

  datatype Error = AlreadyExists | NotFound | LeaseConflict | LeaseExpired | FailedPrecondition

  datatype Fenced = Fenced(lease: nat, token: nat)

  /** No lease comes back, and those that stay keep their terms and are only prolonged. */
  ghost predicate Continues(s: State, s': State) {
    && s.nextLease <= s'.nextLease
    && forall l :: l in s'.leases && l < s.nextLease ==>
         && l in s.leases && s.leases[l].expires <= s'.leases[l].expires
         && s'.leases[l].workload == s.leases[l].workload && s'.leases[l].resource == s.leases[l].resource && s'.leases[l].renewable == s.leases[l].renewable
  }

  /** What one thread may count on while others run. */
  ghost predicate Spares(s: State, s': State, t: nat) {
    && s'.duration == s.duration && Continues(s, s')
    && s.now <= s'.now && s.counter <= s'.counter
    && (t in s.grants <==> t in s'.grants) && (t in s.grants ==> s'.grants[t] == s.grants[t])
    && (t in s.sweeps <==> t in s'.sweeps) && (t in s.sweeps ==> s'.sweeps[t] == s.sweeps[t])
    && (forall v :: v in s.owners ==> v in s'.owners && s'.owners[v] == s.owners[v])
  }

  predicate Foreign(a: Action, t: nat) {
    match a
    case Tick(_) => true
    case Release(_) => true
    case Renew(_, _) => true
    case _ => a.thread != t
  }

  lemma ForeignStepsSpare(s: State, a: Action, t: nat)
    requires Owned(s) && Timely(s) && Enabled(s, a) && Foreign(a, t)
    ensures Spares(s, Do(s, a), t)
  {
    StepContinues(s, a);
    CurrentAfter(s, a);
  }

  lemma StepContinues(s: State, a: Action)
    requires Timely(s) && Enabled(s, a)
    ensures Continues(s, Do(s, a))
  {}

  lemma DurationStays(s: State, a: Action)
    requires Enabled(s, a)
    ensures Do(s, a).duration == s.duration
  {}

  lemma StepKeepsInv(s: State, a: Action)
    requires Inv(s) && Enabled(s, a)
    ensures Inv(Do(s, a))
  {
    StepKeepsOwned(s, a);
    StepKeepsStaged(s, a);
    StepKeepsOneLeaseEach(s, a);
    StepKeepsTimely(s, a);
  }

  class LeaseManager {
    const duration: int
    var now: int
    var leases: map<nat, Lease>
    var leaseTokens: map<nat, nat>
    var resourceTokens: map<nat, nat>
    var counter: nat
    var nextLease: nat
    var grants: map<nat, Grant>
    var sweeps: map<nat, set<nat>>
    var owners: map<nat, Owner>
    var retired: set<nat>

    function View(): State
      reads this
    {
      State(now, duration, leases, leaseTokens, resourceTokens, counter, nextLease, grants, sweeps, owners, retired)
    }

    ghost predicate Valid()
      reads this
    {
      Inv(View())
    }

    constructor (duration: int, now: int)
      ensures Valid() && Initial(View()) && this.duration == duration && this.now == now
    {
      this.duration, this.now := duration, now;
      leases, leaseTokens, resourceTokens, counter, nextLease := map[], map[], map[], 0, 0;
      grants, sweeps, owners, retired := map[], map[], map[], {};
    }

    /** One lock section. */
    method Perform(a: Action)
      requires Valid() && Enabled(View(), a)
      modifies this
      ensures Valid() && View() == Do(old(View()), a)
    {
      StepKeepsInv(View(), a);
      DurationStays(View(), a);
      Become(Do(View(), a));
    }

    method Become(s: State)
      requires s.duration == duration
      modifies this
      ensures View() == s
    {
      now, leases, leaseTokens, resourceTokens, counter := s.now, s.leases, s.leaseTokens, s.resourceTokens, s.counter;
      nextLease, grants, sweeps, owners, retired := s.nextLease, s.grants, s.sweeps, s.owners, s.retired;
    }

    /** Any lock sections of other threads, or none when alone. */
    method Interfere(t: nat, alone: bool)
      requires Valid()
      modifies this
      ensures Valid() && Spares(old(View()), View(), t)
      ensures alone ==> View() == old(View())
    {
      if alone {
        return;
      }
      var steps: nat := *;
      while steps > 0
        invariant Valid() && Spares(old(View()), View(), t)
      {
        var a: Action := *;
        if Enabled(View(), a) && Foreign(a, t) {
          ForeignStepsSpare(View(), a, t);
          Perform(a);
        }
        steps := steps - 1;
      }
    }

    /** Time passes, and other threads run, around reading the clock. */
    method Stamp(t: nat, alone: bool) returns (stamp: int)
      requires Valid()
      modifies this
      ensures Valid() && Spares(old(View()), View(), t) && old(now) <= stamp <= now
      ensures alone ==> View() == old(View()) && stamp == now
    {
      Interfere(t, alone);
      stamp := now;
      Interfere(t, alone);
    }

    /** The first lock section. */
    method CheckFirst(t: nat, workload: nat, resource: nat, renewable: bool) returns (busy: bool)
      requires Valid() && t !in grants
      modifies this
      ensures Valid() && busy == HasValidLease(old(leases), workload, old(now))
      ensures View() == if busy then old(View()) else old(View()).(grants := old(grants)[t := Checked(workload, resource, renewable, now)])
    {
      busy := HasValidLease(leases, workload, now);
      Perform(Check(t, workload, resource, renewable));
      assert View() == DoCheck(old(View()), t, workload, resource, renewable);
    }

    /** `grant_internal`: two checks around the expiry stamp, then the insert. */
    method Reserve(t: nat, workload: nat, resource: nat, renewable: bool, alone: bool) returns (r: Result<nat, Error>)
      requires Valid() && t !in grants
      modifies this
      ensures Valid() && (r.Err? ==> r.error == AlreadyExists && t !in grants)
      ensures r.Ok? ==> t in grants && grants[t] == Inserted(r.value, resource)
      ensures old(counter) <= counter && old(now) <= now && old(nextLease) <= nextLease && (r.Ok? ==> old(nextLease) <= r.value < nextLease)
      ensures r.Ok? ==> r.value in leases && leases[r.value] == Lease(workload, resource, leases[r.value].expires, 1, renewable)
      ensures r.Ok? ==> old(now) + duration <= leases[r.value].expires
      ensures alone ==> (r.Err? <==> HasValidLease(old(leases), workload, old(now)))
      ensures alone && r.Err? ==> View() == old(View())
      ensures alone && r.Ok? ==> counter == old(counter) && now == old(now) && leaseTokens == old(leaseTokens) && resourceTokens == old(resourceTokens)
                                 && leases == old(leases)[r.value := Lease(workload, resource, now + duration, 1, renewable)]
    {
      var busy := CheckFirst(t, workload, resource, renewable);
      if busy {
        return Err(AlreadyExists);
      }
      var stamp := Stamp(t, alone);
      r := InsertChecked(t, stamp);
    }

    /** The second lock section: the check again, then the insert. */
    method InsertChecked(t: nat, stamp: int) returns (r: Result<nat, Error>)
      requires Valid() && t in grants && grants[t].Checked? && grants[t].since <= stamp <= now
      modifies this
      ensures Valid() && View() == DoInsert(old(View()), t, stamp)
      ensures r.Err? ==> r.error == AlreadyExists && t !in grants
      ensures r.Ok? ==> t in grants && grants[t] == Inserted(r.value, old(grants)[t].resource) && r.value == old(nextLease)
      ensures r.Err? <==> HasValidLease(old(leases), old(grants)[t].workload, now)
      ensures r.Ok? ==> leases == old(leases)[r.value := Lease(old(grants)[t].workload, old(grants)[t].resource, stamp + duration, 1, old(grants)[t].renewable)]
    {
      Perform(Insert(t, stamp));
      assert View() == DoInsert(old(View()), t, stamp);
      r := if t in grants then Ok(grants[t].lease) else Err(AlreadyExists);
    }

    /** A token is drawn, stored for the lease, then stored for the resource. */
    method Publish(t: nat, alone: bool) returns (token: nat)
      requires Valid() && t in grants && grants[t].Inserted?
      modifies this
      ensures Valid() && t !in grants && Continues(old(View()), View()) && old(now) <= now
      ensures old(counter) < token <= counter && token in owners
      ensures owners[token] == Owner(old(grants)[t].lease, old(grants)[t].resource)
      ensures old(grants)[t].resource in resourceTokens && resourceTokens[old(grants)[t].resource] == token
      ensures alone ==> now == old(now) && leases == old(leases) && leaseTokens == old(leaseTokens)[old(grants)[t].lease := token]
      ensures alone ==> resourceTokens == old(resourceTokens)[old(grants)[t].resource := token]
    {
      ghost var g := grants[t];
      Perform(Draw(t));
      assert View() == DoDraw(old(View()), t);
      token := counter;
      Interfere(t, alone);
      label mid:
      Perform(StoreLeaseToken(t));
      assert View() == DoStoreLease(old@mid(View()), t);
      Interfere(t, alone);
      label late:
      Perform(StoreResourceToken(t));
      assert View() == DoStoreResource(old@late(View()), t);
    }

    /** A fenced grant publishes a token that was never drawn before, for the lease it inserted. */
    method GrantFenced(t: nat, workload: nat, resource: nat, renewable: bool, alone: bool) returns (r: Result<Fenced, Error>)
      requires Valid() && t !in grants
      modifies this
      ensures Valid() && t !in grants
      ensures r.Err? ==> r.error == AlreadyExists
      ensures r.Ok? ==> resource in resourceTokens && resourceTokens[resource] == r.value.token
      ensures r.Ok? ==> old(counter) < r.value.token <= counter && old(nextLease) <= r.value.lease < nextLease
      ensures r.Ok? ==> r.value.token in owners && owners[r.value.token] == Owner(r.value.lease, resource)
      ensures r.Ok? && r.value.lease in leases ==>
                var m := leases[r.value.lease];
                m.workload == workload && m.resource == resource && m.renewable == renewable && old(now) + duration <= m.expires <= now + duration
      ensures alone ==> (r.Err? <==> exists l :: l in old(leases) && old(leases)[l].workload == workload && old(now) < old(leases)[l].expires)
      ensures alone && r.Err? ==> View() == old(View())
      ensures alone && r.Ok? ==>
                && leases == old(leases)[r.value.lease := Lease(workload, resource, old(now) + duration, 1, renewable)]
                && leaseTokens == old(leaseTokens)[r.value.lease := r.value.token] && resourceTokens == old(resourceTokens)[resource := r.value.token]
      ensures alone && r.Ok? ==> (Authorizes(View(), r.value.lease, r.value.token) <==> duration > 0)
    {
      var lease := Reserve(t, workload, resource, renewable, alone);
      if lease.Err? {
        return Err(lease.error);
      }
      Interfere(t, alone);
      var token := Publish(t, alone);
      r := Ok(Fenced(lease.value, token));
    }

    /** Succeeds exactly on a valid renewable lease of the expected generation; the first failed test is reported. */
    method RenewLease(l: nat, generation: nat) returns (r: Result<Lease, Error>)
      requires Valid()
      modifies this
      ensures Valid() && (r.Ok? <==> CanRenew(old(View()), l, generation))
      ensures r.Ok? ==> View() == old(View()).(leases := old(leases)[l := r.value])
      ensures r.Ok? ==> r.value == old(leases)[l].(expires := now + duration, generation := generation + 1)
      ensures r.Err? ==> View() == old(View())
      ensures r == Err(NotFound) <==> l !in old(leases)
      ensures r == Err(LeaseConflict) <==> l in old(leases) && old(leases)[l].generation != generation
      ensures r == Err(LeaseExpired) <==> l in old(leases) && old(leases)[l].generation == generation && old(leases)[l].expires <= now
      ensures r == Err(FailedPrecondition) <==> l in old(leases) && old(leases)[l].generation == generation && now < old(leases)[l].expires && !old(leases)[l].renewable
    {
      if l !in leases {
        return Err(NotFound);
      }
      if leases[l].generation != generation {
        return Err(LeaseConflict);
      }
      if !IsValid(leases[l], now) {
        return Err(LeaseExpired);
      }
      if !leases[l].renewable {
        return Err(FailedPrecondition);
      }
      Perform(Renew(l, generation));
      r := Ok(leases[l]);
    }

    method ReleaseLease(l: nat) returns (r: Result<(), Error>)
      requires Valid()
      modifies this
      ensures Valid() && (r.Ok? <==> l in old(leases)) && (r.Err? ==> r.error == NotFound)
      ensures leases == old(leases) - {l}
      ensures r.Ok? ==> leaseTokens == old(leaseTokens) - {l} && forall v :: !Authorizes(View(), l, v)
      ensures r.Err? ==> View() == old(View())
      ensures resourceTokens == old(resourceTokens)
    {
      if l !in leases {
        return Err(NotFound);
      }
      Perform(Release(l));
      r := Ok(());
    }

    method Authorize(l: nat, token: nat) returns (r: bool)
      requires Valid()
      ensures r <==> Authorizes(View(), l, token)
      ensures r <==> l in leases && now < leases[l].expires && (l, token) in leaseTokens.Items && (leases[l].resource, token) in resourceTokens.Items
      ensures r ==> forall m, w :: m in leases && leases[m].resource == leases[l].resource && Authorizes(View(), m, w) ==> m == l && w == token
    {
      if l !in leases || !IsValid(leases[l], now) || l !in leaseTokens || leases[l].resource !in resourceTokens {
        return false;
      }
      r := leaseTokens[l] == token && resourceTokens[leases[l].resource] == token;
    }

    /** Drops every lease that is past its expiry, then their tokens. */
    method ExpireStale(t: nat, alone: bool) returns (expired: set<nat>)
      requires Valid() && t !in sweeps
      modifies this
      ensures Valid() && t !in sweeps
      ensures forall l :: l in expired <==> l in old(leases) && old(leases)[l].expires <= old(now)
      ensures alone ==> leases == old(leases) - expired && leaseTokens == old(leaseTokens) - expired && resourceTokens == old(resourceTokens)
    {
      expired := set l | l in leases && !IsValid(leases[l], now);
      Perform(Sweep(t));
      assert View() == DoSweep(old(View()), t);
      Interfere(t, alone);
      label mid:
      Perform(SweepTokens(t));
      assert leaseTokens == old@mid(leaseTokens) - expired && leases == old@mid(leases);
    }
  }
}
