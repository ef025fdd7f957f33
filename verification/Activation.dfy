/**
 Activation scopes: SecretAgent requests are correlated with the activation that owns
 their time budget. A scope's fields are atomics and one first-wins slot; a global table
 maps an identity to a weak reference to its newest scope.
 */
module Activation {
  import opened Wrappers

  /** Milliseconds kept back for authentication once credentials were supplied. */
  const AUTHENTICATION_RESERVE: nat := 15_000

  datatype CredentialStop = Cancelled | Expired | Unavailable

  datatype Scope = Scope(deadline: nat, finished: bool, pending: nat, missingFrontend: bool,
                         failure: Option<CredentialStop>, wakes: nat)

  function NewScope(deadline: nat): Scope {
    Scope(deadline, false, 0, false, None, 0)
  }

  predicate Live(s: Scope, now: nat) {
    !s.finished && now < s.deadline && s.failure.None?
  }

  function CredentialDeadline(s: Scope): nat {
    if s.deadline < AUTHENTICATION_RESERVE then s.deadline else s.deadline - AUTHENTICATION_RESERVE
  }

  /** Atomic subtraction on a machine word; the counter is proved never to be zero here. */
  function WrappingDec(n: nat): nat {
    if n == 0 then 0xFFFF_FFFF_FFFF_FFFF else n - 1
  }

  /** The first reason wins, and only it wakes the verifier. */
  function Stop(s: Scope, reason: CredentialStop): Scope {
    if s.failure.None? then s.(failure := Some(reason), wakes := s.wakes + 1) else s
  }

  predicate OverBudget(s: Scope, now: nat) {
    !s.finished && s.pending > 0 && now >= CredentialDeadline(s)
  }

  /** The verifier enforces the credential budget even if no worker came back to check it. */
  function CheckBudget(s: Scope, now: nat): Scope {
    if OverBudget(s, now) then Stop(s, Expired) else s
  }

  /** Only NetworkManager's own terminal failure is blamed on a missing frontend. */
  function BlameFrontend(s: Scope, secretsMissing: bool): Scope {
    if s.missingFrontend && secretsMissing then Stop(s, Unavailable) else s
  }

  /** A scope in place; `guards` counts the credential guards handed out and not yet dropped. */
  class State {
    const deadline: nat
    var finished: bool
    var pending: nat
    var missingFrontend: bool
    var failure: Option<CredentialStop>
    var wakes: nat
    ghost var guards: nat

    ghost function View(): Scope reads this {
      Scope(deadline, finished, pending, missingFrontend, failure, wakes)
    }

    ghost predicate Valid() reads this {
      pending == guards && wakes == (if failure.Some? then 1 else 0)
    }

    constructor (deadline: nat)
      ensures Valid() && View() == NewScope(deadline) && guards == 0
    {
      this.deadline := deadline;
      finished, pending, missingFrontend, failure, wakes := false, 0, false, None, 0;
      guards := 0;
    }

    method StopWith(reason: CredentialStop)
      requires Valid()
      modifies this`failure, this`wakes
      ensures Valid() && View() == Stop(old(View()), reason)
    {
      if failure.None? {
        failure := Some(reason);
        wakes := wakes + 1;
      }
    }

    method Error(now: nat) returns (reason: Option<CredentialStop>)
      requires Valid()
      modifies this`failure, this`wakes
      ensures Valid() && View() == CheckBudget(old(View()), now) && reason == failure
      ensures reason.None? ==> finished || guards == 0 || now < CredentialDeadline(View())
    {
      if !finished && pending > 0
         && now >= (if deadline < AUTHENTICATION_RESERVE then deadline else deadline - AUTHENTICATION_RESERVE) {
        StopWith(Expired);
      }
      reason := failure;
    }

    /** The verifier's answer to a NetworkManager failure. */
    method ActivationError(secretsMissing: bool, now: nat) returns (reason: Option<CredentialStop>)
      requires Valid()
      modifies this`failure, this`wakes
      ensures Valid() && View() == CheckBudget(BlameFrontend(old(View()), secretsMissing), now) && reason == failure
      ensures old(failure).Some? ==> reason == old(failure)
      ensures old(failure).None? && missingFrontend && secretsMissing ==> reason == Some(Unavailable)
    {
      if missingFrontend && secretsMissing {
        StopWith(Unavailable);
      }
      reason := Error(now);
    }

    /** A mark for later: a NetworkManager failure for want of secrets is blamed on the frontend
        exactly while none is available, and only if nothing else stopped the scope before. */
    method NoteFrontendAvailability(available: bool)
      requires Valid()
      modifies this`missingFrontend
      ensures Valid() && View() == old(View()).(missingFrontend := !available)
      ensures forall missing :: BlameFrontend(View(), missing).failure
                                == if failure.None? && !available && missing then Some(Unavailable) else failure
    {
      missingFrontend := !available;
    }

    /** The activation guard is dropped: whatever the budget says, the scope is not live. */
    method Finish()
      requires Valid()
      modifies this`finished
      ensures Valid() && View() == old(View()).(finished := true)
      ensures forall now :: !Live(View(), now) && CheckBudget(View(), now) == View()
    {
      finished := true;
    }

    /** Hands out a credential guard. */
    method TrackCredentials()
      requires Valid()
      modifies this`pending, this`guards
      ensures Valid() && guards == old(guards) + 1
    {
      pending := pending + 1;
      guards := guards + 1;
    }

    /** A guard is dropped; one exists, so the counter does not wrap. */
    method ReleaseCredentials()
      requires Valid() && guards > 0
      modifies this`pending, this`guards
      ensures Valid() && guards == old(guards) - 1 && pending == old(pending) - 1
    {
      pending := WrappingDec(pending);
      guards := guards - 1;
    }
  }

  // ------------------------------------------------------------------ runs

  type Key = (string, string)
  type ScopeId = nat

  datatype Phase = Undropped | Finishing | Dropped

  datatype Guard = Guard(key: Key, phase: Phase)

  /** `scopes` and `guards` are indexed by creation order. A strong reference to a scope is
      held by its guard until dropped, by credential guards and by requests. */
  datatype System = System(
    active: map<Key, ScopeId>,
    scopes: seq<Scope>,
    guards: seq<Guard>,
    credentials: multiset<ScopeId>,
    requests: multiset<ScopeId>,
    replaced: set<ScopeId>,         // displaced by a newer guard, not yet marked finished
    now: nat)

  predicate Strong(s: System, id: ScopeId)
    requires id < |s.guards|
  {
    s.guards[id].phase != Dropped || id in s.credentials || id in s.requests
  }

  /** `Weak::upgrade` of a table entry. */
  function Upgrade(s: System, key: Key): Option<ScopeId> {
    if key in s.active && s.active[key] < |s.guards| && Strong(s, s.active[key]) then Some(s.active[key]) else None
  }

  function Find(s: System, key: Key): Option<ScopeId> {
    Upgrade(s, key)
  }

  datatype Action =
    | Create(key: Key, deadline: nat)
    | FinishReplaced(id: ScopeId)
    | BeginDrop(id: ScopeId)
    | EndDrop(id: ScopeId)
    | StopScope(id: ScopeId, reason: CredentialStop)
    | Verify(id: ScopeId, secretsMissing: bool)
    | Note(id: ScopeId, available: bool)
    | Attach(key: Key)
    | Detach(id: ScopeId)
    | Track(id: ScopeId)
    | Release(id: ScopeId)
    | Tick(later: nat)

  predicate Enabled(s: System, a: Action) {
    match a
    case Create(_, _) => true
    case FinishReplaced(id) => id in s.replaced && id < |s.scopes|
    case BeginDrop(id) => id < |s.scopes| && id < |s.guards| && s.guards[id].phase == Undropped
    case EndDrop(id) => id < |s.guards| && s.guards[id].phase == Finishing
    case StopScope(id, _) => id < |s.scopes|
    case Verify(id, _) => id < |s.scopes|
    case Note(id, _) => id < |s.scopes|
    case Attach(_) => true
    case Detach(id) => id in s.requests
    case Track(id) => id < |s.scopes| && id in s.requests
    case Release(id) => id < |s.scopes| && id in s.credentials
    case Tick(later) => s.now <= later
  }

  function Next(s: System, a: Action): System
    requires Enabled(s, a)
  {
    match a
    case Create(key, deadline) =>
      var kept := map k | k in s.active && s.active[k] < |s.guards| && Strong(s, s.active[k]) :: s.active[k];
      s.(active := kept[key := |s.scopes|],
         scopes := s.scopes + [NewScope(deadline)],
         guards := s.guards + [Guard(key, Undropped)],
         replaced := if key in kept then s.replaced + {kept[key]} else s.replaced)
    case FinishReplaced(id) =>
      s.(scopes := s.scopes[id := Stop(s.scopes[id].(finished := true), Cancelled)], replaced := s.replaced - {id})
    case BeginDrop(id) =>
      s.(scopes := s.scopes[id := s.scopes[id].(finished := true)],
         guards := s.guards[id := s.guards[id].(phase := Finishing)])
    case EndDrop(id) =>
      s.(active := if Upgrade(s, s.guards[id].key) == Some(id) then s.active - {s.guards[id].key} else s.active,
         guards := s.guards[id := s.guards[id].(phase := Dropped)])
    case StopScope(id, reason) => s.(scopes := s.scopes[id := Stop(s.scopes[id], reason)])
    case Verify(id, missing) => s.(scopes := s.scopes[id := CheckBudget(BlameFrontend(s.scopes[id], missing), s.now)])
    case Note(id, available) => s.(scopes := s.scopes[id := s.scopes[id].(missingFrontend := !available)])
    case Attach(key) =>
      if Find(s, key).Some? then s.(requests := s.requests + multiset{Find(s, key).value}) else s
    case Detach(id) => s.(requests := s.requests - multiset{id})
    case Track(id) =>
      s.(scopes := s.scopes[id := s.scopes[id].(pending := s.scopes[id].pending + 1)],
         credentials := s.credentials + multiset{id})
    case Release(id) =>
      s.(scopes := s.scopes[id := s.scopes[id].(pending := WrappingDec(s.scopes[id].pending))],
         credentials := s.credentials - multiset{id})
    case Tick(later) => s.(now := later)
  }

  const Start := System(map[], [], [], multiset{}, multiset{}, {}, 0)

  ghost predicate IsRun(run: seq<System>, actions: seq<Action>) {
    && |run| == |actions| + 1
    && run[0] == Start
    && forall k :: 0 <= k < |actions| ==> StepAt(run, actions, k)
  }

  ghost predicate StepAt(run: seq<System>, actions: seq<Action>, k: nat)
    requires |run| == |actions| + 1 && k < |actions|
  {
    Enabled(run[k], actions[k]) && run[k + 1] == Next(run[k], actions[k])
  }

  /** The newest guard of a key; later creation wins. */
  ghost predicate Newest(s: System, key: Key, id: ScopeId) {
    && id < |s.guards| && s.guards[id].key == key
    && forall j :: id < j < |s.guards| ==> s.guards[j].key != key
  }

  /** The table holds exactly the undropped newest guards. */
  ghost predicate TableInv(s: System) {
    && (forall k :: k in s.active ==> Newest(s, k, s.active[k]) && s.guards[s.active[k]].phase != Dropped)
    && (forall id :: 0 <= id < |s.guards| && s.guards[id].phase != Dropped && Newest(s, s.guards[id].key, id) ==>
          s.guards[id].key in s.active)
  }

  /** Only scopes that were created are referred to. */
  ghost predicate References(s: System) {
    && |s.scopes| == |s.guards|
    && (forall id :: id in s.replaced ==> id < |s.scopes|)
    && (forall id :: id in s.credentials ==> id < |s.scopes|)
  }

  ghost predicate Inv(s: System) {
    && References(s)
    && TableInv(s)
    && (forall id :: 0 <= id < |s.scopes| ==> ScopeOk(s, id))
  }

  /** The counter equals the live credential guards; a stop reason woke exactly once. */
  ghost predicate ScopeOk(s: System, id: ScopeId)
    requires id < |s.scopes|
  {
    s.scopes[id].pending == s.credentials[id] && WokeOnce(s.scopes[id])
  }

  predicate WokeOnce(x: Scope) {
    x.wakes == (if x.failure.Some? then 1 else 0)
  }

  /** Dead weak references are never in the table: pruning it removes nothing. */
  lemma PruneKeepsEverything(s: System)
    requires Inv(s)
    ensures (map k | k in s.active && s.active[k] < |s.guards| && Strong(s, s.active[k]) :: s.active[k]) == s.active
  {
  }

  lemma CreateKeepsTable(s: System, a: Action)
    requires Inv(s) && a.Create?
    ensures TableInv(Next(s, a))
  {
    var n := Next(s, a);
    PruneKeepsEverything(s);
    forall k | k in n.active ensures Newest(n, k, n.active[k]) && n.guards[n.active[k]].phase != Dropped {
      if k != a.key {
        assert Newest(s, k, s.active[k]);
      }
    }
    forall id | 0 <= id < |n.guards| && n.guards[id].phase != Dropped && Newest(n, n.guards[id].key, id)
      ensures n.guards[id].key in n.active
    {
      if id < |s.guards| {
        assert n.guards[|s.guards|].key == a.key;
        assert forall j :: id < j < |s.guards| ==> n.guards[j] == s.guards[j];
        assert Newest(s, s.guards[id].key, id);
      }
    }
  }

  lemma DropKeepsTable(s: System, a: Action)
    requires Inv(s) && Enabled(s, a) && (a.BeginDrop? || a.EndDrop?)
    ensures TableInv(Next(s, a))
  {
    var n := Next(s, a);
    forall k | k in n.active ensures Newest(n, k, n.active[k]) && n.guards[n.active[k]].phase != Dropped {
      assert Newest(s, k, s.active[k]);
    }
    forall id | 0 <= id < |n.guards| && n.guards[id].phase != Dropped && Newest(n, n.guards[id].key, id)
      ensures n.guards[id].key in n.active
    {
      assert forall j :: 0 <= j < |s.guards| ==> n.guards[j].key == s.guards[j].key;
      assert Newest(s, s.guards[id].key, id);
      assert s.guards[id].key in s.active;
      assert Newest(s, s.guards[id].key, s.active[s.guards[id].key]);
    }
  }

  lemma StepKeepsInv(s: System, a: Action)
    requires Inv(s) && Enabled(s, a)
    ensures Inv(Next(s, a))
  {
    StepKeepsTable(s, a);
    StepKeepsReferences(s, a);
    forall id | 0 <= id < |Next(s, a).scopes| ensures ScopeOk(Next(s, a), id) { StepKeepsScope(s, a, id); }
  }

  lemma StepKeepsTable(s: System, a: Action)
    requires Inv(s) && Enabled(s, a)
    ensures TableInv(Next(s, a))
  {
    match a
    case Create(_, _) => CreateKeepsTable(s, a);
    case BeginDrop(_) => DropKeepsTable(s, a);
    case EndDrop(_) => DropKeepsTable(s, a);
    case _ => SameTableKeepsInv(s, Next(s, a));
  }

  lemma StepKeepsReferences(s: System, a: Action)
    requires Inv(s) && Enabled(s, a)
    ensures References(Next(s, a))
  {
  }

  lemma StepKeepsScope(s: System, a: Action, id: ScopeId)
    requires Inv(s) && Enabled(s, a) && id < |Next(s, a).scopes|
    ensures ScopeOk(Next(s, a), id)
  {
    if id < |s.scopes| {
      assert ScopeOk(s, id);
      StepKeepsPending(s, a, id);
      StepKeepsWake(s, a, id);
    }
  }

  lemma StepKeepsPending(s: System, a: Action, id: ScopeId)
    requires Enabled(s, a) && id < |s.scopes| && s.scopes[id].pending == s.credentials[id]
    ensures id < |Next(s, a).scopes| && Next(s, a).scopes[id].pending == Next(s, a).credentials[id]
  {
  }

  lemma StepKeepsWake(s: System, a: Action, id: ScopeId)
    requires Enabled(s, a) && id < |s.scopes| && WokeOnce(s.scopes[id])
    ensures id < |Next(s, a).scopes| && WokeOnce(Next(s, a).scopes[id])
  {
  }

  lemma SameTableKeepsInv(s: System, n: System)
    requires TableInv(s) && n.guards == s.guards && n.active == s.active
    ensures TableInv(n)
  {
    forall k | k in n.active ensures Newest(n, k, n.active[k]) { assert Newest(s, k, s.active[k]); }
    forall id | 0 <= id < |n.guards| && Newest(n, n.guards[id].key, id) ensures Newest(s, s.guards[id].key, id) {
    }
  }

  lemma {:induction false} RunKeepsInv(run: seq<System>, actions: seq<Action>, k: nat)
    requires IsRun(run, actions) && k < |run|
    ensures Inv(run[k])
  {
    if k == 0 {
    } else {
      RunKeepsInv(run, actions, k - 1);
      assert StepAt(run, actions, k - 1);
      StepKeepsInv(run[k - 1], actions[k - 1]);
    }
  }

  /** `find` returns a scope exactly when it belongs to the most recently created guard of
      the key and that guard is not dropped; an older guard never shows through. */
  lemma FindReturnsNewestUndropped(run: seq<System>, actions: seq<Action>, k: nat, key: Key, id: ScopeId)
    requires IsRun(run, actions) && k < |run|
    ensures Find(run[k], key) == Some(id) <==>
              Newest(run[k], key, id) && run[k].guards[id].phase != Dropped
  {
    RunKeepsInv(run, actions, k);
    var s := run[k];
    if Newest(s, key, id) && s.guards[id].phase != Dropped {
      assert key in s.active && Newest(s, key, s.active[key]);
    }
    if Find(s, key) == Some(id) {
      assert Newest(s, key, s.active[key]);
    }
  }

  /** What no step takes back: the deadline, being finished, the first stop reason, the clock. */
  ghost predicate Keeps(s: System, n: System, id: ScopeId) {
    && id < |s.scopes| && id < |n.scopes| && s.now <= n.now
    && var x, y := s.scopes[id], n.scopes[id];
    && y.deadline == x.deadline && (x.finished ==> y.finished) && (x.failure.Some? ==> y.failure == x.failure)
  }

  lemma StepKeepsVerdict(s: System, a: Action, id: ScopeId)
    requires Enabled(s, a) && id < |s.scopes|
    ensures Keeps(s, Next(s, a), id)
  {
  }

  lemma LastStepKeeps(run: seq<System>, actions: seq<Action>, j: nat, id: ScopeId)
    requires IsRun(run, actions) && 0 < j < |run| && id < |run[j - 1].scopes|
    ensures Keeps(run[j - 1], run[j], id)
  {
    assert StepAt(run, actions, j - 1);
    StepKeepsVerdict(run[j - 1], actions[j - 1], id);
  }

  lemma {:induction false} KeptForGood(run: seq<System>, actions: seq<Action>, i: nat, j: nat, id: ScopeId)
    requires IsRun(run, actions) && i <= j < |run| && id < |run[i].scopes|
    ensures Keeps(run[i], run[j], id)
    decreases j
  {
    if i == j {
    } else {
      KeptForGood(run, actions, i, j - 1, id);
      LastStepKeeps(run, actions, j, id);
    }
  }

  /** A scope that is dead stays dead, and the first stop reason is permanent. */
  lemma DeadForGood(run: seq<System>, actions: seq<Action>, i: nat, j: nat, id: ScopeId)
    requires IsRun(run, actions) && i <= j < |run| && id < |run[i].scopes|
    ensures id < |run[j].scopes|
    ensures run[i].scopes[id].failure.Some? ==> run[j].scopes[id].failure == run[i].scopes[id].failure
    ensures !Live(run[i].scopes[id], run[i].now) ==> !Live(run[j].scopes[id], run[j].now)
  {
    KeptForGood(run, actions, i, j, id);
  }

  /** In every reachable state a scope woke its verifier once if it has a stop reason and
      never otherwise, and its counter equals its live credential guards. */
  lemma WakesOnceAndCountsCredentials(run: seq<System>, actions: seq<Action>, k: nat, id: ScopeId)
    requires IsRun(run, actions) && k < |run| && id < |run[k].scopes|
    ensures run[k].scopes[id].wakes == (if run[k].scopes[id].failure.Some? then 1 else 0)
    ensures run[k].scopes[id].pending == run[k].credentials[id]
  {
    RunKeepsInv(run, actions, k);
    assert ScopeOk(run[k], id);
  }

  /** Dropping a credential guard never wraps the counter: it counts down by exactly one. */
  lemma ReleaseNeverWraps(run: seq<System>, actions: seq<Action>, k: nat, id: ScopeId)
    requires IsRun(run, actions) && k < |run| && Enabled(run[k], Release(id))
    ensures 0 < run[k].scopes[id].pending
    ensures Next(run[k], Release(id)).scopes[id].pending == run[k].scopes[id].pending - 1
  {
    RunKeepsInv(run, actions, k);
    assert ScopeOk(run[k], id);
  }

  /** A live scope with credentials outstanding past their budget is stopped by the next
      verifier check, whatever its workers are doing; the reason is its first. */
  lemma VerifierEnforcesBudget(run: seq<System>, actions: seq<Action>, k: nat, id: ScopeId, secretsMissing: bool)
    requires IsRun(run, actions) && k < |run| && id < |run[k].scopes|
    requires Live(run[k].scopes[id], run[k].now) && id in run[k].credentials
    ensures var n := Next(run[k], Verify(id, secretsMissing));
            !Live(n.scopes[id], n.now) <==>
              run[k].now >= CredentialDeadline(run[k].scopes[id])
              || (run[k].scopes[id].missingFrontend && secretsMissing)
  {
    RunKeepsInv(run, actions, k);
    assert ScopeOk(run[k], id);
  }
}
