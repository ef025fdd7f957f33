/**
 Whole runs of the operation registry: workers, cancellers, the deadline timer, owner
 loss, NetworkManager restarts and result eviction interleave at their locked regions.

 `System` adds what the threads hold outside the locks: the registrations owned by live
 workers, cancellations that were claimed but whose abort is not queued yet, and a record
 of every terminal event ever published.
 */
module RuntimeRuns {
  import opened Wrappers
  import opened Runtime

  datatype Worker = Worker(owner: Owner, kind: TaskKind, flag: Flag)

  datatype System = System(
    registry: Registry,
    workers: map<RequestId, Worker>,     // live registrations and what their closures captured
    owners: map<RequestId, Owner>,       // every request id ever issued
    nextFlag: Flag,
    claims: set<RequestId>,              // claimed for cancellation, abort not queued yet
    aborts: set<RequestId>,              // activation aborts handed to the work lane
    recorded: map<RequestId, Event>)     // the terminal events ever stored

  /** One step is one locked region of one thread. Request ids come from a sequence and are
      never reused; only the worker holding a registration publishes for it. */
  datatype Action =
    | Register(id: RequestId, kind: TaskKind, owner: Owner, ssid: Option<seq<bv8>>, nm: string)
    | WorkerRaises(id: RequestId)
    | PublishTerminal(id: RequestId, event: Event, ownerChanged: bool)
    | PublishProgress(id: RequestId, event: Event)
    | Deadline(id: RequestId)
    | CancelRequest(id: RequestId, owner: Owner)
    | OwnerLost(lost: string)
    | NmOwnerChanged(owner: Owner)
    | ForgetSsid(target: seq<bv8>)
    | ShutDown
    | QueueAbort(id: RequestId)
    | WorkerReturns(id: RequestId)
    | Evict(id: RequestId)

  predicate Enabled(s: System, a: Action) {
    match a
    case Register(id, _, _, _, _) => id !in s.owners
    case WorkerRaises(id) => id in s.workers
    case PublishTerminal(id, event, _) => id in s.workers && event.name in {Succeeded, Failed, Cancelled}
    case PublishProgress(id, _) => id in s.workers
    case WorkerReturns(id) => id in s.workers
    case QueueAbort(id) => id in s.claims
    case _ => true
  }

  function Claim(s: System, ids: set<RequestId>): System
    requires ids <= s.registry.tasks.Keys
  {
    s.(registry := Raise(s.registry, ids),
       claims := s.claims + set id | id in ids && AbortsOnCancel(s.registry.tasks[id]))
  }

  function Next(s: System, a: Action): System
    requires Enabled(s, a)
  {
    var r := s.registry;
    match a
    case Register(id, kind, owner, ssid, nm) =>
      s.(registry := r.(tasks := r.tasks[id := NewTask(nm, kind, owner, ssid, s.nextFlag)]),
         workers := s.workers[id := Worker(owner, kind, s.nextFlag)],
         owners := s.owners[id := owner],
         nextFlag := s.nextFlag + 1)
    case WorkerRaises(id) => s.(registry := r.(raised := r.raised + {s.workers[id].flag}))
    case PublishTerminal(id, event, ownerChanged) =>
      var w := s.workers[id];
      var (r1, _) := StoreTerminal(r, id, w.owner, w.kind.Stream(), event, ownerChanged);
      s.(registry := r1,
         recorded := if id in r1.results && id !in r.results then s.recorded[id := r1.results[id].event]
                     else s.recorded)
    case PublishProgress(id, event) => s.(registry := StoreProgress(r, id, s.workers[id].owner, event).0)
    case Deadline(id) => Claim(s, ExpireClaims(r, id)).(registry := Expire(r, id))
    case CancelRequest(id, owner) => Claim(s, CancelClaims(r, id, owner))
    case OwnerLost(lost) => Claim(s, OwnerClaims(r, lost))
    case NmOwnerChanged(owner) => s.(registry := Raise(r, NmOwnerVictims(r, owner)))
    case ForgetSsid(target) => s.(registry := Raise(r, SsidVictims(r, target)))
    case ShutDown => s.(registry := Raise(r, r.tasks.Keys))
    case QueueAbort(id) => s.(claims := s.claims - {id}, aborts := s.aborts + {id})
    case WorkerReturns(id) =>
      s.(registry := DropRegistration(r, id, s.workers[id].flag), workers := s.workers - {id})
    case Evict(id) => s.(registry := r.(results := r.results - {id}))
  }

  const Start := System(Registry(map[], map[], {}), map[], map[], 0, {}, {}, map[])

  /** `run[k]` is the state before `actions[k]`. */
  ghost predicate IsRun(run: seq<System>, actions: seq<Action>) {
    && |run| == |actions| + 1
    && run[0] == Start
    && forall k :: 0 <= k < |actions| ==> StepAt(run, actions, k)
  }

  ghost predicate StepAt(run: seq<System>, actions: seq<Action>, k: nat)
    requires |run| == |actions| + 1 && k < |actions|
  {
    Enabled(run[k], actions[k]) && run[k + 1] == Next(run[k], actions[k])
  }

  // ------------------------------------------------------------------ invariant

  /** A live worker's registration and its task agree, and its result is its own. */
  ghost predicate TaskOk(s: System, id: RequestId)
    requires id in s.registry.tasks
  {
    var t := s.registry.tasks[id];
    && id in s.owners && s.owners[id] == t.owner
    && id in s.workers && s.workers[id] == Worker(t.owner, t.kind, t.flag)
    && t.flag < s.nextFlag && t.revision <= U64_MAX
    && (t.progress.Some? && !t.terminal ==> t.progress.value.revision == Some(t.revision))
    && (t.terminal <==> id in s.recorded)
  }

  ghost predicate ResultOk(s: System, id: RequestId)
    requires id in s.registry.results
  {
    var x := s.registry.results[id];
    && id in s.owners && x.owner == s.owners[id]
    && id in s.recorded && s.recorded[id] == x.event
    && x.event.revision == Some(x.revision)
    && (id in s.registry.tasks ==>
          x.stream == s.registry.tasks[id].kind.Stream() && x.revision == s.registry.tasks[id].revision)
  }

  /** A connect whose flag rose before it completed: it holds no success and never will. */
  ghost predicate Doomed(s: System, id: RequestId) {
    && id in s.owners
    && (id in s.registry.tasks ==>
          s.registry.tasks[id].kind == Connect && s.registry.tasks[id].flag in s.registry.raised)
    && (id in s.recorded ==> s.recorded[id].name != Succeeded)
  }

  ghost predicate Inv(s: System) {
    && s.registry.tasks.Keys == s.workers.Keys
    && s.recorded.Keys <= s.owners.Keys
    && (forall id :: id in s.registry.tasks ==> TaskOk(s, id))
    && (forall id :: id in s.registry.results ==> ResultOk(s, id))
    && (forall id :: id in s.claims + s.aborts ==> Doomed(s, id))
  }

  // ------------------------------------------------------------------ one step

  /** What one step may do to a known request: its task only moves forward, its retained
      result is kept, evicted or recorded for the first time, its terminal never changes,
      and a raised flag turns a success away. */
  ghost predicate Advances(s: System, n: System, id: RequestId) {
    var r, q := s.registry, n.registry;
    && id in s.owners && id in n.owners && n.owners[id] == s.owners[id]
    && (id in q.tasks ==>
          && id in r.tasks
          && var t, u := r.tasks[id], q.tasks[id];
          && u.kind == t.kind && u.owner == t.owner && u.flag == t.flag && t.revision <= u.revision
          && (t.terminal ==> u.terminal) && (t.timedOut ==> u.timedOut)
          && (t.flag in r.raised ==> t.flag in q.raised))
    && (id in q.results ==>
          if id in r.results then q.results[id] == r.results[id] else
          && id in r.tasks && !r.tasks[id].terminal
          && q.results[id].stream == r.tasks[id].kind.Stream() && r.tasks[id].revision <= q.results[id].revision)
    && (id in s.recorded ==> id in n.recorded && n.recorded[id] == s.recorded[id])
    && (id in n.recorded && id !in s.recorded ==>
          && id in r.tasks
          && (r.tasks[id].kind == Connect && r.tasks[id].flag in r.raised ==> n.recorded[id].name != Succeeded))
  }

  ghost predicate Good(s: System, n: System) {
    Inv(n) && forall id :: id in s.owners ==> Advances(s, n, id)
  }

  /** Progress, a timer's mark, or nothing, on a task that stays open. */
  ghost predicate Updated(t: TaskHandle, u: TaskHandle) {
    t == u || (
      && !t.terminal && u == t.(revision := u.revision, progress := u.progress, timedOut := u.timedOut)
      && t.revision <= u.revision <= U64_MAX && (t.timedOut ==> u.timedOut)
      && (u.progress.Some? ==> u.progress.value.revision == Some(u.revision)))
  }

  /** Steps that complete nothing: they raise flags, update open tasks or claim open connects. */
  lemma OpenStepIsGood(s: System, n: System)
    requires Inv(s)
    requires n == s.(registry := n.registry, claims := n.claims, aborts := n.aborts)
    requires n.registry.tasks.Keys == s.registry.tasks.Keys && n.registry.results == s.registry.results
    requires forall id :: id in s.registry.tasks ==> Updated(s.registry.tasks[id], n.registry.tasks[id])
    requires s.registry.raised <= n.registry.raised
    requires forall id :: id in (n.claims + n.aborts) - (s.claims + s.aborts) ==>
               && id in s.registry.tasks && s.registry.tasks[id].kind == Connect && !s.registry.tasks[id].terminal
               && s.registry.tasks[id].flag in n.registry.raised
    ensures Good(s, n)
  {
    forall id | id in s.registry.tasks ensures TaskOk(n, id) {
      assert TaskOk(s, id) && Updated(s.registry.tasks[id], n.registry.tasks[id]);
    }
    forall id | id in s.registry.results ensures ResultOk(n, id) {
      assert ResultOk(s, id);
      assert id in s.registry.tasks ==> TaskOk(s, id) && Updated(s.registry.tasks[id], n.registry.tasks[id]);
    }
    forall id | id in n.claims + n.aborts ensures Doomed(n, id) {
      if id in s.registry.tasks {
        assert TaskOk(s, id) && Updated(s.registry.tasks[id], n.registry.tasks[id]);
      }
      assert id in s.claims + s.aborts ==> Doomed(s, id);
    }
  }

  lemma ClaimIsGood(s: System, ids: set<RequestId>)
    requires Inv(s) && ids <= s.registry.tasks.Keys && forall id :: id in ids ==> Claimable(s.registry, id)
    ensures Good(s, Claim(s, ids))
  {
    OpenStepIsGood(s, Claim(s, ids));
  }

  /** A request id that was never issued has no task, result or record. */
  lemma UnissuedIsUnknown(s: System, id: RequestId)
    requires Inv(s) && id !in s.owners
    ensures id !in s.registry.tasks && id !in s.registry.results && id !in s.claims + s.aborts
  {
    assert id in s.registry.tasks ==> TaskOk(s, id);
    assert id in s.registry.results ==> ResultOk(s, id);
    assert id in s.claims + s.aborts ==> Doomed(s, id);
  }

  /** Everything a step owes to one request id. */
  ghost predicate IdGood(s: System, n: System, id: RequestId) {
    && (id in n.registry.tasks ==> TaskOk(n, id))
    && (id in n.registry.results ==> ResultOk(n, id))
    && (id in n.claims + n.aborts ==> Doomed(n, id))
    && (id in s.owners ==> Advances(s, n, id))
  }

  lemma AllIdsGood(s: System, n: System)
    requires n.registry.tasks.Keys == n.workers.Keys && n.recorded.Keys <= n.owners.Keys
    requires forall id :: IdGood(s, n, id)
    ensures Good(s, n)
  {
    forall id | id in n.registry.tasks ensures TaskOk(n, id) { assert IdGood(s, n, id); }
    forall id | id in n.registry.results ensures ResultOk(n, id) { assert IdGood(s, n, id); }
    forall id | id in n.claims + n.aborts ensures Doomed(n, id) { assert IdGood(s, n, id); }
    forall id | id in s.owners ensures Advances(s, n, id) { assert IdGood(s, n, id); }
  }

  /** The new request `k` enters with an open task; nothing else changes. */
  ghost predicate Enrolls(s: System, n: System, k: RequestId) {
    && k in n.registry.tasks
    && var t := n.registry.tasks[k];
    && t == NewTask(t.nm, t.kind, t.owner, t.ssid, s.nextFlag)
    && n == s.(registry := s.registry.(tasks := s.registry.tasks[k := t]),
               workers := s.workers[k := Worker(t.owner, t.kind, t.flag)],
               owners := s.owners[k := t.owner], nextFlag := s.nextFlag + 1)
  }

  lemma EnrollingKeepsId(s: System, n: System, k: RequestId, id: RequestId)
    requires Inv(s) && k !in s.owners && Enrolls(s, n, k)
    ensures IdGood(s, n, id)
  {
    UnissuedIsUnknown(s, k);
    if id in s.registry.tasks { assert TaskOk(s, id); }
    if id in s.registry.results { assert ResultOk(s, id); }
    if id in s.claims + s.aborts { assert Doomed(s, id); }
  }

  lemma RegisterIsGood(s: System, a: Action)
    requires Inv(s) && Enabled(s, a) && a.Register?
    ensures Good(s, Next(s, a))
  {
    var n := Next(s, a);
    assert Enrolls(s, n, a.id);
    forall id ensures IdGood(s, n, id) { EnrollingKeepsId(s, n, a.id, id); }
    AllIdsGood(s, n);
  }

  /** The live, unfinished task `k` closes with the next revision and its event carries it. */
  ghost predicate Closes(s: System, n: System, k: RequestId) {
    && k in s.registry.tasks && k !in s.registry.results && k in n.registry.results
    && var t, x := s.registry.tasks[k], n.registry.results[k];
    && !t.terminal
    && n.registry == Registry(s.registry.tasks[k := t.(terminal := true, revision := x.revision)],
                              s.registry.results[k := x], s.registry.raised)
    && n == s.(registry := n.registry, recorded := s.recorded[k := x.event])
    && x.event.revision == Some(x.revision) && x.revision == SaturatingInc(t.revision)
    && x.owner == t.owner && x.stream == t.kind.Stream()
    && (t.kind == Connect && t.flag in s.registry.raised ==> x.event.name != Succeeded)
  }

  /** The one region that records a terminal closes its open task, or changes nothing. */
  lemma PublishEffect(s: System, a: Action)
    requires Inv(s) && Enabled(s, a) && a.PublishTerminal?
    ensures if s.registry.tasks[a.id].terminal then Next(s, a) == s else Closes(s, Next(s, a), a.id)
  {
    assert TaskOk(s, a.id);
    if a.id in s.registry.results {
      assert ResultOk(s, a.id);
    }
  }

  lemma ClosingKeepsId(s: System, n: System, k: RequestId, id: RequestId)
    requires Inv(s) && Closes(s, n, k)
    ensures IdGood(s, n, id)
  {
    if id in s.registry.tasks {
      assert TaskOk(s, id);
    }
    if id in s.registry.results {
      assert ResultOk(s, id);
    }
    if id in s.claims + s.aborts {
      assert Doomed(s, id);
    }
  }

  lemma CloseIsGood(s: System, n: System, k: RequestId)
    requires Inv(s) && Closes(s, n, k) && k in s.owners
    ensures Good(s, n)
  {
    forall id ensures IdGood(s, n, id) { ClosingKeepsId(s, n, k, id); }
    AllIdsGood(s, n);
  }

  lemma PublishIsGood(s: System, a: Action)
    requires Inv(s) && Enabled(s, a) && a.PublishTerminal?
    ensures Good(s, Next(s, a))
  {
    PublishEffect(s, a);
    var n := Next(s, a);
    if n == s {
      OpenStepIsGood(s, s);
    } else {
      assert TaskOk(s, a.id);
      CloseIsGood(s, n, a.id);
    }
  }

  lemma ProgressIsGood(s: System, a: Action)
    requires Inv(s) && Enabled(s, a) && a.PublishProgress?
    ensures Good(s, Next(s, a))
  {
    assert TaskOk(s, a.id);
    OpenStepIsGood(s, Next(s, a));
  }

  lemma DeadlineIsGood(s: System, a: Action)
    requires Inv(s) && Enabled(s, a) && a.Deadline?
    ensures Good(s, Next(s, a))
  {
    if a.id in s.registry.tasks {
      assert TaskOk(s, a.id);
    }
    OpenStepIsGood(s, Next(s, a));
  }

  lemma ReturnIsGood(s: System, a: Action)
    requires Inv(s) && Enabled(s, a) && a.WorkerReturns?
    ensures Good(s, Next(s, a))
  {
    var n := Next(s, a);
    assert TaskOk(s, a.id);
    forall id | id in n.registry.tasks ensures TaskOk(n, id) { assert TaskOk(s, id); }
    forall id | id in n.registry.results ensures ResultOk(n, id) { assert ResultOk(s, id); }
    forall id | id in n.claims + n.aborts ensures Doomed(n, id) { assert Doomed(s, id); }
  }

  lemma EvictIsGood(s: System, a: Action)
    requires Inv(s) && Enabled(s, a) && a.Evict?
    ensures Good(s, Next(s, a))
  {
    var n := Next(s, a);
    forall id | id in n.registry.tasks ensures TaskOk(n, id) { assert TaskOk(s, id); }
    forall id | id in n.registry.results ensures ResultOk(n, id) { assert ResultOk(s, id); }
    forall id | id in n.claims + n.aborts ensures Doomed(n, id) { assert Doomed(s, id); }
  }

  lemma RaisingIsGood(s: System, a: Action)
    requires Inv(s) && Enabled(s, a)
    requires a.WorkerRaises? || a.NmOwnerChanged? || a.ForgetSsid? || a.ShutDown? || a.QueueAbort?
    ensures Good(s, Next(s, a))
  {
    OpenStepIsGood(s, Next(s, a));
  }

  lemma StepIsGood(s: System, a: Action)
    requires Inv(s) && Enabled(s, a)
    ensures Good(s, Next(s, a))
  {
    match a
    case Register(_, _, _, _, _) => RegisterIsGood(s, a);
    case PublishTerminal(_, _, _) => PublishIsGood(s, a);
    case PublishProgress(_, _) => ProgressIsGood(s, a);
    case Deadline(_) => DeadlineIsGood(s, a);
    case CancelRequest(id, owner) => ClaimIsGood(s, CancelClaims(s.registry, id, owner));
    case OwnerLost(lost) => ClaimIsGood(s, OwnerClaims(s.registry, lost));
    case WorkerReturns(_) => ReturnIsGood(s, a);
    case Evict(_) => EvictIsGood(s, a);
    case _ => RaisingIsGood(s, a);
  }

  lemma AdvanceKeepsDoomed(s: System, n: System, id: RequestId)
    requires Doomed(s, id) && Advances(s, n, id)
    ensures Doomed(n, id)
  {
  }

  // ------------------------------------------------------------------ whole runs

  lemma {:induction false} RunKeepsInv(run: seq<System>, actions: seq<Action>, k: nat)
    requires IsRun(run, actions) && k < |run|
    ensures Inv(run[k])
  {
    if k == 0 {
    } else {
      RunKeepsInv(run, actions, k - 1);
      assert StepAt(run, actions, k - 1);
      StepIsGood(run[k - 1], actions[k - 1]);
    }
  }

  lemma LastStep(run: seq<System>, actions: seq<Action>, j: nat, id: RequestId)
    requires IsRun(run, actions) && 0 < j < |run| && id in run[j - 1].owners
    ensures Advances(run[j - 1], run[j], id)
  {
    RunKeepsInv(run, actions, j - 1);
    assert StepAt(run, actions, j - 1);
    StepIsGood(run[j - 1], actions[j - 1]);
  }

  lemma {:induction false} DoomedForGood(run: seq<System>, actions: seq<Action>, i: nat, j: nat, id: RequestId)
    requires IsRun(run, actions) && i <= j < |run| && Doomed(run[i], id)
    ensures Doomed(run[j], id)
    decreases j
  {
    if i == j {
    } else {
      DoomedForGood(run, actions, i, j - 1, id);
      LastStep(run, actions, j, id);
      AdvanceKeepsDoomed(run[j - 1], run[j], id);
    }
  }

  /** Every raised flag was handed out before. */
  ghost predicate FlagsIssued(s: System) {
    forall f :: f in s.registry.raised ==> f < s.nextFlag
  }

  lemma StepKeepsFlagsIssued(s: System, a: Action)
    requires Inv(s) && Enabled(s, a) && FlagsIssued(s)
    ensures FlagsIssued(Next(s, a))
  {
    forall id | id in s.registry.tasks ensures s.registry.tasks[id].flag < s.nextFlag { assert TaskOk(s, id); }
    StepRaisesTaskFlags(s, a);
  }

  /** A step raises no flag but those of registered tasks. */
  lemma StepRaisesTaskFlags(s: System, a: Action)
    requires Inv(s) && Enabled(s, a)
    ensures Next(s, a).registry.raised <= s.registry.raised + Flags(s.registry.tasks, s.registry.tasks.Keys)
    ensures s.nextFlag <= Next(s, a).nextFlag
  {
    if a.WorkerRaises? {
      assert TaskOk(s, a.id);
    }
  }

  lemma {:induction false} RaisedFlagsWereIssued(run: seq<System>, actions: seq<Action>, k: nat)
    requires IsRun(run, actions) && k < |run|
    ensures FlagsIssued(run[k])
  {
    if k == 0 {
    } else {
      RaisedFlagsWereIssued(run, actions, k - 1);
      RunKeepsInv(run, actions, k - 1);
      assert StepAt(run, actions, k - 1);
      StepKeepsFlagsIssued(run[k - 1], actions[k - 1]);
    }
  }

  /** A newly registered task starts uncancelled and shares its flag with no other task. */
  lemma NewTaskIsUncancelled(run: seq<System>, actions: seq<Action>, k: nat, other: RequestId)
    requires IsRun(run, actions) && k < |actions| && actions[k].Register?
    ensures actions[k].id in run[k + 1].registry.tasks
    ensures run[k + 1].registry.tasks[actions[k].id].flag !in run[k + 1].registry.raised
    ensures other != actions[k].id && other in run[k + 1].registry.tasks ==>
              run[k + 1].registry.tasks[other].flag != run[k + 1].registry.tasks[actions[k].id].flag
  {
    RaisedFlagsWereIssued(run, actions, k);
    RunKeepsInv(run, actions, k);
    assert StepAt(run, actions, k);
    assert other in run[k].registry.tasks ==> TaskOk(run[k], other);
  }

  /** The terminal event of a request is immutable, whatever is evicted or cancelled later. */
  lemma {:induction false} TerminalIsImmutable(run: seq<System>, actions: seq<Action>, i: nat, j: nat, id: RequestId)
    requires IsRun(run, actions) && i <= j < |run| && id in run[i].recorded
    ensures id in run[j].recorded && run[j].recorded[id] == run[i].recorded[id]
    decreases j
  {
    if i == j {
    } else {
      TerminalIsImmutable(run, actions, i, j - 1, id);
      RunKeepsInv(run, actions, j - 1);
      LastStep(run, actions, j, id);
    }
  }

  /** Once a worker has published a terminal, one is recorded for its request, the first one,
      and it stays whatever happens next. */
  lemma PublishedTerminalStays(run: seq<System>, actions: seq<Action>, i: nat, j: nat)
    requires IsRun(run, actions) && i < j < |run| && actions[i].PublishTerminal?
    ensures var id := actions[i].id;
            && id in run[i + 1].recorded && id in run[j].recorded
            && run[j].recorded[id] == run[i + 1].recorded[id]
            && (id in run[i].recorded ==> run[j].recorded[id] == run[i].recorded[id])
  {
    RunKeepsInv(run, actions, i);
    var id := actions[i].id;
    assert StepAt(run, actions, i);
    PublishEffect(run[i], actions[i]);
    assert TaskOk(run[i], id);
    TerminalIsImmutable(run, actions, i + 1, j, id);
    if id in run[i].recorded {
      TerminalIsImmutable(run, actions, i, j, id);
    }
  }

  /** No request ever has both a queued activation abort and a recorded success, at any two
      points of one run, in either order. */
  lemma AbortExcludesSuccess(run: seq<System>, actions: seq<Action>, i: nat, j: nat, id: RequestId)
    requires IsRun(run, actions) && i < |run| && j < |run|
    requires id in run[i].aborts
    ensures id in run[j].recorded ==> run[j].recorded[id].name != Succeeded
  {
    RunKeepsInv(run, actions, i);
    assert Doomed(run[i], id);
    if i <= j {
      DoomedForGood(run, actions, i, j, id);
    } else if id in run[j].recorded {
      TerminalIsImmutable(run, actions, j, i, id);
    }
  }

  /** Whichever path raised the flag (client, timer, owner loss, forget, NetworkManager
      restart, shutdown): a connect not yet complete at that time never reports success. */
  lemma CancelledBeforeCompletionNeverSucceeds(run: seq<System>, actions: seq<Action>, i: nat, j: nat,
                                               id: RequestId, caller: Owner)
    requires IsRun(run, actions) && i <= j < |run|
    requires id in run[i].registry.tasks && run[i].registry.tasks[id].kind == Connect
    requires !run[i].registry.tasks[id].terminal && run[i].registry.tasks[id].flag in run[i].registry.raised
    ensures var o := RequestStatus(run[j].registry, id, caller); !(o.Finished? && o.event.name == Succeeded)
  {
    RunKeepsInv(run, actions, i);
    assert TaskOk(run[i], id);
    DoomedForGood(run, actions, i, j, id);
    RunKeepsInv(run, actions, j);
    assert id in run[j].registry.results ==> ResultOk(run[j], id);
  }

  // ------------------------------------------------------------------ what callers observe

  /** The order on one caller's observations of one request: running* finished* unknown*,
      revisions never fall, a finished report never changes. */
  predicate NotBefore(x: Status, y: Status) {
    match (x, y)
    case (Running(s1, _, r1, c1, d1), Running(s2, _, r2, c2, d2)) =>
      s1 == s2 && r1 <= r2 && (c1 ==> c2) && (d1 ==> d2)
    case (Running(s1, _, r1, _, _), Finished(s2, _, r2)) => s1 == s2 && r1 <= r2
    case (Finished(_, _, _), Finished(_, _, _)) => x == y
    case (_, Unknown) => true
    case _ => false
  }

  lemma AdvanceIsObserved(s: System, n: System, id: RequestId, caller: Owner)
    requires Inv(s) && Inv(n) && id in s.owners && Advances(s, n, id)
    ensures NotBefore(RequestStatus(s.registry, id, caller), RequestStatus(n.registry, id, caller))
  {
    if id in s.registry.tasks { assert TaskOk(s, id); }
    if id in n.registry.tasks { assert TaskOk(n, id); }
    if id in s.registry.results { assert ResultOk(s, id); }
    if id in n.registry.results { assert ResultOk(n, id); }
  }

  /** Under every interleaving and every eviction schedule, whoever asks. */
  lemma {:induction false} ObservationsAreOrdered(run: seq<System>, actions: seq<Action>, i: nat, j: nat,
                                                  id: RequestId, caller: Owner)
    requires IsRun(run, actions) && i <= j < |run| && id in run[i].owners
    ensures id in run[j].owners && run[j].owners[id] == run[i].owners[id]
    ensures NotBefore(RequestStatus(run[i].registry, id, caller), RequestStatus(run[j].registry, id, caller))
    decreases j
  {
    if i == j {
    } else {
      ObservationsAreOrdered(run, actions, i, j - 1, id, caller);
      LastStep(run, actions, j, id);
      RunKeepsInv(run, actions, j - 1);
      RunKeepsInv(run, actions, j);
      AdvanceIsObserved(run[j - 1], run[j], id, caller);
    }
  }

  /** The event embedded in a report carries exactly the reported revision, and only the
      owner of the request ever sees anything but `Unknown`. */
  lemma ReportsAreConsistent(run: seq<System>, actions: seq<Action>, k: nat, id: RequestId, caller: Owner)
    requires IsRun(run, actions) && k < |run|
    ensures var o := RequestStatus(run[k].registry, id, caller);
            match o
            case Running(_, progress, revision, _, _) =>
              && id in run[k].owners && run[k].owners[id] == caller
              && (progress.Some? ==> progress.value.revision == Some(revision))
            case Finished(_, event, revision) =>
              && id in run[k].owners && run[k].owners[id] == caller
              && event.revision == Some(revision) && id in run[k].recorded && run[k].recorded[id] == event
            case Unknown => true
  {
    RunKeepsInv(run, actions, k);
    assert id in run[k].registry.tasks ==> TaskOk(run[k], id);
    assert id in run[k].registry.results ==> ResultOk(run[k], id);
  }

  /** A caller that does not own the request sees nothing of it and cannot cancel it. */
  lemma ForeignCancelChangesNothing(run: seq<System>, actions: seq<Action>, k: nat, id: RequestId, caller: Owner)
    requires IsRun(run, actions) && k < |run|
    requires id in run[k].owners ==> run[k].owners[id] != caller
    ensures RequestStatus(run[k].registry, id, caller) == Unknown
    ensures Next(run[k], CancelRequest(id, caller)) == run[k]
  {
    RunKeepsInv(run, actions, k);
    assert id in run[k].registry.tasks ==> TaskOk(run[k], id);
    assert id in run[k].registry.results ==> ResultOk(run[k], id);
    assert Flags(run[k].registry.tasks, {}) == {};
  }

  /** Losing another owner leaves the task, its flag and its claim alone. */
  lemma ForeignOwnerLossSparesTask(run: seq<System>, actions: seq<Action>, k: nat, id: RequestId, lost: string)
    requires IsRun(run, actions) && k < |run| && id in run[k].registry.tasks
    requires run[k].registry.tasks[id].owner != Some(lost)
    ensures var s, n := run[k], Next(run[k], OwnerLost(lost));
            && n.registry.tasks == s.registry.tasks && n.registry.results == s.registry.results
            && (s.registry.tasks[id].flag in n.registry.raised <==> s.registry.tasks[id].flag in s.registry.raised)
            && (id in n.claims <==> id in s.claims)
  {
    FlagsAreOwn(run, actions, k);
  }

  /** No two tasks share a flag. */
  ghost predicate DistinctFlags(s: System) {
    forall i, j :: (i in s.registry.tasks && j in s.registry.tasks
                    && s.registry.tasks[i].flag == s.registry.tasks[j].flag) ==> i == j
  }

  lemma AdvancingKeepsFlagsDistinct(s: System, n: System)
    requires DistinctFlags(s)
    requires forall id :: id in n.registry.tasks ==>
               id in s.registry.tasks && n.registry.tasks[id].flag == s.registry.tasks[id].flag
    ensures DistinctFlags(n)
  {
  }

  lemma StepKeepsFlagsDistinct(s: System, a: Action)
    requires Inv(s) && Enabled(s, a) && DistinctFlags(s)
    ensures DistinctFlags(Next(s, a))
  {
    var n := Next(s, a);
    if a.Register? {
      forall id | id in s.registry.tasks ensures s.registry.tasks[id].flag < s.nextFlag { assert TaskOk(s, id); }
    } else {
      StepIsGood(s, a);
      StepKeepsOwners(s, a);
      forall id | id in n.registry.tasks
        ensures id in s.registry.tasks && n.registry.tasks[id].flag == s.registry.tasks[id].flag
      {
        assert TaskOk(n, id);
        assert Advances(s, n, id);
      }
      AdvancingKeepsFlagsDistinct(s, n);
    }
  }

  lemma StepKeepsOwners(s: System, a: Action)
    requires Enabled(s, a) && !a.Register?
    ensures Next(s, a).owners == s.owners
  {
  }

  lemma {:induction false} FlagsAreOwn(run: seq<System>, actions: seq<Action>, k: nat)
    requires IsRun(run, actions) && k < |run|
    ensures DistinctFlags(run[k])
  {
    if k == 0 {
    } else {
      FlagsAreOwn(run, actions, k - 1);
      RunKeepsInv(run, actions, k - 1);
      assert StepAt(run, actions, k - 1);
      StepKeepsFlagsDistinct(run[k - 1], actions[k - 1]);
    }
  }
}
