/**
 Whole runs of the SecretAgent registry. NetworkManager's cancellations, replacements,
 deletions and restarts interleave with the request workers, the frontends and the
 emission of queued events, each at its locked region.
 */
module SecretRuns {
  import opened Retention
  import opened Wrappers
  import opened SecretRegistry

  /** How far a request's own worker has come. */
  datatype Stage = Looking | Waiting | Prompted | Leaving | Over

  datatype Thread = Thread(request: Request, stage: Stage, guard: bool)

  datatype SecretEvent = Requested(id: RequestId) | Withdrawn(id: RequestId)

  /** A frontend's answer to a prompt, or its refusal to give one. */
  datatype Call = Call(id: RequestId, owner: Option<string>, save: bool, cancel: bool)

  datatype System = System(
    registry: Registry,
    env: Environment,
    threads: map<RequestId, Thread>,
    nextSender: Sender,
    toWithdraw: set<RequestId>,      // prompts taken out whose "cancelled" event is not emitted yet
    events: seq<SecretEvent>,        // queued on the frontend stream, in order
    answered: multiset<Sender>,      // responses sent, per prompt
    calls: map<nat, Call>,           // frontend calls between their policy check and their delivery
    nextCall: nat)

  datatype Action =
    | Arrive(q: Request)
    | NmCancel(path: ObjectPath, setting: string)
    | NmDelete(path: ObjectPath)
    | OwnerChange(owner: Option<string>)
    | Finish(id: RequestId)
    | Prompt(id: RequestId, owners: set<string>)
    | Announce(id: RequestId)
    | Vet(call: Call)
    | Provide(ticket: nat)
    | Withdraw(id: RequestId)
    | DropGuard(id: RequestId)
    | EmitWithdrawn(id: RequestId)
    | EmitRetired(id: RequestId)
    | Tick(later: nat)
    | Die(activation: Activation)

  /** Workers follow their program order; request ids and flags are freshly allocated, and
      a new flag holds false. */
  predicate Enabled(s: System, a: Action) {
    match a
    case Arrive(q) =>
      q.id !in s.threads && q.key == KeyFor(q.path, q.setting)
      && q.flag !in s.registry.raised && q.flag !in s.registry.inflight.Values
      && forall t :: t in s.threads ==> s.threads[t].request.flag != q.flag
    case Finish(id) => id in s.threads && s.threads[id].stage == Looking
    case Prompt(id, _) => id in s.threads && s.threads[id].stage == Looking
    case Announce(id) => id in s.threads && s.threads[id].stage == Waiting
    case Withdraw(id) => id in s.threads && s.threads[id].stage in {Prompted, Leaving}
    case DropGuard(id) => id in s.threads && s.threads[id].stage == Over && s.threads[id].guard
    case Provide(ticket) => ticket in s.calls
    case EmitWithdrawn(id) => id in s.toWithdraw
    case EmitRetired(id) => id in s.threads && s.threads[id].stage == Over
    case Tick(later) => s.env.now <= later
    case _ => true
  }

  function Senders(r: Registry, ids: set<RequestId>): set<Sender>
    requires ids <= r.requests.Keys
  {
    set id | id in ids :: r.requests[id].sender
  }

  /** Raise flags, take prompts out and answer each of them with a cancellation. */
  function CancelPrompts(s: System, flags: set<Flag>, ids: set<RequestId>): System
    requires ids <= s.registry.requests.Keys
  {
    s.(registry := Retire(s.registry, flags, ids),
       toWithdraw := s.toWithdraw + ids,
       answered := s.answered + multiset(Senders(s.registry, ids)))
  }

  function SetStage(s: System, id: RequestId, stage: Stage): System
    requires id in s.threads
  {
    s.(threads := s.threads[id := s.threads[id].(stage := stage)])
  }

  /** The call ends with an error at its policy check; cancelling is never checked. */
  predicate Refused(s: System, call: Call) {
    !call.cancel && ChoiceRejection(s.registry, s.env, call.id, call.owner, call.save).Some?
  }

  function Next(s: System, a: Action): System
    requires Enabled(s, a)
  {
    var r := s.registry;
    match a
    case Arrive(q) =>
      if Enter(r, q).Err? then s else
      var c := CancelPrompts(s, FlagAt(r, q.key), WithKey(r, q.key));
      c.(registry := Enter(r, q).value, threads := c.threads[q.id := Thread(q, Looking, true)])
    case NmCancel(path, setting) =>
      CancelPrompts(s, FlagAt(r, KeyFor(path, setting)), WithKey(r, KeyFor(path, setting)))
    case NmDelete(path) => CancelPrompts(s, PathFlags(r, path), PathIds(r, path))
    case OwnerChange(owner) =>
      CancelPrompts(s, r.inflight.Values, r.requests.Keys).(registry := ChangeOwner(r, owner))
    case Finish(id) => SetStage(s, id, Over)
    case Prompt(id, owners) =>
      var q := s.threads[id].request;
      var added := AddPrompt(r, s.env, q, owners, s.nextSender);
      if added.Err? then SetStage(s, id, Over) else
      SetStage(CancelPrompts(s, {}, WithKey(r, q.key)), id, Waiting)
        .(registry := added.value, nextSender := s.nextSender + 1)
    case Announce(id) =>
      if id in r.requests && Live(r, s.env, s.threads[id].request)
      then SetStage(s, id, Prompted).(events := s.events + [Requested(id)])
      else SetStage(s, id, Leaving)
    case Vet(call) =>
      s.(calls := if Refused(s, call) then s.calls else s.calls[s.nextCall := call], nextCall := s.nextCall + 1)
    case Provide(ticket) =>
      var (r1, sender) := Take(r, s.env, s.calls[ticket].id, s.calls[ticket].owner);
      s.(registry := r1, calls := s.calls - {ticket},
         answered := if sender.Some? then s.answered + multiset{sender.value} else s.answered)
    case Withdraw(id) => SetStage(s, id, Over).(registry := Retire(r, {}, {id}))
    case DropGuard(id) =>
      var t := s.threads[id];
      s.(registry := Leave(r, t.request.key, t.request.flag), threads := s.threads[id := t.(guard := false)])
    case EmitWithdrawn(id) => s.(events := s.events + [Withdrawn(id)], toWithdraw := s.toWithdraw - {id})
    case EmitRetired(id) => s.(events := s.events + [Withdrawn(id)])
    case Tick(later) => s.(env := s.env.(now := later))
    case Die(activation) => s.(env := s.env.(dead := s.env.dead + {activation}))
  }

  const Start := System(Registry(map[], map[], None, {}), Environment(0, {}), map[], 0, {}, [], multiset{},
                         map[], 0)

  ghost predicate IsRun(run: seq<System>, actions: seq<Action>) {
    && |run| == |actions| + 1
    && run[0] == Start
    && forall k :: 0 <= k < |actions| ==> StepAt(run, actions, k)
  }

  ghost predicate StepAt(run: seq<System>, actions: seq<Action>, k: nat)
    requires |run| == |actions| + 1 && k < |actions|
  {
    Enabled(run[k], actions[k]) && run[k + 1] == Next(run[k], actions[k])
  }

  // ------------------------------------------------------------------ ownership of requests

  /** A worker that still holds its guard is either registered under its key or cancelled,
      and nobody else is registered with its flag. */
  ghost predicate ThreadOk(s: System, id: RequestId)
    requires id in s.threads
  {
    var t := s.threads[id];
    && t.request.id == id && t.request.Keyed()
    && (t.guard ==> t.request.flag in s.registry.raised
                    || (t.request.key in s.registry.inflight && s.registry.inflight[t.request.key] == t.request.flag))
    && (!t.guard ==> t.stage == Over)
    && (forall k :: k in s.registry.inflight && s.registry.inflight[k] == t.request.flag ==>
          k == t.request.key && t.guard)
  }

  ghost predicate EntryOk(s: System, id: RequestId)
    requires id in s.registry.requests
  {
    var q := s.registry.requests[id].request;
    && id in s.threads && q == s.threads[id].request
    && s.threads[id].guard && s.threads[id].stage in {Waiting, Prompted, Leaving}
    && q.flag !in s.registry.raised
  }

  /** A prompt that was taken out does not come back. */
  ghost predicate Gone(s: System, id: RequestId) {
    id in s.threads && s.threads[id].stage != Looking && id !in s.registry.requests
  }

  ghost predicate DistinctFlags(s: System) {
    forall i, j :: i in s.threads && j in s.threads && s.threads[i].request.flag == s.threads[j].request.flag ==> i == j
  }

  ghost predicate Inv(s: System) {
    && (forall id :: id in s.threads ==> ThreadOk(s, id))
    && (forall id :: id in s.registry.requests ==> EntryOk(s, id))
    && (forall id :: id in s.toWithdraw ==> Gone(s, id))
    && DistinctFlags(s)
  }

  /** A pending prompt is the in-flight request of its key, so prompts have distinct keys. */
  lemma PendingIsInflight(s: System, id: RequestId)
    requires Inv(s) && id in s.registry.requests
    ensures var q := s.registry.requests[id].request;
            q.key in s.registry.inflight && s.registry.inflight[q.key] == q.flag
  {
    assert EntryOk(s, id) && ThreadOk(s, id);
  }

  lemma PromptsHaveDistinctKeys(s: System)
    requires Inv(s)
    ensures UniqueKeys(s.registry)
  {
    forall i, j | i in s.registry.requests && j in s.registry.requests
                  && s.registry.requests[i].request.key == s.registry.requests[j].request.key
      ensures i == j
    {
      PendingIsInflight(s, i);
      PendingIsInflight(s, j);
      assert EntryOk(s, i) && EntryOk(s, j);
    }
  }

  // ------------------------------------------------------------------ one step

  /** What a step that cancels, withdraws or merely advances does: flags only rise, prompts
      only leave, and whoever loses its registration has its flag raised. */
  ghost predicate Shrinks(s: System, n: System) {
    var r, q := s.registry, n.registry;
    && n.threads.Keys == s.threads.Keys
    && (forall id :: id in s.threads ==>
          && n.threads[id].request == s.threads[id].request && n.threads[id].guard == s.threads[id].guard
          && (n.threads[id].stage == s.threads[id].stage
              || (n.threads[id].stage != Looking && (!s.threads[id].guard ==> n.threads[id].stage == Over))))
    && r.raised <= q.raised
    && (forall k :: k in q.inflight ==> k in r.inflight && q.inflight[k] == r.inflight[k])
    && (forall k :: k in r.inflight && k !in q.inflight ==> r.inflight[k] in q.raised)
    && (forall id :: id in q.requests ==>
          && id in r.requests && q.requests[id] == r.requests[id]
          && r.requests[id].request.flag !in q.raised
          && id in n.threads && n.threads[id].stage in {Waiting, Prompted, Leaving})
    && (forall id :: id in n.toWithdraw ==> id in s.toWithdraw || (id in r.requests && id !in q.requests))
  }

  lemma ShrinkKeepsInv(s: System, n: System)
    requires Inv(s)
    requires Shrinks(s, n)
    ensures Inv(n)
  {
    forall id | id in n.threads ensures ThreadOk(n, id) { assert ThreadOk(s, id); }
    forall id | id in n.registry.requests ensures EntryOk(n, id) { assert EntryOk(s, id); }
    forall id | id in n.toWithdraw ensures Gone(n, id) {
      if id in s.toWithdraw {
        assert Gone(s, id);
      } else {
        assert EntryOk(s, id);
      }
    }
  }

  lemma EntryFacts(s: System)
    requires Inv(s)
    ensures forall id :: id in s.registry.requests ==>
              && id in s.threads && s.threads[id].stage in {Waiting, Prompted, Leaving}
              && s.registry.requests[id].request.flag !in s.registry.raised
  {
    forall id | id in s.registry.requests
      ensures id in s.threads && s.threads[id].stage in {Waiting, Prompted, Leaving}
      ensures s.registry.requests[id].request.flag !in s.registry.raised
    {
      assert EntryOk(s, id);
    }
  }

  lemma CancelPromptsKeepsInv(s: System, flags: set<Flag>, ids: set<RequestId>)
    requires Inv(s) && ids <= s.registry.requests.Keys
    requires forall id :: id in s.registry.requests && s.registry.requests[id].request.flag in flags ==> id in ids
    ensures Inv(CancelPrompts(s, flags, ids))
  {
    EntryFacts(s);
    ShrinkKeepsInv(s, CancelPrompts(s, flags, ids));
  }

  lemma KeyCancelKeepsInv(s: System, key: string)
    requires Inv(s)
    ensures Inv(CancelPrompts(s, FlagAt(s.registry, key), WithKey(s.registry, key)))
  {
    forall id | id in s.registry.requests && s.registry.requests[id].request.flag in FlagAt(s.registry, key)
      ensures id in WithKey(s.registry, key)
    {
      assert EntryOk(s, id) && ThreadOk(s, id);
    }
    CancelPromptsKeepsInv(s, FlagAt(s.registry, key), WithKey(s.registry, key));
  }

  lemma DeleteKeepsInv(s: System, path: ObjectPath)
    requires Inv(s)
    ensures Inv(Next(s, NmDelete(path)))
  {
    var r := s.registry;
    forall id | id in r.requests && r.requests[id].request.flag in PathFlags(r, path) ensures id in PathIds(r, path) {
      assert EntryOk(s, id) && ThreadOk(s, id);
      KeyPathOfKey(r.requests[id].request.path, r.requests[id].request.setting);
    }
    CancelPromptsKeepsInv(s, PathFlags(r, path), PathIds(r, path));
  }

  lemma OwnerChangeKeepsInv(s: System, owner: Option<string>)
    requires Inv(s)
    ensures Inv(Next(s, OwnerChange(owner)))
  {
    ShrinkKeepsInv(s, Next(s, OwnerChange(owner)));
  }

  function Installed(c: System, q: Request): System {
    c.(registry := c.registry.(inflight := c.registry.inflight[q.key := q.flag]),
       threads := c.threads[q.id := Thread(q, Looking, true)])
  }

  lemma ArriveEffect(s: System, q: Request)
    requires Enabled(s, Arrive(q)) && Enter(s.registry, q).Ok?
    ensures Next(s, Arrive(q)) == Installed(CancelPrompts(s, FlagAt(s.registry, q.key), WithKey(s.registry, q.key)), q)
  {
  }

  /** A request with a new id and a new flag, whose key is free or held by a cancelled one. */
  ghost predicate Unused(c: System, q: Request) {
    && q.Keyed() && q.id !in c.threads && q.flag !in c.registry.raised
    && (forall k :: k in c.registry.inflight ==> c.registry.inflight[k] != q.flag)
    && (forall t :: t in c.threads ==> c.threads[t].request.flag != q.flag)
    && (q.key in c.registry.inflight ==> c.registry.inflight[q.key] in c.registry.raised)
  }

  lemma InstallKeepsThreads(c: System, q: Request, id: RequestId)
    requires Inv(c) && Unused(c, q) && id in Installed(c, q).threads
    ensures ThreadOk(Installed(c, q), id)
  {
    assert id != q.id ==> ThreadOk(c, id);
  }

  lemma InstallKeepsInv(c: System, q: Request)
    requires Inv(c) && Unused(c, q)
    ensures Inv(Installed(c, q))
  {
    var n := Installed(c, q);
    forall id | id in n.threads ensures ThreadOk(n, id) { InstallKeepsThreads(c, q, id); }
    forall id | id in n.registry.requests ensures EntryOk(n, id) { assert EntryOk(c, id); }
    forall id | id in n.toWithdraw ensures Gone(n, id) { assert Gone(c, id); }
  }

  lemma ArriveKeepsInv(s: System, q: Request)
    requires Inv(s) && Enabled(s, Arrive(q)) && Enter(s.registry, q).Ok?
    ensures Inv(Next(s, Arrive(q)))
  {
    KeyCancelKeepsInv(s, q.key);
    ArriveEffect(s, q);
    InstallKeepsInv(CancelPrompts(s, FlagAt(s.registry, q.key), WithKey(s.registry, q.key)), q);
  }

  /** A worker advances, with or without taking its own prompt out. */
  lemma AdvanceKeepsInv(s: System, n: System, id: RequestId)
    requires Inv(s) && id in s.threads && id in n.threads
    requires n.threads == s.threads[id := s.threads[id].(stage := n.threads[id].stage)]
    requires n.threads[id].stage != Looking && (!s.threads[id].guard ==> n.threads[id].stage == Over)
    requires n.registry == s.registry || n.registry == Retire(s.registry, {}, {id})
    requires id in n.registry.requests ==> n.threads[id].stage in {Waiting, Prompted, Leaving}
    requires n.toWithdraw <= s.toWithdraw
    ensures Inv(n)
  {
    EntryFacts(s);
    AdvanceShrinks(s, n, id);
    ShrinkKeepsInv(s, n);
  }

  lemma AdvanceShrinks(s: System, n: System, id: RequestId)
    requires id in s.threads && id in n.threads
    requires n.threads == s.threads[id := s.threads[id].(stage := n.threads[id].stage)]
    requires n.threads[id].stage != Looking && (!s.threads[id].guard ==> n.threads[id].stage == Over)
    requires n.registry == s.registry || n.registry == Retire(s.registry, {}, {id})
    requires id in n.registry.requests ==> n.threads[id].stage in {Waiting, Prompted, Leaving}
    requires n.toWithdraw <= s.toWithdraw
    requires forall i :: i in s.registry.requests ==>
               && i in s.threads && s.threads[i].stage in {Waiting, Prompted, Leaving}
               && s.registry.requests[i].request.flag !in s.registry.raised
    ensures Shrinks(s, n)
  {
  }

  /** A prompt can only be registered by the current holder of its key: it displaces nobody. */
  lemma PromptDisplacesNobody(s: System, id: RequestId)
    requires Inv(s) && id in s.threads && s.threads[id].stage == Looking
    requires s.threads[id].request.flag !in s.registry.raised
    ensures WithKey(s.registry, s.threads[id].request.key) == {}
  {
    assert ThreadOk(s, id);
    forall j | j in s.registry.requests ensures s.registry.requests[j].request.key != s.threads[id].request.key {
      PendingIsInflight(s, j);
      assert EntryOk(s, j);
    }
  }

  lemma EmptyCancel(s: System)
    ensures Retire(s.registry, {}, {}) == s.registry && CancelPrompts(s, {}, {}) == s
  {
    assert s.registry.raised + {} == s.registry.raised && s.registry.requests - {} == s.registry.requests;
    assert Senders(s.registry, {}) == {};
  }

  lemma PromptEffect(s: System, a: Action)
    requires Inv(s) && Enabled(s, a) && a.Prompt?
    requires AddPrompt(s.registry, s.env, s.threads[a.id].request, a.owners, s.nextSender).Ok?
    ensures var q := s.threads[a.id].request;
            && q.flag !in s.registry.raised
            && Next(s, a) == s.(
                 registry := s.registry.(requests := s.registry.requests[a.id := Entry(q, a.owners, s.nextSender)]),
                 threads := s.threads[a.id := s.threads[a.id].(stage := Waiting)],
                 nextSender := s.nextSender + 1)
  {
    PromptDisplacesNobody(s, a.id);
    assert ThreadOk(s, a.id);
    EmptyCancel(s);
  }

  lemma PromptKeepsInv(s: System, a: Action)
    requires Inv(s) && Enabled(s, a) && a.Prompt?
    requires AddPrompt(s.registry, s.env, s.threads[a.id].request, a.owners, s.nextSender).Ok?
    ensures Inv(Next(s, a))
  {
    PromptEffect(s, a);
    var n := Next(s, a);
    forall id | id in n.threads ensures ThreadOk(n, id) { assert ThreadOk(s, id); }
    forall id | id in n.registry.requests ensures EntryOk(n, id) { assert id == a.id || EntryOk(s, id); }
    forall id | id in n.toWithdraw ensures Gone(n, id) { assert Gone(s, id); }
  }

  lemma DropGuardKeepsInv(s: System, a: Action)
    requires Inv(s) && Enabled(s, a) && a.DropGuard?
    ensures Inv(Next(s, a))
  {
    var n := Next(s, a);
    forall i | i in n.threads ensures ThreadOk(n, i) { assert ThreadOk(s, i) && ThreadOk(s, a.id); }
    forall i | i in n.registry.requests ensures EntryOk(n, i) { assert EntryOk(s, i); }
    forall i | i in n.toWithdraw ensures Gone(n, i) { assert Gone(s, i); }
  }

  /** Steps that leave the registry and the workers alone. */
  lemma StillKeepsInv(s: System, n: System)
    requires Inv(s) && n.registry == s.registry && n.threads == s.threads && n.toWithdraw <= s.toWithdraw
    ensures Inv(n)
  {
    forall i | i in n.threads ensures ThreadOk(n, i) { assert ThreadOk(s, i); }
    forall i | i in n.registry.requests ensures EntryOk(n, i) { assert EntryOk(s, i); }
    forall i | i in n.toWithdraw ensures Gone(n, i) { assert Gone(s, i); }
  }

  /** Steps of the workers and the environment that neither register nor release anything. */
  lemma QuietStepKeepsInv(s: System, a: Action)
    requires Inv(s) && Enabled(s, a)
    requires a.Finish? || a.Announce? || a.Withdraw? || a.EmitWithdrawn? || a.EmitRetired? || a.Tick? || a.Die?
             || a.Vet?
             || (a.Prompt? && AddPrompt(s.registry, s.env, s.threads[a.id].request, a.owners, s.nextSender).Err?)
    ensures Inv(Next(s, a))
  {
    var n := Next(s, a);
    if a.Tick? || a.Die? || a.EmitWithdrawn? || a.EmitRetired? || a.Vet? {
      StillKeepsInv(s, n);
    } else {
      assert ThreadOk(s, a.id);
      assert a.id in s.registry.requests ==> EntryOk(s, a.id);
      AdvanceKeepsInv(s, n, a.id);
    }
  }

  lemma ProvideKeepsInv(s: System, a: Action)
    requires Inv(s) && Enabled(s, a) && a.Provide?
    ensures Inv(Next(s, a))
  {
    var call, n := s.calls[a.ticket], Next(s, a);
    if Listed(s.registry, call.id, call.owner) {
      assert EntryOk(s, call.id);
      AdvanceKeepsInv(s, n, call.id);
    } else {
      StillKeepsInv(s, n);
    }
  }

  lemma StepKeepsInv(s: System, a: Action)
    requires Inv(s) && Enabled(s, a)
    ensures Inv(Next(s, a))
  {
    match a
    case Arrive(q) =>
      if Enter(s.registry, q).Ok? {
        ArriveKeepsInv(s, q);
      }
    case NmCancel(path, setting) => KeyCancelKeepsInv(s, KeyFor(path, setting));
    case NmDelete(path) => DeleteKeepsInv(s, path);
    case OwnerChange(owner) => OwnerChangeKeepsInv(s, owner);
    case Prompt(id, owners) =>
      if AddPrompt(s.registry, s.env, s.threads[id].request, owners, s.nextSender).Ok? {
        PromptKeepsInv(s, a);
      } else {
        QuietStepKeepsInv(s, a);
      }
    case Provide(_) => ProvideKeepsInv(s, a);
    case DropGuard(_) => DropGuardKeepsInv(s, a);
    case _ => QuietStepKeepsInv(s, a);
  }

  // ------------------------------------------------------------------ whole runs

  lemma {:induction false} RunKeepsInv(run: seq<System>, actions: seq<Action>, k: nat)
    requires IsRun(run, actions) && k < |run|
    ensures Inv(run[k])
  {
    if k == 0 {
    } else {
      RunKeepsInv(run, actions, k - 1);
      assert StepAt(run, actions, k - 1);
      StepKeepsInv(run[k - 1], actions[k - 1]);
    }
  }

  /** Nothing lowers a flag, and a request keeps its identity. */
  lemma StepKeepsFlags(s: System, a: Action, id: RequestId)
    requires Enabled(s, a) && id in s.threads
    ensures s.registry.raised <= Next(s, a).registry.raised
    ensures id in Next(s, a).threads && Next(s, a).threads[id].request == s.threads[id].request
  {
    StepAges(s, a);
    StepKeepsRequest(s, a, id);
  }

  lemma StepKeepsRequest(s: System, a: Action, id: RequestId)
    requires Enabled(s, a) && id in s.threads
    ensures id in Next(s, a).threads && Next(s, a).threads[id].request == s.threads[id].request
  {
  }

  lemma {:induction false} RaisedForGood(run: seq<System>, actions: seq<Action>, i: nat, j: nat, id: RequestId)
    requires IsRun(run, actions) && i <= j < |run| && id in run[i].threads
    ensures run[i].registry.raised <= run[j].registry.raised
    ensures id in run[j].threads && run[j].threads[id].request == run[i].threads[id].request
    decreases j
  {
    if i == j {
    } else {
      RaisedForGood(run, actions, i, j - 1, id);
      assert StepAt(run, actions, j - 1);
      StepKeepsFlags(run[j - 1], actions[j - 1], id);
    }
  }

  /** The steps by which NetworkManager retires a request whose worker is still running:
      its own cancellation, a newer lookup for the same key, deletion of the connection, or
      a change of the bus owner. */
  predicate Supersedes(s: System, a: Action, id: RequestId)
    requires id in s.threads
  {
    s.threads[id].guard && Targets(s, a, id)
  }

  /** The same steps, whether or not the worker still holds its guard. */
  predicate Targets(s: System, a: Action, id: RequestId)
    requires id in s.threads
  {
    var q := s.threads[id].request;
    match a
    case NmCancel(path, setting) => KeyFor(path, setting) == q.key
    case NmDelete(path) => path == q.path
    case OwnerChange(_) => true
    case Arrive(newer) => newer.key == q.key && Enter(s.registry, newer).Ok?
    case _ => false
  }

  lemma SupersededIsRaised(s: System, a: Action, id: RequestId)
    requires Inv(s) && Enabled(s, a) && id in s.threads && Supersedes(s, a, id)
    ensures s.threads[id].request.flag in Next(s, a).registry.raised
  {
    assert ThreadOk(s, id);
    if a.NmDelete? && s.threads[id].request.flag !in s.registry.raised {
      KeyPathOfKey(a.path, s.threads[id].request.setting);
      assert s.registry.inflight[s.threads[id].request.key] in PathFlags(s.registry, a.path);
    }
  }

  /** Once retired while in flight, a request never again registers a prompt, publishes
      "requested", passes the delivery check, or has a prompt that a frontend could answer. */
  lemma SupersededNeverActs(run: seq<System>, actions: seq<Action>, i: nat, j: nat, id: RequestId,
                            owners: set<string>, sender: Sender)
    requires IsRun(run, actions) && i < j < |run| && id in run[i].threads && Supersedes(run[i], actions[i], id)
    ensures id in run[j].threads
    ensures var s, q := run[j], run[j].threads[id].request;
            && AddPrompt(s.registry, s.env, q, owners, sender).Err?
            && !Live(s.registry, s.env, q)
            && !DeliveryLive(s.registry, s.env, q)
            && id !in s.registry.requests
  {
    RunKeepsInv(run, actions, i);
    assert StepAt(run, actions, i);
    SupersededIsRaised(run[i], actions[i], id);
    StepKeepsFlags(run[i], actions[i], id);
    RaisedForGood(run, actions, i + 1, j, id);
    RunKeepsInv(run, actions, j);
    assert id in run[j].registry.requests ==> EntryOk(run[j], id);
  }

  /** A late guard removes its own registration or nothing, never that of a successor. */
  lemma StaleGuardSparesSuccessor(run: seq<System>, actions: seq<Action>, k: nat, id: RequestId, other: RequestId)
    requires IsRun(run, actions) && k < |run| && Enabled(run[k], DropGuard(id))
    requires other in run[k].threads && other != id
    ensures var before, after := run[k].registry.inflight, Next(run[k], DropGuard(id)).registry.inflight;
            var q := run[k].threads[other].request;
            q.key in before && before[q.key] == q.flag ==> q.key in after && after[q.key] == q.flag
  {
    RunKeepsInv(run, actions, k);
  }

  /** In every reachable state each connection setting has at most one prompt, and it is the
      prompt of the request NetworkManager currently has in flight. */
  lemma OnePromptPerKey(run: seq<System>, actions: seq<Action>, k: nat, i: RequestId, j: RequestId)
    requires IsRun(run, actions) && k < |run|
    requires i in run[k].registry.requests && j in run[k].registry.requests
    requires run[k].registry.requests[i].request.key == run[k].registry.requests[j].request.key
    ensures i == j
    ensures var q := run[k].registry.requests[i].request;
            q.key in run[k].registry.inflight && run[k].registry.inflight[q.key] == q.flag
  {
    RunKeepsInv(run, actions, k);
    PromptsHaveDistinctKeys(run[k]);
    PendingIsInflight(run[k], i);
  }

  // ------------------------------------------------------------------ responses

  ghost predicate SendersOk(s: System) {
    && (forall id :: id in s.registry.requests ==>
          s.registry.requests[id].sender < s.nextSender && s.registry.requests[id].sender !in s.answered)
    && (forall i, j :: (i in s.registry.requests && j in s.registry.requests
                        && s.registry.requests[i].sender == s.registry.requests[j].sender) ==> i == j)
    && (forall x :: s.answered[x] <= 1 && (x in s.answered ==> x < s.nextSender))
  }

  lemma CancelKeepsSenders(s: System, flags: set<Flag>, ids: set<RequestId>)
    requires SendersOk(s) && ids <= s.registry.requests.Keys
    ensures SendersOk(CancelPrompts(s, flags, ids))
  {
    var n := CancelPrompts(s, flags, ids);
    forall x ensures n.answered[x] <= 1 && (x in n.answered ==> x < n.nextSender) {
      if x in Senders(s.registry, ids) {
        assert x !in s.answered;
      }
    }
  }

  lemma FewerPromptsKeepSenders(s: System, n: System)
    requires SendersOk(s) && n.nextSender == s.nextSender && n.answered == s.answered
    requires forall id :: id in n.registry.requests ==>
               id in s.registry.requests && n.registry.requests[id] == s.registry.requests[id]
    ensures SendersOk(n)
  {
  }

  lemma ProvideKeepsSenders(s: System, a: Action)
    requires SendersOk(s) && Enabled(s, a) && a.Provide?
    ensures SendersOk(Next(s, a))
  {
  }

  lemma PromptKeepsSenders(s: System, a: Action)
    requires Inv(s) && SendersOk(s) && Enabled(s, a) && a.Prompt?
    ensures SendersOk(Next(s, a))
  {
    if AddPrompt(s.registry, s.env, s.threads[a.id].request, a.owners, s.nextSender).Ok? {
      PromptEffect(s, a);
    }
  }

  lemma OtherStepsKeepSenders(s: System, a: Action)
    requires SendersOk(s) && Enabled(s, a)
    requires !a.Arrive? && !a.NmCancel? && !a.NmDelete? && !a.OwnerChange? && !a.Prompt? && !a.Provide?
    ensures SendersOk(Next(s, a))
  {
    FewerPromptsKeepSenders(s, Next(s, a));
  }

  lemma StepKeepsSenders(s: System, a: Action)
    requires Inv(s) && Enabled(s, a) && SendersOk(s)
    ensures SendersOk(Next(s, a))
  {
    var r := s.registry;
    match a
    case Arrive(q) =>
      if Enter(r, q).Ok? {
        ArriveEffect(s, q);
        var c := CancelPrompts(s, FlagAt(r, q.key), WithKey(r, q.key));
        CancelKeepsSenders(s, FlagAt(r, q.key), WithKey(r, q.key));
        FewerPromptsKeepSenders(c, Installed(c, q));
      }
    case NmCancel(path, setting) =>
      CancelKeepsSenders(s, FlagAt(r, KeyFor(path, setting)), WithKey(r, KeyFor(path, setting)));
    case NmDelete(path) => CancelKeepsSenders(s, PathFlags(r, path), PathIds(r, path));
    case OwnerChange(_) =>
      CancelKeepsSenders(s, r.inflight.Values, r.requests.Keys);
      FewerPromptsKeepSenders(CancelPrompts(s, r.inflight.Values, r.requests.Keys), Next(s, a));
    case Prompt(_, _) => PromptKeepsSenders(s, a);
    case Provide(_) => ProvideKeepsSenders(s, a);
    case _ => OtherStepsKeepSenders(s, a);
  }

  /** Every prompt is answered at most once, by a frontend or by a cancellation, however
      the two race. */
  lemma {:induction false} AtMostOneResponse(run: seq<System>, actions: seq<Action>, k: nat)
    requires IsRun(run, actions) && k < |run|
    ensures SendersOk(run[k])
    ensures forall x :: run[k].answered[x] <= 1
  {
    if k == 0 {
    } else {
      AtMostOneResponse(run, actions, k - 1);
      RunKeepsInv(run, actions, k - 1);
      assert StepAt(run, actions, k - 1);
      StepKeepsSenders(run[k - 1], actions[k - 1]);
    }
  }

  /** The policy check of a call changes no prompt and answers nobody; it lets the call go on
      exactly when it cancels or its choice is not refused. */
  lemma VettingOnlyLooks(s: System, call: Call)
    ensures var n := Next(s, Vet(call));
            && n == s.(calls := n.calls, nextCall := s.nextCall + 1)
            && (s.nextCall !in s.calls ==> (s.nextCall in n.calls <==> !Refused(s, call)))
  {
  }

  /** A vetted response is delivered exactly when its owner is listed for a waiting prompt whose
      request is live; a listed owner uses the prompt up, anyone else changes nothing. */
  lemma ProvideDeliversIffListedAndLive(run: seq<System>, actions: seq<Action>, k: nat, ticket: nat)
    requires IsRun(run, actions) && k < |run| && ticket in run[k].calls
    ensures var s, n, call := run[k], Next(run[k], Provide(ticket)), run[k].calls[ticket];
            && (n.answered != s.answered <==>
                  Listed(s.registry, call.id, call.owner)
                  && Live(s.registry, s.env, s.registry.requests[call.id].request))
            && (Listed(s.registry, call.id, call.owner) ==> call.id !in n.registry.requests)
            && (!Listed(s.registry, call.id, call.owner) ==> n == s.(calls := s.calls - {ticket}))
  {
    var call := run[k].calls[ticket];
    var (_, sender) := Take(run[k].registry, run[k].env, call.id, call.owner);
    if sender.Some? {
      assert (run[k].answered + multiset{sender.value})[sender.value] > run[k].answered[sender.value];
    }
  }

  /** Tickets are handed out in order and a call that has left does not come back. */
  ghost predicate CallsShrink(s: System, n: System) {
    && s.nextCall <= n.nextCall
    && forall t :: t in n.calls && t < s.nextCall ==> t in s.calls && n.calls[t] == s.calls[t]
  }

  lemma StepShrinksCalls(s: System, a: Action)
    requires Enabled(s, a)
    ensures CallsShrink(s, Next(s, a))
  {
  }

  lemma LastStepShrinksCalls(run: seq<System>, actions: seq<Action>, j: nat)
    requires IsRun(run, actions) && 0 < j < |run|
    ensures CallsShrink(run[j - 1], run[j])
  {
    assert StepAt(run, actions, j - 1);
    StepShrinksCalls(run[j - 1], actions[j - 1]);
  }

  lemma {:induction false} CallsOnlyLeave(run: seq<System>, actions: seq<Action>, i: nat, j: nat)
    requires IsRun(run, actions) && i <= j < |run|
    ensures CallsShrink(run[i], run[j])
    decreases j
  {
    if i == j {
    } else {
      CallsOnlyLeave(run, actions, i, j - 1);
      LastStepShrinksCalls(run, actions, j);
    }
  }

  lemma {:induction false} TicketsAreIssued(run: seq<System>, actions: seq<Action>, k: nat)
    requires IsRun(run, actions) && k < |run|
    ensures forall t :: t in run[k].calls ==> t < run[k].nextCall
  {
    if k == 0 {
    } else {
      TicketsAreIssued(run, actions, k - 1);
      assert StepAt(run, actions, k - 1);
      StepIssuesTickets(run[k - 1], actions[k - 1]);
    }
  }

  lemma StepIssuesTickets(s: System, a: Action)
    requires Enabled(s, a) && forall t :: t in s.calls ==> t < s.nextCall
    ensures forall t :: t in Next(s, a).calls ==> t < Next(s, a).nextCall
  {
  }

  /** A whole call without interruption: the response is delivered if and only if the owner is
      listed, the request live and the choice not refused, and the prompt is used up if and
      only if the owner is listed and the choice not refused. So a refused choice leaves the
      prompt answerable. */
  lemma UninterruptedCall(run: seq<System>, actions: seq<Action>, k: nat, call: Call)
    requires IsRun(run, actions) && k < |run|
    ensures var s, n := run[k], Next(run[k], Vet(call));
            var m := if s.nextCall in n.calls then Next(n, Provide(s.nextCall)) else n;
            && (m.answered != s.answered <==>
                  Listed(s.registry, call.id, call.owner)
                  && Live(s.registry, s.env, s.registry.requests[call.id].request) && !Refused(s, call))
            && (m.registry != s.registry <==> Listed(s.registry, call.id, call.owner) && !Refused(s, call))
            && (m.registry != s.registry ==> m.registry == Retire(s.registry, {}, {call.id}))
  {
    TicketsAreIssued(run, actions, k);
    var s := run[k];
    var (_, sender) := Take(s.registry, s.env, call.id, call.owner);
    if sender.Some? {
      assert (s.answered + multiset{sender.value})[sender.value] > s.answered[sender.value];
    }
  }

  // ------------------------------------------------------------------ event order

  ghost predicate EventsOk(s: System) {
    && (forall i :: 0 <= i < |s.events| && s.events[i].Withdrawn? ==> Gone(s, s.events[i].id))
    && (forall i, j :: 0 <= i < j < |s.events| && s.events[i].Withdrawn? ==> s.events[j] != Requested(s.events[i].id))
  }

  lemma StaysGone(s: System, a: Action, id: RequestId)
    requires Inv(s) && Enabled(s, a) && Gone(s, id)
    ensures Gone(Next(s, a), id)
  {
    StagesAdvance(s, a, id);
    if a.Prompt? {
      PromptAddsItsOwn(s, a, id);
    } else {
      OnlyPromptsAdd(s, a);
    }
  }

  lemma StagesAdvance(s: System, a: Action, id: RequestId)
    requires Enabled(s, a) && id in s.threads && s.threads[id].stage != Looking
    ensures id in Next(s, a).threads && Next(s, a).threads[id].stage != Looking
  {
  }

  lemma OnlyPromptsAdd(s: System, a: Action)
    requires Enabled(s, a) && !a.Prompt?
    ensures Next(s, a).registry.requests.Keys <= s.registry.requests.Keys
  {
  }

  lemma PromptAddsItsOwn(s: System, a: Action, id: RequestId)
    requires Inv(s) && Enabled(s, a) && a.Prompt? && a.id != id && id !in s.registry.requests
    ensures id !in Next(s, a).registry.requests
  {
    if AddPrompt(s.registry, s.env, s.threads[a.id].request, a.owners, s.nextSender).Ok? {
      PromptEffect(s, a);
    }
  }

  lemma StepKeepsEvents(s: System, a: Action)
    requires Inv(s) && Enabled(s, a) && EventsOk(s)
    ensures EventsOk(Next(s, a))
  {
    var n := Next(s, a);
    assert n.events == s.events || (|n.events| == |s.events| + 1 && n.events[..|s.events|] == s.events);
    forall i | 0 <= i < |n.events| && n.events[i].Withdrawn? ensures Gone(n, n.events[i].id) {
      if i < |s.events| {
        assert n.events[i] == s.events[i];
        StaysGone(s, a, n.events[i].id);
      } else {
        EntryFacts(s);
        StaysGone(s, a, n.events[i].id);
      }
    }
    if n.events != s.events && a.Announce? {
      forall i | 0 <= i < |s.events| && s.events[i].Withdrawn? ensures s.events[i].id != a.id {
        assert Gone(s, s.events[i].id);
      }
    }
    forall i, j | 0 <= i < j < |n.events| && n.events[i].Withdrawn? ensures n.events[j] != Requested(n.events[i].id) {
      assert n.events[i] == s.events[i];
      assert j < |s.events| ==> n.events[j] == s.events[j];
    }
  }

  /** On the stream of every run, no "requested" for an id follows a "cancelled" for it. */
  lemma {:induction false} RequestedNeverFollowsCancelled(run: seq<System>, actions: seq<Action>, k: nat)
    requires IsRun(run, actions) && k < |run|
    ensures EventsOk(run[k])
    ensures forall i, j :: 0 <= i < j < |run[k].events| && run[k].events[i].Withdrawn?
                           ==> run[k].events[j] != Requested(run[k].events[i].id)
  {
    if k == 0 {
    } else {
      RequestedNeverFollowsCancelled(run, actions, k - 1);
      RunKeepsInv(run, actions, k - 1);
      assert StepAt(run, actions, k - 1);
      StepKeepsEvents(run[k - 1], actions[k - 1]);
    }
  }

  // ------------------------------------------------------------------ the reply window

  /** The worker releases its in-flight guard before the last delivery check. A cancellation,
      a newer lookup, a deletion or a change of owner reaches a deliverable request exactly
      while the guard is held; in the window after the guard is gone none of them stops the
      reply any more, except a change to an owner that is not the request's. */
  lemma SupersedingStopsReplyIffGuardHeld(run: seq<System>, actions: seq<Action>, k: nat, id: RequestId, a: Action)
    requires IsRun(run, actions) && k < |run| && id in run[k].threads
    requires DeliveryLive(run[k].registry, run[k].env, run[k].threads[id].request)
    requires Enabled(run[k], a) && Targets(run[k], a, id)
    ensures var q, n := run[k].threads[id].request, Next(run[k], a);
            !DeliveryLive(n.registry, n.env, q) <==>
              run[k].threads[id].guard || (a.OwnerChange? && a.owner != q.nmOwner)
  {
    RunKeepsInv(run, actions, k);
    assert ThreadOk(run[k], id);
    if run[k].threads[id].guard {
      SupersededIsRaised(run[k], a, id);
    }
  }

  const Reply := Request("r", KeyFor("/p", "vpn"), "/p", "vpn", 0, Some(":1.5"), 90, None,
                         Policy({"password"}, false))

  const OwnerKnown := Start.(registry := Registry(map[], map[], Some(":1.5"), {}))

  const LookingUp := OwnerKnown.(registry := Registry(map[Reply.key := 0], map[], Some(":1.5"), {}),
                                 threads := map["r" := Thread(Reply, Looking, true)])

  const FoundStored := LookingUp.(threads := map["r" := Thread(Reply, Over, true)])

  /** A worker that found a stored reply and has released its guard. */
  const Released := OwnerKnown.(threads := map["r" := Thread(Reply, Over, false)])

  const ReplyRun := [Start, OwnerKnown, LookingUp, FoundStored, Released]

  const ReplyActions := [OwnerChange(Some(":1.5")), Arrive(Reply), Finish("r"), DropGuard("r")]

  lemma OwnerAppears()
    ensures StepAt(ReplyRun, ReplyActions, 0)
  {
    EmptyCancel(Start);
  }

  lemma LookupStarts()
    ensures StepAt(ReplyRun, ReplyActions, 1)
  {
    ArriveEffect(OwnerKnown, Reply);
    EmptyCancel(OwnerKnown);
  }

  lemma LookupEnds()
    ensures StepAt(ReplyRun, ReplyActions, 2)
  {
  }

  lemma GuardIsReleased()
    ensures StepAt(ReplyRun, ReplyActions, 3)
  {
  }

  lemma ReplyRunIsRun()
    ensures IsRun(ReplyRun, ReplyActions)
  {
    OwnerAppears();
    LookupStarts();
    LookupEnds();
    GuardIsReleased();
    forall k | 0 <= k < 4 ensures StepAt(ReplyRun, ReplyActions, k) {
      assert k == 0 || k == 1 || k == 2 || k == 3;
    }
  }

  /** The window is reachable, and the cancel in it changes nothing. */
  lemma CancelInReplyWindowIsLost()
    ensures IsRun(ReplyRun, ReplyActions) && ReplyRun[4] == Released
    ensures var n := Next(Released, NmCancel(Reply.path, Reply.setting));
            n == Released && DeliveryLive(n.registry, n.env, Reply)
  {
    ReplyRunIsRun();
    EmptyCancel(Released);
  }

  // ------------------------------------------------------------------ the policy window

  /** Nothing revives a request: live later means live before. */
  ghost predicate AgesFrom(s: System, n: System) {
    s.registry.raised <= n.registry.raised && s.env.now <= n.env.now && s.env.dead <= n.env.dead
  }

  lemma StepAges(s: System, a: Action)
    requires Enabled(s, a)
    ensures AgesFrom(s, Next(s, a))
  {
  }

  lemma LastStepAges(run: seq<System>, actions: seq<Action>, j: nat)
    requires IsRun(run, actions) && 0 < j < |run|
    ensures AgesFrom(run[j - 1], run[j])
  {
    assert StepAt(run, actions, j - 1);
    StepAges(run[j - 1], actions[j - 1]);
  }

  lemma {:induction false} RunAges(run: seq<System>, actions: seq<Action>, i: nat, j: nat)
    requires IsRun(run, actions) && i <= j < |run|
    ensures AgesFrom(run[i], run[j])
    decreases j
  {
    if i == j {
    } else {
      RunAges(run, actions, i, j - 1);
      LastStepAges(run, actions, j);
    }
  }

  lemma RefusedEarlier(s: System, n: System, call: Call)
    requires Inv(s) && Inv(n) && AgesFrom(s, n) && !call.cancel
    requires Listed(s.registry, call.id, call.owner) && Listed(n.registry, call.id, call.owner)
    requires call.id in s.threads && call.id in n.threads
    requires s.threads[call.id].request == n.threads[call.id].request
    requires Live(n.registry, n.env, n.registry.requests[call.id].request)
    requires Rejection(n.registry.requests[call.id].request.policy, call.save).Some?
    ensures Refused(s, call)
  {
    assert EntryOk(s, call.id) && EntryOk(n, call.id);
  }

  /** The check and the delivery of a call are two locked regions. When the second one finds a
      live prompt that lists the owner and whose policy refuses the choice, the call got past
      the check if and only if the owner was not yet listed then: a refused choice reaches the
      worker exactly when its prompt was registered between the two. */
  lemma RefusedChoicePassesIffPromptIsNewer(run: seq<System>, actions: seq<Action>, i: nat, j: nat, call: Call)
    requires IsRun(run, actions) && i < j < |run| && actions[i] == Vet(call) && !call.cancel
    requires Listed(run[j].registry, call.id, call.owner)
    requires Live(run[j].registry, run[j].env, run[j].registry.requests[call.id].request)
    requires Rejection(run[j].registry.requests[call.id].request.policy, call.save).Some?
    ensures run[i].nextCall in run[i + 1].calls <==> !Listed(run[i].registry, call.id, call.owner)
    ensures run[i].nextCall in run[j].calls ==> !Listed(run[i].registry, call.id, call.owner)
  {
    TicketsAreIssued(run, actions, i);
    assert StepAt(run, actions, i);
    VettingOnlyLooks(run[i], call);
    if Listed(run[i].registry, call.id, call.owner) {
      RunKeepsInv(run, actions, i);
      RunKeepsInv(run, actions, j);
      assert EntryOk(run[i], call.id);
      RaisedForGood(run, actions, i, j, call.id);
      RunAges(run, actions, i, j);
      RefusedEarlier(run[i], run[j], call);
    }
    CallsOnlyLeave(run, actions, i + 1, j);
  }

  const EarlyCall := Call("r", Some(":1.9"), false, false)

  const EarlyVet := LookingUp.(calls := map[0 := EarlyCall], nextCall := 1)

  const EarlyPrompt := EarlyVet.(
    registry := Registry(map[Reply.key := 0], map["r" := Entry(Reply, {":1.9"}, 0)], Some(":1.5"), {}),
    threads := map["r" := Thread(Reply, Waiting, true)], nextSender := 1)

  const EarlyAnswer := EarlyPrompt.(
    registry := Registry(map[Reply.key := 0], map[], Some(":1.5"), {}), calls := map[], answered := multiset{0})

  const EarlyRun := [Start, OwnerKnown, LookingUp, EarlyVet, EarlyPrompt, EarlyAnswer]

  const EarlyActions := [OwnerChange(Some(":1.5")), Arrive(Reply), Vet(EarlyCall), Prompt("r", {":1.9"}), Provide(0)]

  lemma EarlyStart()
    ensures StepAt(EarlyRun, EarlyActions, 0) && StepAt(EarlyRun, EarlyActions, 1)
  {
    OwnerAppears();
    LookupStarts();
  }

  lemma EarlyCheck()
    ensures StepAt(EarlyRun, EarlyActions, 2)
  {
  }

  lemma LatePrompt()
    ensures StepAt(EarlyRun, EarlyActions, 3)
  {
    EmptyCancel(EarlyVet);
    PromptEffect(EarlyVet, Prompt("r", {":1.9"}));
  }

  lemma LateAnswer()
    ensures StepAt(EarlyRun, EarlyActions, 4)
  {
  }

  /** Such a run exists: the choice is refused by the policy and still delivered. */
  lemma RefusedChoiceCanBeDelivered()
    ensures IsRun(EarlyRun, EarlyActions) && !EarlyCall.cancel
    ensures Rejection(EarlyRun[4].registry.requests["r"].request.policy, EarlyCall.save).Some?
    ensures EarlyRun[5].answered == EarlyRun[4].answered + multiset{0}
  {
    EarlyStart();
    EarlyCheck();
    LatePrompt();
    LateAnswer();
    forall k | 0 <= k < 5 ensures StepAt(EarlyRun, EarlyActions, k) {
      assert k == 0 || k == 1 || k == 2 || k == 3 || k == 4;
    }
  }
}
