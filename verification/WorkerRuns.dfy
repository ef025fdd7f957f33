/**
 Connect workers inside whole runs of the operation registry: the events a worker publishes are
 its publishing steps in the run, interleaved with the steps of every other thread.
 */
module WorkerRuns {
  import opened Wrappers
  import R = Runtime
  import opened RuntimeRuns
  import W = ConnectWorker

  /** The name a terminal event has on the wire. */
  function NameOf(e: W.ConnectEvent): R.EventName
    requires W.Terminal(e)
  {
    match e
    case Finished(outcome) =>
      (match outcome
       case Succeeded(_) => R.Succeeded
       case Failed(_) => R.Failed
       case Cancelled => R.Cancelled)
    case CancelledEvent => R.Cancelled
    case WorkerFailed => R.Failed
    case _ => assert false; R.Failed
  }

  predicate Publishes(a: Action, id: R.RequestId) {
    (a.PublishTerminal? && a.id == id) || (a.PublishProgress? && a.id == id)
  }

  /** How often `id` publishes before the step `j`. */
  function PublishedBefore(actions: seq<Action>, id: R.RequestId, j: nat): nat
    requires j <= |actions|
  {
    if j == 0 then 0
    else PublishedBefore(actions, id, j - 1) + (if Publishes(actions[j - 1], id) then 1 else 0)
  }

  /** The step hands over this event: a terminal under its name, anything else as progress. */
  predicate Carries(a: Action, e: W.ConnectEvent) {
    if W.Terminal(e) then a.PublishTerminal? && a.event.name == NameOf(e) else a.PublishProgress?
  }

  /** The publishing steps of `id` before `j` are exactly these events, in this order. */
  ghost predicate Performs(actions: seq<Action>, id: R.RequestId, j: nat, published: seq<W.ConnectEvent>)
    requires j <= |actions|
  {
    && PublishedBefore(actions, id, j) == |published|
    && forall i :: 0 <= i < j && Publishes(actions[i], id) && PublishedBefore(actions, id, i) < |published| ==>
         Carries(actions[i], published[PublishedBefore(actions, id, i)])
  }

  lemma {:induction false} PublishedGrows(actions: seq<Action>, id: R.RequestId, i: nat, j: nat)
    requires i <= j <= |actions|
    ensures PublishedBefore(actions, id, i) <= PublishedBefore(actions, id, j)
    decreases j
  {
    if i == j {
    } else {
      PublishedGrows(actions, id, i, j - 1);
    }
  }

  /** The step that publishes the `n`-th event. */
  lemma {:induction false} PublishingStep(actions: seq<Action>, id: R.RequestId, j: nat, n: nat) returns (i: nat)
    requires j <= |actions| && n < PublishedBefore(actions, id, j)
    ensures i < j && Publishes(actions[i], id) && PublishedBefore(actions, id, i) == n
    decreases j
  {
    if n == PublishedBefore(actions, id, j - 1) {
      i := j - 1;
    } else {
      i := PublishingStep(actions, id, j - 1, n);
    }
  }

  /** A worker that ends once has exactly one terminal publishing step. */
  lemma OneTerminalStep(actions: seq<Action>, id: R.RequestId, j: nat, published: seq<W.ConnectEvent>) returns (i: nat)
    requires j <= |actions| && Performs(actions, id, j, published) && W.EndsOnce(published)
    ensures i < j && actions[i].PublishTerminal? && actions[i].id == id
    ensures actions[i].event.name == NameOf(published[|published| - 1])
    ensures forall k :: 0 <= k < j && actions[k].PublishTerminal? && actions[k].id == id ==> k == i
  {
    i := PublishingStep(actions, id, j, |published| - 1);
    forall k | 0 <= k < j && actions[k].PublishTerminal? && actions[k].id == id ensures k == i {
      PublishedGrows(actions, id, k + 1, j);
      var n := PublishedBefore(actions, id, k);
      assert Carries(actions[k], published[n]);
      assert n == |published| - 1;
      if k < i {
        PublishedGrows(actions, id, k + 1, i);
      }
      if i < k {
        PublishedGrows(actions, id, i + 1, k);
      }
    }
  }

  /** Nobody else records for a request: without a terminal step of `id` nothing is recorded. */
  lemma {:induction false} NothingRecordedUnpublished(run: seq<System>, actions: seq<Action>, id: R.RequestId, j: nat)
    requires IsRun(run, actions) && j < |run|
    requires forall k :: 0 <= k < j ==> !(actions[k].PublishTerminal? && actions[k].id == id)
    ensures id !in run[j].recorded
    decreases j
  {
    if j == 0 {
    } else {
      NothingRecordedUnpublished(run, actions, id, j - 1);
      assert StepAt(run, actions, j - 1);
      OthersRecordNothing(run[j - 1], actions[j - 1], id);
    }
  }

  lemma OthersRecordNothing(s: System, a: Action, id: R.RequestId)
    requires Enabled(s, a) && !(a.PublishTerminal? && a.id == id) && id !in s.recorded
    ensures id !in Next(s, a).recorded
  {
  }

  /** A connect that publishes a success too late records a cancellation. */
  predicate Lost(s: System, a: Action)
    requires a.PublishTerminal?
  {
    && a.event.name == R.Succeeded && a.id in s.registry.tasks
    && s.registry.tasks[a.id].kind == R.Connect
    && (a.ownerChanged || s.registry.tasks[a.id].flag in s.registry.raised)
  }

  lemma PublishRecordsName(s: System, a: Action)
    requires Inv(s) && Enabled(s, a) && a.PublishTerminal? && a.id !in s.recorded
    ensures a.id in Next(s, a).recorded
    ensures Next(s, a).recorded[a.id].name == if Lost(s, a) then R.Cancelled else a.event.name
  {
    assert TaskOk(s, a.id);
    PublishEffect(s, a);
  }

  /** A worker whose published events end once (as `Worker.Run` guarantees however deliveries
      fail) leaves exactly one terminal recorded when it returns: the one it published, or a
      cancellation if its success came after its flag had risen. It stays for good. */
  lemma ReturningWorkerLeavesOneTerminal(run: seq<System>, actions: seq<Action>, j: nat, id: R.RequestId,
                                         published: seq<W.ConnectEvent>, later: nat) returns (i: nat)
    requires IsRun(run, actions) && j < |actions| && actions[j] == WorkerReturns(id) && j < later < |run|
    requires Performs(actions, id, j, published) && W.EndsOnce(published)
    ensures i < j && actions[i].PublishTerminal? && actions[i].id == id
    ensures forall k :: 0 <= k < j && actions[k].PublishTerminal? && actions[k].id == id ==> k == i
    ensures id !in run[i].recorded && id in run[i + 1].recorded && id in run[later].recorded
    ensures run[later].recorded[id] == run[i + 1].recorded[id]
    ensures run[later].recorded[id].name
            == if Lost(run[i], actions[i]) then R.Cancelled else NameOf(published[|published| - 1])
  {
    i := OneTerminalStep(actions, id, j, published);
    NothingRecordedUnpublished(run, actions, id, i);
    RunKeepsInv(run, actions, i);
    assert StepAt(run, actions, i);
    PublishRecordsName(run[i], actions[i]);
    TerminalIsImmutable(run, actions, i + 1, later, id);
  }
}
