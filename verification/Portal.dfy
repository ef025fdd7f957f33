/** The captive-portal policy: the consumer of the registry's proof of a successful connect. */
module Portal {
  import opened Wrappers
  import opened Runtime
  import opened RuntimeRuns

  datatype Mode = Automatic | Manual

  datatype PrepareParams = PrepareParams(mode: Mode, connectRequestId: Option<RequestId>, fallback: bool)

  datatype ConnectivityStatus = ConnectivityStatus(primary: Option<PrimaryConnection>, captivePortal: bool)

  /** NetworkManager's unique bus owner fences restarts, the active path fences reconnects. */
  datatype Episode = Episode(nmOwner: string, path: string, uuid: string)

  datatype Rejection = NoPrimary | IdentityUnavailable | ProofInsufficient | UnexpectedRequest

  function EpisodeContext(nmOwner: string, status: ConnectivityStatus): Result<Episode, Rejection> {
    if status.primary.None? then Err(NoPrimary) else
    var primary := status.primary.value;
    if nmOwner == "" || primary.path == "/" || primary.uuid == "" then Err(IdentityUnavailable)
    else Ok(Episode(nmOwner, primary.path, primary.uuid))
  }

  function Validate(params: PrepareParams, nmOwner: string, status: ConnectivityStatus, proof: Status)
    : Result<Episode, Rejection>
  {
    var context := EpisodeContext(nmOwner, status);
    if context.Err? then context else
    match params.mode
    case Automatic =>
      if params.fallback || !status.captivePortal || !proof.Finished? || proof.stream != WifiConnect
         || proof.event.name != Succeeded || proof.event.result.None?
         || !proof.event.result.value.suggestOpenPortal
         || proof.event.result.value.primary != status.primary
      then Err(ProofInsufficient) else context
    case Manual =>
      if params.connectRequestId.Some? then Err(UnexpectedRequest) else context
  }

  lemma ProvenTaskIsConnect(run: seq<System>, actions: seq<Action>, i: nat, j: nat, id: RequestId, caller: Owner)
    requires IsRun(run, actions) && i <= j < |run|
    requires id in run[i].registry.tasks && !run[i].registry.tasks[id].terminal
    requires var proof := RequestStatus(run[j].registry, id, caller); proof.Finished? && proof.stream == WifiConnect
    ensures run[i].registry.tasks[id].kind == Connect
  {
    RunKeepsInv(run, actions, i);
    assert TaskOk(run[i], id);
    ReportsAreConsistent(run, actions, j, id, caller);
    ObservationsAreOrdered(run, actions, i, j, id, caller);
    assert id in run[i].registry.results ==> ResultOk(run[i], id);
  }

  /** An automatic launch is granted to the owner of a connect that really completed: at no
      point of the run, before or after the grant, is its activation aborted, and its flag
      never rose while the connect was open. */
  lemma AutomaticLaunchNeedsUncancelledConnect(
    run: seq<System>, actions: seq<Action>, i: nat, j: nat, id: RequestId, caller: Owner,
    params: PrepareParams, nmOwner: string, status: ConnectivityStatus)
    requires IsRun(run, actions) && i < |run| && j < |run|
    requires params.mode == Automatic
    requires Validate(params, nmOwner, status, RequestStatus(run[j].registry, id, caller)).Ok?
    ensures id in run[j].owners && run[j].owners[id] == caller
    ensures id !in run[i].aborts
    ensures i <= j && id in run[i].registry.tasks && !run[i].registry.tasks[id].terminal ==>
              run[i].registry.tasks[id].flag !in run[i].registry.raised
    ensures id in run[j].recorded && run[j].recorded[id].result.Some?
    ensures run[j].recorded[id].result.value.primary == status.primary
  {
    ReportsAreConsistent(run, actions, j, id, caller);
    if id in run[i].aborts {
      AbortExcludesSuccess(run, actions, i, j, id);
      assert false;
    }
    if i <= j && id in run[i].registry.tasks && !run[i].registry.tasks[id].terminal
       && run[i].registry.tasks[id].flag in run[i].registry.raised {
      ProvenTaskIsConnect(run, actions, i, j, id, caller);
      CancelledBeforeCompletionNeverSucceeds(run, actions, i, j, id, caller);
    }
  }
}
