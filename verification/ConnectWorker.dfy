/**
 The connect worker: it publishes events while it tries an access point and at most one
 alternate, and the closure around it publishes a failure if the attempt itself errs.
 The runtime is alive throughout: handing it a terminal event never fails the worker, while
 delivering a progress event may fail at any time. What the runtime makes of the events, in any
 interleaving with the other threads, is the subject of `WorkerRuns`.
 */
module ConnectWorker {
  import opened Wrappers

  datatype Reason = SecretRequired | WrongPassword | PasswordUnavailable | AuthorizationRequired
                  | UnsupportedAuth | ValidationError | NotFound | Timeout | DhcpFailed
                  | ActivationFailed | UnknownReason

  /** An error report; `reason` is the connect reason of its code, if it has one. */
  datatype Report = Report(cancelled: bool, reason: Option<Reason>, credentialOutcome: bool)

  datatype ConnectOutcome = Succeeded(attempts: seq<Reason>) | Failed(attempts: seq<Reason>) | Cancelled

  datatype ConnectEvent =
    | Started | Trying(attempt: nat) | Phase(attempt: nat) | Retrying(previous: Reason)
    | Finished(outcome: ConnectOutcome) | CancelledEvent | WorkerFailed

  predicate Terminal(e: ConnectEvent) {
    e.Finished? || e.CancelledEvent? || e.WorkerFailed?
  }

  /** Exactly one terminal event, and nothing after it. */
  ghost predicate EndsOnce(published: seq<ConnectEvent>) {
    && published != [] && Terminal(published[|published| - 1])
    && forall k :: 0 <= k < |published| - 1 ==> !Terminal(published[k])
  }

  predicate Retryable(reason: Reason) {
    reason in {DhcpFailed, NotFound, Timeout, ActivationFailed}
  }

  function ReasonOf(report: Report): Reason {
    if report.reason.Some? then report.reason.value else UnknownReason
  }

  /** What trying one candidate would do: report `phases` phases, then end. A phase whose
      delivery fails ends the candidate with `progressError`. */
  datatype Candidate = Candidate(phases: nat, result: Result<(), Report>, progressError: Report, cancelledAfter: bool)

  datatype Script = Script(requestError: Option<Report>, cancelledBefore: bool, alternative: bool,
                           candidates: nat -> Candidate, delivered: nat -> bool)

  /** The second candidate is tried only after a retryable failure of the first that was
      neither a cancellation nor a credential outcome. */
  predicate MayRetry(report: Report) {
    !report.cancelled && !report.credentialOutcome && Retryable(ReasonOf(report))
  }

  /** A cancellation, seen by the flag after the candidate or reported by the candidate. */
  predicate Stops(result: Result<(), Report>, candidate: Candidate) {
    candidate.cancelledAfter || (result.Err? && result.error.cancelled)
  }

  predicate MayRetryAfter(result: Result<(), Report>, candidate: Candidate) {
    !candidate.cancelledAfter && result.Err? && MayRetry(result.error)
  }

  /** The reasons of the failed candidates. */
  function Reasons(results: seq<Result<(), Report>>): seq<Reason> {
    seq(|results|, i requires 0 <= i < |results| =>
      if results[i].Err? then ReasonOf(results[i].error) else UnknownReason)
  }

  /** How trying one candidate went on: its announcement was not delivered, it was cancelled,
      or it ended by itself. */
  datatype Tried = Undelivered | Interrupted | Ended(ok: bool)

  class Worker {
    const script: Script
    var published: seq<ConnectEvent>   // handed to the runtime, in order
    var tried: nat
    var results: seq<Result<(), Report>>

    constructor (script: Script)
      ensures this.script == script && published == [] && tried == 0 && results == []
    {
      this.script := script;
      published, tried, results := [], 0, [];
    }

    /** Nothing terminal was published yet. */
    ghost predicate Open() reads this {
      forall k :: 0 <= k < |published| ==> !Terminal(published[k])
    }

    ghost predicate Closed() reads this {
      EndsOnce(published)
    }

    method Emit(event: ConnectEvent) returns (ok: bool)
      requires Open()
      modifies this`published
      ensures published == old(published) + [event]
      ensures Terminal(event) ==> ok && Closed()
      ensures !Terminal(event) ==> Open() && ok == script.delivered(|old(published)|)
    {
      ok := Terminal(event) || script.delivered(|published|);
      published := published + [event];
    }

    method RunCandidate(attempt: nat) returns (result: Result<(), Report>)
      requires Open()
      modifies this`published
      ensures Open() && |old(published)| <= |published|
      ensures result.Ok? ==> script.candidates(attempt).result.Ok?
      ensures result in {script.candidates(attempt).result, Err(script.candidates(attempt).progressError)}
    {
      var candidate := script.candidates(attempt);
      var k := 0;
      while k < candidate.phases
        invariant Open() && |old(published)| <= |published|
      {
        var ok := Emit(Phase(attempt));
        if !ok {
          return Err(candidate.progressError);
        }
        k := k + 1;
      }
      result := candidate.result;
    }

    /** Announces and runs one candidate. */
    method TryCandidate() returns (step: Tried)
      requires Open() && tried == |results|
      modifies this
      ensures Open()
      ensures step == Undelivered ==> tried == old(tried) && results == old(results)
      ensures step != Undelivered ==> tried == old(tried) + 1 == |results| && old(results) == results[..old(tried)]
      ensures step != Undelivered ==>
                (step == Interrupted <==> Stops(results[old(tried)], script.candidates(old(tried))))
      ensures step == Ended(true) ==> results[old(tried)].Ok?
      ensures step == Ended(false) ==> results[old(tried)].Err? && !results[old(tried)].error.cancelled
    {
      var ok := Emit(Trying(tried + 1));
      if !ok {
        return Undelivered;
      }
      var candidate := tried;
      tried := tried + 1;
      var one := RunCandidate(candidate);
      results := results + [one];
      if script.candidates(candidate).cancelledAfter {
        return Interrupted;
      }
      if one.Err? && one.error.cancelled {
        return Interrupted;
      }
      step := Ended(one.Ok?);
    }

    /** The application's connect: an error means a progress delivery failed, and then no
        terminal was published; an outcome means its terminal is the last event. The attempts
        it reports are the reasons of the failed candidates, in order. */
    method ConnectInner() returns (result: Result<ConnectOutcome, Report>)
      requires published == [] && tried == 0 && results == []
      modifies this
      ensures result.Ok? ==> Closed() && Final(result.value)
      ensures result.Err? ==> Open()
      ensures tried == |results| <= 2
      ensures tried == 2 ==> script.alternative && MayRetryAfter(results[0], script.candidates(0))
      ensures result.Ok? ==> Outcome(result.value)
    {
      var ok := Emit(Started);
      if !ok {
        return Err(Report(false, None, false));
      }
      if script.cancelledBefore {
        ok := Emit(CancelledEvent);
        return Ok(Cancelled);
      }
      var alternative := script.alternative;
      var attempts: seq<Reason> := [];
      var outcome := Cancelled;
      while true
        invariant Open() && tried == |results| <= 1 && attempts == Reasons(results)
        invariant tried == 0 ==> alternative == script.alternative
        invariant tried == 1 ==> !alternative && script.alternative && MayRetryAfter(results[0], script.candidates(0))
        decreases 2 - tried
      {
        var step := TryCandidate();
        if step == Undelivered {
          return Err(Report(false, None, false));
        }
        if step == Interrupted {
          ok := Emit(CancelledEvent);
          return Ok(Cancelled);
        }
        if step == Ended(true) {
          outcome := Succeeded(attempts);
          break;
        }
        var error := results[tried - 1].error;
        attempts := attempts + [ReasonOf(error)];
        if !error.credentialOutcome && Retryable(ReasonOf(error)) && alternative {
          alternative := false;
          ok := Emit(Retrying(ReasonOf(error)));
          if !ok {
            return Err(Report(false, None, false));
          }
        } else {
          outcome := Failed(attempts);
          break;
        }
      }
      ok := Emit(Finished(outcome));
      result := Ok(outcome);
    }

    /** What an outcome says about the candidates that were tried. */
    ghost predicate Outcome(outcome: ConnectOutcome) reads this {
      match outcome
      case Cancelled =>
        if results == [] then script.cancelledBefore
        else Stops(results[|results| - 1], script.candidates(|results| - 1))
      case Succeeded(attempts) =>
        && results != [] && results[|results| - 1].Ok? && !script.candidates(|results| - 1).cancelledAfter
        && attempts == Reasons(results[..|results| - 1])
      case Failed(attempts) =>
        && results != [] && results[|results| - 1].Err?
        && !Stops(results[|results| - 1], script.candidates(|results| - 1))
        && attempts == Reasons(results)
        && (|results| == 1 ==> !(script.alternative && MayRetry(results[0].error)))
    }

    /** The terminal that was published says what the outcome says. */
    ghost predicate Final(outcome: ConnectOutcome) reads this {
      published != [] &&
      published[|published| - 1] == if outcome == Cancelled then CancelledEvent else Finished(outcome)
    }

    /** The worker closure: however the attempt ends, and wherever a delivery fails, exactly
        one terminal event is handed to the runtime and it is the last one; at most two
        candidates are tried, the second only after a retryable failure. */
    method Run() returns (result: Result<ConnectOutcome, Report>)
      requires published == [] && tried == 0 && results == []
      modifies this
      ensures Closed()
      ensures tried == |results| <= 2
      ensures tried == 2 ==> script.alternative && MayRetryAfter(results[0], script.candidates(0))
      ensures result.Ok? ==> Final(result.value) && Outcome(result.value)
      ensures result.Err? ==> published[|published| - 1] == WorkerFailed
    {
      if script.requestError.Some? {
        result := Err(script.requestError.value);
      } else {
        result := ConnectInner();
      }
      if result.Err? {
        var ok := Emit(WorkerFailed);
      }
    }
  }
}
