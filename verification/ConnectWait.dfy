/**
 Waiting for a requested activation: an incremental detector that tolerates a failure for
 a grace period, the computation of the next wake-up, and the loop around them.
 Times are milliseconds of a monotonic clock.
 */
module ConnectWait {
  import opened Wrappers

  const ACTIVATION_FAILURE_GRACE: nat := 3_000
  const DURATION_MAX: nat := 0xFFFF_FFFF_FFFF_FFFF * 1_000 + 999
  const DEVICE_STATE_DISCONNECTED: nat := 30
  const DEVICE_STATE_ACTIVATED: nat := 100
  const CONNECTION_STATE_ACTIVATED: nat := 2
  const CONNECTION_STATE_DEACTIVATING: nat := 3

  datatype Status = Status(iface: string, deviceState: nat, reason: nat, connectionState: Option<nat>)

  predicate Activated(s: Status) {
    s.deviceState == DEVICE_STATE_ACTIVATED && s.connectionState == Some(CONNECTION_STATE_ACTIVATED)
  }

  predicate TerminalFailureAfterProgress(s: Status) {
    s.deviceState <= DEVICE_STATE_DISCONNECTED
  }

  /** One poll of NetworkManager. `requested` says whether an activation path is tracked. */
  datatype Observation = Observation(status: Option<Status>, ssidMatches: bool, requested: bool,
                                     requestedState: Option<nat>, now: nat)

  predicate RequestedActivationStopped(o: Observation) {
    o.requested && (o.requestedState.None? || o.requestedState.value >= CONNECTION_STATE_DEACTIVATING)
  }

  function SaturatingSub(a: nat, b: nat): nat {
    if a < b then 0 else a - b
  }

  function Min(a: nat, b: nat): nat {
    if a < b then a else b
  }

  datatype PendingFailure = PendingFailure(since: nat, status: Status)

  datatype Wait = Wait(sawProgress: bool, hasCurrentStatus: bool, pending: Option<PendingFailure>,
                       lastStatus: Option<Status>)

  const Fresh := Wait(false, false, None, None)

  datatype Verdict = Active | Continue | Failure(status: Status)

  /** The original grace deadline is kept; a generic snapshot never erases an informative
      reason, but the first informative one replaces a generic status. */
  function Latch(pending: Option<PendingFailure>, status: Status, now: nat): PendingFailure {
    var p := if pending.Some? then pending.value else PendingFailure(now, status);
    if p.status.reason == 0 && status.reason != 0 then p.(status := status) else p
  }

  function Observe(w: Wait, o: Observation): (Wait, Verdict) {
    match o.status
    case None => (w.(hasCurrentStatus := false), if o.ssidMatches then Active else Continue)
    case Some(status) =>
      var saw := w.sawProgress || status.deviceState > DEVICE_STATE_DISCONNECTED || o.requested;
      var w1 := w.(hasCurrentStatus := true, sawProgress := saw);
      if o.ssidMatches && Activated(status) then (w1, Active) else
      if !(saw && (TerminalFailureAfterProgress(status) || RequestedActivationStopped(o)))
      then (w1.(pending := None, lastStatus := Some(status)), Continue) else
      var p := Latch(w.pending, status, o.now);
      if SaturatingSub(o.now, p.since) < ACTIVATION_FAILURE_GRACE
      then (w1.(pending := Some(p), lastStatus := Some(status)), Continue)
      else (w1.(pending := Some(p)), Failure(p.status))
  }

  function WaitAt(deadline: nat, now: nat, max: nat): nat {
    Min(max, SaturatingSub(deadline, now))
  }

  function NextWake(w: Wait, deadline: nat, now: nat): nat {
    var remaining := if w.pending.Some?
                     then SaturatingSub(ACTIVATION_FAILURE_GRACE, SaturatingSub(now, w.pending.value.since))
                     else DURATION_MAX;
    WaitAt(deadline, now, if w.hasCurrentStatus || remaining != 0 then remaining else DURATION_MAX)
  }

  // ------------------------------------------------------------------ the trace rule

  /** The history so far ended neither in success nor in failure. */
  ghost predicate Continuing(h: seq<Observation>) {
    h == [] || (Continuing(h[..|h| - 1]) && Observe(After(h[..|h| - 1]), h[|h| - 1]).1 == Continue)
  }

  /** The detector's memory after a history. */
  ghost function After(h: seq<Observation>): Wait {
    if h == [] then Fresh else Observe(After(h[..|h| - 1]), h[|h| - 1]).0
  }

  predicate ShowsProgress(o: Observation) {
    o.status.Some? && (o.status.value.deviceState > DEVICE_STATE_DISCONNECTED || o.requested)
  }

  /** A status-bearing observation is bad if it shows a stopped device or activation and
      progress was seen by then; otherwise it is healthy. */
  ghost predicate Bad(h: seq<Observation>, i: nat)
    requires i < |h|
  {
    && h[i].status.Some?
    && (TerminalFailureAfterProgress(h[i].status.value) || RequestedActivationStopped(h[i]))
    && exists j :: 0 <= j <= i && ShowsProgress(h[j])
  }

  /** `i` is the closest status-bearing observation before `f`. */
  ghost predicate ClosestBefore(h: seq<Observation>, i: nat, f: nat) {
    i < f <= |h| && h[i].status.Some? && forall j :: i < j < f ==> h[j].status.None?
  }

  /** `f` starts the current stretch: every status-bearing observation from `f` on is bad,
      and the closest status-bearing one before `f`, if any, is healthy. */
  ghost predicate StretchFrom(h: seq<Observation>, f: nat) {
    && f < |h| && h[f].status.Some?
    && (forall i :: f <= i < |h| && h[i].status.Some? ==> Bad(h, i))
    && (forall i :: ClosestBefore(h, i, f) ==> !Bad(h, i))
  }

  /** The status to report: the first of the stretch with a reason, or its first status. */
  ghost predicate Reports(h: seq<Observation>, f: nat, status: Status) {
    && f < |h| && h[f].status.Some?
    && if forall i :: f <= i < |h| && h[i].status.Some? ==> h[i].status.value.reason == 0
       then status == h[f].status.value
       else exists g :: f <= g < |h| && h[g].status == Some(status) && status.reason != 0
                        && forall i :: f <= i < g && h[i].status.Some? ==> h[i].status.value.reason == 0
  }

  /** What the detector remembers is exactly what the rule says of the history. */
  ghost predicate Remembers(w: Wait, h: seq<Observation>) {
    && (w.sawProgress <==> exists j :: 0 <= j < |h| && ShowsProgress(h[j]))
    && (w.hasCurrentStatus <==> h != [] && h[|h| - 1].status.Some?)
    && (w.pending.None? ==> forall f :: !StretchFrom(h, f))
    && (w.pending.Some? ==> exists f: nat :: StretchFrom(h, f) && h[f].now == w.pending.value.since
                                        && Reports(h, f, w.pending.value.status))
  }

  lemma BadIsStable(h: seq<Observation>, o: Observation, i: nat)
    requires i < |h|
    ensures Bad(h + [o], i) <==> Bad(h, i)
  {
    assert forall j :: 0 <= j <= i ==> (h + [o])[j] == h[j];
    if Bad(h, i) {
      var j :| 0 <= j <= i && ShowsProgress(h[j]);
      assert ShowsProgress((h + [o])[j]);
    }
    if Bad(h + [o], i) {
      var j :| 0 <= j <= i && ShowsProgress((h + [o])[j]);
      assert ShowsProgress(h[j]);
    }
  }

  /** A silent or bad observation extends a stretch; only a bad one can start it. */
  lemma StretchExtends(h: seq<Observation>, o: Observation, f: nat)
    requires f < |h|
    ensures StretchFrom(h + [o], f) <==> StretchFrom(h, f) && (o.status.Some? ==> Bad(h + [o], |h|))
  {
    var e := h + [o];
    forall i | 0 <= i < |h| ensures e[i] == h[i] && (Bad(e, i) <==> Bad(h, i)) { BadIsStable(h, o, i); }
    if StretchFrom(e, f) {
      forall i | ClosestBefore(h, i, f) ensures !Bad(h, i) { assert ClosestBefore(e, i, f); }
    }
    if StretchFrom(h, f) && (o.status.Some? ==> Bad(e, |h|)) {
      forall i | ClosestBefore(e, i, f) ensures !Bad(e, i) { assert ClosestBefore(h, i, f); }
    }
  }

  /** Walk back over bad and silent observations to where the stretch starts. */
  lemma {:induction false} EarliestBad(h: seq<Observation>, f: nat, k: nat) returns (g: nat)
    requires k <= f < |h| && h[f].status.Some?
    requires forall j :: k <= j < f ==> h[j].status.None?
    requires forall j :: f <= j < |h| && h[j].status.Some? ==> Bad(h, j)
    ensures StretchFrom(h, g) && g <= f
    decreases k
  {
    if k == 0 || (h[k - 1].status.Some? && !Bad(h, k - 1)) {
      g := f;
      forall i | ClosestBefore(h, i, f) ensures !Bad(h, i) { assert i == k - 1; }
    } else {
      g := EarliestBad(h, if h[k - 1].status.Some? then k - 1 else f, k - 1);
    }
  }

  lemma StretchIsUnique(h: seq<Observation>, f: nat, g: nat)
    requires StretchFrom(h, f) && StretchFrom(h, g)
    ensures f == g
  {
    if f < g {
      var _ := NearestBefore(h, f, g);
    } else if g < f {
      var _ := NearestBefore(h, g, f);
    }
  }

  lemma {:induction false} NearestBefore(h: seq<Observation>, f: nat, g: nat) returns (i: nat)
    requires f < g <= |h| && h[f].status.Some?
    ensures f <= i && ClosestBefore(h, i, g)
    decreases g - f
  {
    if h[g - 1].status.Some? {
      i := g - 1;
    } else {
      i := NearestBefore(h, f, g - 1);
    }
  }

  lemma ReportsExtend(h: seq<Observation>, o: Observation, f: nat, status: Status)
    requires Reports(h, f, status)
    ensures Reports(h + [o], f,
                    if o.status.Some? && status.reason == 0 && o.status.value.reason != 0
                    then o.status.value else status)
  {
    var e := h + [o];
    assert forall i :: 0 <= i < |h| ==> e[i] == h[i];
    if status.reason == 0 && o.status.Some? && o.status.value.reason != 0 {
      assert e[|h|].status == Some(o.status.value);
    } else if status.reason != 0 {
      assert !(forall i :: f <= i < |h| && h[i].status.Some? ==> h[i].status.value.reason == 0)
             || h[f].status.value.reason != 0;
      var g :| f <= g < |h| && h[g].status == Some(status)
               && forall i :: f <= i < g && h[i].status.Some? ==> h[i].status.value.reason == 0;
      assert e[g].status == Some(status);
    }
  }

  /** One more observation keeps the memory equal to the rule. */
  lemma StepRemembers(w: Wait, h: seq<Observation>, o: Observation)
    requires Remembers(w, h)
    requires Observe(w, o).1 != Active
    ensures Remembers(Observe(w, o).0, h + [o])
  {
    var e, n := h + [o], Observe(w, o).0;
    assert forall i :: 0 <= i < |h| ==> e[i] == h[i];
    assert e[|h|] == o;
    ProgressExtends(h, o);
    if o.status.None? {
      SilenceChangesNothing(w, h, o);
    } else if n.pending.None? {
      assert !Bad(e, |h|);
    } else {
      BadLatches(w, h, o);
    }
  }

  lemma ProgressExtends(h: seq<Observation>, o: Observation)
    ensures (exists j :: 0 <= j <= |h| && ShowsProgress((h + [o])[j])) <==>
            (exists j :: 0 <= j < |h| && ShowsProgress(h[j])) || ShowsProgress(o)
  {
    var e := h + [o];
    assert e[|h|] == o;
    if j :| 0 <= j < |h| && ShowsProgress(h[j]) {
      assert ShowsProgress(e[j]);
    }
    if j :| 0 <= j <= |h| && ShowsProgress(e[j]) {
      assert j < |h| ==> ShowsProgress(h[j]);
    }
  }

  lemma SilenceChangesNothing(w: Wait, h: seq<Observation>, o: Observation)
    requires Remembers(w, h) && o.status.None?
    ensures w.pending.None? ==> forall f :: !StretchFrom(h + [o], f)
    ensures w.pending.Some? ==> exists f: nat :: StretchFrom(h + [o], f) && (h + [o])[f].now == w.pending.value.since
                                                 && Reports(h + [o], f, w.pending.value.status)
  {
    forall f: nat | StretchFrom(h + [o], f) ensures StretchFrom(h, f) { StretchExtends(h, o, f); }
    if w.pending.Some? {
      var f: nat :| StretchFrom(h, f) && h[f].now == w.pending.value.since && Reports(h, f, w.pending.value.status);
      StretchExtends(h, o, f);
      ReportsExtend(h, o, f, w.pending.value.status);
      assert (h + [o])[f] == h[f];
    }
  }

  lemma BadLatches(w: Wait, h: seq<Observation>, o: Observation)
    requires Remembers(w, h) && o.status.Some? && Bad(h + [o], |h|)
    ensures var p := Latch(w.pending, o.status.value, o.now);
            exists f: nat :: StretchFrom(h + [o], f) && (h + [o])[f].now == p.since && Reports(h + [o], f, p.status)
  {
    var e := h + [o];
    if w.pending.Some? {
      var f: nat :| StretchFrom(h, f) && h[f].now == w.pending.value.since && Reports(h, f, w.pending.value.status);
      StretchExtends(h, o, f);
      ReportsExtend(h, o, f, w.pending.value.status);
      assert e[f] == h[f];
    } else {
      forall i: nat | ClosestBefore(e, i, |h|) ensures !Bad(e, i) {
        BadIsStable(h, o, i);
        if Bad(h, i) {
          assert forall j :: i < j < |h| ==> h[j] == e[j];
          var g := EarliestBad(h, i, i);
        }
      }
      assert StretchFrom(e, |h|) && Reports(e, |h|, o.status.value);
    }
  }

  lemma {:induction false} MemoryMatchesHistory(h: seq<Observation>)
    requires Continuing(h)
    ensures Remembers(After(h), h)
  {
    if h == [] {
    } else {
      var before := h[..|h| - 1];
      MemoryMatchesHistory(before);
      StepRemembers(After(before), before, h[|h| - 1]);
      assert before + [h[|h| - 1]] == h;
    }
  }

  /** The detector refines the rule: after any history it fails with a status exactly when
      the current stretch of bad observations began at least the grace period ago, and the
      status is the one the rule reports. */
  lemma FailsExactlyByTheRule(h: seq<Observation>, o: Observation, status: Status)
    requires Continuing(h)
    ensures Observe(After(h), o).1 == Failure(status) <==>
              && o.status.Some? && !(o.ssidMatches && Activated(o.status.value))
              && exists f: nat :: && StretchFrom(h + [o], f)
                                  && o.now >= (h + [o])[f].now + ACTIVATION_FAILURE_GRACE
                                  && Reports(h + [o], f, status)
  {
    MemoryMatchesHistory(h);
    var w, e := After(h), h + [o];
    if o.status.Some? && !(o.ssidMatches && Activated(o.status.value)) {
      StepRemembers(w, h, o);
      var n := Observe(w, o).0;
      if n.pending.Some? {
        var f: nat :| StretchFrom(e, f) && e[f].now == n.pending.value.since && Reports(e, f, n.pending.value.status);
        forall g: nat | StretchFrom(e, g) ensures g == f { StretchIsUnique(e, f, g); }
        if Reports(e, f, status) {
          ReportIsUnique(e, f, status, n.pending.value.status);
        }
      }
    }
  }

  lemma ReportIsUnique(h: seq<Observation>, f: nat, x: Status, y: Status)
    requires Reports(h, f, x) && Reports(h, f, y)
    ensures x == y
  {
  }

  /** Silence is invisible: an observation without a status never fails, leaves every later
      verdict and memory as they would have been without it, and causes no zero-length wait. */
  lemma SilenceIsInvisible(w: Wait, o: Observation, next: Observation, deadline: nat, now: nat)
    requires o.status.None?
    ensures !Observe(w, o).1.Failure?
    ensures Observe(Observe(w, o).0, next) == Observe(w, next)
    ensures NextWake(Observe(w, o).0, deadline, now) == 0 ==> now >= deadline
  {
  }

  // ------------------------------------------------------------------ wake-ups

  /** A wake-up never oversleeps the deadline, nor the end of an unexpired grace period. */
  lemma NeverOversleeps(w: Wait, deadline: nat, now: nat)
    ensures NextWake(w, deadline, now) <= SaturatingSub(deadline, now)
    ensures w.pending.Some? && SaturatingSub(now, w.pending.value.since) < ACTIVATION_FAILURE_GRACE ==>
              NextWake(w, deadline, now) <= ACTIVATION_FAILURE_GRACE - SaturatingSub(now, w.pending.value.since)
  {
  }

  /** A zero-length wait before the deadline happens only with a current status and an
      expired grace period. */
  lemma ZeroWaitMeansExpiredGrace(w: Wait, deadline: nat, now: nat)
    requires now < deadline
    ensures NextWake(w, deadline, now) == 0 <==>
              && w.hasCurrentStatus && w.pending.Some?
              && SaturatingSub(now, w.pending.value.since) >= ACTIVATION_FAILURE_GRACE
  {
  }

  /** After a zero-length wait the next observation ends the loop or leads to a real wait. */
  lemma NoTwoZeroWaits(w: Wait, o: Observation, deadline: nat, now: nat, later: nat)
    requires NextWake(w, deadline, now) == 0 && now <= o.now <= later < deadline
    requires Observe(w, o).1 == Continue
    ensures NextWake(Observe(w, o).0, deadline, later) > 0
  {
    ZeroWaitMeansExpiredGrace(w, deadline, now);
  }

  // ------------------------------------------------------------------ in place

  /** One iteration's readings: the clock at the loop head, the poll (or that it cannot be
      read), whether the scope replaces a failure by its own, and the clock again when the
      wait is computed. */
  datatype Round = Round(cancelled: bool, scopeStopped: bool, head: nat, unreadable: bool, poll: Observation,
                         scopeBlames: bool, wake: nat)

  datatype Outcome = Connected | Cancelled | ScopeStopped | Unreadable | Failed(status: Status)
                   | TimedOut(last: Option<Status>) | Unfinished

  /** The clock never runs backwards, within a round or between rounds. */
  ghost predicate Monotone(rounds: seq<Round>) {
    && (forall k :: 0 <= k < |rounds| ==> rounds[k].head <= rounds[k].poll.now <= rounds[k].wake)
    && (forall k :: 0 < k < |rounds| ==> rounds[k - 1].wake <= rounds[k].head)
  }

  function Polls(rounds: seq<Round>): seq<Observation> {
    seq(|rounds|, i requires 0 <= i < |rounds| => rounds[i].poll)
  }

  lemma AfterOneMore(rounds: seq<Round>, k: nat)
    requires k < |rounds|
    ensures After(Polls(rounds[..k + 1])) == Observe(After(Polls(rounds[..k])), rounds[k].poll).0
  {
    assert Polls(rounds[..k + 1])[..k] == Polls(rounds[..k]);
  }

  /** How a round ends the wait, if it does, given the memory it starts with. */
  function Ends(w: Wait, round: Round, deadline: nat): Outcome {
    if round.cancelled then Cancelled
    else if round.scopeStopped then ScopeStopped
    else if round.head >= deadline then TimedOut(w.lastStatus)
    else if round.unreadable then Unreadable
    else match Observe(w, round.poll).1
      case Active => Connected
      case Failure(status) => if round.scopeBlames then ScopeStopped else Failed(status)
      case Continue => Unfinished
  }

  ghost function EndOf(rounds: seq<Round>, deadline: nat, k: nat): Outcome
    requires k < |rounds|
  {
    Ends(After(Polls(rounds[..k])), rounds[k], deadline)
  }

  ghost function WakeOf(rounds: seq<Round>, deadline: nat, k: nat): nat
    requires k < |rounds|
  {
    NextWake(After(Polls(rounds[..k + 1])), deadline, rounds[k].wake)
  }

  /** The first rounds went by without an end, each followed by the wait it computed. */
  ghost predicate Waited(rounds: seq<Round>, deadline: nat, waits: seq<nat>) {
    && |waits| <= |rounds|
    && forall k :: 0 <= k < |waits| ==>
         EndOf(rounds, deadline, k) == Unfinished && waits[k] == WakeOf(rounds, deadline, k)
  }

  lemma WaitedOneMore(rounds: seq<Round>, deadline: nat, waits: seq<nat>, wait: nat)
    requires Waited(rounds, deadline, waits) && |waits| < |rounds|
    requires EndOf(rounds, deadline, |waits|) == Unfinished && wait == WakeOf(rounds, deadline, |waits|)
    ensures Waited(rounds, deadline, waits + [wait])
  {
  }

  /** Rounds that do not end the wait leave a history on which the detector is defined. */
  lemma {:induction false} UnfinishedRoundsContinue(rounds: seq<Round>, deadline: nat, waits: seq<nat>, n: nat)
    requires Waited(rounds, deadline, waits) && n <= |waits|
    ensures Continuing(Polls(rounds[..n]))
    decreases n
  {
    if n == 0 {
    } else {
      UnfinishedRoundsContinue(rounds, deadline, waits, n - 1);
      assert EndOf(rounds, deadline, n - 1) == Unfinished;
      assert Polls(rounds[..n])[..n - 1] == Polls(rounds[..n - 1]);
    }
  }

  /** The whole loop refines the rule: it ends with a failure status exactly when its last
      round is read uncancelled before the deadline, the rule fires on the observations, and
      the scope does not blame its own credentials instead. */
  lemma LoopFailsExactlyByTheRule(rounds: seq<Round>, deadline: nat, waits: seq<nat>, status: Status)
    requires Waited(rounds, deadline, waits) && |waits| < |rounds|
    ensures var h, last := Polls(rounds[..|waits|]), rounds[|waits|];
            EndOf(rounds, deadline, |waits|) == Failed(status) <==>
              && !last.cancelled && !last.scopeStopped && last.head < deadline
              && !last.unreadable && !last.scopeBlames
              && last.poll.status.Some? && !(last.poll.ssidMatches && Activated(last.poll.status.value))
              && exists f: nat :: && StretchFrom(h + [last.poll], f)
                                  && last.poll.now >= (h + [last.poll])[f].now + ACTIVATION_FAILURE_GRACE
                                  && Reports(h + [last.poll], f, status)
  {
    UnfinishedRoundsContinue(rounds, deadline, waits, |waits|);
    FailsExactlyByTheRule(Polls(rounds[..|waits|]), rounds[|waits|].poll, status);
  }

  /** No wait of the loop passes the deadline, and before it no two in a row have length zero. */
  lemma LoopNeverOversleepsNorSpins(rounds: seq<Round>, deadline: nat, waits: seq<nat>, k: nat)
    requires Monotone(rounds) && Waited(rounds, deadline, waits) && k < |waits|
    ensures waits[k] <= SaturatingSub(deadline, rounds[k].wake)
    ensures k > 0 && waits[k - 1] == 0 && waits[k] == 0 ==> deadline <= rounds[k].wake
  {
    NeverOversleeps(After(Polls(rounds[..k + 1])), deadline, rounds[k].wake);
    if k > 0 && waits[k - 1] == 0 && rounds[k].wake < deadline {
      assert EndOf(rounds, deadline, k) == Unfinished;
      AfterOneMore(rounds, k);
      NoTwoZeroWaits(After(Polls(rounds[..k])), rounds[k].poll, deadline, rounds[k - 1].wake, rounds[k].wake);
    }
  }

  class ActivationWait {
    var sawProgress: bool
    var hasCurrentStatus: bool
    var pending: Option<PendingFailure>
    var lastStatus: Option<Status>

    ghost function View(): Wait reads this {
      Wait(sawProgress, hasCurrentStatus, pending, lastStatus)
    }

    constructor ()
      ensures View() == Fresh
    {
      sawProgress, hasCurrentStatus, pending, lastStatus := false, false, None, None;
    }

    method CheckTerminalFailure(o: Observation, status: Status) returns (failure: Option<Status>)
      requires o.status == Some(status) && hasCurrentStatus && !(o.ssidMatches && Activated(status))
      requires sawProgress <== ShowsProgress(o)
      modifies this`pending
      ensures var (n, verdict) := Observe(old(View()), o);
              pending == n.pending && failure == (if verdict.Failure? then Some(verdict.status) else None)
    {
      if !(sawProgress && (TerminalFailureAfterProgress(status) || RequestedActivationStopped(o))) {
        pending := None;
        return None;
      }
      if pending.None? {
        pending := Some(PendingFailure(o.now, status));
      }
      if pending.value.status.reason == 0 && status.reason != 0 {
        pending := Some(pending.value.(status := status));
      }
      if SaturatingSub(o.now, pending.value.since) < ACTIVATION_FAILURE_GRACE {
        return None;
      }
      failure := Some(pending.value.status);
    }

    method Poll(o: Observation) returns (verdict: Verdict)
      modifies this
      ensures (View(), verdict) == Observe(old(View()), o)
    {
      hasCurrentStatus := o.status.Some?;
      if o.status.None? {
        return if o.ssidMatches then Active else Continue;
      }
      var status := o.status.value;
      sawProgress := sawProgress || status.deviceState > DEVICE_STATE_DISCONNECTED || o.requested;
      if o.ssidMatches && Activated(status) {
        return Active;
      }
      var failure := CheckTerminalFailure(o, status);
      if failure.Some? {
        return Failure(failure.value);
      }
      lastStatus := Some(status);
      verdict := Continue;
    }

    method NextWakeUp(deadline: nat, now: nat) returns (wait: nat)
      ensures wait == NextWake(View(), deadline, now)
    {
      var graceWait := DURATION_MAX;
      if pending.Some? {
        var remaining := SaturatingSub(ACTIVATION_FAILURE_GRACE, SaturatingSub(now, pending.value.since));
        // A missing status waits for a signal instead of spinning on an expired timer.
        if hasCurrentStatus || remaining != 0 {
          graceWait := remaining;
        }
      }
      wait := WaitAt(deadline, now, graceWait);
    }

    /** The checks at the head of the loop and the poll. */
    method CheckRound(round: Round, deadline: nat) returns (outcome: Outcome)
      modifies this
      ensures outcome == Ends(old(View()), round, deadline)
      ensures outcome == Unfinished ==> (View(), Continue) == Observe(old(View()), round.poll)
    {
      if round.cancelled {
        return Cancelled;
      }
      if round.scopeStopped {
        return ScopeStopped;
      }
      if round.head >= deadline {
        return TimedOut(lastStatus);
      }
      if round.unreadable {
        return Unreadable;
      }
      var verdict := Poll(round.poll);
      match verdict
      case Active => outcome := Connected;
      case Failure(status) => outcome := if round.scopeBlames then ScopeStopped else Failed(status);
      case Continue => outcome := Unfinished;
    }

    /** The wait loop over the readings it would make; `waits[k]` is the timeout passed to the
        event wait of round `k`. It stops at the first round that ends the wait. */
    method WaitForActive(rounds: seq<Round>, deadline: nat) returns (outcome: Outcome, waits: seq<nat>)
      requires View() == Fresh
      modifies this
      ensures Waited(rounds, deadline, waits)
      ensures outcome == if |waits| == |rounds| then Unfinished else EndOf(rounds, deadline, |waits|)
      ensures |waits| < |rounds| ==> outcome != Unfinished
    {
      waits := [];
      for k := 0 to |rounds|
        invariant |waits| == k && View() == After(Polls(rounds[..k])) && Waited(rounds, deadline, waits)
      {
        outcome := CheckRound(rounds[k], deadline);
        if outcome != Unfinished {
          return;
        }
        AfterOneMore(rounds, k);
        var wait := NextWakeUp(deadline, rounds[k].wake);
        WaitedOneMore(rounds, deadline, waits, wait);
        waits := waits + [wait];
      }
      outcome := Unfinished;
    }
  }
}
