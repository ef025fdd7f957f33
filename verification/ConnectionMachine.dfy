/**
 The connection state machine: reuse an active link, activate a saved profile, create one,
 rescan once, verify. It owns the rollback of a profile it created until verification
 succeeds. NetworkManager's answers, the cancellation flag and the progress callback are
 read from an oracle, one reading per visited state.
 */
module ConnectionMachine {
  import opened Wrappers

  type Path = string

  datatype Kind = Saved | Created

  datatype State = AlreadyActive | SavedProfile | CreateProfile | Rescan | Verify(kind: Kind)

  datatype Error = Cancelled | InvalidTarget | ProgressFailed | NmFailed | UnsupportedAuth | NotFound

  /** What one visit would read. `active` and `visible` are `None` when the query fails. */
  datatype Reading = Reading(
    cancelled: bool, progressFails: bool,
    active: Option<bool>,
    saved: Result<Option<Path>, Error>,
    created: Result<Option<(Path, Path)>, Error>,
    visible: Option<bool>,
    scanned: Result<(), Error>,
    verified: Result<(), Error>)

  datatype Target = Target(valid: bool, hidden: bool, hasCredentials: bool)

  datatype Transition = Next(state: State) | Connected | Stopped(error: Error)

  /** The legal moves; a rescan leads back to the saved profiles and is taken once. */
  predicate Edge(a: State, b: State) {
    match a
    case AlreadyActive => b == SavedProfile
    case SavedProfile => b == Verify(Saved) || b == CreateProfile
    case CreateProfile => b == Verify(Created) || b == Rescan
    case Rescan => b == SavedProfile
    case Verify(_) => false
  }

  /** How many states can still follow, the current one included. */
  function Rank(state: State, rescanned: bool): nat {
    match state
    case AlreadyActive => 7
    case SavedProfile => if rescanned then 3 else 6
    case CreateProfile => if rescanned then 2 else 5
    case Rescan => 4
    case Verify(_) => 1
  }

  ghost predicate IsPath(visited: seq<State>) {
    && visited != [] && visited[0] == AlreadyActive
    && (forall k :: 0 < k < |visited| ==> Edge(visited[k - 1], visited[k]))
    && (forall i, j :: 0 <= i < j < |visited| && visited[i] == Rescan ==> visited[j] != Rescan)
  }

  lemma PathExtends(visited: seq<State>, state: State)
    requires IsPath(visited) && Edge(visited[|visited| - 1], state) && (state == Rescan ==> Rescan !in visited)
    ensures IsPath(visited + [state])
  {
  }

  predicate Proceeds(r: Reading) {
    !r.cancelled && !r.progressFails
  }

  class Machine {
    const target: Target
    var rescanned: bool
    var createdConnection: Option<Path>
    var activationPath: Option<Path>
    var scopeHeld: bool
    // The calls made to NetworkManager, in order.
    var scans: nat
    var createdProfiles: seq<Path>
    var deletedProfiles: seq<Path>

    constructor (target: Target)
      ensures this.target == target && Clean()
    {
      this.target := target;
      rescanned, createdConnection, activationPath, scopeHeld := false, None, None, false;
      scans, createdProfiles, deletedProfiles := 0, [], [];
    }

    ghost predicate Clean() reads this {
      && !rescanned && createdConnection.None? && activationPath.None? && !scopeHeld
      && scans == 0 && createdProfiles == [] && deletedProfiles == []
    }

    /** Rollback ownership: the machine holds exactly the profile it created, from its
        creation until verification, and nothing has been deleted yet. */
    ghost predicate Owns(state: State) reads this {
      && createdProfiles == (if createdConnection.Some? then [createdConnection.value] else [])
      && (createdConnection.Some? <==> state == Verify(Created))
      && (state.Verify? <==> scopeHeld) && (state.Verify? ==> activationPath.Some?)
      && deletedProfiles == []
      && scans == (if rescanned then 1 else 0)
      && (state == Rescan ==> !rescanned) && (state == AlreadyActive ==> !rescanned)
    }

    method CheckAlreadyActive(r: Reading) returns (t: Transition)
      ensures t == if r.active == Some(true) && !target.hasCredentials then Connected else Next(SavedProfile)
    {
      if r.active == Some(true) && !target.hasCredentials {
        return Connected;
      }
      t := Next(SavedProfile);
    }

    method ActivateSavedProfile(r: Reading) returns (t: Transition)
      requires Owns(SavedProfile)
      modifies this`activationPath, this`scopeHeld
      ensures t.Next? ==> Owns(t.state) && t.state in {Verify(Saved), CreateProfile}
      ensures t.Stopped? ==> Owns(SavedProfile)
      ensures !t.Connected? && (t.Stopped? <==> r.saved.Err?)
      ensures t == Next(Verify(Saved)) <==> r.saved.Ok? && r.saved.value.Some?
    {
      match r.saved
      case Ok(Some(path)) =>
        activationPath, scopeHeld := Some(path), true;
        t := Next(Verify(Saved));
      case Ok(None) => t := Next(CreateProfile);
      case Err(error) => t := Stopped(error);
    }

    /** A hidden target is never visible, without asking. */
    function Visibility(r: Reading): Option<bool> {
      if target.hidden then Some(false) else r.visible
    }

    method CreateNewProfile(r: Reading) returns (t: Transition)
      requires Owns(CreateProfile)
      modifies this`activationPath, this`scopeHeld, this`createdConnection, this`createdProfiles
      ensures t.Next? ==> Owns(t.state) && t.state in {Verify(Created), Rescan}
      ensures t.Stopped? ==> Owns(CreateProfile)
      ensures !t.Connected?
      ensures r.created.Ok? && r.created.value.Some? ==>
                t == Next(Verify(Created)) && createdProfiles == [r.created.value.value.0]
      ensures r.created.Err? ==> t == Stopped(r.created.error)
      ensures r.created == Ok(None) ==>
                t == if !target.hidden && r.visible == Some(true) then Stopped(UnsupportedAuth)
                     else if target.hidden || rescanned then Stopped(NotFound) else Next(Rescan)
    {
      match r.created
      case Ok(Some((profile, active))) =>
        createdConnection, createdProfiles := Some(profile), createdProfiles + [profile];
        activationPath, scopeHeld := Some(active), true;
        t := Next(Verify(Created));
      case Ok(None) =>
        var visible := Visibility(r);
        if !rescanned && !target.hidden && visible != Some(true) {
          t := Next(Rescan);
        } else {
          t := Stopped(if !target.hidden && visible == Some(true) then UnsupportedAuth else NotFound);
        }
      case Err(error) => t := Stopped(error);
    }

    method RescanOnce(r: Reading) returns (t: Transition)
      requires Owns(Rescan)
      modifies this`rescanned, this`scans
      ensures rescanned && Owns(SavedProfile)
      ensures t == if r.scanned.Ok? then Next(SavedProfile) else Stopped(r.scanned.error)
    {
      rescanned := true;
      scans := scans + 1;
      t := if r.scanned.Ok? then Next(SavedProfile) else Stopped(r.scanned.error);
    }

    method VerifyActivation(kind: Kind, r: Reading) returns (t: Transition)
      requires Owns(Verify(kind))
      modifies this`scopeHeld, this`createdConnection
      ensures t == if r.verified.Ok? then Connected else Stopped(r.verified.error)
      ensures r.verified.Ok? ==> createdConnection.None? && !scopeHeld
      ensures r.verified.Err? ==> Owns(Verify(kind))
    {
      if r.verified.Err? {
        return Stopped(r.verified.error);
      }
      scopeHeld := false;
      if kind == Created {
        createdConnection := None;
      }
      t := Connected;
    }

    method Step(state: State, r: Reading) returns (t: Transition)
      requires Owns(state)
      modifies this
      ensures t.Next? ==> Owns(t.state) && Edge(state, t.state)
                          && Rank(t.state, rescanned) < Rank(state, old(rescanned))
      ensures rescanned == (old(rescanned) || state == Rescan) && scans == (if rescanned then 1 else 0)
      ensures deletedProfiles == []
      ensures t.Connected? <==> (state.Verify? && r.verified.Ok?)
                                || (state == AlreadyActive && r.active == Some(true) && !target.hasCredentials)
      ensures t.Connected? ==> createdConnection.None? && !scopeHeld
      ensures !t.Next? ==> createdProfiles == old(createdProfiles)
      ensures t.Stopped? ==> createdConnection == old(createdConnection)
    {
      match state
      case AlreadyActive => t := CheckAlreadyActive(r);
      case SavedProfile => t := ActivateSavedProfile(r);
      case CreateProfile => t := CreateNewProfile(r);
      case Rescan => t := RescanOnce(r);
      case Verify(kind) => t := VerifyActivation(kind, r);
    }

    /** Runs until connected or stopped; `verified` says whether a verification succeeded.
        Every visited state but the last passed its cancellation check and its progress
        report; the created profile is still owned exactly when it was not verified. */
    method RunStates(oracle: nat -> Reading) returns (error: Option<Error>, visited: seq<State>, verified: bool)
      requires Clean()
      modifies this
      ensures IsPath(visited) && |visited| <= 7
      ensures forall k :: 0 <= k < |visited| - 1 ==> Proceeds(oracle(k))
      ensures oracle(|visited| - 1).cancelled ==> error == Some(Cancelled)
      ensures !oracle(|visited| - 1).cancelled && oracle(|visited| - 1).progressFails ==> error == Some(ProgressFailed)
      ensures scans == if Rescan in visited[..|visited| - 1]
                          || (visited[|visited| - 1] == Rescan && Proceeds(oracle(|visited| - 1))) then 1 else 0
      ensures error.None? ==> !scopeHeld
      ensures verified <==> visited[|visited| - 1].Verify? && Proceeds(oracle(|visited| - 1))
                            && oracle(|visited| - 1).verified.Ok?
      ensures error.None? <==> verified || (visited == [AlreadyActive] && Proceeds(oracle(0))
                                            && oracle(0).active == Some(true) && !target.hasCredentials)
      ensures |createdProfiles| <= 1 && deletedProfiles == []
      ensures createdProfiles != [] <==> visited[|visited| - 1] == Verify(Created)
      ensures createdConnection == if !verified && createdProfiles != [] then Some(createdProfiles[0]) else None
    {
      var state := AlreadyActive;
      visited := [];
      verified := false;
      while true
        invariant Owns(state) && !verified
        invariant IsPath(visited + [state])
        invariant |visited| + Rank(state, rescanned) <= 7
        invariant rescanned <==> Rescan in visited
        invariant forall k :: 0 <= k < |visited| ==> Proceeds(oracle(k))
        decreases Rank(state, rescanned)
      {
        visited := visited + [state];
        var r := oracle(|visited| - 1);
        if r.cancelled {
          return Some(Cancelled), visited, false;
        }
        if r.progressFails {
          return Some(ProgressFailed), visited, false;
        }
        var t := Step(state, r);
        match t {
          case Connected => return None, visited, state.Verify?;
          case Stopped(e) => return Some(e), visited, false;
          case Next(next) =>
            PathExtends(visited, next);
            state := next;
        }
      }
    }

    method CleanupCreatedConnection()
      modifies this`createdConnection, this`deletedProfiles
      ensures createdConnection.None?
      ensures deletedProfiles
              == old(deletedProfiles) + (if old(createdConnection).Some? then [old(createdConnection).value] else [])
    {
      if createdConnection.None? {
        return;
      }
      deletedProfiles := deletedProfiles + [createdConnection.value];
      createdConnection := None;
    }

    /** A whole run. Whatever strikes before verification succeeds (a cancellation, a failing
        progress report, a NetworkManager error), exactly the profile this run created is
        deleted; after verification nothing is, even if a late cancellation turns the result
        into an error. Saved profiles are never deleted: only created ones are. */
    method Run(oracle: nat -> Reading, cancelledAtStart: bool, cancelledAfterwards: bool)
      returns (error: Option<Error>, visited: seq<State>, verified: bool)
      requires Clean()
      modifies this
      ensures |visited| <= 7 && scans <= 1 && |createdProfiles| <= 1
      ensures visited == [] <==> cancelledAtStart || !target.valid
      ensures visited == [] ==> createdProfiles == [] && !verified
                                && error == Some(if cancelledAtStart then Cancelled else InvalidTarget)
      ensures visited != [] ==> IsPath(visited)
      ensures deletedProfiles == if verified then [] else createdProfiles
      ensures verified ==> error == if cancelledAfterwards then Some(Cancelled) else None
      ensures error.None? && !verified ==> visited == [AlreadyActive] && createdProfiles == []
      ensures createdConnection.None? && (error.Some? && !verified ==> !scopeHeld)
    {
      visited, verified := [], false;
      if cancelledAtStart {
        return Some(Cancelled), visited, verified;
      }
      if !target.valid {
        return Some(InvalidTarget), visited, verified;
      }
      error, visited, verified := RunStates(oracle);
      if error.Some? {
        scopeHeld := false;
        CleanupCreatedConnection();
      } else if cancelledAfterwards {
        error := Some(Cancelled);
      }
    }
  }
}
