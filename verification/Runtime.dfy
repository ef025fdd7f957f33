/**
 The operation registry of the daemon: a task map and an owner-scoped store of recent
 terminal results, both behind locks. Every locked region is one function from the
 registry's value to its next value; class `DaemonRuntime` performs them in place.

 The cancellation flags are shared atomics. An atomic is named by its allocation number,
 and `raised` is the set of atomics that hold `true`; nothing ever lowers one.
 */
module Runtime {
  import opened Wrappers

  type RequestId = string
  type Owner = Option<string>
  type Flag = nat

  const U64_MAX: nat := 0xFFFF_FFFF_FFFF_FFFF

  datatype TaskKind = Connect | Scan | Band | Statistics | Hotspot | Vpn {
    function Stream(): Stream {
      match this
      case Connect => WifiConnect
      case Scan => WifiScan
      case Band => WifiBand
      case Statistics => NetworkStatistics
      case Hotspot => HotspotStream
      case Vpn => VpnStream
    }
  }

  /** The streams that operations publish on; the others carry no terminal results. */
  datatype Stream = WifiConnect | WifiScan | WifiBand | NetworkStatistics | HotspotStream | VpnStream

  datatype EventName = Started | Progress | Succeeded | Failed | Cancelled

  datatype PrimaryConnection = PrimaryConnection(path: string, uuid: string)

  /** The part of a connect result that the captive-portal policy consumes. */
  datatype ConnectResult = ConnectResult(suggestOpenPortal: bool, primary: Option<PrimaryConnection>)

  datatype Event = Event(name: EventName, phase: string, message: string, result: Option<ConnectResult>,
                         revision: Option<nat>)

  datatype TaskHandle = TaskHandle(
    nm: string, kind: TaskKind, owner: Owner, ssid: Option<seq<bv8>>, flag: Flag,
    terminal: bool, timedOut: bool, revision: nat, progress: Option<Event>)

  datatype TerminalResult = TerminalResult(owner: Owner, stream: Stream, event: Event, revision: nat)

  datatype Registry = Registry(tasks: map<RequestId, TaskHandle>,
                               results: map<RequestId, TerminalResult>,
                               raised: set<Flag>)

  /** What `request_status` reports to one caller about one request. */
  datatype Status =
    | Running(stream: Stream, progress: Option<Event>, revision: nat, cancelRequested: bool, timedOut: bool)
    | Finished(stream: Stream, event: Event, revision: nat)
    | Unknown

  function SaturatingInc(n: nat): nat {
    if n < U64_MAX then n + 1 else U64_MAX
  }

  /** The owner check of the bounded result store; a foreign owner sees nothing. */
  function GetOwned(results: map<RequestId, TerminalResult>, id: RequestId, owner: Owner): Option<TerminalResult> {
    if id in results && results[id].owner == owner then Some(results[id]) else None
  }

  function NewTask(nm: string, kind: TaskKind, owner: Owner, ssid: Option<seq<bv8>>, flag: Flag): TaskHandle {
    TaskHandle(nm, kind, owner, ssid, flag, false, false, 1, None)
  }

  /** A success that lost the race against cancellation, rewritten before it is recorded. */
  function AsCancelled(event: Event, timedOut: bool): Event {
    event.(name := Cancelled, phase := "cancelled", result := None,
           message := if timedOut then "Connection attempt timed out and was cancelled" else "Connection cancelled")
  }

  /** Writes a terminal; a task it closes gets the next revision. */
  function Record(s: Registry, id: RequestId, owner: Owner, stream: Stream, event: Event, closes: bool)
    : (Registry, Event)
    requires closes ==> id in s.tasks
  {
    var revision := if closes then SaturatingInc(s.tasks[id].revision) else 1;
    var tasks := if closes then s.tasks[id := s.tasks[id].(terminal := true, revision := revision)] else s.tasks;
    var event1 := event.(revision := Some(revision));
    (s.(tasks := tasks, results := s.results[id := TerminalResult(owner, stream, event1, revision)]), event1)
  }

  function StoreTerminal(s: Registry, id: RequestId, owner: Owner, stream: Stream, event: Event, ownerChanged: bool)
    : (Registry, Option<Event>)
  {
    var kept := GetOwned(s.results, id, owner);
    if kept.Some? then (s, Some(kept.value.event)) else
    var owned := id in s.tasks && s.tasks[id].owner == owner;
    if owned && s.tasks[id].terminal then (s, None) else
    var lost := owned && s.tasks[id].kind == Connect && event.name == Succeeded
                && (ownerChanged || s.tasks[id].flag in s.raised);
    var event1 := if lost then AsCancelled(event, s.tasks[id].timedOut) else event;
    var (recorded, event2) := Record(s, id, owner, stream, event1, owned && s.tasks[id].kind.Stream() == stream);
    (recorded, Some(event2))
  }

  function StoreProgress(s: Registry, id: RequestId, owner: Owner, event: Event): (Registry, Option<Event>) {
    if !(id in s.tasks && s.tasks[id].owner == owner && s.tasks[id].kind == Connect) then (s, None) else
    var kept := GetOwned(s.results, id, owner);
    if kept.Some? then (s, Some(kept.value.event)) else
    if s.tasks[id].terminal then (s, None) else
    var revision := SaturatingInc(s.tasks[id].revision);
    var event1 := event.(revision := Some(revision));
    (s.(tasks := s.tasks[id := s.tasks[id].(revision := revision, progress := Some(event1))]), Some(event1))
  }

  function RequestStatus(s: Registry, id: RequestId, owner: Owner): Status {
    var kept := GetOwned(s.results, id, owner);
    if kept.Some? then Finished(kept.value.stream, kept.value.event, kept.value.revision) else
    if id in s.tasks && s.tasks[id].owner == owner && !s.tasks[id].terminal then
      var t := s.tasks[id];
      Running(t.kind.Stream(), t.progress, t.revision, t.flag in s.raised, t.timedOut)
    else Unknown
  }

  /** A task that a cancelling region may still claim: live and without a terminal. */
  predicate Claimable(s: Registry, id: RequestId) {
    id in s.tasks && !s.tasks[id].terminal && GetOwned(s.results, id, s.tasks[id].owner).None?
  }

  /** Claimed connects with a target are the ones whose activation the runtime aborts. */
  predicate AbortsOnCancel(t: TaskHandle) {
    t.kind == Connect && t.ssid.Some?
  }

  function Flags(tasks: map<RequestId, TaskHandle>, ids: set<RequestId>): set<Flag>
    requires ids <= tasks.Keys
  {
    set id | id in ids :: tasks[id].flag
  }

  function Raise(s: Registry, ids: set<RequestId>): Registry
    requires ids <= s.tasks.Keys
  {
    s.(raised := s.raised + Flags(s.tasks, ids))
  }

  /** The claimed id, if any. */
  function CancelClaims(s: Registry, id: RequestId, owner: Owner): set<RequestId> {
    if Claimable(s, id) && s.tasks[id].owner == owner then {id} else {}
  }

  function OwnerClaims(s: Registry, owner: string): set<RequestId> {
    set id | id in s.tasks && Claimable(s, id) && s.tasks[id].owner == Some(owner)
  }

  function ExpireClaims(s: Registry, id: RequestId): set<RequestId> {
    if Claimable(s, id) && s.tasks[id].kind == Connect then {id} else {}
  }

  function Expire(s: Registry, id: RequestId): Registry {
    if ExpireClaims(s, id) == {} then s else
    Raise(s.(tasks := s.tasks[id := s.tasks[id].(timedOut := true)]), {id})
  }

  function NmOwnerVictims(s: Registry, owner: Owner): set<RequestId> {
    set id | id in s.tasks && Some(s.tasks[id].nm) != owner
  }

  function SsidVictims(s: Registry, ssid: seq<bv8>): set<RequestId> {
    set id | id in s.tasks && s.tasks[id].kind == Connect && s.tasks[id].ssid == Some(ssid)
  }

  /** Dropping a registration removes the task only while it is still its own. */
  function DropRegistration(s: Registry, id: RequestId, flag: Flag): Registry {
    if id in s.tasks && s.tasks[id].flag == flag then s.(tasks := s.tasks - {id}) else s
  }

  /** The registry in place; `View` is its value and every method is one locked region. */
  class DaemonRuntime {
    var tasks: map<RequestId, TaskHandle>
    var results: map<RequestId, TerminalResult>
    var raised: set<Flag>
    var nextFlag: Flag

    ghost function View(): Registry reads this {
      Registry(tasks, results, raised)
    }

    /** Every flag in use was allocated here, so the next one is new. */
    ghost predicate Valid() reads this {
      && (forall id :: id in tasks ==> tasks[id].flag < nextFlag)
      && (forall f :: f in raised ==> f < nextFlag)
    }

    constructor ()
      ensures Valid() && View() == Registry(map[], map[], {}) && nextFlag == 0
    {
      tasks, results, raised, nextFlag := map[], map[], {}, 0;
    }

    method Register(id: RequestId, kind: TaskKind, owner: Owner, ssid: Option<seq<bv8>>, nm: string)
      returns (flag: Flag)
      requires Valid()
      modifies this
      ensures Valid() && flag == old(nextFlag) && nextFlag == flag + 1
      ensures flag !in raised && forall other :: other in old(tasks) ==> old(tasks)[other].flag != flag
      ensures View() == old(View()).(tasks := old(tasks)[id := NewTask(nm, kind, owner, ssid, flag)])
    {
      flag := nextFlag;
      nextFlag := nextFlag + 1;
      tasks := tasks[id := TaskHandle(nm, kind, owner, ssid, flag, false, false, 1, None)];
    }

    method DropTask(id: RequestId, flag: Flag)
      requires Valid()
      modifies this`tasks
      ensures Valid() && View() == DropRegistration(old(View()), id, flag)
    {
      if id in tasks && tasks[id].flag == flag {
        tasks := tasks - {id};
      }
    }

    /** Writes the terminal: the open task closes with the next revision if it is the stream's. */
    method RecordTerminal(id: RequestId, owner: Owner, stream: Stream, event: Event, closes: bool)
      returns (stored: Event)
      requires Valid() && (closes ==> id in tasks)
      modifies this`tasks, this`results
      ensures Valid() && (View(), stored) == Record(old(View()), id, owner, stream, event, closes)
    {
      var revision := 1;
      if closes {
        revision := SaturatingInc(tasks[id].revision);
        tasks := tasks[id := tasks[id].(terminal := true, revision := revision)];
      }
      stored := event.(revision := Some(revision));
      results := results[id := TerminalResult(owner, stream, stored, revision)];
    }

    method StoreTerminalResult(id: RequestId, owner: Owner, stream: Stream, event: Event, ownerChanged: bool)
      returns (stored: Option<Event>)
      requires Valid()
      modifies this`tasks, this`results
      ensures Valid() && (View(), stored) == StoreTerminal(old(View()), id, owner, stream, event, ownerChanged)
    {
      if id in results && results[id].owner == owner {
        return Some(results[id].event);
      }
      var owned := id in tasks && tasks[id].owner == owner;
      if owned && tasks[id].terminal {
        return None;
      }
      var event1 := event;
      if owned && tasks[id].kind == Connect && (ownerChanged || tasks[id].flag in raised) && event.name == Succeeded {
        event1 := AsCancelled(event, tasks[id].timedOut);
      }
      var recorded := RecordTerminal(id, owner, stream, event1, owned && tasks[id].kind.Stream() == stream);
      stored := Some(recorded);
    }

    method StoreConnectProgress(id: RequestId, owner: Owner, event: Event) returns (stored: Option<Event>)
      requires Valid()
      modifies this`tasks
      ensures Valid() && (View(), stored) == StoreProgress(old(View()), id, owner, event)
    {
      stored := None;
      if id in tasks && tasks[id].owner == owner && tasks[id].kind == Connect {
        if id in results && results[id].owner == owner {
          return Some(results[id].event);
        }
        if tasks[id].terminal {
          return None;
        }
        var revision := SaturatingInc(tasks[id].revision);
        var event1 := event.(revision := Some(revision));
        tasks := tasks[id := tasks[id].(revision := revision, progress := Some(event1))];
        stored := Some(event1);
      }
    }

    method CancelTask(id: RequestId, owner: Owner) returns (claimed: Option<TaskHandle>)
      requires Valid()
      modifies this`raised
      ensures Valid() && View() == Raise(old(View()), CancelClaims(old(View()), id, owner))
      ensures claimed.Some? <==> id in CancelClaims(old(View()), id, owner)
      ensures claimed.Some? ==> claimed.value == old(tasks)[id]
    {
      claimed := None;
      if id in tasks && tasks[id].owner == owner && !tasks[id].terminal {
        if !(id in results && results[id].owner == tasks[id].owner) {
          raised := raised + {tasks[id].flag};
          claimed := Some(tasks[id]);
        }
      }
    }

    method ExpireConnect(id: RequestId) returns (claimed: Option<TaskHandle>)
      requires Valid()
      modifies this`tasks, this`raised
      ensures Valid() && View() == Expire(old(View()), id)
      ensures claimed.Some? <==> id in ExpireClaims(old(View()), id)
      ensures claimed.Some? ==> claimed.value == tasks[id]
    {
      claimed := None;
      if !(id in tasks && tasks[id].kind == Connect && !tasks[id].terminal) {
        return;
      }
      if id in results && results[id].owner == tasks[id].owner {
        return;
      }
      tasks := tasks[id := tasks[id].(timedOut := true)];
      raised := raised + {tasks[id].flag};
      claimed := Some(tasks[id]);
    }

    /** The shared loop of the bulk cancellers: store `true` into each selected task's flag. */
    method StoreFlags(selected: set<RequestId>)
      requires Valid() && selected <= tasks.Keys
      modifies this`raised
      ensures Valid() && View() == Raise(old(View()), selected)
    {
      var rest := selected;
      while rest != {}
        invariant Valid() && rest <= selected
        invariant raised == old(raised) + Flags(tasks, selected - rest)
        decreases rest
      {
        var id :| id in rest;
        assert Flags(tasks, selected - (rest - {id})) == Flags(tasks, selected - rest) + {tasks[id].flag};
        raised := raised + {tasks[id].flag};
        rest := rest - {id};
      }
      assert selected - rest == selected;
    }

    method CancelTasksForOwner(owner: string) returns (claimed: set<RequestId>)
      requires Valid()
      modifies this`raised
      ensures Valid() && View() == Raise(old(View()), OwnerClaims(old(View()), owner))
      ensures claimed == OwnerClaims(old(View()), owner)
    {
      claimed := set id | id in tasks && tasks[id].owner == Some(owner) && !tasks[id].terminal
                          && !(id in results && results[id].owner == Some(owner));
      StoreFlags(claimed);
    }

    method NetworkManagerOwnerChanged(owner: Owner)
      requires Valid()
      modifies this`raised
      ensures Valid() && View() == Raise(old(View()), NmOwnerVictims(old(View()), owner))
    {
      StoreFlags(set id | id in tasks && Some(tasks[id].nm) != owner);
    }

    method CancelConnectsForSsid(ssid: seq<bv8>) returns (ids: set<RequestId>)
      requires Valid()
      modifies this`raised
      ensures Valid() && View() == Raise(old(View()), SsidVictims(old(View()), ssid))
      ensures ids == SsidVictims(old(View()), ssid)
    {
      ids := set id | id in tasks && tasks[id].kind == Connect && tasks[id].ssid == Some(ssid);
      StoreFlags(ids);
    }

    method Shutdown()
      requires Valid()
      modifies this`raised
      ensures Valid() && View() == Raise(old(View()), old(tasks).Keys)
    {
      StoreFlags(tasks.Keys);
    }
  }
}
