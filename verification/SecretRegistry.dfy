/**
 The SecretAgent registry: requests that NetworkManager has in flight, the prompts that
 wait for a frontend, and the current NetworkManager bus owner, all under one lock.
 Cancellation flags are shared atomics, named by allocation number; `raised` holds those
 that are set.
 */
module SecretRegistry {
  import opened Retention
  import opened Wrappers

  type RequestId = string
  type Flag = nat
  type Sender = nat
  type Activation = nat

  /** D-Bus object paths hold no newline. */
  type ObjectPath = s: string | '\n' !in s witness "/"

  function KeyFor(path: ObjectPath, setting: string): string {
    path + "\n" + setting
  }

  /** The part of a key before its first newline, if it has one. */
  function KeyPath(key: string): Option<string> {
    if key == "" then None
    else if key[0] == '\n' then Some("")
    else match KeyPath(key[1..])
      case None => None
      case Some(rest) => Some([key[0]] + rest)
  }

  lemma {:induction false} KeyPathOfKey(path: ObjectPath, setting: string)
    ensures KeyPath(KeyFor(path, setting)) == Some(path)
    decreases |path|
  {
    if path == "" {
    } else {
      assert KeyFor(path, setting)[1..] == KeyFor(path[1..], setting);
      assert path == [path[0]] + path[1..];
      KeyPathOfKey(path[1..], setting);
    }
  }

  /** `key` is computed once, when the request is built. */
  datatype Request = Request(id: RequestId, key: string, path: ObjectPath, setting: string, flag: Flag,
                             nmOwner: Option<string>, deadline: nat, activation: Option<Activation>,
                             policy: Policy)
  {
    ghost predicate Keyed() { key == KeyFor(path, setting) }
  }

  datatype Entry = Entry(request: Request, owners: set<string>, sender: Sender)

  datatype Registry = Registry(inflight: map<string, Flag>, requests: map<RequestId, Entry>,
                               nmOwner: Option<string>, raised: set<Flag>)

  /** The clock, and the activations that are no longer live; both only move forward. */
  datatype Environment = Environment(now: nat, dead: set<Activation>)

  predicate Live(r: Registry, e: Environment, q: Request) {
    && q.flag !in r.raised
    && e.now < q.deadline
    && (q.activation.Some? ==> q.activation.value !in e.dead)
  }

  /** The check before every wait, before the reply, and after the worker returned. */
  predicate DeliveryLive(r: Registry, e: Environment, q: Request) {
    Live(r, e, q) && r.nmOwner == q.nmOwner
  }

  function WithKey(r: Registry, key: string): set<RequestId> {
    set id | id in r.requests && r.requests[id].request.key == key
  }

  /** The one prompt of a key and its sender, or None when the key has none. */
  ghost predicate IsPromptOf(r: Registry, key: string, prompt: Option<(RequestId, Sender)>) {
    match prompt
    case None => WithKey(r, key) == {}
    case Some((id, sender)) => WithKey(r, key) == {id} && id in r.requests && r.requests[id].sender == sender
  }

  /** At most one prompt waits per connection and setting. */
  ghost predicate UniqueKeys(r: Registry) {
    forall i, j :: i in r.requests && j in r.requests && r.requests[i].request.key == r.requests[j].request.key
                   ==> i == j
  }

  ghost predicate AllKeyed(r: Registry) {
    forall id :: id in r.requests ==> r.requests[id].request.Keyed()
  }

  function FlagAt(r: Registry, key: string): set<Flag> {
    if key in r.inflight then {r.inflight[key]} else {}
  }

  /** Raise some flags and take some prompts out of the map. */
  function Retire(r: Registry, flags: set<Flag>, ids: set<RequestId>): Registry {
    r.(raised := r.raised + flags, requests := r.requests - ids)
  }

  function CancelKey(r: Registry, key: string): Registry {
    Retire(r, FlagAt(r, key), WithKey(r, key))
  }

  function PathFlags(r: Registry, path: ObjectPath): set<Flag> {
    set k | k in r.inflight && KeyPath(k) == Some(path) :: r.inflight[k]
  }

  function PathIds(r: Registry, path: ObjectPath): set<RequestId> {
    set id | id in r.requests && r.requests[id].request.path == path
  }

  function IdsWithKeys(r: Registry, keys: set<string>): set<RequestId> {
    set id | id in r.requests && r.requests[id].request.key in keys
  }

  function FlagsAt(r: Registry, keys: set<string>): set<Flag> {
    set k | k in r.inflight && k in keys :: r.inflight[k]
  }

  lemma OneMoreKey(r: Registry, keys: set<string>, key: string)
    ensures IdsWithKeys(r, keys + {key}) == IdsWithKeys(r, keys) + WithKey(r, key)
    ensures FlagsAt(r, keys + {key}) == FlagsAt(r, keys) + FlagAt(r, key)
  {
    assert key in r.inflight ==> r.inflight[key] in FlagsAt(r, keys + {key});
  }

  /** Cancelling one more key after a set of others that does not contain it. */
  lemma CancelOneMore(r: Registry, keys: set<string>, key: string)
    requires key !in keys
    ensures var s := Retire(r, FlagsAt(r, keys), IdsWithKeys(r, keys));
            && WithKey(s, key) == WithKey(r, key)
            && IdsWithKeys(r, keys + {key}) == IdsWithKeys(r, keys) + WithKey(r, key)
            && CancelKey(s, key) == Retire(r, FlagsAt(r, keys + {key}), IdsWithKeys(r, keys + {key}))
  {
    OneMoreKey(r, keys, key);
    var s := Retire(r, FlagsAt(r, keys), IdsWithKeys(r, keys));
    assert WithKey(s, key) == WithKey(r, key);
    assert CancelKey(s, key).requests == r.requests - IdsWithKeys(r, keys + {key});
  }

  /** The keys of a connection's prompts select exactly its prompts and only its flags. */
  lemma PathKeys(r: Registry, path: ObjectPath, keys: set<string>)
    requires AllKeyed(r)
    requires keys == set id | id in r.requests && r.requests[id].request.path == path :: r.requests[id].request.key
    ensures IdsWithKeys(r, keys) == PathIds(r, path) && FlagsAt(r, keys) <= PathFlags(r, path)
  {
    forall id | id in r.requests ensures id in IdsWithKeys(r, keys) <==> id in PathIds(r, path) {
      KeyPathOfKey(r.requests[id].request.path, r.requests[id].request.setting);
      if r.requests[id].request.key in keys {
        var j :| j in r.requests && r.requests[j].request.path == path
                 && r.requests[j].request.key == r.requests[id].request.key;
        KeyPathOfKey(path, r.requests[j].request.setting);
      }
    }
    forall k | k in r.inflight && k in keys ensures r.inflight[k] in PathFlags(r, path) {
      var j :| j in r.requests && r.requests[j].request.path == path && r.requests[j].request.key == k;
      KeyPathOfKey(path, r.requests[j].request.setting);
    }
  }

  function DeletePath(r: Registry, path: ObjectPath): Registry {
    Retire(r, PathFlags(r, path), PathIds(r, path))
  }

  function ChangeOwner(r: Registry, owner: Option<string>): Registry {
    Registry(map[], map[], owner, r.raised + r.inflight.Values)
  }

  /** A new lookup supersedes the one registered under its key. */
  function Enter(r: Registry, q: Request): Result<Registry, string> {
    if r.nmOwner != q.nmOwner then Err("NetworkManager changed before lookup") else
    var c := CancelKey(r, q.key);
    Ok(c.(inflight := c.inflight[q.key := q.flag]))
  }

  /** A guard removes the in-flight entry only while it is its own. */
  function Leave(r: Registry, key: string, flag: Flag): Registry {
    if key in r.inflight && r.inflight[key] == flag then r.(inflight := r.inflight - {key}) else r
  }

  function AddPrompt(r: Registry, e: Environment, q: Request, owners: set<string>, sender: Sender)
    : Result<Registry, string>
  {
    if r.nmOwner != q.nmOwner then Err("NetworkManager changed before secret registration")
    else if q.flag in r.raised then Err("secret request cancelled during lookup")
    else if !Live(r, e, q) then Err("Credential request no longer belongs to a live activation")
    else
      var c := Retire(r, {}, WithKey(r, q.key));
      Ok(c.(requests := c.requests[q.id := Entry(q, owners, sender)]))
  }

  predicate Listed(r: Registry, id: RequestId, owner: Option<string>) {
    id in r.requests && owner.Some? && owner.value in r.requests[id].owners
  }

  /** The policy's answer to a frontend's choice: only a listed owner of a live request gets one. */
  function ChoiceRejection(r: Registry, e: Environment, id: RequestId, owner: Option<string>, save: bool)
    : Option<string>
  {
    if Listed(r, id, owner) && Live(r, e, r.requests[id].request)
    then Rejection(r.requests[id].request.policy, save) else None
  }

  /** A listed owner takes the prompt out; its sender is handed over only while it is live. */
  function Take(r: Registry, e: Environment, id: RequestId, owner: Option<string>): (Registry, Option<Sender>) {
    if !Listed(r, id, owner) then (r, None) else
    (Retire(r, {}, {id}), if Live(r, e, r.requests[id].request) then Some(r.requests[id].sender) else None)
  }

  /** The registry in place. Each method is one locked region or a helper inside one. */
  class PendingRegistry {
    var inflight: map<string, Flag>
    var requests: map<RequestId, Entry>
    var nmOwner: Option<string>
    var raised: set<Flag>

    ghost function View(): Registry reads this {
      Registry(inflight, requests, nmOwner, raised)
    }

    ghost predicate Valid() reads this {
      UniqueKeys(View()) && AllKeyed(View())
    }

    constructor ()
      ensures Valid() && View() == Registry(map[], map[], None, {})
    {
      inflight, requests, nmOwner, raised := map[], map[], None, {};
    }

    /** Searches the map in its own order; with unique keys the order does not matter. */
    method RemoveByKey(key: string) returns (removed: Option<(RequestId, Sender)>)
      requires Valid()
      modifies this`requests
      ensures Valid() && View() == Retire(old(View()), {}, WithKey(old(View()), key))
      ensures IsPromptOf(old(View()), key, removed)
    {
      var rest := requests.Keys;
      while rest != {}
        invariant rest <= requests.Keys && requests == old(requests)
        invariant WithKey(old(View()), key) <= rest
        decreases rest
      {
        var id :| id in rest;
        if requests[id].request.key == key {
          removed := Some((id, requests[id].sender));
          requests := requests - {id};
          assert WithKey(old(View()), key) == {id};
          return;
        }
        rest := rest - {id};
      }
      removed := None;
      assert requests - {} == requests;
    }

    method CancelByKey(key: string) returns (removed: Option<(RequestId, Sender)>)
      requires Valid()
      modifies this`requests, this`raised
      ensures Valid() && View() == CancelKey(old(View()), key)
      ensures IsPromptOf(old(View()), key, removed)
    {
      if key in inflight {
        raised := raised + {inflight[key]};
      }
      removed := RemoveByKey(key);
    }

    /** Cancels a set of keys one after the other. */
    method CancelKeys(keys: set<string>) returns (removed: set<RequestId>)
      requires Valid()
      modifies this`requests, this`raised
      ensures Valid() && removed == IdsWithKeys(old(View()), keys)
      ensures View() == Retire(old(View()), FlagsAt(old(View()), keys), removed)
    {
      removed := {};
      var rest := keys;
      while rest != {}
        invariant Valid() && rest <= keys
        invariant removed == IdsWithKeys(old(View()), keys - rest)
        invariant View() == Retire(old(View()), FlagsAt(old(View()), keys - rest), removed)
        decreases rest
      {
        var key :| key in rest;
        CancelOneMore(old(View()), keys - rest, key);
        var one := CancelByKey(key);
        assert keys - (rest - {key}) == (keys - rest) + {key};
        if one.Some? {
          removed := removed + {one.value.0};
        }
        rest := rest - {key};
      }
      assert keys - rest == keys;
    }

    /** Raises every flag of the connection, then cancels its prompts key by key. */
    method CancelConnection(path: ObjectPath) returns (removed: set<RequestId>)
      requires Valid()
      modifies this`requests, this`raised
      ensures Valid() && View() == DeletePath(old(View()), path)
      ensures removed == PathIds(old(View()), path)
    {
      raised := raised + set k | k in inflight && KeyPath(k) == Some(path) :: inflight[k];
      var keys := set id | id in requests && requests[id].request.path == path :: requests[id].request.key;
      PathKeys(View(), path, keys);
      removed := CancelKeys(keys);
    }

    method ChangeNetworkManagerOwner(owner: Option<string>) returns (removed: map<RequestId, Sender>)
      modifies this
      ensures Valid() && View() == ChangeOwner(old(View()), owner)
      ensures removed == map id | id in old(requests) :: old(requests)[id].sender
    {
      nmOwner := owner;
      raised := raised + inflight.Values;
      inflight := map[];
      removed := map id | id in requests :: requests[id].sender;
      requests := map[];
    }

    method EnterInflight(q: Request) returns (entered: bool, removed: Option<(RequestId, Sender)>)
      requires Valid()
      modifies this`inflight, this`requests, this`raised
      ensures Valid()
      ensures entered == Enter(old(View()), q).Ok?
      ensures View() == if entered then Enter(old(View()), q).value else old(View())
      ensures if entered then IsPromptOf(old(View()), q.key, removed) else removed.None?
    {
      removed := None;
      if nmOwner != q.nmOwner {
        return false, None;
      }
      removed := CancelByKey(q.key);
      inflight := inflight[q.key := q.flag];
      entered := true;
    }

    method LeaveInflight(key: string, flag: Flag)
      requires Valid()
      modifies this`inflight
      ensures Valid() && View() == Leave(old(View()), key, flag)
    {
      if key in inflight && inflight[key] == flag {
        inflight := inflight - {key};
      }
    }

    method RegisterPending(e: Environment, q: Request, owners: set<string>, sender: Sender)
      returns (registered: bool, displaced: Option<(RequestId, Sender)>)
      requires Valid() && q.Keyed()
      modifies this`requests
      ensures Valid()
      ensures registered == AddPrompt(old(View()), e, q, owners, sender).Ok?
      ensures View() == if registered then AddPrompt(old(View()), e, q, owners, sender).value else old(View())
      ensures if registered then IsPromptOf(old(View()), q.key, displaced) else displaced.None?
    {
      displaced := None;
      if nmOwner != q.nmOwner || q.flag in raised
         || !(e.now < q.deadline && (q.activation.Some? ==> q.activation.value !in e.dead)) {
        return false, None;
      }
      displaced := RemoveByKey(q.key);
      requests := requests[q.id := Entry(q, owners, sender)];
      registered := true;
    }

    /** The first locked region of a frontend's call; it only looks. */
    method VetChoice(e: Environment, id: RequestId, owner: Option<string>, save: bool)
      returns (rejection: Option<string>)
      ensures rejection == ChoiceRejection(View(), e, id, owner, save)
      ensures rejection.Some? ==> id in requests && Live(View(), e, requests[id].request)
    {
      rejection := None;
      if id in requests && owner.Some? && owner.value in requests[id].owners {
        var q := requests[id].request;
        if q.flag !in raised && e.now < q.deadline && (q.activation.Some? ==> q.activation.value !in e.dead) {
          rejection := Rejection(q.policy, save);
        }
      }
    }

    method RemoveForOwner(e: Environment, id: RequestId, owner: Option<string>) returns (sender: Option<Sender>)
      requires Valid()
      modifies this`requests
      ensures Valid() && (View(), sender) == Take(old(View()), e, id, owner)
    {
      if !(id in requests && owner.Some? && owner.value in requests[id].owners) {
        return None;
      }
      var entry := requests[id];
      requests := requests - {id};
      assert raised + {} == raised;
      sender := if entry.request.flag !in raised && e.now < entry.request.deadline
                   && (entry.request.activation.Some? ==> entry.request.activation.value !in e.dead)
                then Some(entry.sender) else None;
    }
  }
}
