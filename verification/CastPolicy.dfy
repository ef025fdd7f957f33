/**
 The Cast firewall service: it reads NetworkManager without a lock while NetworkManager keeps
 changing, and opens the firewall for the interfaces whose policy it saw switched on. The world
 is a function from time (in nanoseconds) to the state of one NetworkManager process.
 */
module CastPolicy {
  import opened Variants
  import opened Wrappers

  const SECOND: nat := 1_000_000_000
  const SNAPSHOT_TIMEOUT: nat := 4 * SECOND
  const APPLY_TIMEOUT: nat := 2 * SECOND
  const PERMISSION_LEASE: nat := 10 * SECOND

  const ACTIVATED: nat := 100

  type Path = string

  datatype Device = Device(iface: string, state: nat, active: Path, applied: Settings, version: nat)

  /** `profileOf` maps active connections to profiles, `saved` profiles to their settings. */
  datatype Nm = Nm(devices: map<Path, Device>, profileOf: map<Path, Path>, saved: map<Path, Settings>)

  type World = nat -> Nm

  // ---- The policy of one device ----

  predicate MdnsEnabled(settings: Settings) {
    && "connection" in settings
    && "mdns" in settings["connection"]
    && settings["connection"]["mdns"] in {I32(1), I32(2)}
  }

  predicate PolicyEnabled(saved: Settings, applied: Settings, state: nat,
                          version: nat, currentVersion: nat, sameActive: bool)
  {
    && state == ACTIVATED
    && version != 0
    && version == currentVersion
    && sameActive
    && MdnsEnabled(saved)
    && MdnsEnabled(applied)
  }

  /** When each property of a device is read. */
  datatype Reads = Reads(iface: nat, state: nat, active: nat, applied: nat, profile: nat, saved: nat,
                         appliedAgain: nat, activeAgain: nat, stateAgain: nat)
  {
    predicate Within(lo: nat, hi: nat) {
      lo <= iface <= state <= active <= applied <= profile <= saved <= appliedAgain
         <= activeAgain <= stateAgain <= hi
    }
  }

  /** The sequence of reads; None when an object has vanished. */
  function DeviceEnabled(h: World, d: Path, r: Reads): Option<bool> {
    if d !in h(r.state).devices then None
    else if h(r.state).devices[d].state != ACTIVATED then Some(false)
    else if d !in h(r.active).devices then None
    else
      var activePath := h(r.active).devices[d].active;
      if activePath == "/" then Some(false)
      else if d !in h(r.applied).devices || activePath !in h(r.profile).profileOf then None
      else
        var profile := h(r.profile).profileOf[activePath];
        if profile !in h(r.saved).saved || d !in h(r.appliedAgain).devices
           || d !in h(r.activeAgain).devices || d !in h(r.stateAgain).devices then None
        else
          var first := h(r.applied).devices[d];
          Some(PolicyEnabled(h(r.saved).saved[profile], first.applied, h(r.stateAgain).devices[d].state,
                             first.version, h(r.appliedAgain).devices[d].version,
                             activePath == h(r.activeAgain).devices[d].active))
  }

  /** At the instant `t`, the profile active on `d` and the settings applied to `d` are both on. */
  predicate PolicyOn(n: Nm, d: Path) {
    && d in n.devices
    && n.devices[d].active in n.profileOf
    && n.profileOf[n.devices[d].active] in n.saved
    && MdnsEnabled(n.saved[n.profileOf[n.devices[d].active]])
    && MdnsEnabled(n.devices[d].applied)
  }

  // ---- What NetworkManager promises ----

  function Active(n: Nm, d: Path): Path {
    if d in n.devices then n.devices[d].active else "/"
  }

  function Version(n: Nm, d: Path): nat {
    if d in n.devices then n.devices[d].version else 0
  }

  function Applied(n: Nm, d: Path): Settings {
    if d in n.devices then n.devices[d].applied else map[]
  }

  /** A change of the applied connection gets a version the device never had before. */
  ghost predicate FreshVersionAt(h: World, d: Path, t: nat) {
    var was, now := h(t), h(t + 1);
    (Version(now, d) != Version(was, d) || Applied(now, d) != Applied(was, d)) && Version(now, d) != 0
    ==> forall s: nat :: s <= t ==> Version(h(s), d) != Version(now, d)
  }

  /** A new active connection gets a path the device never had before. */
  ghost predicate FreshActiveAt(h: World, d: Path, t: nat) {
    var was, now := h(t), h(t + 1);
    Active(now, d) != Active(was, d) && Active(now, d) != "/"
    ==> forall s: nat :: s <= t ==> Active(h(s), d) != Active(now, d)
  }

  /** A device's active connection exists, and keeps its profile while it is active. */
  ghost predicate StableProfileAt(h: World, d: Path, t: nat) {
    var was, now := h(t), h(t + 1);
    && (Active(was, d) != "/" ==> Active(was, d) in was.profileOf)
    && (Active(now, d) == Active(was, d) != "/" && Active(now, d) in now.profileOf && Active(was, d) in was.profileOf
        ==> now.profileOf[Active(now, d)] == was.profileOf[Active(was, d)])
  }

  ghost predicate NmRules(h: World) {
    forall d: Path, t: nat :: FreshVersionAt(h, d, t) && FreshActiveAt(h, d, t) && StableProfileAt(h, d, t)
  }

  lemma {:induction false} EqualVersionsMeanNoChange(h: World, d: Path, i: nat, j: nat)
    requires NmRules(h) && i <= j && Version(h(i), d) == Version(h(j), d) != 0
    ensures forall k: nat :: i <= k <= j ==>
              Version(h(k), d) == Version(h(i), d) && Applied(h(k), d) == Applied(h(i), d)
    decreases j
  {
    if i == j {
    } else {
      assert FreshVersionAt(h, d, j - 1);
      EqualVersionsMeanNoChange(h, d, i, j - 1);
    }
  }

  lemma {:induction false} EqualActivesMeanNoChange(h: World, d: Path, i: nat, j: nat)
    requires NmRules(h) && i <= j && Active(h(i), d) == Active(h(j), d) != "/"
    ensures forall k: nat :: i <= k <= j ==> Active(h(k), d) == Active(h(i), d)
    decreases j
  {
    if i == j {
    } else {
      assert FreshActiveAt(h, d, j - 1);
      EqualActivesMeanNoChange(h, d, i, j - 1);
    }
  }

  lemma {:induction false} ProfileStaysWhileActive(h: World, d: Path, i: nat, j: nat)
    requires NmRules(h) && i <= j && Active(h(i), d) != "/"
    requires forall k: nat :: i <= k <= j ==> Active(h(k), d) == Active(h(i), d)
    ensures Active(h(i), d) in h(i).profileOf && Active(h(i), d) in h(j).profileOf
    ensures h(j).profileOf[Active(h(i), d)] == h(i).profileOf[Active(h(i), d)]
    decreases j
  {
    assert StableProfileAt(h, d, i) && StableProfileAt(h, d, j);
    if i < j {
      assert StableProfileAt(h, d, j - 1);
      ProfileStaysWhileActive(h, d, i, j - 1);
    }
  }

  /** The double read works like a sequence lock: `true` means that at the moment the saved
      settings were read, saved and applied policy of the profile then active were both on. */
  lemma EnabledMeansOnAtSavedRead(h: World, d: Path, r: Reads, lo: nat, hi: nat)
    requires NmRules(h) && r.Within(lo, hi)
    requires DeviceEnabled(h, d, r) == Some(true)
    ensures PolicyOn(h(r.saved), d)
  {
    EqualVersionsMeanNoChange(h, d, r.applied, r.appliedAgain);
    EqualActivesMeanNoChange(h, d, r.active, r.activeAgain);
    assert Active(h(r.saved), d) == Active(h(r.active), d) == Active(h(r.profile), d);
    assert Applied(h(r.saved), d) == Applied(h(r.applied), d);
    ProfileStaysWhileActive(h, d, r.profile, r.saved);
  }

  /** While nothing changes, the answer is exactly the policy of the activated device. */
  lemma QuietReadIsExact(h: World, d: Path, r: Reads, lo: nat, hi: nat, n: Nm)
    requires r.Within(lo, hi) && forall t: nat :: lo <= t <= hi ==> h(t) == n
    requires d in n.devices && (n.devices[d].active != "/" ==> n.devices[d].active in n.profileOf)
    requires forall p :: p in n.profileOf ==> n.profileOf[p] in n.saved
    ensures DeviceEnabled(h, d, r)
            == Some(n.devices[d].state == ACTIVATED && n.devices[d].active != "/" && n.devices[d].version != 0
                    && PolicyOn(n, d))
  {
    assert h(r.state) == h(r.active) == h(r.applied) == h(r.profile) == h(r.saved) == n;
    assert h(r.appliedAgain) == h(r.activeAgain) == h(r.stateAgain) == n;
  }

  // ---- The snapshot of all devices ----

  /** The interface answered for device `d`, or None for a device that is skipped or off. */
  function Contribution(h: World, wifi: set<string>, d: Path, r: Reads): Option<Option<string>> {
    if d !in h(r.iface).devices then None
    else if h(r.iface).devices[d].iface !in wifi then Some(None)
    else match DeviceEnabled(h, d, r)
      case None => None
      case Some(on) => Some(if on then Some(h(r.iface).devices[d].iface) else None)
  }

  /** What each device answers, in the order of the device list. */
  function Answers(h: World, wifi: set<string>, devices: seq<Path>, plan: seq<Reads>): seq<Option<Option<string>>>
    requires |plan| == |devices|
  {
    seq(|devices|, k requires 0 <= k < |devices| => Contribution(h, wifi, devices[k], plan[k]))
  }

  /** Some of the first `n` devices contributes `iface`. */
  ghost predicate Collected(answers: seq<Option<Option<string>>>, n: nat, iface: string)
    requires n <= |answers|
  {
    exists k :: 0 <= k < n && answers[k] == Some(Some(iface))
  }

  ghost predicate Failed(answers: seq<Option<Option<string>>>) {
    exists k :: 0 <= k < |answers| && answers[k].None?
  }

  /** The interfaces collected from the first `n` devices. */
  ghost function Gathered(answers: seq<Option<Option<string>>>, n: nat): set<string>
    requires n <= |answers|
  {
    if n == 0 then {}
    else match answers[n - 1]
      case Some(Some(iface)) => Gathered(answers, n - 1) + {iface}
      case _ => Gathered(answers, n - 1)
  }

  lemma {:induction false} GatheredIffCollected(answers: seq<Option<Option<string>>>, n: nat, iface: string)
    requires n <= |answers|
    ensures iface in Gathered(answers, n) <==> Collected(answers, n, iface)
  {
    if n == 0 {
    } else {
      GatheredIffCollected(answers, n - 1, iface);
      if Collected(answers, n - 1, iface) {
        var k :| 0 <= k < n - 1 && answers[k] == Some(Some(iface));
        assert Collected(answers, n, iface);
      }
    }
  }

  lemma CollectedIsWifi(h: World, wifi: set<string>, devices: seq<Path>, plan: seq<Reads>)
    requires |plan| == |devices|
    ensures forall i :: i in Gathered(Answers(h, wifi, devices, plan), |devices|)
                        <==> Collected(Answers(h, wifi, devices, plan), |devices|, i)
    ensures Gathered(Answers(h, wifi, devices, plan), |devices|) <= wifi
  {
    var answers := Answers(h, wifi, devices, plan);
    forall i ensures i in Gathered(answers, |devices|) <==> Collected(answers, |devices|, i) {
      GatheredIffCollected(answers, |devices|, i);
    }
    forall i | i in Gathered(answers, |devices|) ensures i in wifi {
      var k :| 0 <= k < |devices| && answers[k] == Some(Some(i));
      assert Contribution(h, wifi, devices[k], plan[k]) == Some(Some(i));
    }
  }

  /** The loop over the devices' answers; any failed read abandons the whole snapshot. */
  method Gather(answers: seq<Option<Option<string>>>) returns (r: Option<set<string>>)
    ensures r == if Failed(answers) then None else Some(Gathered(answers, |answers|))
  {
    var enabled := {};
    for n := 0 to |answers|
      invariant forall k :: 0 <= k < n ==> answers[k].Some?
      invariant enabled == Gathered(answers, n)
    {
      if answers[n].None? {
        return None;
      }
      if answers[n].value.Some? {
        enabled := enabled + {answers[n].value.value};
      }
    }
    r := Some(enabled);
  }

  /** The enabled interfaces, all of them Wi-Fi. */
  method EnabledInterfaces(h: World, wifi: set<string>, devices: seq<Path>, plan: seq<Reads>)
    returns (r: Option<set<string>>)
    requires |plan| == |devices|
    ensures r.None? <==> Failed(Answers(h, wifi, devices, plan))
    ensures r.Some? ==> forall i :: i in r.value <==> Collected(Answers(h, wifi, devices, plan), |devices|, i)
    ensures r.Some? ==> r.value <= wifi
  {
    r := Gather(Answers(h, wifi, devices, plan));
    CollectedIsWifi(h, wifi, devices, plan);
  }

  // ---- The firewall ----

  /** The installed table. `enabled` entries expire a lease after the commit. */
  datatype Table = Table(wifi: set<string>, enabled: set<string>, committed: nat)

  /** Cast traffic on a listed Wi-Fi interface passes exactly while its permission lives. */
  predicate Permitted(table: Table, iface: string, t: nat) {
    iface in table.enabled && t < table.committed + PERMISSION_LEASE
  }

  /** `iface` belonged to a device whose policy was on at a read within `lo..hi`. */
  ghost predicate ReadOn(h: World, iface: string, lo: int, hi: nat) {
    exists d: Path, named: nat, t: nat ::
      lo <= named <= t <= hi && d in h(named).devices && h(named).devices[d].iface == iface && PolicyOn(h(t), d)
  }

  /** Every permission rests on a read at most a snapshot and an apply before the commit. */
  ghost predicate Justified(h: World, table: Table) {
    && table.enabled <= table.wifi
    && forall i :: i in table.enabled ==>
         ReadOn(h, i, table.committed - SNAPSHOT_TIMEOUT - APPLY_TIMEOUT, table.committed)
  }

  lemma ContributionWasOn(h: World, wifi: set<string>, d: Path, r: Reads, lo: nat, hi: nat, iface: string)
    requires NmRules(h) && r.Within(lo, hi) && Contribution(h, wifi, d, r) == Some(Some(iface))
    ensures ReadOn(h, iface, lo, hi)
  {
    EnabledMeansOnAtSavedRead(h, d, r, lo, hi);
    assert lo <= r.iface <= r.saved <= hi && PolicyOn(h(r.saved), d);
  }

  /** The sixteen-second bound: a permission in force at `t` had such a read less than
      4 s + 2 s + 10 s earlier. */
  lemma PermissionIsAtMostSixteenSecondsOld(h: World, table: Table, iface: string, t: nat)
    requires Justified(h, table) && table.committed <= t && Permitted(table, iface, t)
    ensures ReadOn(h, iface, t - 16 * SECOND, t)
  {
    var lo := table.committed - SNAPSHOT_TIMEOUT - APPLY_TIMEOUT;
    assert ReadOn(h, iface, lo, table.committed);
    var d: Path, named: nat, s: nat :|
      lo <= named <= s <= table.committed && d in h(named).devices && h(named).devices[d].iface == iface
      && PolicyOn(h(s), d);
    assert t - 16 * SECOND <= named <= s <= t;
  }

  /** The service. Reconciliations hold the transaction lock, so they do not overlap. */
  class Policy {
    ghost const h: World
    var now: nat
    var table: Table
    ghost var installed: seq<Table>      // every table ever committed, oldest first

    ghost predicate Valid() reads this {
      && NmRules(h)
      && installed != [] && installed[|installed| - 1] == table
      && (forall k :: 0 <= k < |installed| ==> Justified(h, installed[k]) && installed[k].committed <= now)
      && (forall j, k :: 0 <= j < k < |installed| ==> installed[j].committed <= installed[k].committed)
    }

    /** Installs the default-off table before anything else. */
    constructor (ghost world: World, wifi: set<string>, t: nat)
      requires NmRules(world)
      ensures Valid() && h == world && now == t && table == Table(wifi, {}, t) && installed == [table]
    {
      h, now, table := world, t, Table(wifi, {}, t);
      installed := [Table(wifi, {}, t)];
    }

    /** Replaces the whole table at `commit`, or leaves the old one when nft fails. */
    method Apply(wifi: set<string>, enabled: set<string>, commit: Option<nat>, end: nat)
      requires Valid() && now <= end && (commit.Some? ==> now <= commit.value <= end)
      requires commit.Some? ==> Justified(h, Table(wifi, enabled, commit.value))
      modifies this
      ensures Valid() && now == end
      ensures commit.Some? ==> table == Table(wifi, enabled, commit.value) && installed == old(installed) + [table]
      ensures commit.None? ==> table == old(table) && installed == old(installed)
    {
      if commit.Some? {
        table := Table(wifi, enabled, commit.value);
        installed := installed + [table];
      }
      now := end;
    }

    /** One reconciliation. `timedOut` covers the snapshot timeout and every bus failure,
        `commit` the moment of the atomic nft transaction, if it happens. A snapshot that fails
        withdraws every permission; a failed apply leaves the old leases to run out. */
    method Reconcile(world: World, wifi: set<string>, devices: seq<Path>, plan: seq<Reads>,
                     start: nat, timedOut: bool, snapshotEnd: nat, commit: Option<nat>, end: nat)
      returns (enabled: set<string>)
      requires Valid() && world == h && |plan| == |devices|
      requires now <= start <= snapshotEnd <= start + SNAPSHOT_TIMEOUT
      requires forall k :: 0 <= k < |plan| ==> plan[k].Within(start, snapshotEnd)
      requires snapshotEnd <= end <= snapshotEnd + APPLY_TIMEOUT
      requires commit.Some? ==> snapshotEnd <= commit.value <= end
      modifies this
      ensures Valid() && now == end
      ensures enabled <= wifi
      ensures timedOut || Failed(Answers(h, wifi, devices, plan)) ==> enabled == {}
      ensures !timedOut && !Failed(Answers(h, wifi, devices, plan))
              ==> forall i :: i in enabled <==> Collected(Answers(h, wifi, devices, plan), |devices|, i)
      ensures commit.Some? ==> table == Table(wifi, enabled, commit.value) && installed == old(installed) + [table]
      ensures commit.None? ==> table == old(table) && installed == old(installed)
    {
      enabled := {};
      if !timedOut {
        var snapshot := EnabledInterfaces(world, wifi, devices, plan);
        if snapshot.Some? {
          enabled := snapshot.value;
        }
      }
      forall i | i in enabled
        ensures ReadOn(h, i, start, snapshotEnd)
      {
        assert Collected(Answers(h, wifi, devices, plan), |devices|, i);
        var k :| 0 <= k < |devices| && Contribution(h, wifi, devices[k], plan[k]) == Some(Some(i));
        ContributionWasOn(h, wifi, devices[k], plan[k], start, snapshotEnd, i);
      }
      if commit.Some? {
        SnapshotJustifies(h, wifi, enabled, start, snapshotEnd, commit.value);
      }
      Apply(wifi, enabled, commit, end);
    }

    /** Over the whole life of the service, whichever table is in force at `t`. */
    lemma EveryPermissionIsRecent(k: nat, iface: string, t: nat)
      requires Valid() && k < |installed| && installed[k].committed <= t && Permitted(installed[k], iface, t)
      ensures ReadOn(h, iface, t - 16 * SECOND, t)
    {
      PermissionIsAtMostSixteenSecondsOld(h, installed[k], iface, t);
    }
  }

  lemma SnapshotJustifies(h: World, wifi: set<string>, enabled: set<string>, start: nat, snapshotEnd: nat, commit: nat)
    requires enabled <= wifi && start <= snapshotEnd <= start + SNAPSHOT_TIMEOUT
    requires snapshotEnd <= commit <= snapshotEnd + APPLY_TIMEOUT
    requires forall i :: i in enabled ==> ReadOn(h, i, start, snapshotEnd)
    ensures Justified(h, Table(wifi, enabled, commit))
  {
    forall i | i in enabled
      ensures ReadOn(h, i, commit - SNAPSHOT_TIMEOUT - APPLY_TIMEOUT, commit)
    {
      assert ReadOn(h, i, start, snapshotEnd);
    }
  }
}
