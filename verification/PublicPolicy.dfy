/**
 The public part of a connection, and merging the secrets NetworkManager hands out back into it.
 Both work field by field, so the order in which a map is walked never matters.
 */
module PublicPolicy {
  import opened Credentials
  import opened Variants
  import opened Wrappers

  // ---- Stripping secrets ----

  /** Fields left out of the public snapshot: known secrets and observation metadata. */
  function HiddenKeys(section: string): set<string> {
    KnownKeys(section) + (match section
                          case "vpn" => {"secrets"}
                          case "connection" => {"timestamp"}
                          case "802-11-wireless" => {"seen-bssids"}
                          case _ => {})
  }

  predicate Hidden(section: string, key: string) {
    key in HiddenKeys(section)
  }

  predicate IsPeers(section: string, key: string) {
    section == "wireguard" && key == "peers"
  }

  function StripPeers(peers: seq<Peer>): seq<Peer> {
    seq(|peers|, i requires 0 <= i < |peers| => peers[i] - {"preshared-key"})
  }

  /** A peers array that is no array of dictionaries rejects the whole snapshot. */
  predicate Decodable(section: string, key: string, value: Variant) {
    IsPeers(section, key) ==> DictsOf(value).Some?
  }

  function PublicField(section: string, key: string, value: Variant): Variant
    requires Decodable(section, key, value)
  {
    if IsPeers(section, key) then Dicts(StripPeers(DictsOf(value).value)) else value
  }

  predicate AllDecodable(settings: Settings) {
    Field(settings, "wireguard", "peers").Some? ==> DictsOf(Field(settings, "wireguard", "peers").value).Some?
  }

  predicate SectionDecodable(section: string, data: Section) {
    forall k :: k in data ==> Decodable(section, k, data[k])
  }

  function PublicSection(section: string, data: Section): Section
    requires SectionDecodable(section, data)
  {
    map k | k in data && !Hidden(section, k) :: PublicField(section, k, data[k])
  }

  function PublicSettings(settings: Settings): Option<Settings> {
    if AllDecodable(settings) then Some(map s | s in settings :: PublicSection(s, settings[s])) else None
  }

  /** Removes the preshared key of every peer, one after the other. */
  method ForgetPresharedKeys(peers: seq<Peer>) returns (public: seq<Peer>)
    ensures public == StripPeers(peers)
  {
    public := peers;
    for i := 0 to |peers|
      invariant |public| == |peers|
      invariant forall k :: 0 <= k < i ==> public[k] == peers[k] - {"preshared-key"}
      invariant forall k :: i <= k < |peers| ==> public[k] == peers[k]
    {
      public := public[i := public[i] - {"preshared-key"}];
    }
  }

  /** Removes the hidden keys of a section, in any order. */
  method ForgetHiddenKeys(section: string, data: Section) returns (public: Section)
    ensures public == data - HiddenKeys(section)
  {
    public := data;
    var keys := HiddenKeys(section);
    while keys != {}
      invariant keys <= HiddenKeys(section) && public == data - (HiddenKeys(section) - keys)
      decreases |keys|
    {
      var key :| key in keys;
      assert HiddenKeys(section) - (keys - {key}) == (HiddenKeys(section) - keys) + {key};
      public := public - {key};
      keys := keys - {key};
    }
    assert HiddenKeys(section) - {} == HiddenKeys(section);
  }

  /** Strips one section and cleans its peers. */
  method StripSection(section: string, data: Section) returns (r: Option<Section>)
    ensures r == if SectionDecodable(section, data) then Some(PublicSection(section, data)) else None
  {
    PeersNotHidden();
    var public := ForgetHiddenKeys(section, data);
    if section == "wireguard" && "peers" in public {
      var peers := DictsOf(public["peers"]);
      if peers.None? {
        assert !Decodable(section, "peers", data["peers"]);
        return None;
      }
      var cleaned := ForgetPresharedKeys(peers.value);
      public := public["peers" := Dicts(cleaned)];
    }
    StrippedIsPublic(section, data);
    r := Some(public);
  }

  /** Removing the hidden keys and cleaning the peers is the public section. */
  lemma StrippedIsPublic(section: string, data: Section)
    requires IsPeers(section, "peers") && "peers" in data ==> DictsOf(data["peers"]).Some?
    ensures SectionDecodable(section, data)
    ensures PublicSection(section, data)
            == if IsPeers(section, "peers") && "peers" in data
               then (data - HiddenKeys(section))["peers" := Dicts(StripPeers(DictsOf(data["peers"]).value))]
               else data - HiddenKeys(section)
  {
    PeersNotHidden();
  }

  /** The in-place walk, in whatever order the maps are iterated. */
  method ComputePublic(settings: Settings) returns (r: Option<Settings>)
    ensures r == PublicSettings(settings)
  {
    var public: Settings := map[];
    var todo := settings.Keys;
    while todo != {}
      invariant todo <= settings.Keys && public.Keys == settings.Keys - todo
      invariant forall s :: s in public ==>
                  SectionDecodable(s, settings[s]) && public[s] == PublicSection(s, settings[s])
      decreases |todo|
    {
      var s :| s in todo;
      var section := StripSection(s, settings[s]);
      if section.None? {
        UndecodableSection(settings, s);
        return None;
      }
      public := public[s := section.value];
      todo := todo - {s};
    }
    r := Some(public);
    assert AllDecodable(settings) by {
      if "wireguard" in settings && "peers" in settings["wireguard"] {
        assert SectionDecodable("wireguard", settings["wireguard"]);
        assert Decodable("wireguard", "peers", settings["wireguard"]["peers"]);
      }
    }
    assert public == PublicSettings(settings).value;
  }

  lemma UndecodableSection(settings: Settings, section: string)
    requires section in settings && !SectionDecodable(section, settings[section])
    ensures !AllDecodable(settings)
  {
  }

  /** One field of the public snapshot. */
  function PublicView(settings: Settings, section: string, key: string): Option<Variant>
    requires AllDecodable(settings)
  {
    if Hidden(section, key) then None
    else match Field(settings, section, key)
      case None => None
      case Some(value) => Some(PublicField(section, key, value))
  }

  lemma PublicSettingsFields(settings: Settings, s: string, k: string)
    requires AllDecodable(settings)
    ensures Field(PublicSettings(settings).value, s, k) == PublicView(settings, s, k)
  {
  }

  /** Two connections have the same public snapshot when they agree field by field. */
  lemma SamePublicViews(a: Settings, b: Settings)
    requires AllDecodable(a) && AllDecodable(b) && a.Keys == b.Keys
    requires forall s, k :: PublicView(a, s, k) == PublicView(b, s, k)
    ensures PublicSettings(a) == PublicSettings(b)
  {
    var p, q := PublicSettings(a).value, PublicSettings(b).value;
    forall s | s in a ensures p[s] == q[s] {
      forall k ensures Field(p, s, k) == Field(q, s, k) {
        PublicSettingsFields(a, s, k);
        PublicSettingsFields(b, s, k);
        assert PublicView(a, s, k) == PublicView(b, s, k);
      }
      SameFields(p, q, s);
    }
    assert p == q;
  }

  lemma SameFields(p: Settings, q: Settings, s: string)
    requires s in p && s in q && forall k :: Field(p, s, k) == Field(q, s, k)
    ensures p[s] == q[s]
  {
    forall k ensures k in p[s] <==> k in q[s] {
      assert Field(p, s, k) == Field(q, s, k);
    }
    forall k | k in p[s] ensures p[s][k] == q[s][k] {
      assert Field(p, s, k) == Field(q, s, k);
    }
  }

  // ---- The snapshot is free of secrets ----

  predicate HasSecrets(settings: Settings) {
    || (exists s, k :: s in settings && k in settings[s] && k in KnownKeys(s))
    || TextMapOf(Field(settings, "vpn", "secrets")) != map[]
    || (PeersOf(Field(settings, "wireguard", "peers")).Ok?
        && exists i :: 0 <= i < |PeersOf(Field(settings, "wireguard", "peers")).value|
                       && "preshared-key" in PeersOf(Field(settings, "wireguard", "peers")).value[i])
  }

  /** `values` lists this credential. */
  ghost predicate Lists(settings: Settings, section: string, key: string, value: string) {
    && value != ""
    && section in settings
    && (|| (key in KnownKeys(section) && FieldText(Field(settings, section, key)) == Some(value))
        || (section == "vpn" && key in TextMapOf(Field(settings, "vpn", "secrets"))
            && TextMapOf(Field(settings, "vpn", "secrets"))[key] == value)
        || (section == "wireguard" && ListsPeer(PeersOf(Field(settings, "wireguard", "peers")), key, value)))
  }

  ghost predicate ListsPeer(peers: Result<seq<Peer>, Error>, key: string, value: string) {
    && peers.Ok?
    && exists i, public ::
         0 <= i < |peers.value| && Identifies(peers.value[i], public)
         && key == PEER_PREFIX + public + PEER_SUFFIX
         && "preshared-key" in peers.value[i] && peers.value[i]["preshared-key"] == Text(value)
  }

  lemma PublicIsSecretFree(settings: Settings)
    requires AllDecodable(settings)
    ensures var public := PublicSettings(settings).value;
            !HasSecrets(public) && forall s, k, v :: !Lists(public, s, k, v)
  {
    var public := PublicSettings(settings).value;
    assert Field(public, "vpn", "secrets").None?;
    PublicSettingsFields(settings, "wireguard", "peers");
    assert forall s, k :: s in public && k in public[s] ==> !Hidden(s, k);
  }

  /** Every secret a connection lists, or could hand out, is gone from the snapshot. */
  lemma PublicReadsNoSecret(settings: Settings, s: string, k: string)
    requires AllDecodable(settings)
    requires s == "vpn" || (s == "wireguard" && PeerKey(k).Some?) || k in KnownKeys(s)
    ensures ReadText(PublicSettings(settings).value, s, k) == None
  {
    PublicSettingsFields(settings, s, k);
    PublicSettingsFields(settings, "vpn", "secrets");
    PublicSettingsFields(settings, "wireguard", "peers");
  }

  lemma StripIsIdempotent(peers: seq<Peer>)
    ensures StripPeers(StripPeers(peers)) == StripPeers(peers)
  {
    forall i | 0 <= i < |peers| ensures StripPeers(StripPeers(peers))[i] == StripPeers(peers)[i] {
      assert peers[i] - {"preshared-key"} - {"preshared-key"} == peers[i] - {"preshared-key"};
    }
  }

  lemma PublicIsIdempotent(settings: Settings)
    requires AllDecodable(settings)
    ensures PublicSettings(PublicSettings(settings).value) == PublicSettings(settings)
  {
    var public := PublicSettings(settings).value;
    PublicSettingsFields(settings, "wireguard", "peers");
    assert AllDecodable(public);
    forall s, k ensures Field(PublicSettings(public).value, s, k) == Field(public, s, k) {
      PublicSettingsFields(settings, s, k);
      PublicSettingsFields(public, s, k);
      if IsPeers(s, k) && Field(settings, s, k).Some? {
        StripIsIdempotent(DictsOf(Field(settings, s, k).value).value);
      }
    }
    forall s | s in settings ensures PublicSettings(public).value[s] == public[s] {
      SameFields(PublicSettings(public).value, public, s);
    }
    assert PublicSettings(public).value == public;
  }

  // ---- Merging secrets ----

  /** The peers array after taking over each incoming preshared key; all or nothing. */
  function MergePeers(peers: seq<Peer>, incoming: seq<Peer>): Result<seq<Peer>, Error>
    decreases incoming
  {
    if incoming == [] then Ok(peers)
    else if "preshared-key" !in incoming[0] then MergePeers(peers, incoming[1..])
    else if "public-key" !in incoming[0] || !incoming[0]["public-key"].Text? then Err(PeerIdentityMissing)
    else match UniquePeer(peers, incoming[0]["public-key"].text)
      case None => Err(PeerMissingOrAmbiguous)
      case Some(i) =>
        MergePeers(peers[i := peers[i]["preshared-key" := incoming[0]["preshared-key"]]], incoming[1..])
  }

  /** The loop over the incoming peers. */
  method MergePeerSecrets(peers: seq<Peer>, incoming: seq<Peer>) returns (r: Result<seq<Peer>, Error>)
    ensures r == MergePeers(peers, incoming)
  {
    var merged := peers;
    for n := 0 to |incoming|
      invariant MergePeers(peers, incoming) == MergePeers(merged, incoming[n..])
    {
      var peer := incoming[n];
      assert incoming[n..][1..] == incoming[n + 1..];
      if "preshared-key" in peer {
        if "public-key" !in peer || !peer["public-key"].Text? {
          return Err(PeerIdentityMissing);
        }
        var i := UniquePeer(merged, peer["public-key"].text);
        if i.None? {
          return Err(PeerMissingOrAmbiguous);
        }
        merged := merged[i.value := merged[i.value]["preshared-key" := peer["preshared-key"]]];
      }
    }
    r := Ok(merged);
  }

  /** The last preshared key offered for a public key. */
  function Offer(incoming: seq<Peer>, public: string): Option<Variant> {
    if incoming == [] then None
    else match Offer(incoming[1..], public)
      case Some(later) => Some(later)
      case None =>
        if "preshared-key" in incoming[0] && Identifies(incoming[0], public) then Some(incoming[0]["preshared-key"])
        else None
  }

  /** A target peer takes the offer made for its public key, and nothing else. */
  function Taken(peer: Peer, incoming: seq<Peer>): Peer {
    if "public-key" in peer && peer["public-key"].Text? && Offer(incoming, peer["public-key"].text).Some?
    then peer["preshared-key" := Offer(incoming, peer["public-key"].text).value]
    else peer
  }

  lemma {:induction false} EachPeerTakesItsOffer(peers: seq<Peer>, incoming: seq<Peer>, i: nat)
    requires MergePeers(peers, incoming).Ok? && i < |peers|
    ensures |MergePeers(peers, incoming).value| == |peers|
    ensures MergePeers(peers, incoming).value[i] == Taken(peers[i], incoming)
    decreases incoming
  {
    if incoming == [] {
    } else {
      if "preshared-key" !in incoming[0] {
        EachPeerTakesItsOffer(peers, incoming[1..], i);
      } else {
        var j := UniquePeer(peers, incoming[0]["public-key"].text).value;
        var updated := peers[j := peers[j]["preshared-key" := incoming[0]["preshared-key"]]];
        EachPeerTakesItsOffer(updated, incoming[1..], i);
      }
    }
  }

  /** Merging peers fails exactly when an offer has no identity or no unique peer. */
  lemma {:induction false} MergePeersOkIff(peers: seq<Peer>, incoming: seq<Peer>)
    ensures MergePeers(peers, incoming).Ok? <==> forall j :: 0 <= j < |incoming| ==> Placed(peers, incoming[j])
    decreases incoming
  {
    if incoming == [] {
    } else {
      assert incoming == [incoming[0]] + incoming[1..];
      if "preshared-key" !in incoming[0] {
        MergePeersOkIff(peers, incoming[1..]);
      } else if Placed(peers, incoming[0]) {
        var i := UniquePeer(peers, incoming[0]["public-key"].text).value;
        var updated := peers[i := peers[i]["preshared-key" := incoming[0]["preshared-key"]]];
        MergePeersOkIff(updated, incoming[1..]);
        forall j | 1 <= j < |incoming| ensures Placed(updated, incoming[j]) <==> Placed(peers, incoming[j]) {
          if "public-key" in incoming[j] && incoming[j]["public-key"].Text? {
            PeerUpdateFrame(peers, i, "preshared-key", incoming[0]["preshared-key"], incoming[j]["public-key"].text);
          }
        }
      }
    }
  }

  predicate Placed(peers: seq<Peer>, peer: Peer) {
    "preshared-key" in peer ==>
      "public-key" in peer && peer["public-key"].Text? && UniquePeer(peers, peer["public-key"].text).Some?
  }

  /** What a field becomes when `incoming` is offered for it. */
  function MergedField(section: string, key: string, current: Option<Variant>, incoming: Option<Variant>)
    : Result<Option<Variant>, Error>
  {
    match incoming
    case None => Ok(current)
    case Some(value) =>
      if section == "vpn" && key == "secrets" then
        if value.TextMap? then Ok(Some(TextMap(TextMapOf(current) + value.entries))) else Err(InvalidVpnSecrets)
      else if IsPeers(section, key) then
        match PeersOf(current)
        case Err(e) => Err(e)
        case Ok(peers) =>
          if DictsOf(value).None? then Err(InvalidPeers)
          else match MergePeers(peers, DictsOf(value).value)
            case Err(e) => Err(e)
            case Ok(merged) => Ok(Some(Dicts(merged)))
      else if key in KnownKeys(section) then Ok(incoming)
      else Ok(current)
  }

  lemma {:induction false} MergePeersKeepsPublic(peers: seq<Peer>, incoming: seq<Peer>)
    requires MergePeers(peers, incoming).Ok?
    ensures StripPeers(MergePeers(peers, incoming).value) == StripPeers(peers)
    decreases incoming
  {
    if incoming == [] {
    } else {
      if "preshared-key" !in incoming[0] {
        MergePeersKeepsPublic(peers, incoming[1..]);
      } else {
        var i := UniquePeer(peers, incoming[0]["public-key"].text).value;
        var updated := peers[i := peers[i]["preshared-key" := incoming[0]["preshared-key"]]];
        PresharedIsStripped(peers, i, incoming[0]["preshared-key"]);
        MergePeersKeepsPublic(updated, incoming[1..]);
      }
    }
  }

  predicate SamePublicPeers(a: Option<Variant>, b: Option<Variant>) {
    && a.Some? && DictsOf(a.value).Some? && b.Some? && DictsOf(b.value).Some?
    && StripPeers(DictsOf(a.value).value) == StripPeers(DictsOf(b.value).value)
  }

  /** A field that is changed by a merge is either hidden, or the peers array whose public part
      stays. The exception is the peers array the target did not have. */
  lemma MergedFieldIsPublicNeutral(section: string, key: string, current: Option<Variant>, incoming: Option<Variant>)
    requires MergedField(section, key, current, incoming).Ok?
    ensures var merged := MergedField(section, key, current, incoming).value;
            || merged == current
            || Hidden(section, key)
            || (IsPeers(section, key) && SamePublicPeers(merged, current))
            || (IsPeers(section, key) && current.None? && merged == Some(Dicts([])))
  {
    if incoming.Some? && IsPeers(section, key) {
      var peers := PeersOf(current).value;
      MergePeersKeepsPublic(peers, DictsOf(incoming.value).value);
    }
  }

  /** Each field of `now` is the target's or the merged one; no section comes or goes. */
  ghost predicate PartlyMerged(target: Settings, source: Settings, now: Settings) {
    && now.Keys == target.Keys
    && forall s, k :: Field(now, s, k) == Field(target, s, k) || FieldMerged(target, source, now, s, k)
  }

  ghost predicate FieldMerged(target: Settings, source: Settings, now: Settings, s: string, k: string) {
    MergedField(s, k, Field(target, s, k), Field(source, s, k)) == Ok(Field(now, s, k))
  }

  /** The field whose offered data cannot be merged. */
  ghost predicate Blocks(target: Settings, source: Settings, s: string, k: string) {
    s in target && MergedField(s, k, Field(target, s, k), Field(source, s, k)).Err?
  }

  /** Merges one section in any order, up to the first error. */
  method MergeSection(section: string, target: Section, source: Section)
    returns (now: Section, failed: bool)
    ensures !failed ==> forall k :: MergedField(section, k, Get(target, k), Get(source, k)) == Ok(Get(now, k))
    ensures failed ==> exists k :: k in source && MergedField(section, k, Get(target, k), Get(source, k)).Err?
    ensures forall k :: Get(now, k) == Get(target, k)
                        || MergedField(section, k, Get(target, k), Get(source, k)) == Ok(Get(now, k))
  {
    now, failed := target, false;
    var todo := source.Keys;
    while todo != {}
      invariant todo <= source.Keys
      invariant forall k :: k in todo ==> Get(now, k) == Get(target, k)
      invariant forall k :: k !in todo ==> MergedField(section, k, Get(target, k), Get(source, k)) == Ok(Get(now, k))
      decreases |todo|
    {
      var k :| k in todo;
      var merged := MergedField(section, k, Get(now, k), Some(source[k]));
      if merged.Err? {
        assert MergedField(section, k, Get(target, k), Get(source, k)).Err?;
        return now, true;
      }
      if merged.value.Some? {
        now := now[k := merged.value.value];
      }
      todo := todo - {k};
    }
  }

  function Get(section: Section, key: string): Option<Variant> {
    if key in section then Some(section[key]) else None
  }

  /** Merges every section the target has, in any order, up to the first error. On success each
      field is exactly the merged one, which no order of iteration can influence. */
  method MergeSecrets(target: Settings, source: Settings) returns (now: Settings, failed: bool)
    ensures PartlyMerged(target, source, now)
    ensures !failed ==> forall s, k :: s in target ==> FieldMerged(target, source, now, s, k)
    ensures failed <==> exists s, k :: Blocks(target, source, s, k)
  {
    now, failed := target, false;
    var todo := source.Keys;
    while todo != {}
      invariant todo <= source.Keys
      invariant PartlyMerged(target, source, now)
      invariant forall s :: s in target && s in todo ==> now[s] == target[s]
      invariant forall s, k :: s in target && s !in todo ==> FieldMerged(target, source, now, s, k)
      decreases |todo|
    {
      var s :| s in todo;
      if s in now {
        var merged, bad := MergeSection(s, now[s], source[s]);
        ghost var before := now;
        now := now[s := merged];
        SectionMerged(target, source, before, now, s, merged, !bad);
        if bad {
          var k :| k in source[s] && MergedField(s, k, Get(target[s], k), Get(source[s], k)).Err?;
          assert Blocks(target, source, s, k);
          return now, true;
        }
      }
      todo := todo - {s};
    }
    forall s, k ensures !Blocks(target, source, s, k) {
      assert s in target ==> FieldMerged(target, source, now, s, k);
    }
  }

  lemma SectionMerged(target: Settings, source: Settings, before: Settings, now: Settings, section: string,
                      merged: Section, complete: bool)
    requires PartlyMerged(target, source, before)
    requires section in target && section in source && before[section] == target[section]
    requires now == before[section := merged]
    requires forall k :: Get(merged, k) == Get(target[section], k)
                         || MergedField(section, k, Get(target[section], k), Get(source[section], k))
                            == Ok(Get(merged, k))
    requires complete ==>
               forall k :: MergedField(section, k, Get(target[section], k), Get(source[section], k))
                           == Ok(Get(merged, k))
    ensures PartlyMerged(target, source, now)
    ensures complete ==> forall k :: FieldMerged(target, source, now, section, k)
    ensures forall s, k :: s != section && FieldMerged(target, source, before, s, k) ==>
              FieldMerged(target, source, now, s, k)
  {
    forall s, k
      ensures Field(now, s, k) == Field(target, s, k) || FieldMerged(target, source, now, s, k)
    {
      if s == section {
        assert Get(merged, k) == Field(now, s, k) && Get(target[section], k) == Field(target, s, k)
               && Get(source[section], k) == Field(source, s, k);
      } else {
        assert Field(now, s, k) == Field(before, s, k);
      }
    }
    if complete {
      forall k ensures FieldMerged(target, source, now, section, k) {
        assert Get(merged, k) == Field(now, section, k) && Get(target[section], k) == Field(target, section, k)
               && Get(source[section], k) == Field(source, section, k);
      }
    }
  }

  /** The one case in which a merge adds something public: an empty peers array. */
  predicate AddsPeers(target: Settings, source: Settings) {
    && "wireguard" in target
    && Field(target, "wireguard", "peers").None?
    && Field(source, "wireguard", "peers").Some?
  }

  /** Complete or cut short by an error, a merge leaves the public snapshot as it was. */
  lemma MergeKeepsPublic(target: Settings, source: Settings, now: Settings)
    requires PartlyMerged(target, source, now) && !AddsPeers(target, source)
    ensures PublicSettings(now) == PublicSettings(target)
  {
    forall s, k
      ensures Field(now, s, k) == Field(target, s, k) || Hidden(s, k)
              || (IsPeers(s, k) && SamePublicPeers(Field(now, s, k), Field(target, s, k)))
    {
      if Field(now, s, k) != Field(target, s, k) {
        assert FieldMerged(target, source, now, s, k);
        MergedFieldIsPublicNeutral(s, k, Field(target, s, k), Field(source, s, k));
      }
    }
    PeersNotHidden();
    if AllDecodable(target) {
      SamePublicViews(now, target);
    }
  }

  lemma PeersNotHidden()
    ensures !Hidden("wireguard", "peers")
  {
  }

  /** A successful merge changes the public snapshot exactly when it adds a peers array. */
  lemma MergeChangesPublicIff(target: Settings, source: Settings, now: Settings)
    requires PartlyMerged(target, source, now)
    requires forall s, k :: s in target ==> FieldMerged(target, source, now, s, k)
    ensures PublicSettings(now) == PublicSettings(target) <==> !AddsPeers(target, source)
  {
    if AddsPeers(target, source) {
      assert FieldMerged(target, source, now, "wireguard", "peers");
      PeersNotHidden();
      PublicSettingsFields(target, "wireguard", "peers");
      PublicSettingsFields(now, "wireguard", "peers");
    } else {
      MergeKeepsPublic(target, source, now);
    }
  }

  /** Such a merge exists: a section without peers receives an empty array of them. */
  lemma MergeCanAddPeers()
    ensures var target: Settings := map["wireguard" := map[]];
            var source: Settings := map["wireguard" := map["peers" := Dicts([])]];
            && AddsPeers(target, source)
            && PartlyMerged(target, source, source)
            && (forall s, k :: s in target ==> FieldMerged(target, source, source, s, k))
            && PublicSettings(source) != PublicSettings(target)
  {
    MergeChangesPublicIff(map["wireguard" := map[]], map["wireguard" := map["peers" := Dicts([])]],
                          map["wireguard" := map["peers" := Dicts([])]]);
  }

  /** An unknown or duplicate peer leaves the peers array as it was. */
  lemma BlockedPeersStay(target: Settings, source: Settings, now: Settings)
    requires PartlyMerged(target, source, now) && Blocks(target, source, "wireguard", "peers")
    ensures Field(now, "wireguard", "peers") == Field(target, "wireguard", "peers")
  {
    assert !FieldMerged(target, source, now, "wireguard", "peers");
  }

  // ---- Writing a secret ----

  lemma PresharedIsStripped(peers: seq<Peer>, i: nat, value: Variant)
    requires i < |peers|
    ensures StripPeers(peers[i := peers[i]["preshared-key" := value]]) == StripPeers(peers)
  {
    assert peers[i]["preshared-key" := value] - {"preshared-key"} == peers[i] - {"preshared-key"};
  }

  lemma NeutralFieldKeepsPublic(settings: Settings, section: string, key: string, value: Variant)
    requires AllDecodable(settings) && section in settings
    requires || (Hidden(section, key) && !IsPeers(section, key))
             || (IsPeers(section, key) && SamePublicPeers(Some(value), Field(settings, section, key)))
    ensures PublicSettings(SetField(settings, section, key, value)) == PublicSettings(settings)
  {
    SetFieldFrame(settings, section, key, value);
    SamePublicViews(SetField(settings, section, key, value), settings);
  }

  /** Writing a secret into an existing section changes nothing public. */
  lemma SetTextKeepsPublic(settings: Settings, section: string, key: string, value: string)
    requires SetText(settings, section, key, value).Ok? && AllDecodable(settings)
    ensures PublicSettings(SetText(settings, section, key, value).value) == PublicSettings(settings)
            <==> section in settings
  {
    var after := SetText(settings, section, key, value).value;
    if section in settings {
      if section == "wireguard" && PeerKey(key).Some? {
        var peers := PeersOf(Field(settings, "wireguard", "peers")).value;
        var i := UniquePeer(peers, PeerKey(key).value).value;
        PresharedIsStripped(peers, i, Text(value));
        NeutralFieldKeepsPublic(settings, "wireguard", "peers", after["wireguard"]["peers"]);
      } else {
        var field := if section == "vpn" then "secrets" else key;
        NeutralFieldKeepsPublic(settings, section, field, after[section][field]);
      }
    } else {
      assert section in PublicSettings(after).value;
    }
  }
}
