/**
 The schema of NetworkManager secrets: where each secret of a connection lives, how it is read,
 written, merged and stripped. Plain secrets are fields of their section, VPN secrets entries
 of a string map, and WireGuard preshared keys fields of the peer with a given public key.
 */
module Credentials {
  import opened Utf8
  import opened Variants
  import opened Wrappers

  const AGENT_OWNED: nat := 1
  const NOT_SAVED: nat := 2

  datatype Error =
    | SettingMissing | UnsupportedSchema | InvalidPeers | PeerMissingOrAmbiguous | PeerIdentityMissing
    | InvalidVpnSecrets | VpnPolicyMissing | VpnPolicyUnspecified | InvalidFlags | UnknownFlags | Temporary

  function KnownKeys(section: string): set<string> {
    match section
    case "802-11-wireless-security" => {"psk", "wep-key0", "wep-key1", "wep-key2", "wep-key3", "leap-password"}
    case "802-1x" => {"password", "password-raw", "private-key-password", "phase2-private-key-password",
                      "ca-cert-password", "client-cert-password", "phase2-ca-cert-password",
                      "phase2-client-cert-password", "pin"}
    case "gsm" => {"password", "pin"}
    case "cdma" => {"password"}
    case "ppp" => {"password"}
    case "adsl" => {"password"}
    case "macsec" => {"mka-cak"}
    case "wifi-p2p" => {"wps-pin"}
    case "wireguard" => {"private-key"}
    case _ => {}
  }

  function Field(settings: Settings, section: string, key: string): Option<Variant> {
    if section in settings && key in settings[section] then Some(settings[section][key]) else None
  }

  // ---- WireGuard peers ----

  const PEER_PREFIX := "peers."
  const PEER_SUFFIX := ".preshared-key"

  /** The public key inside `peers.<public>.preshared-key`. */
  function PeerKey(key: string): (r: Option<string>)
    ensures r.Some? ==> key == PEER_PREFIX + r.value + PEER_SUFFIX
  {
    if PEER_PREFIX <= key && |key| >= |PEER_PREFIX| + |PEER_SUFFIX| && key[|key| - |PEER_SUFFIX|..] == PEER_SUFFIX then
      var public := key[|PEER_PREFIX|..|key| - |PEER_SUFFIX|];
      assert key == key[..|PEER_PREFIX|] + public + key[|key| - |PEER_SUFFIX|..];
      Some(public)
    else
      None
  }

  type Peer = Section

  predicate Identifies(peer: Peer, public: string) {
    "public-key" in peer && peer["public-key"] == Text(public)
  }

  /** The first peer with the public key, from position `from`. */
  function FindPeer(peers: seq<Peer>, public: string, from: nat): (r: Option<nat>)
    requires from <= |peers|
    ensures r.Some? ==> from <= r.value < |peers| && Identifies(peers[r.value], public)
    ensures r.Some? ==> forall i :: from <= i < r.value ==> !Identifies(peers[i], public)
    ensures r.None? ==> forall i :: from <= i < |peers| ==> !Identifies(peers[i], public)
    decreases |peers| - from
  {
    if from == |peers| then None
    else if Identifies(peers[from], public) then Some(from)
    else FindPeer(peers, public, from + 1)
  }

  /** The only peer with the public key: missing and duplicate identities are both refused. */
  function UniquePeer(peers: seq<Peer>, public: string): (r: Option<nat>)
    ensures r.Some? ==> r.value < |peers| && Identifies(peers[r.value], public)
    ensures r.Some? ==> forall j :: 0 <= j < |peers| && j != r.value ==> !Identifies(peers[j], public)
  {
    match FindPeer(peers, public, 0)
    case None => None
    case Some(i) => if FindPeer(peers, public, i + 1).Some? then None else Some(i)
  }

  lemma UniquePeerIffExactlyOne(peers: seq<Peer>, public: string)
    ensures UniquePeer(peers, public).Some?
            <==> |set i | 0 <= i < |peers| && Identifies(peers[i], public)| == 1
  {
    var all := set i | 0 <= i < |peers| && Identifies(peers[i], public);
    match FindPeer(peers, public, 0)
    case None => assert all == {};
    case Some(i) =>
      match FindPeer(peers, public, i + 1)
      case None => assert all == {i};
      case Some(j) =>
        assert {i, j} <= all;
        assert |all| == |all - {i, j}| + |{i, j}|;
  }

  function PeersOf(field: Option<Variant>): Result<seq<Peer>, Error> {
    if field.None? then Ok([])
    else if DictsOf(field.value).Some? then Ok(DictsOf(field.value).value)
    else Err(InvalidPeers)
  }

  /** The new peers array with one field of one peer set. */
  function SetPeerValue(field: Option<Variant>, public: string, key: string, value: Variant): Result<Variant, Error> {
    match PeersOf(field)
    case Err(e) => Err(e)
    case Ok(peers) =>
      match UniquePeer(peers, public)
      case None => Err(PeerMissingOrAmbiguous)
      case Some(i) => Ok(Dicts(peers[i := peers[i][key := value]]))
  }

  // ---- Reading and writing one secret ----

  /** The string map a variant holds; anything else reads as empty. */
  function TextMapOf(field: Option<Variant>): map<string, string> {
    match field
    case Some(TextMap(entries)) => entries
    case _ => map[]
  }

  /** Text, or a byte array holding UTF-8. An empty array of any kind reads as empty text. */
  function ValueText(value: Variant): Option<string> {
    match value
    case Text(text) => Some(text)
    case Bytes(bytes) => Decode(bytes)
    case Dicts(dicts) => if dicts == [] then Some("") else None
    case _ => None
  }

  function FieldText(field: Option<Variant>): Option<string> {
    match field
    case None => None
    case Some(value) => ValueText(value)
  }

  function PresharedOf(peers: seq<Peer>, public: string): Option<string> {
    match FindPeer(peers, public, 0)
    case None => None
    case Some(i) =>
      if "preshared-key" in peers[i] && peers[i]["preshared-key"].Text? then Some(peers[i]["preshared-key"].text)
      else None
  }

  function PeerText(field: Option<Variant>, public: string): Option<string> {
    match PeersOf(field)
    case Err(_) => None
    case Ok(peers) => PresharedOf(peers, public)
  }

  function ReadText(settings: Settings, section: string, key: string): Option<string> {
    if section == "vpn" then
      var secrets := TextMapOf(Field(settings, "vpn", "secrets"));
      if key in secrets then Some(secrets[key]) else None
    else if section == "wireguard" && PeerKey(key).Some? then
      PeerText(Field(settings, "wireguard", "peers"), PeerKey(key).value)
    else
      FieldText(Field(settings, section, key))
  }

  function SectionOf(settings: Settings, section: string): Section {
    if section in settings then settings[section] else map[]
  }

  function SetField(settings: Settings, section: string, key: string, value: Variant): Settings {
    settings[section := SectionOf(settings, section)[key := value]]
  }

  function SetText(settings: Settings, section: string, key: string, value: string): Result<Settings, Error> {
    if section == "vpn" then
      var secrets := TextMapOf(Field(settings, "vpn", "secrets"));
      Ok(SetField(settings, "vpn", "secrets", TextMap(secrets[key := value])))
    else if section == "wireguard" && PeerKey(key).Some? then
      if "wireguard" !in settings then Err(SettingMissing)
      else match SetPeerValue(Field(settings, "wireguard", "peers"), PeerKey(key).value, "preshared-key", Text(value))
        case Err(e) => Err(e)
        case Ok(peers) => Ok(SetField(settings, "wireguard", "peers", peers))
    else if key !in KnownKeys(section) then
      Err(UnsupportedSchema)
    else
      Ok(SetField(settings, section, key, if key == "password-raw" then Bytes(Encode(value)) else Text(value)))
  }

  lemma SetFieldFrame(settings: Settings, section: string, key: string, value: Variant)
    ensures Field(SetField(settings, section, key, value), section, key) == Some(value)
    ensures forall s, k :: s != section || k != key ==>
              Field(SetField(settings, section, key, value), s, k) == Field(settings, s, k)
  {
  }

  lemma {:induction false} SameIdentitiesSameFind(p: seq<Peer>, q: seq<Peer>, public: string, from: nat)
    requires |p| == |q| && from <= |p|
    requires forall j :: 0 <= j < |p| ==> (Identifies(p[j], public) <==> Identifies(q[j], public))
    ensures FindPeer(p, public, from) == FindPeer(q, public, from)
    decreases |p| - from
  {
    if from < |p| && !Identifies(p[from], public) {
      SameIdentitiesSameFind(p, q, public, from + 1);
    }
  }

  /** Replacing a field of one peer hides no peer and moves none. */
  lemma PeerUpdateFrame(peers: seq<Peer>, i: nat, key: string, value: Variant, public: string)
    requires i < |peers| && key != "public-key"
    ensures var q := peers[i := peers[i][key := value]];
            FindPeer(q, public, 0) == FindPeer(peers, public, 0) && UniquePeer(q, public) == UniquePeer(peers, public)
  {
    var q := peers[i := peers[i][key := value]];
    SameIdentitiesSameFind(peers, q, public, 0);
    if FindPeer(peers, public, 0).Some? {
      SameIdentitiesSameFind(peers, q, public, FindPeer(peers, public, 0).value + 1);
    }
  }

  /** A written preshared key is the one found under its public key, and no other moves. */
  lemma SetPreshared(peers: seq<Peer>, public: string, i: nat, value: string, other: string)
    requires UniquePeer(peers, public) == Some(i)
    ensures var q := peers[i := peers[i]["preshared-key" := Text(value)]];
            PresharedOf(q, other) == if other == public then Some(value) else PresharedOf(peers, other)
  {
    PeerUpdateFrame(peers, i, "preshared-key", Text(value), other);
  }

  /** Read-back: a written secret is read back unchanged, whatever its kind. */
  lemma SetTextReadsBack(settings: Settings, section: string, key: string, value: string)
    requires SetText(settings, section, key, value).Ok?
    ensures ReadText(SetText(settings, section, key, value).value, section, key) == Some(value)
  {
    if section == "vpn" {
    } else if section == "wireguard" && PeerKey(key).Some? {
      var peers, public := PeersOf(Field(settings, "wireguard", "peers")).value, PeerKey(key).value;
      SetPreshared(peers, public, UniquePeer(peers, public).value, value, public);
    } else {
      DecodeEncode(value);
    }
  }

  /** Another peers array changes only what is read through it: the preshared keys. */
  lemma PeersFrame(settings: Settings, peers: seq<Peer>, s: string, k: string)
    requires s != "wireguard" || PeerKey(k).None?
    requires peers != [] && PeersOf(Field(settings, "wireguard", "peers")).Ok?
             && PeersOf(Field(settings, "wireguard", "peers")).value != []
    ensures ReadText(SetField(settings, "wireguard", "peers", Dicts(peers)), s, k) == ReadText(settings, s, k)
  {
    SetFieldFrame(settings, "wireguard", "peers", Dicts(peers));
  }

  lemma SetPeerTextFrame(settings: Settings, key: string, value: string, s: string, k: string)
    requires PeerKey(key).Some? && SetText(settings, "wireguard", key, value).Ok? && (s != "wireguard" || k != key)
    ensures ReadText(SetText(settings, "wireguard", key, value).value, s, k) == ReadText(settings, s, k)
  {
    var peers, public := PeersOf(Field(settings, "wireguard", "peers")).value, PeerKey(key).value;
    var i := UniquePeer(peers, public).value;
    var updated := peers[i := peers[i]["preshared-key" := Text(value)]];
    assert SetText(settings, "wireguard", key, value).value == SetField(settings, "wireguard", "peers", Dicts(updated));
    if s == "wireguard" && PeerKey(k).Some? {
      SetPreshared(peers, public, i, value, PeerKey(k).value);
    } else {
      PeersFrame(settings, updated, s, k);
    }
  }

  /** Frame: no other secret, of any section, peer or plugin, changes. */
  lemma SetTextFrame(settings: Settings, section: string, key: string, value: string, s: string, k: string)
    requires SetText(settings, section, key, value).Ok? && (s != section || k != key)
    ensures ReadText(SetText(settings, section, key, value).value, s, k) == ReadText(settings, s, k)
  {
    var after := SetText(settings, section, key, value).value;
    if section == "vpn" {
      SetFieldFrame(settings, "vpn", "secrets", after["vpn"]["secrets"]);
    } else if section == "wireguard" && PeerKey(key).Some? {
      SetPeerTextFrame(settings, key, value, s, k);
    } else {
      KnownKeyIsOrdinary(section, key);
      SetFieldFrame(settings, section, key, after[section][key]);
    }
  }

  /** Known keys are never the peers array, a peer's key name or a flags field. */
  lemma KnownKeyIsOrdinary(section: string, key: string)
    requires key in KnownKeys(section)
    ensures section != "vpn" && !(section == "wireguard" && key == "peers")
    ensures section == "wireguard" ==> key == "private-key"
  {
  }

  /** Exactly when a write succeeds; the value written never matters. */
  predicate Settable(settings: Settings, section: string, key: string) {
    if section == "vpn" then true
    else if section == "wireguard" && PeerKey(key).Some? then
      && "wireguard" in settings
      && var peers := PeersOf(Field(settings, "wireguard", "peers"));
      peers.Ok? && UniquePeer(peers.value, PeerKey(key).value).Some?
    else key in KnownKeys(section)
  }

  lemma SetTextSucceedsIffSettable(settings: Settings, section: string, key: string, value: string)
    ensures SetText(settings, section, key, value).Ok? <==> Settable(settings, section, key)
  {
  }

  /** A write to a section neither enables nor disables any later write to it. */
  lemma SetTextKeepsSettable(settings: Settings, section: string, key: string, value: string, k: string)
    requires SetText(settings, section, key, value).Ok?
    ensures Settable(SetText(settings, section, key, value).value, section, k) <==> Settable(settings, section, k)
  {
    var after := SetText(settings, section, key, value).value;
    if section == "wireguard" && PeerKey(k).Some? {
      if PeerKey(key).Some? {
        var peers := PeersOf(Field(settings, "wireguard", "peers")).value;
        var i := UniquePeer(peers, PeerKey(key).value).value;
        PeerUpdateFrame(peers, i, "preshared-key", Text(value), PeerKey(k).value);
        SetFieldFrame(settings, "wireguard", "peers", after["wireguard"]["peers"]);
      } else {
        KnownKeyIsOrdinary(section, key);
        SetFieldFrame(settings, section, key, after[section][key]);
      }
    }
  }
}
