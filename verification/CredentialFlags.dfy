/**
 The persistence flags of a secret and the step that makes a secret system-owned.
 */
module CredentialFlags {
  import opened Credentials
  import opened Variants
  import opened Wrappers

  const U32_MAX: nat := 0xFFFF_FFFF

  /** The four WEP keys share one flags field. */
  function FlagsKey(key: string): string {
    if key in {"wep-key0", "wep-key1", "wep-key2", "wep-key3"} then "wep-key-flags" else key + "-flags"
  }

  // ---- Decimal numbers in VPN data ----

  function Decimal(digits: string): Option<nat> {
    if digits == "" then Some(0)
    else
      var last := digits[|digits| - 1];
      match Decimal(digits[..|digits| - 1])
      case None => None
      case Some(n) => if '0' <= last <= '9' then Some(10 * n + (last as int - '0' as int)) else None
  }

  /** A decimal number with an optional plus sign, refused when it exceeds 32 bits. */
  function ParseU32(text: string): Option<nat> {
    var digits := if |text| > 1 && text[0] == '+' then text[1..] else text;
    if digits == "" then None
    else match Decimal(digits)
      case None => None
      case Some(n) => if n <= U32_MAX then Some(n) else None
  }

  function Digit(n: nat): string
    requires n < 10
  {
    [('0' as int + n) as char]
  }

  lemma ParsePrintedDigit(n: nat)
    requires n < 10
    ensures ParseU32(Digit(n)) == Some(n)
  {
    assert Digit(n)[..0] == "";
    assert Decimal(Digit(n)) == Some(n);
  }

  // ---- Reading flags ----

  function FlagValue(field: Option<Variant>): Result<nat, Error> {
    match field
    case None => Ok(0)
    case Some(U32(bits)) => Ok(bits)
    case _ => Err(InvalidFlags)
  }

  function PeerFlags(field: Option<Variant>, public: string): Result<nat, Error> {
    match PeersOf(field)
    case Err(e) => Err(e)
    case Ok(peers) =>
      match UniquePeer(peers, public)
      case None => Err(PeerMissingOrAmbiguous)
      case Some(i) =>
        FlagValue(if "preshared-key-flags" in peers[i] then Some(peers[i]["preshared-key-flags"]) else None)
  }

  function VpnFlags(field: Option<Variant>, key: string): Result<nat, Error> {
    match field
    case Some(TextMap(data)) =>
      if FlagsKey(key) !in data then Err(VpnPolicyUnspecified)
      else (match ParseU32(data[FlagsKey(key)]) case None => Err(InvalidFlags) case Some(n) => Ok(n))
    case _ => Err(VpnPolicyMissing)
  }

  /** Only the three lowest bits are known flags. */
  function Flags(settings: Settings, section: string, key: string): Result<nat, Error> {
    if section !in settings then Err(SettingMissing)
    else
      var raw :=
        if section == "vpn" then VpnFlags(Field(settings, "vpn", "data"), key)
        else if section == "wireguard" && PeerKey(key).Some? then
          PeerFlags(Field(settings, "wireguard", "peers"), PeerKey(key).value)
        else if key !in KnownKeys(section) then Err(UnsupportedSchema)
        else FlagValue(Field(settings, section, FlagsKey(key)));
      if raw.Ok? && raw.value > 7 then Err(UnknownFlags) else raw
  }

  predicate HasFlag(flags: nat, flag: nat)
    requires flag > 0
  {
    flags / flag % 2 == 1
  }

  function ClearAgentOwned(flags: nat): nat {
    if HasFlag(flags, AGENT_OWNED) then flags - AGENT_OWNED else flags
  }

  function SetSystemOwned(settings: Settings, section: string, key: string): Result<Settings, Error> {
    match Flags(settings, section, key)
    case Err(e) => Err(e)
    case Ok(flags) =>
      if HasFlag(flags, NOT_SAVED) || section == "wifi-p2p" then Err(Temporary)
      else
        var cleared := ClearAgentOwned(flags);
        if section == "vpn" then
          var data := TextMapOf(Field(settings, "vpn", "data"));
          Ok(SetField(settings, "vpn", "data", TextMap(data[FlagsKey(key) := Digit(cleared)])))
        else if section == "wireguard" && PeerKey(key).Some? then
          (match SetPeerValue(Field(settings, "wireguard", "peers"), PeerKey(key).value,
                              "preshared-key-flags", U32(cleared))
           case Err(e) => Err(e)
           case Ok(peers) => Ok(SetField(settings, "wireguard", "peers", peers)))
        else
          Ok(SetField(settings, section, FlagsKey(key), U32(cleared)))
  }

  /** Two secrets governed by the same stored flag. */
  predicate SharesFlags(section: string, key: string, k: string) {
    if section == "wireguard" && PeerKey(key).Some? then k == key
    else if section == "wireguard" && PeerKey(k).Some? then false
    else FlagsKey(k) == FlagsKey(key)
  }

  lemma FlagsKeyShape(key: string)
    ensures |FlagsKey(key)| >= 6 && FlagsKey(key) != "peers"
    ensures key !in {"wep-key0", "wep-key1", "wep-key2", "wep-key3"} ==> FlagsKey(key)[..|key|] == key
  {
  }

  /** Outside VPN plugins the only shared field is the WEP one. */
  lemma OnlyWepSharesFlags(section: string, key: string, k: string)
    requires key in KnownKeys(section) && k in KnownKeys(section)
    ensures FlagsKey(k) == FlagsKey(key)
            <==> k == key || {k, key} <= {"wep-key0", "wep-key1", "wep-key2", "wep-key3"}
  {
    var wep := {"wep-key0", "wep-key1", "wep-key2", "wep-key3"};
    if FlagsKey(k) == FlagsKey(key) && k !in wep && key !in wep {
      assert k == FlagsKey(k)[..|FlagsKey(k)| - 6];
      assert key == FlagsKey(key)[..|FlagsKey(key)| - 6];
    }
    if k in wep && key !in wep {
      KnownKeyIsNotWepStem(section, key);
    }
    if key in wep && k !in wep {
      KnownKeyIsNotWepStem(section, k);
    }
  }

  lemma KnownKeyIsNotWepStem(section: string, key: string)
    requires key in KnownKeys(section) && key !in {"wep-key0", "wep-key1", "wep-key2", "wep-key3"}
    ensures key + "-flags" != "wep-key-flags"
  {
    assert (key + "-flags")[..|key|] == key;
    assert "wep-key-flags"[..7] == "wep-key" && "wep-key" !in KnownKeys(section);
  }

  lemma PeerFlagUpdate(peers: seq<Peer>, public: string, i: nat, flags: nat, other: string)
    requires UniquePeer(peers, public) == Some(i)
    ensures var q := peers[i := peers[i]["preshared-key-flags" := U32(flags)]];
            && PeerFlags(Some(Dicts(q)), other)
               == (if other == public then Ok(flags) else PeerFlags(Some(Dicts(peers)), other))
            && PresharedOf(q, other) == PresharedOf(peers, other)
  {
    PeerUpdateFrame(peers, i, "preshared-key-flags", U32(flags), other);
  }

  /** Flags of `(s, k)` after `(section, key)` was made system-owned: cleared where the flag is
      shared, as before everywhere else. */
  ghost predicate FlagLaw(was: Settings, after: Settings, section: string, key: string, s: string, k: string) {
    && Flags(was, section, key).Ok?
    && (s == section && SharesFlags(section, key, k)
        && (section == "vpn" || (section == "wireguard" && PeerKey(key).Some?) || k in KnownKeys(section))
        ==> Flags(after, s, k) == Ok(ClearAgentOwned(Flags(was, section, key).value)))
    && (s != section || !SharesFlags(section, key, k) ==> Flags(after, s, k) == Flags(was, s, k))
    && ReadText(after, s, k) == ReadText(was, s, k)
  }

  lemma VpnFlagLaw(settings: Settings, key: string, s: string, k: string)
    requires SetSystemOwned(settings, "vpn", key).Ok?
    ensures FlagLaw(settings, SetSystemOwned(settings, "vpn", key).value, "vpn", key, s, k)
  {
    var after := SetSystemOwned(settings, "vpn", key).value;
    ParsePrintedDigit(ClearAgentOwned(Flags(settings, "vpn", key).value));
    SetFieldFrame(settings, "vpn", "data", after["vpn"]["data"]);
  }

  /** Replacing the peers array touches only the flags read through it. */
  lemma PeersFieldFrame(settings: Settings, peers: Variant, s: string, k: string)
    requires Field(settings, "wireguard", "peers").Some?
    requires s != "wireguard" || PeerKey(k).None?
    ensures Flags(SetField(settings, "wireguard", "peers", peers), s, k) == Flags(settings, s, k)
  {
    SetFieldFrame(settings, "wireguard", "peers", peers);
    FlagsKeyShape(k);
  }

  /** Making a peer's key system-owned stores the cleared flags in that peer. */
  lemma PeerSystemOwned(settings: Settings, key: string) returns (peers: seq<Peer>, i: nat, q: seq<Peer>, cleared: nat)
    requires PeerKey(key).Some? && SetSystemOwned(settings, "wireguard", key).Ok?
    ensures PeersOf(Field(settings, "wireguard", "peers")) == Ok(peers)
            && UniquePeer(peers, PeerKey(key).value) == Some(i)
    ensures Flags(settings, "wireguard", key).Ok?
            && cleared == ClearAgentOwned(Flags(settings, "wireguard", key).value)
    ensures q == peers[i := peers[i]["preshared-key-flags" := U32(cleared)]]
    ensures "wireguard" in settings
            && SetSystemOwned(settings, "wireguard", key).value == SetField(settings, "wireguard", "peers", Dicts(q))
  {
    peers := PeersOf(Field(settings, "wireguard", "peers")).value;
    i := UniquePeer(peers, PeerKey(key).value).value;
    cleared := ClearAgentOwned(Flags(settings, "wireguard", key).value);
    q := peers[i := peers[i]["preshared-key-flags" := U32(cleared)]];
  }

  lemma PeerFlagLaw(settings: Settings, key: string, s: string, k: string)
    requires PeerKey(key).Some? && SetSystemOwned(settings, "wireguard", key).Ok?
    ensures FlagLaw(settings, SetSystemOwned(settings, "wireguard", key).value, "wireguard", key, s, k)
  {
    var peers, i, q, cleared := PeerSystemOwned(settings, key);
    if s == "wireguard" && PeerKey(k).Some? {
      PeerFlagUpdate(peers, PeerKey(key).value, i, cleared, PeerKey(k).value);
    } else {
      PeersFieldFrame(settings, Dicts(q), s, k);
      PeersFrame(settings, q, s, k);
    }
  }

  lemma PlainFlagLaw(settings: Settings, section: string, key: string, s: string, k: string)
    requires section != "vpn" && !(section == "wireguard" && PeerKey(key).Some?)
    requires SetSystemOwned(settings, section, key).Ok?
    ensures FlagLaw(settings, SetSystemOwned(settings, section, key).value, section, key, s, k)
  {
    FlagsKeyShape(key);
    KnownKeyIsOrdinary(section, key);
    PlainFlagFrame(settings, section, FlagsKey(key), ClearAgentOwned(Flags(settings, section, key).value), s, k);
  }

  /** Storing a number in a flag field affects only what is read from that field. */
  lemma PlainFlagFrame(settings: Settings, section: string, field: string, flags: nat, s: string, k: string)
    requires section in settings && section != "vpn" && field != "peers"
    requires FlagValue(Field(settings, section, field)).Ok?
    ensures var after := SetField(settings, section, field, U32(flags));
            && ReadText(after, s, k) == ReadText(settings, s, k)
            && (s != section || FlagsKey(k) != field || (s == "wireguard" && PeerKey(k).Some?) ==>
                  Flags(after, s, k) == Flags(settings, s, k))
  {
    SetFieldFrame(settings, section, field, U32(flags));
  }

  /** Afterwards the secret, and every one sharing its flag, is no longer agent-owned, while every
      other flag and every secret of every section reads as before. */
  lemma SystemOwnedLaw(settings: Settings, section: string, key: string, s: string, k: string)
    requires SetSystemOwned(settings, section, key).Ok?
    ensures FlagLaw(settings, SetSystemOwned(settings, section, key).value, section, key, s, k)
  {
    if section == "vpn" {
      VpnFlagLaw(settings, key, s, k);
    } else if section == "wireguard" && PeerKey(key).Some? {
      PeerFlagLaw(settings, key, s, k);
    } else {
      PlainFlagLaw(settings, section, key, s, k);
    }
  }

  /** Clearing touches the agent-owned bit only. */
  lemma ClearsOneBit(flags: nat)
    ensures !HasFlag(ClearAgentOwned(flags), AGENT_OWNED)
    ensures ClearAgentOwned(flags) / 2 == flags / 2
  {
  }

  /** Temporary secrets are refused and nothing else that has readable flags is. */
  lemma SystemOwnedIffPersistent(settings: Settings, section: string, key: string)
    ensures SetSystemOwned(settings, section, key).Ok?
            <==> Flags(settings, section, key).Ok? && section != "wifi-p2p"
                 && !HasFlag(Flags(settings, section, key).value, NOT_SAVED)
  {
  }
}
