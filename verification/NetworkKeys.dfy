/**
 Grouping access points into network entries, and the string key that names an entry.
 */
module NetworkKeys {
  import opened Wrappers
  import opened Utf8

  datatype SecurityClass = Open | EnhancedOpen | Legacy | Personal | Enterprise | Unknown

  const FLAGS_PRIVACY: bv32 := 0x1
  const KEY_MGMT_PSK: bv32 := 0x100
  const KEY_MGMT_8021X: bv32 := 0x200
  const KEY_MGMT_SAE: bv32 := 0x400
  const KEY_MGMT_OWE: bv32 := 0x800
  const KEY_MGMT_OWE_TM: bv32 := 0x1000
  const KEY_MGMT_SUITE_B: bv32 := 0x2000

  datatype AccessPoint = AccessPoint(ssid: string, rawSsid: seq<Byte>, iface: string,
                                     flags: bv32, wpaFlags: bv32, rsnFlags: bv32, active: bool, strength: nat)

  predicate HasOwe(flags: bv32) {
    flags & (KEY_MGMT_OWE | KEY_MGMT_OWE_TM) != 0
  }

  predicate FlagsArePasswordless(flags: bv32) {
    && flags & (KEY_MGMT_PSK | KEY_MGMT_8021X | KEY_MGMT_SAE | KEY_MGMT_SUITE_B) == 0
    && (flags == 0 || HasOwe(flags))
  }

  function ClassOf(flags: bv32, wpa: bv32, rsn: bv32): SecurityClass {
    var all := wpa | rsn;
    if all & KEY_MGMT_OWE != 0 then EnhancedOpen
    else if flags & FLAGS_PRIVACY == 0 && FlagsArePasswordless(wpa) && FlagsArePasswordless(rsn) then Open
    else if all == 0 then Legacy
    else if all & (KEY_MGMT_8021X | KEY_MGMT_SUITE_B) != 0 then Enterprise
    else if all & (KEY_MGMT_PSK | KEY_MGMT_SAE) != 0 then Personal
    else Unknown
  }

  /** A display SSID stands in for missing bytes. */
  function SsidBytes(ap: AccessPoint): seq<Byte> {
    if ap.rawSsid == [] then Encode(ap.ssid) else ap.rawSsid
  }

  /** An SSID alone is no identity: roaming compatibility needs class and adapter too. */
  datatype GroupKey = GroupKey(ssid: seq<Byte>, class_: SecurityClass, iface: string)

  function KeyOf(ap: AccessPoint): GroupKey {
    GroupKey(SsidBytes(ap), ClassOf(ap.flags, ap.wpaFlags, ap.rsnFlags), ap.iface)
  }

  // ------------------------------------------------------------------ grouping

  type Groups = map<GroupKey, seq<AccessPoint>>

  /** The access points of one key, in scan order. */
  function Members(aps: seq<AccessPoint>, key: GroupKey): seq<AccessPoint> {
    if aps == [] then []
    else Members(aps[..|aps| - 1], key) + (if KeyOf(aps[|aps| - 1]) == key then [aps[|aps| - 1]] else [])
  }

  ghost predicate Partitions(groups: Groups, aps: seq<AccessPoint>) {
    && (forall ap :: ap in aps ==> KeyOf(ap) in groups)
    && (forall k :: k in groups ==> groups[k] != [] && groups[k] == Members(aps, k))
  }

  /** The loop that fills the ordered map. */
  method CollectGroups(aps: seq<AccessPoint>) returns (groups: Groups)
    ensures Partitions(groups, aps)
  {
    groups := map[];
    for i := 0 to |aps|
      invariant Partitions(groups, aps[..i])
    {
      var ap := aps[i];
      var key := KeyOf(ap);
      assert aps[..i + 1][..i] == aps[..i] && aps[..i + 1][i] == ap;
      if key !in groups {
        MissingKeyHasNoMembers(aps[..i], key);
      }
      var group := if key in groups then groups[key] else [];
      groups := groups[key := group + [ap]];
      forall k | k in groups ensures groups[k] != [] && groups[k] == Members(aps[..i + 1], k) {
        assert k != key ==> Members(aps[..i + 1], k) == Members(aps[..i], k) + [];
      }
    }
    assert aps[..|aps|] == aps;
  }

  // ------------------------------------------------------------------ the order of the entries

  predicate BytesLess(a: seq<Byte>, b: seq<Byte>) {
    b != [] && (a == [] || a[0] < b[0] || (a[0] == b[0] && BytesLess(a[1..], b[1..])))
  }

  lemma {:induction false} BytesOrderIsTotal(a: seq<Byte>, b: seq<Byte>)
    ensures BytesLess(a, b) || BytesLess(b, a) || a == b
  {
    if a != [] && b != [] && a[0] == b[0] {
      BytesOrderIsTotal(a[1..], b[1..]);
      assert a == [a[0]] + a[1..] && b == [b[0]] + b[1..];
    }
  }

  lemma {:induction false} BytesOrderIsTransitive(a: seq<Byte>, b: seq<Byte>, c: seq<Byte>)
    requires BytesLess(a, b) && BytesLess(b, c)
    ensures BytesLess(a, c)
  {
    if a != [] && a[0] == b[0] == c[0] {
      BytesOrderIsTransitive(a[1..], b[1..], c[1..]);
    }
  }

  function Rank(class_: SecurityClass): nat {
    match class_
    case Open => 0
    case EnhancedOpen => 1
    case Legacy => 2
    case Personal => 3
    case Enterprise => 4
    case Unknown => 5
  }

  /** Keys compare by SSID bytes, then class, then the bytes of the interface name. */
  predicate KeyLess(a: GroupKey, b: GroupKey) {
    || BytesLess(a.ssid, b.ssid)
    || (a.ssid == b.ssid && Rank(a.class_) < Rank(b.class_))
    || (a.ssid == b.ssid && a.class_ == b.class_ && BytesLess(Encode(a.iface), Encode(b.iface)))
  }

  lemma KeyOrderIsTotal(a: GroupKey, b: GroupKey)
    ensures KeyLess(a, b) || KeyLess(b, a) || a == b
  {
    BytesOrderIsTotal(a.ssid, b.ssid);
    BytesOrderIsTotal(Encode(a.iface), Encode(b.iface));
    if Encode(a.iface) == Encode(b.iface) {
      EncodeIsInjective(a.iface, b.iface);
    }
  }

  lemma KeyOrderIsTransitive(a: GroupKey, b: GroupKey, c: GroupKey)
    requires KeyLess(a, b) && KeyLess(b, c)
    ensures KeyLess(a, c)
  {
    if BytesLess(a.ssid, b.ssid) && BytesLess(b.ssid, c.ssid) {
      BytesOrderIsTransitive(a.ssid, b.ssid, c.ssid);
    }
    if BytesLess(Encode(a.iface), Encode(b.iface)) && BytesLess(Encode(b.iface), Encode(c.iface)) {
      BytesOrderIsTransitive(Encode(a.iface), Encode(b.iface), Encode(c.iface));
    }
  }

  method LeastKey(keys: set<GroupKey>) returns (least: GroupKey)
    requires keys != {}
    ensures least in keys && forall k :: k in keys && k != least ==> KeyLess(least, k)
  {
    least :| least in keys;
    var rest := keys - {least};
    while rest != {}
      invariant rest <= keys && least in keys - rest
      invariant forall k :: k in keys - rest && k != least ==> KeyLess(least, k)
      decreases |rest|
    {
      var key :| key in rest;
      KeyOrderIsTotal(least, key);
      if KeyLess(key, least) {
        forall k | k in keys - rest && k != least ensures KeyLess(key, k) {
          KeyOrderIsTransitive(key, least, k);
        }
        least := key;
      }
      rest := rest - {key};
    }
  }

  ghost predicate Ascending(keys: seq<GroupKey>) {
    forall i, j :: 0 <= i < j < |keys| ==> KeyLess(keys[i], keys[j])
  }

  /** The keys of the ordered map, as it iterates. */
  method KeysInOrder(keys: set<GroupKey>) returns (listed: seq<GroupKey>)
    ensures Ascending(listed) && forall k :: k in listed <==> k in keys
  {
    listed := [];
    var todo := keys;
    while todo != {}
      invariant todo <= keys && Ascending(listed)
      invariant forall k :: k in listed <==> k in keys - todo
      invariant forall k, t :: k in listed && t in todo ==> KeyLess(k, t)
      decreases |todo|
    {
      var least := LeastKey(todo);
      listed := listed + [least];
      todo := todo - {least};
    }
  }

  /** One group per key that occurs, in key order, each holding its access points in scan order. */
  method GroupedAccessPoints(aps: seq<AccessPoint>) returns (groups: seq<seq<AccessPoint>>, keys: seq<GroupKey>)
    ensures Ascending(keys) && forall k :: k in keys <==> Members(aps, k) != []
    ensures |groups| == |keys| && forall i :: 0 <= i < |keys| ==> groups[i] == Members(aps, keys[i])
  {
    var collected := CollectGroups(aps);
    keys := KeysInOrder(collected.Keys);
    forall k ensures k in collected <==> Members(aps, k) != [] {
      MembersShareTheKey(aps, k);
      if Members(aps, k) != [] {
        assert Members(aps, k)[0] in Members(aps, k);
      }
    }
    var listed := keys;
    assert forall i :: 0 <= i < |listed| ==> listed[i] in collected;
    groups := seq(|listed|, i requires 0 <= i < |listed| && listed[i] in collected => collected[listed[i]]);
  }

  lemma {:induction false} MembersShareTheKey(aps: seq<AccessPoint>, key: GroupKey)
    ensures forall ap :: ap in Members(aps, key) <==> ap in aps && KeyOf(ap) == key
  {
    if aps == [] {
    } else {
      var init, last := aps[..|aps| - 1], aps[|aps| - 1];
      MembersShareTheKey(init, key);
      assert aps == init + [last];
    }
  }

  lemma {:induction false} MissingKeyHasNoMembers(aps: seq<AccessPoint>, key: GroupKey)
    requires forall ap :: ap in aps ==> KeyOf(ap) != key
    ensures Members(aps, key) == []
  {
    if aps == [] {
    } else {
      assert aps[|aps| - 1] in aps;
      MissingKeyHasNoMembers(aps[..|aps| - 1], key);
    }
  }

  /** Two access points share an entry exactly when they agree on SSID bytes, security class
      and interface. */
  lemma SameEntryIffSameKey(groups: Groups, aps: seq<AccessPoint>, a: AccessPoint, b: AccessPoint)
    requires Partitions(groups, aps) && a in aps && b in aps
    ensures (exists k :: k in groups && a in groups[k] && b in groups[k]) <==> KeyOf(a) == KeyOf(b)
  {
    forall k | k in groups ensures forall ap :: ap in groups[k] <==> ap in aps && KeyOf(ap) == k {
      MembersShareTheKey(aps, k);
    }
    if KeyOf(a) == KeyOf(b) {
      assert KeyOf(a) in groups && a in groups[KeyOf(a)] && b in groups[KeyOf(a)];
    }
  }

  /** No access point is lost, invented or duplicated: each occurs in its group as often as
      in the scan, and in no other group. */
  lemma {:induction false} GroupsConserveAccessPoints(aps: seq<AccessPoint>, key: GroupKey, ap: AccessPoint)
    ensures multiset(Members(aps, key))[ap] == if KeyOf(ap) == key then multiset(aps)[ap] else 0
  {
    if aps == [] {
    } else {
      var init, last := aps[..|aps| - 1], aps[|aps| - 1];
      GroupsConserveAccessPoints(init, key, ap);
      assert aps == init + [last];
    }
  }

  /** Active first, then stronger, and the last of equals. */
  predicate NotBetter(a: AccessPoint, b: AccessPoint) {
    (a.active ==> b.active) && (a.active == b.active ==> a.strength <= b.strength)
  }

  method PreferredAccessPoint(aps: seq<AccessPoint>) returns (best: Option<AccessPoint>)
    ensures best.None? <==> aps == []
    ensures best.Some? ==> exists i :: && 0 <= i < |aps| && aps[i] == best.value
                                       && (forall j :: 0 <= j < |aps| ==> NotBetter(aps[j], aps[i]))
                                       && (forall j :: i < j < |aps| ==> !NotBetter(aps[i], aps[j]))
  {
    if aps == [] {
      return None;
    }
    var at := 0;
    for k := 1 to |aps|
      invariant 0 <= at < k
      invariant forall j :: 0 <= j < k ==> NotBetter(aps[j], aps[at])
      invariant forall j :: at < j < k ==> !NotBetter(aps[at], aps[j])
    {
      if NotBetter(aps[at], aps[k]) {
        at := k;
      }
    }
    best := Some(aps[at]);
  }

  // ------------------------------------------------------------------ the key string

  function HexDigit(n: int): char
    requires 0 <= n < 16
  {
    "0123456789abcdef"[n]
  }

  function Hex(bytes: seq<Byte>): string {
    if bytes == [] then "" else [HexDigit(bytes[0] / 16), HexDigit(bytes[0] % 16)] + Hex(bytes[1..])
  }

  function ClassKey(c: SecurityClass): string {
    match c
    case Open => "open"
    case EnhancedOpen => "enhanced-open"
    case Legacy => "legacy"
    case Personal => "personal"
    case Enterprise => "enterprise"
    case Unknown => "unknown"
  }

  function KeyString(key: GroupKey): string {
    "ssid-hex:" + (Hex(key.ssid) + ("|security:" + (ClassKey(key.class_) + ("|ifname:" + Hex(Encode(key.iface))))))
  }

  function NetworkKeyFor(ap: AccessPoint): string {
    KeyString(KeyOf(ap))
  }

  function DigitValue(c: char): (d: Option<Byte>)
    ensures d.Some? ==> d.value < 16
  {
    if '0' <= c <= '9' then Some((c as int) - ('0' as int))
    else if 'a' <= c <= 'f' then Some((c as int) - ('a' as int) + 10)
    else if 'A' <= c <= 'F' then Some((c as int) - ('A' as int) + 10)
    else None
  }

  /** Radix-16 parsing of two characters; a leading plus sign is allowed. */
  function ParseOctet(high: char, low: char): Option<Byte> {
    if DigitValue(low).None? then None
    else if high == '+' then DigitValue(low)
    else if DigitValue(high).None? then None
    else Some((DigitValue(high).value as int) * 16 + DigitValue(low).value)
  }

  function ParseOctets(s: string): Option<seq<Byte>> {
    if s == "" then Some([])
    else if |s| == 1 then None
    else
      var first, rest := ParseOctet(s[0], s[1]), ParseOctets(s[2..]);
      if first.Some? && rest.Some? then Some([first.value] + rest.value) else None
  }

  /** The text before the first bar. */
  function BeforeBar(s: string): string {
    if s == "" || s[0] == '|' then "" else [s[0]] + BeforeBar(s[1..])
  }

  function SsidForNetworkKey(key: string): Result<seq<Byte>, string> {
    if |key| < 9 || key[..9] != "ssid-hex:" then Err("invalid Wi-Fi network key") else
    match ParseOctets(BeforeBar(key[9..]))
    case None => Err("invalid Wi-Fi network key")
    case Some(bytes) => if 1 <= |bytes| <= 32 then Ok(bytes) else Err("Wi-Fi SSID must be 1-32 bytes")
  }

  lemma OctetRoundTrip(b: Byte)
    ensures ParseOctet(HexDigit(b / 16), HexDigit(b % 16)) == Some(b)
    ensures HexDigit(b / 16) != '|' && HexDigit(b % 16) != '|'
  {
    DigitRoundTrip(b / 16);
    DigitRoundTrip(b % 16);
  }

  lemma DigitRoundTrip(n: int)
    requires 0 <= n < 16
    ensures DigitValue(HexDigit(n)) == Some(n) && HexDigit(n) != '+' && HexDigit(n) != '|'
  {
    var digits := "0123456789abcdef";
    assert n < 10 ==> digits[n] as int == '0' as int + n;
    assert n >= 10 ==> digits[n] as int == 'a' as int + n - 10;
  }

  lemma {:induction false} HexRoundTrip(bytes: seq<Byte>)
    ensures ParseOctets(Hex(bytes)) == Some(bytes)
  {
    if bytes == [] {
    } else {
      OctetRoundTrip(bytes[0]);
      HexRoundTrip(bytes[1..]);
      assert Hex(bytes)[2..] == Hex(bytes[1..]);
      assert [bytes[0]] + bytes[1..] == bytes;
    }
  }

  lemma {:induction false} HexHasNoBar(bytes: seq<Byte>, rest: string)
    ensures BeforeBar(Hex(bytes) + ("|" + rest)) == Hex(bytes)
  {
    var s := Hex(bytes) + ("|" + rest);
    if bytes == [] {
      assert s[0] == '|';
    } else {
      OctetRoundTrip(bytes[0]);
      HexHasNoBar(bytes[1..], rest);
      assert s[2..] == Hex(bytes[1..]) + ("|" + rest);
      assert s[1..][0] == HexDigit(bytes[0] % 16) && s[1..][1..] == s[2..];
    }
  }

  lemma BarSplits(a: string, b: string, x: string, y: string)
    requires '|' !in a && '|' !in b && a + ("|" + x) == b + ("|" + y)
    ensures a == b && x == y
  {
    var l, r := a + ("|" + x), b + ("|" + y);
    assert forall i :: 0 <= i < |a| ==> l[i] == a[i];
    assert forall i :: 0 <= i < |b| ==> r[i] == b[i];
    assert l[|a|] == '|' && r[|b|] == '|';
    assert |a| == |b|;
    assert a == l[..|a|] && b == r[..|b|] && x == l[|a| + 1..] && y == r[|b| + 1..];
  }

  lemma {:induction false} NoBarInHex(bytes: seq<Byte>)
    ensures '|' !in Hex(bytes)
  {
    if bytes == [] {
    } else {
      OctetRoundTrip(bytes[0]);
      NoBarInHex(bytes[1..]);
    }
  }

  lemma ClassKeysDiffer(c: SecurityClass, d: SecurityClass)
    requires ClassKey(c) == ClassKey(d)
    ensures c == d && '|' !in ClassKey(c)
  {
    assert ClassKey(c)[0] == ClassKey(d)[0] && |ClassKey(c)| == |ClassKey(d)|;
  }

  lemma TailSplits(c: SecurityClass, d: SecurityClass, x: string, y: string)
    requires "security:" + (ClassKey(c) + ("|ifname:" + x)) == "security:" + (ClassKey(d) + ("|ifname:" + y))
    ensures c == d && x == y
  {
    var p := "security:";
    assert (p + (ClassKey(c) + ("|ifname:" + x)))[|p|..] == ClassKey(c) + ("|ifname:" + x);
    assert (p + (ClassKey(d) + ("|ifname:" + y)))[|p|..] == ClassKey(d) + ("|ifname:" + y);
    assert "|ifname:" + x == "|" + ("ifname:" + x) && "|ifname:" + y == "|" + ("ifname:" + y);
    ClassKeysDiffer(c, c);
    ClassKeysDiffer(d, d);
    BarSplits(ClassKey(c), ClassKey(d), "ifname:" + x, "ifname:" + y);
    ClassKeysDiffer(c, d);
    assert ("ifname:" + x)[7..] == x && ("ifname:" + y)[7..] == y;
  }

  /** Distinct groups have distinct keys, so looking an entry up by key is unambiguous. */
  lemma KeyStringIsInjective(a: GroupKey, b: GroupKey)
    requires KeyString(a) == KeyString(b)
    ensures a == b
  {
    var x := "security:" + (ClassKey(a.class_) + ("|ifname:" + Hex(Encode(a.iface))));
    var y := "security:" + (ClassKey(b.class_) + ("|ifname:" + Hex(Encode(b.iface))));
    KeyBody(a, x);
    KeyBody(b, y);
    NoBarInHex(a.ssid);
    NoBarInHex(b.ssid);
    BarSplits(Hex(a.ssid), Hex(b.ssid), x, y);
    TailSplits(a.class_, b.class_, Hex(Encode(a.iface)), Hex(Encode(b.iface)));
    HexRoundTrip(a.ssid);
    HexRoundTrip(b.ssid);
    HexRoundTrip(Encode(a.iface));
    HexRoundTrip(Encode(b.iface));
    EncodeIsInjective(a.iface, b.iface);
  }

  lemma KeyBody(key: GroupKey, tail: string)
    requires tail == "security:" + (ClassKey(key.class_) + ("|ifname:" + Hex(Encode(key.iface))))
    ensures |KeyString(key)| >= 9 && KeyString(key)[..9] == "ssid-hex:"
    ensures KeyString(key)[9..] == Hex(key.ssid) + ("|" + tail)
  {
    assert "|security:" + (ClassKey(key.class_) + ("|ifname:" + Hex(Encode(key.iface)))) == "|" + tail;
  }

  /** The entries of a grouping: the key of a group is the key of any of its members. */
  lemma EntryKeysArePairwiseDistinct(groups: Groups, aps: seq<AccessPoint>, j: GroupKey, k: GroupKey,
                                     a: AccessPoint, b: AccessPoint)
    requires Partitions(groups, aps) && j in groups && k in groups && a in groups[j] && b in groups[k]
    ensures NetworkKeyFor(a) == NetworkKeyFor(b) <==> j == k
  {
    MembersShareTheKey(aps, j);
    MembersShareTheKey(aps, k);
    if NetworkKeyFor(a) == NetworkKeyFor(b) {
      KeyStringIsInjective(j, k);
    }
  }

  /** A key names its SSID: decoding returns the group's bytes exactly when they are 1 to 32. */
  lemma KeyDecodesToItsSsid(key: GroupKey)
    ensures SsidForNetworkKey(KeyString(key)) ==
            if 1 <= |key.ssid| <= 32 then Ok(key.ssid) else Err("Wi-Fi SSID must be 1-32 bytes")
  {
    var tail := "security:" + (ClassKey(key.class_) + ("|ifname:" + Hex(Encode(key.iface))));
    KeyBody(key, tail);
    HexHasNoBar(key.ssid, tail);
    HexRoundTrip(key.ssid);
  }

  predicate LowerHex(s: string) {
    forall i :: 0 <= i < |s| ==> '0' <= s[i] <= '9' || 'a' <= s[i] <= 'f'
  }

  /** Decoding is only a left inverse: an accepted SSID part is the canonical one exactly when
      it is written in lower-case digits, without the sign that radix parsing tolerates. */
  lemma {:induction false} CanonicalIffLowerHex(s: string)
    requires ParseOctets(s).Some?
    ensures Hex(ParseOctets(s).value) == s <==> LowerHex(s)
    decreases |s|
  {
    if s == "" {
    } else {
      var bytes := ParseOctets(s).value;
      CanonicalIffLowerHex(s[2..]);
      CanonicalOctet(s[0], s[1]);
      assert bytes[1..] == ParseOctets(s[2..]).value;
      var h := Hex(bytes);
      assert h[2..] == Hex(bytes[1..]);
      assert s == [s[0], s[1]] + s[2..];
      if Hex(bytes) == s {
        assert h[0] == s[0] && h[1] == s[1];
        assert forall i :: 2 <= i < |s| ==> s[i] == s[2..][i - 2];
      }
      if LowerHex(s) {
        assert forall i :: 0 <= i < |s| - 2 ==> s[2..][i] == s[i + 2];
      }
    }
  }

  lemma CanonicalDigit(c: char)
    requires DigitValue(c).Some?
    ensures HexDigit(DigitValue(c).value) == c <==> '0' <= c <= '9' || 'a' <= c <= 'f'
  {
    var n, digits := DigitValue(c).value, "0123456789abcdef";
    assert n < 10 ==> digits[n] as int == '0' as int + n;
    assert n >= 10 ==> digits[n] as int == 'a' as int + n - 10;
  }

  lemma CanonicalOctet(high: char, low: char)
    requires ParseOctet(high, low).Some?
    ensures var b := ParseOctet(high, low).value;
            HexDigit(b / 16) == high && HexDigit(b % 16) == low <==> LowerHex([high, low])
  {
    var b, text := ParseOctet(high, low).value, [high, low];
    assert text[0] == high && text[1] == low;
    CanonicalDigit(low);
    if high == '+' {
      DigitRoundTrip(b / 16);
    } else {
      CanonicalDigit(high);
      assert b / 16 == DigitValue(high).value && b % 16 == DigitValue(low).value;
    }
  }

  lemma SignedKeyIsAccepted()
    ensures SsidForNetworkKey("ssid-hex:+f") == Ok([15])
    ensures SsidForNetworkKey("ssid-hex:0f") == Ok([15])
  {
    SignedOctet("ssid-hex:+f", '+');
    SignedOctet("ssid-hex:0f", '0');
  }

  lemma SignedOctet(key: string, high: char)
    requires key == "ssid-hex:" + [high, 'f'] && (high == '+' || high == '0')
    ensures SsidForNetworkKey(key) == Ok([15])
  {
    var text := [high, 'f'];
    assert key[..9] == "ssid-hex:" && key[9..] == text;
    assert text[1..] == "f" && "f"[1..] == "" && text[2..] == "";
    assert BeforeBar("f") == "f" && BeforeBar(text) == text;
    assert ParseOctet(high, 'f') == Some(15);
    var fifteen: seq<Byte> := [15];
    assert ParseOctets(text[2..]) == Some([]);
    assert ParseOctets(text) == Some(fifteen + []);
    assert fifteen + [] == fifteen;
  }
}
