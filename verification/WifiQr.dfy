/** Wi-Fi QR payloads: the exporter, the intake parser, and their round trip. */
module WifiQr {
  import opened Wrappers
  import Utf8

  const MAX_PASSPHRASE_CHARS: nat := 63
  const RAW_PSK_CHARS: nat := 64
  const MAX_WEP_KEY_CHARS: nat := 58

  datatype Auth = Open | Wpa | Sae | Wep
  datatype WepKeyType = Key | Phrase
  datatype QrError = QrError(field: string, message: string)
  type Fields = map<string, string>

  datatype Parsed = Parsed(ssid: string, auth: Auth, token: string, hidden: bool, password: Option<string>,
                           wepKeyType: Option<WepKeyType>)

  // ------------------------------------------------------------------ export

  predicate Special(c: char) {
    c == '\\' || c == ';' || c == ',' || c == ':' || c == '"'
  }

  function EscapeChar(c: char): string {
    if Special(c) then ['\\', c] else [c]
  }

  function Escape(value: string): string {
    if value == "" then "" else EscapeChar(value[0]) + Escape(value[1..])
  }

  /** A `key:value` field, its semicolon, and what follows. */
  function Field(key: char, value: string, rest: string): string {
    [key, ':'] + value + ";" + rest
  }

  /** The layout of a payload around an SSID and a password that are already encoded. */
  function Layout(token: string, ssid: string, password: Option<string>, hidden: bool): string {
    var tail := if hidden then Field('H', "true", ";") else ";";
    var afterSsid := if password.Some? then Field('P', password.value, tail) else tail;
    "WIFI:" + Field('T', token, Field('S', ssid, afterSsid))
  }

  function MapOption(o: Option<string>, f: string -> string): Option<string> {
    if o.Some? then Some(f(o.value)) else None
  }

  function Payload(token: string, ssid: string, password: Option<string>, hidden: bool): string {
    Layout(token, Escape(ssid), MapOption(password, Escape), hidden)
  }

  function Quoted(value: string): string {
    "\"" + Escape(value) + "\""
  }

  /** The form older exporters wrote: quotes around the escaped SSID and password. */
  function LegacyPayload(token: string, ssid: string, password: Option<string>, hidden: bool): string {
    Layout(token, Quoted(ssid), MapOption(password, Quoted), hidden)
  }

  // ------------------------------------------------------------------ intake

  function Unescape(value: string, escaped: bool := false): string {
    if value == "" then ""
    else if value[0] == '\\' && !escaped then Unescape(value[1..], true)
    else [value[0]] + Unescape(value[1..], false)
  }

  function TrailingBackslashes(s: string): nat {
    if s != "" && s[|s| - 1] == '\\' then 1 + TrailingBackslashes(s[..|s| - 1]) else 0
  }

  function Unquote(value: string): string {
    if |value| >= 2 && value[0] == '"' && value[|value| - 1] == '"'
       && TrailingBackslashes(value[1..|value| - 1]) % 2 == 0
    then value[1..|value| - 1] else value
  }

  /** The index of the first colon, or the length. */
  function FirstColon(s: string): (i: nat)
    ensures i <= |s| && (i < |s| ==> s[i] == ':') && forall j :: 0 <= j < i ==> s[j] != ':'
  {
    if s == "" || s[0] == ':' then 0 else 1 + FirstColon(s[1..])
  }

  function InsertField(fields: Fields, field: string): Result<Fields, QrError> {
    if field == "" then Ok(fields) else
    var i := FirstColon(field);
    if i == |field| then Err(QrError("payload", "payload contains a field without a key")) else
    Ok(fields[Unescape(field[..i]) := Unescape(Unquote(field[i + 1..]))])
  }

  /** What remains to be read: the fields so far, the field being read, and the tail. */
  function ReadFields(fields: Fields, current: string, escaped: bool, tail: string): Result<Fields, QrError>
    decreases |tail|
  {
    if tail == "" then
      if escaped then Err(QrError("payload", "payload ends with a dangling escape")) else InsertField(fields, current)
    else if escaped then ReadFields(fields, current + [tail[0]], false, tail[1..])
    else if tail[0] == '\\' then ReadFields(fields, current + [tail[0]], true, tail[1..])
    else if tail[0] == ';' then
      match InsertField(fields, current)
      case Err(e) => Err(e)
      case Ok(next) => ReadFields(next, "", false, tail[1..])
    else ReadFields(fields, current + [tail[0]], false, tail[1..])
  }

  /** The scanning loop of the source. */
  method SplitFields(body: string) returns (r: Result<Fields, QrError>)
    ensures r == ReadFields(map[], "", false, body)
  {
    var fields: Fields := map[];
    var start, index, escaped := 0, 0, false;
    while index < |body|
      invariant 0 <= start <= index <= |body|
      invariant ReadFields(map[], "", false, body) == ReadFields(fields, body[start..index], escaped, body[index..])
    {
      var character := body[index];
      assert body[index..][1..] == body[index + 1..];
      assert body[start..index + 1] == body[start..index] + [character];
      if escaped {
        escaped := false;
      } else if character == '\\' {
        escaped := true;
      } else if character == ';' {
        var inserted := InsertField(fields, body[start..index]);
        if inserted.Err? {
          return Err(inserted.error);
        }
        fields := inserted.value;
        start := index + 1;
        assert body[start..index + 1] == "";
      }
      index := index + 1;
    }
    if escaped {
      return Err(QrError("payload", "payload ends with a dangling escape"));
    }
    assert body[start..] == body[start..index];
    r := InsertField(fields, body[start..]);
  }

  method DecodeEscapes(value: string) returns (decoded: string)
    ensures decoded == Unescape(value)
  {
    decoded := "";
    var escaped := false;
    for i := 0 to |value|
      invariant Unescape(value) == decoded + Unescape(value[i..], escaped)
    {
      assert value[i..][1..] == value[i + 1..];
      if value[i] == '\\' && !escaped {
        escaped := true;
      } else {
        decoded := decoded + [value[i]];
        escaped := false;
      }
    }
  }

  function UpperChar(c: char): char {
    if 'a' <= c <= 'z' then c - 'a' + 'A' else c
  }

  function ToAsciiUppercase(s: string): string {
    seq(|s|, i requires 0 <= i < |s| => UpperChar(s[i]))
  }

  function ParseAuth(token: string): Result<Auth, QrError> {
    var upper := ToAsciiUppercase(token);
    if upper == "" || upper == "NOPASS" then Ok(Open)
    else if upper == "WPA2-EAP" then Err(QrError("T", "enterprise Wi-Fi cannot be joined from a QR code"))
    else if upper == "WPA" || upper == "WPA2" then Ok(Wpa)
    else if upper == "SAE" || upper == "WPA3" then Ok(Sae)
    else if upper == "WEP" then Ok(Wep)
    else Err(QrError("T", "unsupported QR authentication type"))
  }

  predicate IsHexDigit(c: char) {
    '0' <= c <= '9' || 'a' <= c <= 'f' || 'A' <= c <= 'F'
  }

  predicate AllHex(s: string) {
    forall i :: 0 <= i < |s| ==> IsHexDigit(s[i])
  }

  predicate ValidPassword(auth: Auth, password: Option<string>) {
    match auth
    case Open => password.None?
    case Wep => password.Some? && 1 <= |password.value| <= MAX_WEP_KEY_CHARS
    case _ => password.Some? && (8 <= |password.value| <= MAX_PASSPHRASE_CHARS
                                 || (|password.value| == RAW_PSK_CHARS && AllHex(password.value)))
  }

  function WepKeyTypeFor(password: string): WepKeyType {
    var n := |password|;
    if (AllHex(password) && n in {10, 26, 32, 58}) || n in {5, 13, 16} then Key else Phrase
  }

  predicate ValidSsid(ssid: string) {
    1 <= |Utf8.Encode(ssid)| <= 32
  }

  function Lookup(fields: Fields, key: string): Option<string> {
    if key in fields && fields[key] != "" then Some(fields[key]) else None
  }

  function FromFields(fields: Fields): Result<Parsed, QrError> {
    var ssid := Lookup(fields, "S");
    if ssid.None? then Err(QrError("S", "payload has no SSID"))
    else if !ValidSsid(ssid.value) then Err(QrError("S", "Wi-Fi SSID must be 1-32 bytes")) else
    var token := if "T" in fields then fields["T"] else "";
    var auth := ParseAuth(token);
    if auth.Err? then Err(auth.error) else
    var password := Lookup(fields, "P");
    if !ValidPassword(auth.value, password) then Err(QrError("P", "password is not valid for the network")) else
    Ok(Parsed(ssid.value, auth.value, token,
              "H" in fields && fields["H"] in {"true", "TRUE", "True", "1"}, password,
              if auth.value == Wep then Some(WepKeyTypeFor(password.value)) else None))
  }

  function Parse(payload: string): Result<Parsed, QrError> {
    if |payload| < 5 || (payload[..5] != "WIFI:" && payload[..5] != "wifi:")
    then Err(QrError("payload", "payload is not a WIFI: code")) else
    match ReadFields(map[], "", false, payload[5..])
    case Err(e) => Err(e)
    case Ok(fields) => FromFields(fields)
  }

  // ------------------------------------------------------------------ scanning printed values

  /** Scanning `s` meets no unescaped semicolon and leaves the escape state `Some(e)`. */
  function ScanEnd(s: string, escaped: bool): Option<bool> {
    if s == "" then Some(escaped)
    else if escaped then ScanEnd(s[1..], false)
    else if s[0] == '\\' then ScanEnd(s[1..], true)
    else if s[0] == ';' then None
    else ScanEnd(s[1..], false)
  }

  ghost predicate OneField(s: string) {
    ScanEnd(s, false) == Some(false)
  }

  lemma {:induction false} ScanAppends(s: string, t: string, escaped: bool)
    requires ScanEnd(s, escaped).Some?
    ensures ScanEnd(s + t, escaped) == ScanEnd(t, ScanEnd(s, escaped).value)
    decreases |s|
  {
    if s == "" {
      assert s + t == t;
    } else {
      assert (s + t)[1..] == s[1..] + t;
      ScanAppends(s[1..], t, !escaped && s[0] == '\\');
    }
  }

  lemma EscapedChar(c: char)
    ensures OneField(EscapeChar(c)) && Unescape(EscapeChar(c)) == [c]
  {
    var e := EscapeChar(c);
    if Special(c) {
      assert e[1..] == [c] && e[1..][1..] == "";
      assert ScanEnd([c], true) == ScanEnd("", false);
      assert Unescape([c], true) == [c] + Unescape("", false);
    } else {
      assert e[1..] == "";
    }
  }

  lemma {:induction false} EscapedIsOneField(value: string)
    ensures OneField(Escape(value))
  {
    if value == "" {
    } else {
      EscapedChar(value[0]);
      EscapedIsOneField(value[1..]);
      ScanAppends(EscapeChar(value[0]), Escape(value[1..]), false);
    }
  }

  lemma {:induction false} PlainIsOneField(s: string)
    requires forall i :: 0 <= i < |s| ==> s[i] != ';' && s[i] != '\\'
    ensures OneField(s)
  {
    if s == "" {
    } else {
      PlainIsOneField(s[1..]);
    }
  }

  /** A field is read whole, whatever its escapes hide. */
  lemma {:induction false} ReadsWholeField(fields: Fields, current: string, escaped: bool, field: string, rest: string)
    requires ScanEnd(field, escaped) == Some(false)
    ensures ReadFields(fields, current, escaped, field + ";" + rest) ==
            match InsertField(fields, current + field)
            case Err(e) => Err(e)
            case Ok(next) => ReadFields(next, "", false, rest)
    decreases |field|
  {
    var tail := field + ";" + rest;
    if field == "" {
      assert tail[0] == ';' && tail[1..] == rest && current + field == current;
    } else {
      assert tail[0] == field[0] && tail[1..] == field[1..] + ";" + rest;
      assert current + field == (current + [field[0]]) + field[1..];
      ReadsWholeField(fields, current + [field[0]], !escaped && field[0] == '\\', field[1..], rest);
    }
  }

  lemma {:induction false} UnescapeAppends(s: string, t: string, escaped: bool)
    requires ScanEnd(s, escaped) == Some(false)
    ensures Unescape(s + t, escaped) == Unescape(s, escaped) + Unescape(t)
    decreases |s|
  {
    if s == "" {
      assert s + t == t;
    } else {
      assert (s + t)[1..] == s[1..] + t;
      UnescapeAppends(s[1..], t, !escaped && s[0] == '\\');
    }
  }

  lemma {:induction false} UnescapeEscape(value: string)
    ensures Unescape(Escape(value)) == value
  {
    if value == "" {
    } else {
      EscapedChar(value[0]);
      UnescapeAppends(EscapeChar(value[0]), Escape(value[1..]), false);
      UnescapeEscape(value[1..]);
      assert [value[0]] + value[1..] == value;
    }
  }

  lemma {:induction false} PlainUnescapes(s: string)
    requires forall i :: 0 <= i < |s| ==> s[i] != '\\'
    ensures Unescape(s) == s
  {
    if s == "" {
    } else {
      PlainUnescapes(s[1..]);
      assert [s[0]] + s[1..] == s;
    }
  }

  lemma EscapedIsNotQuoted(value: string)
    ensures Unquote(Escape(value)) == Escape(value)
  {
    assert value != "" ==> Escape(value)[0] == (if Special(value[0]) then '\\' else value[0]);
  }

  /** The escape state after a text is the parity of its trailing backslashes. */
  lemma {:induction false} ParityOfBackslashes(s: string)
    requires ScanEnd(s, false).Some?
    ensures ScanEnd(s, false) == Some(TrailingBackslashes(s) % 2 == 1)
    decreases |s|
  {
    if s == "" {
    } else {
      var init := s[..|s| - 1];
      assert s == init + [s[|s| - 1]];
      PrefixScans(init, [s[|s| - 1]], false);
      ParityOfBackslashes(init);
      ScanAppends(init, [s[|s| - 1]], false);
    }
  }

  lemma {:induction false} PrefixScans(s: string, t: string, escaped: bool)
    requires ScanEnd(s + t, escaped).Some?
    ensures ScanEnd(s, escaped).Some?
    decreases |s|
  {
    if s == "" {
    } else {
      assert (s + t)[1..] == s[1..] + t;
      PrefixScans(s[1..], t, !escaped && s[0] == '\\');
    }
  }

  lemma LegacyQuotesComeOff(value: string)
    ensures Unquote(Quoted(value)) == Escape(value) && OneField(Quoted(value))
  {
    EscapedIsOneField(value);
    ParityOfBackslashes(Escape(value));
    var q := Quoted(value);
    assert q[1..|q| - 1] == Escape(value);
    ScanAppends("\"", Escape(value) + "\"", false);
    ScanAppends(Escape(value), "\"", false);
    assert q == "\"" + (Escape(value) + "\"");
  }

  // ------------------------------------------------------------------ round trip

  lemma InsertsUnderItsKey(fields: Fields, key: char, value: string)
    requires key != ':' && key != '\\'
    ensures InsertField(fields, [key, ':'] + value) == Ok(fields[[key] := Unescape(Unquote(value))])
  {
    var field := [key, ':'] + value;
    assert field[1..][0] == ':';
    assert FirstColon(field) == 1;
    assert field[..1] == [key] && field[2..] == value;
    PlainUnescapes([key]);
  }

  /** One `key:value` field of a printed body, and what is left to read after it. */
  lemma ReadsKeyedField(fields: Fields, key: char, value: string, rest: string)
    requires key != ':' && key != '\\' && key != ';' && OneField(value)
    ensures ReadFields(fields, "", false, Field(key, value, rest)) ==
            ReadFields(fields[[key] := Unescape(Unquote(value))], "", false, rest)
  {
    PlainIsOneField([key, ':']);
    ScanAppends([key, ':'], value, false);
    ReadsWholeField(fields, "", false, [key, ':'] + value, rest);
    assert "" + ([key, ':'] + value) == [key, ':'] + value;
    InsertsUnderItsKey(fields, key, value);
  }

  lemma ReadsTerminator(fields: Fields)
    ensures ReadFields(fields, "", false, ";") == Ok(fields)
  {
  }

  lemma ReadsHidden(fields: Fields, hidden: bool)
    ensures ReadFields(fields, "", false, if hidden then Field('H', "true", ";") else ";") ==
            Ok(if hidden then fields["H" := "true"] else fields)
  {
    ReadsTerminator(fields);
    if hidden {
      PlainIsOneField("true");
      PlainUnescapes("true");
      ReadsKeyedField(fields, 'H', "true", ";");
      ReadsTerminator(fields["H" := "true"]);
    }
  }

  /** What the fields of a printed body decode to. */
  function Read(token: string, ssid: string, password: Option<string>, hidden: bool): Fields {
    var t: Fields := map["T" := Unescape(Unquote(token))];
    var s := t["S" := Unescape(Unquote(ssid))];
    var p := if password.Some? then s["P" := Unescape(Unquote(password.value))] else s;
    if hidden then p["H" := "true"] else p
  }

  /** The whole body: each printed field arrives under its key, decoded. */
  lemma ReadsLayout(token: string, ssid: string, password: Option<string>, hidden: bool)
    requires OneField(token) && OneField(ssid) && (password.Some? ==> OneField(password.value))
    ensures var payload := Layout(token, ssid, password, hidden);
            && |payload| >= 5 && payload[..5] == "WIFI:"
            && ReadFields(map[], "", false, payload[5..]) == Ok(Read(token, ssid, password, hidden))
  {
    var tail := if hidden then Field('H', "true", ";") else ";";
    var afterSsid := if password.Some? then Field('P', password.value, tail) else tail;
    var body := Field('T', token, Field('S', ssid, afterSsid));
    assert ("WIFI:" + body)[5..] == body;
    var t: Fields := map["T" := Unescape(Unquote(token))];
    var s := t["S" := Unescape(Unquote(ssid))];
    ReadsKeyedField(map[], 'T', token, Field('S', ssid, afterSsid));
    assert map[]["T" := Unescape(Unquote(token))] == t;
    ReadsKeyedField(t, 'S', ssid, afterSsid);
    if password.Some? {
      ReadsKeyedField(s, 'P', password.value, tail);
      ReadsHidden(s["P" := Unescape(Unquote(password.value))], hidden);
    } else {
      ReadsHidden(s, hidden);
    }
  }

  /** Accepted authentication tokens hold nothing the syntax could trip over. */
  lemma TokensArePlain(token: string)
    requires ParseAuth(token).Ok?
    ensures forall i :: 0 <= i < |token| ==> !Special(token[i])
  {
    var upper := ToAsciiUppercase(token);
    forall i | 0 <= i < |token| ensures !Special(token[i]) {
      assert upper[i] == UpperChar(token[i]);
      assert !Special(upper[i]);
    }
  }

  lemma TokenReadsBack(token: string)
    requires ParseAuth(token).Ok?
    ensures OneField(token) && Unescape(Unquote(token)) == token
  {
    TokensArePlain(token);
    PlainIsOneField(token);
    PlainUnescapes(token);
  }

  /** Parsing what was printed returns exactly what was printed, for every SSID of 1 to 32
      bytes, every accepted token, every password valid for it and either hidden flag. */
  lemma PrintedPayloadParsesBack(token: string, ssid: string, password: Option<string>, hidden: bool)
    requires ParseAuth(token).Ok? && ValidSsid(ssid) && ValidPassword(ParseAuth(token).value, password)
    ensures Parse(Payload(token, ssid, password, hidden)) == Ok(Expected(token, ssid, password, hidden))
  {
    TokenReadsBack(token);
    ValueReadsBack(ssid);
    if password.Some? {
      ValueReadsBack(password.value);
    }
    ReadsLayout(token, Escape(ssid), MapOption(password, Escape), hidden);
    ParsesLayout(token, Escape(ssid), MapOption(password, Escape), hidden, ssid, password);
  }

  /** The quoted legacy form parses to the same values. */
  lemma LegacyPayloadParsesIdentically(token: string, ssid: string, password: Option<string>, hidden: bool)
    requires ParseAuth(token).Ok? && ValidSsid(ssid) && ValidPassword(ParseAuth(token).value, password)
    ensures Parse(LegacyPayload(token, ssid, password, hidden)) == Parse(Payload(token, ssid, password, hidden))
  {
    PrintedPayloadParsesBack(token, ssid, password, hidden);
    TokenReadsBack(token);
    LegacyQuotesComeOff(ssid);
    UnescapeEscape(ssid);
    if password.Some? {
      LegacyQuotesComeOff(password.value);
      UnescapeEscape(password.value);
    }
    ReadsLayout(token, Quoted(ssid), MapOption(password, Quoted), hidden);
    ParsesLayout(token, Quoted(ssid), MapOption(password, Quoted), hidden, ssid, password);
  }

  function Expected(token: string, ssid: string, password: Option<string>, hidden: bool): Parsed
    requires ParseAuth(token).Ok? && ValidPassword(ParseAuth(token).value, password)
  {
    Parsed(ssid, ParseAuth(token).value, token, hidden, password,
           if ParseAuth(token).value == Wep then Some(WepKeyTypeFor(password.value)) else None)
  }

  lemma ValueReadsBack(value: string)
    ensures OneField(Escape(value)) && Unescape(Unquote(Escape(value))) == value
  {
    EscapedIsOneField(value);
    EscapedIsNotQuoted(value);
    UnescapeEscape(value);
  }

  lemma ParsesLayout(token: string, s: string, p: Option<string>, hidden: bool, ssid: string, password: Option<string>)
    requires ParseAuth(token).Ok? && ValidSsid(ssid) && ValidPassword(ParseAuth(token).value, password)
    requires Unescape(Unquote(token)) == token && Unescape(Unquote(s)) == ssid
    requires p.Some? <==> password.Some?
    requires p.Some? ==> Unescape(Unquote(p.value)) == password.value
    ensures FromFields(Read(token, s, p, hidden)) == Ok(Expected(token, ssid, password, hidden))
  {
    var fields := Read(token, s, p, hidden);
    assert ssid != "";
    assert "S" in fields && fields["S"] == ssid;
    assert "T" in fields && fields["T"] == token;
    assert Lookup(fields, "P") == password;
  }
}
