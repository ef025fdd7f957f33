/**
 Uncompressed DNS names and DNS-SD PTR records on the wire, following sections 2.3.4, 3.1,
 3.2.1 and 3.3.12 of RFC 1035 and section 4.1 of RFC 6763.
 */
module DnsNames {
  import opened Wrappers
  import opened Utf8

  type Label = seq<Byte>

  const DNS_TYPE_PTR: nat := 12
  const DNS_CLASS_IN: nat := 1
  const MDNS_DOMAIN := "local"

  // ------------------------------------------------------------------ names

  /** The wire form: each label behind its length, closed by a zero octet. */
  function EncodeName(labels: seq<Label>): (b: seq<Byte>)
    requires Sized(labels)
    ensures b != []
  {
    if labels == [] then [0] else [|labels[0]|] + labels[0] + EncodeName(labels[1..])
  }

  predicate Sized(labels: seq<Label>) {
    forall i :: 0 <= i < |labels| ==> 1 <= |labels[i]| <= 63
  }

  /** Reads a name from the front of `b`, of which `used` octets precede it. */
  function ParseName(b: seq<Byte>, used: nat): Option<(seq<Label>, nat)> {
    if b == [] then None
    else if b[0] == 0 then (if used + 1 <= 255 then Some(([], 1)) else None)
    else if b[0] > 63 || used + 1 + b[0] >= 255 || |b| < 1 + b[0] then None
    else Prepend(b[1..1 + b[0]], ParseName(b[1 + b[0]..], used + 1 + b[0]))
  }

  /** A parsed label in front of the rest. */
  function Prepend(first: Label, rest: Option<(seq<Label>, nat)>): Option<(seq<Label>, nat)> {
    match rest
    case None => None
    case Some((labels, k)) => Some(([first] + labels, 1 + |first| + k))
  }

  /** The outcome of a parse that has already read `labels` in `used` octets. */
  function Resume(labels: seq<Label>, used: nat, r: Option<(seq<Label>, nat)>): Option<(seq<Label>, nat)> {
    match r
    case None => None
    case Some((rest, k)) => Some((labels + rest, used + k))
  }

  /** A parse of the bytes from `start`, with its end as an offset into all the bytes. */
  function Moved(start: nat, r: Option<(seq<Label>, nat)>): Option<(seq<Label>, nat)> {
    match r
    case None => None
    case Some((labels, k)) => Some((labels, start + k))
  }

  lemma ResumeNothing(r: Option<(seq<Label>, nat)>)
    ensures Resume([], 0, r) == r
  {
    assert r.Some? ==> [] + r.value.0 == r.value.0;
  }

  /** The same parse, by offset into the bytes. */
  function ParseAt(bytes: seq<Byte>, at: nat, used: nat): Option<(seq<Label>, nat)>
    requires at <= |bytes|
    decreases |bytes| - at
  {
    if at == |bytes| then None
    else if bytes[at] == 0 then (if used + 1 <= 255 then Some(([], 1)) else None)
    else
      var length := 1 + (bytes[at] as int);
      if bytes[at] > 63 || used + length >= 255 || at + length > |bytes| then None
      else Prepend(bytes[at + 1..at + length], ParseAt(bytes, at + length, used + length))
  }

  lemma SliceOfRest(bytes: seq<Byte>, at: nat, length: nat)
    requires 1 <= length && at + length <= |bytes|
    ensures bytes[at..][1..length] == bytes[at + 1..at + length] && bytes[at..][length..] == bytes[at + length..]
  {
  }

  lemma {:induction false} ParseAtIsParseName(bytes: seq<Byte>, at: nat, used: nat)
    requires at <= |bytes|
    ensures ParseAt(bytes, at, used) == ParseName(bytes[at..], used)
    decreases |bytes| - at
  {
    if at < |bytes| && bytes[at] != 0 {
      var b := bytes[at..];
      var length := 1 + (bytes[at] as int);
      if bytes[at] <= 63 && used + length < 255 && at + length <= |bytes| {
        ParseAtIsParseName(bytes, at + length, used + length);
        SliceOfRest(bytes, at, length);
      }
    }
  }

  lemma ResumeOneLabel(labels: seq<Label>, bytes: seq<Byte>, at: nat, end: nat, used: nat)
    requires at < |bytes| && 0 < bytes[at] <= 63 && end == at + 1 + bytes[at] <= |bytes| && used + end - at < 255
    ensures Resume(labels, used, ParseAt(bytes, at, used)) ==
            Resume(labels + [bytes[at + 1..end]], used + end - at, ParseAt(bytes, end, used + end - at))
  {
    var rest := ParseAt(bytes, end, used + end - at);
    if rest.Some? {
      assert labels + ([bytes[at + 1..end]] + rest.value.0) == (labels + [bytes[at + 1..end]]) + rest.value.0;
    }
  }

  /** The decoding loop of the source. */
  method DnsLabels(bytes: seq<Byte>, start: nat) returns (r: Option<(seq<Label>, nat)>)
    requires start <= |bytes|
    ensures r == Moved(start, ParseAt(bytes, start, 0))
  {
    var offset := start;
    var labels: seq<Label> := [];
    ghost var parsed := ParseAt(bytes, start, 0);
    ResumeNothing(parsed);
    while true
      invariant start <= offset <= |bytes|
      invariant parsed == Resume(labels, offset - start, ParseAt(bytes, offset, offset - start))
      decreases |bytes| - offset
    {
      if offset >= |bytes| {
        return None;
      }
      var length := bytes[offset];
      offset := offset + 1;
      if length == 0 {
        assert labels + [] == labels;
        return if offset - start <= 255 then Some((labels, offset)) else None;
      }
      if length > 63 || offset - start + length >= 255 {
        return None;
      }
      var end := offset + length;
      if end > |bytes| {
        return None;
      }
      ResumeOneLabel(labels, bytes, offset - 1, end, offset - 1 - start);
      labels := labels + [bytes[offset..end]];
      offset := end;
    }
  }

  lemma PrefixSplits(b: seq<Byte>, n: nat, k: nat)
    requires 1 <= n && n + k <= |b|
    ensures b[..n + k] == [b[0]] + b[1..n] + b[n..][..k]
  {
  }

  /** Whatever is accepted is a well-formed name of at most 255 octets, read to its end. */
  lemma {:induction false} AcceptedIsEncoded(b: seq<Byte>, used: nat)
    requires ParseName(b, used).Some?
    ensures var (labels, k) := ParseName(b, used).value;
            Sized(labels) && k <= |b| && b[..k] == EncodeName(labels) && used + k <= 255
    decreases |b|
  {
    if b[0] != 0 {
      var n := 1 + b[0];
      AcceptedIsEncoded(b[n..], used + n);
      var (labels, k) := ParseName(b[n..], used + n).value;
      PrefixSplits(b, n, k);
      assert ([b[1..n]] + labels)[1..] == labels;
    }
  }

  /** Every well-formed name is accepted, and exactly its octets are consumed. */
  lemma {:induction false} EncodedIsAccepted(labels: seq<Label>, rest: seq<Byte>, used: nat)
    requires Sized(labels) && used + |EncodeName(labels)| <= 255
    ensures ParseName(EncodeName(labels) + rest, used) == Some((labels, |EncodeName(labels)|))
    decreases |labels|
  {
    var b := EncodeName(labels) + rest;
    if labels != [] {
      var n := 1 + |labels[0]|;
      var tail := EncodeName(labels[1..]);
      assert b[1..n] == labels[0];
      assert b[n..] == tail + rest;
      EncodedIsAccepted(labels[1..], rest, used + n);
      assert [labels[0]] + labels[1..] == labels;
    }
  }

  /** The decoder accepts exactly the uncompressed names of RFC 1035 and inverts the encoder. */
  lemma NameAcceptedIffWellFormed(b: seq<Byte>, labels: seq<Label>, k: nat)
    ensures ParseName(b, 0) == Some((labels, k)) <==>
              Sized(labels) && k == |EncodeName(labels)| <= 255 && k <= |b| && b[..k] == EncodeName(labels)
  {
    if ParseName(b, 0) == Some((labels, k)) {
      AcceptedIsEncoded(b, 0);
    }
    if Sized(labels) && k == |EncodeName(labels)| <= 255 && k <= |b| && b[..k] == EncodeName(labels) {
      EncodedIsAccepted(labels, b[k..], 0);
      assert EncodeName(labels) + b[k..] == b;
    }
  }

  // ------------------------------------------------------------------ service names

  function LowerByte(b: Byte): Byte {
    if 65 <= b <= 90 then b + 32 else b
  }

  predicate EqIgnoreAsciiCase(a: seq<Byte>, b: seq<Byte>) {
    |a| == |b| && forall i :: 0 <= i < |a| ==> LowerByte(a[i]) == LowerByte(b[i])
  }

  function SplitDots(name: string): (parts: seq<string>)
    ensures parts != []
  {
    if name == "" then [""]
    else var rest := SplitDots(name[1..]);
      if name[0] == '.' then [""] + rest else [[name[0]] + rest[0]] + rest[1..]
  }

  predicate LabelsMatch(labels: seq<Label>, name: string) {
    var parts := SplitDots(name);
    |labels| == |parts| && forall i :: 0 <= i < |labels| ==> EqIgnoreAsciiCase(labels[i], Encode(parts[i]))
  }

  // ------------------------------------------------------------------ PTR records

  function U16(b: seq<Byte>, offset: nat): nat
    requires offset + 2 <= |b|
  {
    (b[offset] as int) * 256 + b[offset + 1]
  }

  /** The ten fixed octets between the names: type, class, TTL and data length. */
  function Header(ttl: seq<Byte>, length: Byte): seq<Byte> {
    [0, DNS_TYPE_PTR, 0, DNS_CLASS_IN] + ttl + [0, length]
  }

  predicate IsHeader(h: seq<Byte>, length: nat) {
    |h| == 10 && U16(h, 0) == DNS_TYPE_PTR && U16(h, 2) == DNS_CLASS_IN && U16(h, 8) == length
  }

  lemma HeaderIffFields(h: seq<Byte>, ttl: seq<Byte>, length: Byte)
    requires |ttl| == 4
    ensures h == Header(ttl, length) <==> IsHeader(h, length) && h[4..8] == ttl
  {
    if IsHeader(h, length) && h[4..8] == ttl {
      assert h == [h[0], h[1], h[2], h[3]] + h[4..8] + [h[8], h[9]];
    }
  }

  /** The instance named by the record data: one label in front of the expected service. */
  function DataInstance(rdata: seq<Byte>, expected: string): Option<string> {
    match ParseName(rdata, 0)
    case None => None
    case Some((labels, k)) =>
      if k != |rdata| || labels == [] || !LabelsMatch(labels[1..], expected) then None else Decode(labels[0])
  }

  /** The rest of a record whose owner name ends at `at`. */
  function AfterOwner(record: seq<Byte>, at: nat, expected: string): Option<string> {
    if |record| < at + 10 || !IsHeader(record[at..at + 10], |record| - at - 10) then None
    else DataInstance(record[at + 10..], expected)
  }

  /** The instance label of a PTR record for the expected service, if the record is one. */
  function PtrInstance(record: seq<Byte>, expected: string): Option<string> {
    match ParseName(record, 0)
    case None => None
    case Some((owner, at)) => if LabelsMatch(owner, expected) then AfterOwner(record, at, expected) else None
  }

  method ReadData(record: seq<Byte>, offset: nat, expected: string) returns (r: Option<string>)
    requires offset <= |record|
    ensures r == DataInstance(record[offset..], expected)
  {
    var data := DnsLabels(record, offset);
    ParseAtIsParseName(record, offset, 0);
    if data.None? {
      return None;
    }
    var (labels, end) := data.value;
    assert [] + ParseName(record[offset..], 0).value.0 == labels;
    if end != |record| || labels == [] {
      return None;
    }
    if !LabelsMatch(labels[1..], expected) {
      return None;
    }
    r := Decode(labels[0]);
  }

  method ReadAfterOwner(record: seq<Byte>, at: nat, expected: string) returns (r: Option<string>)
    ensures r == AfterOwner(record, at, expected)
  {
    if |record| < at + 10 {
      return None;
    }
    var recordType := U16(record, at);
    var recordClass := U16(record, at + 2);
    var dataLength := U16(record, at + 8);
    var dataEnd := at + 10 + dataLength;
    ghost var head := record[at..at + 10];
    assert recordType == U16(head, 0) && recordClass == U16(head, 2) && dataLength == U16(head, 8);
    if recordType != DNS_TYPE_PTR || recordClass != DNS_CLASS_IN || dataEnd != |record| {
      return None;
    }
    r := ReadData(record, at + 10, expected);
  }

  /** The same, with the running offset of the source. */
  method ReadPtrInstance(record: seq<Byte>, serviceType: string, domain: string) returns (r: Option<string>)
    ensures r == PtrInstance(record, serviceType + "." + domain)
  {
    var expected := serviceType + "." + domain;
    assert record[0..] == record;
    var owner := DnsLabels(record, 0);
    ParseAtIsParseName(record, 0, 0);
    ResumeNothing(ParseName(record, 0));
    if owner.None? {
      return None;
    }
    if !LabelsMatch(owner.value.0, expected) {
      return None;
    }
    r := ReadAfterOwner(record, owner.value.1, expected);
  }

  /** Record data that names `instance` in front of the service labels `suffix`. */
  ghost predicate IsData(rdata: seq<Byte>, expected: string, instance: string, suffix: seq<Label>) {
    var labels := [Encode(instance)] + suffix;
    Sized(labels) && rdata == EncodeName(labels) && |rdata| <= 255 && LabelsMatch(suffix, expected)
  }

  /** A PTR record for `instance`: owner, fixed header, data, and nothing before or after. */
  ghost predicate IsPtrFor(record: seq<Byte>, expected: string, instance: string,
                           owner: seq<Label>, ttl: seq<Byte>, rdata: seq<Byte>, suffix: seq<Label>)
  {
    && Sized(owner) && |EncodeName(owner)| <= 255 && LabelsMatch(owner, expected)
    && |ttl| == 4 && IsData(rdata, expected, instance, suffix)
    && record == EncodeName(owner) + (Header(ttl, |rdata|) + rdata)
  }

  lemma DataAcceptedIffWellFormed(rdata: seq<Byte>, expected: string, instance: string)
    ensures DataInstance(rdata, expected) == Some(instance) <==>
              exists suffix :: IsData(rdata, expected, instance, suffix)
  {
    if DataInstance(rdata, expected) == Some(instance) {
      var (labels, k) := ParseName(rdata, 0).value;
      NameAcceptedIffWellFormed(rdata, labels, k);
      EncodeDecode(labels[0]);
      assert labels == [Encode(instance)] + labels[1..];
      assert rdata[..k] == rdata;
      assert IsData(rdata, expected, instance, labels[1..]);
    }
    if suffix :| IsData(rdata, expected, instance, suffix) {
      var labels := [Encode(instance)] + suffix;
      assert rdata[..|rdata|] == rdata;
      NameAcceptedIffWellFormed(rdata, labels, |rdata|);
      assert labels[1..] == suffix;
      DecodeEncode(instance);
    }
  }

  lemma HeaderSplits(record: seq<Byte>, at: nat, ttl: seq<Byte>, rdata: seq<Byte>)
    requires at <= |record| && |ttl| == 4 && |rdata| < 256
    ensures record[at..] == Header(ttl, |rdata|) + rdata <==>
              |record| >= at + 10 && IsHeader(record[at..at + 10], |rdata|) && record[at + 4..at + 8] == ttl
              && record[at + 10..] == rdata
  {
    var h := Header(ttl, |rdata|);
    if record[at..] == h + rdata {
      assert record[at..at + 10] == record[at..][..10] == h;
      assert record[at + 10..] == record[at..][10..];
      HeaderIffFields(h, ttl, |rdata|);
      assert record[at + 4..at + 8] == h[4..8];
    }
    if |record| >= at + 10 && IsHeader(record[at..at + 10], |rdata|) && record[at + 4..at + 8] == ttl
       && record[at + 10..] == rdata {
      assert record[at..at + 10][4..8] == ttl;
      HeaderIffFields(record[at..at + 10], ttl, |rdata|);
      assert record[at..] == record[at..at + 10] + record[at + 10..];
    }
  }

  /** Exactly the well-formed PTR records for the service are accepted, with the UTF-8 text of
      their instance label. */
  lemma PtrAcceptedIffWellFormed(record: seq<Byte>, expected: string, instance: string)
    ensures PtrInstance(record, expected) == Some(instance) <==>
              exists owner, ttl, rdata, suffix :: IsPtrFor(record, expected, instance, owner, ttl, rdata, suffix)
  {
    if PtrInstance(record, expected) == Some(instance) {
      AcceptedPtr(record, expected, instance);
    }
    forall owner, ttl, rdata, suffix | IsPtrFor(record, expected, instance, owner, ttl, rdata, suffix)
      ensures PtrInstance(record, expected) == Some(instance)
    {
      EncodedPtr(record, expected, instance, owner, ttl, rdata, suffix);
    }
  }

  lemma AcceptedAfterOwner(record: seq<Byte>, at: nat, expected: string, instance: string)
    requires at <= |record| && AfterOwner(record, at, expected) == Some(instance)
    ensures |record| >= at + 10
    ensures var ttl, rdata := record[at + 4..at + 8], record[at + 10..];
            && |rdata| < 256 && record[at..] == Header(ttl, |rdata|) + rdata
            && exists suffix :: IsData(rdata, expected, instance, suffix)
  {
    var ttl, rdata := record[at + 4..at + 8], record[at + 10..];
    DataAcceptedIffWellFormed(rdata, expected, instance);
    HeaderSplits(record, at, ttl, rdata);
  }

  lemma EncodedAfterOwner(record: seq<Byte>, at: nat, expected: string, instance: string,
                          ttl: seq<Byte>, rdata: seq<Byte>, suffix: seq<Label>)
    requires |ttl| == 4 && IsData(rdata, expected, instance, suffix)
    requires at <= |record| && record[at..] == Header(ttl, |rdata|) + rdata
    ensures AfterOwner(record, at, expected) == Some(instance)
  {
    HeaderSplits(record, at, ttl, rdata);
    DataAcceptedIffWellFormed(rdata, expected, instance);
  }

  lemma AcceptedPtr(record: seq<Byte>, expected: string, instance: string)
    requires PtrInstance(record, expected) == Some(instance)
    ensures exists owner, ttl, rdata, suffix :: IsPtrFor(record, expected, instance, owner, ttl, rdata, suffix)
  {
    var (owner, at) := ParseName(record, 0).value;
    NameAcceptedIffWellFormed(record, owner, at);
    AcceptedAfterOwner(record, at, expected, instance);
    var ttl, rdata := record[at + 4..at + 8], record[at + 10..];
    var suffix :| IsData(rdata, expected, instance, suffix);
    PtrFromParts(record, at, expected, instance, owner, ttl, rdata, suffix);
  }

  lemma PtrFromParts(record: seq<Byte>, at: nat, expected: string, instance: string,
                     owner: seq<Label>, ttl: seq<Byte>, rdata: seq<Byte>, suffix: seq<Label>)
    requires Sized(owner) && LabelsMatch(owner, expected) && |ttl| == 4 && IsData(rdata, expected, instance, suffix)
    requires at <= |record| && record[..at] == EncodeName(owner) && at <= 255
    requires record[at..] == Header(ttl, |rdata|) + rdata
    ensures IsPtrFor(record, expected, instance, owner, ttl, rdata, suffix)
  {
    assert record == record[..at] + record[at..];
  }

  lemma ConcatSplits(a: seq<Byte>, b: seq<Byte>)
    ensures (a + b)[..|a|] == a && (a + b)[|a|..] == b
  {
  }

  lemma EncodedPtr(record: seq<Byte>, expected: string, instance: string,
                   owner: seq<Label>, ttl: seq<Byte>, rdata: seq<Byte>, suffix: seq<Label>)
    requires IsPtrFor(record, expected, instance, owner, ttl, rdata, suffix)
    ensures PtrInstance(record, expected) == Some(instance)
  {
    var at := |EncodeName(owner)|;
    ConcatSplits(EncodeName(owner), Header(ttl, |rdata|) + rdata);
    NameAcceptedIffWellFormed(record, owner, at);
    EncodedAfterOwner(record, at, expected, instance, ttl, rdata, suffix);
  }
}
