/**
 Browsing: the instances named by a resolver's reply, without duplicates and up to a limit.
 */
module ServiceBrowse {
  import opened DnsNames
  import opened Utf8
  import opened Wrappers

  const MAX_DISCOVERY_INSTANCES: nat := 128

  const LIMIT_WARNING := "limited DNS-SD resolution to 128 instances"

  function LowerChar(c: char): char {
    if 'A' <= c <= 'Z' then c - 'A' + 'a' else c
  }

  function ToAsciiLowercase(s: string): string {
    seq(|s|, i requires 0 <= i < |s| => LowerChar(s[i]))
  }

  datatype Instance = Instance(interface: int, name: string) {
    function Identity(): (int, string) { (interface, ToAsciiLowercase(name)) }
  }

  function Identities(found: seq<Instance>): set<(int, string)> {
    set i | 0 <= i < |found| :: found[i].Identity()
  }

  /** The first instance of each identity, in order. */
  function Firsts(candidates: seq<Instance>): seq<Instance> {
    if candidates == [] then []
    else
      var before, last := candidates[..|candidates| - 1], candidates[|candidates| - 1];
      if last.Identity() in Identities(before) then Firsts(before) else Firsts(before) + [last]
  }

  /** A record of the resolver's reply, and the question it should answer. */
  datatype Record = Record(interface: int, class_: int, kind: int, bytes: seq<Byte>)

  datatype Query = Query(interfaceIndex: int, serviceType: string)

  /** A record from another interface or a malformed one is a warning; other kinds of record
      are skipped silently. */
  function BrowseInstance(record: Record, query: Query): Result<Option<Instance>, string> {
    if record.interface <= 0 || (query.interfaceIndex != 0 && record.interface != query.interfaceIndex) then
      Err("ignored a DNS-SD record from an unexpected interface")
    else if record.class_ != DNS_CLASS_IN || record.kind != DNS_TYPE_PTR then Ok(None)
    else match PtrInstance(record.bytes, query.serviceType + "." + MDNS_DOMAIN)
      case None => Err("ignored one malformed DNS-SD PTR record")
      case Some(name) => Ok(Some(Instance(record.interface, name)))
  }

  type Answer = Result<Option<Instance>, string>

  /** What each record of the reply amounts to. */
  function Answers(records: seq<Record>, query: Query): seq<Answer> {
    seq(|records|, k requires 0 <= k < |records| => BrowseInstance(records[k], query))
  }

  /** The instances and the warnings of the first `n` records. */
  function Decoded(answers: seq<Answer>, n: nat): seq<Instance>
    requires n <= |answers|
  {
    if n == 0 then []
    else match answers[n - 1]
      case Ok(Some(instance)) => Decoded(answers, n - 1) + [instance]
      case _ => Decoded(answers, n - 1)
  }

  function Warnings(answers: seq<Answer>, n: nat): seq<string>
    requires n <= |answers|
  {
    if n == 0 then []
    else match answers[n - 1]
      case Err(message) => Warnings(answers, n - 1) + [message]
      case _ => Warnings(answers, n - 1)
  }

  /** The first of each identity, in order, up to the limit. When one more identity exists,
      nothing after it is inspected or warned about. */
  ghost predicate Browsed(answers: seq<Answer>, kept: seq<Instance>, warnings: seq<string>, inspected: nat)
    requires inspected <= |answers|
  {
    var all := Firsts(Decoded(answers, |answers|));
    if |all| <= MAX_DISCOVERY_INSTANCES then
      kept == all && inspected == |answers| && warnings == Warnings(answers, inspected)
    else
      && kept == all[..MAX_DISCOVERY_INSTANCES]
      && warnings == Warnings(answers, inspected) + [LIMIT_WARNING]
      && inspected > 0 && |Firsts(Decoded(answers, inspected))| == MAX_DISCOVERY_INSTANCES + 1
      && Firsts(Decoded(answers, inspected - 1)) == kept
  }

  lemma {:induction false} StopsAtExcess(answers: seq<Answer>, kept: seq<Instance>, k: nat, c: Instance)
    requires k < |answers| && answers[k] == Ok(Some(c))
    requires kept == Firsts(Decoded(answers, k)) && |kept| == MAX_DISCOVERY_INSTANCES
    requires c.Identity() !in Identities(Decoded(answers, k))
    ensures Browsed(answers, kept, Warnings(answers, k + 1) + [LIMIT_WARNING], k + 1)
  {
    FirstsOneMore(Decoded(answers, k), c);
    FirstsOfMore(answers, k + 1, |answers|);
  }

  /** The source's lazy walk: `answers[k]` is what inspecting record `k` yields. */
  method KeepInstances(answers: seq<Answer>)
    returns (kept: seq<Instance>, warnings: seq<string>, inspected: nat)
    ensures inspected <= |answers| && Browsed(answers, kept, warnings, inspected)
  {
    kept, warnings := [], [];
    var seen: set<(int, string)> := {};
    for k := 0 to |answers|
      invariant kept == Firsts(Decoded(answers, k)) && |kept| <= MAX_DISCOVERY_INSTANCES
      invariant seen == Identities(Decoded(answers, k))
      invariant warnings == Warnings(answers, k)
    {
      match answers[k] {
        case Err(message) => warnings := warnings + [message];
        case Ok(None) =>
        case Ok(Some(c)) =>
          FirstsOneMore(Decoded(answers, k), c);
          if c.Identity() !in seen {
            if |kept| == MAX_DISCOVERY_INSTANCES {
              StopsAtExcess(answers, kept, k, c);
              return kept, warnings + [LIMIT_WARNING], k + 1;
            }
            seen := seen + {c.Identity()};
            kept := kept + [c];
          }
      }
    }
    inspected := |answers|;
  }

  method BrowseInstances(records: seq<Record>, query: Query)
    returns (kept: seq<Instance>, warnings: seq<string>, inspected: nat)
    ensures inspected <= |records| && Browsed(Answers(records, query), kept, warnings, inspected)
  {
    kept, warnings, inspected := KeepInstances(Answers(records, query));
  }

  lemma FirstsOneMore(found: seq<Instance>, c: Instance)
    ensures Firsts(found + [c]) == if c.Identity() in Identities(found) then Firsts(found) else Firsts(found) + [c]
    ensures Identities(found + [c]) == Identities(found) + {c.Identity()}
  {
    assert (found + [c])[..|found|] == found;
    IdentitiesAppend(found, c);
  }

  /** Reading on only adds instances at the end. */
  lemma {:induction false} FirstsOfMore(answers: seq<Answer>, k: nat, n: nat)
    requires k <= n <= |answers|
    ensures Firsts(Decoded(answers, k)) <= Firsts(Decoded(answers, n))
    decreases n
  {
    if k == n {
    } else {
      FirstsOfMore(answers, k, n - 1);
      if answers[n - 1].Ok? && answers[n - 1].value.Some? {
        FirstsOneMore(Decoded(answers, n - 1), answers[n - 1].value.value);
      }
    }
  }

  /** Nothing is lost and nothing is kept twice: the firsts are distinct, come from the
      candidates and cover every identity. */
  lemma {:induction false} FirstsAreDistinctAndComplete(candidates: seq<Instance>)
    ensures forall i, j :: 0 <= i < j < |Firsts(candidates)| ==>
              Firsts(candidates)[i].Identity() != Firsts(candidates)[j].Identity()
    ensures forall i :: 0 <= i < |Firsts(candidates)| ==> Firsts(candidates)[i] in candidates
    ensures Identities(Firsts(candidates)) == Identities(candidates)
  {
    if candidates == [] {
    } else {
      var before, last := candidates[..|candidates| - 1], candidates[|candidates| - 1];
      FirstsAreDistinctAndComplete(before);
      assert candidates == before + [last];
      IdentitiesAppend(before, last);
      IdentitiesAppend(Firsts(before), last);
      forall i | 0 <= i < |Firsts(before)| ensures Firsts(before)[i].Identity() in Identities(before) {
        assert Firsts(before)[i].Identity() in Identities(Firsts(before));
      }
    }
  }

  lemma IdentitiesAppend(found: seq<Instance>, c: Instance)
    ensures Identities(found + [c]) == Identities(found) + {c.Identity()}
  {
    var all := found + [c];
    assert all[|found|] == c;
    forall x | x in Identities(found) ensures x in Identities(all) {
      var i :| 0 <= i < |found| && found[i].Identity() == x;
      assert all[i] == found[i];
    }
  }
}
