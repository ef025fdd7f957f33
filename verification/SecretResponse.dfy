/**
 Filling a connection with the secrets a request asked for, from storage or from a frontend.
 */
module SecretResponse {
  import opened Credentials
  import opened Retention
  import opened Variants
  import opened Wrappers

  datatype Request = Request(setting: string, keys: seq<string>, policy: Policy)

  datatype Response = Response(cancelled: bool, save: bool, password: Option<string>, values: map<string, string>)

  /** The filled connection, and the values to be confirmed as stored if saving was asked for. */
  datatype Accepted = Accepted(connection: Settings, saving: Option<map<string, string>>)

  datatype ResponseError = UserCanceled | Rejected(reason: string) | NoRequestedValues | NotSupported | Incomplete

  function DefaultSecretKey(setting: string): string {
    match setting
    case "802-11-wireless-security" => "psk"
    case "wifi-p2p" => "wps-pin"
    case "wireguard" => "private-key"
    case _ => "password"
  }

  function PrimarySecretKey(request: Request): string {
    if request.keys != [] then request.keys[0] else DefaultSecretKey(request.setting)
  }

  predicate NonEmpty(text: Option<string>) {
    text.Some? && text.value != ""
  }

  predicate Present(request: Request, connection: Settings, key: string) {
    NonEmpty(ReadText(connection, request.setting, key))
  }

  predicate Complete(request: Request, connection: Settings) {
    forall k :: k in request.keys ==> Present(request, connection, k)
  }

  // ---- Stored values ----

  datatype Stored = Stored(key: string, password: string)

  /** What the stored values make of one secret: the first non-empty one fills an absent secret. */
  function Fill(text: Option<string>, stored: seq<Stored>, key: string): Option<string>
    decreases stored
  {
    if stored == [] then text
    else Fill(if stored[0].key == key && !NonEmpty(text) then Some(stored[0].password) else text, stored[1..], key)
  }

  lemma {:induction false} FillSnoc(text: Option<string>, stored: seq<Stored>, n: nat, key: string)
    requires n < |stored|
    ensures Fill(text, stored[..n + 1], key)
            == (var before := Fill(text, stored[..n], key);
                if stored[n].key == key && !NonEmpty(before) then Some(stored[n].password) else before)
    decreases n
  {
    if n > 0 {
      var next := if stored[0].key == key && !NonEmpty(text) then Some(stored[0].password) else text;
      FillSnoc(next, stored[1..], n - 1, key);
      assert stored[..n + 1][1..] == stored[1..][..n] && stored[..n][1..] == stored[1..][..n - 1];
    } else {
      assert stored[..1][1..] == [] && stored[..0] == [];
    }
  }

  /** Storage never replaces a secret that is there, and leaves one absent only if it has none. */
  lemma {:induction false} FillNeverOverwrites(text: Option<string>, stored: seq<Stored>, key: string)
    ensures NonEmpty(text) ==> Fill(text, stored, key) == text
    ensures NonEmpty(Fill(text, stored, key))
            <==> NonEmpty(text) || exists i :: 0 <= i < |stored| && stored[i].key == key && stored[i].password != ""
    decreases stored
  {
    if stored == [] {
    } else {
      var next := if stored[0].key == key && !NonEmpty(text) then Some(stored[0].password) else text;
      FillNeverOverwrites(next, stored[1..], key);
      assert forall i :: 1 <= i < |stored| ==> stored[i] == stored[1..][i - 1];
      if !NonEmpty(next) && NonEmpty(Fill(next, stored[1..], key)) {
        var i :| 0 <= i < |stored[1..]| && stored[1..][i].key == key && stored[1..][i].password != "";
        assert stored[i + 1].key == key;
      }
    }
  }

  /** The connection after the first `n` stored values. */
  ghost predicate Filled(request: Request, connection: Settings, stored: seq<Stored>, n: nat, now: Settings)
    requires n <= |stored|
  {
    && (forall k :: ReadText(now, request.setting, k) == Fill(ReadText(connection, request.setting, k), stored[..n], k))
    && (forall s, k :: s != request.setting ==> ReadText(now, s, k) == ReadText(connection, s, k))
    && (forall k :: Settable(now, request.setting, k) <==> Settable(connection, request.setting, k))
  }

  /** A stored value that can be neither applied nor skipped. */
  predicate Misplaced(request: Request, connection: Settings, secret: Stored) {
    !Settable(connection, request.setting, secret.key) && !Present(request, connection, secret.key)
  }

  predicate AllPlaced(request: Request, connection: Settings, stored: seq<Stored>, n: nat)
    requires n <= |stored|
  {
    forall i :: 0 <= i < n ==> !Misplaced(request, connection, stored[i])
  }

  lemma FillSkips(request: Request, connection: Settings, stored: seq<Stored>, n: nat, now: Settings)
    requires n < |stored| && Filled(request, connection, stored, n, now) && Present(request, now, stored[n].key)
    ensures Filled(request, connection, stored, n + 1, now)
  {
    forall k ensures ReadText(now, request.setting, k)
                     == Fill(ReadText(connection, request.setting, k), stored[..n + 1], k)
    {
      FillSnoc(ReadText(connection, request.setting, k), stored, n, k);
    }
  }

  lemma FillWrites(request: Request, connection: Settings, stored: seq<Stored>, n: nat, now: Settings)
    requires n < |stored| && Filled(request, connection, stored, n, now) && !Present(request, now, stored[n].key)
    requires SetText(now, request.setting, stored[n].key, stored[n].password).Ok?
    ensures Filled(request, connection, stored, n + 1,
                   SetText(now, request.setting, stored[n].key, stored[n].password).value)
  {
    SetTextStep(now, request.setting, stored[n].key, stored[n].password);
    var next := SetText(now, request.setting, stored[n].key, stored[n].password).value;
    forall k ensures ReadText(next, request.setting, k)
                     == Fill(ReadText(connection, request.setting, k), stored[..n + 1], k)
    {
      FillSnoc(ReadText(connection, request.setting, k), stored, n, k);
    }
  }

  /** A secret without a place is still absent as long as no earlier value was misplaced. */
  lemma {:induction false} FillNeedsPlace(request: Request, connection: Settings, stored: seq<Stored>, n: nat,
                                          key: string)
    requires n <= |stored| && !Settable(connection, request.setting, key)
    requires forall i :: 0 <= i < n ==> !Misplaced(request, connection, stored[i])
    ensures Fill(ReadText(connection, request.setting, key), stored[..n], key)
            == ReadText(connection, request.setting, key)
    decreases n
  {
    if n > 0 {
      FillSnoc(ReadText(connection, request.setting, key), stored, n - 1, key);
      FillNeedsPlace(request, connection, stored, n - 1, key);
    } else {
      assert stored[..0] == [];
    }
  }

  lemma FillingStarts(request: Request, connection: Settings, stored: seq<Stored>)
    ensures Filled(request, connection, stored, 0, connection)
  {
    assert stored[..0] == [];
  }

  /** No secret that was there is overwritten, and no other section is touched. */
  ghost predicate KeepsPresent(request: Request, connection: Settings, now: Settings) {
    forall s, k :: s != request.setting || Present(request, connection, k) ==>
      ReadText(now, s, k) == ReadText(connection, s, k)
  }

  /** What one stored value makes of the connection, if it has a place or none is needed. */
  function AfterStored(request: Request, now: Settings, secret: Stored): Option<Settings> {
    if Present(request, now, secret.key) then Some(now)
    else match SetText(now, request.setting, secret.key, secret.password)
      case Err(_) => None
      case Ok(next) => Some(next)
  }

  lemma StoredStep(request: Request, connection: Settings, stored: seq<Stored>, n: nat, now: Settings)
    requires n < |stored| && Filled(request, connection, stored, n, now)
    requires AllPlaced(request, connection, stored, n)
    ensures AfterStored(request, now, stored[n]).None? ==> !AllPlaced(request, connection, stored, |stored|)
    ensures AfterStored(request, now, stored[n]).Some? ==>
              && AllPlaced(request, connection, stored, n + 1)
              && Filled(request, connection, stored, n + 1, AfterStored(request, now, stored[n]).value)
  {
    var secret := stored[n];
    if !Settable(connection, request.setting, secret.key) {
      FillNeedsPlace(request, connection, stored, n, secret.key);
    }
    SetTextSucceedsIffSettable(now, request.setting, secret.key, secret.password);
    FilledKeepsPresent(request, connection, stored, n, now);
    if Present(request, now, secret.key) {
      FillSkips(request, connection, stored, n, now);
    } else if SetText(now, request.setting, secret.key, secret.password).Ok? {
      FillWrites(request, connection, stored, n, now);
    }
  }

  /** Applies stored values one after the other. It fails exactly when a value has no place. */
  method ApplyStoredValues(request: Request, connection: Settings, stored: seq<Stored>)
    returns (now: Settings, r: Result<bool, ResponseError>)
    ensures r.Ok? ==> r.value == Complete(request, now) && Filled(request, connection, stored, |stored|, now)
    ensures r.Ok? <==> AllPlaced(request, connection, stored, |stored|)
    ensures KeepsPresent(request, connection, now)
  {
    now := connection;
    FillingStarts(request, connection, stored);
    for n := 0 to |stored|
      invariant Filled(request, connection, stored, n, now) && AllPlaced(request, connection, stored, n)
    {
      StoredStep(request, connection, stored, n, now);
      var next := AfterStored(request, now, stored[n]);
      if next.None? {
        FilledKeepsPresent(request, connection, stored, n, now);
        return now, Err(NotSupported);
      }
      now := next.value;
    }
    FilledKeepsPresent(request, connection, stored, |stored|, now);
    r := Ok(Complete(request, now));
  }

  lemma FilledKeepsPresent(request: Request, connection: Settings, stored: seq<Stored>, n: nat, now: Settings)
    requires n <= |stored| && Filled(request, connection, stored, n, now)
    ensures KeepsPresent(request, connection, now)
  {
    forall k | Present(request, connection, k)
      ensures ReadText(now, request.setting, k) == ReadText(connection, request.setting, k)
    {
      FillNeverOverwrites(ReadText(connection, request.setting, k), stored[..n], k);
    }
  }

  /** Everything one write does, quantified. */
  lemma SetTextStep(settings: Settings, section: string, key: string, value: string)
    requires SetText(settings, section, key, value).Ok?
    ensures var after := SetText(settings, section, key, value).value;
            && ReadText(after, section, key) == Some(value)
            && (forall s, k :: s != section || k != key ==> ReadText(after, s, k) == ReadText(settings, s, k))
            && (forall k :: Settable(after, section, k) <==> Settable(settings, section, k))
  {
    SetTextReadsBack(settings, section, key, value);
    forall s, k | s != section || k != key
      ensures ReadText(SetText(settings, section, key, value).value, s, k) == ReadText(settings, s, k)
    {
      SetTextFrame(settings, section, key, value, s, k);
    }
    forall k
      ensures Settable(SetText(settings, section, key, value).value, section, k) <==> Settable(settings, section, k)
    {
      SetTextKeepsSettable(settings, section, key, value, k);
    }
  }

  // ---- Frontend responses ----

  /** The non-empty values given for requested keys; a bare password stands for the primary key. */
  function Supplied(request: Request, response: Response): map<string, string> {
    var primary := PrimarySecretKey(request);
    var values :=
      if NonEmpty(response.password) && primary !in response.values
      then response.values[primary := response.password.value] else response.values;
    map k | k in values && k in request.keys && values[k] != "" :: values[k]
  }

  /** The connection after the supplied values were written, whatever their order. */
  ghost predicate Answered(request: Request, connection: Settings, supplied: map<string, string>, now: Settings) {
    forall s, k :: ReadText(now, s, k)
                   == if s == request.setting && k in supplied then Some(supplied[k]) else ReadText(connection, s, k)
  }

  /** Writes the values in any order; fails exactly when one of them has no place. */
  method ApplyResponseValues(request: Request, connection: Settings, supplied: map<string, string>)
    returns (now: Settings, ok: bool)
    ensures ok ==> Answered(request, connection, supplied, now)
    ensures ok <==> forall k :: k in supplied ==> Settable(connection, request.setting, k)
  {
    now := connection;
    var todo := supplied.Keys;
    while todo != {}
      invariant todo <= supplied.Keys
      invariant forall s, k :: ReadText(now, s, k)
                  == if s == request.setting && k in supplied && k !in todo then Some(supplied[k])
                     else ReadText(connection, s, k)
      invariant forall k :: Settable(now, request.setting, k) <==> Settable(connection, request.setting, k)
      invariant forall k :: k in supplied && k !in todo ==> Settable(connection, request.setting, k)
      decreases |todo|
    {
      var k :| k in todo;
      SetTextSucceedsIffSettable(now, request.setting, k, supplied[k]);
      var next := SetText(now, request.setting, k, supplied[k]);
      if next.Err? {
        return now, false;
      }
      SetTextStep(now, request.setting, k, supplied[k]);
      now := next.value;
      todo := todo - {k};
    }
    ok := true;
  }

  /** The whole answer, with every way it is refused. */
  method ApplySecretResponse(request: Request, connection: Settings, response: Response)
    returns (r: Result<Accepted, ResponseError>)
    ensures r.Ok? <==>
              && !response.cancelled
              && Rejection(request.policy, response.save).None?
              && Supplied(request, response) != map[]
              && (forall k :: k in Supplied(request, response) ==> Settable(connection, request.setting, k))
              && (forall k :: k in request.keys ==> k in Supplied(request, response) || Present(request, connection, k))
    ensures r.Ok? ==> Complete(request, r.value.connection)
                      && Answered(request, connection, Supplied(request, response), r.value.connection)
    ensures r.Ok? ==> r.value.saving.Some? == response.save
    ensures r.Ok? && response.save ==>
              && !request.policy.migrationRequired
              && r.value.saving.value.Keys == request.policy.persistent * Supplied(request, response).Keys
              && forall k :: k in r.value.saving.value ==> r.value.saving.value[k] == Supplied(request, response)[k]
    ensures r.Ok? && !response.save ==> request.policy.persistent == {}
    ensures r.Err? ==> r.error == Refusal(request, connection, response)
  {
    if response.cancelled {
      return Err(UserCanceled);
    }
    var rejection := Rejection(request.policy, response.save);
    if rejection.Some? {
      return Err(Rejected(rejection.value));
    }
    var supplied := Supplied(request, response);
    if supplied == map[] {
      return Err(NoRequestedValues);
    }
    SuppliedIsRequested(request, response);
    var now, ok := ApplyResponseValues(request, connection, supplied);
    if !ok {
      return Err(NotSupported);
    }
    forall k | k in request.keys
      ensures Present(request, now, k) <==> k in supplied || Present(request, connection, k)
    {
      assert ReadText(now, request.setting, k)
          == if k in supplied then Some(supplied[k]) else ReadText(connection, request.setting, k);
    }
    if !(forall k :: k in request.keys ==> Present(request, now, k)) {
      return Err(Incomplete);
    }
    var saved := map k | k in supplied && k in request.policy.persistent :: supplied[k];
    r := Ok(Accepted(now, if response.save then Some(saved) else None));
  }

  /** Why an answer is refused: the first of these that applies. */
  ghost function Refusal(request: Request, connection: Settings, response: Response): ResponseError {
    if response.cancelled then UserCanceled
    else if Rejection(request.policy, response.save).Some? then Rejected(Rejection(request.policy, response.save).value)
    else if Supplied(request, response) == map[] then NoRequestedValues
    else if exists k :: k in Supplied(request, response) && !Settable(connection, request.setting, k) then NotSupported
    else Incomplete
  }

  lemma SuppliedIsRequested(request: Request, response: Response)
    ensures forall k :: k in Supplied(request, response) ==> k in request.keys && Supplied(request, response)[k] != ""
  {
  }

  /** After an accepted answer: every requested secret is there, those left blank keep their old
      value, and nothing outside the requested secrets changed. */
  lemma AcceptedAnswer(request: Request, connection: Settings, response: Response, now: Settings, s: string, k: string)
    requires Answered(request, connection, Supplied(request, response), now)
    ensures s != request.setting || k !in request.keys ==> ReadText(now, s, k) == ReadText(connection, s, k)
    ensures s == request.setting && k in response.values && response.values[k] == ""
            ==> ReadText(now, s, k) == ReadText(connection, s, k)
    ensures s == request.setting && k in request.keys && k in response.values && response.values[k] != ""
            ==> ReadText(now, s, k) == Some(response.values[k])
    ensures s == request.setting && k !in response.values && k != PrimarySecretKey(request)
            ==> ReadText(now, s, k) == ReadText(connection, s, k)
  {
    assert ReadText(now, s, k)
        == if s == request.setting && k in Supplied(request, response) then Some(Supplied(request, response)[k])
           else ReadText(connection, s, k);
  }
}
