# nm-daemon in Dafny

nm-daemon adapts NetworkManager for desktop frontends: it runs connection requests that can be
cancelled, answers NetworkManager's requests for secrets, exports and reads Wi-Fi QR codes,
browses DNS-SD services, groups access points, keeps a rotated history and drives a small
firewall for Cast discovery. This project models the parts of it with the most state, branching
or arithmetic and proves what the design promises of them.

Three kinds of results are proved.

- **Whole runs.** The operation registry, the secret registry and the activation scopes are state
  machines whose steps are the locked regions of the threads. The theorems quantify over every
  run: a request whose activation was aborted never has a recorded success, a superseded secret
  request never prompts or delivers, a dead activation scope never lives again.
- **Refinement of loops and classes.** Code that updates state in place is a class or a method
  with loops. Each method is tied to a value-level function or to a declarative rule, and the rule
  is what the theorems are about: the incremental failure detector against a rule over the whole
  history of observations, the rotation of files against a suffix of the log, the merge of secrets
  against a field-by-field definition that no iteration order can influence.
- **Codecs and schemas.** Round trips and exact acceptance conditions for QR payloads, DNS names,
  PTR records and network keys; read-back and frame laws for secrets in nested settings.

Four promises turned out to hold only under a condition. Each has a lemma with a failing input
and a lemma that the condition is exact.

- A cancellation by NetworkManager, a newer lookup of the same key, a deletion of the connection or
  a change of the bus owner stops the reply of a secret request if and only if the request still
  holds its in-flight guard (or the new owner is not the request's). The guard is released before
  the last delivery check (`src/daemon_secret.rs:189-206`), so whatever comes in between is lost
  (`SecretRuns.SupersedingStopsReplyIffGuardHeld`, `SecretRuns.CancelInReplyWindowIsLost`).
- A retention choice that the policy refuses is not delivered, unless its prompt was registered
  after the policy check. Check and delivery are two locked regions
  (`src/daemon_secret.rs:534-550`), and a call got past the check if and only if the owner was not
  listed then (`SecretRuns.RefusedChoicePassesIffPromptIsNewer`,
  `SecretRuns.RefusedChoiceCanBeDelivered`). The worker that receives it refuses it again
  (`SecretResponse.ApplySecretResponse`).
- Merging secrets keeps the public settings if and only if it does not add an empty `peers` array
  to a WireGuard section that had none (`PublicPolicy.MergeChangesPublicIff`,
  `PublicPolicy.MergeCanAddPeers`).
- Decoding a network key and printing the SSID again returns the key's digits if and only if they
  are lower-case hexadecimal: signs and upper case are accepted too
  (`NetworkKeys.CanonicalIffLowerHex`, `NetworkKeys.SignedKeyIsAccepted`).

## Layout

| files | content |
|---|---|
| `Wrappers`, `Utf8`, `Variants` | shared result types, UTF-8, D-Bus values |
| `Runtime`, `RuntimeRuns`, `Portal` | operation registry, its runs, the portal policy that consumes its proof |
| `Retention` | the policy on saving credentials |
| `SecretRegistry`, `SecretRuns` | pending and in-flight secret requests, their runs |
| `Activation` | activation scopes and their guards |
| `ConnectWait`, `ConnectionMachine`, `ConnectWorker` | waiting for an activation, connecting to one candidate, the worker around it |
| `WorkerRuns` | connect workers inside the runs of the registry |
| `Credentials`, `CredentialFlags`, `PublicPolicy`, `SecretResponse` | the secret schema, flags, public snapshot and merge, answers to requests |
| `WifiQr`, `DnsNames`, `NetworkKeys` | codecs and identities |
| `ServiceBrowse` | the instances named by a reply of the resolver |
| `History` | the rotated history |
| `CastPolicy` | the Cast firewall service |

What the code reads from outside (clocks, NetworkManager, D-Bus delivery, file-system failures) is
a parameter of the model: a reading, an oracle, a time or a failure flag that may have any value.

## Model

| member | source | states |
|---|---|---|
| `Runtime.DaemonRuntime.Register` | src/daemon_runtime.rs:130-161 | a registration gets a cancellation flag that is not raised and that no task carries, and replaces nothing but its own id |
| `Runtime.DaemonRuntime.DropTask` | src/daemon_runtime.rs:163-178 | a dropped registration removes the task only while the task still carries its flag |
| `Runtime.DaemonRuntime.StoreTerminalResult` | src/daemon_runtime.rs:271-331 | the locked region refines `StoreTerminal`: an owned result is returned unchanged, a closed task stores nothing, a success that lost against cancellation is recorded as cancelled, the revision saturates |
| `Runtime.DaemonRuntime.StoreConnectProgress` | src/daemon_runtime.rs:368-394 | progress is stored only for the owner's open connect and carries the next revision |
| `Runtime.DaemonRuntime.CancelTask` | src/daemon_runtime.rs:682-692 | the owner claims exactly its own open task that has no result; only that flag is raised |
| `Runtime.DaemonRuntime.ExpireConnect` | src/daemon_runtime.rs:396-417 | the deadline claims exactly an open connect without a result, marks it timed out and raises its flag |
| `Runtime.DaemonRuntime.CancelTasksForOwner` | src/daemon_runtime.rs:755-768 | losing an owner claims exactly its open tasks without a result |
| `Runtime.DaemonRuntime.NetworkManagerOwnerChanged` | src/daemon_runtime.rs:257-269 | exactly the flags of tasks started under another NetworkManager owner are raised |
| `Runtime.DaemonRuntime.CancelConnectsForSsid` | src/daemon_runtime.rs:595-623 | exactly the connects to that SSID are raised and returned |
| `Runtime.DaemonRuntime.Shutdown` | src/daemon_runtime.rs:419-439 | every registered task is raised |
| `RuntimeRuns.StepIsGood` | src/daemon_runtime.rs:257-417 | every locked region keeps the invariant and moves every issued request only forward |
| `RuntimeRuns.DoomedForGood` | src/daemon_runtime.rs:271-331 | a connect whose flag rose before completion never gets a recorded success later in the run |
| `RuntimeRuns.TerminalIsImmutable` | src/daemon_runtime.rs:271-331 | a recorded terminal event is the same at every later point, under any eviction |
| `RuntimeRuns.PublishedTerminalStays` | src/daemon_connect.rs:228-269 | after a worker publishes a terminal, exactly one is recorded for its request, the first one, for the rest of the run |
| `RuntimeRuns.NewTaskIsUncancelled` | src/daemon_runtime.rs:130-161 | in every run a new task starts uncancelled and shares its flag with no other task |
| `WorkerRuns.OneTerminalStep` | src/daemon_connect.rs:228-269 | a worker whose events end once takes exactly one terminal step, under the name of its last event |
| `WorkerRuns.PublishRecordsName` | src/daemon_runtime.rs:271-331 | the first terminal step records its event, a success that comes after the flag rose as a cancellation |
| `WorkerRuns.ReturningWorkerLeavesOneTerminal` | src/daemon_connect.rs:156-190 | in every interleaving a returning connect worker leaves exactly one terminal recorded: its own, or a cancellation if its success came too late; it stays for the rest of the run |
| `RuntimeRuns.AbortExcludesSuccess` | src/daemon_runtime.rs:694-706 | no request has a queued activation abort at one point of a run and a recorded success at another |
| `RuntimeRuns.CancelledBeforeCompletionNeverSucceeds` | src/daemon_runtime.rs:675-706 | a connect cancelled while open ends without success in every continuation |
| `RuntimeRuns.ObservationsAreOrdered` | src/daemon_runtime.rs:333-360 | an owner's status observations are running, then finished, then unknown; revisions never decrease and the terminal never changes |
| `RuntimeRuns.ReportsAreConsistent` | src/daemon_runtime.rs:108-122 | each reported event carries exactly the reported revision and belongs to the asking owner |
| `RuntimeRuns.ForeignCancelChangesNothing` | src/daemon_runtime.rs:682-692 | a foreign owner sees unknown and its cancellation changes nothing |
| `RuntimeRuns.ForeignOwnerLossSparesTask` | src/daemon_runtime.rs:755-768 | losing another owner leaves a task, its flag and its claim as they were |
| `Portal.ProvenTaskIsConnect` | src/portal.rs:94-117 | a finished Wi-Fi proof can only stem from a connect task |
| `Portal.AutomaticLaunchNeedsUncancelledConnect` | src/portal.rs:94-117 | an automatic portal launch is granted only to the owner of a connect that succeeded on the current primary connection, was never aborted and was not cancelled while open |
| `SecretRegistry.KeyPathOfKey` | src/daemon_secret.rs:943-945 | the connection path is recovered from every request key |
| `SecretRegistry.PathKeys` | src/daemon_secret.rs:1045-1063 | the keys of a connection's prompts select exactly its prompts and none but its flags |
| `SecretRegistry.PendingRegistry.RemoveByKey` | src/daemon_secret.rs:1065-1071 | removes exactly the prompt with that key, whatever the map order |
| `SecretRegistry.PendingRegistry.CancelByKey` | src/daemon_secret.rs:1038-1043 | raises the in-flight flag of the key and removes its prompt |
| `SecretRegistry.PendingRegistry.CancelKeys` | src/daemon_secret.rs:1045-1063 | cancelling keys one by one equals retiring all their flags and prompts at once |
| `SecretRegistry.PendingRegistry.CancelConnection` | src/daemon_secret.rs:1045-1063 | raises every flag and removes every prompt of the connection, and no other |
| `SecretRegistry.PendingRegistry.ChangeNetworkManagerOwner` | src/daemon_secret.rs:118-138 | an owner change raises every in-flight flag and empties the registry |
| `SecretRegistry.PendingRegistry.EnterInflight` | src/daemon_secret.rs:645-666 | entering under the current owner cancels the predecessor of the key and returns exactly its prompt; under another owner nothing changes |
| `SecretRegistry.PendingRegistry.LeaveInflight` | src/daemon_secret.rs:668-680 | a guard removes the in-flight entry only while it is its own |
| `SecretRegistry.PendingRegistry.RegisterPending` | src/daemon_secret.rs:586-621 | a prompt is registered exactly for a live, unraised request of the current owner; exactly the prompt it displaces is returned |
| `SecretRegistry.PendingRegistry.RemoveForOwner` | src/daemon_secret.rs:1022-1036 | only a listed owner takes a prompt out; the sender is handed over only while the request is live |
| `SecretRuns.StepKeepsInv` | src/daemon_secret.rs:586-680 | every step keeps: a live guard's request is registered under its key or already raised |
| `SecretRuns.SupersededIsRaised` | src/daemon_secret.rs:640-666 | after a cancel, a same-key replacement or an owner change every earlier request is raised |
| `SecretRuns.SupersededNeverActs` | src/daemon_secret.rs:428-446 | a raised request never again registers a prompt or passes the delivery check, in any continuation |
| `SecretRuns.StaleGuardSparesSuccessor` | src/daemon_secret.rs:668-680 | dropping an old guard leaves the successor registered |
| `SecretRuns.OnePromptPerKey` | src/daemon_secret.rs:996-1016 | at most one prompt per key in every reachable state |
| `SecretRuns.PromptDisplacesNobody` | src/daemon_secret.rs:586-608 | a request that may register its prompt finds no prompt under its key |
| `SecretRuns.AtMostOneResponse` | src/daemon_secret.rs:533-560 | every prompt's sender is used at most once in a run |
| `SecretRegistry.PendingRegistry.VetChoice` | src/daemon_secret.rs:534-544 | the policy check refuses only a listed owner of a live request and changes nothing |
| `SecretRuns.VettingOnlyLooks` | src/daemon_secret.rs:534-549 | the check changes no prompt and answers nobody; a call goes on exactly when it cancels or its choice is not refused |
| `SecretRuns.ProvideDeliversIffListedAndLive` | src/daemon_secret.rs:550-560 | a call past the check delivers exactly for a listed owner of a live request; a listed owner uses the prompt up, anyone else changes nothing |
| `SecretRuns.UninterruptedCall` | src/daemon_secret.rs:533-560 | without interruption a response is delivered if and only if the owner is listed, the request live and the choice not refused, and the prompt is used up if and only if the owner is listed and the choice not refused |
| `SecretRuns.RefusedChoicePassesIffPromptIsNewer` | src/daemon_secret.rs:533-560 | a refused choice gets past the check and can reach a live prompt if and only if the owner was not listed for it at the check |
| `SecretRuns.RefusedChoiceCanBeDelivered` | src/daemon_secret.rs:533-560 | a run in which a refused choice is delivered because its prompt came between check and delivery |
| `SecretRuns.RequestedNeverFollowsCancelled` | src/daemon_secret.rs:362-414 | on the event stream no "requested" follows a "cancelled" of the same id |
| `SecretRuns.SupersedingStopsReplyIffGuardHeld` | src/daemon_secret.rs:189-206 | a cancel, a newer lookup, a deletion or an owner change makes a deliverable request undeliverable if and only if its guard is still held or the new owner is another one |
| `SecretRuns.CancelInReplyWindowIsLost` | src/daemon_secret.rs:189-206 | a reachable state in which the cancel changes nothing and the reply is still delivered |
| `Activation.State.StopWith` | src/activation.rs:84-91 | only the first stop reason is kept and only it wakes |
| `Activation.State.Error` | src/activation.rs:92-118 | the verifier's check refines `CheckBudget` |
| `Activation.State.ActivationError` | src/activation.rs:67-79 | an earlier stop reason is kept; otherwise a missing frontend is blamed exactly when secrets were missing |
| `Activation.State.NoteFrontendAvailability` | src/activation.rs:64-66 | the mark makes a later failure for want of secrets blame the frontend exactly while none is available and nothing stopped the scope before |
| `Activation.State.TrackCredentials` | src/activation.rs:80-83 | the counter keeps equal to the number of credential guards handed out |
| `Activation.State.ReleaseCredentials` | src/activation.rs:121-127 | while a guard exists its drop counts down by exactly one, so the machine word never wraps |
| `Activation.ReleaseNeverWraps` | src/activation.rs:121-127 | in every run a credential guard is dropped only at a positive counter, which falls by one |
| `Activation.PruneKeepsEverything` | src/activation.rs:133-163 | pruning dead weak references never removes an entry in a reachable state |
| `Activation.FindReturnsNewestUndropped` | src/activation.rs:190-197 | `find` returns exactly the most recently created guard of the key while it is undropped; an older one never shows through |
| `Activation.DeadForGood` | src/activation.rs:49-58 | a dead scope stays dead and its first stop reason is permanent |
| `Activation.WakesOnceAndCountsCredentials` | src/activation.rs:80-127 | one wake if and only if there is a stop reason; the counter equals the live credential guards |
| `Activation.VerifierEnforcesBudget` | src/activation.rs:92-118 | a live scope with outstanding credentials is stopped by the next check exactly past its budget or when no frontend can answer |
| `ConnectWait.MemoryMatchesHistory` | src/connect_wait.rs:128-190 | after any history the detector's memory is the start and report of the current stretch of bad observations |
| `ConnectWait.FailsExactlyByTheRule` | src/connect_wait.rs:128-190 | the detector fails with a status if and only if the current stretch began at least the grace period ago, and with the status the rule reports |
| `ConnectWait.SilenceIsInvisible` | src/connect_wait.rs:128-161 | an observation without a status never fails, leaves every later verdict and memory as without it, and causes no zero-length wait |
| `ConnectWait.NeverOversleeps` | src/connect_wait.rs:192-206 | a wake-up is at most the time to the deadline and to the end of an unexpired grace period |
| `ConnectWait.ZeroWaitMeansExpiredGrace` | src/connect_wait.rs:192-206 | before the deadline a wait has length zero exactly with a current status and an expired grace period |
| `ConnectWait.NoTwoZeroWaits` | src/connect_wait.rs:54-88 | the observation after a zero-length wait ends the loop or leads to a real wait |
| `ConnectWait.ActivationWait.CheckTerminalFailure` | src/connect_wait.rs:163-190 | the latched failure and the verdict of `Observe` |
| `ConnectWait.ActivationWait.Poll` | src/connect_wait.rs:128-161 | one poll refines `Observe` |
| `ConnectWait.ActivationWait.NextWakeUp` | src/connect_wait.rs:192-206 | the computed wait is `NextWake` of the memory |
| `ConnectWait.ActivationWait.CheckRound` | src/connect_wait.rs:56-80 | cancellation, scope, deadline, an unreadable status and the verdict end a round in this order; a scope with its own reason replaces a failure |
| `ConnectWait.ActivationWait.WaitForActive` | src/connect_wait.rs:54-88 | the loop stops at the first round that ends it; every earlier round waited exactly its computed time |
| `ConnectWait.LoopFailsExactlyByTheRule` | src/connect_wait.rs:54-88 | the loop ends with a failure status if and only if the rule fires on all observations made so far and the scope has no reason of its own |
| `ConnectWait.LoopNeverOversleepsNorSpins` | src/connect_wait.rs:54-88 | under a monotone clock no wait passes the deadline and no two consecutive waits before it have length zero |
| `ConnectionMachine.Machine.CreateNewProfile` | src/connect.rs:202-250 | the created profile becomes owned; without one, a rescan follows exactly the first time and only for a target that is neither hidden nor visible |
| `ConnectionMachine.Machine.RescanOnce` | src/connect.rs:252-265 | the single rescan leads back to the saved profiles |
| `ConnectionMachine.Machine.VerifyActivation` | src/connect.rs:298-321 | success releases ownership of the created profile, failure keeps it |
| `ConnectionMachine.Machine.Step` | src/connect.rs:153-161 | every step follows an edge, lowers the rank and keeps rollback ownership |
| `ConnectionMachine.Machine.RunStates` | src/connect.rs:138-151 | at most seven states, at most one rescan and one created profile; which cancellation or progress failure ends the run; the profile is still owned exactly when it is unverified |
| `ConnectionMachine.Machine.CleanupCreatedConnection` | src/connect.rs:323-332 | deletes exactly the owned profile |
| `ConnectionMachine.Machine.Run` | src/connect.rs:116-136 | whatever strikes before verification, exactly the created profile is deleted; verified and saved profiles never are |
| `ConnectWorker.Worker.Emit` | src/daemon_connect.rs:228-269 | an event is handed over in order; handing over a terminal never fails, a progress event may fail to be delivered |
| `ConnectWorker.Worker.TryCandidate` | src/application.rs:389-420 | one more candidate is tried, or none if its announcement was not delivered; cancellation wins over the result |
| `ConnectWorker.Worker.ConnectInner` | src/application.rs:371-441 | an outcome is published as the last event and lists the failed candidates' reasons in order; a second candidate is tried if and only if the first failed retryably without a credential outcome and an alternative exists |
| `ConnectWorker.Worker.Run` | src/daemon_connect.rs:156-190 | wherever a delivery fails, exactly one terminal event is published, and it is the last; `ReturningWorkerLeavesOneTerminal` says what the registry makes of it |
| `Utf8.DecodeEncode` | src/variant.rs:92-94 | UTF-8 decoding inverts encoding |
| `Utf8.EncodeDecode` | src/variant.rs:92-94 | whatever decodes is exactly the encoding of its text |
| `WifiQr.SplitFields` | src/qr.rs:154-174 | the splitting loop computes `ReadFields` |
| `WifiQr.DecodeEscapes` | src/qr.rs:199-211 | the decoding loop computes `Unescape` |
| `WifiQr.UnescapeEscape` | src/qr.rs:63-72 | decoding inverts escaping for every text |
| `WifiQr.ParityOfBackslashes` | src/qr.rs:189-197 | whether a text ends inside an escape is the parity of its trailing backslashes, so the quote check by counting agrees with the scanner |
| `WifiQr.LegacyQuotesComeOff` | src/qr.rs:189-197 | quotes around an escaped value are always removed |
| `WifiQr.PrintedPayloadParsesBack` | src/qr.rs:18-35 | every SSID of 1 to 32 bytes with a valid password and either hidden flag is parsed back exactly |
| `WifiQr.LegacyPayloadParsesIdentically` | src/qr.rs:117-211 | the legacy quoted form parses to the same result |
| `DnsNames.DnsLabels` | src/discovery.rs:439-455 | the decoding loop computes the recursive parser at its offset |
| `DnsNames.ParseAtIsParseName` | src/discovery.rs:439-455 | parsing at an offset equals parsing the remaining bytes |
| `DnsNames.NameAcceptedIffWellFormed` | src/discovery.rs:439-455 | accepted if and only if the bytes start with the encoding of labels of 1 to 63 octets, at most 255 in all; exactly those octets are consumed |
| `DnsNames.DataAcceptedIffWellFormed` | src/discovery.rs:420-429 | record data is accepted if and only if it is exactly an instance label in UTF-8 followed by the service name |
| `DnsNames.PtrAcceptedIffWellFormed` | src/discovery.rs:405-429 | a record is accepted if and only if it is a well-formed PTR record for the service without trailing bytes |
| `DnsNames.ReadData` | src/discovery.rs:420-429 | reading the data refines the specification |
| `DnsNames.ReadPtrInstance` | src/discovery.rs:405-429 | reading a record with a moving offset refines `PtrInstance` |
| `ServiceBrowse.KeepInstances` | src/discovery.rs:269-295 | the walk keeps exactly the first instance of each identity, in order, up to the limit; the limit is reported exactly when one more exists, and nothing after that one is inspected or warned about |
| `ServiceBrowse.BrowseInstances` | src/discovery.rs:269-310 | the same from the records of a reply: unexpected interfaces and malformed PTR records are warnings, other records are skipped |
| `ServiceBrowse.FirstsAreDistinctAndComplete` | src/discovery.rs:269-295 | the first instances have distinct identities, come from the records and cover every identity |
| `NetworkKeys.CollectGroups` | src/model.rs:1339-1361 | the loop partitions the access points by key, keeping their order |
| `NetworkKeys.GroupedAccessPoints` | src/model.rs:1339-1361 | one group per key, listed in strictly ascending key order, each with its access points in scan order |
| `NetworkKeys.KeyOrderIsTotal` | src/model.rs:1345-1346 | any two keys compare by SSID bytes, class rank and interface bytes, or are equal |
| `NetworkKeys.SameEntryIffSameKey` | src/model.rs:1339-1361 | two access points share an entry if and only if they agree on SSID bytes, security class and interface |
| `NetworkKeys.GroupsConserveAccessPoints` | src/model.rs:1339-1361 | the groups hold every access point exactly once |
| `NetworkKeys.PreferredAccessPoint` | src/model.rs:1443-1452 | the preferred access point is a maximal one of the group |
| `NetworkKeys.KeyStringIsInjective` | src/model.rs:1636-1659 | equal printed keys mean equal SSID, class and interface |
| `NetworkKeys.EntryKeysArePairwiseDistinct` | src/model.rs:1636-1659 | no two entries have the same printed key |
| `NetworkKeys.KeyDecodesToItsSsid` | src/model.rs:1661-1681 | every key with an SSID of 1 to 32 bytes decodes to that SSID |
| `NetworkKeys.CanonicalIffLowerHex` | src/model.rs:1661-1681 | printing the decoded SSID returns the digits if and only if they are lower-case hexadecimal |
| `NetworkKeys.SignedKeyIsAccepted` | src/model.rs:1661-1681 | two different keys decode to the same SSID |
| `Credentials.UniquePeer` | src/network_credentials.rs:268-283 | the returned peer has the public key and no other has |
| `Credentials.UniquePeerIffExactlyOne` | src/network_credentials.rs:268-283 | a peer is found if and only if exactly one has the public key |
| `Credentials.SetTextReadsBack` | src/network_credentials.rs:387-445 | a written secret reads back unchanged, plain, raw, VPN or peer |
| `Credentials.SetTextFrame` | src/network_credentials.rs:387-445 | no other secret of any section or peer changes |
| `Credentials.SetTextSucceedsIffSettable` | src/network_credentials.rs:387-422 | a write succeeds exactly for VPN keys, uniquely identified peers and known keys |
| `Credentials.SetTextKeepsSettable` | src/network_credentials.rs:387-422 | a write neither enables nor disables another write to the section |
| `CredentialFlags.OnlyWepSharesFlags` | src/network_credentials.rs:239-245 | known secrets share a flags field if and only if both are WEP keys |
| `CredentialFlags.SystemOwnedLaw` | src/network_credentials.rs:351-385 | the secret and those sharing its flag are no longer agent-owned; every other flag and every secret reads as before |
| `CredentialFlags.SystemOwnedIffPersistent` | src/network_credentials.rs:351-363 | refused exactly for unreadable flags, unsaved secrets and WPS |
| `CredentialFlags.ClearsOneBit` | src/network_credentials.rs:362-362 | only the agent-owned bit is cleared |
| `PublicPolicy.ForgetPresharedKeys` | src/network_credentials.rs:73-76 | the loop removes the preshared key of every peer and nothing else |
| `PublicPolicy.StripSection` | src/network_credentials.rs:59-78 | removing keys one by one in any order and cleaning the peers gives the public section, or fails exactly on undecodable peers |
| `PublicPolicy.ComputePublic` | src/network_credentials.rs:57-80 | the in-place walk, in any order, computes the public snapshot, or fails exactly on undecodable peers |
| `PublicPolicy.PublicIsSecretFree` | src/network_credentials.rs:21-53 | the snapshot has no secrets and lists no credential values |
| `PublicPolicy.PublicReadsNoSecret` | src/network_credentials.rs:57-80 | no secret of any kind can be read from the snapshot |
| `PublicPolicy.PublicIsIdempotent` | src/network_credentials.rs:57-80 | the snapshot of a snapshot is itself |
| `PublicPolicy.MergePeerSecrets` | src/network_credentials.rs:474-485 | the loop over incoming peers computes `MergePeers` |
| `PublicPolicy.EachPeerTakesItsOffer` | src/network_credentials.rs:474-485 | each target peer takes exactly the last key offered for its identity and nothing else |
| `PublicPolicy.MergePeersOkIff` | src/network_credentials.rs:474-485 | merging fails exactly when an offer has no identity or no unique peer |
| `PublicPolicy.MergeSection` | src/network_credentials.rs:457-470 | in any order every field becomes the merged one; cut short, each is either old or merged |
| `PublicPolicy.MergeSecrets` | src/network_credentials.rs:449-472 | in any order of sections and fields the result is the field-by-field merge; it fails exactly when some field cannot be merged |
| `PublicPolicy.MergeKeepsPublic` | src/network_credentials.rs:449-485 | complete or cut short by an error, a merge that adds no peers array leaves the public snapshot unchanged |
| `PublicPolicy.MergeChangesPublicIff` | src/network_credentials.rs:449-485 | a successful merge changes the public snapshot if and only if it adds a peers array |
| `PublicPolicy.MergeCanAddPeers` | src/network_credentials.rs:474-485 | a merge that adds an empty peers array and so changes the public snapshot |
| `PublicPolicy.BlockedPeersStay` | src/network_credentials.rs:268-297 | an unknown or duplicate peer leaves the peers array untouched |
| `PublicPolicy.SetTextKeepsPublic` | src/network_credentials.rs:387-422 | writing a secret changes the public snapshot only by creating its section |
| `SecretResponse.FillNeverOverwrites` | src/daemon_secret.rs:323-341 | storage never replaces a present secret, and leaves one absent only if it has no value for it |
| `SecretResponse.ApplyStoredValues` | src/daemon_secret.rs:323-360 | every secret becomes what the stored values fill in, others stay, completeness is reported; fails exactly for a value without a place |
| `SecretResponse.ApplyResponseValues` | src/daemon_secret.rs:829-848 | in any order exactly the supplied secrets are written; fails exactly if one has no place |
| `SecretResponse.ApplySecretResponse` | src/daemon_secret.rs:779-837 | the exact condition of success, after which every requested secret is present; exactly the supplied persistent values are to be saved; which refusal is reported |
| `SecretResponse.AcceptedAnswer` | src/daemon_secret.rs:779-837 | blank requested secrets keep their value, and nothing outside the request changes |
| `History.RenameKeepsHistory` | src/cache/storage.rs:187-195 | moving a file to the free slot above it keeps the retained records and their order |
| `History.DroppingOldestLeavesSuffix` | src/cache/storage.rs:169-173 | deleting the oldest file leaves a suffix of the log |
| `History.AppendKeepsSound` | src/cache/storage.rs:150-153 | appending a fitting record extends the retained history and keeps the files bounded |
| `History.HistoryFile.ShiftFiles` | src/cache/storage.rs:174-177 | every file moves up one slot; nothing is overwritten and every record is kept, even when a rename fails half-way |
| `History.HistoryFile.RotateFiles` | src/cache/storage.rs:169-179 | slot 0 becomes free and each slot holds what was below; exactly the records of the oldest file are lost, and none if its removal fails |
| `History.HistoryFile.Append` | src/cache/storage.rs:134-153 | after any appends and failures: at most one file more than the rotations, each bounded, together a suffix of the log; what was retained stays except the oldest file of a due rotation, and the record follows it exactly on success |
| `CastPolicy.EqualVersionsMeanNoChange` | src/cast_policy/network.rs:73-114 | equal non-zero versions at two reads mean the applied settings did not change in between |
| `CastPolicy.EnabledMeansOnAtSavedRead` | src/cast_policy/network.rs:73-138 | an enabled answer means saved and applied policy of the then active profile were both on at the moment of the saved read |
| `CastPolicy.QuietReadIsExact` | src/cast_policy/network.rs:73-138 | while nothing changes the answer is exactly the device's policy |
| `CastPolicy.Gather` | src/cast_policy/network.rs:61-70 | the loop collects exactly the contributed interfaces, and nothing after a failed read |
| `CastPolicy.EnabledInterfaces` | src/cast_policy/network.rs:46-71 | the snapshot holds exactly the enabled Wi-Fi interfaces, or fails exactly on a failed read |
| `CastPolicy.Policy.Apply` | src/cast_policy/firewall.rs:75-107 | the table is replaced as a whole or left as it was |
| `CastPolicy.Policy.Reconcile` | src/cast_policy/mod.rs:80-98 | a failed snapshot withdraws every permission, a failed apply leaves the old table; every committed permission rests on a recent read |
| `CastPolicy.PermissionIsAtMostSixteenSecondsOld` | src/cast_policy/firewall.rs:11-11 | a permission in force had such a read at most 4 s + 2 s + 10 s earlier |
| `CastPolicy.Policy.EveryPermissionIsRecent` | src/cast_policy/mod.rs:80-98 | the same over the whole life of the service, for whichever table is in force |

## Left out

- ConnectWait.ActivationWait.WaitForActive: the best-effort abort of the requested activation on some of its ends is not modelled.
- The bounded store of recent results: any result may be evicted at any time, which covers every eviction policy.
- The emission of an event inside a locked region: it may happen later than in the code, which allows more orders than the code has.
- Scope wake-ups: waking the verifier is counted together with the stop that causes it.
- Launch identifiers, portal URLs and the portal ledger: random or textual, without a property beyond the modelled proof check.
- D-Bus, sockets, worker lanes and signal delivery: replaced by oracles for what they return.
- NetworkManager itself: its answers are arbitrary, except in `CastPolicy`, where fresh versions, fresh active paths and stable profiles are assumed as `NmRules`.
- CastPolicy.Policy.Apply: assumes that a killed nft process commits nothing after its timeout and that starting it takes no time.
- CastPolicy.PermissionIsAtMostSixteenSecondsOld: speaks of interfaces listed as Wi-Fi in the installed table; an interface that appears later is outside the table until the next reconciliation.
- CastPolicy: the text of the firewall batch and the validation of interface names.
- History.HistoryFile.Append: a failed append writes nothing; a partly written line is not modelled. A file longer than a 64-bit length can say is refused by the file system. The configured limit and number of rotations are parameters.
- Credentials: a variant that is neither text, bytes, number, string map nor array of dictionaries is opaque and never reads as text.
- SecretResponse.ApplySecretResponse: how the values to be saved are confirmed with NetworkManager afterwards is not modelled.
- Hints, WPS and wireless key selection (`secret_keys_for`, `wireless_secret_key`), `flag_inventory` and `requires_secrets`: direct table lookups.
- Connect results beyond success, failure reasons and cancellation: messages, timings, radio details and cached status.
- QR rendering, scans, hotspots, VPN and band workers, command line, logging and configuration: they would add only easy members.
