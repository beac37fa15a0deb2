# CrossNook in Dafny

CrossNook is reading software for the Nook Simple Touch that keeps reading
positions in step with a KOReader progress server. This project models its
behaviour in Dafny and proves properties of it. `dafny verify dfyconfig.toml`
checks all of it.

**Account setup.** An account lives in three files (settings, credentials,
device identity) and one remote authorisation. `AccountState` holds the stores,
the answers the environment may give, and a *world*: the state of the device
with every earlier state and the event that led from each to the next inside
it. Each controller is a method over a `Device` object (`AccountBootstrap`,
`SyncActivation`, `AccountSetup`, `AccountSetupUi`), proved equal to a function
on worlds. `AccountHistory` says which event may follow which and proves that
every controller keeps to it, and that it writes only after durable writes.
From that follow safety over all runs, instants and power losses
(`AccountSafety`), the truth of the reports (`AccountReports`), and that retries
end where a clean run ends (`AccountConvergence`, `AccountSetupUi`).
`AccountDecisions` says, on the state and the answers before a call, exactly
when each operation begins, how far it gets, what it stores and how it ends, and
`AccountDetails` what the details of the reports say. How settings are validated
and how a password is digested are parameters; the rules of the settings file
are shown to be fit for the first.

Each environment answer is an input: every open, load and save can fail or, for
saves, succeed without being durable; every network step can fail. A failed save
keeps the old value and an uncertain one leaves the new value visible. The
identity file is the exception: it is written in place, so a failed write may
leave a partial file.

Two results are negative. A damaged identity file is never replaced, so setup
converges exactly if it is not damaged (`AccountSetupUi.Converges`,
`AccountSetupUi.DamagedIdentityIsFinal`); a first setup that runs out of space
while that file is written damages it (`AccountSetupUi.FullDiskIsFinal`). And
settling a conflict with the server's position settles it exactly if the page
that position leads to is captured as that position
(`ReaderAgreement.RemoteChoiceSettlesIff`, stated on the state before the
choice); in the middle of a page it is not, and the same conflict comes back
(`ReaderAgreement.MidPageConflictReturns`).

**Reader sync.** A position has three copies: the open Reader's page, the
record of each book, and the server's record of each document (`ReaderState`).
`ProgressSync` is one exchange with the server, `ReaderSync` the Reader's side
of it as methods of an `App` object, `ReaderAgreement` what holds after each
operation, `ReaderDecisions` what exactly decides its outcome, and `ReaderRuns`
what holds over whole sessions. The branch of a manual
sync that follows an imported record is shown never to be taken: the position
saved first makes the local record present.

**Byte-level algorithms.** `Iteration`, `Crc32` and `ChecksumLine`: the CRC-32
and its hex trailer (digits in `Hex` and `Positional`). `SettingsFile` and
`SettingsText`: the settings record as a file, and what it reads like. `Utf8` and
`Utf8Decoder`: RFC 3629 and the strict decoder. `WordWrap` and `GlyphBlend`: the
text renderer. `Fnv` and `BookIdentity`: FNV-1a for pages and book paths. `Font`
and `Raster`: the 5x7 font and its pixels. `Dns` and `DnsHeader`: the mock server's
names and responses.
Registers are bit-vectors of the original's width, so products wrap around as
they do there. That the CRC notices a burst is proved for 32 consecutive bits
wherever they begin, and 33 bits can hide (`Crc32.BurstOf33MayHide`).

## Model

| member | source | states |
|---|---|---|
| AccountState.HexIsCredentialText | src/account/kosync_userkey.c:40-47 | every derived userkey passes the credential store's text check, so a bootstrap never fails on its own key |
| AccountState.SettingsRulesAreSound | src/settings/settings_store.c:167-191 | the settings validation is fit for setup: texts fit their buffers, enabled settings have a URL, and valid settings with a URL can be enabled |
| AccountState.Device.ReadSettings | src/settings/settings_store.c:453-552 | a load reports a fault, a missing file, a damaged file or the stored record, and gives defaults unless it succeeds |
| AccountState.Device.ReadCredentials | src/credentials/credential_store.c:258-319 | the same for credentials, clearing the output on every failure |
| AccountState.Device.ReadIdentity | src/identity/device_identity.c:432-451 | the same for the device identity |
| AccountState.Device.WriteSettings | src/settings/settings_store.c:627-728 | an invalid record is refused, a failed save keeps the old file, an uncertain one shows the new record |
| AccountState.Device.WriteCredentials | src/credentials/credential_store.c:321-410 | the same atomic contract for credentials |
| AccountState.Device.CreateIdentity | src/identity/device_identity.c:384-430 | an existing or unreadable identity is left alone; creation happens only when the file is absent and may leave a partial file when it fails |
| AccountBootstrap.CopyBounded | src/account/account_bootstrap.c:16-28 | copies exactly the present, non-empty strings that end before the capacity does |
| AccountBootstrap.CredentialTextValid | src/account/account_bootstrap.c:30-44 | accepts exactly 1 to 255 bytes without control characters |
| AccountBootstrap.UserkeyFromPassword | src/account/kosync_userkey.c:14-54 | derives a key exactly for a present password of 1 to 1024 bytes and a large enough buffer, and the key is the 32 hex digits of the digest |
| Hex.TextOfInjective | src/account/kosync_userkey.c:42-45 | different digests are written as different userkeys |
| Hex.Alphabet | src/account/kosync_userkey.c:18 | the digits are 0 to 9 and then a to f |
| AccountBootstrap.Run | src/account/account_bootstrap.c:72-248 | the call does to the stores and reports what the specification of bootstrap says, in the same order of checks and writes |
| AccountBootstrap.Reconcile | src/account/account_bootstrap.c:165-239 | the part after the checks: open, load, compare, save settings, then credentials, stopping at the first write that is not durable |
| SyncActivation.CheckRuntime | src/account/sync_activation.c:49-66 | accepts exactly one or two named resolvers, a named CA file and a usable time policy |
| SyncActivation.Run | src/account/sync_activation.c:90-277 | the call does to the stores, asks of the network and reports what the specification of activation says |
| SyncActivation.Connect | src/account/sync_activation.c:211-239 | time, name lookup and TLS in this order, each failure with its own status |
| SyncActivation.Authorize | src/account/sync_activation.c:241-263 | settings are enabled only after the server granted them |
| AccountSetup.ObserveState | src/account/account_setup_controller.c:118-194 | classifies what is stored; enabled settings are recognised without reading credentials |
| AccountSetup.CheckProfile | src/sync/persisted_sync_profile.c:51-171 | a profile is ready exactly when settings are enabled and all five texts are present and fit |
| AccountSetup.BoundedText | src/account/account_setup_controller.c:43-57 | a string that ends before the capacity and is not empty |
| AccountSetup.CheckBasicInput | src/account/account_setup_controller.c:59-74 | the input the controller passes on: no null, password of 1 to 1024 bytes, texts that fit |
| AccountSetup.Finish | src/account/account_setup_controller.c:246-276 | activation, then a profile check only after full success |
| AccountSetup.LoadThenCreate | src/account/account_setup_controller.c:299-306 | an identity is loaded first and created only when there is none |
| AccountSetup.Prepare | src/account/account_setup_controller.c:278-321 | identity before activation; an identity that is not durable stops the call |
| AccountSetup.SetUp | src/account/account_setup_controller.c:323-364 | intent, input and resume checks before bootstrap, and nothing after a bootstrap that did not fully succeed |
| AccountSetup.RunSubmit | src/account/account_setup_controller.c:366-399 | a submit does and reports what its specification says |
| AccountSetup.RunActivateExisting | src/account/account_setup_controller.c:401-431 | an activation of a stored account does and reports what its specification says |
| AccountSetup.RunInspect | src/account/account_setup_controller.c:433-455 | an inspection writes nothing and reports what its specification says |
| AccountSetupUi.Screen.ShowResult | src/ui/ui.c:652-717 | a result clears the password and shows enabled for the three statuses that mean it |
| AccountSetupUi.Screen.PrefillPartial | src/app/account_setup_ui.c:111-124 | a partial account's stored URL and device name fill the form when they load |
| AccountSetupUi.Screen.RunProcess | src/app/account_setup_ui.c:126-175 | one action is taken, carried out and shown; nothing is done on storage that changed |
| AccountSetupUi.ConfiguredRuntimeIsValid | src/app/account_setup_ui.c:96-106 | the configured runtime is usable exactly if the resolver address and the CA path are not empty, and has the time established first |
| AccountSetupUi.ProcessIsACall | src/app/account_setup_ui.c:126-175 | a step of the screen is at most one controller call, so run theorems cover the screen |
| AccountHistory.BootstrapStores | src/account/account_bootstrap.c:185-239 | a bootstrap that reports OK leaves exactly the requested disabled settings and credentials stored |
| AccountHistory.BootstrapKeeps | src/account/account_bootstrap.c:113-240 | bootstrap writes valid records only, credentials only beside disabled settings with a URL, and each write only after durable ones |
| AccountHistory.ActivateKeeps | src/account/sync_activation.c:138-263 | activation enables settings only as the step right after a grant for exactly what is stored beside an identity |
| AccountHistory.PrepareAndActivateKeeps | src/account/account_setup_controller.c:278-321 | an identity is created only for a complete disabled account, and activation follows only a durable one |
| AccountHistory.PerformKeeps | src/account/account_setup_controller.c:246-431 | every public call, with any faults, keeps the discipline of events and issues each write only after all earlier writes of the call were durable |
| AccountSafety.EnabledImpliesAuthorised | src/account/sync_activation.c:138-263 | at every instant of every run from a start that is not enabled, visibly enabled settings come with an earlier grant for exactly the stored URL, username and userkey, and with a stored identity |
| AccountSafety.ProgressIsMonotone | src/account/account_setup_controller.c:118-194 | between any two instants of a run the account moves only forward from none to partial, complete and enabled; no orphan credentials are created, and an identity, an enabled account and files that do not load never change |
| AccountSafety.InspectionFindsLocal | src/account/account_setup_controller.c:433-455 | a fault-free inspection reports the state that the progress order is about and changes nothing stored |
| AccountSafety.EnabledIsQuiet | src/account/account_setup_controller.c:160-163 | on enabled settings no call writes, reads credentials or uses the network; a direct bootstrap at most derives a key |
| AccountSafety.SurvivorsAreSafe | src/account/account_bootstrap.c:206-239 | after ordered writes whatever power loss leaves behind is no orphan and enabled only if granted |
| AccountSafety.PowerLossIsSafe | src/account/account_setup_controller.c:299-363 | from a durable safe start, power lost at any instant of one call, or during any of its writes, leaves no orphan and nothing enabled but what was granted |
| AccountReports.BootstrapTells | src/account/account_bootstrap.c:206-238 | the written flags are set exactly for the stores that were replaced, once each, and a key derivation never fails there |
| AccountReports.ActivateTells | src/account/sync_activation.c:130-263 | the attempted flags follow the phase order, each set exactly when that request was made; time is asked for only under the policy that wants it, and under that policy names are looked up only once the time is known; enabled is possible exactly when settings are enabled; a rejection is reported exactly when the server refused |
| AccountReports.SubmitTells | src/account/account_setup_controller.c:366-399 | after a submit that began disabled, settings are enabled exactly for the three enabled statuses and exactly when the report says so; what was replaced and asked, and in which order, is exactly what the flags say |
| AccountReports.ActivateExistingTells | src/account/account_setup_controller.c:401-431 | the same for activating a stored account, which never attempts a bootstrap |
| AccountReports.PrepareIdentityTells | src/account/account_setup_controller.c:302-311 | an identity was written exactly when the result says created or not durable |
| AccountConvergence.CleanReachesGoal | src/account/account_bootstrap.c:165-239 | a fault-free bootstrap ends with the requested records and succeeds exactly if the input is acceptable and the stores load and are disabled |
| AccountConvergence.BootstrapIsConfluent | src/account/account_bootstrap.c:113-240 | any number of faulted bootstraps followed by a clean one end in the same stores as one clean bootstrap |
| AccountConvergence.BootstrapIsIdempotent | src/account/account_bootstrap.c:197-205 | after a success the same request only reads, whatever faults occur, and succeeds again when there are none |
| AccountConvergence.HealthyPrepareActivates | src/account/account_setup_controller.c:278-321 | with a healthy environment a complete disabled account with a URL becomes enabled exactly if its identity file is not damaged, and the status says which |
| AccountConvergence.HealthySubmitActivates | src/account/account_setup_controller.c:366-399 | with a healthy environment an acceptable submit from no account, or a matching one from a partial account, enables it exactly if the identity file is not damaged |
| AccountConvergence.HealthyRetryActivates | src/account/account_setup_controller.c:401-431 | the same for activating a complete account |
| AccountSetupUi.StoredHasUrl | src/account/account_bootstrap.c:122-126 | after a fresh start stored settings always have a URL and stored credentials always have settings |
| AccountSetupUi.Converges | src/app/account_setup_ui.c:126-175 | from wherever faults left a fresh account, a healthy inspection and the one action it offers enable it and show so, exactly if the identity file is not damaged |
| AccountSetupUi.DamagedIdentityIsFinal | src/identity/device_identity.c:408-412 | no sequence of calls enables a disabled account whose identity file is damaged |
| AccountSetupUi.FullDiskIsFinal | src/identity/device_identity.c:298-308 | an input for the failed property: a first setup during which only writing the identity fails, and the partial file stays, leaves a complete account with a damaged identity; a fault-free retry ends as corrupt and no sequence of calls enables it |
| AccountDecisions.SettingsAreReadBack | src/settings/settings_store.c:627-728 | a save is visible exactly if the record is valid and the save was not refused; a load then gives what was saved, and otherwise nothing changed |
| AccountDecisions.CredentialsAreReadBack | src/credentials/credential_store.c:321-410 | the same for credentials |
| AccountDecisions.IdentityIsReadBack | src/account/account_setup_controller.c:299-306 | an identity is created exactly if there is none, nothing failed and the write went through, and it is the one that loads afterwards; one that is there stays |
| AccountDecisions.BootstrapDecides | src/account/account_bootstrap.c:165-239 | success, uncertainty and each write failure, each exactly in terms of what was stored, the faults and the two saves |
| AccountDecisions.BootstrapRefuses | src/account/account_bootstrap.c:102-196 | each reason for not writing, exactly, and that nothing is stored then |
| AccountDecisions.BootstrapLeaves | src/account/account_bootstrap.c:197-238 | what is stored after every course of the two saves |
| AccountDecisions.ActivationAttempts | src/account/sync_activation.c:128-248 | each phase, the authorisation with its address and TLS included, is attempted exactly if everything before it succeeded |
| AccountDecisions.ActivationStatusIs | src/account/sync_activation.c:128-263 | the status names the first thing that was missing, or how the server and the save answered |
| AccountDecisions.ActivationLeaves | src/account/sync_activation.c:248-263 | exactly the settings that were found are stored enabled, exactly if they were granted and the save was not refused |
| AccountDecisions.LocalMeans | src/account/account_setup_controller.c:118-194 | each state of an account, exactly in terms of what its two files hold |
| AccountDecisions.ObservationIsHonest | src/account/account_setup_controller.c:118-194 | with any faults, what is reported as seen is what is stored |
| AccountDecisions.ObscuredIsSaid | src/account/account_setup_controller.c:118-194 | stores that cannot be looked at are reported as unreadable or corrupt, and which of the two; an observation at most reads the credentials |
| AccountDecisions.SubmitBeginsIff | src/account/account_setup_controller.c:323-399 | a submit begins exactly if the stores are seen clearly, the input is usable, and the account is new, partial with the same URL and name, or, for a replacement, complete and disabled; otherwise nothing is stored |
| AccountDecisions.SubmitRefusal | src/account/account_setup_controller.c:328-395 | the status of a submit that did not begin says what stood in the way |
| AccountDecisions.BootstrapFirst | src/account/account_setup_controller.c:352-363 | a setup that began goes on exactly if its bootstrap fully succeeded, and otherwise says why not |
| AccountDecisions.StagesInTurn | src/account/account_setup_controller.c:246-321 | identity, activation and profile check each begin exactly if the one before succeeded, and the status is that of the last one begun |
| AccountDecisions.ServerStatuses | src/account/account_setup_controller.c:216-244 | each status that speaks of the server or of saving, exactly in terms of how far activation got and what was answered |
| AccountDecisions.LocalStatuses | src/account/account_setup_controller.c:216-244 | the other statuses of a setup that got as far as activation, exactly in terms of what was stored, configured and answered |
| AccountDecisions.ProfileReadyIff | src/sync/persisted_sync_profile.c:51-171 | a profile is ready exactly if everything of an enabled account loads; validation never fails on what was stored |
| AccountDecisions.ProfileAttempts | src/sync/persisted_sync_profile.c:51-171 | each record of a profile is tried exactly if those before it loaded and the account is enabled, and the results say which loaded |
| AccountDecisions.ProfileReads | src/sync/persisted_sync_profile.c:51-171 | loading a profile reads the credentials, then the identity, and does nothing else |
| AccountDecisions.ActivateExistingBeginsIff | src/account/account_setup_controller.c:401-431 | an activation begins exactly on a complete disabled account that is seen clearly, and otherwise says what was found |
| AccountDecisions.InspectionStatus | src/account/account_setup_controller.c:433-455 | each status of an inspection, exactly in terms of what is stored and readable |
| AccountDecisions.AlreadyIsTrue | src/account/account_setup_controller.c:366-431 | a call says that the account was enabled already only if it was |
| AccountDecisions.HealthySubmitLeaves | src/account/account_setup_controller.c:323-399 | with nothing failing, every submit that may begin leaves exactly the requested account with its old or a new identity, enabled exactly if the identity is not damaged |
| AccountDecisions.HealthyReplaceActivates | src/account/account_setup_controller.c:333-337 | replacing a complete disabled account leaves exactly the new settings, enabled, and the new credentials |
| AccountDetails.InputLimits | src/account/account_setup_controller.c:59-74 | what each check of the input lets through, as lengths and byte values |
| AccountDetails.CredentialLimits | src/credentials/credential_store.c:63-72 | what can be stored as credentials, as lengths and byte values |
| AccountDetails.ServerLimits | src/account/sync_activation.c:48-65 | one or two name servers, each named, can be used and no other number |
| AccountDetails.UnfitRecords | src/credentials/credential_store.c:186-242 | a record that does not pass its check is refused before anything is written and reads as corrupt if found; without entropy no identity is written |
| AccountDetails.BootstrapDetails | src/account/account_bootstrap.c:100-239 | the stage is that of the last write tried, and the results are the last heard of each store |
| AccountDetails.ActivationHears | src/account/sync_activation.c:196-248 | the results of clock, resolver and server are the last that were heard, and none is reported before its turn |
| AccountSetupUi.ReplacingActivates | src/app/account_setup_ui.c:126-175 | the replace button leaves exactly what the form says, enabled, and the screen shows it |
| AccountSetupUi.ShownEnabledIsEnabled | src/ui/ui.c:652-717 | the screen shows an account as enabled only if its stored settings are |
| AccountSetupUi.ActionIsTaken | src/app/account_setup_ui.c:126-175 | a step takes the pending action whatever comes of it, forgets the password it used, and does nothing on storage that changed |
| ReaderSync.App.LoadRecord | src/progress/progress_store.c:218-344 | a load reports a fault, a missing or unreadable record, or gives the stored position |
| ReaderSync.App.SaveRecord | src/progress/progress_store.c:346-435 | a save refuses a malformed position, keeps the old record when it fails and otherwise replaces it |
| ReaderSync.App.Goto | src/reader/reader.cpp:493-509 | the Reader goes to the page of a position or rejects it without moving |
| ReaderSync.App.FollowRecord | src/app/reader_sync.c:30-53 | reloads a record and goes there, flagging a possible mismatch on either failure |
| ReaderSync.App.FollowPersisted | src/app/reader_sync.c:55-72 | applies the stored record of the open book |
| ReaderSync.App.SyncManually | src/app/reader_sync.c:74-126 | a manual sync does and reports what its specification says: capture, save, exchange, follow an import |
| ReaderSync.App.SettleConflict | src/app/reader_conflict.c:19-110 | settling a conflict does and reports what its specification says: check nothing changed, then push, or pull and follow |
| ReaderState.Reply | src/sync/kosync.c:846-917 | from how far a PUT got: a success means stored, a refusal or a failure to write the request or to open the connection means not stored, and a transport error always names a transport failure |
| ProgressSync.SyncIsSound | src/sync/kosync_policy.c:54-134 | no exchange makes the policy fail closed, on success or on failure; the mutation evidence it gives is true of both records; the local record changes only when imported, and only the open document's records change |
| ProgressSync.PushIsSound | src/sync/kosync_push.c:51-175 | a push leaves local records alone, changes the server's record at most to the local one, and its evidence none or confirmed is true |
| ProgressSync.PullIsSound | src/sync/kosync_pull.c:26-129 | a pull changes nothing at the server and the local record exactly when it reports persisted, to the server's position |
| ReaderDecisions.SyncDecides | src/sync/kosync_sync.c:157-224 | each decision, exactly in terms of which sides have a record and whether their locations are the same |
| ReaderDecisions.SyncActs | src/sync/kosync_sync.c:163-216 | a record is sent exactly if only the Reader has one, it says how far it is and it can be written down; one is saved exactly if only the server has one and the store takes it |
| ReaderDecisions.SyncHears | src/sync/kosync_sync.c:118-224 | what is reported as present is, and the last result is that of the record sent, of its conversion, or of the server's record |
| ReaderDecisions.SyncReaches | src/sync/kosync_sync.c:116-161 | what is reported of the clock, the resolver, TLS and the request is what they answered if they were asked, and nothing otherwise |
| ReaderDecisions.SyncStops | src/sync/kosync_sync.c:92-155 | an exchange that could not compare names the first thing that failed and changes nothing |
| ReaderDecisions.SyncStatusIs | src/sync/kosync_sync.c:157-224 | a compared exchange is OK exactly if it had nothing to do or did it, and otherwise names what failed |
| ReaderDecisions.EvidenceIsSharp | src/sync/kosync_policy.c:54-134 | the evidence after every course of a PUT, exactly, and each outcome exactly in terms of what was decided and done |
| ReaderDecisions.PushActs | src/sync/kosync_push.c:78-168 | a push sends exactly if the record loads, says how far it is, can be written down, and time, name, address and TLS are there; and its evidence for every course of the PUT |
| ReaderDecisions.PushStatusIs | src/sync/kosync_push.c:78-144 | the status of a push that was not sent names the first thing that failed |
| ReaderDecisions.PushReplyIs | src/sync/kosync_push.c:146-168 | the status of a push that was sent, exactly in terms of the reply |
| ReaderDecisions.ReplyMeans | src/sync/kosync.c:846-917 | each result of a PUT, exactly in terms of how far it got and how it was answered |
| ReaderDecisions.PullActs | src/sync/kosync_pull.c:26-129 | a pull asks exactly if it is connected, stores exactly what the server has and the store takes, and otherwise names what failed |
| ReaderAgreement.PresentIsNeverImported | src/sync/kosync_sync.c:168-189 | with a local record present no exchange imports or changes local records |
| ReaderAgreement.ManualSyncAgrees | src/app/reader_sync.c:102-125 | after a manual sync that reached the controller, going to the stored record lands on the Reader's page; the Reader did not move and the record is the captured position |
| ReaderAgreement.ManualSyncOnlyTouchesOpenBook | src/app/reader_sync.c:102-125 | a manual sync changes no other book's record, and what it uploads is the record it stored |
| ReaderAgreement.ConflictMeansDifferent | src/app/reader_conflict.c:6-17 | a conflict is reported only if the server holds another location than the one just saved, and the server was not changed |
| ReaderAgreement.CalmSyncCompares | src/sync/kosync_sync.c:219-224 | without faults, a sync of a document the server knows reports unchanged exactly for equal locations and a conflict exactly for different ones |
| ReaderDecisions.ManualPhases | src/app/reader_sync.c:74-112 | the phase of a manual sync names the first thing that was in the way, and the exchange runs exactly if nothing was |
| ReaderDecisions.ManualExchange | src/app/reader_sync.c:113-126 | the exchange of a manual sync is that of the open book with the captured position stored |
| ReaderDecisions.CalmSyncUploads | src/sync/kosync_sync.c:190-216 | the first fault-free sync of a book that the server does not know uploads the captured position exactly if it says how far it is |
| ReaderDecisions.FollowsIff | src/app/reader_sync.c:30-72 | a record is followed exactly if a book is open and its record loads and leads to one of its pages |
| ReaderAgreement.GateDecides | src/app/reader_conflict.c:40-98 | whatever happened since the conflict, push runs or pull runs exactly if the open book, the Reader's position and the stored record are still what the user saw, never both, and otherwise nothing changes |
| ReaderAgreement.FollowingLands | src/app/reader_sync.c:30-53 | following a record moves at most the Reader, and lands on the record exactly when it says so |
| ReaderAgreement.SettlingAgrees | src/app/reader_conflict.c:86-109 | after a push or pull ran, Reader and disk agree unless the mismatch flag is set, and then a pull was saved and the Reader did not move |
| ReaderAgreement.SettlingOnlyTouchesOpenBook | src/app/reader_conflict.c:86-109 | settling changes no other book's record, and uploads only what is stored |
| ReaderAgreement.LocalChoiceReachesServer | src/app/reader_conflict.c:89-94 | a confirmed local choice leaves the server with exactly the position the user saw and changes nothing else; evidence of no mutation means nothing changed |
| ReaderDecisions.LocalChoiceUploads | src/sync/kosync_push.c:104-168 | with nothing failing, an admitted local choice uploads the position exactly if it says how far it is |
| ReaderDecisions.SettlePhases | src/app/reader_conflict.c:19-110 | how a settlement ends, exactly, for every choice and all answers |
| ReaderDecisions.SettleChecks | src/app/reader_conflict.c:65-80 | the stored record is looked at exactly if a considered conflict is about the open book and the page is still the expected one |
| ReaderAgreement.RemoteChoiceReachesReader | src/app/reader_conflict.c:95-109 | an applied remote choice leaves disk and server with one position and the Reader on its page |
| ReaderAgreement.LocalChoiceSettles | src/app/reader_conflict.c:89-94 | after a confirmed local choice the next fault-free sync finds no change |
| ReaderAgreement.RemoteChoiceAppliesIff | src/app/reader_conflict.c:95-109 | with nothing failing, an admitted remote choice is applied exactly if the server has a position that can be stored and leads to a page of the book |
| ReaderAgreement.RemoteChoiceSettlesIff | src/app/reader_sync.c:102-125 | after such a choice the next fault-free sync finds no change exactly if the page the server's position leads to is captured as that location, and the conflict comes back exactly if it is captured as another one |
| ReaderAgreement.MidPageConflictReturns | src/app/reader_sync.c:46-47 | a one-page book whose server position is in the middle of the page: the settled conflict comes back |
| ReaderRuns.NothingIsInvented | src/app/reader_sync.c:74-126 | over any session every stored and every remote position was there before, written by another device, or captured on a page |
| ReaderRuns.SettledStaysSettled | src/app/reader_sync.c:74-126 | once the server holds the place the Reader is on, syncing there never conflicts again, whatever fails and whatever other documents' records do |
| ReaderRuns.LocalChoiceIsInStep | src/app/reader_conflict.c:89-94 | a confirmed local choice brings Reader and server to that state |
| ReaderRuns.OtherBooksAreSafe | src/app/reader_conflict.c:19-110 | over any session the record of a book that is never open does not change |
| Crc32.StepLinear | src/app/settings-store-test.c:206-208 | one bit step is linear over exclusive-or |
| Crc32.StepInjective | src/app/settings-store-test.c:206-208 | one bit step never merges two registers |
| Crc32.ByteIsEightBits | src/app/settings-store-test.c:204-208 | the step of a byte is eight steps of a register that takes one bit at a time |
| Crc32.BurstChangesChecksum | src/app/settings-store-test.c:199-211 | any two different texts of one length whose bits differ only within 32 consecutive ones, at any offset, have different checksums |
| Crc32.BurstOf33MayHide | src/app/settings-store-test.c:199-211 | the bound is sharp: two five-byte texts that differ within 33 consecutive bits have one checksum |
| Crc32.FourBytesAreABurst | src/app/settings-store-test.c:199-211 | a change within four consecutive bytes is such a burst |
| Crc32.ResidueIsConstant | src/settings/settings_store.c:286-298 | any text followed by its checksum, lowest byte first, leaves the register at 0xdebb20e3 |
| Crc32.CheckValue | src/settings/settings_store.c:286-298 | the checksum of 123456789 is 0xcbf43926 and that of nothing is 0 |
| ChecksumLine.AbsorbByte | src/app/settings-store-test.c:205-208 | the masked inner loop takes eight steps of the register |
| ChecksumLine.ComputeCrc32 | src/app/settings-store-test.c:199-211 | the nested loops compute the checksum |
| ChecksumLine.HexBijection | src/app/settings-store-test.c:288-299 | eight lower-case digits read as a checksum exactly if they are the digits written for it, for all 32-bit checksums |
| ChecksumLine.FormatLine | src/app/settings-store-test.c:218-225 | the shifts from 28 down to 0 write those digits from left to right |
| ChecksumLine.FixtureFromBody | src/app/settings-store-test.c:213-229 | a body that fits is written with its checksum line and nothing behind it is touched; one that does not fit is refused untouched |
| ChecksumLine.VerifyCrcLine | src/app/settings-store-test.c:279-302 | accepts exactly the files that are a body with its own checksum line |
| ChecksumLine.DamageBreaksSeal | src/app/settings-store-test.c:279-302 | a file written for any body is no longer accepted after any change within 32 consecutive bits, wherever they are |
| SettingsFile.SerializeFits | src/settings/settings_store.c:575-606 | every valid record fits in the file, so a save never fails for size |
| SettingsFile.LoadIffSaved | src/settings/settings_store.c:367-429 | a file loads as a record exactly if the record is valid and the file is what a save of it writes |
| SettingsFile.DamageNeverLoads | src/settings/settings_store.c:423-427 | a saved file changed within 32 consecutive bits never loads, as anything |
| SettingsText.FileReads | src/settings/settings_store.c:575-606 | a saved file is the four key=value lines in order and the checksum line over exactly them |
| SettingsText.VersionKeyReads | src/settings/settings_store.c:383 | the version key is crossnook-settings |
| SettingsText.BaseUrlIff | src/settings/settings_store.c:121-157 | a base URL is valid exactly if it is https://, a host of 1 to 255 bytes, an optional port and an optional path of at most 1024 bytes, of allowed bytes only |
| SettingsText.PortBounds | src/settings/settings_store.c:107-119 | 1 and 65535 are ports, 0, 65536 and nothing are not |
| SettingsText.Characters | src/settings/settings_store.c:112-138 | the bytes a URL may have are the printable characters but @, ?, # and backslash, and those of a port the ten digits |
| SettingsText.SettingsLimits | src/settings/settings_store.c:168-191 | what can be saved, in numbers; a URL is at most 1293 bytes long by its parts, so the limit of its buffer never decides |
| SettingsText.NameIff | src/settings/settings_store.c:64-105 | a device name is valid exactly if it is the UTF-8 of code points other than control characters |
| SettingsText.UnsupportedIff | src/settings/settings_store.c:381-391 | a file is of an unsupported version exactly if its first line is the version key with another number than 1 |
| Utf8.EncodingIsBijective | testapp/crossnook-text.c:91-123 | the well-formed sequences of section 4 of RFC 3629 are exactly the encodings of section 3, one for each scalar value |
| Utf8.BytesConserved | testapp/crossnook-text.c:127-149 | the encoded lengths of all decoded code points and the count of bad bytes add up to the length of the string |
| Utf8.CleanIffEncoded | testapp/crossnook-text.c:127-149 | a string has no bad bytes exactly if it is the encoding of what it decodes to |
| Utf8.DecodeAfterEncoded | testapp/crossnook-text.c:127-149 | an encoded prefix decodes to its code points with no bad byte, whatever follows, and what follows decodes as if it stood alone |
| Utf8.DecodeResynchronises | testapp/crossnook-text.c:127-149 | whatever bytes are before it, encoded text is decoded in full, and the bytes before it as if they stood alone |
| Utf8Decoder.Continuations | testapp/crossnook-text.c:110-114 | the loop stops at the first byte that is no continuation and so never reads past the terminator |
| Utf8Decoder.Utf8Next | testapp/crossnook-text.c:91-123 | accepts exactly the well-formed sequence at the position, with its length and its code point |
| Utf8Decoder.DecodeUtf8 | testapp/crossnook-text.c:127-149 | counts code points and bad bytes of the whole string, and stores the code points that have room, in order |
| WordWrap.LineEnd | testapp/crossnook-text.c:326-345 | finds where the line ends as the greedy rule says, always behind its start, so the progress fallback is never needed |
| WordWrap.EndsOnce | testapp/crossnook-text.c:326-345 | the greedy rule fixes the end of a line |
| WordWrap.EndsWell | testapp/crossnook-text.c:331-345 | a line is not empty, fits unless it ends in a glyph wider than a line, and is cut behind a glyph other than a space only where it holds no space after its first position and the next glyph does not fit |
| WordWrap.EndsLate | testapp/crossnook-text.c:331-345 | a line is cut as late as it can be: no later space would have fitted on it |
| WordWrap.WrappedOnce | testapp/crossnook-text.c:324-352 | there is one way to wrap a text |
| WordWrap.WrapIsPartition | testapp/crossnook-text.c:324-352 | the lines concatenate to the text, none is empty, each fits unless it is overwide, and each is cut as the rule says |
| WordWrap.LineStaysInside | testapp/crossnook-text.c:282-309 | every glyph of a line that fits is drawn between the margins, and the pen ends there |
| WordWrap.DrawPlacesAll | testapp/crossnook-text.c:286-308 | in a line that begins with a visible glyph every glyph that loads stands, in order, at the width of what is before it, spaces included, and the pen ends behind all of them |
| WordWrap.DrawAtMargin | testapp/crossnook-text.c:292-293 | a space at the margin is dropped, and another glyph without advance is drawn there |
| WordWrap.LinesStack | testapp/crossnook-text.c:346-351 | each line stands one leading below the one before it |
| WordWrap.RenderCps | testapp/crossnook-text.c:282-309 | the drawing loop places the glyphs of a line, dropping spaces while the pen is at the margin |
| WordWrap.RenderBlock | testapp/crossnook-text.c:314-354 | decodes a text, draws exactly its wrapped lines one baseline below the other, and returns how many |
| GlyphBlend.PackedChannels | testapp/crossnook-text.c:76-85 | packing and unpacking the three channels undo each other |
| GlyphBlend.MixStaysBetween | testapp/crossnook-text.c:81-83 | a blended channel lies between back and fore and reaches them at coverage 0 and 255 |
| GlyphBlend.Blend | testapp/crossnook-text.c:76-85 | full coverage gives the foreground exactly, none the background exactly |
| GlyphBlend.BlendIsExact | testapp/crossnook-text.c:76-85 | each channel of a blend is the point that far on the way from back to fore, rounded down |
| GlyphBlend.DrawGlyph | testapp/crossnook-text.c:222-254 | exactly the on-screen pixels with coverage change, each to its blend over the background color |
| GlyphBlend.TouchedAreCovered | testapp/crossnook-text.c:222-254 | the pixels that change are the covered pixels of the bitmap moved to its place, as far as they are on the screen |
| Fnv.ScaleInvertible32 | testapp/crossnook-cre-test.cpp:74 | the wrapping product with the 32-bit prime can be undone by another one |
| Fnv.ScaleInvertible64 | src/progress/book_identity.c:48 | the same for the 64-bit prime |
| Fnv.OneByteChangesPage | testapp/crossnook-cre-test.cpp:69-77 | two pages of equal length that differ in exactly one byte have different checksums |
| Fnv.ChecksumBytes | testapp/crossnook-cre-test.cpp:69-77 | the loop over a wrapping 32-bit word computes the FNV-1a checksum of the buffer |
| Fnv.MaskedIsWrapped | testapp/validate-cre.py:32 | the low 32 bits of the wide product are the wrapping product |
| Fnv.Fnv1a | testapp/validate-cre.py:28-33 | the loop that multiplies in a wide word and masks computes the same checksum |
| Fnv.CheckValues | src/progress/book_identity.c:29-50 | the published FNV-1a values of both widths for nothing and for the letter a |
| BookIdentity.HexTextInjective | src/progress/book_identity.c:51-55 | different 64-bit hashes have different digits |
| BookIdentity.OneByteChangesIdentity | src/progress/book_identity.c:29-58 | two paths of equal length that differ in exactly one byte get different book identities |
| BookIdentity.Identify | src/progress/book_identity.c:29-58 | refuses empty and overlong paths; otherwise the hashing loop and the loop that shifts out the digits give the prefix and the sixteen digits of the hash |
| Font.ParseRow | testapp/make_font.py:412-417 | a row is accepted exactly if it has only '#' and '.', and its bits are the inked columns |
| Font.Parse | testapp/make_font.py:407-419 | glyph art is accepted exactly if it is seven good rows of five, and each bit is as drawn |
| Font.PackingIsFaithful | testapp/make_font.py:407-419 | art and packed rows determine each other |
| Font.EveryGlyphIsDrawn | testapp/make_font.py:407-419 | every seven rows of five bits are the packing of some accepted art, so art and glyphs correspond one to one |
| Font.ColumnValues | testapp/make_font.py:407-419 | the leftmost column is the highest of the five bits |
| Raster.PutPixel | testapp/crossnook-test.c:112-117 | sets one pixel, if it is on the screen |
| Raster.FillRect | testapp/crossnook-test.c:100-110 | sets exactly the on-screen pixels of the rectangle, corners included |
| Raster.DrawChar | testapp/crossnook-test.c:120-137 | every on-screen pixel of the cell gets the color of its bit and every other pixel keeps its own, at any position and scale; characters without a glyph become a question mark |
| Raster.GlyphsInOrder | testapp/crossnook-test.c:120-130 | glyph n is that of character 32 + n, and every other character has the question mark's |
| Raster.DrawnShowsArt | testapp/crossnook-test.c:130-136 | drawn from packed art, a pixel in a square of the cell has ink exactly where the art has '#', and pixels outside the cell keep their color |
| Dns.EncodeName | testapp/dns_mock_server.py:40-47 | writes each label behind its length, refusing labels that are not ASCII or over 255 bytes |
| Dns.RunParseQuestion | testapp/dns_mock_server.py:50-68 | the parsing loop reads the question as specified, refusing every other query |
| Dns.QuestionRoundTrip | testapp/dns_mock_server.py:40-68 | a query for a name is understood as that name with exactly its question bytes if every label has 1 to 63 bytes, and refused if any has not |
| Dns.PointerFindsQuestion | testapp/dns_mock_server.py:87 | the owner pointer of a response leads to the name of its question |
| Dns.AnswersResolve | testapp/dns_mock_server.py:81-138 | in every normal mode each answer is an address record at its place, and its compressed owner reads as the name that was asked for |
| DnsHeader.HeaderReads | testapp/dns_mock_server.py:81-133 | read back from its bytes, the header carries the id of the query unless the mode breaks it, and exactly the flags and the code the mode asks for |
| DnsHeader.AsciiIsSevenBits | testapp/dns_mock_server.py:64 | the labels that can be decoded are those of seven-bit bytes |
| DnsHeader.RootIsUnderstood | testapp/dns_mock_server.py:50-68 | the shortest query, for the root, is understood |
| DnsHeader.CountMatches | testapp/dns_mock_server.py:127-133 | in every mode the answer count of the header is the number of records that follow the question |
| DnsHeader.BaseIsFound | testapp/dns_mock_server.py:81-126 | a response has answers exactly if its mode is not one of the silent ones, and a plain query finds the server's address under the name asked for |
| DnsHeader.AddressesOfMode | testapp/dns_mock_server.py:101-113 | how many addresses each mode with several gives, which and in which order |
| DnsHeader.PointerReaches | testapp/dns_mock_server.py:114-119 | a pointer made for an offset is read as that offset |
| DnsHeader.PointersMislead | testapp/dns_mock_server.py:114-119 | the owner of the looping answer can never be read; that of the bad pointer cannot unless the question reaches byte 255, and then it is what reads there |

## Left out

- File descriptors, fsync, rename, directory checks and path building: reduced to the outcomes of open, load and save; a layout is null, unusable, usable for the config path only, or prepared.
- The credential and identity files as bytes; only the settings file is modelled down to its bytes. SettingsFile is taken on values: lines and fields instead of offsets into a buffer.
- AccountState.Device.CreateIdentity: does not model another process that creates the identity file between the check and the exclusive write.
- AccountBootstrap.UserkeyFromPassword: the digest, MD5, is a parameter: any function from passwords to 16 bytes.
- AccountSetupUi.Screen.ShowResult: the message, the focus and the editing flags of the screen are left out.
- `system_errno`, the HTTP outcome fields and the individual clock and resolver error codes: kept as numbers or dropped.
- Loss of an uncertain write by a power loss several calls later: the run theorems are about visible state, the power-loss theorem about one call from a durable start.
- Any claim that stored settings and credentials come from the same submission: replacing a disabled account can save settings and then fail on credentials.
- The checks of the sync controllers before an exchange (settings, credentials, configuration): reduced to stopping or going on.
- The retry advice and the fine classification of failed exchanges in the sync policy: a failure is carried as its status, and how the transport of a failed GET failed is not told apart.
- ReaderSync.App.Exchange: the exchange with the server (ProgressSync) is taken on values; the original fills its result step by step.
- ReaderState.Reply: of the server it is assumed that it stores nothing it refuses with 401 and has stored what it acknowledges.
- ReaderSync.App.LoadRecord: a record file is absent, holds a position or fails to load in one way; its bytes and checksum are not modelled.
- ReaderSync.App.SaveRecord: which positions are well formed enough to be stored is a parameter.
- Remote device names and timestamps, and what a server may do to records other than store the last accepted one.
- ReaderAgreement.ManualSyncAgrees: assumes that a position captured on a page leads back to that page, which the rendering engine provides; so does SettlingAgrees.
- WordWrap.RenderBlock: takes texts of at most 512 code points; the decoder stores no more than that, so the original has no defined lines for longer ones.
- FreeType and CREngine: a glyph is a coverage bitmap with a non-negative advance, the same when measuring and drawing; a page is a number.
- The ink statistics of the text renderer, monochrome coverage bitmaps and text drawing in the 5x7 font beyond single characters.
- GlyphBlend.DrawGlyph: takes 8-bit coverage only and does not model the row pitch of the bitmap buffer.
- Fnv.Fnv1a: the unbounded integer of the original is a 64-bit word, which is wide enough for every product (`Fnv.ProductFits`).
- BookIdentity.Identify: a path is the bytes before its terminator, and a null path is left out.
- Cutting and padding of packets and the transport behaviour of the mock server's modes; its other modes only choose what a packet says.
- Touch and keyboard handling, rendering of screens, framebuffer flushing, name tables and wiping of secrets.
- Sockets, TLS, SNTP, HTTP and JSON: each is one answer of the environment.
