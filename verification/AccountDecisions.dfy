// What decides how far the setup operations get: each outcome, stated on the state and
// the answers before the call.
module AccountDecisions {
  import opened Bytes
  import opened Wrappers
  import opened SettingsFile
  import opened AccountState
  import opened AccountBootstrap
  import A = SyncActivation
  import opened AccountSetup
  import opened AccountHistory
  import opened AccountSafety
  import opened AccountConvergence
  import opened AccountReports
  import opened Network

  // ----- Stores -----

  /** After a visible save a load gives what was saved; after a refused one it gives what it gave before. */
  lemma SettingsAreReadBack(r: Rules, w: World, s: Settings, o: SaveOutcome<SettingsFault>)
    ensures var done := SaveSettings(r, w, s, o);
            var visible := done.report.Ok? || done.report.DurabilityUncertain?;
            && (visible <==> r.valid(s) && !o.Refused?) && (done.report.Ok? <==> r.valid(s) && o.Durable?)
            && (visible ==> LoadSettings(r, done.world.disk, NO_FAULTS).Ok? && done.world.disk.settings.value == s)
            && (!visible ==> done.world.disk == w.disk)
            && done.world.disk.credentials == w.disk.credentials && done.world.disk.identity == w.disk.identity
  {}

  lemma CredentialsAreReadBack(w: World, c: Credentials, o: SaveOutcome<CredentialFault>)
    ensures var done := SaveCredentials(w, c, o);
            var visible := done.report.Ok? || done.report.DurabilityUncertain?;
            && (visible <==> ValidCredentials(c) && !o.Refused?) && (done.report.Ok? <==> ValidCredentials(c) && o.Durable?)
            && (visible ==> LoadCredentials(done.world.disk, NO_FAULTS).Ok? && done.world.disk.credentials.value == c)
            && (!visible ==> done.world.disk == w.disk)
            && done.world.disk.settings == w.disk.settings && done.world.disk.identity == w.disk.identity
  {}

  /** An identity that was created is the one loaded from then on; one that was there stays. */
  lemma IdentityIsReadBack(w: World, e: IdentityAnswers)
    ensures var done := PrepareIdentity(w, e);
            var d, d' := w.disk, done.world.disk;
            var created := done.report.Created? || done.report.DurabilityUncertain?;
            && (created <==> d.identity.Absent? && e.load.None? && e.reload.None? && e.creation.Some?
                             && !e.creation.value.NotCreated?)
            && (created ==> d' == d.(identity := Holds(e.creation.value.id)) && LoadIdentity(d', None).Ok?)
            && (done.report.Ok? <==> d.identity.Holds? && e.load.None?)
            && (!d.identity.Absent? ==> d' == d)
            && (done.report.Created? ==> e.creation.value.NewDurable?)
  {}

  // ----- Bootstrap -----

  /** Both stores open and load, and what they hold may be replaced. */
  ghost predicate Reconcilable(r: Rules, layout: Layout, d: Disk, input: Input, e: AccountBootstrap.Answers) {
    Admits(r, layout, d, input) && e.faults == NO_FAULTS
  }

  /** The settings are as requested before the credentials are looked at. */
  ghost predicate SettingsSettled(d: Disk, input: Input, e: AccountBootstrap.Answers)
    requires NoNulls(input)
  {
    d.settings == Holds(Requested(input)) || e.settingsSave.Durable?
  }

  ghost predicate CredentialsSettled(r: Rules, d: Disk, input: Input, e: AccountBootstrap.Answers)
    requires NoNulls(input)
  {
    d.credentials == Holds(RequestedCredentials(r, input)) || e.credentialsSave.Durable?
  }

  /** A bootstrap succeeds, is uncertain, or fails to write exactly as the two saves go, the settings first. */
  lemma BootstrapDecides(r: Rules, w: World, layout: Layout, input: Input, e: AccountBootstrap.Answers)
    ensures var x := Bootstrap(r, w, layout, input, e).report.result;
            var d, open := w.disk, Reconcilable(r, layout, w.disk, input, e);
            && (x.Ok? <==> open && SettingsSettled(d, input, e) && CredentialsSettled(r, d, input, e))
            && (x.DurabilityUncertain? <==>
                  open && if SettingsSettled(d, input, e)
                          then !CredentialsSettled(r, d, input, e) && e.credentialsSave.Uncertain?
                          else e.settingsSave.Uncertain?)
            && (x.SettingsWriteFailed? <==> open && !SettingsSettled(d, input, e) && e.settingsSave.Refused?)
            && (x.CredentialsWriteFailed? <==>
                  open && SettingsSettled(d, input, e) && !CredentialsSettled(r, d, input, e) && e.credentialsSave.Refused?)
  {
    hide r.Derive;
    if layout.Prepared? && Acceptable(r, input) {
      HexIsCredentialText(r.Derive(input.password.value));
    }
  }

  /** Why a bootstrap did not get as far as writing. */
  lemma BootstrapRefuses(r: Rules, w: World, layout: Layout, input: Input, e: AccountBootstrap.Answers)
    ensures var done := Bootstrap(r, w, layout, input, e);
            var x, d, f := done.report.result, w.disk, e.faults;
            var begun := layout.Prepared? && Acceptable(r, input);
            && (x.InvalidInput? <==> !layout.NoLayout? && !Acceptable(r, input))
            && (x.InvalidArgument? <==> layout.NoLayout? || (!layout.Prepared? && Acceptable(r, input)))
            && (x.ExistingActive? <==>
                  begun && f.settingsOpen.None? && f.credentialsOpen.None? && f.settingsLoad.None? && Enabled(r, d))
            && (x.ExistingSettingsFailed? || x.ExistingCredentialsFailed? || x.ExistingActive? <==>
                  begun && !Reconcilable(r, layout, d, input, e))
            && (x.ExistingSettingsFailed? ==> f.settingsOpen.Some? || !LoadSettings(r, d, f).Ok?)
            && (x.ExistingCredentialsFailed? ==> f.credentialsOpen.Some? || !LoadCredentials(d, f).Ok?)
            && (begun && f.settingsOpen.Some? ==> x.ExistingSettingsFailed?)
            && (!Reconcilable(r, layout, d, input, e) ==> done.world.disk == d)
  {
    hide r.Derive;
  }

  /** What a bootstrap leaves stored: the settings first, the credentials only behind settled settings. */
  lemma BootstrapLeaves(r: Rules, w: World, layout: Layout, input: Input, e: AccountBootstrap.Answers)
    requires Reconcilable(r, layout, w.disk, input, e)
    ensures var d, d' := w.disk, Bootstrap(r, w, layout, input, e).world.disk;
            && d'.settings == (if e.settingsSave.Refused? then d.settings else Holds(Requested(input)))
            && d'.credentials == (if SettingsSettled(d, input, e) && !e.credentialsSave.Refused?
                                  then Holds(RequestedCredentials(r, input)) else d.credentials)
            && d'.identity == d.identity
  {
    HexIsCredentialText(r.Derive(input.password.value));
    hide r.Derive;
  }

  // ----- Activation -----

  ghost predicate SettingsReady(r: Rules, d: Disk, layout: Layout, f: Faults) {
    (layout.ConfigOnly? || layout.Prepared?) && f.settingsOpen.None? && f.settingsLoad.None? && Addressed(r, d)
  }

  ghost predicate CredentialsReady(r: Rules, d: Disk, layout: Layout, f: Faults) {
    && SettingsReady(r, d, layout, f) && layout.Prepared?
    && f.credentialsOpen.None? && f.credentialsLoad.None? && HasCredentials(d)
  }

  ghost predicate IdentityReady(r: Rules, d: Disk, layout: Layout, e: A.Answers) {
    CredentialsReady(r, d, layout, e.faults) && e.identityOpen.None? && e.identityLoad.None? && d.identity.Holds?
  }

  ghost predicate Configured(r: Rules, d: Disk, layout: Layout, runtime: Option<A.Runtime>, e: A.Answers) {
    IdentityReady(r, d, layout, e) && A.ValidRuntime(runtime) && e.client.Ok? && e.clientUsesTls
  }

  /** The time is known, or the caller knows it. */
  ghost predicate Timed(r: Rules, d: Disk, layout: Layout, runtime: Option<A.Runtime>, e: A.Answers) {
    Configured(r, d, layout, runtime, e) && (runtime.value.policy.Establish? ==> e.time.TimeOk?)
  }

  ghost predicate Named(r: Rules, d: Disk, layout: Layout, runtime: Option<A.Runtime>, e: A.Answers) {
    Timed(r, d, layout, runtime, e) && e.dns.DnsOk? && e.addresses > 0
  }

  ghost predicate Secured(r: Rules, d: Disk, layout: Layout, runtime: Option<A.Runtime>, e: A.Answers) {
    Named(r, d, layout, runtime, e) && e.setTls.Ok?
  }

  ghost predicate Granted(r: Rules, d: Disk, layout: Layout, runtime: Option<A.Runtime>, e: A.Answers) {
    Secured(r, d, layout, runtime, e) && e.authorize.Ok?
  }

  /** The phases of an activation that were attempted, and whether the server granted it. */
  datatype Attempts = Attempts(settings: bool, credentials: bool, identity: bool, time: bool, names: bool, asked: bool,
                               granted: bool)

  function Attempted(a: A.Activation): Attempts {
    Attempts(a.settingsAttempted, a.credentialsAttempted, a.identityAttempted, a.timeAttempted, a.dnsAttempted,
             a.authAttempted, a.authSucceeded)
  }

  lemma AuthorizeAttempts(r: Rules, w: World, s: Settings, c: Credentials, e: A.Answers, report: A.Activation)
    requires !report.authSucceeded
    ensures Attempted(A.AuthorizePhase(r, w, s, c, e, report).report) == Attempted(report).(granted := e.authorize.Ok?)
  {
    hide Emit, SaveSettings, A.MapAuthorization;
  }

  lemma NetworkAttempts(r: Rules, w: World, runtime: A.Runtime, s: Settings, c: Credentials, e: A.Answers,
                        report: A.Activation)
    requires !report.timeAttempted && !report.dnsAttempted && !report.authAttempted && !report.authSucceeded
    ensures var establish := runtime.policy.Establish?;
            var timed := establish ==> e.time.TimeOk?;
            var secured := timed && e.dns.DnsOk? && e.addresses > 0 && e.setTls.Ok?;
            Attempted(A.NetworkPhase(r, w, runtime, s, c, e, report).report)
            == Attempted(report).(time := establish, names := timed, asked := secured, granted := secured && e.authorize.Ok?)
  {
    hide A.AuthorizePhase, Emit;
    var establish := runtime.policy.Establish?;
    var w' := Emit(if establish then Emit(w, TimeQuery) else w, DnsQuery);
    AuthorizeAttempts(r, w', s, c, e,
                      report.(timeAttempted := establish, timeResult := if establish then e.time else TimeOk,
                              dnsAttempted := true, dnsResult := e.dns, authAttempted := true, kosyncResult := e.authorize));
  }

  lemma IdentityAttempts(r: Rules, w: World, runtime: Option<A.Runtime>, s: Settings, c: Credentials, e: A.Answers,
                         report: A.Activation)
    requires !report.timeAttempted && !report.dnsAttempted && !report.authAttempted && !report.authSucceeded
    ensures var configured := e.identityOpen.None? && e.identityLoad.None? && w.disk.identity.Holds?
                              && A.ValidRuntime(runtime) && e.client.Ok? && e.clientUsesTls;
            var timed := configured && (runtime.value.policy.Establish? ==> e.time.TimeOk?);
            var secured := timed && e.dns.DnsOk? && e.addresses > 0 && e.setTls.Ok?;
            Attempted(A.IdentityPhase(r, w, runtime, s, c, e, report).report)
            == Attempted(report).(time := configured && runtime.value.policy.Establish?, names := timed, asked := secured,
                                  granted := secured && e.authorize.Ok?)
  {
    hide A.NetworkPhase;
    if A.ValidRuntime(runtime) {
      NetworkAttempts(r, Emit(w, IdentityRead), runtime.value, s, c, e,
                      report.(identityResult := LoadIdentity(w.disk, e.identityLoad)));
    }
  }

  /** Each phase is attempted exactly if everything before it succeeded. */
  lemma ActivationAttempts(r: Rules, w: World, layout: Layout, runtime: Option<A.Runtime>, e: A.Answers)
    ensures var d := w.disk;
            Attempted(A.Activate(r, w, layout, runtime, e).report)
            == Attempts(layout.ConfigOnly? || layout.Prepared?,
                        SettingsReady(r, d, layout, e.faults),
                        CredentialsReady(r, d, layout, e.faults),
                        Configured(r, d, layout, runtime, e) && runtime.value.policy.Establish?,
                        Timed(r, d, layout, runtime, e),
                        Secured(r, d, layout, runtime, e),
                        Granted(r, d, layout, runtime, e))
  {
    hide A.ValidRuntime, A.IdentityPhase;
    if LoadSettings(r, w.disk, e.faults).Ok? && LoadCredentials(w.disk, e.faults).Ok? {
      IdentityAttempts(r, Emit(w, CredentialsRead), runtime, w.disk.settings.value, w.disk.credentials.value, e,
                       A.UNTRIED.(settingsAttempted := true, settingsResult := LoadSettings(r, w.disk, e.faults),
                                  credentialsAttempted := true, credentialResult := LoadCredentials(w.disk, e.faults),
                                  identityAttempted := true));
    }
  }

  /** How an activation ends once the server has been asked. */
  function Answered(e: A.Answers): A.Status {
    if e.authorize.Ok? then
      match e.save
      case Durable => A.Status.Ok
      case Uncertain => A.Status.DurabilityUncertain
      case Refused(_) => A.SettingsSaveFailed
    else if e.authorize.AuthFailed? then A.AuthRejected
    else if e.authorize.TransportError? then A.HttpsFailed
    else if e.authorize.NoMemory? then A.Status.NoMemory
    else if e.authorize.Invalid? then A.ConfigFailed
    else A.ServiceFailed
  }

  /** How it ends once settings and credentials are loaded: the status names the first thing that was missing. */
  function Online(d: Disk, runtime: Option<A.Runtime>, e: A.Answers): A.Status {
    if e.identityOpen.Some? || e.identityLoad.Some? || !d.identity.Holds? then A.Status.IdentityFailed
    else if !A.ValidRuntime(runtime) || !e.client.Ok? || !e.clientUsesTls then A.ConfigFailed
    else if runtime.value.policy.Establish? && !e.time.TimeOk? then A.TrustedTimeFailed
    else if !e.dns.DnsOk? || e.addresses == 0 then A.DnsFailed
    else if !e.setTls.Ok? then A.ConfigFailed
    else Answered(e)
  }

  ghost function FirstMissing(r: Rules, d: Disk, layout: Layout, runtime: Option<A.Runtime>, e: A.Answers): A.Status {
    if layout.NoLayout? || layout.Unusable? then A.Status.InvalidArgument
    else if e.faults.settingsOpen.Some? || e.faults.settingsLoad.Some? || !(Enabled(r, d) || Off(r, d)) then A.SettingsFailed
    else if Enabled(r, d) then A.Status.AlreadyEnabled
    else if !Addressed(r, d) then A.ConfigFailed
    else if !CredentialsReady(r, d, layout, e.faults) then A.CredentialsFailed
    else Online(d, runtime, e)
  }

  lemma AuthorizeStatus(r: Rules, w: World, s: Settings, c: Credentials, e: A.Answers, report: A.Activation)
    requires r.valid(s.(enabled := true))
    ensures A.AuthorizePhase(r, w, s, c, e, report).report.status == Answered(e)
  {
    hide Emit;
  }

  lemma NetworkStatus(r: Rules, w: World, runtime: A.Runtime, s: Settings, c: Credentials, e: A.Answers,
                      report: A.Activation)
    requires r.valid(s.(enabled := true))
    ensures A.NetworkPhase(r, w, runtime, s, c, e, report).report.status
            == (if runtime.policy.Establish? && !e.time.TimeOk? then A.TrustedTimeFailed
                else if !e.dns.DnsOk? || e.addresses == 0 then A.DnsFailed
                else if !e.setTls.Ok? then A.ConfigFailed else Answered(e))
  {
    hide A.AuthorizePhase, Emit, Answered;
    var establish := runtime.policy.Establish?;
    var w' := Emit(if establish then Emit(w, TimeQuery) else w, DnsQuery);
    AuthorizeStatus(r, w', s, c, e,
                    report.(timeAttempted := establish, timeResult := if establish then e.time else TimeOk,
                            dnsAttempted := true, dnsResult := e.dns, authAttempted := true, kosyncResult := e.authorize));
  }

  lemma ReadingChangesNothing(w: World, e: A.Answers)
    ensures Emit(w, IdentityRead).disk == w.disk && Emit(w, CredentialsRead).disk == w.disk
    ensures LoadIdentity(w.disk, e.identityLoad).Ok? <==> e.identityLoad.None? && w.disk.identity.Holds?
    ensures LoadCredentials(w.disk, e.faults).Ok? <==> e.faults.credentialsLoad.None? && HasCredentials(w.disk)
    ensures OpenIdentity(e.identityOpen).Ok? <==> e.identityOpen.None?
    ensures OpenCredentials(e.faults).Ok? <==> e.faults.credentialsOpen.None?
  {}

  lemma IdentityStatus(r: Rules, w: World, runtime: Option<A.Runtime>, s: Settings, c: Credentials, e: A.Answers,
                       report: A.Activation)
    requires r.valid(s.(enabled := true))
    ensures A.IdentityPhase(r, w, runtime, s, c, e, report).report.status == Online(w.disk, runtime, e)
  {
    hide A.NetworkPhase, Answered, A.ValidRuntime, Emit, LoadIdentity, OpenIdentity;
    ReadingChangesNothing(w, e);
    if A.ValidRuntime(runtime) {
      RuntimeIsThere(runtime);
      NetworkStatus(r, Emit(w, IdentityRead), runtime.value, s, c, e,
                    report.(identityResult := LoadIdentity(w.disk, e.identityLoad)));
    }
  }

  lemma CredentialsStatus(r: Rules, w: World, layout: Layout, runtime: Option<A.Runtime>, s: Settings, e: A.Answers,
                          report: A.Activation)
    requires r.valid(s.(enabled := true))
    ensures A.CredentialsPhase(r, w, layout, runtime, s, e, report).report.status
            == if layout.Prepared? && e.faults.credentialsOpen.None? && e.faults.credentialsLoad.None? && HasCredentials(w.disk)
               then Online(w.disk, runtime, e) else A.CredentialsFailed
  {
    hide A.IdentityPhase, Online, Emit, LoadCredentials, OpenCredentials, HasCredentials;
    ReadingChangesNothing(w, e);
    var x := LoadCredentials(w.disk, e.faults);
    if !layout.Prepared? || e.faults.credentialsOpen.Some? {
    } else if x.Ok? {
      IdentityStatus(r, Emit(w, CredentialsRead), runtime, s, w.disk.credentials.value, e,
                     report.(credentialResult := x, identityAttempted := true));
    }
  }

  /** The status of an activation names the first thing that was missing, or how the server and the save answered. */
  lemma ActivationStatusIs(r: Rules, w: World, layout: Layout, runtime: Option<A.Runtime>, e: A.Answers)
    requires Sound(r)
    ensures A.Activate(r, w, layout, runtime, e).report.status == FirstMissing(r, w.disk, layout, runtime, e)
  {
    hide A.CredentialsPhase, Online;
    if Addressed(r, w.disk) {
      CredentialsStatus(r, w, layout, runtime, w.disk.settings.value, e,
                        A.UNTRIED.(settingsAttempted := true, settingsResult := LoadSettings(r, w.disk, e.faults),
                                   credentialsAttempted := true));
    }
  }

  /** Activation stores exactly the settings it found, enabled, and exactly if they were granted and the save went through. */
  lemma ActivationLeaves(r: Rules, w: World, layout: Layout, runtime: Option<A.Runtime>, e: A.Answers)
    requires Sound(r)
    ensures A.Activate(r, w, layout, runtime, e).world.disk
            == if Granted(r, w.disk, layout, runtime, e) && !e.save.Refused?
               then w.disk.(settings := Holds(w.disk.settings.value.(enabled := true))) else w.disk
  {
    hide A.ValidRuntime, A.SaveReport, A.MapAuthorization;
  }

  // ----- Which calls begin -----

  /** The stores can be looked at; enabled settings are enough to see that an account is enabled. */
  ghost predicate SeenClearly(r: Rules, d: Disk, layout: Layout, f: Faults) {
    && layout.Prepared? && f.settingsOpen.None? && f.settingsLoad.None?
    && (Enabled(r, d) || (f.credentialsOpen.None? && f.credentialsLoad.None?))
  }

  /** What is seen clearly is what is there, and nothing else is taken for it. */
  lemma ObservationIsHonest(r: Rules, w: World, layout: Layout, f: Faults)
    ensures var seen, clear := Observe(r, w, layout, f), SeenClearly(r, w.disk, layout, f);
            && (seen.result.ObservationOk? <==>
                  clear && !Local(r, w.disk).CorruptOrUnsupported? && !Local(r, w.disk).Unreadable?)
            && (clear ==> seen.local == Local(r, w.disk))
            && (clear ==> (seen.result.ObservationCorrupt? <==> seen.local.CorruptOrUnsupported?))
            && (seen.result.ObservationOk? ==>
                  seen.settings == if w.disk.settings.Holds? then w.disk.settings.value else DEFAULTS)
            && seen.world.disk == w.disk
  {}

  /** Settings that are there but are not valid settings of this version. */
  ghost predicate BrokenSettings(r: Rules, d: Disk) {
    || d.settings == Damaged(SettingsResult.Corrupt) || d.settings == Damaged(SettingsResult.UnsupportedVersion)
    || (d.settings.Holds? && !r.valid(d.settings.value))
  }

  ghost predicate BrokenCredentials(d: Disk) {
    || d.credentials == Damaged(CredentialResult.Corrupt) || d.credentials == Damaged(CredentialResult.UnsupportedVersion)
    || (d.credentials.Holds? && !ValidCredentials(d.credentials.value))
  }

  /** The state of an account, read off its two files. */
  lemma LocalMeans(r: Rules, d: Disk)
    ensures var x, disabled := Local(r, d), d.settings.Absent? || Off(r, d);
            && (x.EnabledState? <==> Enabled(r, d))
            && (x.NoAccount? <==> d.settings.Absent? && d.credentials.Absent?)
            && (x.OrphanCredentials? <==> d.settings.Absent? && HasCredentials(d))
            && (x.PartialDisabled? <==> Off(r, d) && d.credentials.Absent?)
            && (x.CompleteDisabled? <==> Off(r, d) && HasCredentials(d))
            && (x.CorruptOrUnsupported? <==> BrokenSettings(r, d) || (disabled && BrokenCredentials(d)))
            && (x.Unreadable? <==> (d.settings.Damaged? && !BrokenSettings(r, d))
                                   || (disabled && d.credentials.Damaged? && !BrokenCredentials(d)))
  {}

  /** What is not seen clearly is reported as unreadable or, if a load said so, as corrupt. */
  lemma ObscuredIsSaid(r: Rules, w: World, layout: Layout, f: Faults)
    ensures var seen, clear := Observe(r, w, layout, f), SeenClearly(r, w.disk, layout, f);
            && (seen.result.ObservationUnreadable? <==> seen.local.Unreadable?)
            && (seen.result.ObservationCorrupt? <==> seen.local.CorruptOrUnsupported?)
            && (!clear ==> seen.local.Unreadable? || seen.local.CorruptOrUnsupported?)
            && (!layout.Prepared? || f.settingsOpen.Some? ==> seen.local.Unreadable?)
            && (clear ==> seen.world == if Off(r, w.disk) || w.disk.settings.Absent? then Emit(w, CredentialsRead) else w)
  {}

  /** The states in which each intent may begin; a partial account only with the URL and name it has. */
  ghost predicate MayBegin(r: Rules, d: Disk, input: Input, intent: Intent)
    requires NoNulls(input)
  {
    match intent
    case NewOrResume =>
      Local(r, d).NoAccount? || (Local(r, d).PartialDisabled? && MatchesSettings(input, d.settings.value))
    case ReplaceDisabled => Local(r, d).CompleteDisabled?
    case OtherIntent => false
  }

  lemma SetupBeginsIff(r: Rules, w: World, layout: Layout, input: Option<Input>, intent: Intent,
                       runtime: Option<A.Runtime>, s: Settings, e: Environment, report: Setup)
    requires !report.bootstrapAttempted && report.local == Local(r, w.disk)
    requires report.local.NoAccount? || report.local.PartialDisabled? || report.local.CompleteDisabled?
    requires report.local.PartialDisabled? ==> s == w.disk.settings.value
    ensures var done := RunSetup(r, w, layout, input, intent, runtime, s, e, report);
            && (done.report.bootstrapAttempted <==>
                  input.Some? && BasicInputValid(input.value) && MayBegin(r, w.disk, input.value, intent))
            && (!done.report.bootstrapAttempted ==> done.world == w)
  {
    hide Bootstrap, BasicInputValid, PrepareIdentity, A.Activate, LoadProfile;
    BasicInputHasNoNulls(input);
  }

  lemma BasicInputHasNoNulls(input: Option<Input>)
    ensures input.Some? && BasicInputValid(input.value) ==> NoNulls(input.value)
  {}

  lemma SubmitGoesOn(r: Rules, w: World, layout: Layout, input: Option<Input>, intent: Intent,
                     runtime: Option<A.Runtime>, e: Environment)
    ensures var seen, done := Observe(r, w, layout, e.observe), Submit(r, w, layout, input, intent, runtime, e);
            if seen.result.ObservationOk? && !seen.local.OrphanCredentials? && !seen.local.EnabledState?
            then done == RunSetup(r, seen.world, layout, input, intent, runtime, seen.settings, e, BEGUN.(local := seen.local))
            else done.world == seen.world && !done.report.bootstrapAttempted
  {
    hide RunSetup, Observe;
  }

  /**
    * A submit begins exactly if the stores are seen clearly, the input is usable, and the account is in a
    * state the intent is for; otherwise nothing is stored.
    */
  lemma SubmitBeginsIff(r: Rules, w: World, layout: Layout, input: Option<Input>, intent: Intent,
                        runtime: Option<A.Runtime>, e: Environment)
    ensures var done := Submit(r, w, layout, input, intent, runtime, e);
            && (done.report.bootstrapAttempted <==>
                  && SeenClearly(r, w.disk, layout, e.observe)
                  && input.Some? && BasicInputValid(input.value) && MayBegin(r, w.disk, input.value, intent))
            && (!done.report.bootstrapAttempted ==> done.world.disk == w.disk)
  {
    hide Submit, RunSetup, Observe, SeenClearly, BasicInputValid, MayBegin, Local;
    ObservationIsHonest(r, w, layout, e.observe);
    SubmitGoesOn(r, w, layout, input, intent, runtime, e);
    BasicInputHasNoNulls(input);
    if input.Some? && NoNulls(input.value) {
      BeginningStates(r, w.disk, input.value, intent);
    }
    var seen := Observe(r, w, layout, e.observe);
    if seen.result.ObservationOk? && !seen.local.OrphanCredentials? && !seen.local.EnabledState? {
      LocalOfDisk(r, seen.world.disk);
      SetupBeginsIff(r, seen.world, layout, input, intent, runtime, seen.settings, e, BEGUN.(local := seen.local));
    }
  }

  lemma BeginningStates(r: Rules, d: Disk, input: Input, intent: Intent)
    requires NoNulls(input)
    ensures MayBegin(r, d, input, intent) ==>
              Local(r, d).NoAccount? || Local(r, d).PartialDisabled? || Local(r, d).CompleteDisabled?
  {}

  lemma LocalOfDisk(r: Rules, d: Disk)
    ensures Local(r, d).PartialDisabled? || Local(r, d).CompleteDisabled? ==> d.settings.Holds?
    ensures !Local(r, d).Unknown?
  {}

  /** Why a submit did not begin. */
  ghost function Refusal(r: Rules, d: Disk, input: Option<Input>, intent: Intent): Status {
    match Local(r, d)
    case EnabledState => Status.AlreadyEnabled
    case OrphanCredentials => IncompleteState
    case CorruptOrUnsupported => CorruptOrUnsupportedState
    case NoAccount | PartialDisabled =>
      if !intent.ReplaceDisabled? && (intent.OtherIntent? || input.None? || !BasicInputValid(input.value))
      then Status.InvalidInput else Precondition
    case CompleteDisabled =>
      if !intent.NewOrResume? && (intent.OtherIntent? || input.None? || !BasicInputValid(input.value))
      then Status.InvalidInput else Precondition
    case _ => Precondition
  }

  lemma SetupRefusal(r: Rules, w: World, layout: Layout, input: Option<Input>, intent: Intent,
                     runtime: Option<A.Runtime>, s: Settings, e: Environment, report: Setup)
    requires !report.bootstrapAttempted && report.local == Local(r, w.disk)
    requires report.local.NoAccount? || report.local.PartialDisabled? || report.local.CompleteDisabled?
    ensures var done := RunSetup(r, w, layout, input, intent, runtime, s, e, report);
            !done.report.bootstrapAttempted ==> done.report.status == Refusal(r, w.disk, input, intent)
  {
    hide Bootstrap, BasicInputValid, PrepareIdentity, A.Activate, LoadProfile, Local;
    BasicInputHasNoNulls(input);
  }

  /** The status of a submit that saw clearly and did not begin says what stood in the way. */
  lemma SubmitRefusal(r: Rules, w: World, layout: Layout, input: Option<Input>, intent: Intent,
                      runtime: Option<A.Runtime>, e: Environment)
    requires SeenClearly(r, w.disk, layout, e.observe)
    ensures var done := Submit(r, w, layout, input, intent, runtime, e);
            !done.report.bootstrapAttempted ==> done.report.status == Refusal(r, w.disk, input, intent)
  {
    hide RunSetup, Observe, SeenClearly, BasicInputValid, Local;
    ObservationIsHonest(r, w, layout, e.observe);
    LocalOfDisk(r, w.disk);
    var seen := Observe(r, w, layout, e.observe);
    if seen.result.ObservationOk? && !seen.local.OrphanCredentials? && !seen.local.EnabledState? {
      SetupRefusal(r, seen.world, layout, input, intent, runtime, seen.settings, e, BEGUN.(local := seen.local));
    }
  }

  /** An activation of what is stored begins exactly if a complete disabled account is seen clearly. */
  lemma ActivateExistingBeginsIff(r: Rules, w: World, layout: Layout, runtime: Option<A.Runtime>, e: Environment)
    ensures var done := ActivateExisting(r, w, layout, runtime, e);
            var clear := SeenClearly(r, w.disk, layout, e.observe);
            && (done.report.identityAttempted <==> clear && Local(r, w.disk).CompleteDisabled?)
            && (!done.report.identityAttempted ==> done.world.disk == w.disk)
            && (clear && !done.report.identityAttempted ==>
                  done.report.status == match Local(r, w.disk)
                                        case EnabledState => Status.AlreadyEnabled
                                        case CorruptOrUnsupported => CorruptOrUnsupportedState
                                        case Unreadable => Precondition
                                        case _ => IncompleteState)
  {
    hide PrepareIdentity, FinishActivation, Observe, SeenClearly, Local;
    ObservationIsHonest(r, w, layout, e.observe);
    LocalOfDisk(r, w.disk);
    PrepareAttempts(r, Observe(r, w, layout, e.observe).world, layout, runtime, e,
                    BEGUN.(local := Observe(r, w, layout, e.observe).local));
  }

  lemma FinishAttempts(r: Rules, w: World, layout: Layout, runtime: Option<A.Runtime>, e: Environment, report: Setup)
    ensures FinishActivation(r, w, layout, runtime, e, report).report.identityAttempted == report.identityAttempted
  {
    hide A.Activate, LoadProfile;
  }

  lemma PrepareAttempts(r: Rules, w: World, layout: Layout, runtime: Option<A.Runtime>, e: Environment, report: Setup)
    ensures PrepareAndActivate(r, w, layout, runtime, e, report).report.identityAttempted
  {
    hide FinishActivation, PrepareIdentity;
    FinishAttempts(r, PrepareIdentity(w, e.identity).world, layout, runtime, e,
                   report.(stage := IdentityStage, identityAttempted := true, identityResult := PrepareIdentity(w, e.identity).report));
  }

  /** The status of an inspection says what was found. */
  lemma InspectionStatus(r: Rules, w: World, layout: Layout, f: Faults)
    ensures var done := Inspect(r, w, layout, f).report;
            && (done.status.AlreadyEnabled? <==> SeenClearly(r, w.disk, layout, f) && Local(r, w.disk).EnabledState?)
            && (done.status.IncompleteState? <==> SeenClearly(r, w.disk, layout, f) && Local(r, w.disk).OrphanCredentials?)
            && (done.status.CorruptOrUnsupportedState? <==> done.local.CorruptOrUnsupported?)
            && (done.status.AlreadyEnabled? || done.status.IncompleteState? || done.status.CorruptOrUnsupportedState?
                || done.status.Precondition?)
  {}

  // ----- Where a healthy submit leads -----

  /** The account that was asked for, with the identity it has or is given. */
  ghost function Wanted(r: Rules, d: Disk, input: Input, id: HexId): Disk
    requires NoNulls(input)
  {
    Disk(Holds(Requested(input).(enabled := !d.identity.Damaged?)), Holds(RequestedCredentials(r, input)),
         if d.identity.Absent? then Holds(id) else d.identity)
  }

  lemma HealthyPrepareLeaves(r: Rules, w: World, runtime: Option<A.Runtime>, e: Environment, report: Setup)
    requires Sound(r) && Addressed(r, w.disk) && HasCredentials(w.disk) && A.ValidRuntime(runtime) && Healthy(e)
    ensures PrepareAndActivate(r, w, Prepared, runtime, e, report).world.disk
            == w.disk.(settings := Holds(w.disk.settings.value.(enabled := !w.disk.identity.Damaged?)),
                       identity := if w.disk.identity.Absent? then Holds(e.identity.creation.value.id) else w.disk.identity)
  {
    hide PrepareIdentity, A.Activate, LoadProfile, A.ValidRuntime;
    IdentityIsReadBack(w, e.identity);
    HealthyIdentityIsPrepared(w, e.identity);
    var prepared := PrepareIdentity(w, e.identity).world;
    if !w.disk.identity.Damaged? {
      HealthyActivationEnables(r, prepared, runtime, e.activation);
      ActivationLeaves(r, prepared, Prepared, runtime, e.activation);
      HealthyProfileIsReady(r, A.Activate(r, prepared, Prepared, runtime, e.activation).world);
    }
  }

  /**
    * With nothing failing, a new, resumed or replacing submit that may begin leaves exactly the account that was
    * asked for, enabled exactly if the identity file is not damaged.
    */
  lemma HealthySubmitLeaves(r: Rules, w: World, input: Input, intent: Intent, runtime: Option<A.Runtime>, e: Environment)
    requires Sound(r) && Acceptable(r, input) && A.ValidRuntime(runtime) && Healthy(e) && MayBegin(r, w.disk, input, intent)
    ensures var done := Submit(r, w, Prepared, Some(input), intent, runtime, e);
            && done.report.status == HealthyStatus(w.disk)
            && done.world.disk == Wanted(r, w.disk, input, e.identity.creation.value.id)
  {
    hide Bootstrap, PrepareAndActivate, A.ValidRuntime, HealthyActivation, HealthyIdentity, r.Derive;
    var seen := Observe(r, w, Prepared, NO_FAULTS).world;
    CleanReachesGoal(r, seen, Prepared, input);
    HexIsCredentialText(r.Derive(input.password.value));
    var booted := Bootstrap(r, seen, Prepared, input, CLEAN);
    var report := BEGUN.(local := Local(r, w.disk), stage := BootstrapStage, bootstrapAttempted := true, bootstrap := booted.report);
    HealthyPrepareActivates(r, booted.world, runtime, e, report);
    HealthyPrepareLeaves(r, booted.world, runtime, e, report);
  }

  /** Replacing a complete account leaves exactly the new one. */
  lemma HealthyReplaceActivates(r: Rules, w: World, input: Input, runtime: Option<A.Runtime>, e: Environment)
    requires Sound(r) && Acceptable(r, input) && A.ValidRuntime(runtime) && Healthy(e)
    requires Local(r, w.disk).CompleteDisabled? && !w.disk.identity.Damaged?
    ensures var done := Submit(r, w, Prepared, Some(input), ReplaceDisabled, runtime, e);
            && done.report.status.Activated?
            && done.world.disk.settings == Holds(Requested(input).(enabled := true))
            && done.world.disk.credentials == Holds(RequestedCredentials(r, input))
  {
    hide Submit, A.ValidRuntime, Healthy, Acceptable, Local;
    HealthySubmitLeaves(r, w, input, ReplaceDisabled, runtime, e);
  }

  // ----- Stages and statuses -----

  /** The profile is ready exactly if everything of an enabled account loads; it then always fits. */
  lemma ProfileReadyIff(r: Rules, w: World, e: ProfileAnswers)
    requires Sound(r)
    ensures var x, d, f := LoadProfile(r, w, e).report.status, w.disk, e.faults;
            && (x.Ready? <==> f == NO_FAULTS && e.identityOpen.None? && e.identityLoad.None?
                              && Enabled(r, d) && HasCredentials(d) && d.identity.Holds?)
            && (x.Disabled? <==> f.settingsOpen.None? && f.settingsLoad.None? && (d.settings.Absent? || Off(r, d)))
            && !x.ValidationFailed? && !x.ProfileInvalidArgument?
  {}

  /** Loading a profile only reads: the credentials, then the identity. */
  lemma ProfileReads(r: Rules, w: World, e: ProfileAnswers)
    ensures var d, f, done := w.disk, e.faults, LoadProfile(r, w, e).world;
            var first := f.settingsOpen.None? && f.settingsLoad.None? && Enabled(r, d) && f.credentialsOpen.None?;
            var second := first && f.credentialsLoad.None? && HasCredentials(d) && e.identityOpen.None?;
            && done.disk == d
            && done == (if second then Emit(Emit(w, CredentialsRead), IdentityRead)
                        else if first then Emit(w, CredentialsRead)
                        else w)
  {}

  /** Each record of a profile is tried exactly if those before it loaded and the account is enabled. */
  lemma ProfileAttempts(r: Rules, w: World, e: ProfileAnswers)
    ensures var x, d, f := LoadProfile(r, w, e).report, w.disk, e.faults;
            && x.settingsAttempted
            && (x.credentialsAttempted <==> f.settingsOpen.None? && f.settingsLoad.None? && Enabled(r, d))
            && (x.identityAttempted <==> x.credentialsAttempted && f.credentialsOpen.None? && f.credentialsLoad.None?
                                         && HasCredentials(d))
            && (x.settingsResult.Ok? <==> f.settingsOpen.None? && f.settingsLoad.None? && d.settings.Holds?
                                          && r.valid(d.settings.value))
            && (x.credentialResult.Ok? <==> x.identityAttempted)
            && (x.identityResult.Ok? <==> x.identityAttempted && e.identityOpen.None? && e.identityLoad.None?
                                          && d.identity.Holds?)
            && (x.status.ProfileIdentityFailed? <==> x.identityAttempted && !x.identityResult.Ok?)
            && (x.status.ProfileCredentialsFailed? <==> x.credentialsAttempted && !x.credentialResult.Ok?)
  {}

  /** What ends a setup between the stages. */
  function Ended(x: IdentityResult): Status {
    if x.DurabilityUncertain? then IdentityDurabilityUncertain
    else if x.Malformed? || x.UnsupportedVersion? || x.BadChecksum? then CorruptOrUnsupportedState
    else IdentityFailed
  }

  /** Each stage begins exactly if the one before it succeeded, and the status is that of the last one begun. */
  lemma StagesInTurn(r: Rules, w: World, layout: Layout, runtime: Option<A.Runtime>, e: Environment, report: Setup)
    requires !report.activationAttempted && !report.profileAttempted
    ensures var done := PrepareAndActivate(r, w, layout, runtime, e, report).report;
            var prepared := PrepareIdentity(w, e.identity);
            var activated := A.Activate(r, prepared.world, layout, runtime, e.activation);
            && done.identityResult == (if e.identity.open.Some? then e.identity.open.value else prepared.report)
            && (done.activationAttempted <==> done.identityResult.Created? || done.identityResult.Ok?)
            && (done.profileAttempted <==> done.activationAttempted && activated.report.status.Ok?)
            && done.stage == (if done.profileAttempted then ProfileStage
                              else if done.activationAttempted then ActivationStage
                              else IdentityStage)
            && (!done.activationAttempted ==> done.status == Ended(done.identityResult))
            && (done.activationAttempted ==> done.activation == activated.report)
            && (done.activationAttempted && !done.profileAttempted ==> done.status == ActivationStatus(activated.report.status))
            && (done.profileAttempted ==> done.profile == LoadProfile(r, activated.world, e.profile).report
                                          && (done.status.Activated? <==> done.profile.status.Ready?)
                                          && (done.status.EnabledProfileUnavailable? <==> !done.profile.status.Ready?))
  {
    hide PrepareIdentity, A.Activate, LoadProfile;
  }

  /** A setup that began goes on exactly if its bootstrap fully succeeded, and otherwise says why it did not. */
  lemma BootstrapFirst(r: Rules, w: World, layout: Layout, input: Input, intent: Intent, runtime: Option<A.Runtime>,
                       s: Settings, e: Environment, report: Setup)
    requires !report.bootstrapAttempted && !report.identityAttempted
    ensures var done := RunSetup(r, w, layout, Some(input), intent, runtime, s, e, report).report;
            var x := Bootstrap(r, w, layout, input, e.bootstrap).report.result;
            done.bootstrapAttempted ==>
              && (done.identityAttempted <==> x.Ok?) && (!x.Ok? ==> done.stage.BootstrapStage?)
              && (x.DurabilityUncertain? ==> done.status.BootstrapDurabilityUncertain?)
              && (x.ExistingActive? ==> done.status.AlreadyEnabled?)
              && (x.InvalidInput? || x.InvalidArgument? || x.DerivationFailed? ==> done.status.InvalidInput?)
              && (x.SettingsWriteFailed? || x.CredentialsWriteFailed? ==> done.status.BootstrapFailed?)
              && (x.ExistingSettingsFailed? || x.ExistingCredentialsFailed? ==> done.status.BootstrapFailed?)
  {
    hide Bootstrap, PrepareAndActivate, BasicInputValid;
    var booted := Bootstrap(r, w, layout, input, e.bootstrap);
    PrepareAttempts(r, booted.world, layout, runtime, e,
                    report.(stage := BootstrapStage, bootstrapAttempted := true, bootstrap := booted.report));
  }

  /** The status of a setup that reached the server says what came of it. */
  lemma ServerStatuses(r: Rules, w: World, layout: Layout, runtime: Option<A.Runtime>, e: A.Answers)
    requires Sound(r)
    ensures var x := ActivationStatus(A.Activate(r, w, layout, runtime, e).report.status);
            var d := w.disk;
            && (x.Activated? <==> Granted(r, d, layout, runtime, e) && e.save.Durable?)
            && (x.ActivationDurabilityUncertain? <==> Granted(r, d, layout, runtime, e) && e.save.Uncertain?)
            && (x.ActivationSaveFailed? <==> Granted(r, d, layout, runtime, e) && e.save.Refused?)
            && (x.AuthRejected? <==> Secured(r, d, layout, runtime, e) && e.authorize.AuthFailed?)
            && (x.InfrastructureOrServiceFailed? <==>
                  (Configured(r, d, layout, runtime, e) && !Named(r, d, layout, runtime, e))
                  || (Secured(r, d, layout, runtime, e)
                      && (e.authorize.TransportError? || e.authorize.HttpError? || e.authorize.BadJson?
                          || e.authorize.BadProtocol? || e.authorize.NotFound?)))
  {
    hide A.Activate, A.ValidRuntime;
    ActivationStatusIs(r, w, layout, runtime, e);
  }

  /** The status of a setup whose activation did not reach the server, or was not understood there. */
  lemma LocalStatuses(r: Rules, w: World, layout: Layout, runtime: Option<A.Runtime>, e: A.Answers)
    requires Sound(r)
    ensures var x := ActivationStatus(A.Activate(r, w, layout, runtime, e).report.status);
            var d, usable := w.disk, layout.ConfigOnly? || layout.Prepared?;
            var found := usable && e.faults.settingsOpen.None? && e.faults.settingsLoad.None?;
            var addressless := found && Off(r, d) && !Addressed(r, d);
            && (x.AlreadyEnabled? <==> found && Enabled(r, d))
            && (x.Precondition? <==>
                  addressless || (IdentityReady(r, d, layout, e) && !Configured(r, d, layout, runtime, e))
                  || (Named(r, d, layout, runtime, e) && !Secured(r, d, layout, runtime, e))
                  || (Secured(r, d, layout, runtime, e) && e.authorize.Invalid?))
            && (x.ActivationFailed? <==> !usable || (Secured(r, d, layout, runtime, e) && e.authorize.NoMemory?))
            && (x.CorruptOrUnsupportedState? <==>
                  usable && !(found && Enabled(r, d)) && !addressless && !IdentityReady(r, d, layout, e))
  {
    hide A.Activate, A.ValidRuntime;
    ActivationStatusIs(r, w, layout, runtime, e);
  }

  lemma PrepareIsNotAlready(r: Rules, w: World, layout: Layout, runtime: Option<A.Runtime>, e: Environment, report: Setup)
    requires Sound(r) && !Enabled(r, w.disk) && !report.activationAttempted && !report.profileAttempted
    ensures !PrepareAndActivate(r, w, layout, runtime, e, report).report.status.AlreadyEnabled?
  {
    hide PrepareIdentity, A.Activate, LoadProfile, PrepareAndActivate;
    StagesInTurn(r, w, layout, runtime, e, report);
    PreparingKeepsSettings(r, w, e.identity);
    ActivationStatusIs(r, PrepareIdentity(w, e.identity).world, layout, runtime, e.activation);
  }

  lemma PreparingKeepsSettings(r: Rules, w: World, e: IdentityAnswers)
    ensures PrepareIdentity(w, e).world.disk.settings == w.disk.settings
  {}

  /** A call reports that the account was enabled already only if it was. */
  lemma AlreadyIsTrue(r: Rules, w: World, layout: Layout, input: Option<Input>, intent: Intent,
                      runtime: Option<A.Runtime>, e: Environment)
    requires Sound(r)
    ensures Submit(r, w, layout, input, intent, runtime, e).report.status.AlreadyEnabled? ==> Enabled(r, w.disk)
    ensures ActivateExisting(r, w, layout, runtime, e).report.status.AlreadyEnabled? ==> Enabled(r, w.disk)
  {
    hide Bootstrap, PrepareAndActivate, BasicInputValid, Observe;
    var seen := Observe(r, w, layout, e.observe);
    ObservationIsHonest(r, w, layout, e.observe);
    if !Enabled(r, w.disk) {
      PrepareIsNotAlready(r, seen.world, layout, runtime, e, BEGUN.(local := seen.local));
      if input.Some? {
        BootstrapRefuses(r, seen.world, layout, input.value, e.bootstrap);
        BootstrapLeavesDisabled(r, seen.world, layout, input.value, e.bootstrap);
        var booted := Bootstrap(r, seen.world, layout, input.value, e.bootstrap);
        PrepareIsNotAlready(r, booted.world, layout, runtime, e,
                            BEGUN.(local := seen.local, stage := BootstrapStage, bootstrapAttempted := true,
                                   bootstrap := booted.report));
      }
    }
  }
}
