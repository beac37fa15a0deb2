// The reports of the setup calls tell what happened.
module AccountReports {
  import opened Bytes
  import opened Wrappers
  import opened SettingsFile
  import opened AccountState
  import opened AccountBootstrap
  import A = SyncActivation
  import opened Network
  import opened AccountSetup
  import opened AccountHistory

  // ----- Counting what happened -----

  /** A store replaced, or a request made. */
  datatype Kind = SettingsReplaced | CredentialsReplaced | IdentityReplaced | TimeAsked | NameAsked | AuthAsked | AuthGranted

  predicate Is(k: Kind, e: Event) {
    match e
    case SettingsWrite(_, o) => k.SettingsReplaced? && !o.Refused?
    case CredentialsWrite(_, o) => k.CredentialsReplaced? && !o.Refused?
    case IdentityWrite(c) => k.IdentityReplaced? && !c.NotCreated?
    case TimeQuery => k.TimeAsked?
    case DnsQuery => k.NameAsked?
    case AuthRequest(_, _, _, granted) => k.AuthAsked? || (k.AuthGranted? && granted)
    case _ => false
  }

  function One(b: bool): nat {
    if b then 1 else 0
  }

  function Count(k: Kind, w: World): nat {
    if w.Boot? then 0 else Count(k, w.before) + One(Is(k, w.event))
  }

  lemma CountOf(k: Kind, w: World, e: Event)
    ensures Count(k, Emit(w, e)) == Count(k, w) + One(Is(k, e))
  {}

  // ----- Bootstrap -----

  predicate WrittenFlag(k: Kind, report: AccountBootstrap.Report) {
    (k.SettingsReplaced? && report.settingsWritten) || (k.CredentialsReplaced? && report.credentialsWritten)
  }

  lemma CredentialsStepTells(k: Kind, w: World, c: Credentials, e: AccountBootstrap.Answers, report: Report)
    requires !report.credentialsWritten
    ensures var done := CredentialsStep(w, c, e, report);
            Count(k, done.world) + One(WrittenFlag(k, report)) == Count(k, w) + One(WrittenFlag(k, done.report))
  {
    CountOf(k, w, CredentialsWrite(c, e.credentialsSave));
  }

  lemma SettingsStepTells(k: Kind, r: Rules, w: World, s: Settings, c: Credentials, e: AccountBootstrap.Answers,
                          report: Report)
    requires !report.settingsWritten && !report.credentialsWritten
    ensures var done := SettingsStep(r, w, s, c, e, report);
            Count(k, done.world) == Count(k, w) + One(WrittenFlag(k, done.report))
  {
    var write := SettingsWrite(s, e.settingsSave);
    CountOf(k, w, write);
    CredentialsStepTells(k, w, c, e, report);
    var x := SaveSettings(r, w, s, e.settingsSave).report;
    CredentialsStepTells(k, Emit(w, write), c, e, report.(stage := SettingsStage, settingsResult := x, settingsWritten := true));
  }

  /** The written flags of bootstrap are set exactly for the stores it replaced, and it never fails to derive a key. */
  lemma BootstrapTells(k: Kind, r: Rules, w: World, layout: Layout, input: Input, e: AccountBootstrap.Answers)
    ensures var done := Bootstrap(r, w, layout, input, e);
            Count(k, done.world) == Count(k, w) + One(WrittenFlag(k, done.report)) && !done.report.result.DerivationFailed?
  {
    hide r.Derive;
    CountOf(k, w, KeyDerivation);
    CountOf(k, Emit(w, KeyDerivation), CredentialsRead);
    if layout.Prepared? && Acceptable(r, input) {
      var w' := Emit(Emit(w, KeyDerivation), CredentialsRead);
      var x, y := LoadSettings(r, w'.disk, e.faults), LoadCredentials(w'.disk, e.faults);
      var report := INITIAL.(stage := Preflight, userkeyResult := UserkeyResult.Ok, settingsResult := x, credentialResult := y);
      SettingsStepTells(k, r, w', Requested(input), RequestedCredentials(r, input), e, report);
    }
  }

  // ----- Activation -----

  predicate AttemptedFlag(k: Kind, a: A.Activation) {
    match k
    case SettingsReplaced => a.enableVisiblePossible
    case TimeAsked => a.timeAttempted
    case NameAsked => a.dnsAttempted
    case AuthAsked => a.authAttempted
    case AuthGranted => a.authSucceeded
    case _ => false
  }

  /** The attempted flags follow the order of the phases. */
  predicate PhasesInOrder(a: A.Activation) {
    && (a.enableVisiblePossible ==> a.saveAttempted) && (a.saveAttempted <==> a.authSucceeded)
    && (a.authSucceeded ==> a.authAttempted) && (a.authAttempted ==> a.dnsAttempted)
    && (a.dnsAttempted || a.timeAttempted ==> a.identityAttempted)
    && (a.identityAttempted ==> a.credentialsAttempted) && (a.credentialsAttempted ==> a.settingsAttempted)
  }

  predicate EnabledAccordingTo(a: A.Activation) {
    a.status.Ok? || a.status.DurabilityUncertain?
  }

  /** The report of a phase that began in w with the given flag set tells what the phase did. */
  ghost predicate Tells(k: Kind, r: Rules, w: World, flag: bool, done: Outcome<A.Activation>) {
    && PhasesInOrder(done.report)
    && Count(k, done.world) + One(flag) == Count(k, w) + One(AttemptedFlag(k, done.report))
    && (done.report.enableVisiblePossible <==> EnabledAccordingTo(done.report))
    && (done.report.enableVisiblePossible <==> Enabled(r, done.world.disk))
    && (done.report.status.AuthRejected? <==> ServerRefused(done.report))
  }

  /** The server was asked and refused the credentials. */
  predicate ServerRefused(a: A.Activation) {
    a.authAttempted && a.kosyncResult.AuthFailed?
  }

  /** Time is asked for exactly under the policy that wants it, names only once the time is known, and so on. */
  predicate NetworkInOrder(runtime: Option<A.Runtime>, a: A.Activation) {
    && (a.timeAttempted || a.dnsAttempted ==> runtime.Some?)
    && (a.timeAttempted ==> runtime.value.policy.Establish?)
    && (a.dnsAttempted && runtime.value.policy.Establish? ==> a.timeAttempted && a.timeResult.TimeOk?)
    && (a.authAttempted ==> a.dnsResult.DnsOk?)
  }

  lemma NetworkPhaseInOrder(r: Rules, w: World, runtime: A.Runtime, s: Settings, c: Credentials, e: A.Answers,
                            report: A.Activation)
    requires !report.timeAttempted && !report.dnsAttempted && !report.authAttempted
    ensures NetworkInOrder(Some(runtime), A.NetworkPhase(r, w, runtime, s, c, e, report).report)
  {
    hide A.AuthorizePhase, Emit, NetworkInOrder;
    var establish := runtime.policy.Establish?;
    var timed := report.(timeAttempted := establish, timeResult := if establish then e.time else TimeOk);
    var named := timed.(dnsAttempted := true, dnsResult := e.dns);
    if !timed.timeResult.TimeOk? {
      FlagsInOrder(Some(runtime), timed.(status := A.TrustedTimeFailed));
    } else if !e.dns.DnsOk? {
      FlagsInOrder(Some(runtime), named.(status := A.DnsFailed));
    } else if e.addresses == 0 {
      FlagsInOrder(Some(runtime), named.(status := A.DnsFailed, dnsResult := DNS_NO_ADDRESS));
    } else if !e.setTls.Ok? {
      FlagsInOrder(Some(runtime), named.(status := A.ConfigFailed, kosyncResult := e.setTls));
    } else {
      var w' := Emit(if establish then Emit(w, TimeQuery) else w, DnsQuery);
      AuthorizeKeepsNetwork(r, w', s, c, e, named.(authAttempted := true, kosyncResult := e.authorize));
      FlagsInOrder(Some(runtime), A.NetworkPhase(r, w, runtime, s, c, e, report).report);
    }
  }

  lemma FlagsInOrder(runtime: Option<A.Runtime>, a: A.Activation)
    requires a.timeAttempted || a.dnsAttempted ==> runtime.Some?
    requires a.timeAttempted ==> runtime.value.policy.Establish?
    requires a.dnsAttempted && runtime.value.policy.Establish? ==> a.timeAttempted && a.timeResult.TimeOk?
    requires a.authAttempted ==> a.dnsResult.DnsOk?
    ensures NetworkInOrder(runtime, a)
  {}

  lemma AuthorizeKeepsNetwork(r: Rules, w: World, s: Settings, c: Credentials, e: A.Answers, report: A.Activation)
    ensures var a := A.AuthorizePhase(r, w, s, c, e, report).report;
            && a.timeAttempted == report.timeAttempted && a.timeResult == report.timeResult
            && a.dnsAttempted == report.dnsAttempted && a.dnsResult == report.dnsResult
            && a.authAttempted == report.authAttempted
  {
    hide Emit, SaveSettings;
  }

  lemma RuntimeIsThere(runtime: Option<A.Runtime>)
    requires A.ValidRuntime(runtime)
    ensures runtime.Some? && runtime == Some(runtime.value)
  {}

  lemma IdentityPhaseInOrder(r: Rules, w: World, runtime: Option<A.Runtime>, s: Settings, c: Credentials, e: A.Answers,
                             report: A.Activation)
    requires !report.timeAttempted && !report.dnsAttempted && !report.authAttempted
    ensures NetworkInOrder(runtime, A.IdentityPhase(r, w, runtime, s, c, e, report).report)
  {
    hide A.NetworkPhase, NetworkInOrder, A.ValidRuntime, Emit, LoadIdentity, OpenIdentity;
    var done := A.IdentityPhase(r, w, runtime, s, c, e, report).report;
    if A.ValidRuntime(runtime) {
      RuntimeIsThere(runtime);
      NetworkPhaseInOrder(r, Emit(w, IdentityRead), runtime.value, s, c, e,
                          report.(identityResult := LoadIdentity(Emit(w, IdentityRead).disk, e.identityLoad)));
    }
    if !done.timeAttempted && !done.dnsAttempted && !done.authAttempted {
      FlagsInOrder(runtime, done);
    }
  }

  lemma ActivateInOrder(r: Rules, w: World, layout: Layout, runtime: Option<A.Runtime>, e: A.Answers)
    ensures NetworkInOrder(runtime, A.Activate(r, w, layout, runtime, e).report)
  {
    hide A.IdentityPhase;
    var x := LoadSettings(r, w.disk, e.faults);
    if x.Ok? && LoadCredentials(w.disk, e.faults).Ok? {
      IdentityPhaseInOrder(r, Emit(w, CredentialsRead), runtime, w.disk.settings.value, w.disk.credentials.value, e,
                           A.UNTRIED.(settingsAttempted := true, settingsResult := x, credentialsAttempted := true,
                                      credentialResult := LoadCredentials(w.disk, e.faults), identityAttempted := true));
    }
  }

  lemma PrepareInOrder(r: Rules, w: World, layout: Layout, runtime: Option<A.Runtime>, e: Environment, report: Setup)
    requires report.activation == A.UNTRIED
    ensures NetworkInOrder(runtime, PrepareAndActivate(r, w, layout, runtime, e, report).report.activation)
  {
    hide A.Activate, PrepareIdentity, LoadProfile;
    ActivateInOrder(r, PrepareIdentity(w, e.identity).world, layout, runtime, e.activation);
  }

  lemma SubmitInOrder(r: Rules, w: World, layout: Layout, input: Option<Input>, intent: Intent,
                      runtime: Option<A.Runtime>, e: Environment)
    ensures NetworkInOrder(runtime, Submit(r, w, layout, input, intent, runtime, e).report.activation)
  {
    hide PrepareAndActivate, Bootstrap, Observe;
    if input.Some? {
      var seen := Observe(r, w, layout, e.observe);
      var booted := Bootstrap(r, seen.world, layout, input.value, e.bootstrap);
      PrepareInOrder(r, booted.world, layout, runtime, e,
                     BEGUN.(local := seen.local, stage := BootstrapStage, bootstrapAttempted := true, bootstrap := booted.report));
    }
  }

  lemma AuthorizePhaseTells(k: Kind, r: Rules, w: World, s: Settings, c: Credentials, e: A.Answers,
                            report: A.Activation)
    requires report.authAttempted && report.dnsAttempted && report.identityAttempted && report.credentialsAttempted
    requires report.settingsAttempted && !report.authSucceeded && !report.saveAttempted && !report.enableVisiblePossible
    requires Sound(r) && !Enabled(r, w.disk) && r.valid(s.(enabled := true)) && report.kosyncResult == e.authorize
    ensures Tells(k, r, w, AttemptedFlag(k, report.(authAttempted := false)), A.AuthorizePhase(r, w, s, c, e, report))
  {
    var request := AuthRequest(s.baseUrl, c.username, c.userkey, e.authorize.Ok?);
    CountOf(k, w, request);
    CountOf(k, Emit(w, request), SettingsWrite(s.(enabled := true), e.save));
  }

  /** The flags as they are when the network phase begins. */
  ghost predicate Offline(report: A.Activation) {
    && report.identityAttempted && report.credentialsAttempted && report.settingsAttempted && !report.timeAttempted
    && !report.dnsAttempted && !report.authAttempted && !report.authSucceeded && !report.saveAttempted
    && !report.enableVisiblePossible && !EnabledAccordingTo(report) && !report.status.AuthRejected?
  }

  lemma NetworkPhaseTells(k: Kind, r: Rules, w: World, runtime: A.Runtime, s: Settings, c: Credentials, e: A.Answers,
                          report: A.Activation)
    requires Sound(r) && Offline(report) && !Enabled(r, w.disk) && r.valid(s.(enabled := true))
    ensures Tells(k, r, w, false, A.NetworkPhase(r, w, runtime, s, c, e, report))
  {
    hide A.AuthorizePhase, Count, Enabled;
    var establish := runtime.policy.Establish?;
    var w' := if establish then Emit(w, TimeQuery) else w;
    CountOf(k, w, TimeQuery);
    CountOf(k, w', DnsQuery);
    var report' := report.(timeAttempted := establish, timeResult := if establish then e.time else TimeOk, dnsAttempted := true,
                           dnsResult := e.dns, authAttempted := true, kosyncResult := e.authorize);
    AuthorizePhaseTells(k, r, Emit(w', DnsQuery), s, c, e, report');
  }

  lemma IdentityPhaseTells(k: Kind, r: Rules, w: World, runtime: Option<A.Runtime>, s: Settings, c: Credentials,
                           e: A.Answers,
                           report: A.Activation)
    requires Sound(r) && Offline(report) && !Enabled(r, w.disk) && r.valid(s.(enabled := true))
    ensures Tells(k, r, w, false, A.IdentityPhase(r, w, runtime, s, c, e, report))
  {
    hide A.NetworkPhase, Count, Enabled;
    CountOf(k, w, IdentityRead);
    if A.ValidRuntime(runtime) {
      NetworkPhaseTells(k, r, Emit(w, IdentityRead), runtime.value, s, c, e,
                        report.(identityResult := LoadIdentity(w.disk, e.identityLoad)));
    }
  }

  lemma CredentialsPhaseTells(k: Kind, r: Rules, w: World, layout: Layout, runtime: Option<A.Runtime>, s: Settings,
                              e: A.Answers,
                              report: A.Activation)
    requires Sound(r) && Offline(report.(identityAttempted := true)) && !report.identityAttempted
    requires !Enabled(r, w.disk) && r.valid(s.(enabled := true))
    ensures Tells(k, r, w, false, A.CredentialsPhase(r, w, layout, runtime, s, e, report))
  {
    hide A.IdentityPhase, Count, Enabled;
    CountOf(k, w, CredentialsRead);
    if LoadCredentials(w.disk, e.faults).Ok? {
      IdentityPhaseTells(k, r, Emit(w, CredentialsRead), runtime, s, w.disk.credentials.value, e,
                         report.(credentialResult := LoadCredentials(w.disk, e.faults), identityAttempted := true));
    }
  }

  /** The flags of an activation report follow the phases, and each is set exactly for what was done. */
  lemma ActivateTells(k: Kind, r: Rules, w: World, layout: Layout, runtime: Option<A.Runtime>, e: A.Answers)
    requires Sound(r) && !Enabled(r, w.disk)
    ensures Tells(k, r, w, false, A.Activate(r, w, layout, runtime, e))
    ensures NetworkInOrder(runtime, A.Activate(r, w, layout, runtime, e).report)
  {
    hide A.CredentialsPhase, Count, NetworkInOrder;
    ActivateInOrder(r, w, layout, runtime, e);
    var x := LoadSettings(r, w.disk, e.faults);
    if x.Ok? && w.disk.settings.value.baseUrl != [] {
      CredentialsPhaseTells(k, r, w, layout, runtime, w.disk.settings.value, e,
                            A.UNTRIED.(settingsAttempted := true, settingsResult := x, credentialsAttempted := true));
    }
  }

  // ----- The whole call -----

  predicate EnabledStatus(s: Status) {
    s.Activated? || s.ActivationDurabilityUncertain? || s.EnabledProfileUnavailable?
  }

  predicate IdentityFlag(k: Kind, report: Setup) {
    k.IdentityReplaced? && (report.identityResult.Created? || report.identityResult.DurabilityUncertain?)
  }

  /** What a setup report says was done, against what was done since w. */
  ghost predicate SetupTells(k: Kind, r: Rules, w: World, done: Outcome<Setup>) {
    && (EnabledStatus(done.report.status) <==> Enabled(r, done.world.disk))
    && (EnabledStatus(done.report.status) <==> done.report.activation.enableVisiblePossible)
    && (done.report.status.AuthRejected? <==> ServerRefused(done.report.activation))
    && PhasesInOrder(done.report.activation)
    && (done.report.profileAttempted ==> done.report.activationAttempted)
    && (done.report.activationAttempted ==> done.report.identityAttempted)
    && Count(k, done.world) == Count(k, w) + One(WrittenFlag(k, done.report.bootstrap)) + One(IdentityFlag(k, done.report))
                               + One(AttemptedFlag(k, done.report.activation))
  }

  lemma LoadProfileOnlyReads(k: Kind, r: Rules, w: World, e: ProfileAnswers)
    ensures LoadProfile(r, w, e).world.disk == w.disk && Count(k, LoadProfile(r, w, e).world) == Count(k, w)
  {
    CountOf(k, w, CredentialsRead);
    CountOf(k, Emit(w, CredentialsRead), IdentityRead);
  }

  /** What the last two phases add to the report they were given. */
  ghost predicate FinishTells(k: Kind, r: Rules, w: World, report: Setup, done: Outcome<Setup>) {
    && (EnabledStatus(done.report.status) <==> Enabled(r, done.world.disk))
    && (EnabledStatus(done.report.status) <==> done.report.activation.enableVisiblePossible)
    && (done.report.status.AuthRejected? <==> ServerRefused(done.report.activation))
    && PhasesInOrder(done.report.activation) && done.report.activationAttempted
    && Count(k, done.world) == Count(k, w) + One(AttemptedFlag(k, done.report.activation))
    && done.report.bootstrap == report.bootstrap && done.report.identityResult == report.identityResult
    && done.report.bootstrapAttempted == report.bootstrapAttempted && done.report.identityAttempted == report.identityAttempted
  }

  lemma ConcludeTells(k: Kind, r: Rules, w: World, activated: Outcome<A.Activation>, e: ProfileAnswers, report: Setup)
    requires Tells(k, r, w, false, activated)
    ensures FinishTells(k, r, w, report, Conclude(r, activated, e, report))
  {
    hide LoadProfile, AttemptedFlag, Count, PhasesInOrder;
    LoadProfileOnlyReads(k, r, activated.world, e);
  }

  lemma FinishActivationTells(k: Kind, r: Rules, w: World, layout: Layout, runtime: Option<A.Runtime>,
                              e: Environment, report: Setup)
    requires Sound(r) && !Enabled(r, w.disk)
    ensures FinishTells(k, r, w, report, FinishActivation(r, w, layout, runtime, e, report))
  {
    hide FinishTells, Tells, A.Activate, Conclude, Enabled;
    ActivateTells(k, r, w, layout, runtime, e.activation);
    ConcludeTells(k, r, w, A.Activate(r, w, layout, runtime, e.activation), e.profile, report);
  }

  lemma PrepareIdentityTells(k: Kind, r: Rules, w: World, e: IdentityAnswers)
    requires !Enabled(r, w.disk)
    ensures !Enabled(r, PrepareIdentity(w, e).world.disk)
    ensures var x := PrepareIdentity(w, e).report;
            Count(k, PrepareIdentity(w, e).world)
            == Count(k, w) + One(k.IdentityReplaced? && (x.Created? || x.DurabilityUncertain?))
  {
    CountOf(k, w, IdentityRead);
    if e.creation.Some? {
      CountOf(k, Emit(w, IdentityRead), IdentityWrite(e.creation.value));
    }
  }

  lemma NothingAttempted(k: Kind)
    ensures !AttemptedFlag(k, A.UNTRIED) && PhasesInOrder(A.UNTRIED) && !A.UNTRIED.enableVisiblePossible
  {}

  /** A call that stopped before activation. */
  lemma StoppedTells(k: Kind, r: Rules, w: World, done: Outcome<Setup>)
    requires !Enabled(r, done.world.disk) && !EnabledStatus(done.report.status) && done.report.activation == A.UNTRIED
    requires !done.report.profileAttempted && !done.report.activationAttempted && !done.report.status.AuthRejected?
    requires Count(k, done.world) == Count(k, w) + One(WrittenFlag(k, done.report.bootstrap)) + One(IdentityFlag(k, done.report))
    ensures SetupTells(k, r, w, done)
  {}

  /** A call that went on to activation. */
  lemma FinishedTells(k: Kind, r: Rules, w0: World, w: World, report: Setup, done: Outcome<Setup>)
    requires FinishTells(k, r, w, report, done) && report.identityAttempted
    requires Count(k, w) == Count(k, w0) + One(WrittenFlag(k, report.bootstrap)) + One(IdentityFlag(k, report))
    ensures SetupTells(k, r, w0, done)
  {
    hide Count, AttemptedFlag, PhasesInOrder, Enabled, WrittenFlag;
  }

  lemma PrepareAndActivateTells(k: Kind, r: Rules, w0: World, w: World, layout: Layout, runtime: Option<A.Runtime>,
                                e: Environment, report: Setup)
    requires Sound(r) && !Enabled(r, w.disk) && report.activation == A.UNTRIED
    requires !report.profileAttempted && !report.activationAttempted
    requires Count(k, w) == Count(k, w0) + One(WrittenFlag(k, report.bootstrap))
    ensures SetupTells(k, r, w0, PrepareAndActivate(r, w, layout, runtime, e, report))
  {
    hide PrepareIdentity, FinishActivation, Count, AttemptedFlag, PhasesInOrder, Enabled, WrittenFlag, SetupTells, FinishTells;
    PrepareIdentityTells(k, r, w, e.identity);
    var prepared := PrepareIdentity(w, e.identity);
    var report' := report.(stage := IdentityStage, identityAttempted := true, identityResult := prepared.report);
    var done := PrepareAndActivate(r, w, layout, runtime, e, report);
    if OpenIdentity(e.identity.open).Ok? && (prepared.report.Ok? || prepared.report.Created?) {
      FinishActivationTells(k, r, prepared.world, layout, runtime, e, report');
      FinishedTells(k, r, w0, prepared.world, report', done);
    } else {
      StoppedTells(k, r, w0, done);
    }
  }

  lemma ObserveOnlyReads(k: Kind, r: Rules, w: World, layout: Layout, f: Faults)
    ensures Observe(r, w, layout, f).world.disk == w.disk && Count(k, Observe(r, w, layout, f).world) == Count(k, w)
  {
    CountOf(k, w, CredentialsRead);
  }

  lemma BootstrapLeavesDisabled(r: Rules, w: World, layout: Layout, input: Input, e: AccountBootstrap.Answers)
    requires !Enabled(r, w.disk)
    ensures !Enabled(r, Bootstrap(r, w, layout, input, e).world.disk)
  {}

  lemma RunSetupTells(k: Kind, r: Rules, w: World, layout: Layout, input: Option<Input>, intent: Intent,
                      runtime: Option<A.Runtime>, s: Settings, e: Environment, report: Setup)
    requires Sound(r) && !Enabled(r, w.disk) && report == BEGUN.(local := report.local)
    ensures SetupTells(k, r, w, RunSetup(r, w, layout, input, intent, runtime, s, e, report))
    ensures var done := RunSetup(r, w, layout, input, intent, runtime, s, e, report).report;
            done.identityAttempted ==> done.bootstrapAttempted
  {
    hide Bootstrap, PrepareAndActivate, Count, AttemptedFlag, PhasesInOrder, Enabled, WrittenFlag;
    NothingAttempted(k);
    NothingWritten(k);
    if input.Some? {
      BootstrapTells(k, r, w, layout, input.value, e.bootstrap);
      BootstrapLeavesDisabled(r, w, layout, input.value, e.bootstrap);
      var booted := Bootstrap(r, w, layout, input.value, e.bootstrap);
      var report := report.(stage := BootstrapStage, bootstrapAttempted := true, bootstrap := booted.report);
      PrepareAndActivateTells(k, r, w, booted.world, layout, runtime, e, report);
      PrepareKeepsBootstrap(r, booted.world, layout, runtime, e, report);
    }
  }

  lemma NothingWritten(k: Kind)
    ensures !WrittenFlag(k, AccountBootstrap.INITIAL)
  {}

  lemma PrepareKeepsBootstrap(r: Rules, w: World, layout: Layout, runtime: Option<A.Runtime>, e: Environment,
                              report: Setup)
    ensures PrepareAndActivate(r, w, layout, runtime, e, report).report.bootstrapAttempted == report.bootstrapAttempted
  {
    hide A.Activate, LoadProfile, PrepareIdentity;
  }

  lemma TellsFromEarlier(k: Kind, r: Rules, w0: World, w: World, done: Outcome<Setup>)
    requires SetupTells(k, r, w, done) && Count(k, w) == Count(k, w0)
    ensures SetupTells(k, r, w0, done)
  {}

  /** A submit report tells exactly what the submit did and whether sync is now enabled. */
  lemma SubmitTells(k: Kind, r: Rules, w: World, layout: Layout, input: Option<Input>, intent: Intent,
                    runtime: Option<A.Runtime>, e: Environment)
    requires Sound(r) && !Enabled(r, w.disk)
    ensures SetupTells(k, r, w, Submit(r, w, layout, input, intent, runtime, e))
    ensures NetworkInOrder(runtime, Submit(r, w, layout, input, intent, runtime, e).report.activation)
    ensures var done := Submit(r, w, layout, input, intent, runtime, e).report;
            done.identityAttempted ==> done.bootstrapAttempted
  {
    hide RunSetup, Observe, Count, AttemptedFlag, PhasesInOrder, NetworkInOrder, Enabled, WrittenFlag, SetupTells;
    SubmitInOrder(r, w, layout, input, intent, runtime, e);
    NothingWritten(k);
    ObserveOnlyReads(k, r, w, layout, e.observe);
    var seen := Observe(r, w, layout, e.observe);
    var done := Submit(r, w, layout, input, intent, runtime, e);
    if done == RunSetup(r, seen.world, layout, input, intent, runtime, seen.settings, e, BEGUN.(local := seen.local)) {
      RunSetupTells(k, r, seen.world, layout, input, intent, runtime, seen.settings, e, BEGUN.(local := seen.local));
      TellsFromEarlier(k, r, w, seen.world, done);
    } else {
      StoppedTells(k, r, w, done);
    }
  }

  lemma ActivateExistingTells(k: Kind, r: Rules, w: World, layout: Layout, runtime: Option<A.Runtime>, e: Environment)
    requires Sound(r) && !Enabled(r, w.disk)
    ensures SetupTells(k, r, w, ActivateExisting(r, w, layout, runtime, e))
    ensures NetworkInOrder(runtime, ActivateExisting(r, w, layout, runtime, e).report.activation)
    ensures !ActivateExisting(r, w, layout, runtime, e).report.bootstrapAttempted
  {
    hide PrepareAndActivate, Observe, Count, AttemptedFlag, PhasesInOrder, Enabled, WrittenFlag;
    NothingAttempted(k);
    NothingWritten(k);
    ObserveOnlyReads(k, r, w, layout, e.observe);
    var seen := Observe(r, w, layout, e.observe);
    PrepareInOrder(r, seen.world, layout, runtime, e, BEGUN.(local := seen.local));
    PrepareAndActivateTells(k, r, w, seen.world, layout, runtime, e, BEGUN.(local := seen.local));
    PrepareKeepsBootstrap(r, seen.world, layout, runtime, e, BEGUN.(local := seen.local));
  }
}
