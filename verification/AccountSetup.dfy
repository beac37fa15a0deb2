// The setup controller: look at what is stored, and take the account from there
// through bootstrap, identity, activation and profile check.
module AccountSetup {
  import opened Bytes
  import opened Wrappers
  import opened SettingsFile
  import opened AccountState
  import opened AccountBootstrap
  import A = SyncActivation

  datatype LocalState =
    | Unknown | NoAccount | PartialDisabled | OrphanCredentials | CompleteDisabled | EnabledState
    | CorruptOrUnsupported | Unreadable

  datatype Status =
    | Activated | AlreadyEnabled | InvalidInput | Precondition | IncompleteState | CorruptOrUnsupportedState
    | BootstrapFailed | BootstrapDurabilityUncertain | IdentityFailed | IdentityDurabilityUncertain | AuthRejected
    | InfrastructureOrServiceFailed | ActivationSaveFailed | ActivationDurabilityUncertain
    | EnabledProfileUnavailable | ActivationFailed

  datatype SetupStage = NoSetupStage | PreflightStage | BootstrapStage | IdentityStage | ActivationStage | ProfileStage

  datatype ProfileStatus =
    | ProfileInvalidArgument | Disabled | Ready | ProfileSettingsFailed | ProfileCredentialsFailed
    | ProfileIdentityFailed | ValidationFailed

  datatype Profile = Profile(
    status: ProfileStatus,
    settingsResult: SettingsResult, credentialResult: CredentialResult, identityResult: IdentityResult,
    settingsAttempted: bool, credentialsAttempted: bool, identityAttempted: bool)

  const NO_PROFILE := Profile(ProfileInvalidArgument, SettingsResult.InvalidArgument, CredentialResult.Invalid,
                              IdentityResult.InvalidArgument, false, false, false)

  datatype Setup = Setup(
    status: Status, stage: SetupStage, local: LocalState,
    bootstrapAttempted: bool, bootstrap: AccountBootstrap.Report,
    identityAttempted: bool, identityResult: IdentityResult,
    activationAttempted: bool, activation: A.Activation,
    profileAttempted: bool, profile: Profile)

  const BEGUN := Setup(Status.InvalidInput, PreflightStage, Unknown, false, AccountBootstrap.INITIAL, false,
                       IdentityResult.InvalidArgument, false, A.UNTRIED, false, NO_PROFILE)

  datatype Observation = ObservationOk | ObservationCorrupt | ObservationUnreadable

  datatype Intent = NewOrResume | ReplaceDisabled | OtherIntent

  // ----- Answers -----

  datatype IdentityAnswers = IdentityAnswers(open: Option<IdentityOpenFault>, load: Option<IdentityFault>,
                                             reload: Option<IdentityFault>, creation: Option<Creation>)

  datatype ProfileAnswers = ProfileAnswers(faults: Faults, identityOpen: Option<IdentityOpenFault>,
                                           identityLoad: Option<IdentityFault>)

  /** What the environment answers during one call, phase by phase. */
  datatype Environment = Environment(observe: Faults, bootstrap: AccountBootstrap.Answers, identity: IdentityAnswers,
                                     activation: A.Answers, profile: ProfileAnswers)

  // ----- Specification -----

  predicate CorruptSettings(x: SettingsResult) {
    x.Corrupt? || x.UnsupportedVersion?
  }

  predicate CorruptCredentials(x: CredentialResult) {
    x.Corrupt? || x.UnsupportedVersion?
  }

  predicate CorruptIdentity(x: IdentityResult) {
    x.Malformed? || x.UnsupportedVersion? || x.BadChecksum?
  }

  datatype Observed = Observed(world: World, local: LocalState, result: Observation, settings: Settings)

  function Observe(r: Rules, w: World, layout: Layout, f: Faults): Observed {
    if !layout.Prepared? || !OpenSettings(f).Ok? then Observed(w, Unreadable, ObservationUnreadable, DEFAULTS)
    else
      var x := LoadSettings(r, w.disk, f);
      if CorruptSettings(x) then Observed(w, CorruptOrUnsupported, ObservationCorrupt, DEFAULTS)
      else if !x.Ok? && !x.Missing? then Observed(w, Unreadable, ObservationUnreadable, DEFAULTS)
      else
        var s := if x.Missing? then DEFAULTS else w.disk.settings.value;
        if x.Ok? && s.enabled then Observed(w, EnabledState, ObservationOk, s)
        else if !OpenCredentials(f).Ok? then Observed(w, Unreadable, ObservationUnreadable, s)
        else
          var w := Emit(w, CredentialsRead);
          var y := LoadCredentials(w.disk, f);
          if CorruptCredentials(y) then Observed(w, CorruptOrUnsupported, ObservationCorrupt, s)
          else if y.Missing? then Observed(w, if x.Missing? then NoAccount else PartialDisabled, ObservationOk, s)
          else if !y.Ok? then Observed(w, Unreadable, ObservationUnreadable, s)
          else Observed(w, if x.Missing? then OrphanCredentials else CompleteDisabled, ObservationOk, s)
  }

  function LoadProfile(r: Rules, w: World, e: ProfileAnswers): Outcome<Profile> {
    var report := NO_PROFILE.(settingsAttempted := true, settingsResult := OpenSettings(e.faults));
    if !report.settingsResult.Ok? then Outcome(w, report.(status := ProfileSettingsFailed))
    else
      var x := LoadSettings(r, w.disk, e.faults);
      var report := report.(settingsResult := x);
      if x.Missing? || (x.Ok? && !w.disk.settings.value.enabled) then Outcome(w, report.(status := Disabled))
      else if !x.Ok? then Outcome(w, report.(status := ProfileSettingsFailed))
      else
        var report := report.(credentialsAttempted := true, credentialResult := OpenCredentials(e.faults));
        if !report.credentialResult.Ok? then Outcome(w, report.(status := ProfileCredentialsFailed))
        else
          var w := Emit(w, CredentialsRead);
          var report := report.(credentialResult := LoadCredentials(w.disk, e.faults));
          if !report.credentialResult.Ok? then Outcome(w, report.(status := ProfileCredentialsFailed))
          else
            var report := report.(identityAttempted := true, identityResult := OpenIdentity(e.identityOpen));
            if !report.identityResult.Ok? then Outcome(w, report.(status := ProfileIdentityFailed))
            else
              var w := Emit(w, IdentityRead);
              var report := report.(identityResult := LoadIdentity(w.disk, e.identityLoad));
              if !report.identityResult.Ok? then Outcome(w, report.(status := ProfileIdentityFailed))
              else Outcome(w, report.(status := if ProfileComplete(w.disk) then Ready else ValidationFailed))
  }

  /** Every text of the profile is present and fits its buffer. */
  predicate ProfileComplete(d: Disk)
    requires d.settings.Holds? && d.credentials.Holds? && d.identity.Holds?
  {
    && FitsCapacity(d.settings.value.baseUrl, URL_CAPACITY)
    && FitsCapacity(d.credentials.value.username, CREDENTIAL_MAX + 1)
    && FitsCapacity(d.credentials.value.userkey, CREDENTIAL_MAX + 1)
    && FitsCapacity(d.identity.value, 33)
    && FitsCapacity(d.settings.value.deviceName, NAME_CAPACITY)
  }

  function BootstrapStatus(x: AccountBootstrap.Result): Status {
    match x
    case ExistingActive => AlreadyEnabled
    case DurabilityUncertain => BootstrapDurabilityUncertain
    case InvalidInput | InvalidArgument | DerivationFailed => Status.InvalidInput
    case _ => BootstrapFailed
  }

  function ActivationStatus(x: A.Status): Status {
    match x
    case AlreadyEnabled => Status.AlreadyEnabled
    case Ok => Activated
    case AuthRejected => Status.AuthRejected
    case TrustedTimeFailed | DnsFailed | HttpsFailed | ServiceFailed => InfrastructureOrServiceFailed
    case SettingsSaveFailed => ActivationSaveFailed
    case DurabilityUncertain => ActivationDurabilityUncertain
    case SettingsFailed | CredentialsFailed | IdentityFailed => CorruptOrUnsupportedState
    case ConfigFailed => Precondition
    case InvalidArgument | NoMemory => ActivationFailed
  }

  function FinishActivation(r: Rules, w: World, layout: Layout, runtime: Option<A.Runtime>, e: Environment,
                            report: Setup): Outcome<Setup>
  {
    Conclude(r, A.Activate(r, w, layout, runtime, e.activation), e.profile, report)
  }

  /** The profile check that follows a successful activation. */
  function Conclude(r: Rules, activated: Outcome<A.Activation>, e: ProfileAnswers, report: Setup): Outcome<Setup> {
    var report := report.(stage := ActivationStage, activationAttempted := true, activation := activated.report,
                          status := ActivationStatus(activated.report.status));
    if !report.status.Activated? then Outcome(activated.world, report)
    else
      var loaded := LoadProfile(r, activated.world, e);
      Outcome(loaded.world,
              report.(stage := ProfileStage, profileAttempted := true, profile := loaded.report,
                      status := if loaded.report.status.Ready? then Activated else EnabledProfileUnavailable))
  }

  function PrepareAndActivate(r: Rules, w: World, layout: Layout, runtime: Option<A.Runtime>, e: Environment,
                              report: Setup): Outcome<Setup>
  {
    var open := OpenIdentity(e.identity.open);
    var report := report.(stage := IdentityStage, identityAttempted := true, identityResult := open);
    if !open.Ok? then
      Outcome(w, report.(status := if CorruptIdentity(open) then CorruptOrUnsupportedState else IdentityFailed))
    else
      var prepared := PrepareIdentity(w, e.identity);
      var x := prepared.report;
      var report := report.(identityResult := x);
      if x.DurabilityUncertain? then Outcome(prepared.world, report.(status := IdentityDurabilityUncertain))
      else if !x.Ok? && !x.Created? then
        Outcome(prepared.world,
                report.(status := if CorruptIdentity(x) then CorruptOrUnsupportedState else IdentityFailed))
      else FinishActivation(r, prepared.world, layout, runtime, e, report)
  }

  function PrepareIdentity(w: World, e: IdentityAnswers): Outcome<IdentityResult> {
    var w := Emit(w, IdentityRead);
    var x := LoadIdentity(w.disk, e.load);
    if x.NotFound? then LoadOrCreateIdentity(w, e.reload, e.creation) else Outcome(w, x)
  }

  predicate BasicInputValid(input: Input) {
    && NoNulls(input)
    && 1 <= |input.password.value| <= PASSWORD_MAX
    && FitsCapacity(input.baseUrl.value, URL_CAPACITY)
    && FitsCapacity(input.deviceName.value, NAME_CAPACITY)
    && FitsCapacity(input.username.value, CREDENTIAL_MAX + 1)
  }

  predicate MatchesSettings(input: Input, s: Settings)
    requires NoNulls(input)
  {
    input.baseUrl.value == s.baseUrl && input.deviceName.value == s.deviceName
  }

  function RunSetup(r: Rules, w: World, layout: Layout, input: Option<Input>, intent: Intent,
                    runtime: Option<A.Runtime>, s: Settings, e: Environment, report: Setup): Outcome<Setup>
  {
    if intent.NewOrResume? && report.local.CompleteDisabled? then Outcome(w, report.(status := Precondition))
    else if intent.ReplaceDisabled? && !report.local.CompleteDisabled? then Outcome(w, report.(status := Precondition))
    else if intent.OtherIntent? || input.None? || !BasicInputValid(input.value) then
      Outcome(w, report.(status := Status.InvalidInput))
    else if report.local.PartialDisabled? && !MatchesSettings(input.value, s) then
      Outcome(w, report.(status := Precondition))
    else
      var booted := Bootstrap(r, w, layout, input.value, e.bootstrap);
      var report := report.(stage := BootstrapStage, bootstrapAttempted := true, bootstrap := booted.report);
      if !booted.report.result.Ok? then
        Outcome(booted.world, report.(status := BootstrapStatus(booted.report.result)))
      else PrepareAndActivate(r, booted.world, layout, runtime, e, report)
  }

  function Submit(r: Rules, w: World, layout: Layout, input: Option<Input>, intent: Intent,
                  runtime: Option<A.Runtime>, e: Environment): Outcome<Setup>
  {
    var seen := Observe(r, w, layout, e.observe);
    var report := BEGUN.(local := seen.local);
    if seen.result.ObservationCorrupt? then Outcome(seen.world, report.(status := CorruptOrUnsupportedState))
    else if seen.result.ObservationUnreadable? then Outcome(seen.world, report.(status := Precondition))
    else if seen.local.OrphanCredentials? then Outcome(seen.world, report.(status := IncompleteState))
    else if seen.local.EnabledState? then Outcome(seen.world, report.(status := AlreadyEnabled))
    else RunSetup(r, seen.world, layout, input, intent, runtime, seen.settings, e, report)
  }

  function ActivateExisting(r: Rules, w: World, layout: Layout, runtime: Option<A.Runtime>,
                            e: Environment): Outcome<Setup> {
    var seen := Observe(r, w, layout, e.observe);
    var report := BEGUN.(local := seen.local);
    if seen.result.ObservationCorrupt? then Outcome(seen.world, report.(status := CorruptOrUnsupportedState))
    else if seen.result.ObservationUnreadable? then Outcome(seen.world, report.(status := Precondition))
    else if seen.local.EnabledState? then Outcome(seen.world, report.(status := AlreadyEnabled))
    else if !seen.local.CompleteDisabled? then Outcome(seen.world, report.(status := IncompleteState))
    else PrepareAndActivate(r, seen.world, layout, runtime, e, report)
  }

  function Inspect(r: Rules, w: World, layout: Layout, f: Faults): Outcome<Setup> {
    var seen := Observe(r, w, layout, f);
    Outcome(seen.world,
            BEGUN.(local := seen.local,
                   status := if seen.result.ObservationCorrupt? then CorruptOrUnsupportedState
                             else if seen.result.ObservationUnreadable? then Precondition
                             else if seen.local.EnabledState? then AlreadyEnabled
                             else if seen.local.OrphanCredentials? then IncompleteState
                             else Precondition))
  }

  // ----- The code -----

  method ObserveState(r: Rules, device: Device, layout: Layout, f: Faults, initial: Setup)
      returns (report: Setup, s: Settings, result: Observation)
    requires device.Valid()
    modifies device`world
    ensures device.Valid()
    ensures Observed(device.world, report.local, result, s) == Observe(r, old(device.world), layout, f)
    ensures report == initial.(local := report.local)
  {
    s := DEFAULTS;
    if !layout.Prepared? || !OpenSettings(f).Ok? {
      return initial.(local := Unreadable), s, ObservationUnreadable;
    }
    var x, loaded := device.ReadSettings(r, f);
    s := loaded;
    if CorruptSettings(x) {
      return initial.(local := CorruptOrUnsupported), s, ObservationCorrupt;
    }
    if !x.Ok? && !x.Missing? {
      return initial.(local := Unreadable), s, ObservationUnreadable;
    }
    var missing := x.Missing?;
    if !missing && s.enabled {
      return initial.(local := EnabledState), s, ObservationOk;
    }
    if !OpenCredentials(f).Ok? {
      return initial.(local := Unreadable), s, ObservationUnreadable;
    }
    var y, _ := device.ReadCredentials(f);
    if CorruptCredentials(y) {
      return initial.(local := CorruptOrUnsupported), s, ObservationCorrupt;
    }
    if y.Missing? {
      return initial.(local := if missing then NoAccount else PartialDisabled), s, ObservationOk;
    }
    if !y.Ok? {
      return initial.(local := Unreadable), s, ObservationUnreadable;
    }
    return initial.(local := if missing then OrphanCredentials else CompleteDisabled), s, ObservationOk;
  }

  method CheckProfile(r: Rules, device: Device, e: ProfileAnswers) returns (report: Profile)
    requires device.Valid()
    modifies device`world
    ensures device.Valid() && Outcome(device.world, report) == LoadProfile(r, old(device.world), e)
  {
    report := NO_PROFILE.(settingsAttempted := true, settingsResult := OpenSettings(e.faults));
    if !report.settingsResult.Ok? {
      return report.(status := ProfileSettingsFailed);
    }
    var x, s := device.ReadSettings(r, e.faults);
    report := report.(settingsResult := x);
    if x.Missing? || (x.Ok? && !s.enabled) {
      return report.(status := Disabled);
    }
    if !x.Ok? {
      return report.(status := ProfileSettingsFailed);
    }
    report := report.(credentialsAttempted := true, credentialResult := OpenCredentials(e.faults));
    if !report.credentialResult.Ok? {
      return report.(status := ProfileCredentialsFailed);
    }
    var y, c := device.ReadCredentials(e.faults);
    report := report.(credentialResult := y);
    if !y.Ok? {
      return report.(status := ProfileCredentialsFailed);
    }
    report := report.(identityAttempted := true, identityResult := OpenIdentity(e.identityOpen));
    if !report.identityResult.Ok? {
      return report.(status := ProfileIdentityFailed);
    }
    var z, id := device.ReadIdentity(e.identityLoad);
    report := report.(identityResult := z);
    if !z.Ok? {
      return report.(status := ProfileIdentityFailed);
    }
    if !FitsCapacity(s.baseUrl, URL_CAPACITY) || !FitsCapacity(c.username, CREDENTIAL_MAX + 1)
       || !FitsCapacity(c.userkey, CREDENTIAL_MAX + 1) || !FitsCapacity(id, 33)
       || !FitsCapacity(s.deviceName, NAME_CAPACITY) {
      return report.(status := ValidationFailed);
    }
    report := report.(status := Ready);
  }

  method Finish(r: Rules, device: Device, layout: Layout, runtime: Option<A.Runtime>, e: Environment, initial: Setup)
      returns (report: Setup)
    requires device.Valid()
    modifies device
    ensures device.Valid()
    ensures Outcome(device.world, report) == FinishActivation(r, old(device.world), layout, runtime, e, initial)
  {
    var activation := A.Run(r, device, layout, runtime, e.activation);
    report := initial.(stage := ActivationStage, activationAttempted := true, activation := activation);
    report := report.(status := ActivationStatus(activation.status));
    if !report.status.Activated? {
      return;
    }
    var profile := CheckProfile(r, device, e.profile);
    report := report.(stage := ProfileStage, profileAttempted := true, profile := profile);
    if !profile.status.Ready? {
      return report.(status := EnabledProfileUnavailable);
    }
    report := report.(status := Activated);
  }

  method LoadThenCreate(device: Device, e: IdentityAnswers) returns (result: IdentityResult)
    requires device.Valid()
    modifies device
    ensures device.Valid() && Outcome(device.world, result) == PrepareIdentity(old(device.world), e)
  {
    var loaded, _ := device.ReadIdentity(e.load);
    result := loaded;
    if result.NotFound? {
      result := device.CreateIdentity(e.reload, e.creation);
    }
  }

  method Prepare(r: Rules, device: Device, layout: Layout, runtime: Option<A.Runtime>, e: Environment, initial: Setup)
      returns (report: Setup)
    requires device.Valid()
    modifies device
    ensures device.Valid()
    ensures Outcome(device.world, report) == PrepareAndActivate(r, old(device.world), layout, runtime, e, initial)
  {
    var result := OpenIdentity(e.identity.open);
    report := initial.(stage := IdentityStage, identityAttempted := true, identityResult := result);
    if !result.Ok? {
      return report.(status := if CorruptIdentity(result) then CorruptOrUnsupportedState else IdentityFailed);
    }
    result := LoadThenCreate(device, e.identity);
    report := report.(identityResult := result);
    if result.DurabilityUncertain? {
      return report.(status := IdentityDurabilityUncertain);
    }
    if !result.Ok? && !result.Created? {
      return report.(status := if CorruptIdentity(result) then CorruptOrUnsupportedState else IdentityFailed);
    }
    report := Finish(r, device, layout, runtime, e, report);
  }

  method CheckBasicInput(input: Option<Input>) returns (valid: bool)
    ensures valid <==> input.Some? && BasicInputValid(input.value)
  {
    if input.None? || !NoNulls(input.value) {
      return false;
    }
    var password := input.value.password.value;
    if |password| == 0 || |password| > PASSWORD_MAX {
      return false;
    }
    valid := BoundedText(input.value.baseUrl.value, URL_CAPACITY);
    if valid {
      valid := BoundedText(input.value.deviceName.value, NAME_CAPACITY);
    }
    if valid {
      valid := BoundedText(input.value.username.value, CREDENTIAL_MAX + 1);
    }
  }

  /** A string that ends before the capacity does and is not empty. */
  method BoundedText(text: Text, capacity: nat) returns (bounded: bool)
    ensures bounded <==> FitsCapacity(text, capacity)
  {
    var i := 0;
    while i < capacity
      invariant 0 <= i <= |text| && i <= capacity
    {
      if i == |text| {
        return i != 0;
      }
      i := i + 1;
    }
    return false;
  }

  method SetUp(r: Rules, device: Device, layout: Layout, input: Option<Input>, intent: Intent,
               runtime: Option<A.Runtime>, s: Settings, e: Environment, initial: Setup) returns (report: Setup)
    requires device.Valid()
    modifies device
    ensures device.Valid()
    ensures Outcome(device.world, report)
            == RunSetup(r, old(device.world), layout, input, intent, runtime, s, e, initial)
  {
    report := initial;
    if intent.NewOrResume? && report.local.CompleteDisabled? {
      return report.(status := Precondition);
    }
    if intent.ReplaceDisabled? && !report.local.CompleteDisabled? {
      return report.(status := Precondition);
    }
    if !intent.NewOrResume? && !intent.ReplaceDisabled? {
      return report.(status := Status.InvalidInput);
    }
    var basic := CheckBasicInput(input);
    if !basic {
      return report.(status := Status.InvalidInput);
    }
    if report.local.PartialDisabled? && !MatchesSettings(input.value, s) {
      return report.(status := Precondition);
    }
    var booted := AccountBootstrap.Run(r, device, layout, input.value, e.bootstrap);
    report := report.(stage := BootstrapStage, bootstrapAttempted := true, bootstrap := booted);
    if !booted.result.Ok? {
      return report.(status := BootstrapStatus(booted.result));
    }
    report := Prepare(r, device, layout, runtime, e, report);
  }

  method RunSubmit(r: Rules, device: Device, layout: Layout, input: Option<Input>, intent: Intent,
                   runtime: Option<A.Runtime>, e: Environment) returns (report: Setup)
    requires device.Valid()
    modifies device
    ensures device.Valid()
    ensures Outcome(device.world, report) == Submit(r, old(device.world), layout, input, intent, runtime, e)
  {
    var observed, s, result := ObserveState(r, device, layout, e.observe, BEGUN);
    report := observed;
    if !result.ObservationOk? {
      return report.(status := if result.ObservationCorrupt? then CorruptOrUnsupportedState else Precondition);
    }
    if report.local.OrphanCredentials? {
      return report.(status := IncompleteState);
    }
    if report.local.EnabledState? {
      return report.(status := Status.AlreadyEnabled);
    }
    report := SetUp(r, device, layout, input, intent, runtime, s, e, report);
  }

  method RunActivateExisting(r: Rules, device: Device, layout: Layout, runtime: Option<A.Runtime>, e: Environment)
      returns (report: Setup)
    requires device.Valid()
    modifies device
    ensures device.Valid()
    ensures Outcome(device.world, report) == ActivateExisting(r, old(device.world), layout, runtime, e)
  {
    var observed, _, result := ObserveState(r, device, layout, e.observe, BEGUN);
    report := observed;
    if result.ObservationCorrupt? {
      return report.(status := CorruptOrUnsupportedState);
    }
    if result.ObservationUnreadable? {
      return report.(status := Precondition);
    }
    if report.local.EnabledState? {
      return report.(status := Status.AlreadyEnabled);
    }
    if !report.local.CompleteDisabled? {
      return report.(status := IncompleteState);
    }
    report := Prepare(r, device, layout, runtime, e, report);
  }

  method RunInspect(r: Rules, device: Device, layout: Layout, f: Faults) returns (report: Setup)
    requires device.Valid()
    modifies device`world
    ensures device.Valid() && Outcome(device.world, report) == Inspect(r, old(device.world), layout, f)
  {
    var observed, _, result := ObserveState(r, device, layout, f, BEGUN);
    report := observed;
    if result.ObservationCorrupt? {
      report := report.(status := CorruptOrUnsupportedState);
    } else if result.ObservationUnreadable? {
      report := report.(status := Precondition);
    } else if report.local.EnabledState? {
      report := report.(status := Status.AlreadyEnabled);
    } else if report.local.OrphanCredentials? {
      report := report.(status := IncompleteState);
    } else {
      report := report.(status := Precondition);
    }
  }
}
