// The account screen: one pending action at a time, carried out by the controller,
// with only the status and the local state coming back to the screen.
module AccountSetupUi {
  import opened Bytes
  import opened Wrappers
  import opened SettingsFile
  import opened AccountState
  import opened AccountBootstrap
  import A = SyncActivation
  import opened AccountSetup
  import opened AccountHistory
  import opened AccountSafety
  import opened AccountConvergence
  import opened AccountDecisions
  import opened AccountReports

  datatype Action = NoAction | InspectAction | SubmitAction | ActivateAction | ReplaceAction | RecheckAction

  /** The fields of the form, and what the last report said. */
  datatype Form = Form(open: bool, action: Action, baseUrl: Text, deviceName: Text, username: Text, password: Text,
                       status: Status, local: LocalState)

  /** The prepared application; `verified` says whether the storage is still the one it was prepared on. */
  datatype App = App(prepared: bool, verified: bool, layout: Layout, runtime: Option<A.Runtime>)

  // ----- Specification -----

  /** The runtime the application builds from its configuration. */
  function ConfiguredRuntime(dnsIp: Text, caPath: Text): Option<A.Runtime> {
    Some(A.Runtime(Some([Some(dnsIp)]), Some(A.Tls(Some(caPath), false)), A.Establish, true))
  }

  lemma ConfiguredRuntimeIsValid(dnsIp: Text, caPath: Text)
    ensures A.ValidRuntime(ConfiguredRuntime(dnsIp, caPath)) <==> dnsIp != [] && caPath != []
    ensures ConfiguredRuntime(dnsIp, caPath).Some? && ConfiguredRuntime(dnsIp, caPath).value.policy.Establish?
  {
    assert Some(dnsIp) in [Some(dnsIp)];
  }

  /** Three statuses mean that the account is enabled. */
  function Shown(status: Status, local: LocalState): LocalState {
    if status.Activated? || status.AlreadyEnabled? || status.EnabledProfileUnavailable? then EnabledState else local
  }

  function SetResult(f: Form, status: Status, local: LocalState): Form {
    f.(status := status, password := [], local := Shown(status, local))
  }

  /** Shows the stored URL and device name, if they can be loaded and fit their fields. */
  function Prefill(r: Rules, d: Disk, f: Form, faults: Faults): Form {
    if !OpenSettings(faults).Ok? || !LoadSettings(r, d, faults).Ok? || !f.open then f
    else
      var s := d.settings.value;
      var f := if |s.baseUrl| < URL_CAPACITY then f.(baseUrl := s.baseUrl) else f;
      if |s.deviceName| < NAME_CAPACITY then f.(deviceName := s.deviceName) else f
  }

  function InputOf(f: Form): Input {
    Input(Some(f.baseUrl), Some(f.deviceName), Some(f.username), Some(f.password))
  }

  datatype Processed = Processed(world: World, form: Form, code: int)

  function Process(r: Rules, w: World, form: Form, app: App, e: Environment, prefill: Faults): Processed {
    if form.action.NoAction? then Processed(w, form, 0)
    else
      var f := form.(action := NoAction);
      if !app.prepared || !app.verified then Processed(w, SetResult(f, Precondition, Unreadable), 1)
      else
        match form.action
        case InspectAction | RecheckAction =>
          var done := Inspect(r, w, app.layout, e.observe);
          var f := SetResult(f, done.report.status, done.report.local);
          Processed(done.world, if done.report.local.PartialDisabled? then Prefill(r, done.world.disk, f, prefill) else f, 1)
        case ActivateAction =>
          var done := ActivateExisting(r, w, app.layout, app.runtime, e);
          Processed(done.world, SetResult(f, done.report.status, done.report.local), 1)
        case SubmitAction | ReplaceAction =>
          if !form.open then Processed(w, f, -1)
          else
            var intent := if form.action.ReplaceAction? then ReplaceDisabled else NewOrResume;
            var done := Submit(r, w, app.layout, Some(InputOf(f)), intent, app.runtime, e);
            Processed(done.world, SetResult(f, done.report.status, done.report.local), 1)
  }

  // ----- The code -----

  class Screen {
    var form: Form

    constructor (form: Form)
      ensures this.form == form
    {
      this.form := form;
    }

    method TakeAction() returns (action: Action)
      modifies this
      ensures action == old(form).action && form == old(form).(action := NoAction)
    {
      action := form.action;
      form := form.(action := NoAction);
    }

    method ShowResult(status: Status, local: LocalState)
      modifies this
      ensures form == SetResult(old(form), status, local)
    {
      form := form.(status := status, local := local);
      if status.Activated? || status.AlreadyEnabled? || status.EnabledProfileUnavailable? {
        form := form.(local := EnabledState);
      }
      form := form.(password := []);
    }

    method PrefillPartial(r: Rules, device: Device, faults: Faults)
      requires device.Valid()
      modifies this
      ensures form == Prefill(r, device.world.disk, old(form), faults)
    {
      if !OpenSettings(faults).Ok? {
        return;
      }
      var x, s := device.ReadSettings(r, faults);
      if !x.Ok? || !form.open {
        return;
      }
      if |s.baseUrl| < URL_CAPACITY {
        form := form.(baseUrl := s.baseUrl);
      }
      if |s.deviceName| < NAME_CAPACITY {
        form := form.(deviceName := s.deviceName);
      }
    }

    /** Carries out the pending action. */
    method RunProcess(r: Rules, device: Device, app: App, e: Environment, prefill: Faults) returns (code: int)
      requires device.Valid()
      modifies this, device
      ensures device.Valid()
      ensures Processed(device.world, form, code) == Process(r, old(device.world), old(form), app, e, prefill)
    {
      if form.action.NoAction? {
        return 0;
      }
      var action := TakeAction();
      if !app.prepared || !app.verified {
        ShowResult(Precondition, Unreadable);
        return 1;
      }
      match action
      case NoAction => return 0;
      case InspectAction | RecheckAction =>
        var report := RunInspect(r, device, app.layout, e.observe);
        ShowResult(report.status, report.local);
        if report.local.PartialDisabled? {
          PrefillPartial(r, device, prefill);
        }
        return 1;
      case ActivateAction =>
        var report := RunActivateExisting(r, device, app.layout, app.runtime, e);
        ShowResult(report.status, report.local);
        return 1;
      case SubmitAction | ReplaceAction =>
        if !form.open {
          return -1;
        }
        var intent := if action.ReplaceAction? then ReplaceDisabled else NewOrResume;
        var report := RunSubmit(r, device, app.layout, Some(InputOf(form)), intent, app.runtime, e);
        form := form.(password := []);
        ShowResult(report.status, report.local);
        return 1;
    }
  }

  /** A step of the screen is at most one call, so what holds of runs of calls holds of runs of the screen. */
  lemma ProcessIsACall(r: Rules, w: World, form: Form, app: App, e: Environment, prefill: Faults)
    ensures Process(r, w, form, app, e, prefill).world == w
            || exists call :: Process(r, w, form, app, e, prefill).world == Perform(r, app.layout, w, call)
  {
    hide Submit, ActivateExisting, Inspect, Prefill;
    var intent := if form.action.ReplaceAction? then ReplaceDisabled else NewOrResume;
    var inspect := Perform(r, app.layout, w, CallInspect(e.observe));
    var submit := Perform(r, app.layout, w, CallSubmit(Some(InputOf(form.(action := NoAction))), intent, app.runtime, e));
    var retry := Perform(r, app.layout, w, CallActivateExisting(app.runtime, e));
    assert Process(r, w, form, app, e, prefill).world in {w, inspect, submit, retry};
  }

  /** One step takes the pending action, whatever comes of it, and a password that was used is gone. */
  lemma ActionIsTaken(r: Rules, w: World, form: Form, app: App, e: Environment, prefill: Faults)
    ensures var done := Process(r, w, form, app, e, prefill);
            && done.form.action.NoAction? && done.form.open == form.open
            && -1 <= done.code <= 1 && (done.code == 0 <==> form.action.NoAction?)
            && (done.code == -1 <==> app.prepared && app.verified && !form.open
                                     && (form.action.SubmitAction? || form.action.ReplaceAction?))
            && (done.code == 1 ==> done.form.password == [])
            && (!app.prepared || !app.verified ==>
                  done.world == w && (form.action.NoAction? || (done.form.status.Precondition? && done.form.local.Unreadable?)))
            && (form.action.InspectAction? || form.action.RecheckAction? ==> done.world.disk == w.disk)
  {
    hide Submit, ActivateExisting, Inspect;
    InspectionFindsLocalAnywhere(r, w, app.layout, e.observe);
  }

  lemma InspectionFindsLocalAnywhere(r: Rules, w: World, layout: Layout, f: Faults)
    ensures Inspect(r, w, layout, f).world.disk == w.disk
    ensures SeenClearly(r, w.disk, layout, f) ==> Inspect(r, w, layout, f).report.local == Local(r, w.disk)
    ensures Inspect(r, w, layout, f).report.local.EnabledState? || Inspect(r, w, layout, f).report.status.AlreadyEnabled?
            ==> Enabled(r, w.disk)
    ensures !Inspect(r, w, layout, f).report.status.Activated?
    ensures !Inspect(r, w, layout, f).report.status.EnabledProfileUnavailable?
  {
    ObservationIsHonest(r, w, layout, f);
  }

  lemma LocalIsObserved(r: Rules, w: World, layout: Layout, input: Option<Input>, intent: Intent,
                        runtime: Option<A.Runtime>, e: Environment)
    ensures Submit(r, w, layout, input, intent, runtime, e).report.local == Observe(r, w, layout, e.observe).local
    ensures ActivateExisting(r, w, layout, runtime, e).report.local == Observe(r, w, layout, e.observe).local
  {
    hide Observe, Bootstrap, BasicInputValid, PrepareIdentity, A.Activate, LoadProfile;
  }

  lemma ObservedEnabled(r: Rules, w: World, layout: Layout, f: Faults)
    ensures Observe(r, w, layout, f).local.EnabledState? ==> Enabled(r, w.disk)
  {}

  /** The controller's statuses and states that the screen shows as enabled are reported only of enabled accounts. */
  lemma ReportedEnabledIsEnabled(r: Rules, w: World, layout: Layout, input: Option<Input>, intent: Intent,
                                 runtime: Option<A.Runtime>, e: Environment)
    requires Sound(r)
    ensures var done := Submit(r, w, layout, input, intent, runtime, e);
            Shown(done.report.status, done.report.local).EnabledState? ==> Enabled(r, done.world.disk)
    ensures var done := ActivateExisting(r, w, layout, runtime, e);
            Shown(done.report.status, done.report.local).EnabledState? ==> Enabled(r, done.world.disk)
  {
    hide Submit, ActivateExisting, Observe, Enabled;
    LocalIsObserved(r, w, layout, input, intent, runtime, e);
    ObservedEnabled(r, w, layout, e.observe);
    AlreadyIsTrue(r, w, layout, input, intent, runtime, e);
    if Enabled(r, w.disk) {
      EnabledIsQuiet(r, layout, w, CallSubmit(input, intent, runtime, e));
      EnabledIsQuiet(r, layout, w, CallActivateExisting(runtime, e));
    } else {
      SubmitTells(SettingsReplaced, r, w, layout, input, intent, runtime, e);
      ActivateExistingTells(SettingsReplaced, r, w, layout, runtime, e);
    }
  }

  /** The screen shows an account as enabled only if it is. */
  lemma ShownEnabledIsEnabled(r: Rules, w: World, form: Form, app: App, e: Environment, prefill: Faults)
    requires Sound(r)
    ensures var done := Process(r, w, form, app, e, prefill);
            done.code == 1 && done.form.local.EnabledState? ==> Enabled(r, done.world.disk)
  {
    hide Submit, ActivateExisting, Inspect, Enabled;
    var input := Some(InputOf(form.(action := NoAction)));
    ReportedEnabledIsEnabled(r, w, app.layout, input, NewOrResume, app.runtime, e);
    ReportedEnabledIsEnabled(r, w, app.layout, input, ReplaceDisabled, app.runtime, e);
    InspectionFindsLocalAnywhere(r, w, app.layout, e.observe);
  }

  // ----- Convergence -----

  /** What a user does next: fill in what is asked for and press the button the local state offers. */
  function Respond(f: Form, baseUrl: Text, deviceName: Text, username: Text, password: Text): Form {
    match f.local
    case NoAccount =>
      f.(baseUrl := baseUrl, deviceName := deviceName, username := username, password := password, action := SubmitAction)
    case PartialDisabled => f.(username := username, password := password, action := SubmitAction)
    case CompleteDisabled => f.(action := ActivateAction)
    case _ => f
  }

  /** An account that was never set up, with whatever identity file. */
  ghost predicate Fresh(d: Disk) {
    d.settings.Absent? && d.credentials.Absent?
  }

  /** What is stored after a fresh start was stored by a bootstrap, so it has a URL. */
  lemma {:induction false} StoredHasUrl(r: Rules, w: World)
    requires Disciplined(r, w) && Fresh(Origin(w))
    ensures w.disk.settings.Absent? || (Addressed(r, w.disk) || Enabled(r, w.disk))
    ensures w.disk.settings.Holds? ==> w.disk.settings.value.baseUrl != []
    ensures w.disk.credentials.Absent? || (HasCredentials(w.disk) && w.disk.settings.Holds?)
    decreases w
  {
    if !w.Boot? {
      StoredHasUrl(r, w.before);
    }
  }

  lemma ResumedInputIsAcceptable(r: Rules, d: Disk, input: Input)
    requires Sound(r) && Addressed(r, d) && NoNulls(input) && MatchesSettings(input, d.settings.value)
    requires 1 <= |input.password.value| <= PASSWORD_MAX && CredentialText(input.username.value)
    ensures Acceptable(r, input)
  {
    assert Requested(input) == d.settings.value;
  }

  /** What the screen shows after a healthy inspection. */
  lemma InspectionShows(r: Rules, w: World, form: Form, app: App, e: Environment)
    requires Sound(r) && app.prepared && app.verified && app.layout.Prepared? && e.observe == NO_FAULTS
    requires form.open && form.action.InspectAction?
    ensures var seen := Process(r, w, form, app, e, NO_FAULTS);
            && seen.world.disk == w.disk && seen.form.local == Local(r, w.disk) && seen.form.open && seen.form.action.NoAction?
            && (seen.form.local.PartialDisabled? ==>
                  seen.form.baseUrl == w.disk.settings.value.baseUrl && seen.form.deviceName == w.disk.settings.value.deviceName)
            && (seen.world == w || seen.world == Emit(w, CredentialsRead))
  {
    InspectionFindsLocal(r, w);
  }

  lemma SubmittingActivates(r: Rules, w: World, form: Form, app: App, e: Environment)
    requires Sound(r) && app.prepared && app.verified && app.layout.Prepared? && A.ValidRuntime(app.runtime) && Healthy(e)
    requires form.open && form.action.SubmitAction? && Acceptable(r, InputOf(form))
    requires Local(r, w.disk).NoAccount?
             || (Local(r, w.disk).PartialDisabled? && MatchesSettings(InputOf(form), w.disk.settings.value))
    ensures ShowsOutcome(r, w.disk, Process(r, w, form, app, e, NO_FAULTS))
  {
    hide Submit, A.ValidRuntime, Healthy, Acceptable;
    HealthySubmitActivates(r, w, InputOf(form.(action := NoAction)), app.runtime, e);
  }

  lemma RetryingActivates(r: Rules, w: World, form: Form, app: App, e: Environment)
    requires Sound(r) && app.prepared && app.verified && app.layout.Prepared? && A.ValidRuntime(app.runtime) && Healthy(e)
    requires form.action.ActivateAction? && Local(r, w.disk).CompleteDisabled? && w.disk.settings.value.baseUrl != []
    ensures ShowsOutcome(r, w.disk, Process(r, w, form, app, e, NO_FAULTS))
  {
    hide ActivateExisting, A.ValidRuntime, Healthy;
    HealthyRetryActivates(r, w, app.runtime, e);
  }

  /** The replace button on a complete account leaves exactly what the form says, enabled, and shows it. */
  lemma ReplacingActivates(r: Rules, w: World, form: Form, app: App, e: Environment)
    requires Sound(r) && app.prepared && app.verified && app.layout.Prepared? && A.ValidRuntime(app.runtime) && Healthy(e)
    requires form.open && form.action.ReplaceAction? && Acceptable(r, InputOf(form))
    requires Local(r, w.disk).CompleteDisabled? && !w.disk.identity.Damaged?
    ensures var done := Process(r, w, form, app, e, NO_FAULTS);
            && done.form.local.EnabledState? && done.form.status.Activated?
            && done.world.disk.settings == Holds(Settings(true, form.baseUrl, form.deviceName))
            && done.world.disk.credentials == Holds(Credentials(form.username, r.Derive(form.password)))
  {
    hide Submit, A.ValidRuntime, Healthy, Acceptable, Local, r.Derive;
    HealthyReplaceActivates(r, w, InputOf(form.(action := NoAction)), app.runtime, e);
  }

  /** The account ends enabled, and the screen says so, exactly if the identity file is not damaged. */
  ghost predicate ShowsOutcome(r: Rules, d: Disk, done: Processed) {
    && (Enabled(r, done.world.disk) <==> !d.identity.Damaged?)
    && (done.form.local.EnabledState? <==> !d.identity.Damaged?)
  }

  /**
    * From wherever faults have left a fresh account, a healthy inspection and the one action it
    * offers enable it, exactly if the identity file is not damaged.
    */
  lemma Converges(r: Rules, start: Disk, calls: seq<Call>, form: Form, app: App, request: Input, e: Environment,
                  e': Environment)
    requires Sound(r) && Fresh(start) && Acceptable(r, request)
    requires app.prepared && app.verified && app.layout.Prepared? && A.ValidRuntime(app.runtime)
    requires form.open && form.action.InspectAction? && Healthy(e) && Healthy(e')
    ensures
      var w := PerformAll(r, Prepared, Boot(start), calls);
      var seen := Process(r, w, form, app, e, NO_FAULTS);
      var reply := Respond(seen.form, request.baseUrl.value, request.deviceName.value, request.username.value,
                           request.password.value);
      ShowsOutcome(r, w.disk, Process(r, seen.world, reply, app, e', NO_FAULTS))
  {
    hide Process, A.ValidRuntime, Inspect, Submit, ActivateExisting;
    var w := PerformAll(r, Prepared, Boot(start), calls);
    RunsAreDisciplined(r, Prepared, Boot(start), calls);
    StoredHasUrl(r, w);
    InspectionShows(r, w, form, app, e);
    var seen := Process(r, w, form, app, e, NO_FAULTS);
    var reply := Respond(seen.form, request.baseUrl.value, request.deviceName.value, request.username.value,
                         request.password.value);
    match Local(r, w.disk)
    case NoAccount =>
      assert InputOf(reply) == request;
      SubmittingActivates(r, seen.world, reply, app, e');
    case PartialDisabled =>
      ResumedInputIsAcceptable(r, w.disk, InputOf(reply));
      SubmittingActivates(r, seen.world, reply, app, e');
    case CompleteDisabled => RetryingActivates(r, seen.world, reply, app, e');
    case EnabledState =>
      EnabledIsAuthorised(r, w);
      IdleChangesNothing(r, seen.world, reply, app, e');
    case _ => assert false;
  }

  lemma IdleChangesNothing(r: Rules, w: World, form: Form, app: App, e: Environment)
    requires form.action.NoAction?
    ensures Process(r, w, form, app, e, NO_FAULTS) == Processed(w, form, 0)
  {}

  /** A damaged identity file is final: no sequence of calls enables an account that has one. */
  lemma DamagedIdentityIsFinal(r: Rules, layout: Layout, start: Disk, calls: seq<Call>)
    requires Sound(r) && start.identity.Damaged? && !Enabled(r, start)
    ensures !Enabled(r, PerformAll(r, layout, Boot(start), calls).disk)
  {
    var end := PerformAll(r, layout, Boot(start), calls);
    RunsAreDisciplined(r, layout, Boot(start), calls);
    BootIsEarliest(end);
    ProgressIsMonotone(r, layout, start, calls, Boot(start), end);
    EnabledImpliesAuthorised(r, layout, start, calls, end);
  }

  lemma {:induction false} BootIsEarliest(w: World)
    ensures Since(Boot(Origin(w)), w)
    decreases w
  {
    if w.After? {
      BootIsEarliest(w.before);
    }
  }

  const EMPTY := Disk(Absent, Absent, Absent)

  /** The identity file runs out of space half-way, and what was written of it cannot be removed. */
  const OUT_OF_SPACE := IdentityAnswers(None, None, None, Some(NotCreated(IdentityResult.NoSpace, true)))

  lemma SpaceRunsOut(r: Rules, w: World, layout: Layout, runtime: Option<A.Runtime>, e: Environment, report: Setup)
    requires w.disk.identity.Absent? && e.identity == OUT_OF_SPACE
    ensures var done := PrepareAndActivate(r, w, layout, runtime, e, report);
            && done.report.status.IdentityFailed?
            && done.world.disk == w.disk.(identity := Damaged(IdentityResult.Malformed))
  {
    hide FinishActivation;
  }

  /**
    * The code can damage the identity file: a first setup during which only the space for it runs out. All
    * that is stored then is in order but for that file, yet retrying with nothing failing any more ends as
    * corrupt, and no sequence of calls enables the account.
    */
  lemma FullDiskIsFinal(r: Rules, input: Input, runtime: Option<A.Runtime>, e: Environment, e': Environment,
                        layout: Layout, calls: seq<Call>)
    requires Sound(r) && Acceptable(r, input) && A.ValidRuntime(runtime) && Healthy(e')
    requires e.observe == NO_FAULTS && e.bootstrap == CLEAN && e.identity == OUT_OF_SPACE
    ensures var failed := Submit(r, Boot(EMPTY), Prepared, Some(input), NewOrResume, runtime, e);
            var again := ActivateExisting(r, failed.world, Prepared, runtime, e');
            && failed.report.status.IdentityFailed? && Local(r, failed.world.disk).CompleteDisabled?
            && failed.world.disk.identity == Damaged(IdentityResult.Malformed)
            && again.report.status.CorruptOrUnsupportedState? && !Enabled(r, again.world.disk)
            && !Enabled(r, PerformAll(r, layout, Boot(failed.world.disk), calls).disk)
  {
    hide Bootstrap, PrepareAndActivate, ActivateExisting, A.ValidRuntime, Healthy, r.Derive;
    var seen := Observe(r, Boot(EMPTY), Prepared, NO_FAULTS).world;
    CleanReachesGoal(r, seen, Prepared, input);
    HexIsCredentialText(r.Derive(input.password.value));
    var booted := Bootstrap(r, seen, Prepared, input, CLEAN);
    SpaceRunsOut(r, booted.world, Prepared, runtime, e,
                 BEGUN.(local := NoAccount, stage := BootstrapStage, bootstrapAttempted := true, bootstrap := booted.report));
    var failed := Submit(r, Boot(EMPTY), Prepared, Some(input), NewOrResume, runtime, e).world;
    assert failed.disk.settings == Holds(Requested(input));
    HealthyRetryActivates(r, failed, runtime, e');
    DamagedIdentityIsFinal(r, layout, failed.disk, calls);
  }
}
