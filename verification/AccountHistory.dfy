// What may happen to a device when, and proof that every call keeps to it.
module AccountHistory {
  import opened Bytes
  import opened Wrappers
  import opened SettingsFile
  import opened AccountState
  import opened AccountBootstrap
  import A = SyncActivation
  import opened AccountSetup

  // ----- States -----

  /** The settings a load would report are enabled. */
  ghost predicate Enabled(r: Rules, d: Disk) {
    d.settings.Holds? && r.valid(d.settings.value) && d.settings.value.enabled
  }

  /** Valid disabled settings. */
  ghost predicate Off(r: Rules, d: Disk) {
    d.settings.Holds? && r.valid(d.settings.value) && !d.settings.value.enabled
  }

  ghost predicate Addressed(r: Rules, d: Disk) {
    Off(r, d) && d.settings.value.baseUrl != []
  }

  ghost predicate HasCredentials(d: Disk) {
    d.credentials.Holds? && ValidCredentials(d.credentials.value)
  }

  /** Everything activation needs is stored. */
  ghost predicate ReadyToAuthorise(r: Rules, d: Disk) {
    Addressed(r, d) && HasCredentials(d) && d.identity.Holds?
  }

  /** The server has just granted exactly what is stored. */
  ghost predicate JustGranted(w: World) {
    && w.After? && w.disk.settings.Holds? && w.disk.credentials.Holds?
    && w.event == AuthRequest(w.disk.settings.value.baseUrl, w.disk.credentials.value.username,
                              w.disk.credentials.value.userkey, true)
  }

  // ----- The discipline -----

  /** What may happen next. */
  ghost predicate Lawful(r: Rules, w: World, e: Event) {
    match e
    case SettingsWrite(s, _) =>
      && r.valid(s) && s.baseUrl != []
      && (w.disk.settings.Absent? || Off(r, w.disk)) && (w.disk.credentials.Absent? || HasCredentials(w.disk))
      && (s.enabled ==>
            JustGranted(w) && ReadyToAuthorise(r, w.disk) && w.disk.settings.value == s.(enabled := false))
    case CredentialsWrite(c, _) =>
      Addressed(r, w.disk) && ValidCredentials(c) && (w.disk.credentials.Absent? || HasCredentials(w.disk))
    case IdentityWrite(_) => Off(r, w.disk) && HasCredentials(w.disk) && w.disk.identity.Absent?
    case AuthRequest(url, username, userkey, _) =>
      && ReadyToAuthorise(r, w.disk)
      && url == w.disk.settings.value.baseUrl && w.disk.credentials.value == Credentials(username, userkey)
    case TimeQuery | DnsQuery => ReadyToAuthorise(r, w.disk)
    case CredentialsRead | IdentityRead | KeyDerivation => true
  }

  ghost predicate Disciplined(r: Rules, w: World) {
    w.Boot? || (Disciplined(r, w.before) && Lawful(r, w.before, w.event) && w.disk == Effect(w.before.disk, w.event))
  }

  // ----- Instants of one call -----

  /** w0 is w or an earlier instant of it. */
  ghost predicate Since(w0: World, w: World) {
    w == w0 || (w.After? && Since(w0, w.before))
  }

  predicate IsWrite(e: Event) {
    e.SettingsWrite? || e.CredentialsWrite? || e.IdentityWrite?
  }

  predicate DurableWrite(e: Event) {
    match e
    case SettingsWrite(_, o) => o.Durable?
    case CredentialsWrite(_, o) => o.Durable?
    case IdentityWrite(c) => c.NewDurable?
    case _ => false
  }

  /** Every write between the two instants was durable. */
  ghost predicate DurableSince(w0: World, w: World) {
    w == w0 || (w.After? && DurableSince(w0, w.before) && (IsWrite(w.event) ==> DurableWrite(w.event)))
  }

  /** Every write between the two instants was issued after durable writes only. */
  ghost predicate Ordered(w0: World, w: World) {
    w == w0 || (w.After? && Ordered(w0, w.before) && (IsWrite(w.event) ==> DurableSince(w0, w.before)))
  }

  ghost predicate Kept(r: Rules, w0: World, w: World) {
    Disciplined(r, w) && Ordered(w0, w)
  }

  ghost predicate Steady(r: Rules, w0: World, w: World) {
    Kept(r, w0, w) && DurableSince(w0, w)
  }

  lemma Step(r: Rules, w0: World, w: World, e: Event)
    requires Steady(r, w0, w) && Lawful(r, w, e)
    ensures Kept(r, w0, Emit(w, e))
    ensures (IsWrite(e) ==> DurableWrite(e)) ==> Steady(r, w0, Emit(w, e))
  {}

  // ----- Every function keeps the discipline -----

  lemma ObserveKeeps(r: Rules, w0: World, w: World, layout: Layout, f: Faults)
    requires Steady(r, w0, w)
    ensures Steady(r, w0, Observe(r, w, layout, f).world)
  {
    Step(r, w0, w, CredentialsRead);
  }

  lemma CredentialsStepKeeps(r: Rules, w0: World, w: World, c: Credentials, e: AccountBootstrap.Answers, report: Report)
    requires Steady(r, w0, w) && Addressed(r, w.disk) && ValidCredentials(c)
    requires w.disk.credentials.Absent? || HasCredentials(w.disk)
    ensures Kept(r, w0, CredentialsStep(w, c, e, report).world)
    ensures CredentialsStep(w, c, e, report).report.result.Ok? ==> Steady(r, w0, CredentialsStep(w, c, e, report).world)
  {
    Step(r, w0, w, CredentialsWrite(c, e.credentialsSave));
  }

  lemma SettingsStepKeeps(r: Rules, w0: World, w: World, s: Settings, c: Credentials, e: AccountBootstrap.Answers,
                          report: Report)
    requires Steady(r, w0, w) && r.valid(s) && !s.enabled && s.baseUrl != [] && ValidCredentials(c)
    requires report.settingsResult == LoadSettings(r, w.disk, e.faults)
    requires report.settingsResult.Missing? || (report.settingsResult.Ok? && !w.disk.settings.value.enabled)
    requires w.disk.credentials.Absent? || HasCredentials(w.disk)
    ensures Kept(r, w0, SettingsStep(r, w, s, c, e, report).world)
    ensures SettingsStep(r, w, s, c, e, report).report.result.Ok? ==>
              Steady(r, w0, SettingsStep(r, w, s, c, e, report).world)
  {
    if report.settingsResult.Ok? && w.disk.settings == Holds(s) {
      CredentialsStepKeeps(r, w0, w, c, e, report);
    } else {
      Step(r, w0, w, SettingsWrite(s, e.settingsSave));
      var saved := SaveSettings(r, w, s, e.settingsSave);
      if saved.report.Ok? {
        var report := report.(stage := SettingsStage, settingsResult := saved.report, settingsWritten := true);
        CredentialsStepKeeps(r, w0, saved.world, c, e, report);
      }
    }
  }

  lemma BootstrapKeeps(r: Rules, w0: World, w: World, layout: Layout, input: Input, e: AccountBootstrap.Answers)
    requires Steady(r, w0, w)
    ensures Kept(r, w0, Bootstrap(r, w, layout, input, e).world)
    ensures Bootstrap(r, w, layout, input, e).report.result.Ok? ==>
              Steady(r, w0, Bootstrap(r, w, layout, input, e).world)
  {
    if layout.Prepared? && Acceptable(r, input) {
      Step(r, w0, w, KeyDerivation);
      var w := Emit(w, KeyDerivation);
      Step(r, w0, w, CredentialsRead);
      HexIsCredentialText(r.Derive(input.password.value));
      var w' := Emit(w, CredentialsRead);
      var x, y := LoadSettings(r, w'.disk, e.faults), LoadCredentials(w'.disk, e.faults);
      var report := INITIAL.(stage := Preflight, userkeyResult := UserkeyResult.Ok, settingsResult := x, credentialResult := y);
      if (x.Missing? || (x.Ok? && !w'.disk.settings.value.enabled)) && (y.Ok? || y.Missing?) {
        SettingsStepKeeps(r, w0, w', Requested(input), RequestedCredentials(r, input), e, report);
      }
    }
  }

  /** A phase of activation: the world it leaves is kept, and steady if it reports success. */
  ghost predicate Keeps(r: Rules, w0: World, x: Outcome<A.Activation>) {
    Kept(r, w0, x.world) && (x.report.status.Ok? ==> Steady(r, w0, x.world))
  }

  lemma AuthorizePhaseKeeps(r: Rules, w0: World, w: World, s: Settings, c: Credentials, e: A.Answers)
    requires Sound(r) && Steady(r, w0, w) && ReadyToAuthorise(r, w.disk)
    requires w.disk.settings.value == s && w.disk.credentials.value == c
    ensures forall report :: Keeps(r, w0, A.AuthorizePhase(r, w, s, c, e, report))
  {
    var granted := AuthRequest(s.baseUrl, c.username, c.userkey, e.authorize.Ok?);
    Step(r, w0, w, granted);
    if e.authorize.Ok? {
      assert JustGranted(Emit(w, granted));
      Step(r, w0, Emit(w, granted), SettingsWrite(s.(enabled := true), e.save));
    }
  }

  lemma NetworkPhaseKeeps(r: Rules, w0: World, w: World, runtime: A.Runtime, s: Settings, c: Credentials, e: A.Answers)
    requires Sound(r) && Steady(r, w0, w) && ReadyToAuthorise(r, w.disk)
    requires w.disk.settings.value == s && w.disk.credentials.value == c
    ensures forall report :: Keeps(r, w0, A.NetworkPhase(r, w, runtime, s, c, e, report))
  {
    hide A.AuthorizePhase, Disciplined, Ordered, DurableSince;
    Step(r, w0, w, TimeQuery);
    var w' := if runtime.policy.Establish? then Emit(w, TimeQuery) else w;
    Step(r, w0, w', DnsQuery);
    AuthorizePhaseKeeps(r, w0, Emit(w', DnsQuery), s, c, e);
  }

  lemma IdentityPhaseKeeps(r: Rules, w0: World, w: World, runtime: Option<A.Runtime>, s: Settings, c: Credentials,
                           e: A.Answers)
    requires Sound(r) && Steady(r, w0, w) && Addressed(r, w.disk) && HasCredentials(w.disk)
    requires w.disk.settings.value == s && w.disk.credentials.value == c
    ensures forall report :: Keeps(r, w0, A.IdentityPhase(r, w, runtime, s, c, e, report))
  {
    hide A.NetworkPhase, Disciplined, Ordered, DurableSince;
    Step(r, w0, w, IdentityRead);
    if A.ValidRuntime(runtime) && w.disk.identity.Holds? {
      NetworkPhaseKeeps(r, w0, Emit(w, IdentityRead), runtime.value, s, c, e);
    }
  }

  lemma ActivateKeeps(r: Rules, w0: World, w: World, layout: Layout, runtime: Option<A.Runtime>, e: A.Answers)
    requires Sound(r) && Steady(r, w0, w)
    ensures Keeps(r, w0, A.Activate(r, w, layout, runtime, e))
  {
    hide A.IdentityPhase, Disciplined, Ordered, DurableSince;
    if Addressed(r, w.disk) {
      Step(r, w0, w, CredentialsRead);
      if HasCredentials(w.disk) {
        IdentityPhaseKeeps(r, w0, Emit(w, CredentialsRead), runtime, w.disk.settings.value, w.disk.credentials.value, e);
      }
    }
  }

  lemma LoadProfileKeeps(r: Rules, w0: World, w: World, e: ProfileAnswers)
    requires Steady(r, w0, w)
    ensures Steady(r, w0, LoadProfile(r, w, e).world)
  {
    Step(r, w0, w, CredentialsRead);
    Step(r, w0, Emit(w, CredentialsRead), IdentityRead);
  }

  lemma ConcludeKeeps(r: Rules, w0: World, activated: Outcome<A.Activation>, e: ProfileAnswers)
    requires Keeps(r, w0, activated)
    ensures forall report :: Kept(r, w0, Conclude(r, activated, e, report).world)
  {
    if activated.report.status.Ok? {
      LoadProfileKeeps(r, w0, activated.world, e);
    }
  }

  lemma FinishActivationKeeps(r: Rules, w0: World, w: World, layout: Layout, runtime: Option<A.Runtime>, e: Environment)
    requires Sound(r) && Steady(r, w0, w)
    ensures forall report :: Kept(r, w0, FinishActivation(r, w, layout, runtime, e, report).world)
  {
    ActivateKeeps(r, w0, w, layout, runtime, e.activation);
    ConcludeKeeps(r, w0, A.Activate(r, w, layout, runtime, e.activation), e.profile);
  }

  lemma PrepareIdentityKeeps(r: Rules, w0: World, w: World, e: IdentityAnswers)
    requires Steady(r, w0, w) && Off(r, w.disk) && HasCredentials(w.disk)
    ensures Kept(r, w0, PrepareIdentity(w, e).world)
    ensures PrepareIdentity(w, e).report.Ok? || PrepareIdentity(w, e).report.Created? ==>
              Steady(r, w0, PrepareIdentity(w, e).world)
  {
    Step(r, w0, w, IdentityRead);
    if w.disk.identity.Absent? && e.creation.Some? {
      Step(r, w0, Emit(w, IdentityRead), IdentityWrite(e.creation.value));
    }
  }

  lemma PrepareAndActivateKeeps(r: Rules, w0: World, w: World, layout: Layout, runtime: Option<A.Runtime>,
                                e: Environment)
    requires Sound(r) && Steady(r, w0, w) && Off(r, w.disk) && HasCredentials(w.disk)
    ensures forall report :: Kept(r, w0, PrepareAndActivate(r, w, layout, runtime, e, report).world)
  {
    PrepareIdentityKeeps(r, w0, w, e.identity);
    var prepared := PrepareIdentity(w, e.identity);
    if prepared.report.Ok? || prepared.report.Created? {
      FinishActivationKeeps(r, w0, prepared.world, layout, runtime, e);
    }
  }

  // ----- Runs of calls -----

  datatype Call =
    | CallInspect(faults: Faults)
    | CallSubmit(input: Option<Input>, intent: Intent, runtime: Option<A.Runtime>, environment: Environment)
    | CallActivateExisting(runtime: Option<A.Runtime>, environment: Environment)
    | CallBootstrap(request: Input, answers: AccountBootstrap.Answers)
    | CallActivate(runtime: Option<A.Runtime>, activation: A.Answers)

  function Perform(r: Rules, layout: Layout, w: World, call: Call): World {
    match call
    case CallInspect(f) => Inspect(r, w, layout, f).world
    case CallSubmit(input, intent, runtime, e) => Submit(r, w, layout, input, intent, runtime, e).world
    case CallActivateExisting(runtime, e) => ActivateExisting(r, w, layout, runtime, e).world
    case CallBootstrap(input, e) => Bootstrap(r, w, layout, input, e).world
    case CallActivate(runtime, e) => A.Activate(r, w, layout, runtime, e).world
  }

  function PerformAll(r: Rules, layout: Layout, w: World, calls: seq<Call>): World
    decreases |calls|
  {
    if calls == [] then w else PerformAll(r, layout, Perform(r, layout, w, calls[0]), calls[1..])
  }

  lemma SubmitKeeps(r: Rules, w0: World, w: World, layout: Layout, input: Option<Input>, intent: Intent,
                    runtime: Option<A.Runtime>, e: Environment)
    requires Sound(r) && Steady(r, w0, w)
    ensures Kept(r, w0, Submit(r, w, layout, input, intent, runtime, e).world)
  {
    hide Bootstrap, PrepareAndActivate, BasicInputValid, Kept, Steady;
    ObserveKeeps(r, w0, w, layout, e.observe);
    var seen := Observe(r, w, layout, e.observe).world;
    SteadyIsKept(r, w0, seen);
    if input.Some? {
      BootstrapKeeps(r, w0, seen, layout, input.value, e.bootstrap);
      var booted := Bootstrap(r, seen, layout, input.value, e.bootstrap);
      if booted.report.result.Ok? {
        BootstrapStores(r, seen, layout, input.value, e.bootstrap);
        HexIsCredentialText(r.Derive(input.value.password.value));
        PrepareAndActivateKeeps(r, w0, booted.world, layout, runtime, e);
      }
    }
  }

  lemma SteadyIsKept(r: Rules, w0: World, w: World)
    requires Steady(r, w0, w)
    ensures Kept(r, w0, w)
  {}

  lemma ActivateExistingKeeps(r: Rules, w0: World, w: World, layout: Layout, runtime: Option<A.Runtime>, e: Environment)
    requires Sound(r) && Steady(r, w0, w)
    ensures Kept(r, w0, ActivateExisting(r, w, layout, runtime, e).world)
  {
    hide PrepareAndActivate, Kept, Steady;
    ObserveKeeps(r, w0, w, layout, e.observe);
    var seen := Observe(r, w, layout, e.observe);
    SteadyIsKept(r, w0, seen.world);
    if seen.local.CompleteDisabled? {
      PrepareAndActivateKeeps(r, w0, seen.world, layout, runtime, e);
    }
  }

  /** Bootstrap reports success exactly for stores that hold what was asked for. */
  lemma BootstrapStores(r: Rules, w: World, layout: Layout, input: Input, e: AccountBootstrap.Answers)
    requires Bootstrap(r, w, layout, input, e).report.result.Ok?
    ensures layout.Prepared? && Acceptable(r, input)
    ensures Bootstrap(r, w, layout, input, e).world.disk.settings == Holds(Requested(input))
    ensures Bootstrap(r, w, layout, input, e).world.disk.credentials == Holds(RequestedCredentials(r, input))
  {
  }

  /** Every call keeps the discipline and orders its writes. */
  lemma PerformKeeps(r: Rules, layout: Layout, w: World, call: Call)
    requires Sound(r) && Disciplined(r, w)
    ensures Kept(r, w, Perform(r, layout, w, call))
  {
    match call
    case CallInspect(f) => ObserveKeeps(r, w, w, layout, f);
    case CallSubmit(input, intent, runtime, e) => SubmitKeeps(r, w, w, layout, input, intent, runtime, e);
    case CallActivateExisting(runtime, e) => ActivateExistingKeeps(r, w, w, layout, runtime, e);
    case CallBootstrap(input, e) => BootstrapKeeps(r, w, w, layout, input, e);
    case CallActivate(runtime, e) => ActivateKeeps(r, w, w, layout, runtime, e);
  }
}
