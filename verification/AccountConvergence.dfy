// Repeating bootstrap and retrying setup lead to the same place.
module AccountConvergence {
  import opened Bytes
  import opened Wrappers
  import opened SettingsFile
  import opened AccountState
  import opened AccountBootstrap
  import A = SyncActivation
  import opened AccountSetup
  import opened AccountHistory
  import opened AccountSafety

  // ----- Bootstrap is idempotent and confluent -----

  const CLEAN := AccountBootstrap.Answers(NO_FAULTS, Durable, Durable)

  /** Whether a fault-free bootstrap succeeds. */
  predicate Admits(r: Rules, layout: Layout, d: Disk, input: Input) {
    && layout.Prepared? && Acceptable(r, input)
    && (d.settings.Absent? || (d.settings.Holds? && r.valid(d.settings.value) && !d.settings.value.enabled))
    && (d.credentials.Absent? || (d.credentials.Holds? && ValidCredentials(d.credentials.value)))
  }

  /** Where it leads. */
  function Goal(r: Rules, layout: Layout, d: Disk, input: Input): Disk {
    if !Admits(r, layout, d, input) then d
    else d.(settings := Holds(Requested(input)), credentials := Holds(RequestedCredentials(r, input)))
  }

  /** A fault-free bootstrap reaches its goal, and reports success exactly when it can. */
  lemma CleanReachesGoal(r: Rules, w: World, layout: Layout, input: Input)
    ensures Bootstrap(r, w, layout, input, CLEAN).world.disk == Goal(r, layout, w.disk, input)
    ensures Bootstrap(r, w, layout, input, CLEAN).report.result.Ok? <==> Admits(r, layout, w.disk, input)
  {
    if layout.Prepared? && Acceptable(r, input) {
      HexIsCredentialText(r.Derive(input.password.value));
    }
  }

  /** However a bootstrap fails, the goal stays the same. */
  lemma GoalIsStable(r: Rules, w: World, layout: Layout, input: Input, e: AccountBootstrap.Answers)
    ensures var d := Bootstrap(r, w, layout, input, e).world.disk;
            Goal(r, layout, d, input) == Goal(r, layout, w.disk, input)
            && (Admits(r, layout, d, input) <==> Admits(r, layout, w.disk, input))
  {
    hide r.Derive;
    if layout.Prepared? && Acceptable(r, input) {
      HexIsCredentialText(r.Derive(input.password.value));
    }
  }

  function BootstrapAll(r: Rules, w: World, layout: Layout, input: Input, es: seq<AccountBootstrap.Answers>): World
    decreases |es|
  {
    if es == [] then w else BootstrapAll(r, Bootstrap(r, w, layout, input, es[0]).world, layout, input, es[1..])
  }

  lemma {:induction false} GoalOutlastsFaults(r: Rules, w: World, layout: Layout, input: Input,
                                              es: seq<AccountBootstrap.Answers>)
    ensures var d := BootstrapAll(r, w, layout, input, es).disk;
            Goal(r, layout, d, input) == Goal(r, layout, w.disk, input)
            && (Admits(r, layout, d, input) <==> Admits(r, layout, w.disk, input))
    decreases |es|
  {
    hide Bootstrap, Goal, Admits;
    if es != [] {
      GoalIsStable(r, w, layout, input, es[0]);
      GoalOutlastsFaults(r, Bootstrap(r, w, layout, input, es[0]).world, layout, input, es[1..]);
    }
  }

  /** Any number of faulted bootstraps followed by a clean one end as one clean bootstrap does. */
  lemma BootstrapIsConfluent(r: Rules, w: World, layout: Layout, input: Input, es: seq<AccountBootstrap.Answers>)
    ensures var late, early := Bootstrap(r, BootstrapAll(r, w, layout, input, es), layout, input, CLEAN),
                               Bootstrap(r, w, layout, input, CLEAN);
            late.world.disk == early.world.disk && (late.report.result.Ok? <==> early.report.result.Ok?)
  {
    hide Bootstrap, Goal, Admits;
    GoalOutlastsFaults(r, w, layout, input, es);
    CleanReachesGoal(r, w, layout, input);
    CleanReachesGoal(r, BootstrapAll(r, w, layout, input, es), layout, input);
  }

  /**
    * After a successful bootstrap the same request only reads, whatever happens, and a fault-free one
    * succeeds again.
    */
  lemma BootstrapIsIdempotent(r: Rules, w: World, layout: Layout, input: Input, e: AccountBootstrap.Answers,
                              e': AccountBootstrap.Answers)
    requires Bootstrap(r, w, layout, input, e).report.result.Ok?
    ensures var w' := Bootstrap(r, w, layout, input, e).world;
            && Bootstrap(r, w', layout, input, CLEAN).report.result.Ok?
            && Bootstrap(r, w', layout, input, e').world
               in {Emit(w', KeyDerivation), Emit(Emit(w', KeyDerivation), CredentialsRead)}
  {
    hide Bootstrap;
    BootstrapStores(r, w, layout, input, e);
    SatisfiedOnlyReads(r, Bootstrap(r, w, layout, input, e).world, layout, input, e');
  }

  lemma SatisfiedOnlyReads(r: Rules, w: World, layout: Layout, input: Input, e: AccountBootstrap.Answers)
    requires layout.Prepared? && Acceptable(r, input)
    requires w.disk.settings == Holds(Requested(input)) && w.disk.credentials == Holds(RequestedCredentials(r, input))
    ensures Bootstrap(r, w, layout, input, e).world in {Emit(w, KeyDerivation), Emit(Emit(w, KeyDerivation), CredentialsRead)}
    ensures Bootstrap(r, w, layout, input, CLEAN).report.result.Ok?
  {
    HexIsCredentialText(r.Derive(input.password.value));
  }

  // ----- A healthy environment enables the account -----

  ghost predicate HealthyIdentity(e: IdentityAnswers) {
    e.open.None? && e.load.None? && e.reload.None? && e.creation.Some? && e.creation.value.NewDurable?
  }

  ghost predicate HealthyActivation(e: A.Answers) {
    && e.faults == NO_FAULTS && e.identityOpen.None? && e.identityLoad.None? && e.client.Ok? && e.clientUsesTls
    && e.time.TimeOk? && e.dns.DnsOk? && e.addresses > 0 && e.setTls.Ok? && e.authorize.Ok? && e.save.Durable?
  }

  /** Nothing fails and the server accepts the credentials. */
  ghost predicate Healthy(e: Environment) {
    && e.observe == NO_FAULTS && e.bootstrap == CLEAN && HealthyIdentity(e.identity) && HealthyActivation(e.activation)
    && e.profile == ProfileAnswers(NO_FAULTS, None, None)
  }

  lemma HealthyActivationEnables(r: Rules, w: World, runtime: Option<A.Runtime>, e: A.Answers)
    requires Sound(r) && ReadyToAuthorise(r, w.disk) && A.ValidRuntime(runtime) && HealthyActivation(e)
    ensures var done := A.Activate(r, w, Prepared, runtime, e);
            && done.report.status.Ok? && Enabled(r, done.world.disk)
            && done.world.disk == w.disk.(settings := done.world.disk.settings)
  {
    hide A.ValidRuntime;
  }

  lemma HealthyProfileIsReady(r: Rules, w: World)
    requires Sound(r) && Enabled(r, w.disk) && HasCredentials(w.disk) && w.disk.identity.Holds?
    ensures var done := LoadProfile(r, w, ProfileAnswers(NO_FAULTS, None, None));
            done.report.status.Ready? && done.world.disk == w.disk
  {}

  lemma HealthyIdentityIsPrepared(w: World, e: IdentityAnswers)
    requires HealthyIdentity(e)
    ensures var done := PrepareIdentity(w, e);
            && (!w.disk.identity.Damaged? <==> done.report.Ok? || done.report.Created?)
            && (!w.disk.identity.Damaged? ==> done.world.disk.identity.Holds?)
            && (w.disk.identity.Damaged? ==> done.report == w.disk.identity.result)
            && !done.report.DurabilityUncertain?
            && done.world.disk == w.disk.(identity := done.world.disk.identity)
  {}

  /** How setup ends when all goes well: a damaged identity file is never replaced. */
  function HealthyStatus(d: Disk): Status {
    if !d.identity.Damaged? then Activated
    else if CorruptIdentity(d.identity.result) then CorruptOrUnsupportedState else IdentityFailed
  }

  /**
    * From disabled settings with a URL and credentials, setup succeeds exactly when the identity file is not
    * damaged.
    */
  lemma HealthyPrepareActivates(r: Rules, w: World, runtime: Option<A.Runtime>, e: Environment, report: Setup)
    requires Sound(r) && Addressed(r, w.disk) && HasCredentials(w.disk) && A.ValidRuntime(runtime) && Healthy(e)
    ensures var done := PrepareAndActivate(r, w, Prepared, runtime, e, report);
            && done.report.status == HealthyStatus(w.disk)
            && (Enabled(r, done.world.disk) <==> !w.disk.identity.Damaged?)
            && done.report.local == report.local
  {
    hide PrepareIdentity, A.Activate, LoadProfile, A.ValidRuntime;
    HealthyIdentityIsPrepared(w, e.identity);
    var prepared := PrepareIdentity(w, e.identity).world;
    if !w.disk.identity.Damaged? {
      HealthyActivationEnables(r, prepared, runtime, e.activation);
      HealthyProfileIsReady(r, A.Activate(r, prepared, Prepared, runtime, e.activation).world);
    }
  }

  lemma HealthySubmitActivates(r: Rules, w: World, input: Input, runtime: Option<A.Runtime>, e: Environment)
    requires Sound(r) && Acceptable(r, input) && A.ValidRuntime(runtime) && Healthy(e)
    requires Local(r, w.disk).NoAccount? || (Local(r, w.disk).PartialDisabled? && MatchesSettings(input, w.disk.settings.value))
    ensures var done := Submit(r, w, Prepared, Some(input), NewOrResume, runtime, e);
            && done.report.status == HealthyStatus(w.disk)
            && (Enabled(r, done.world.disk) <==> !w.disk.identity.Damaged?)
            && done.report.local == Local(r, w.disk)
  {
    hide Bootstrap, PrepareAndActivate, A.ValidRuntime, HealthyActivation, HealthyIdentity, r.Derive;
    var seen := Observe(r, w, Prepared, NO_FAULTS).world;
    CleanReachesGoal(r, seen, Prepared, input);
    HexIsCredentialText(r.Derive(input.password.value));
    var booted := Bootstrap(r, seen, Prepared, input, CLEAN);
    assert Requested(input).baseUrl != [];
    HealthyPrepareActivates(r, booted.world, runtime, e,
                            BEGUN.(local := Local(r, w.disk), stage := BootstrapStage, bootstrapAttempted := true,
                                   bootstrap := booted.report));
  }

  lemma HealthyRetryActivates(r: Rules, w: World, runtime: Option<A.Runtime>, e: Environment)
    requires Sound(r) && Local(r, w.disk).CompleteDisabled? && w.disk.settings.value.baseUrl != []
    requires A.ValidRuntime(runtime) && Healthy(e)
    ensures var done := ActivateExisting(r, w, Prepared, runtime, e);
            && done.report.status == HealthyStatus(w.disk)
            && (Enabled(r, done.world.disk) <==> !w.disk.identity.Damaged?)
            && done.report.local == Local(r, w.disk)
  {
    hide PrepareAndActivate, A.ValidRuntime;
    HealthyPrepareActivates(r, Observe(r, w, Prepared, NO_FAULTS).world, runtime, e, BEGUN.(local := CompleteDisabled));
  }
}
