// What the details of the reports are: the result of each store and service as it was
// last heard, and the limits of what is accepted, in numbers.
module AccountDetails {
  import opened Bytes
  import opened Wrappers
  import opened SettingsFile
  import opened AccountState
  import opened AccountBootstrap
  import A = SyncActivation
  import opened Network
  import opened AccountSetup
  import opened AccountHistory
  import opened AccountSafety
  import opened AccountConvergence
  import opened AccountReports
  import opened AccountDecisions

  // ----- Limits -----

  predicate Between(text: Text, low: nat, high: nat) {
    low <= |text| <= high
  }

  predicate Plain(text: Text) {
    forall b | b in text :: 0x20 <= b <= 0x7e || b >= 0x80
  }

  /** What both checks of the input let through, in numbers. */
  lemma InputLimits(input: Input)
    ensures BasicInputValid(input) <==>
              && input.baseUrl.Some? && input.deviceName.Some? && input.username.Some? && input.password.Some?
              && Between(input.baseUrl.value, 1, 1296) && Between(input.deviceName.value, 1, 255)
              && Between(input.username.value, 1, 255) && Between(input.password.value, 1, 1024)
    ensures WellSized(input) <==>
              BasicInputValid(input) && Plain(input.username.value)
  {}

  /** What can be stored as credentials, in numbers. */
  lemma CredentialLimits(c: Credentials)
    ensures ValidCredentials(c) <==>
              Between(c.username, 1, 255) && Plain(c.username) && Between(c.userkey, 1, 255) && Plain(c.userkey)
  {
    assert Plain(c.username) <==> forall b | b in c.username :: PlainByte(b);
    assert Plain(c.userkey) <==> forall b | b in c.userkey :: PlainByte(b);
  }

  /** One server or two, each with a name, and no more. */
  lemma ServerLimits(servers: seq<Option<Text>>, caPath: Text, hasTime: bool)
    requires caPath != []
    ensures var runtime := A.Runtime(Some(servers), Some(A.Tls(Some(caPath), false)), A.CallerEstablished, hasTime);
            A.ValidRuntime(Some(runtime)) <==>
              (|servers| == 1 || |servers| == 2) && None !in servers && Some([]) !in servers
  {}

  /** A record that does not pass its check is refused before anything is written, and reads as damaged if found. */
  lemma UnfitRecords(r: Rules, w: World, s: Settings, c: Credentials,
                     o: SaveOutcome<SettingsFault>, p: SaveOutcome<CredentialFault>)
    ensures !r.valid(s) ==> SaveSettings(r, w, s, o) == Outcome(w, SettingsResult.InvalidSettings)
    ensures !ValidCredentials(c) ==> SaveCredentials(w, c, p) == Outcome(w, CredentialResult.Invalid)
    ensures w.disk.settings == Holds(s) && !r.valid(s) ==> LoadSettings(r, w.disk, NO_FAULTS).Corrupt?
    ensures w.disk.credentials == Holds(c) && !ValidCredentials(c) ==> LoadCredentials(w.disk, NO_FAULTS).Corrupt?
    ensures w.disk.identity.Absent? ==> LoadOrCreateIdentity(w, None, None) == Outcome(w, IdentityResult.EntropyFailed)
  {}

  // ----- Bootstrap -----

  function Saved(o: SaveOutcome<SettingsFault>): SettingsResult {
    match o
    case Durable => SettingsResult.Ok
    case Uncertain => SettingsResult.DurabilityUncertain
    case Refused(x) => x
  }

  function SavedCredentials(o: SaveOutcome<CredentialFault>): CredentialResult {
    match o
    case Durable => CredentialResult.Ok
    case Uncertain => CredentialResult.DurabilityUncertain
    case Refused(x) => x
  }

  /** The stage is that of the last write that was tried, and each result is the last that was heard of its store. */
  lemma BootstrapDetails(r: Rules, w: World, layout: Layout, input: Input, e: AccountBootstrap.Answers)
    ensures var x, d, f := Bootstrap(r, w, layout, input, e).report, w.disk, e.faults;
            var keyed := !layout.NoLayout? && Acceptable(r, input);
            var begun := layout.Prepared? && keyed;
            var open := Reconcilable(r, layout, d, input, e);
            var saving := open && d.settings != Holds(Requested(input));
            var savingBoth :=
              open && SettingsSettled(d, input, e) && d.credentials != Holds(RequestedCredentials(r, input));
            && (x.userkeyResult.Ok? <==> keyed)
            && x.stage == (if savingBoth then CredentialsStage else if saving then SettingsStage else Preflight)
            && (begun && f.settingsOpen.None? && f.credentialsOpen.None? ==>
                  x.settingsResult == if saving then Saved(e.settingsSave) else LoadSettings(r, d, f))
            && (open ==> x.credentialResult ==
                           if savingBoth then SavedCredentials(e.credentialsSave) else LoadCredentials(d, f))
            && (begun && f.settingsOpen.Some? ==> x.settingsResult == f.settingsOpen.value)
            && (begun && f.settingsOpen.None? && f.credentialsOpen.Some? ==>
                  x.credentialResult == f.credentialsOpen.value)
            && (keyed && !begun ==> x.settingsResult.Ok?)
            && (!layout.NoLayout? && WellSized(input) && !keyed ==> x.settingsResult.InvalidSettings?)
  {
    hide r.Derive;
    if layout.Prepared? && Acceptable(r, input) {
      HexIsCredentialText(r.Derive(input.password.value));
    }
  }

  // ----- Activation -----

  /** What is last heard of the clock, the resolver and the server. */
  datatype Heard = Heard(time: TimeResult, dns: DnsResult, kosync: KosyncResult)

  function HeardOf(a: A.Activation): Heard {
    Heard(a.timeResult, a.dnsResult, a.kosyncResult)
  }

  lemma AuthorizeHears(r: Rules, w: World, s: Settings, c: Credentials, e: A.Answers, report: A.Activation)
    ensures HeardOf(A.AuthorizePhase(r, w, s, c, e, report).report) == HeardOf(report)
  {
    hide Emit, A.MapAuthorization, SaveSettings;
  }

  /** One answer after the other, as long as each is good. */
  function Online(e: A.Answers, establish: bool, h: Heard): Heard {
    var time := if establish then e.time else TimeOk;
    if !time.TimeOk? then Heard(time, h.dns, h.kosync)
    else if !e.dns.DnsOk? then Heard(time, e.dns, h.kosync)
    else if e.addresses == 0 then Heard(time, DnsError(12), h.kosync)
    else Heard(time, e.dns, if e.setTls.Ok? then e.authorize else e.setTls)
  }

  lemma NetworkHears(r: Rules, w: World, runtime: A.Runtime, s: Settings, c: Credentials, e: A.Answers,
                     report: A.Activation)
    ensures HeardOf(A.NetworkPhase(r, w, runtime, s, c, e, report).report)
            == Online(e, runtime.policy.Establish?, HeardOf(report))
  {
    hide A.AuthorizePhase, Emit;
    var establish := runtime.policy.Establish?;
    var w' := Emit(if establish then Emit(w, TimeQuery) else w, DnsQuery);
    AuthorizeHears(r, w', s, c, e,
                   report.(timeAttempted := establish, timeResult := if establish then e.time else TimeOk,
                           dnsAttempted := true, dnsResult := e.dns,
                           authAttempted := true, kosyncResult := e.authorize));
  }

  predicate Identified(d: Disk, e: A.Answers) {
    e.identityOpen.None? && e.identityLoad.None? && d.identity.Holds?
  }

  predicate Credentialed(d: Disk, layout: Layout, e: A.Answers) {
    layout.Prepared? && e.faults.credentialsOpen.None? && LoadCredentials(d, e.faults).Ok?
  }

  lemma SameHeard(a: A.Activation, b: A.Activation)
    requires a.timeResult == b.timeResult && a.dnsResult == b.dnsResult && a.kosyncResult == b.kosyncResult
    ensures HeardOf(a) == HeardOf(b)
  {}

  lemma UnidentifiedHears(r: Rules, w: World, runtime: Option<A.Runtime>, s: Settings, c: Credentials, e: A.Answers,
                          report: A.Activation)
    requires !Identified(w.disk, e) || !A.ValidRuntime(runtime)
    ensures HeardOf(A.IdentityPhase(r, w, runtime, s, c, e, report).report) == HeardOf(report)
  {
    hide A.NetworkPhase, A.ValidRuntime, Emit, LoadIdentity, OpenIdentity, HeardOf;
    ReadingChangesNothing(w, e);
    var x, y := OpenIdentity(e.identityOpen), LoadIdentity(w.disk, e.identityLoad);
    if !x.Ok? {
      SameHeard(report, report.(status := A.IdentityFailed, identityResult := x));
    } else {
      var known := report.(identityResult := y);
      SameHeard(report, known);
      SameHeard(known, known.(status := if y.Ok? then A.ConfigFailed else A.IdentityFailed));
    }
  }

  lemma IdentifiedHears(r: Rules, w: World, runtime: Option<A.Runtime>, s: Settings, c: Credentials, e: A.Answers,
                        report: A.Activation)
    requires Identified(w.disk, e) && A.ValidRuntime(runtime)
    ensures runtime.Some?
    ensures HeardOf(A.IdentityPhase(r, w, runtime, s, c, e, report).report)
            == (if !e.client.Ok? || !e.clientUsesTls then HeardOf(report).(kosync := e.client)
                else Online(e, runtime.value.policy.Establish?, HeardOf(report)))
  {
    hide A.NetworkPhase, A.ValidRuntime, Online, Emit, LoadIdentity, OpenIdentity;
    ReadingChangesNothing(w, e);
    RuntimeIsThere(runtime);
    var known := report.(identityResult := LoadIdentity(w.disk, e.identityLoad));
    NetworkHears(r, Emit(w, IdentityRead), runtime.value, s, c, e, known);
  }

  lemma UncredentialedHears(r: Rules, w: World, layout: Layout, runtime: Option<A.Runtime>, s: Settings, e: A.Answers,
                            report: A.Activation)
    requires !Credentialed(w.disk, layout, e)
    ensures HeardOf(A.CredentialsPhase(r, w, layout, runtime, s, e, report).report) == HeardOf(report)
  {
    hide A.IdentityPhase, Emit, LoadCredentials, OpenCredentials, HeardOf;
    ReadingChangesNothing(w, e);
    var x, y := OpenCredentials(e.faults), LoadCredentials(w.disk, e.faults);
    if !layout.Prepared? {
      SameHeard(report, report.(status := A.CredentialsFailed, credentialResult := CredentialResult.PathTooLong));
    } else if !x.Ok? {
      SameHeard(report, report.(status := A.CredentialsFailed, credentialResult := x));
    } else {
      SameHeard(report, report.(credentialResult := y));
      SameHeard(report.(credentialResult := y), report.(credentialResult := y).(status := A.CredentialsFailed));
    }
  }

  lemma CredentialedHears(r: Rules, w: World, layout: Layout, runtime: Option<A.Runtime>, s: Settings, e: A.Answers,
                          report: A.Activation)
    requires Credentialed(w.disk, layout, e)
    ensures var ready := Identified(w.disk, e) && A.ValidRuntime(runtime);
            && (ready ==> runtime.Some?)
            && HeardOf(A.CredentialsPhase(r, w, layout, runtime, s, e, report).report)
               == (if !ready then HeardOf(report)
                   else if !e.client.Ok? || !e.clientUsesTls then HeardOf(report).(kosync := e.client)
                   else Online(e, runtime.value.policy.Establish?, HeardOf(report)))
  {
    hide A.IdentityPhase, A.ValidRuntime, Online, Emit, LoadCredentials, OpenCredentials, Identified, HeardOf;
    ReadingChangesNothing(w, e);
    var found := report.(credentialResult := LoadCredentials(w.disk, e.faults));
    var known := found.(identityAttempted := true);
    SameHeard(report, found);
    SameHeard(found, known);
    var w, c := Emit(w, CredentialsRead), w.disk.credentials.value;
    if Identified(w.disk, e) && A.ValidRuntime(runtime) {
      IdentifiedHears(r, w, runtime, s, c, e, known);
    } else {
      UnidentifiedHears(r, w, runtime, s, c, e, known);
    }
  }

  /** The results of the clock, the resolver and the server are the last that were heard, none before its turn. */
  lemma ActivationHears(r: Rules, w: World, layout: Layout, runtime: Option<A.Runtime>, e: A.Answers)
    ensures var a, d := A.Activate(r, w, layout, runtime, e).report, w.disk;
            var quiet := Heard(TIME_INVALID, DNS_INVALID, KosyncResult.Invalid);
            HeardOf(a)
            == (if Configured(r, d, layout, runtime, e) then Online(e, runtime.value.policy.Establish?, quiet)
                else if IdentityReady(r, d, layout, e) && A.ValidRuntime(runtime) then quiet.(kosync := e.client)
                else quiet)
  {
    hide A.CredentialsPhase, A.ValidRuntime, Online;
    if Addressed(r, w.disk) {
      var s, x := w.disk.settings.value, LoadSettings(r, w.disk, e.faults);
      var report := A.UNTRIED.(settingsAttempted := true, settingsResult := x, credentialsAttempted := true);
      if Credentialed(w.disk, layout, e) {
        CredentialedHears(r, w, layout, runtime, s, e, report);
      } else {
        UncredentialedHears(r, w, layout, runtime, s, e, report);
      }
    }
  }
}
