// Remote-authenticated activation: load everything that is stored, authorise it with
// the server, and only then enable the settings.
module SyncActivation {
  import opened Bytes
  import opened Wrappers
  import opened SettingsFile
  import opened AccountState
  import opened AccountBootstrap
  import opened Network

  const MAX_SERVERS: nat := 2

  datatype Status =
    | Ok | AlreadyEnabled | InvalidArgument | SettingsFailed | CredentialsFailed | IdentityFailed | ConfigFailed
    | TrustedTimeFailed | DnsFailed | AuthRejected | HttpsFailed | ServiceFailed | SettingsSaveFailed
    | DurabilityUncertain | NoMemory

  datatype Activation = Activation(
    status: Status,
    settingsResult: SettingsResult, credentialResult: CredentialResult, identityResult: IdentityResult,
    timeResult: TimeResult, dnsResult: DnsResult, kosyncResult: KosyncResult,
    settingsAttempted: bool, credentialsAttempted: bool, identityAttempted: bool, timeAttempted: bool,
    dnsAttempted: bool, authAttempted: bool, authSucceeded: bool, saveAttempted: bool, enableVisiblePossible: bool)

  const UNTRIED := Activation(
    Status.InvalidArgument, SettingsResult.InvalidArgument, CredentialResult.Invalid, IdentityResult.InvalidArgument,
    TIME_INVALID, DNS_INVALID, KosyncResult.Invalid,
    false, false, false, false, false, false, false, false, false)

  // ----- The runtime configuration -----

  datatype TimePolicy = Establish | CallerEstablished | OtherPolicy

  datatype Tls = Tls(caPath: Option<Text>, hasClock: bool)

  /** The resolver's server list has as many entries as its count says, null entries included. */
  datatype Runtime = Runtime(dns: Option<seq<Option<Text>>>, tls: Option<Tls>, policy: TimePolicy, hasTime: bool)

  predicate NamedServer(server: Option<Text>) {
    server.Some? && server.value != []
  }

  predicate ValidRuntime(runtime: Option<Runtime>) {
    && runtime.Some? && runtime.value.dns.Some? && runtime.value.tls.Some?
    && NamedServer(runtime.value.tls.value.caPath)
    && 1 <= |runtime.value.dns.value| <= MAX_SERVERS
    && (forall server | server in runtime.value.dns.value :: NamedServer(server))
    && !runtime.value.policy.OtherPolicy?
    && (runtime.value.policy.Establish? ==> runtime.value.hasTime && !runtime.value.tls.value.hasClock)
  }

  method CheckRuntime(runtime: Option<Runtime>) returns (valid: bool)
    ensures valid <==> ValidRuntime(runtime)
  {
    if runtime.None? || runtime.value.dns.None? || runtime.value.tls.None? {
      return false;
    }
    var servers, tls := runtime.value.dns.value, runtime.value.tls.value;
    if !NamedServer(tls.caPath) || |servers| == 0 || |servers| > MAX_SERVERS {
      return false;
    }
    var i := 0;
    while i < |servers|
      invariant 0 <= i <= |servers|
      invariant forall k | 0 <= k < i :: NamedServer(servers[k])
    {
      if !NamedServer(servers[i]) {
        return false;
      }
      i := i + 1;
    }
    if !runtime.value.policy.Establish? && !runtime.value.policy.CallerEstablished? {
      return false;
    }
    return !runtime.value.policy.Establish? || (runtime.value.hasTime && !tls.hasClock);
  }

  // ----- Answers -----

  datatype Answers = Answers(
    faults: Faults, identityOpen: Option<IdentityOpenFault>, identityLoad: Option<IdentityFault>,
    client: KosyncResult, clientUsesTls: bool, time: TimeResult, dns: DnsResult, addresses: nat,
    setTls: KosyncResult, authorize: KosyncResult, save: SaveOutcome<SettingsFault>)

  // ----- Specification, one function a phase -----

  function MapAuthorization(x: KosyncResult): Status {
    match x
    case AuthFailed => AuthRejected
    case TransportError => HttpsFailed
    case HttpError | BadJson | BadProtocol => ServiceFailed
    case NoMemory => Status.NoMemory
    case Invalid => ConfigFailed
    case Ok => Status.Ok
    case NotFound => ServiceFailed
  }

  function Activate(r: Rules, w: World, layout: Layout, runtime: Option<Runtime>, e: Answers): Outcome<Activation> {
    if layout.NoLayout? || layout.Unusable? then Outcome(w, UNTRIED)
    else
      var report := UNTRIED.(settingsAttempted := true, settingsResult := OpenSettings(e.faults));
      if !report.settingsResult.Ok? then Outcome(w, report.(status := SettingsFailed))
      else
        var report := report.(settingsResult := LoadSettings(r, w.disk, e.faults));
        if !report.settingsResult.Ok? then Outcome(w, report.(status := SettingsFailed))
        else
          var s := w.disk.settings.value;
          if s.enabled then Outcome(w, report.(status := AlreadyEnabled))
          else if s.baseUrl == [] then Outcome(w, report.(status := ConfigFailed))
          else CredentialsPhase(r, w, layout, runtime, s, e, report.(credentialsAttempted := true))
  }

  function CredentialsPhase(r: Rules, w: World, layout: Layout, runtime: Option<Runtime>, s: Settings, e: Answers,
                            report: Activation): Outcome<Activation>
  {
    if !layout.Prepared? then
      Outcome(w, report.(status := CredentialsFailed, credentialResult := CredentialResult.PathTooLong))
    else if !OpenCredentials(e.faults).Ok? then
      Outcome(w, report.(status := CredentialsFailed, credentialResult := OpenCredentials(e.faults)))
    else
      var w := Emit(w, CredentialsRead);
      var x := LoadCredentials(w.disk, e.faults);
      var report := report.(credentialResult := x);
      if !x.Ok? then Outcome(w, report.(status := CredentialsFailed))
      else IdentityPhase(r, w, runtime, s, w.disk.credentials.value, e, report.(identityAttempted := true))
  }

  function IdentityPhase(r: Rules, w: World, runtime: Option<Runtime>, s: Settings, c: Credentials, e: Answers,
                         report: Activation): Outcome<Activation>
  {
    if !OpenIdentity(e.identityOpen).Ok? then
      Outcome(w, report.(status := Status.IdentityFailed, identityResult := OpenIdentity(e.identityOpen)))
    else
      var w := Emit(w, IdentityRead);
      var x := LoadIdentity(w.disk, e.identityLoad);
      var report := report.(identityResult := x);
      if !x.Ok? then Outcome(w, report.(status := Status.IdentityFailed))
      else if !ValidRuntime(runtime) then Outcome(w, report.(status := ConfigFailed))
      else if !e.client.Ok? || !e.clientUsesTls then
        Outcome(w, report.(status := ConfigFailed, kosyncResult := e.client))
      else NetworkPhase(r, w, runtime.value, s, c, e, report)
  }

  function NetworkPhase(r: Rules, w: World, runtime: Runtime, s: Settings, c: Credentials, e: Answers,
                        report: Activation): Outcome<Activation>
  {
    var establish := runtime.policy.Establish?;
    var w := if establish then Emit(w, TimeQuery) else w;
    var report := report.(timeAttempted := establish, timeResult := if establish then e.time else TimeOk);
    if !report.timeResult.TimeOk? then Outcome(w, report.(status := TrustedTimeFailed))
    else
      var w := Emit(w, DnsQuery);
      var report := report.(dnsAttempted := true, dnsResult := e.dns);
      if !e.dns.DnsOk? then Outcome(w, report.(status := DnsFailed))
      else if e.addresses == 0 then Outcome(w, report.(status := DnsFailed, dnsResult := DNS_NO_ADDRESS))
      else if !e.setTls.Ok? then Outcome(w, report.(status := ConfigFailed, kosyncResult := e.setTls))
      else AuthorizePhase(r, w, s, c, e, report.(authAttempted := true, kosyncResult := e.authorize))
  }

  function AuthorizePhase(r: Rules, w: World, s: Settings, c: Credentials, e: Answers,
                          report: Activation): Outcome<Activation>
  {
    var w := Emit(w, AuthRequest(s.baseUrl, c.username, c.userkey, e.authorize.Ok?));
    var report := report.(status := MapAuthorization(e.authorize));
    if !e.authorize.Ok? then Outcome(w, report)
    else
      var saved := SaveSettings(r, w, s.(enabled := true), e.save);
      Outcome(saved.world, SaveReport(saved.report, report.(authSucceeded := true, saveAttempted := true)))
  }

  function SaveReport(x: SettingsResult, report: Activation): Activation {
    report.(settingsResult := x,
            enableVisiblePossible := x.Ok? || x.DurabilityUncertain?,
            status := if x.DurabilityUncertain? then Status.DurabilityUncertain
                      else if !x.Ok? then SettingsSaveFailed else Status.Ok)
  }

  // ----- The code -----

  method Run(r: Rules, device: Device, layout: Layout, runtime: Option<Runtime>,
             e: Answers) returns (report: Activation)
    requires device.Valid()
    modifies device
    ensures device.Valid() && Outcome(device.world, report) == Activate(r, old(device.world), layout, runtime, e)
  {
    report := UNTRIED;
    if layout.NoLayout? || layout.Unusable? {
      return;
    }
    report := report.(settingsAttempted := true, settingsResult := OpenSettings(e.faults));
    if !report.settingsResult.Ok? {
      return report.(status := SettingsFailed);
    }
    var settingsResult, settings := device.ReadSettings(r, e.faults);
    report := report.(settingsResult := settingsResult);
    if !settingsResult.Ok? {
      return report.(status := SettingsFailed);
    }
    if settings.enabled {
      return report.(status := AlreadyEnabled);
    }
    if !r.valid(settings) {
      return report.(settingsResult := SettingsResult.InvalidSettings, status := SettingsFailed);
    }
    if settings.baseUrl == [] {
      return report.(status := ConfigFailed);
    }
    report := report.(credentialsAttempted := true);
    if !layout.Prepared? {
      return report.(credentialResult := CredentialResult.PathTooLong, status := CredentialsFailed);
    }
    report := report.(credentialResult := OpenCredentials(e.faults));
    if !report.credentialResult.Ok? {
      return report.(status := CredentialsFailed);
    }
    var credentialResult, credentials := device.ReadCredentials(e.faults);
    report := report.(credentialResult := credentialResult);
    if !credentialResult.Ok? {
      return report.(status := CredentialsFailed);
    }
    report := report.(identityAttempted := true, identityResult := OpenIdentity(e.identityOpen));
    if !report.identityResult.Ok? {
      return report.(status := Status.IdentityFailed);
    }
    var identityResult, _ := device.ReadIdentity(e.identityLoad);
    report := report.(identityResult := identityResult);
    if !identityResult.Ok? {
      return report.(status := Status.IdentityFailed);
    }
    var runtimeValid := CheckRuntime(runtime);
    if !runtimeValid {
      return report.(status := ConfigFailed);
    }
    if !e.client.Ok? || !e.clientUsesTls {
      return report.(kosyncResult := e.client, status := ConfigFailed);
    }
    report := Connect(r, device, runtime.value, settings, credentials, e, report);
  }

  /** The part of the same function that uses the network. */
  method Connect(r: Rules, device: Device, runtime: Runtime, s: Settings, c: Credentials, e: Answers,
                 initial: Activation) returns (report: Activation)
    requires device.Valid() && !initial.timeAttempted
    requires !initial.authSucceeded && !initial.saveAttempted && !initial.enableVisiblePossible
    modifies device
    ensures device.Valid()
    ensures Outcome(device.world, report) == NetworkPhase(r, old(device.world), runtime, s, c, e, initial)
  {
    report := initial;
    if runtime.policy.Establish? {
      device.Note(TimeQuery);
      report := report.(timeAttempted := true, timeResult := e.time);
      if !report.timeResult.TimeOk? {
        return report.(status := TrustedTimeFailed);
      }
    } else {
      report := report.(timeResult := TimeOk);
    }
    device.Note(DnsQuery);
    report := report.(dnsAttempted := true, dnsResult := e.dns);
    if !report.dnsResult.DnsOk? {
      return report.(status := DnsFailed);
    }
    if e.addresses == 0 {
      return report.(dnsResult := DNS_NO_ADDRESS, status := DnsFailed);
    }
    if !e.setTls.Ok? {
      return report.(kosyncResult := e.setTls, status := ConfigFailed);
    }
    report := Authorize(r, device, s, c, e, report.(authAttempted := true));
  }

  /** The part of the same function that commits. */
  method Authorize(r: Rules, device: Device, s: Settings, c: Credentials, e: Answers,
                   initial: Activation) returns (report: Activation)
    requires device.Valid() && !initial.authSucceeded && !initial.saveAttempted && !initial.enableVisiblePossible
    modifies device
    ensures device.Valid()
    ensures Outcome(device.world, report)
            == AuthorizePhase(r, old(device.world), s, c, e, initial.(kosyncResult := e.authorize))
  {
    report := initial;
    device.Note(AuthRequest(s.baseUrl, c.username, c.userkey, e.authorize.Ok?));
    report := report.(kosyncResult := e.authorize, status := MapAuthorization(e.authorize));
    if !e.authorize.Ok? {
      return;
    }
    report := report.(authSucceeded := true, saveAttempted := true);
    var saved := device.WriteSettings(r, s.(enabled := true), e.save);
    report := report.(settingsResult := saved);
    if saved.DurabilityUncertain? {
      return report.(enableVisiblePossible := true, status := Status.DurabilityUncertain);
    }
    if !saved.Ok? {
      return report.(status := SettingsSaveFailed);
    }
    report := report.(enableVisiblePossible := true, status := Status.Ok);
  }
}
