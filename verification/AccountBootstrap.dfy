// The local step of account setup: check the input, derive the userkey, then bring
// the settings and after them the credentials to the requested values.
module AccountBootstrap {
  import opened Bytes
  import opened Hex
  import opened Wrappers
  import opened SettingsFile
  import opened AccountState

  const PASSWORD_MAX: nat := 1024
  const URL_CAPACITY: nat := 1297
  const NAME_CAPACITY: nat := 256

  datatype Result =
    | Ok | InvalidArgument | InvalidInput | ExistingActive | ExistingSettingsFailed | ExistingCredentialsFailed
    | DerivationFailed | SettingsWriteFailed | CredentialsWriteFailed | DurabilityUncertain

  datatype Stage = NoStage | Preflight | SettingsStage | CredentialsStage

  datatype UserkeyResult = Ok | InvalidArgument | PasswordEmpty | PasswordTooLong | OutputTooSmall

  datatype Report = Report(result: Result, stage: Stage,
                           settingsResult: SettingsResult, credentialResult: CredentialResult,
                           userkeyResult: UserkeyResult, settingsWritten: bool, credentialsWritten: bool)

  const INITIAL := Report(Result.InvalidArgument, NoStage, SettingsResult.InvalidArgument, CredentialResult.Invalid,
                          UserkeyResult.InvalidArgument, false, false)

  /** Whether the paths of the layout can be derived; the state path is longer than the config path. */
  datatype Layout = NoLayout | Unusable | ConfigOnly | Prepared

  /** Strings without their terminator; None is a null pointer. */
  datatype Input = Input(baseUrl: Option<Text>, deviceName: Option<Text>, username: Option<Text>, password: Option<Text>)

  datatype Answers = Answers(faults: Faults, settingsSave: SaveOutcome<SettingsFault>,
                             credentialsSave: SaveOutcome<CredentialFault>)

  // ----- Specification -----

  predicate NoNulls(input: Input) {
    input.baseUrl.Some? && input.deviceName.Some? && input.username.Some? && input.password.Some?
  }

  predicate FitsCapacity(text: Text, capacity: nat) {
    1 <= |text| < capacity
  }

  /** The disabled settings the input asks for. */
  function Requested(input: Input): Settings
    requires NoNulls(input)
  {
    Settings(false, input.baseUrl.value, input.deviceName.value)
  }

  function RequestedCredentials(r: Rules, input: Input): Credentials
    requires NoNulls(input)
  {
    Credentials(input.username.value, r.Derive(input.password.value))
  }

  predicate WellSized(input: Input) {
    && NoNulls(input)
    && 1 <= |input.password.value| <= PASSWORD_MAX && CredentialText(input.username.value)
    && FitsCapacity(input.baseUrl.value, URL_CAPACITY) && FitsCapacity(input.deviceName.value, NAME_CAPACITY)
  }

  predicate Acceptable(r: Rules, input: Input) {
    WellSized(input) && r.valid(Requested(input))
  }

  function Bootstrap(r: Rules, w: World, layout: Layout, input: Input, e: Answers): Outcome<Report> {
    var report := INITIAL.(stage := Preflight);
    if layout.NoLayout? then Outcome(w, report)
    else if !WellSized(input) then Outcome(w, report.(result := InvalidInput))
    else if !r.valid(Requested(input)) then
      Outcome(w, report.(result := InvalidInput, settingsResult := SettingsResult.InvalidSettings))
    else
      var report := report.(settingsResult := SettingsResult.Ok, userkeyResult := UserkeyResult.Ok);
      var w := Emit(w, KeyDerivation);
      if !layout.Prepared? then Outcome(w, report)
      else ReconcileStores(r, w, Requested(input), RequestedCredentials(r, input), e, report)
  }

  /** Opens and loads both stores and saves what differs. */
  function ReconcileStores(r: Rules, w: World, s: Settings, c: Credentials, e: Answers,
                           report: Report): Outcome<Report> {
    var settingsOpen, credentialsOpen := OpenSettings(e.faults), OpenCredentials(e.faults);
    var settingsLoad := LoadSettings(r, w.disk, e.faults);
    if !settingsOpen.Ok? then
      Outcome(w, report.(result := ExistingSettingsFailed, settingsResult := settingsOpen))
    else if !credentialsOpen.Ok? then
      Outcome(w, report.(result := ExistingCredentialsFailed, settingsResult := settingsOpen,
                         credentialResult := credentialsOpen))
    else if !settingsLoad.Ok? && !settingsLoad.Missing? then
      Outcome(w, report.(result := ExistingSettingsFailed, settingsResult := settingsLoad, credentialResult := credentialsOpen))
    else if settingsLoad.Ok? && w.disk.settings.value.enabled then
      Outcome(w, report.(result := ExistingActive, settingsResult := settingsLoad, credentialResult := credentialsOpen))
    else
      var w := Emit(w, CredentialsRead);
      var credentialsLoad := LoadCredentials(w.disk, e.faults);
      var report := report.(settingsResult := settingsLoad, credentialResult := credentialsLoad);
      if !credentialsLoad.Ok? && !credentialsLoad.Missing? then Outcome(w, report.(result := ExistingCredentialsFailed))
      else SettingsStep(r, w, s, c, e, report)
  }

  function SettingsStep(r: Rules, w: World, s: Settings, c: Credentials, e: Answers, report: Report): Outcome<Report> {
    if report.settingsResult.Ok? && w.disk.settings == Holds(s) then CredentialsStep(w, c, e, report)
    else
      var saved := SaveSettings(r, w, s, e.settingsSave);
      var x := saved.report;
      var report := report.(stage := SettingsStage, settingsResult := x, settingsWritten := x.Ok? || x.DurabilityUncertain?);
      if x.DurabilityUncertain? then Outcome(saved.world, report.(result := Result.DurabilityUncertain))
      else if !x.Ok? then Outcome(saved.world, report.(result := SettingsWriteFailed))
      else CredentialsStep(saved.world, c, e, report)
  }

  function CredentialsStep(w: World, c: Credentials, e: Answers, report: Report): Outcome<Report> {
    if report.credentialResult.Ok? && w.disk.credentials == Holds(c) then Outcome(w, report.(result := Result.Ok))
    else
      var saved := SaveCredentials(w, c, e.credentialsSave);
      var x := saved.report;
      var report := report.(stage := CredentialsStage, credentialResult := x,
                            credentialsWritten := x.Ok? || x.DurabilityUncertain?);
      if x.DurabilityUncertain? then Outcome(saved.world, report.(result := Result.DurabilityUncertain))
      else if !x.Ok? then Outcome(saved.world, report.(result := CredentialsWriteFailed))
      else Outcome(saved.world, report.(result := Result.Ok))
  }

  // ----- The code -----

  /** Copies a string into a buffer of the given capacity, if it fits and is not empty. */
  method CopyBounded(capacity: nat, text: Option<Text>) returns (copied: bool, output: Text)
    ensures copied <==> text.Some? && FitsCapacity(text.value, capacity)
    ensures output == if copied then text.value else []
  {
    output := [];
    if text.None? {
      return false, output;
    }
    var length := 0;
    while length < capacity && length < |text.value|
      invariant 0 <= length <= |text.value| && length <= capacity
    {
      length := length + 1;
    }
    if length == 0 || length >= capacity {
      return false, output;
    }
    return true, text.value[..length];
  }

  method CredentialTextValid(text: Option<Text>) returns (valid: bool)
    ensures valid <==> text.Some? && CredentialText(text.value)
  {
    if text.None? {
      return false;
    }
    var length := 0;
    while length <= CREDENTIAL_MAX && length < |text.value|
      invariant 0 <= length <= |text.value| && length <= CREDENTIAL_MAX + 1
    {
      length := length + 1;
    }
    if length == 0 || length > CREDENTIAL_MAX {
      return false;
    }
    var i := 0;
    while i < length
      invariant 0 <= i <= length
      invariant forall k | 0 <= k < i :: PlainByte(text.value[k])
    {
      if text.value[i] < 0x20 || text.value[i] == 0x7f {
        assert !PlainByte(text.value[i]);
        return false;
      }
      i := i + 1;
    }
    return true;
  }

  /** The checks of the key derivation, and the digest in hex. */
  method UserkeyFromPassword(r: Rules, password: Option<Text>, capacity: nat) returns (x: UserkeyResult, key: Text)
    ensures x.Ok? <==> password.Some? && 1 <= |password.value| <= PASSWORD_MAX && capacity >= 33
    ensures key == if x.Ok? then r.Derive(password.value) else []
  {
    key := [];
    if password.None? {
      x := UserkeyResult.InvalidArgument;
    } else if |password.value| == 0 {
      x := PasswordEmpty;
    } else if |password.value| > PASSWORD_MAX {
      x := PasswordTooLong;
    } else if capacity < 33 {
      x := OutputTooSmall;
    } else {
      var digest := r.digest(password.value);
      var i := 0;
      while i < 16
        invariant 0 <= i <= 16 && key == TextOf(digest[..i])
      {
        assert digest[..i + 1][..i] == digest[..i];
        key := key + [DigitOf(digest[i] >> 4), DigitOf(digest[i] & 0x0f)];
        i := i + 1;
      }
      assert digest[..16] == digest;
      x := UserkeyResult.Ok;
    }
  }

  method Run(r: Rules, device: Device, layout: Layout, input: Input, e: Answers) returns (report: Report)
    requires device.Valid()
    modifies device
    ensures device.Valid() && Outcome(device.world, report) == Bootstrap(r, old(device.world), layout, input, e)
  {
    report := INITIAL.(stage := Preflight);
    if layout.NoLayout? {
      return;
    }
    if input.baseUrl.None? || input.deviceName.None? || input.username.None? || input.password.None? {
      return report.(result := InvalidInput);
    }
    var password := input.password.value;
    var usernameValid := CredentialTextValid(input.username);
    if |password| == 0 || |password| > PASSWORD_MAX || !usernameValid {
      return report.(result := InvalidInput);
    }
    var desired := DEFAULTS;
    var copied, text := CopyBounded(URL_CAPACITY, input.baseUrl);
    if !copied {
      return report.(result := InvalidInput);
    }
    desired := desired.(baseUrl := text);
    copied, text := CopyBounded(NAME_CAPACITY, input.deviceName);
    if !copied {
      return report.(result := InvalidInput);
    }
    desired := desired.(deviceName := text, enabled := false);
    assert desired == Requested(input);
    report := report.(settingsResult := if r.valid(desired) then SettingsResult.Ok else SettingsResult.InvalidSettings);
    if !report.settingsResult.Ok? {
      return report.(result := InvalidInput);
    }
    var userkeyResult, key := UserkeyFromPassword(r, input.password, 33);
    device.Note(KeyDerivation);
    report := report.(userkeyResult := userkeyResult);
    if !userkeyResult.Ok? {
      return report.(result := DerivationFailed);
    }
    if !layout.Prepared? {
      return report.(result := Result.InvalidArgument);
    }
    report := Reconcile(r, device, desired, Credentials(input.username.value, key), e, report);
  }

  /** The part of the same function that works on the stores. */
  method Reconcile(r: Rules, device: Device, s: Settings, c: Credentials, e: Answers,
                   initial: Report) returns (report: Report)
    requires device.Valid() && !initial.settingsWritten && !initial.credentialsWritten
    modifies device
    ensures device.Valid() && Outcome(device.world, report) == ReconcileStores(r, old(device.world), s, c, e, initial)
  {
    report := initial.(settingsResult := OpenSettings(e.faults));
    if !report.settingsResult.Ok? {
      return report.(result := ExistingSettingsFailed);
    }
    report := report.(credentialResult := OpenCredentials(e.faults));
    if !report.credentialResult.Ok? {
      return report.(result := ExistingCredentialsFailed);
    }
    var settingsResult, existing := device.ReadSettings(r, e.faults);
    report := report.(settingsResult := settingsResult);
    if !settingsResult.Ok? && !settingsResult.Missing? {
      return report.(result := ExistingSettingsFailed);
    }
    if !settingsResult.Missing? && existing.enabled {
      return report.(result := ExistingActive);
    }
    var credentialResult, existingCredentials := device.ReadCredentials(e.faults);
    report := report.(credentialResult := credentialResult);
    if !credentialResult.Ok? && !credentialResult.Missing? {
      return report.(result := ExistingCredentialsFailed);
    }
    var saveSettings := settingsResult.Missing? || existing != s;
    var saveCredentials := credentialResult.Missing? || existingCredentials != c;
    if !saveSettings && !saveCredentials {
      return report.(result := Result.Ok);
    }
    if saveSettings {
      settingsResult := device.WriteSettings(r, s, e.settingsSave);
      report := report.(stage := SettingsStage, settingsResult := settingsResult);
      if settingsResult.Ok? || settingsResult.DurabilityUncertain? {
        report := report.(settingsWritten := true);
      }
      if settingsResult.DurabilityUncertain? {
        return report.(result := Result.DurabilityUncertain);
      }
      if !settingsResult.Ok? {
        return report.(result := SettingsWriteFailed);
      }
    }
    if saveCredentials {
      credentialResult := device.WriteCredentials(c, e.credentialsSave);
      report := report.(stage := CredentialsStage, credentialResult := credentialResult);
      if credentialResult.Ok? || credentialResult.DurabilityUncertain? {
        report := report.(credentialsWritten := true);
      }
      if credentialResult.DurabilityUncertain? {
        return report.(result := Result.DurabilityUncertain);
      }
      if !credentialResult.Ok? {
        return report.(result := CredentialsWriteFailed);
      }
    }
    report := report.(result := Result.Ok);
  }
}
