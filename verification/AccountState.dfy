// The three stores of an account, the answers the environment gives, and the
// history of a device: every state it has been in and what led from one to the next.
module AccountState {
  import opened Bytes
  import opened Hex
  import opened Wrappers
  import opened SettingsFile

  // ----- Results of the stores -----

  datatype SettingsResult =
    | Ok | Missing | InvalidArgument | InvalidSettings | Corrupt | UnsupportedVersion | PathTooLong | NotFound
    | NotDirectory | Symlink | NonRegular | PermissionDenied | ReadOnly | NoSpace | IoError | DurabilityUncertain

  datatype CredentialResult =
    | Ok | Missing | Invalid | Corrupt | UnsupportedVersion | PathTooLong | NotFound
    | NotDirectory | Symlink | NonRegular | PermissionDenied | ReadOnly | NoSpace | IoError | DurabilityUncertain

  datatype IdentityResult =
    | Ok | Created | InvalidArgument | BufferTooSmall | NotFound | Malformed | UnsupportedVersion | BadChecksum
    | EntropyFailed | PathTooLong | NotDirectory | Symlink | NonRegular | PermissionDenied | ReadOnly | NoSpace
    | IoError | DurabilityUncertain

  type SettingsFault = x: SettingsResult | !x.Ok? && !x.Missing? && !x.DurabilityUncertain?
    witness SettingsResult.IoError

  type CredentialFault = x: CredentialResult | !x.Ok? && !x.Missing? && !x.DurabilityUncertain?
    witness CredentialResult.IoError

  type IdentityOpenFault = x: IdentityResult | !x.Ok? && !x.Created? && !x.DurabilityUncertain?
    witness IdentityResult.IoError

  type IdentityFault = x: IdentityResult | !x.Ok? && !x.Created? && !x.DurabilityUncertain? && !x.NotFound?
    witness IdentityResult.IoError

  // ----- What the stores hold -----

  /** Sixteen bytes in lower-case hex: a device identity or a derived userkey. */
  type HexId = t: Text | |t| == 32 && forall b | b in t :: IsDigit(b)
    witness seq(32, _ => 0x30)

  datatype Credentials = Credentials(username: Text, userkey: Text)

  const CREDENTIAL_MAX: nat := 255

  predicate PlainByte(b: Byte) {
    b >= 0x20 && b != 0x7f
  }

  predicate CredentialText(text: Text) {
    1 <= |text| <= CREDENTIAL_MAX && forall b | b in text :: PlainByte(b)
  }

  predicate ValidCredentials(c: Credentials) {
    CredentialText(c.username) && CredentialText(c.userkey)
  }

  lemma HexIsCredentialText(key: HexId)
    ensures CredentialText(key)
  {
    forall b | b in key ensures PlainByte(b) {
      assert IsDigit(b);
    }
  }

  type Digest = d: Text | |d| == 16 witness seq(16, _ => 0)

  /** How settings are validated and how a password is digested; the userkey is the digest in hex. */
  datatype Rules = Rules(valid: Settings -> bool, digest: Text -> Digest) {
    function Derive(password: Text): HexId {
      TextIsDigits(digest(password));
      TextOf(digest(password))
    }
  }

  /** Texts fit their buffers, enabled settings have a URL, and settings with a URL stay valid when they are enabled. */
  ghost predicate Sound(r: Rules) {
    forall s: Settings | r.valid(s) ::
      && |s.baseUrl| <= URL_MAX && 1 <= |s.deviceName| <= NAME_MAX
      && (s.enabled ==> s.baseUrl != []) && (s.baseUrl != [] ==> r.valid(s.(enabled := true)))
  }

  /** The validation of the settings file is sound, whatever the digest is. */
  lemma SettingsRulesAreSound(digest: Text -> Digest)
    ensures Sound(Rules(Valid, digest))
  {}

  /** A file is absent, holds a value, or makes every load fail in the same way. */
  datatype File<+V, +R> = Absent | Holds(value: V) | Damaged(result: R)

  datatype Disk = Disk(settings: File<Settings, SettingsFault>,
                       credentials: File<Credentials, CredentialFault>,
                       identity: File<HexId, IdentityFault>)

  // ----- Answers of the environment -----

  datatype Faults = Faults(settingsOpen: Option<SettingsFault>, settingsLoad: Option<SettingsFault>,
                           credentialsOpen: Option<CredentialFault>, credentialsLoad: Option<CredentialFault>)

  const NO_FAULTS := Faults(None, None, None, None)

  /** An atomic save: durable, visible but perhaps not durable, or failed with the old value kept. */
  datatype SaveOutcome<+R> = Durable | Uncertain | Refused(result: R)

  /** The exclusive write of a new identity. A failed write may leave a partial file behind. */
  datatype Creation = NewDurable(id: HexId) | NewUncertain(id: HexId) | NotCreated(result: IdentityOpenFault, leftover: bool)

  // ----- History -----

  datatype Event =
    | SettingsWrite(settings: Settings, settingsOutcome: SaveOutcome<SettingsFault>)
    | CredentialsWrite(credentials: Credentials, credentialsOutcome: SaveOutcome<CredentialFault>)
    | IdentityWrite(creation: Creation)
    | CredentialsRead
    | IdentityRead
    | KeyDerivation
    | TimeQuery
    | DnsQuery
    | AuthRequest(url: Text, username: Text, userkey: Text, granted: bool)

  /** A device at one instant, with every earlier instant inside it. */
  datatype World = Boot(disk: Disk) | After(before: World, event: Event, disk: Disk)

  function Effect(d: Disk, e: Event): Disk {
    match e
    case SettingsWrite(s, o) => if o.Refused? then d else d.(settings := Holds(s))
    case CredentialsWrite(c, o) => if o.Refused? then d else d.(credentials := Holds(c))
    case IdentityWrite(NotCreated(_, leftover)) =>
      if leftover then d.(identity := Damaged(IdentityResult.Malformed)) else d
    case IdentityWrite(c) => d.(identity := Holds(c.id))
    case _ => d
  }

  function Emit(w: World, e: Event): World {
    After(w, e, Effect(w.disk, e))
  }

  // ----- Store operations -----

  function OpenSettings(f: Faults): SettingsResult {
    if f.settingsOpen.Some? then f.settingsOpen.value else SettingsResult.Ok
  }

  function OpenCredentials(f: Faults): CredentialResult {
    if f.credentialsOpen.Some? then f.credentialsOpen.value else CredentialResult.Ok
  }

  function LoadSettings(r: Rules, d: Disk, f: Faults): (x: SettingsResult)
    ensures x.Ok? ==> d.settings.Holds?
  {
    if f.settingsLoad.Some? then f.settingsLoad.value else
      match d.settings
      case Absent => SettingsResult.Missing
      case Damaged(x) => x
      case Holds(s) => if r.valid(s) then SettingsResult.Ok else SettingsResult.Corrupt
  }

  function LoadCredentials(d: Disk, f: Faults): (x: CredentialResult)
    ensures x.Ok? ==> d.credentials.Holds?
  {
    if f.credentialsLoad.Some? then f.credentialsLoad.value else
      match d.credentials
      case Absent => CredentialResult.Missing
      case Damaged(x) => x
      case Holds(c) => if ValidCredentials(c) then CredentialResult.Ok else CredentialResult.Corrupt
  }

  function OpenIdentity(open: Option<IdentityOpenFault>): IdentityResult {
    if open.Some? then open.value else IdentityResult.Ok
  }

  function LoadIdentity(d: Disk, fault: Option<IdentityFault>): (x: IdentityResult)
    ensures x.Ok? ==> d.identity.Holds?
  {
    if fault.Some? then fault.value else
      match d.identity
      case Absent => IdentityResult.NotFound
      case Damaged(x) => x
      case Holds(_) => IdentityResult.Ok
  }

  datatype Outcome<+R> = Outcome(world: World, report: R)

  function SaveSettings(r: Rules, w: World, s: Settings, o: SaveOutcome<SettingsFault>): Outcome<SettingsResult> {
    if !r.valid(s) then Outcome(w, SettingsResult.InvalidSettings) else
      Outcome(Emit(w, SettingsWrite(s, o)),
              match o
              case Durable => SettingsResult.Ok
              case Uncertain => SettingsResult.DurabilityUncertain
              case Refused(x) => x)
  }

  function SaveCredentials(w: World, c: Credentials, o: SaveOutcome<CredentialFault>): Outcome<CredentialResult> {
    if !ValidCredentials(c) then Outcome(w, CredentialResult.Invalid) else
      Outcome(Emit(w, CredentialsWrite(c, o)),
              match o
              case Durable => CredentialResult.Ok
              case Uncertain => CredentialResult.DurabilityUncertain
              case Refused(x) => x)
  }

  /** Loads the identity, or creates it if its file is absent. None stands for a failed entropy source. */
  function LoadOrCreateIdentity(w: World, fault: Option<IdentityFault>,
                                creation: Option<Creation>): Outcome<IdentityResult> {
    var x := LoadIdentity(w.disk, fault);
    if !x.NotFound? then Outcome(w, x)
    else if creation.None? then Outcome(w, IdentityResult.EntropyFailed)
    else
      Outcome(Emit(w, IdentityWrite(creation.value)),
              match creation.value
              case NewDurable(_) => IdentityResult.Created
              case NewUncertain(_) => IdentityResult.DurabilityUncertain
              case NotCreated(x, _) => x)
  }

  // ----- The device -----

  /** The files themselves. The ghost world follows them. */
  class Device {
    var settings: File<Settings, SettingsFault>
    var credentials: File<Credentials, CredentialFault>
    var identity: File<HexId, IdentityFault>
    ghost var world: World

    ghost predicate Valid()
      reads this
    {
      world.disk == Disk(settings, credentials, identity)
    }

    constructor (disk: Disk)
      ensures Valid() && world == Boot(disk)
    {
      settings, credentials, identity := disk.settings, disk.credentials, disk.identity;
      world := Boot(disk);
    }

    ghost method Note(e: Event)
      requires Valid() && Effect(world.disk, e) == world.disk
      modifies this`world
      ensures Valid() && world == Emit(old(world), e)
    {
      world := Emit(world, e);
    }

    method ReadSettings(r: Rules, f: Faults) returns (x: SettingsResult, s: Settings)
      requires Valid()
      ensures x == LoadSettings(r, world.disk, f)
      ensures s == if x.Ok? then world.disk.settings.value else DEFAULTS
    {
      s := DEFAULTS;
      if f.settingsLoad.Some? {
        return f.settingsLoad.value, s;
      }
      match settings
      case Absent => x := SettingsResult.Missing;
      case Damaged(fault) => x := fault;
      case Holds(value) =>
        if r.valid(value) {
          x, s := SettingsResult.Ok, value;
        } else {
          x := SettingsResult.Corrupt;
        }
    }

    method ReadCredentials(f: Faults) returns (x: CredentialResult, c: Credentials)
      requires Valid()
      modifies this`world
      ensures Valid() && world == Emit(old(world), CredentialsRead)
      ensures x == LoadCredentials(world.disk, f)
      ensures c == if x.Ok? then world.disk.credentials.value else Credentials([], [])
    {
      Note(CredentialsRead);
      c := Credentials([], []);
      if f.credentialsLoad.Some? {
        return f.credentialsLoad.value, c;
      }
      match credentials
      case Absent => x := CredentialResult.Missing;
      case Damaged(fault) => x := fault;
      case Holds(value) =>
        if ValidCredentials(value) {
          x, c := CredentialResult.Ok, value;
        } else {
          x := CredentialResult.Corrupt;
        }
    }

    method ReadIdentity(fault: Option<IdentityFault>) returns (x: IdentityResult, id: Text)
      requires Valid()
      modifies this`world
      ensures Valid() && world == Emit(old(world), IdentityRead)
      ensures x == LoadIdentity(world.disk, fault)
      ensures id == if x.Ok? then world.disk.identity.value else []
    {
      Note(IdentityRead);
      id := [];
      if fault.Some? {
        return fault.value, id;
      }
      match identity
      case Absent => x := IdentityResult.NotFound;
      case Damaged(f) => x := f;
      case Holds(value) => x, id := IdentityResult.Ok, value;
    }

    method WriteSettings(r: Rules, s: Settings, o: SaveOutcome<SettingsFault>) returns (x: SettingsResult)
      requires Valid()
      modifies this
      ensures Valid() && Outcome(world, x) == SaveSettings(r, old(world), s, o)
    {
      if !r.valid(s) {
        return SettingsResult.InvalidSettings;
      }
      match o {
        case Durable => x, settings := SettingsResult.Ok, Holds(s);
        case Uncertain => x, settings := SettingsResult.DurabilityUncertain, Holds(s);
        case Refused(fault) => x := fault;
      }
      world := Emit(world, SettingsWrite(s, o));
    }

    method WriteCredentials(c: Credentials, o: SaveOutcome<CredentialFault>) returns (x: CredentialResult)
      requires Valid()
      modifies this
      ensures Valid() && Outcome(world, x) == SaveCredentials(old(world), c, o)
    {
      if !ValidCredentials(c) {
        return CredentialResult.Invalid;
      }
      match o {
        case Durable => x, credentials := CredentialResult.Ok, Holds(c);
        case Uncertain => x, credentials := CredentialResult.DurabilityUncertain, Holds(c);
        case Refused(fault) => x := fault;
      }
      world := Emit(world, CredentialsWrite(c, o));
    }

    method CreateIdentity(fault: Option<IdentityFault>, creation: Option<Creation>) returns (x: IdentityResult)
      requires Valid()
      modifies this
      ensures Valid() && Outcome(world, x) == LoadOrCreateIdentity(old(world), fault, creation)
    {
      if fault.Some? {
        return fault.value;
      }
      match identity {
        case Damaged(f) => return f;
        case Holds(_) => return IdentityResult.Ok;
        case Absent =>
      }
      if creation.None? {
        return IdentityResult.EntropyFailed;
      }
      match creation.value {
        case NewDurable(id) => x, identity := IdentityResult.Created, Holds(id);
        case NewUncertain(id) => x, identity := IdentityResult.DurabilityUncertain, Holds(id);
        case NotCreated(f, leftover) =>
          x := f;
          if leftover {
            identity := Damaged(IdentityResult.Malformed);
          }
      }
      world := Emit(world, IdentityWrite(creation.value));
    }
  }
}
