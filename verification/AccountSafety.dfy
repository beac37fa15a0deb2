// Safety of the account over every sequence of calls, at every instant and after
// every power loss.
module AccountSafety {
  import opened Bytes
  import opened Wrappers
  import opened SettingsFile
  import opened AccountState
  import opened AccountBootstrap
  import A = SyncActivation
  import opened AccountSetup
  import opened AccountHistory

  // ----- Instants -----

  function Origin(w: World): Disk {
    if w.Boot? then w.disk else Origin(w.before)
  }

  lemma {:induction false} InstantsAreDisciplined(r: Rules, v: World, w: World)
    requires Disciplined(r, w) && Since(v, w)
    ensures Disciplined(r, v) && Origin(v) == Origin(w)
    decreases w
  {
    if v != w {
      InstantsAreDisciplined(r, v, w.before);
    }
  }

  lemma {:induction false} OrderedGoesBack(w0: World, w: World)
    requires Ordered(w0, w)
    ensures Since(w0, w) && Origin(w0) == Origin(w)
    decreases w
  {
    if w != w0 {
      OrderedGoesBack(w0, w.before);
    }
  }

  lemma {:induction false} RunsAreDisciplined(r: Rules, layout: Layout, w: World, calls: seq<Call>)
    requires Sound(r) && Disciplined(r, w)
    ensures Disciplined(r, PerformAll(r, layout, w, calls)) && Origin(PerformAll(r, layout, w, calls)) == Origin(w)
    decreases |calls|
  {
    if calls != [] {
      PerformKeeps(r, layout, w, calls[0]);
      OrderedGoesBack(w, Perform(r, layout, w, calls[0]));
      RunsAreDisciplined(r, layout, Perform(r, layout, w, calls[0]), calls[1..]);
    }
  }

  // ----- Enabled implies authorised -----

  ghost predicate WasGranted(w: World, url: Text, username: Text, userkey: Text) {
    w.After? && (w.event == AuthRequest(url, username, userkey, true) || WasGranted(w.before, url, username, userkey))
  }

  /** The server granted, earlier, exactly what d holds, and d holds an identity. */
  ghost predicate Authorised(w: World, d: Disk) {
    && d.settings.Holds? && d.credentials.Holds? && d.identity.Holds?
    && WasGranted(w, d.settings.value.baseUrl, d.credentials.value.username, d.credentials.value.userkey)
  }

  lemma {:induction false} EnabledIsAuthorised(r: Rules, w: World)
    requires Disciplined(r, w) && !Enabled(r, Origin(w)) && Enabled(r, w.disk)
    ensures Authorised(w, w.disk)
    decreases w
  {
    if Enabled(r, w.before.disk) {
      EnabledIsAuthorised(r, w.before);
    }
  }

  /** However a run of calls goes, at every instant enabled settings are settings the server granted. */
  lemma EnabledImpliesAuthorised(r: Rules, layout: Layout, start: Disk, calls: seq<Call>, v: World)
    requires Sound(r) && !Enabled(r, start)
    requires Since(v, PerformAll(r, layout, Boot(start), calls))
    ensures Enabled(r, v.disk) ==> Authorised(v, v.disk)
  {
    RunsAreDisciplined(r, layout, Boot(start), calls);
    InstantsAreDisciplined(r, v, PerformAll(r, layout, Boot(start), calls));
    if Enabled(r, v.disk) {
      EnabledIsAuthorised(r, v);
    }
  }

  // ----- Progress is monotone -----

  /** What a fault-free inspection would find. */
  function Local(r: Rules, d: Disk): LocalState {
    var x, y := LoadSettings(r, d, NO_FAULTS), LoadCredentials(d, NO_FAULTS);
    if CorruptSettings(x) then CorruptOrUnsupported
    else if !x.Ok? && !x.Missing? then Unreadable
    else if x.Ok? && d.settings.value.enabled then EnabledState
    else if CorruptCredentials(y) then CorruptOrUnsupported
    else if !y.Ok? && !y.Missing? then Unreadable
    else if x.Missing? then (if y.Missing? then NoAccount else OrphanCredentials)
    else if y.Missing? then PartialDisabled else CompleteDisabled
  }

  lemma InspectionFindsLocal(r: Rules, w: World)
    ensures Inspect(r, w, Prepared, NO_FAULTS).report.local == Local(r, w.disk)
    ensures Inspect(r, w, Prepared, NO_FAULTS).world.disk == w.disk
  {}

  function Rank(s: LocalState): nat {
    match s
    case NoAccount => 0
    case PartialDisabled => 1
    case OrphanCredentials => 1
    case CompleteDisabled => 2
    case EnabledState => 3
    case _ => 4
  }

  /** Towards enabled and never back; an identity, an enabled account and a file that does not load stay as they are. */
  ghost predicate Forward(r: Rules, d: Disk, d': Disk) {
    && Rank(Local(r, d)) <= Rank(Local(r, d'))
    && (Rank(Local(r, d)) < 4 ==> Rank(Local(r, d')) < 4)
    && (Local(r, d').OrphanCredentials? ==> Local(r, d).OrphanCredentials?)
    && (Rank(Local(r, d)) >= 3 ==> d' == d)
    && (!d.identity.Absent? ==> d'.identity == d.identity)
  }

  lemma StepForward(r: Rules, w: World, e: Event)
    requires Lawful(r, w, e)
    ensures Forward(r, w.disk, Effect(w.disk, e))
  {}

  lemma ForwardAgain(r: Rules, a: Disk, b: Disk, c: Disk)
    requires Forward(r, a, b) && Forward(r, b, c)
    ensures Forward(r, a, c)
  {}

  lemma {:induction false} GoesForward(r: Rules, v: World, w: World)
    requires Disciplined(r, w) && Since(v, w)
    ensures Forward(r, v.disk, w.disk)
    decreases w
  {
    if v != w {
      GoesForward(r, v, w.before);
      StepForward(r, w.before, w.event);
      ForwardAgain(r, v.disk, w.before.disk, w.disk);
    }
  }

  /** Between any two instants of a run the account moves only forward, and no orphan is created. */
  lemma ProgressIsMonotone(r: Rules, layout: Layout, start: Disk, calls: seq<Call>, v: World, v': World)
    requires Sound(r) && Since(v, v') && Since(v', PerformAll(r, layout, Boot(start), calls))
    ensures Forward(r, v.disk, v'.disk)
  {
    RunsAreDisciplined(r, layout, Boot(start), calls);
    InstantsAreDisciplined(r, v', PerformAll(r, layout, Boot(start), calls));
    GoesForward(r, v, v');
  }

  /** Once enabled, a call writes nothing, reads no credentials and uses no network. */
  lemma EnabledIsQuiet(r: Rules, layout: Layout, w: World, call: Call)
    requires Enabled(r, w.disk)
    ensures Perform(r, layout, w, call) == w
            || (call.CallBootstrap? && Perform(r, layout, w, call) == Emit(w, KeyDerivation))
  {
    match call
    case CallInspect(f) => assert Observe(r, w, layout, f).world == w;
    case CallSubmit(input, intent, runtime, e) =>
      var seen := Observe(r, w, layout, e.observe);
      assert seen.world == w && (seen.local.EnabledState? || !seen.result.ObservationOk?);
    case CallActivateExisting(runtime, e) =>
      var seen := Observe(r, w, layout, e.observe);
      assert seen.world == w && (seen.local.EnabledState? || !seen.result.ObservationOk?);
    case CallBootstrap(input, e) =>
    case CallActivate(runtime, e) =>
  }

  // ----- Power loss -----

  /** What may be found after losing power once e was issued on d, unless e was durable. */
  ghost predicate MayRemain(d: Disk, e: Event, d': Disk) {
    match e
    case SettingsWrite(s, _) => d' == d || d' == d.(settings := Holds(s))
    case CredentialsWrite(c, _) => d' == d || d' == d.(credentials := Holds(c))
    case IdentityWrite(_) => d' == d.(identity := d'.identity)
    case _ => d' == d
  }

  ghost predicate Leaves(d: Disk, e: Event, d': Disk) {
    if DurableWrite(e) then d' == Effect(d, e) else MayRemain(d, e, d')
  }

  /** What may be found after losing power at w, if everything at w0 was durable. */
  ghost predicate Survives(w0: World, w: World, d: Disk)
    decreases w
  {
    if w == w0 then d == w.disk
    else w.After? && exists b :: Survives(w0, w.before, b) && Leaves(b, w.event, d)
  }

  /** What may be found after losing power while e is being carried out at w. */
  ghost predicate SurvivesDuring(w0: World, w: World, e: Event, d: Disk) {
    exists b :: Survives(w0, w, b) && MayRemain(b, e, d)
  }

  lemma {:induction false} DurableSurvives(r: Rules, w0: World, w: World, d: Disk)
    requires Disciplined(r, w) && DurableSince(w0, w) && Survives(w0, w, d)
    ensures d == w.disk
    decreases w
  {
    if w != w0 {
      var b :| Survives(w0, w.before, b) && Leaves(b, w.event, d);
      DurableSurvives(r, w0, w.before, b);
    }
  }

  ghost predicate SafeAt(r: Rules, w: World, d: Disk) {
    !Local(r, d).OrphanCredentials? && (Enabled(r, d) ==> Authorised(w, d))
  }

  /** A write issued on a safe state leaves a safe one, whatever power loss does to it. */
  lemma RemainsSafe(r: Rules, w: World, e: Event, d: Disk)
    requires Lawful(r, w, e) && MayRemain(w.disk, e, d) && SafeAt(r, w, w.disk)
    ensures SafeAt(r, w, d)
  {
  }

  lemma {:induction false} SurvivorsAreSafe(r: Rules, w0: World, w: World, d: Disk)
    requires Kept(r, w0, w) && SafeAt(r, w0, w0.disk) && Survives(w0, w, d)
    ensures SafeAt(r, w, d)
    decreases w
  {
    if w != w0 {
      var b :| Survives(w0, w.before, b) && Leaves(b, w.event, d);
      SurvivorsAreSafe(r, w0, w.before, b);
      if IsWrite(w.event) {
        DurableSurvives(r, w0, w.before, b);
        RemainsSafe(r, w.before, w.event, d);
      }
    }
  }

  function Age(w: World): nat {
    if w.Boot? then 0 else Age(w.before) + 1
  }

  lemma {:induction false} EarlierIsYounger(v: World, w: World)
    requires Since(v, w)
    ensures Age(v) <= Age(w) && (Age(v) == Age(w) ==> v == w)
    decreases w
  {
    if v != w {
      EarlierIsYounger(v, w.before);
    }
  }

  lemma {:induction false} InstantsAreKept(r: Rules, w0: World, v: World, w: World)
    requires Kept(r, w0, w) && Since(w0, v) && Since(v, w)
    ensures Kept(r, w0, v)
    decreases w
  {
    EarlierIsYounger(w0, v);
    EarlierIsYounger(v, w);
    if v != w {
      InstantsAreKept(r, w0, v, w.before);
    }
  }

  /**
    * From a durable safe start, power lost at any instant of one call leaves no orphan and nothing enabled
    * but what was granted.
    */
  lemma PowerLossIsSafe(r: Rules, layout: Layout, w: World, call: Call, v: World, d: Disk)
    requires Sound(r) && Disciplined(r, w) && SafeAt(r, w, w.disk)
    requires Since(w, v) && Since(v, Perform(r, layout, w, call))
    requires Survives(w, v, d) || (v.After? && v != w && SurvivesDuring(w, v.before, v.event, d))
    ensures SafeAt(r, v, d)
  {
    PerformKeeps(r, layout, w, call);
    InstantsAreKept(r, w, v, Perform(r, layout, w, call));
    if Survives(w, v, d) {
      SurvivorsAreSafe(r, w, v, d);
    } else {
      var b :| Survives(w, v.before, b) && MayRemain(b, v.event, d);
      SurvivorsAreSafe(r, w, v.before, b);
      if IsWrite(v.event) {
        DurableSurvives(r, w, v.before, b);
        RemainsSafe(r, v.before, v.event, d);
      }
    }
  }
}
