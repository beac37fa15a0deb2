// The Reader's side of a sync: save the current position first, run the exchange,
// and follow the record if the exchange imported one. And what happens when the user
// settles a conflict later.
module ReaderSync {
  import opened Bytes
  import opened Wrappers
  import opened ReaderState
  import opened ProgressSync

  datatype Phase =
    | PhaseInvalid | NotOpen | ConfigMismatch | IdentityFailedPhase | CaptureFailed | PreSaveFailed
    | ControllerComplete | ImportReloadFailed | ImportApplyFailed | ImportApplied

  datatype Stage = StageInvalid | StageDisabled | SettingsFailed | CredentialsFailed | ConfigFailed | Integration

  type Blocked = s: Stage | !s.Integration? witness StageDisabled

  /** A controller may stop before it exchanges anything. */
  datatype ControllerAnswers = ControllerAnswers(blocked: Option<Blocked>, exchange: Answers)

  datatype Controller = Controller(stage: Stage, status: SyncStatus, decision: Decision, verdict: Verdict)

  const UNCONTROLLED := Controller(StageInvalid, SyncStatus.Invalid, NoDecision, Verdict(FailClosed, NoMutation, NoMutation))

  datatype Result = Result(phase: Phase, preSave: ProgressResult, reload: ProgressResult, controller: Controller,
                           preSaveAttempted: bool, controllerInvoked: bool, redrawNeeded: bool, movementPossible: bool,
                           mismatchPossible: bool)

  const EMPTY := Result(PhaseInvalid, ProgressResult.Invalid, ProgressResult.Invalid, UNCONTROLLED,
                        false, false, false, false, false)

  /** What the caller passes besides the Reader and the store. */
  datatype Config = Config(complete: bool, documentPath: Option<Text>, otherStore: bool)

  /** The configuration is for another book or another store. */
  predicate Mismatch(c: Config, path: Text) {
    (c.documentPath.Some? && c.documentPath.value != path) || c.otherStore
  }

  datatype ManualAnswers = ManualAnswers(captureFails: bool, save: Option<ProgressFault>, controller: ControllerAnswers,
                                         reload: Option<ProgressFault>)

  // ----- Specification: manual sync -----

  function RunController(g: Engine, w: World, path: Text, e: ControllerAnswers): (World, Controller) {
    if e.blocked.Some? then (w, UNCONTROLLED.(stage := e.blocked.value))
    else
      var (w', x) := SyncOnce(g, w, path, e.exchange);
      (w', Controller(Integration, x.status, x.decision, Classify(x)))
  }

  function ApplyRecord(g: Engine, w: World, t: Token, fault: Option<ProgressFault>, result: Result): (World, Result) {
    var x := Load(w, t, fault);
    var result := result.(reload := x);
    if !x.Ok? then (w, result.(phase := ImportReloadFailed, mismatchPossible := true))
    else
      var page := Destination(g, w.view, w.records[t].position);
      if page.None? then (w, result.(phase := ImportApplyFailed, mismatchPossible := true))
      else
        (w.(view := w.view.(page := page.value)),
         result.(phase := ImportApplied, movementPossible := true, redrawNeeded := true))
  }

  function ApplyPersisted(g: Engine, w: World, hasStore: bool, fault: Option<ProgressFault>): (World, Result) {
    var path := OpenBook(w.view);
    if path.None? then (w, EMPTY.(phase := NotOpen))
    else if !hasStore then (w, EMPTY)
    else if Identity(g, path.value).None? then (w, EMPTY.(phase := IdentityFailedPhase))
    else ApplyRecord(g, w, Identity(g, path.value).value, fault, EMPTY)
  }

  function ManualOnce(g: Engine, w: World, c: Config, e: ManualAnswers): (World, Result) {
    var path := OpenBook(w.view);
    if !c.complete then (w, EMPTY)
    else if path.None? then (w, EMPTY.(phase := NotOpen))
    else if Mismatch(c, path.value) then (w, EMPTY.(phase := ConfigMismatch))
    else if Identity(g, path.value).None? then (w, EMPTY.(phase := IdentityFailedPhase))
    else
      var captured := Capture(g, w.view, e.captureFails);
      if captured.None? then (w, EMPTY.(phase := CaptureFailed))
      else
        var t := Identity(g, path.value).value;
        var (w, x) := Save(g, w, t, captured.value, e.save);
        var result := EMPTY.(preSaveAttempted := true, preSave := x);
        if !x.Ok? then (w, result.(phase := PreSaveFailed))
        else
          var (w, done) := RunController(g, w, path.value, e.controller);
          var result := result.(controllerInvoked := true, controller := done, phase := ControllerComplete);
          if done.stage.Integration? && done.verdict.outcome.Imported? then ApplyRecord(g, w, t, e.reload, result)
          else (w, result)
  }

  // ----- Specification: settling a conflict -----

  datatype Choice = Cancel | UseLocal | UseRemote | OtherChoice

  datatype ConflictPhase =
    | ConflictInvalid | Cancelled | Stale | LocalComplete | RemoteComplete | RemoteApplied | RemoteApplyFailed

  datatype Settled = Settled(phase: ConflictPhase, localCheck: ProgressResult, push: PushResult, pull: PullResult, apply: Result,
                             pushInvoked: bool, pullInvoked: bool, redrawNeeded: bool, mismatchPossible: bool)

  const UNSETTLED := Settled(ConflictInvalid, ProgressResult.Invalid, UNPUSHED, UNPULLED, EMPTY, false, false, false, false)

  datatype SettleAnswers = SettleAnswers(captureFails: bool, load: Option<ProgressFault>, controller: ControllerAnswers,
                                         reload: Option<ProgressFault>)

  predicate IsConflict(x: Result) {
    && x.phase.ControllerComplete? && x.preSaveAttempted && x.preSave.Ok? && x.controllerInvoked
    && x.controller.stage.Integration? && x.controller.status.Ok? && x.controller.decision.Ambiguous?
    && x.controller.verdict.outcome.Conflict?
  }

  function RunPush(g: Engine, w: World, path: Text, e: ControllerAnswers): (World, PushResult) {
    if e.blocked.Some? then (w, UNPUSHED) else PushLocal(g, w, path, e.exchange)
  }

  function RunPull(g: Engine, w: World, path: Text, e: ControllerAnswers): (World, PullResult) {
    if e.blocked.Some? then (w, UNPULLED) else PullRemote(g, w, path, e.exchange)
  }

  /** The Reader and the stored record are still where the user saw them. */
  predicate SamePlace(g: Engine, w: World, t: Token, expected: Position, e: SettleAnswers) {
    && Capture(g, w.view, e.captureFails) == Some(expected)
    && Load(w, t, e.load).Ok? && w.records[t] == Stored(expected)
  }

  function Settle(g: Engine, w: World, c: Config, original: Result, expected: Position, expectedPath: Text,
                  choice: Choice,
                  e: SettleAnswers): (World, Settled)
  {
    if choice.Cancel? then (w, UNSETTLED.(phase := Cancelled))
    else if choice.OtherChoice? || !IsConflict(original) || !c.complete || expectedPath == [] then (w, UNSETTLED)
    else if OpenBook(w.view) != Some(expectedPath) || Mismatch(c, expectedPath) || Identity(g, expectedPath).None? then
      (w, UNSETTLED.(phase := Stale))
    else
      var t := Identity(g, expectedPath).value;
      var checked := UNSETTLED.(localCheck :=
        if Capture(g, w.view, e.captureFails) == Some(expected) then Load(w, t, e.load) else ProgressResult.Invalid);
      if !SamePlace(g, w, t, expected, e) then (w, checked.(phase := Stale))
      else if choice.UseLocal? then
        var (w, x) := RunPush(g, w, expectedPath, e.controller);
        (w, checked.(pushInvoked := true, push := x, phase := LocalComplete))
      else
        var (w, x) := RunPull(g, w, expectedPath, e.controller);
        var result := checked.(pullInvoked := true, pull := x, phase := RemoteComplete);
        if !x.status.PullPersisted? then (w, result)
        else
          var (w, applied) := ApplyPersisted(g, w, true, e.reload);
          if !applied.phase.ImportApplied? then
            (w, result.(apply := applied, phase := RemoteApplyFailed, mismatchPossible := true))
          else (w, result.(apply := applied, phase := RemoteApplied, redrawNeeded := applied.redrawNeeded))
  }

  // ----- The code -----

  class App {
    var view: View
    var records: map<Token, Record>
    var remote: map<Document, Position>

    ghost function State(): World
      reads this
    {
      World(view, records, remote)
    }

    constructor (w: World)
      ensures State() == w
    {
      view, records, remote := w.view, w.records, w.remote;
    }

    method LoadRecord(t: Token, fault: Option<ProgressFault>) returns (x: ProgressResult, p: Position)
      ensures x == Load(State(), t, fault)
      ensures x.Ok? ==> records[t] == Stored(p)
    {
      p := Position([], -1);
      if fault.Some? {
        x := fault.value;
      } else if t !in records {
        x := ProgressResult.Missing;
      } else {
        match records[t]
        case Unloadable(result) => x := result;
        case Stored(position) => x, p := ProgressResult.Ok, position;
      }
    }

    method SaveRecord(g: Engine, t: Token, p: Position, fault: Option<ProgressFault>) returns (x: ProgressResult)
      modifies this`records
      ensures (State(), x) == Save(g, old(State()), t, p, fault)
    {
      if !g.storable(p) {
        return ProgressResult.Invalid;
      }
      if fault.Some? {
        return fault.value;
      }
      records := records[t := Stored(p)];
      x := ProgressResult.Ok;
    }

    /** The exchanges are taken by their specification. */
    method Exchange(w: World)
      modifies this
      ensures State() == w
    {
      view, records, remote := w.view, w.records, w.remote;
    }

    method Goto(g: Engine, p: Position) returns (moved: bool)
      modifies this`view
      ensures moved <==> Destination(g, old(view), p).Some?
      ensures view == if moved then old(view).(page := Destination(g, old(view), p).value) else old(view)
    {
      var page := Destination(g, view, p);
      if page.None? {
        return false;
      }
      view := view.(page := page.value);
      moved := true;
    }

    method FollowRecord(g: Engine, t: Token, fault: Option<ProgressFault>, initial: Result) returns (result: Result)
      modifies this`view
      ensures (State(), result) == ApplyRecord(g, old(State()), t, fault, initial)
    {
      var x, loaded := LoadRecord(t, fault);
      result := initial.(reload := x);
      if !x.Ok? {
        result := result.(phase := ImportReloadFailed, mismatchPossible := true);
      } else {
        var moved := Goto(g, loaded);
        if !moved {
          result := result.(phase := ImportApplyFailed, mismatchPossible := true);
        } else {
          result := result.(phase := ImportApplied, movementPossible := true, redrawNeeded := true);
        }
      }
    }

    method FollowPersisted(g: Engine, hasStore: bool, fault: Option<ProgressFault>) returns (result: Result)
      modifies this`view
      ensures (State(), result) == ApplyPersisted(g, old(State()), hasStore, fault)
    {
      result := EMPTY;
      var path := OpenBook(view);
      if path.None? {
        return result.(phase := NotOpen);
      }
      var id := Identity(g, path.value);
      if !hasStore || id.None? {
        return result.(phase := if hasStore then IdentityFailedPhase else PhaseInvalid);
      }
      result := FollowRecord(g, id.value, fault, result);
    }

    method SyncManually(g: Engine, c: Config, e: ManualAnswers) returns (result: Result)
      modifies this
      ensures (State(), result) == ManualOnce(g, old(State()), c, e)
    {
      result := EMPTY;
      if !c.complete {
        return;
      }
      var path := OpenBook(view);
      if path.None? {
        return result.(phase := NotOpen);
      }
      if Mismatch(c, path.value) {
        return result.(phase := ConfigMismatch);
      }
      var id := Identity(g, path.value);
      if id.None? {
        return result.(phase := IdentityFailedPhase);
      }
      var captured := Capture(g, view, e.captureFails);
      if captured.None? {
        return result.(phase := CaptureFailed);
      }
      result := result.(preSaveAttempted := true);
      var saved := SaveRecord(g, id.value, captured.value, e.save);
      result := result.(preSave := saved);
      if !saved.Ok? {
        return result.(phase := PreSaveFailed);
      }
      result := result.(controllerInvoked := true);
      var (w, done) := RunController(g, World(view, records, remote), path.value, e.controller);
      Exchange(w);
      result := result.(controller := done, phase := ControllerComplete);
      if done.stage.Integration? && done.verdict.outcome.Imported? {
        result := FollowRecord(g, id.value, e.reload, result);
      }
    }

    method SettleConflict(g: Engine, c: Config, original: Result, expected: Position, expectedPath: Text,
                          choice: Choice,
                          e: SettleAnswers) returns (result: Settled)
      modifies this
      ensures (State(), result) == Settle(g, old(State()), c, original, expected, expectedPath, choice, e)
    {
      result := UNSETTLED;
      if choice.Cancel? {
        return result.(phase := Cancelled);
      }
      if (!choice.UseLocal? && !choice.UseRemote?) || !IsConflict(original) || !c.complete || |expectedPath| == 0 {
        return;
      }
      var path, id := OpenBook(view), Identity(g, expectedPath);
      if path.None? || path.value != expectedPath || Mismatch(c, expectedPath) || id.None? {
        return result.(phase := Stale);
      }
      var current := Capture(g, view, e.captureFails);
      var same := current.Some? && current.value.location == expected.location && current.value.progress == expected.progress;
      if same {
        var x, local := LoadRecord(id.value, e.load);
        result := result.(localCheck := x);
        same := x.Ok? && local.location == expected.location && local.progress == expected.progress;
      }
      if !same {
        return result.(phase := Stale);
      }
      if choice.UseLocal? {
        var (w, x) := RunPush(g, World(view, records, remote), expectedPath, e.controller);
        Exchange(w);
        return result.(pushInvoked := true, push := x, phase := LocalComplete);
      }
      var (w, x) := RunPull(g, World(view, records, remote), expectedPath, e.controller);
      Exchange(w);
      result := result.(pullInvoked := true, pull := x, phase := RemoteComplete);
      if !x.status.PullPersisted? {
        return;
      }
      var applied := FollowPersisted(g, true, e.reload);
      result := result.(apply := applied);
      if !applied.phase.ImportApplied? {
        result := result.(phase := RemoteApplyFailed, mismatchPossible := true);
      } else {
        result := result.(phase := RemoteApplied, redrawNeeded := applied.redrawNeeded);
      }
    }
  }
}
