// What decides the outcome of every exchange, manual sync and settlement, stated on the
// state and the answers before the call.
module ReaderDecisions {
  import opened Bytes
  import opened Wrappers
  import opened Network
  import opened ReaderState
  import opened ProgressSync
  import opened ReaderSync
  import opened ReaderAgreement

  // ----- One exchange -----

  /** A secured connection to the server. */
  predicate Connected(e: Answers) {
    e.time.TimeOk? && e.dns.DnsOk? && e.addresses > 0 && e.setTls.Ok?
  }

  /** The record of a path, if it loads. */
  function Local(g: Engine, w: World, path: Text): Option<Position> {
    if 1 <= |path| <= 4096 && g.hash(path) in w.records && w.records[g.hash(path)].Stored?
    then Some(w.records[g.hash(path)].position) else None
  }

  function Remote(g: Engine, w: World, path: Text): Option<Position> {
    if g.document(path) in w.remote then Some(w.remote[g.document(path)]) else None
  }

  /** Both identities are known and the record is absent or loads. */
  predicate Readable(g: Engine, w: World, path: Text, e: Answers) {
    && 1 <= |path| <= 4096 && !e.documentFails && e.load.None?
    && (g.hash(path) in w.records ==> w.records[g.hash(path)].Stored?)
  }

  /** The server has said what it has. */
  predicate Compared(g: Engine, w: World, path: Text, e: Answers) {
    Readable(g, w, path, e) && Connected(e) && e.get.None?
  }

  /** The decision depends on which sides have a record, and on their locations if both have. */
  lemma SyncDecides(g: Engine, w: World, path: Text, e: Answers)
    ensures var x := SyncOnce(g, w, path, e).1.decision;
            var compared, local, remote := Compared(g, w, path, e), Local(g, w, path), Remote(g, w, path);
            && (x.NoState? <==> compared && local.None? && remote.None?)
            && (x.RemoteSelected? <==> compared && local.None? && remote.Some?)
            && (x.LocalSelected? <==> compared && local.Some? && remote.None?)
            && (x.NoChange? <==> compared && local.Some? && remote.Some? && local.value.location == remote.value.location)
            && (x.Ambiguous? <==> compared && local.Some? && remote.Some? && local.value.location != remote.value.location)
  {}

  /** A record is sent exactly if only the Reader has one and it says how far it is; saved exactly if only the server has one. */
  lemma SyncActs(g: Engine, w: World, path: Text, e: Answers)
    ensures var x := SyncOnce(g, w, path, e).1;
            var compared, local, remote := Compared(g, w, path, e), Local(g, w, path), Remote(g, w, path);
            && (x.putAttempted <==> compared && local.Some? && remote.None? && local.value.progress >= 0 && e.conversion.Ok?)
            && (x.uploaded <==> x.putAttempted && Reply(e.put).result.Ok?)
            && (x.saveAttempted <==> compared && local.None? && remote.Some?)
            && (x.saved <==> x.saveAttempted && g.storable(remote.value) && e.save.None?)
            && (x.putAttempted ==> x.transport == Reply(e.put).transport)
  {}

  /** What an exchange that compared has heard: the server's record or that there is none, until it sends its own. */
  lemma SyncHears(g: Engine, w: World, path: Text, e: Answers)
    requires Compared(g, w, path, e)
    ensures var x, local, remote := SyncOnce(g, w, path, e).1, Local(g, w, path), Remote(g, w, path);
            var converting := local.Some? && remote.None? && local.value.progress >= 0;
            && (x.localPresent <==> local.Some?) && (x.remotePresent <==> remote.Some?)
            && (!x.putAttempted ==> x.transport.TransportOk?)
            && x.kosync == (if x.putAttempted then Reply(e.put).result
                            else if converting then e.conversion
                            else if remote.Some? then KosyncResult.Ok
                            else KosyncResult.NotFound)
  {}

  /** What an exchange has heard of the clock, the resolver and TLS if it got that far. */
  lemma SyncReaches(g: Engine, w: World, path: Text, e: Answers)
    ensures var x, reached := SyncOnce(g, w, path, e).1, Readable(g, w, path, e);
            var named := reached && e.time.TimeOk? && e.dns.DnsOk? && e.addresses > 0;
            && (reached ==> x.time == e.time)
            && (reached && e.time.TimeOk? ==> x.dns == if e.dns.DnsOk? && e.addresses == 0 then DnsError(12) else e.dns)
            && (named && !e.setTls.Ok? ==> x.kosync == e.setTls)
            && (named && e.setTls.Ok? && e.get.Some? ==>
                  x.kosync == e.get.value
                  && x.transport == if e.get.value.TransportError? then AfterSend else TransportOk)
            && (!reached ==> x.time == UNSYNCED.time && x.kosync == UNSYNCED.kosync)
            && (!reached || !e.time.TimeOk? ==> x.dns == UNSYNCED.dns)
  {}

  /** Why the record of the document did not load. */
  function Unloaded(g: Engine, w: World, path: Text, e: Answers): ProgressResult
    requires 1 <= |path| <= 4096 && !e.documentFails && !Readable(g, w, path, e)
  {
    if e.load.Some? then e.load.value else w.records[g.hash(path)].result
  }

  /** Where an exchange that could not compare stopped. */
  function Stopped(g: Engine, w: World, path: Text, e: Answers): SyncStatus {
    if |path| == 0 || |path| > 4096 || e.documentFails then IdentityFailed
    else if !Readable(g, w, path, e) then
      if Unloaded(g, w, path, e).NoMemory? then SyncStatus.NoMemory else LocalFailed
    else if !e.time.TimeOk? then TrustedTimeFailed
    else if !e.dns.DnsOk? || e.addresses == 0 then DnsFailed
    else if !e.setTls.Ok? then SyncStatus.Invalid
    else Reported(if e.get.Some? then e.get.value else KosyncResult.Invalid)
  }

  /** What a failed request is reported as. */
  function Reported(x: KosyncResult): SyncStatus {
    if x.AuthFailed? then SyncStatus.AuthFailed
    else if x.TransportError? then HttpsFailed
    else if x.NoMemory? then SyncStatus.NoMemory
    else if x.HttpError? || x.BadJson? || x.BadProtocol? then ProtocolFailed
    else SyncStatus.Invalid
  }

  /** An exchange that could not compare names the first thing that failed, and one that could is not OK unless it is done. */
  lemma SyncStops(g: Engine, w: World, path: Text, e: Answers)
    requires !Compared(g, w, path, e)
    ensures SyncOnce(g, w, path, e).1.status == Stopped(g, w, path, e) && SyncOnce(g, w, path, e).0 == w
  {
    hide Exchange;
  }

  lemma ExchangeStatus(g: Engine, w: World, t: Token, doc: Document, e: Answers, report: SyncResult)
    requires report.localPresent ==> t in w.records && w.records[t].Stored?
    requires (report.remotePresent <==> doc in w.remote) && !report.uploaded && !report.saved
    ensures var x := Exchange(g, w, t, doc, e, report).1;
            && (x.status.Ok? <==> x.decision.NoState? || x.decision.NoChange? || x.decision.Ambiguous? || x.uploaded || x.saved)
            && (x.decision.LocalSelected? && !x.uploaded ==>
                  x.status == if w.records[t].position.progress < 0 then LocalUnsupported
                              else if !e.conversion.Ok? then Reported(e.conversion) else Reported(Reply(e.put).result))
            && (x.decision.RemoteSelected? && !x.saved ==>
                  x.status == if g.storable(w.remote[doc]) && e.save.value.NoMemory? then SyncStatus.NoMemory else LocalFailed)
  {}

  /** A compared exchange is OK exactly if it had nothing to do or did it, and otherwise names what failed. */
  lemma SyncStatusIs(g: Engine, w: World, path: Text, e: Answers)
    requires Compared(g, w, path, e)
    ensures var x, local, remote := SyncOnce(g, w, path, e).1, Local(g, w, path), Remote(g, w, path);
            && (x.status.Ok? <==> x.decision.NoState? || x.decision.NoChange? || x.decision.Ambiguous? || x.uploaded || x.saved)
            && (x.decision.LocalSelected? && !x.uploaded ==>
                  x.status == if local.value.progress < 0 then LocalUnsupported
                              else if !e.conversion.Ok? then Reported(e.conversion) else Reported(Reply(e.put).result))
            && (x.decision.RemoteSelected? && !x.saved ==>
                  x.status == if g.storable(remote.value) && e.save.value.NoMemory? then SyncStatus.NoMemory else LocalFailed)
  {
    hide Exchange, Reported, Reply;
    SyncDecides(g, w, path, e);
    var report := Fetched(w, g.document(path), Reach(e, UNSYNCED.(localPresent := Load(w, g.hash(path), e.load).Ok?)));
    ExchangeStatus(g, w, g.hash(path), g.document(path), e, report);
  }

  // ----- Evidence -----

  /** What a sync says about the server after a PUT of this course. */
  function SyncEvidence(put: Put): Mutation {
    match put
    case Unwritten(noMemory) => if noMemory then Possible else NoMutation
    case NeverSent(transport) => if transport.AfterSend? then Possible else NoMutation
    case Interrupted(_) => Possible
    case Answered(status, _, ack) =>
      if status == 401 then NoMutation else if status == 200 && ack.Ok? then Confirmed else Possible
  }

  /** A push claims less: only a failed connection proves to it that nothing was sent. */
  function PushEvidence(put: Put): Mutation {
    match put
    case NeverSent(transport) => if transport.BeforeSend? then NoMutation else Possible
    case Answered(status, _, ack) => if status == 200 && ack.Ok? then Confirmed else Possible
    case _ => Possible
  }

  /** The evidence is as sharp as the course of the PUT allows, and a verdict other than a failure says what was done. */
  lemma EvidenceIsSharp(g: Engine, w: World, path: Text, e: Answers)
    ensures var x := SyncOnce(g, w, path, e).1;
            var v := Classify(x);
            && v.remoteMutation == (if x.putAttempted then SyncEvidence(e.put) else NoMutation)
            && v.localMutation == (if x.saved then Confirmed else if x.saveAttempted then Possible else NoMutation)
            && (v.outcome.Uploaded? <==> x.uploaded) && (v.outcome.Imported? <==> x.saved)
            && (v.outcome.NothingStored? <==> x.decision.NoState?) && (v.outcome.Unchanged? <==> x.decision.NoChange?)
            && (v.outcome.Conflict? <==> x.decision.Ambiguous?)
            && (v.outcome.Failure? <==> !x.status.Ok?) && (v.outcome.Failure? ==> v.outcome.status == x.status)
  {
    hide SyncOnce, SyncEvidence, RemoteMutation, Reply, Reported;
    var x := SyncOnce(g, w, path, e).1;
    SyncNeverFailsClosed(g, w, path, e);
    SyncDecides(g, w, path, e);
    SyncActs(g, w, path, e);
    if Compared(g, w, path, e) {
      SyncStatusIs(g, w, path, e);
    } else {
      SyncStops(g, w, path, e);
      StoppedIsNotOk(g, w, path, e);
    }
    if x.putAttempted {
      PutEvidence(x, e.put);
    } else {
      NothingPut(x);
    }
  }

  lemma SyncNeverFailsClosed(g: Engine, w: World, path: Text, e: Answers)
    ensures !Classify(SyncOnce(g, w, path, e).1).outcome.FailClosed?
  {
    hide Exchange;
    if Identity(g, path).Some? {
      SyncIsSound(g, w, path, e);
    }
  }

  lemma StoppedIsNotOk(g: Engine, w: World, path: Text, e: Answers)
    requires !Compared(g, w, path, e)
    ensures !Stopped(g, w, path, e).Ok?
  {}

  lemma PutEvidence(x: SyncResult, put: Put)
    requires x.putAttempted && (x.uploaded <==> Reply(put).result.Ok?) && x.transport == Reply(put).transport
    requires !x.uploaded ==> x.status == Reported(Reply(put).result)
    ensures RemoteMutation(x) == SyncEvidence(put)
  {}

  lemma NothingPut(x: SyncResult)
    requires !x.putAttempted && !x.uploaded
    ensures RemoteMutation(x) == NoMutation
  {}

  // ----- Push and pull -----

  /** A push sends exactly if the record loads, says how far it is, can be written down, and a connection is there. */
  lemma PushActs(g: Engine, w: World, path: Text, e: Answers)
    ensures var x := PushLocal(g, w, path, e).1;
            && (x.putInvoked <==> Readable(g, w, path, e) && Local(g, w, path).Some? && Local(g, w, path).value.progress >= 0
                                  && e.conversion.Ok? && Connected(e))
            && (x.uploaded <==> x.putInvoked && Reply(e.put).result.Ok?)
            && x.remoteMutation == (if x.putInvoked then PushEvidence(e.put) else NoMutation)
  {}

  /** The status of a push names the first thing that failed. */
  lemma PushStatusIs(g: Engine, w: World, path: Text, e: Answers)
    ensures var x, local := PushLocal(g, w, path, e).1.status, Local(g, w, path);
            var known := 1 <= |path| <= 4096 && !e.documentFails;
            var ready := Readable(g, w, path, e) && local.Some? && local.value.progress >= 0;
            && (x.PushIdentityFailed? <==> !known)
            && (x.PushLocalMissing? <==> known && e.load.None? && g.hash(path) !in w.records)
            && (x.PushLocalUnsupported? <==> Readable(g, w, path, e) && local.Some? && local.value.progress < 0)
            && (x.PushTimeFailed? <==> ready && e.conversion.Ok? && !e.time.TimeOk?)
            && (x.PushDnsFailed? <==> ready && e.conversion.Ok? && e.time.TimeOk? && !(e.dns.DnsOk? && e.addresses > 0))
            && (x.PushLocalFailed? <==> known && !Readable(g, w, path, e) && !Unloaded(g, w, path, e).NoMemory?)
            && (ready && !e.conversion.Ok? ==> x == if e.conversion.NoMemory? then PushNoMemory else PushInvalid)
  {}

  /** Which course of a PUT each result stands for. */
  lemma ReplyMeans(put: Put)
    ensures var x := Reply(put);
            && (x.result.Ok? <==> put.Answered? && put.status == 200 && put.ack.Ok?)
            && (x.result.AuthFailed? <==> put.Answered? && put.status == 401)
            && (x.result.Invalid? <==> put == Unwritten(false))
            && (x.result.TransportError? <==> put.NeverSent? || put.Interrupted?)
            && (put.Answered? && put.status != 200 && put.status != 401 ==> x.result.HttpError?)
            && (put.Unwritten? && put.noMemory ==> x.result.NoMemory?)
            && (put.Unwritten? ==> x.transport.InvalidRequest?) && (put.Interrupted? ==> x.transport.AfterSend?)
  {}

  /** What a push that was sent reports. */
  lemma PushReplyIs(g: Engine, w: World, path: Text, e: Answers)
    requires PushLocal(g, w, path, e).1.putInvoked
    ensures var x, put := PushLocal(g, w, path, e).1.status, Reply(e.put).result;
            && (x.PushUploaded? <==> put.Ok?) && (x.PushAuthFailed? <==> put.AuthFailed?)
            && (x.PushHttpsFailed? <==> put.TransportError?) && (x.PushNoMemory? <==> put.NoMemory?)
            && (x.PushInvalid? <==> put.Invalid?)
            && (x.PushProtocolFailed? <==> put.HttpError? || put.BadJson? || put.BadProtocol?)
  {}

  /** A pull asks exactly if it is connected, and stores exactly what the server has and the store takes. */
  lemma PullActs(g: Engine, w: World, path: Text, e: Answers)
    ensures var x, remote := PullRemote(g, w, path, e).1, Remote(g, w, path);
            var known := 1 <= |path| <= 4096 && !e.documentFails;
            && (x.getAttempted <==> known && Connected(e))
            && (x.saveAttempted <==> x.getAttempted && e.get.None? && remote.Some?)
            && (x.saved <==> x.saveAttempted && g.storable(remote.value) && e.save.None?)
            && (x.status.PullRemoteMissing? <==> x.getAttempted && e.get.None? && remote.None?)
            && (x.status.PullLocalFailed? <==> x.saveAttempted && !x.saved)
            && (x.status.PullIdentityFailed? <==> !known)
            && (x.status.PullTimeFailed? <==> known && !e.time.TimeOk?)
            && (x.status.PullDnsFailed? <==> known && e.time.TimeOk? && !(e.dns.DnsOk? && e.addresses > 0))
            && (x.status.PullAuthFailed? <==> x.getAttempted && e.get == Some(KosyncResult.AuthFailed))
            && (x.status.PullHttpsFailed? <==> x.getAttempted && e.get == Some(KosyncResult.TransportError))
            && (x.status.PullNoMemory? <==> x.getAttempted && e.get == Some(KosyncResult.NoMemory))
            && (x.status.PullInvalid? <==>
                  (known && e.time.TimeOk? && e.dns.DnsOk? && e.addresses > 0 && !e.setTls.Ok?)
                  || (x.getAttempted && e.get == Some(KosyncResult.Invalid)))
  {}

  // ----- Manual syncs -----

  /** What a manual sync needs before it saves anything. */
  predicate Usable(c: Config, path: Text) {
    c.complete && !c.otherStore && (c.documentPath.None? || c.documentPath.value == path) && |path| <= 4096
  }

  /** The phase of a manual sync names the first thing that was in the way. */
  lemma ManualPhases(g: Engine, w: World, c: Config, e: ManualAnswers)
    ensures var x, open := ManualOnce(g, w, c, e).1, OpenBook(w.view);
            var usable := open.Some? && Usable(c, open.value);
            var captured := if usable && !e.captureFails then g.capture(open.value, w.view.page) else None;
            && (x.phase.PhaseInvalid? <==> !c.complete)
            && (x.phase.NotOpen? <==> c.complete && open.None?)
            && (x.phase.ConfigMismatch? <==>
                  c.complete && open.Some? && (c.otherStore || (c.documentPath.Some? && c.documentPath.value != open.value)))
            && (x.phase.CaptureFailed? <==> usable && captured.None?)
            && (x.phase.PreSaveFailed? <==> captured.Some? && !(g.storable(captured.value) && e.save.None?))
            && (x.controllerInvoked <==> captured.Some? && g.storable(captured.value) && e.save.None?)
            && (!x.controllerInvoked ==> ManualOnce(g, w, c, e).0 == w)
  {
    hide SyncOnce, Classify;
  }

  /** The exchange of a manual sync is that of the book with the captured position stored. */
  lemma ManualExchange(g: Engine, w: World, c: Config, e: ManualAnswers)
    requires ManualOnce(g, w, c, e).1.controllerInvoked
    ensures var path := OpenBook(w.view).value;
            var saved := w.(records := w.records[g.hash(path) := Stored(g.capture(path, w.view.page).value)]);
            var (w', x) := ManualOnce(g, w, c, e);
            var (s', y) := SyncOnce(g, saved, path, e.controller.exchange);
            if e.controller.blocked.Some? then w' == saved && x.controller.stage == e.controller.blocked.value
            else w' == s' && x.controller == Controller(Integration, y.status, y.decision, Classify(y))
  {
    hide SyncOnce, Classify, ApplyRecord;
    var path := OpenBook(w.view).value;
    var saved := w.(records := w.records[g.hash(path) := Stored(g.capture(path, w.view.page).value)]);
    PresentIsNeverImported(g, saved, path, e.controller.exchange);
  }

  /**
    * The first fault-free manual sync of a book that the server does not know uploads the captured position
    * exactly if it says how far it is.
    */
  lemma CalmSyncUploads(g: Engine, w: World, c: Config, path: Text, p: Position)
    requires OpenBook(w.view) == Some(path) && Usable(c, path)
    requires g.document(path) !in w.remote && g.capture(path, w.view.page) == Some(p) && g.storable(p)
    ensures var (w', x) := ManualOnce(g, w, c, CALM);
            && (x.controller.verdict.outcome.Uploaded? <==> p.progress >= 0)
            && w'.remote == (if p.progress >= 0 then w.remote[g.document(path) := p] else w.remote)
            && w'.records == w.records[g.hash(path) := Stored(p)] && w'.view == w.view
  {
    hide ManualOnce, SyncOnce, Classify, Reply;
    ManualPhases(g, w, c, CALM);
    ManualExchange(g, w, c, CALM);
    var saved := w.(records := w.records[g.hash(path) := Stored(p)]);
    SyncActs(g, saved, path, HEALTHY);
    EvidenceIsSharp(g, saved, path, HEALTHY);
    HealthyReplyIsOk();
    SyncIsSound(g, saved, path, HEALTHY);
    PresentIsNeverImported(g, saved, path, HEALTHY);
  }

  lemma HealthyReplyIsOk()
    ensures Reply(HEALTHY.put).result.Ok?
  {}

  // ----- Settling -----

  /** With nothing failing, choosing the local position uploads it exactly if it says how far it is. */
  lemma LocalChoiceUploads(g: Engine, w: World, c: Config, original: Result, expected: Position, path: Text,
                           e: SettleAnswers)
    requires GateOpen(g, w, c, original, expected, path, UseLocal, e) && e.controller == ControllerAnswers(None, HEALTHY)
    ensures var (w', x) := Settle(g, w, c, original, expected, path, UseLocal, e);
            && (x.push.status.PushUploaded? <==> expected.progress >= 0)
            && w' == (if expected.progress >= 0 then w.(remote := w.remote[g.document(path) := expected]) else w)
  {
    hide PushLocal, Reply;
    GateDecides(g, w, c, original, expected, path, UseLocal, e);
    PushActs(g, w, path, HEALTHY);
    HealthyReplyIsOk();
    PushIsSound(g, w, path, HEALTHY);
  }

  /** How a settlement ends, for every choice and all answers. */
  lemma SettlePhases(g: Engine, w: World, c: Config, original: Result, expected: Position, path: Text, choice: Choice,
                     e: SettleAnswers)
    ensures var (w', x) := Settle(g, w, c, original, expected, path, choice, e);
            var open := GateOpen(g, w, c, original, expected, path, choice, e);
            var considered := (choice.UseLocal? || choice.UseRemote?) && IsConflict(original) && c.complete && path != [];
            && (x.phase.ConflictInvalid? <==> !choice.Cancel? && !considered)
            && (x.phase.Stale? <==> considered && !open)
            && (x.phase.LocalComplete? <==> open && choice.UseLocal?)
            && (x.phase.RemoteComplete? <==> open && choice.UseRemote? && !x.pull.saved)
            && (x.phase.RemoteApplied? <==> open && choice.UseRemote? && x.pull.saved && e.reload.None? && Followable(g, w, path))
            && (x.redrawNeeded <==> x.phase.RemoteApplied?) && (x.mismatchPossible <==> x.phase.RemoteApplyFailed?)
            && (x.pushInvoked && e.controller.blocked.None? ==> x.push == PushLocal(g, w, path, e.controller.exchange).1)
            && (x.pullInvoked && e.controller.blocked.None? ==> x.pull == PullRemote(g, w, path, e.controller.exchange).1)
  {
    hide PushLocal, PullRemote, IsConflict;
    if Identity(g, path).Some? {
      PullIsSound(g, w, path, e.controller.exchange);
      PullActs(g, w, path, e.controller.exchange);
    }
  }

  /** The record is looked at exactly if a considered conflict is about the open book and the page is still the expected one. */
  lemma SettleChecks(g: Engine, w: World, c: Config, original: Result, expected: Position, path: Text, choice: Choice,
                     e: SettleAnswers)
    ensures var (w', x) := Settle(g, w, c, original, expected, path, choice, e);
            var same := OpenBook(w.view) == Some(path) && Usable(c, path)
                        && !e.captureFails && g.capture(path, w.view.page) == Some(expected);
            var considered := (choice.UseLocal? || choice.UseRemote?) && IsConflict(original) && c.complete && path != [];
            x.localCheck == if considered && same then Load(w, g.hash(path), e.load) else ProgressResult.Invalid
  {
    hide IsConflict, RunPush, RunPull, ApplyPersisted;
  }

  /** A record is followed exactly if a book is open and its record loads and leads to one of its pages. */
  lemma FollowsIff(g: Engine, w: World, hasStore: bool, fault: Option<ProgressFault>)
    ensures var (w', x) := ApplyPersisted(g, w, hasStore, fault);
            var open := OpenBook(w.view);
            var ready := open.Some? && hasStore && |open.value| <= 4096;
            var record := if ready && fault.None? then Local(g, w, open.value) else None;
            var page := if record.Some? then g.pageOf(open.value, record.value.location) else None;
            && (x.phase.NotOpen? <==> open.None?)
            && (x.phase.IdentityFailedPhase? <==> open.Some? && hasStore && !ready)
            && (x.phase.PhaseInvalid? <==> open.Some? && !hasStore)
            && (x.phase.ImportReloadFailed? <==> ready && record.None?)
            && (x.phase.ImportApplied? <==> page.Some? && page.value < w.view.pages)
            && (x.phase.ImportApplyFailed? <==> record.Some? && !x.phase.ImportApplied?)
            && (x.phase.ImportApplied? ==> w'.view.page == page.value)
            && (x.mismatchPossible <==> x.phase.ImportReloadFailed? || x.phase.ImportApplyFailed?)
            && (x.movementPossible <==> x.phase.ImportApplied?) && (x.redrawNeeded <==> x.phase.ImportApplied?)
  {}
}
