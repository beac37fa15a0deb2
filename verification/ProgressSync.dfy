// One exchange with the progress server: the automatic sync, the explicit push of
// the local record and the explicit pull of the remote one.
module ProgressSync {
  import opened Bytes
  import opened Wrappers
  import opened Network
  import opened ReaderState

  datatype SyncStatus =
    | Ok | Invalid | IdentityFailed | LocalFailed | LocalUnsupported | TrustedTimeFailed | DnsFailed | AuthFailed
    | HttpsFailed | ProtocolFailed | NoMemory

  datatype Decision = NoDecision | NoState | LocalSelected | RemoteSelected | NoChange | Ambiguous

  datatype SyncResult = SyncResult(
    status: SyncStatus, decision: Decision, localPresent: bool, remotePresent: bool,
    saveAttempted: bool, putAttempted: bool, saved: bool, uploaded: bool,
    time: TimeResult, dns: DnsResult, kosync: KosyncResult, transport: Transport)

  const UNSYNCED := SyncResult(SyncStatus.Invalid, NoDecision, false, false, false, false, false, false,
                               TIME_INVALID, DNS_INVALID, KosyncResult.Invalid, InvalidRequest)

  datatype Mutation = NoMutation | Confirmed | Possible

  datatype PushStatus =
    | PushInvalid | PushUploaded | PushIdentityFailed | PushLocalMissing | PushLocalFailed | PushLocalUnsupported
    | PushTimeFailed | PushDnsFailed | PushAuthFailed | PushHttpsFailed | PushProtocolFailed | PushNoMemory

  datatype PushResult = PushResult(status: PushStatus, putInvoked: bool, uploaded: bool, remoteMutation: Mutation)

  const UNPUSHED := PushResult(PushInvalid, false, false, NoMutation)

  datatype PullStatus =
    | PullInvalid | PullRemoteMissing | PullPersisted | PullIdentityFailed | PullTimeFailed | PullDnsFailed
    | PullAuthFailed | PullHttpsFailed | PullProtocolFailed | PullLocalFailed | PullNoMemory

  datatype PullResult = PullResult(status: PullStatus, getAttempted: bool, saveAttempted: bool, saved: bool)

  const UNPULLED := PullResult(PullInvalid, false, false, false)

  // ----- Answers -----

  /**
    * What the environment answers during one exchange. The server answers a GET from its records unless get
    * is a fault.
    */
  datatype Answers = Answers(
    documentFails: bool, load: Option<ProgressFault>, time: TimeResult, dns: DnsResult, addresses: nat,
    setTls: TlsSetting, get: Option<GetFault>, save: Option<ProgressFault>, conversion: Conversion, put: ReaderState.Put)

  const HEALTHY := Answers(false, None, TimeOk, DnsOk, 1, KosyncResult.Ok, None, None, KosyncResult.Ok,
                           Answered(200, true, KosyncResult.Ok))

  // ----- Specification -----

  function MapKosync(x: KosyncResult): SyncStatus {
    match x
    case AuthFailed => SyncStatus.AuthFailed
    case TransportError => HttpsFailed
    case HttpError | BadJson | BadProtocol => ProtocolFailed
    case NoMemory => SyncStatus.NoMemory
    case Ok | NotFound | Invalid => SyncStatus.Invalid
  }

  function LocalStatus(x: ProgressResult): SyncStatus {
    if x.NoMemory? then SyncStatus.NoMemory else LocalFailed
  }

  function Put(w: World, doc: Document, p: Position, put: PutReply): World {
    if put.applied then w.(remote := w.remote[doc := p]) else w
  }

  /** Gets as far as the request itself, or fails with a status. */
  function Reach(e: Answers, report: SyncResult): SyncResult {
    var timed := report.(time := e.time);
    if !e.time.TimeOk? then timed.(status := TrustedTimeFailed)
    else if !e.dns.DnsOk? then timed.(dns := e.dns, status := DnsFailed)
    else if e.addresses == 0 then timed.(dns := DNS_NO_ADDRESS, status := DnsFailed)
    else if !e.setTls.Ok? then timed.(dns := e.dns, kosync := e.setTls, status := MapKosync(e.setTls))
    else timed.(dns := e.dns, kosync := e.setTls)
  }

  /** The server has answered the GET. */
  function Fetched(w: World, doc: Document, report: SyncResult): SyncResult {
    report.(remotePresent := doc in w.remote, transport := TransportOk,
            kosync := if doc in w.remote then KosyncResult.Ok else KosyncResult.NotFound)
  }

  function SyncOnce(g: Engine, w: World, path: Text, e: Answers): (World, SyncResult) {
    var id := Identity(g, path);
    if id.None? || e.documentFails then (w, UNSYNCED.(status := IdentityFailed))
    else
      var x := Load(w, id.value, e.load);
      if !x.Ok? && !x.Missing? then (w, UNSYNCED.(status := LocalStatus(x)))
      else
        var report := UNSYNCED.(localPresent := x.Ok?);
        var reached := Reach(e, report);
        if !e.time.TimeOk? || !e.dns.DnsOk? || e.addresses == 0 || !e.setTls.Ok? then (w, reached)
        else if e.get.Some? then
          (w, reached.(status := MapKosync(e.get.value), kosync := e.get.value,
                       transport := if e.get.value.TransportError? then AfterSend else TransportOk))
        else Exchange(g, w, id.value, g.document(path), e, Fetched(w, g.document(path), reached))
  }

  /** The decision, once it is known which of the two records are present. */
  function Exchange(g: Engine, w: World, t: Token, doc: Document, e: Answers, report: SyncResult): (World, SyncResult)
    requires report.localPresent ==> t in w.records && w.records[t].Stored?
    requires report.remotePresent ==> doc in w.remote
  {
    if !report.localPresent && !report.remotePresent then (w, report.(status := SyncStatus.Ok, decision := NoState))
    else if !report.localPresent then
      var (w', x) := Save(g, w, t, w.remote[doc], e.save);
      var report := report.(decision := RemoteSelected, saveAttempted := true);
      if !x.Ok? then (w', report.(status := LocalStatus(x)))
      else (w', report.(status := SyncStatus.Ok, saved := true))
    else if !report.remotePresent then Upload(w, w.records[t].position, doc, e, report.(decision := LocalSelected))
    else
      var same := w.records[t].position.location == w.remote[doc].location;
      (w, report.(status := SyncStatus.Ok, decision := if same then NoChange else Ambiguous))
  }

  function Upload(w: World, p: Position, doc: Document, e: Answers, report: SyncResult): (World, SyncResult) {
    if p.progress < 0 then (w, report.(status := LocalUnsupported))
    else if !e.conversion.Ok? then (w, report.(kosync := e.conversion, status := MapKosync(e.conversion)))
    else
      var put := Reply(e.put);
      var w := Put(w, doc, p, put);
      var report := report.(putAttempted := true, kosync := put.result, transport := put.transport);
      if !put.result.Ok? then (w, report.(status := MapKosync(put.result)))
      else (w, report.(status := SyncStatus.Ok, uploaded := true))
  }

  function PushLocal(g: Engine, w: World, path: Text, e: Answers): (World, PushResult) {
    var id := Identity(g, path);
    if id.None? || e.documentFails then (w, UNPUSHED.(status := PushIdentityFailed))
    else
      var x := Load(w, id.value, e.load);
      if !x.Ok? then
        (w, UNPUSHED.(status := if x.Missing? then PushLocalMissing else if x.NoMemory? then PushNoMemory else PushLocalFailed))
      else if w.records[id.value].position.progress < 0 then (w, UNPUSHED.(status := PushLocalUnsupported))
      else if !e.conversion.Ok? then
        (w, UNPUSHED.(status := if e.conversion.NoMemory? then PushNoMemory else PushInvalid))
      else if !e.time.TimeOk? then (w, UNPUSHED.(status := PushTimeFailed))
      else if !e.dns.DnsOk? || e.addresses == 0 then (w, UNPUSHED.(status := PushDnsFailed))
      else if !e.setTls.Ok? then (w, UNPUSHED)
      else (Put(w, g.document(path), w.records[id.value].position, Reply(e.put)), PushOutcome(Reply(e.put)))
  }

  function PushOutcome(put: PutReply): PushResult {
    if put.result.Ok? then PushResult(PushUploaded, true, true, Confirmed)
    else
      PushResult(match put.result
                 case AuthFailed => PushAuthFailed
                 case TransportError => PushHttpsFailed
                 case NoMemory => PushNoMemory
                 case Invalid => PushInvalid
                 case _ => PushProtocolFailed,
                 true, false,
                 if put.result.TransportError? && put.transport.BeforeSend? then NoMutation else Possible)
  }

  function PullRemote(g: Engine, w: World, path: Text, e: Answers): (World, PullResult) {
    var id := Identity(g, path);
    if id.None? || e.documentFails then (w, UNPULLED.(status := PullIdentityFailed))
    else if !e.time.TimeOk? then (w, UNPULLED.(status := PullTimeFailed))
    else if !e.dns.DnsOk? || e.addresses == 0 then (w, UNPULLED.(status := PullDnsFailed))
    else if !e.setTls.Ok? then (w, UNPULLED)
    else
      var report := UNPULLED.(getAttempted := true);
      if e.get.Some? then
        (w, report.(status := match e.get.value
                              case AuthFailed => PullAuthFailed
                              case TransportError => PullHttpsFailed
                              case NoMemory => PullNoMemory
                              case Invalid => PullInvalid
                              case _ => PullProtocolFailed))
      else if g.document(path) !in w.remote then (w, report.(status := PullRemoteMissing))
      else
        var (w', x) := Save(g, w, id.value, w.remote[g.document(path)], e.save);
        (w', report.(saveAttempted := true, saved := x.Ok?, status := if x.Ok? then PullPersisted else PullLocalFailed))
  }

  // ----- Policy -----

  datatype Product = Unchanged | Uploaded | Imported | NothingStored | Conflict | FailClosed | Failure(status: SyncStatus)

  datatype Verdict = Verdict(outcome: Product, localMutation: Mutation, remoteMutation: Mutation)

  function RemoteMutation(x: SyncResult): Mutation {
    if x.uploaded then Confirmed
    else if !x.putAttempted then NoMutation
    else if x.status.AuthFailed? || x.status.Invalid? then NoMutation
    else if x.status.HttpsFailed? && !x.transport.TransportOk? && !x.transport.AfterSend? then NoMutation
    else Possible
  }

  predicate SuccessInvariants(x: SyncResult) {
    match x.decision
    case NoState => !x.localPresent && !x.remotePresent && !x.saveAttempted && !x.putAttempted && !x.saved && !x.uploaded
    case LocalSelected => x.localPresent && !x.remotePresent && !x.saveAttempted && x.putAttempted && !x.saved && x.uploaded
    case RemoteSelected => !x.localPresent && x.remotePresent && x.saveAttempted && !x.putAttempted && x.saved && !x.uploaded
    case NoChange | Ambiguous =>
      x.localPresent && x.remotePresent && !x.saveAttempted && !x.putAttempted && !x.saved && !x.uploaded
    case NoDecision => false
  }

  /** A failure of one kind comes with the error of that kind. */
  predicate FailureInvariants(x: SyncResult) {
    match x.status
    case TrustedTimeFailed => !x.time.TimeOk?
    case DnsFailed => !x.dns.DnsOk?
    case HttpsFailed => !x.transport.TransportOk?
    case ProtocolFailed => x.kosync.HttpError? || x.kosync.BadJson? || x.kosync.BadProtocol?
    case _ => true
  }

  /** A result that contradicts itself is not trusted. */
  function Classify(x: SyncResult): Verdict {
    if (x.saved && !x.saveAttempted) || (x.uploaded && !x.putAttempted) || (!x.status.Ok? && (x.saved || x.uploaded))
       || (x.status.Ok? && !SuccessInvariants(x)) || !FailureInvariants(x)
    then Verdict(FailClosed, NoMutation, NoMutation)
    else
      Verdict(if !x.status.Ok? then Failure(x.status) else
                match x.decision
                case NoState => NothingStored
                case LocalSelected => Uploaded
                case RemoteSelected => Imported
                case NoChange => Unchanged
                case Ambiguous => Conflict
                case NoDecision => FailClosed,
              if x.saved then Confirmed else if x.saveAttempted then Possible else NoMutation,
              RemoteMutation(x))
  }

  // ----- What an exchange may change -----

  /** Only the record of t and the server's record of doc may differ. */
  ghost predicate OnlyTouches(w: World, w': World, t: Token, doc: Document) {
    && w'.view == w.view
    && w'.records - {t} == w.records - {t}
    && w'.remote - {doc} == w.remote - {doc}
  }

  /** Evidence about the remote record holds: none means untouched, confirmed means it is the local one. */
  ghost predicate RemoteEvidence(m: Mutation, w: World, w': World, t: Token, doc: Document) {
    && (m.NoMutation? ==> w'.remote == w.remote)
    && (m.Confirmed? ==> t in w.records && w.records[t].Stored? && w'.remote == w.remote[doc := w.records[t].position])
    && (w'.remote != w.remote ==> t in w.records && w.records[t].Stored? && w'.remote == w.remote[doc := w.records[t].position])
  }

  ghost predicate LocalEvidence(m: Mutation, w: World, w': World, t: Token, doc: Document) {
    && (!m.Confirmed? ==> w'.records == w.records)
    && (m.Confirmed? ==> doc in w.remote && w'.records == w.records[t := Stored(w.remote[doc])])
  }

  /** The policy does not fail closed, and its evidence about both records holds. */
  ghost predicate Sound(w: World, w': World, x: SyncResult, t: Token, doc: Document) {
    var v := Classify(x);
    && !v.outcome.FailClosed? && OnlyTouches(w, w', t, doc)
    && RemoteEvidence(v.remoteMutation, w, w', t, doc) && LocalEvidence(v.localMutation, w, w', t, doc)
    && (v.localMutation.Confirmed? <==> v.outcome.Imported?) && (v.remoteMutation.Confirmed? <==> v.outcome.Uploaded?)
  }

  lemma ExchangeIsSound(g: Engine, w: World, t: Token, doc: Document, e: Answers, report: SyncResult)
    requires report.localPresent <==> t in w.records
    requires t in w.records ==> w.records[t].Stored?
    requires report.remotePresent <==> doc in w.remote
    requires !report.saveAttempted && !report.saved && !report.putAttempted && !report.uploaded
    ensures var (w', x) := Exchange(g, w, t, doc, e, report); Sound(w, w', x, t, doc)
  {}

  lemma SyncIsSound(g: Engine, w: World, path: Text, e: Answers)
    requires Identity(g, path).Some?
    ensures var (w', x) := SyncOnce(g, w, path, e); Sound(w, w', x, Identity(g, path).value, g.document(path))
  {
    hide Exchange;
    var t := Identity(g, path).value;
    var x := Load(w, t, e.load);
    if x.Ok? || x.Missing? {
      ExchangeIsSound(g, w, t, g.document(path), e,
                      Fetched(w, g.document(path), Reach(e, UNSYNCED.(localPresent := x.Ok?))));
    }
  }

  /** A push changes at most the server's record, to the local one, and says so truthfully. */
  lemma PushIsSound(g: Engine, w: World, path: Text, e: Answers)
    requires Identity(g, path).Some?
    ensures var (w', x) := PushLocal(g, w, path, e);
            var t, doc := Identity(g, path).value, g.document(path);
            && OnlyTouches(w, w', t, doc) && w'.records == w.records && RemoteEvidence(x.remoteMutation, w, w', t, doc)
            && (x.uploaded <==> x.remoteMutation.Confirmed?) && (x.uploaded <==> x.status.PushUploaded?)
  {}

  /** A pull changes at most the local record, to the server's one, and exactly when it says so. */
  lemma PullIsSound(g: Engine, w: World, path: Text, e: Answers)
    requires Identity(g, path).Some?
    ensures var (w', x) := PullRemote(g, w, path, e);
            var t, doc := Identity(g, path).value, g.document(path);
            && OnlyTouches(w, w', t, doc) && w'.remote == w.remote
            && LocalEvidence(if x.saved then Confirmed else NoMutation, w, w', t, doc) && (x.saved <==> x.status.PullPersisted?)
  {}
}
