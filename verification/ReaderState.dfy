// The three copies of a reading position: the open Reader, the local record of
// each book, and the server's record of each document.
module ReaderState {
  import opened Bytes
  import opened Wrappers
  import opened Network
  import BookIdentity

  // ----- Results -----

  datatype ProgressResult = Ok | Missing | Corrupt | Unsupported | IoError | Invalid | NoMemory

  type ProgressFault = x: ProgressResult | !x.Ok? && !x.Missing? witness ProgressResult.IoError

  type GetFault = x: KosyncResult | !x.Ok? && !x.NotFound? witness KosyncResult.TransportError

  /** Where a transport failed: before any request byte was sent, or perhaps after. */
  datatype Transport = TransportOk | BeforeSend | InvalidRequest | TlsInternal | AfterSend

  /** What setting up TLS, filling in a request and reading an acknowledgement can report. */
  type TlsSetting = x: KosyncResult | x.Ok? || x.Invalid? witness KosyncResult.Ok
  type Conversion = x: KosyncResult | x.Ok? || x.Invalid? || x.NoMemory? witness KosyncResult.Ok
  type Acknowledgement = x: KosyncResult | x.Ok? || x.BadJson? || x.BadProtocol? || x.NoMemory? witness KosyncResult.Ok

  type Unopened = x: Transport | !x.TransportOk? witness BeforeSend

  /**
    * How far a PUT gets: it cannot be written, no connection is opened for it, sending or receiving breaks
    * off, or there is a response. The server may have stored the record once a connection is open.
    */
  datatype PutCourse =
    | Unwritten(noMemory: bool)
    | NeverSent(transport: Unopened)
    | Interrupted(stored: bool)
    | Answered(status: nat, stored: bool, ack: Acknowledgement)

  /** All that is assumed of the server: it stores nothing it refuses, and has stored what it acknowledges. */
  type Put = x: PutCourse |
    x.Answered? ==> (x.status == 401 ==> !x.stored) && (x.status == 200 && x.ack.Ok? ==> x.stored)
    witness Unwritten(false)

  datatype PutReply = PutReply(result: KosyncResult, transport: Transport, applied: bool)

  /** What a PUT reports, and what that says about the server's record. */
  function Reply(put: Put): (x: PutReply)
    ensures !x.result.NotFound? && (x.result.TransportError? <==> !x.transport.TransportOk? && !put.Unwritten?)
    ensures x.result.Ok? ==> x.applied
    ensures x.result.AuthFailed? || x.result.Invalid? ==> !x.applied
    ensures x.result.TransportError? && !x.transport.AfterSend? ==> !x.applied
  {
    match put
    case Unwritten(noMemory) =>
      PutReply(if noMemory then KosyncResult.NoMemory else KosyncResult.Invalid, InvalidRequest, false)
    case NeverSent(transport) => PutReply(KosyncResult.TransportError, transport, false)
    case Interrupted(stored) => PutReply(KosyncResult.TransportError, AfterSend, stored)
    case Answered(status, stored, ack) =>
      PutReply(if status == 401 then KosyncResult.AuthFailed else if status != 200 then HttpError else ack, TransportOk, stored)
  }

  // ----- The rendering engine -----

  /** A place in a book and how far through it is, in ten-thousandths; -1 if unknown. */
  datatype Position = Position(location: Text, progress: int)

  type Token = Text
  type Document = Text

  /**
    * What depends on the book files and on the rendering engine: the token of a path (any
    * function, such as BookIdentity.Token), the document identity of its file, the page a location
    * is on, the position captured on a page, and whether a position is well formed enough to be stored.
    */
  datatype Engine = Engine(hash: Text -> Token, document: Text -> Document, pageOf: (Text, Text) -> Option<nat>,
                           capture: (Text, nat) -> Option<Position>, storable: Position -> bool)

  /** The position captured on a page is on that page. */
  ghost predicate Faithful(g: Engine) {
    forall path, page: nat | g.capture(path, page).Some? :: g.pageOf(path, g.capture(path, page).value.location) == Some(page)
  }

  function Identity(g: Engine, path: Text): Option<Token> {
    if 1 <= |path| <= BookIdentity.PATH_MAX then Some(g.hash(path)) else None
  }

  // ----- The state -----

  datatype Book = Book(path: Text, epub: bool)

  /** The Reader screen: whether it is shown, the selected book, its number of pages and the current one. */
  datatype View = View(reading: bool, pages: nat, book: Option<Book>, page: nat)

  datatype Record = Stored(position: Position) | Unloadable(result: ProgressFault)

  datatype World = World(view: View, records: map<Token, Record>, remote: map<Document, Position>)

  function Load(w: World, t: Token, fault: Option<ProgressFault>): (x: ProgressResult)
    ensures x.Ok? ==> t in w.records && w.records[t].Stored?
  {
    if fault.Some? then fault.value
    else if t !in w.records then ProgressResult.Missing
    else if w.records[t].Unloadable? then w.records[t].result
    else ProgressResult.Ok
  }

  /** An atomic save: it replaces the record or leaves it alone. */
  function Save(g: Engine, w: World, t: Token, p: Position, fault: Option<ProgressFault>): (World, ProgressResult) {
    if !g.storable(p) then (w, ProgressResult.Invalid)
    else if fault.Some? then (w, fault.value)
    else (w.(records := w.records[t := Stored(p)]), ProgressResult.Ok)
  }

  /** The open EPUB, if there is one. */
  function OpenBook(v: View): Option<Text> {
    if v.reading && v.pages >= 1 && v.book.Some? && v.book.value.epub && v.book.value.path != []
    then Some(v.book.value.path) else None
  }

  function Capture(g: Engine, v: View, fails: bool): Option<Position> {
    if fails || v.book.None? then None else g.capture(v.book.value.path, v.page)
  }

  /** The page a position leads to in the open book, or None if the Reader rejects it. */
  function Destination(g: Engine, v: View, p: Position): Option<nat> {
    if v.book.None? then None else
      var page := g.pageOf(v.book.value.path, p.location);
      if page.Some? && page.value < v.pages then page else None
  }
}
