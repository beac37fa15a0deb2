// Whole sessions: syncs, settled conflicts, page turns, book changes, saves and writes
// of other devices, in any order.
module ReaderRuns {
  import opened Bytes
  import opened Wrappers
  import opened ReaderState
  import opened ProgressSync
  import opened ReaderSync
  import opened ReaderAgreement

  datatype Op =
    | SyncOp(config: Config, manual: ManualAnswers)
    | SettleOp(config: Config, original: Result, expected: Position, path: Text, choice: Choice, settle: SettleAnswers)
    | FollowOp(hasStore: bool, reload: Option<ProgressFault>)
    | ShowOp(view: View)
    | SaveOp(captureFails: bool, save: Option<ProgressFault>)
    | ForeignOp(document: Document, position: Position)

  /** Saving the place in the open book; showing another page or book; another device writing to the server. */
  function Step(g: Engine, w: World, op: Op): World {
    match op
    case SyncOp(c, e) => ManualOnce(g, w, c, e).0
    case SettleOp(c, original, expected, path, choice, e) => Settle(g, w, c, original, expected, path, choice, e).0
    case FollowOp(hasStore, fault) => ApplyPersisted(g, w, hasStore, fault).0
    case ShowOp(v) => w.(view := v)
    case SaveOp(fails, fault) =>
      var path, captured := OpenBook(w.view), Capture(g, w.view, fails);
      if path.None? || captured.None? || Identity(g, path.value).None? then w
      else Save(g, w, Identity(g, path.value).value, captured.value, fault).0
    case ForeignOp(doc, p) => w.(remote := w.remote[doc := p])
  }

  function Run(g: Engine, w: World, ops: seq<Op>): World
    decreases |ops|
  {
    if ops == [] then w else Run(g, Step(g, w, ops[0]), ops[1..])
  }

  // ----- No position is invented -----

  /** Known from elsewhere, or captured on a page of some book. */
  ghost predicate Sourced(g: Engine, p: Position, known: set<Position>) {
    p in known || exists path, page: nat :: g.capture(path, page) == Some(p)
  }

  ghost predicate AllSourced(g: Engine, w: World, known: set<Position>) {
    && (forall t | t in w.records && w.records[t].Stored? :: Sourced(g, w.records[t].position, known))
    && (forall doc | doc in w.remote :: Sourced(g, w.remote[doc], known))
  }

  function Foreign(ops: seq<Op>): set<Position> {
    if ops == [] then {} else (if ops[0].ForeignOp? then {ops[0].position} else {}) + Foreign(ops[1..])
  }

  lemma CapturedIsSourced(g: Engine, v: View, fails: bool, known: set<Position>)
    requires Capture(g, v, fails).Some?
    ensures Sourced(g, Capture(g, v, fails).value, known)
  {
    assert g.capture(v.book.value.path, v.page) == Some(Capture(g, v, fails).value);
  }

  lemma SettlingIsSourced(g: Engine, w: World, c: Config, original: Result, expected: Position, path: Text,
                          choice: Choice,
                          e: SettleAnswers, known: set<Position>)
    requires AllSourced(g, w, known)
    ensures AllSourced(g, Settle(g, w, c, original, expected, path, choice, e).0, known)
  {
    hide Sourced;
    GateDecides(g, w, c, original, expected, path, choice, e);
    if GateOpen(g, w, c, original, expected, path, choice, e) {
      hide PushLocal, PullRemote;
      PushIsSound(g, w, path, e.controller.exchange);
      PullIsSound(g, w, path, e.controller.exchange);
    }
  }

  lemma SyncingIsSourced(g: Engine, w: World, c: Config, e: ManualAnswers, known: set<Position>)
    requires AllSourced(g, w, known)
    ensures AllSourced(g, ManualOnce(g, w, c, e).0, known)
  {
    hide Sourced, SyncOnce, Classify;
    var path := OpenBook(w.view);
    if path.Some? && Identity(g, path.value).Some? && Capture(g, w.view, e.captureFails).Some? {
      CapturedIsSourced(g, w.view, e.captureFails, known);
      var (w', x) := Save(g, w, Identity(g, path.value).value, Capture(g, w.view, e.captureFails).value, e.save);
      if x.Ok? {
        PresentIsNeverImported(g, w', path.value, e.controller.exchange);
        SyncIsSound(g, w', path.value, e.controller.exchange);
      }
    }
  }

  lemma StepIsSourced(g: Engine, w: World, op: Op, known: set<Position>)
    requires AllSourced(g, w, known)
    ensures AllSourced(g, Step(g, w, op), known + Foreign([op]))
  {
    hide Settle, ManualOnce, Sourced;
    KnowingMore(g, w, known, known + Foreign([op]));
    match op
    case SyncOp(c, e) => SyncingIsSourced(g, w, c, e, known + Foreign([op]));
    case SettleOp(c, original, expected, path, choice, e) =>
      SettlingIsSourced(g, w, c, original, expected, path, choice, e, known + Foreign([op]));
    case FollowOp(_, _) =>
    case ShowOp(_) =>
    case SaveOp(fails, _) =>
      if Capture(g, w.view, fails).Some? {
        CapturedIsSourced(g, w.view, fails, known + Foreign([op]));
      }
    case ForeignOp(_, p) => KnownIsSourced(g, p, known + Foreign([op]));
  }

  lemma KnownIsSourced(g: Engine, p: Position, known: set<Position>)
    requires p in known
    ensures Sourced(g, p, known)
  {}

  lemma KnowingMore(g: Engine, w: World, known: set<Position>, more: set<Position>)
    requires AllSourced(g, w, known) && known <= more
    ensures AllSourced(g, w, more)
  {}

  /**
    * Over any session every stored and every remote position was there before, written by another device, or
    * captured on a page.
    */
  lemma {:induction false} NothingIsInvented(g: Engine, w: World, ops: seq<Op>, known: set<Position>)
    requires AllSourced(g, w, known)
    ensures AllSourced(g, Run(g, w, ops), known + Foreign(ops))
    decreases |ops|
  {
    if ops == [] {
      assert known + Foreign(ops) == known;
    } else {
      StepIsSourced(g, w, ops[0], known);
      assert Foreign([ops[0]]) == if ops[0].ForeignOp? then {ops[0].position} else {};
      NothingIsInvented(g, Step(g, w, ops[0]), ops[1..], known + Foreign([ops[0]]));
      assert known + Foreign([ops[0]]) + Foreign(ops[1..]) == known + Foreign(ops);
    }
  }

  // ----- Other books -----

  /** No book with identity t is open at the start of any step. */
  ghost predicate NeverOpen(g: Engine, w: World, ops: seq<Op>, t: Token)
    decreases |ops|
  {
    ops == [] ||
    (!(OpenBook(w.view).Some? && Identity(g, OpenBook(w.view).value) == Some(t)) && NeverOpen(g, Step(g, w, ops[0]), ops[1..], t))
  }

  lemma StepTouchesOpenBook(g: Engine, w: World, op: Op)
    ensures var w' := Step(g, w, op);
            && (forall t | !(OpenBook(w.view).Some? && Identity(g, OpenBook(w.view).value) == Some(t)) ::
                  (t in w'.records <==> t in w.records) && (t in w.records ==> w'.records[t] == w.records[t]))
            && (forall doc | !(OpenBook(w.view).Some? && g.document(OpenBook(w.view).value) == doc)
                             && !(op.ForeignOp? && op.document == doc) ::
                  (doc in w'.remote <==> doc in w.remote) && (doc in w.remote ==> w'.remote[doc] == w.remote[doc]))
  {
    hide Settle, ManualOnce;
    match op
    case SyncOp(c, e) =>
      ManualSyncOnlyTouchesOpenBook(g, w, c, e);
      SubtractingKeeps(g, w, Step(g, w, op));
    case SettleOp(c, original, expected, path, choice, e) =>
      SettlingOnlyTouchesOpenBook(g, w, c, original, expected, path, choice, e);
      SubtractingKeeps(g, w, Step(g, w, op));
    case _ =>
  }

  lemma SubtractingKeeps(g: Engine, w: World, w': World)
    requires OnlyOpenBook(g, w, w')
    ensures forall t | !(OpenBook(w.view).Some? && Identity(g, OpenBook(w.view).value) == Some(t)) ::
              (t in w'.records <==> t in w.records) && (t in w.records ==> w'.records[t] == w.records[t])
    ensures forall doc | !(OpenBook(w.view).Some? && g.document(OpenBook(w.view).value) == doc) ::
              (doc in w'.remote <==> doc in w.remote) && (doc in w.remote ==> w'.remote[doc] == w.remote[doc])
  {
    if OpenBook(w.view).Some? && Identity(g, OpenBook(w.view).value).Some? {
      var open, doc := Identity(g, OpenBook(w.view).value).value, g.document(OpenBook(w.view).value);
      KeepsOthers(w.records, w'.records, open);
      KeepsOthers(w.remote, w'.remote, doc);
    }
  }

  lemma KeepsOthers<K, V>(m: map<K, V>, m': map<K, V>, k: K)
    requires m' - {k} == m - {k}
    ensures forall x | x != k :: (x in m' <==> x in m) && (x in m ==> m'[x] == m[x])
  {
    forall x | x != k ensures (x in m' <==> x in m) && (x in m ==> m'[x] == m[x]) {
      assert x in m' <==> x in m' - {k};
      assert x in m <==> x in m - {k};
      if x in m {
        assert (m - {k})[x] == (m' - {k})[x];
      }
    }
  }

  /** The record of a book that is never open does not change, whatever the session does. */
  lemma {:induction false} OtherBooksAreSafe(g: Engine, w: World, ops: seq<Op>, t: Token)
    requires NeverOpen(g, w, ops, t)
    ensures var w' := Run(g, w, ops);
            (t in w'.records <==> t in w.records) && (t in w.records ==> w'.records[t] == w.records[t])
    decreases |ops|
  {
    hide Step;
    if ops != [] {
      StepTouchesOpenBook(g, w, ops[0]);
      OtherBooksAreSafe(g, Step(g, w, ops[0]), ops[1..], t);
    }
  }

  // ----- A settled place stays settled -----

  /** The server holds the location of the page the Reader is on. */
  ghost predicate InStep(g: Engine, w: World, path: Text) {
    && OpenBook(w.view) == Some(path) && g.document(path) in w.remote
    && g.capture(path, w.view.page).Some?
    && g.capture(path, w.view.page).value.location == w.remote[g.document(path)].location
  }

  /** Syncs and saves on the spot, and what other devices write for other documents. */
  predicate OnTheSpot(g: Engine, op: Op, path: Text) {
    op.SyncOp? || op.SaveOp? || (op.ForeignOp? && op.document != g.document(path))
  }

  lemma SyncStaysInStep(g: Engine, w: World, path: Text, c: Config, e: ManualAnswers)
    requires InStep(g, w, path)
    ensures InStep(g, ManualOnce(g, w, c, e).0, path) && !IsConflict(ManualOnce(g, w, c, e).1)
  {}

  /**
    * Once the server holds the place the Reader is on, syncing there never conflicts again, whatever fails
    * in between.
    */
  lemma {:induction false} SettledStaysSettled(g: Engine, w: World, path: Text, ops: seq<Op>, c: Config,
                                               e: ManualAnswers)
    requires InStep(g, w, path) && forall i | 0 <= i < |ops| :: OnTheSpot(g, ops[i], path)
    ensures !IsConflict(ManualOnce(g, Run(g, w, ops), c, e).1)
    decreases |ops|
  {
    hide ManualOnce, Settle, IsConflict;
    if ops == [] {
      SyncStaysInStep(g, w, path, c, e);
    } else {
      assert OnTheSpot(g, ops[0], path);
      if ops[0].SyncOp? {
        SyncStaysInStep(g, w, path, ops[0].config, ops[0].manual);
      }
      SettledStaysSettled(g, Step(g, w, ops[0]), path, ops[1..], c, e);
    }
  }

  /** A confirmed local choice puts Reader and server in step. */
  lemma LocalChoiceIsInStep(g: Engine, w: World, c: Config, original: Result, expected: Position, path: Text,
                            choice: Choice,
                            e: SettleAnswers)
    ensures var (w', x) := Settle(g, w, c, original, expected, path, choice, e);
            x.push.remoteMutation.Confirmed? ==> InStep(g, w', path)
  {
    hide Settle;
    GateDecides(g, w, c, original, expected, path, choice, e);
    LocalChoiceReachesServer(g, w, c, original, expected, path, choice, e);
    LocalCompleteWasPushed(g, w, c, original, expected, path, choice, e);
  }
}
