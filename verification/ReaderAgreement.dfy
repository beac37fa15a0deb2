// The Reader, the local records and the server's records after manual syncs and
// settled conflicts, whatever happens in between.
module ReaderAgreement {
  import opened Bytes
  import opened Wrappers
  import opened Network
  import opened ReaderState
  import opened ProgressSync
  import opened ReaderSync

  /** Going to the stored record of the open book lands on the current page. */
  ghost predicate Agrees(g: Engine, w: World) {
    && OpenBook(w.view).Some? && Identity(g, OpenBook(w.view).value).Some?
    && var t := Identity(g, OpenBook(w.view).value).value;
       t in w.records && w.records[t].Stored?
       && g.pageOf(OpenBook(w.view).value, w.records[t].position.location) == Some(w.view.page)
  }

  // ----- Manual sync -----

  /** After a successful pre-save the record is present, so no exchange imports. */
  lemma PresentIsNeverImported(g: Engine, w: World, path: Text, e: Answers)
    requires Identity(g, path).Some? && Identity(g, path).value in w.records && w.records[Identity(g, path).value].Stored?
    ensures var (w', x) := SyncOnce(g, w, path, e);
            !Classify(x).outcome.Imported? && w'.records == w.records && w'.view == w.view
  {
    hide Exchange;
    SyncIsSound(g, w, path, e);
    var t := Identity(g, path).value;
    var report := Fetched(w, g.document(path), Reach(e, UNSYNCED.(localPresent := true)));
    if Load(w, t, e.load).Ok? {
      BothOrLocal(g, w, t, g.document(path), e, report);
    }
  }

  lemma BothOrLocal(g: Engine, w: World, t: Token, doc: Document, e: Answers, report: SyncResult)
    requires t in w.records && w.records[t].Stored? && (report.remotePresent <==> doc in w.remote)
    requires report.localPresent && !report.saveAttempted && !report.saved
    ensures var (w', x) := Exchange(g, w, t, doc, e, report);
            !x.saved && !x.decision.RemoteSelected? && w'.records == w.records && w'.view == w.view
  {}

  /**
    * A manual sync that reached the controller leaves the Reader and the disk in agreement without
    * moving the Reader: its record is the captured position, whatever the exchange did.
    */
  lemma ManualSyncAgrees(g: Engine, w: World, c: Config, e: ManualAnswers)
    requires Faithful(g)
    ensures var (w', x) := ManualOnce(g, w, c, e);
            x.controllerInvoked ==>
              && Agrees(g, w') && w'.view == w.view && !x.mismatchPossible && !x.movementPossible
              && x.phase.ControllerComplete?
              && var path := OpenBook(w.view).value;
                 w'.records == w.records[Identity(g, path).value := Stored(g.capture(path, w.view.page).value)]
  {
    hide SyncOnce, Classify, ApplyRecord;
    var path := OpenBook(w.view);
    if path.Some? && Identity(g, path.value).Some? && Capture(g, w.view, e.captureFails).Some? {
      var (w', x) := Save(g, w, Identity(g, path.value).value, Capture(g, w.view, e.captureFails).value, e.save);
      if x.Ok? {
        PresentIsNeverImported(g, w', path.value, e.controller.exchange);
      }
    }
  }

  /** What a call may change: the open book's record, the server's record of its document, and the page. */
  ghost predicate OnlyOpenBook(g: Engine, w: World, w': World) {
    && w'.view == w.view.(page := w'.view.page)
    && (if OpenBook(w.view).None? || Identity(g, OpenBook(w.view).value).None? then w' == w else
          var path := OpenBook(w.view).value;
          && w'.records - {Identity(g, path).value} == w.records - {Identity(g, path).value}
          && w'.remote - {g.document(path)} == w.remote - {g.document(path)})
  }

  /** What reaches the server is the record of the open book as it is stored afterwards. */
  ghost predicate UploadsStored(g: Engine, w: World, w': World) {
    w'.remote != w.remote ==>
      && OpenBook(w.view).Some? && Identity(g, OpenBook(w.view).value).Some?
      && var t, doc := Identity(g, OpenBook(w.view).value).value, g.document(OpenBook(w.view).value);
         t in w'.records && w'.records[t].Stored? && w'.remote == w.remote[doc := w'.records[t].position]
  }

  lemma ManualSyncOnlyTouchesOpenBook(g: Engine, w: World, c: Config, e: ManualAnswers)
    ensures OnlyOpenBook(g, w, ManualOnce(g, w, c, e).0) && UploadsStored(g, w, ManualOnce(g, w, c, e).0)
  {
    hide SyncOnce, Classify, ApplyRecord;
    var path := OpenBook(w.view);
    if path.Some? && Identity(g, path.value).Some? && Capture(g, w.view, e.captureFails).Some? {
      var (w', x) := Save(g, w, Identity(g, path.value).value, Capture(g, w.view, e.captureFails).value, e.save);
      if x.Ok? {
        PresentIsNeverImported(g, w', path.value, e.controller.exchange);
        SyncIsSound(g, w', path.value, e.controller.exchange);
      }
    }
  }

  // ----- Conflicts -----

  /** A manual sync reports a conflict exactly when the server holds another location than the one just saved. */
  lemma ConflictMeansDifferent(g: Engine, w: World, c: Config, e: ManualAnswers)
    ensures var (w', x) := ManualOnce(g, w, c, e);
            IsConflict(x) ==>
              var path := OpenBook(w.view).value;
              && g.document(path) in w.remote && w'.remote == w.remote
              && w.remote[g.document(path)].location != g.capture(path, w.view.page).value.location
  {
  }

  /** When a choice may act: nothing the user saw has changed. */
  ghost predicate GateOpen(g: Engine, w: World, c: Config, original: Result, expected: Position, expectedPath: Text,
                           choice: Choice,
                           e: SettleAnswers)
  {
    && (choice.UseLocal? || choice.UseRemote?) && IsConflict(original) && c.complete && !Mismatch(c, expectedPath)
    && OpenBook(w.view) == Some(expectedPath) && Identity(g, expectedPath).Some?
    && !e.captureFails && g.capture(expectedPath, w.view.page) == Some(expected)
    && e.load.None? && Identity(g, expectedPath).value in w.records
    && w.records[Identity(g, expectedPath).value] == Stored(expected)
  }

  /**
    * Whatever happened since the conflict, push runs or pull runs exactly when the gate is open, and never
    * both; otherwise nothing changes.
    */
  lemma GateDecides(g: Engine, w: World, c: Config, original: Result, expected: Position, expectedPath: Text,
                    choice: Choice,
                    e: SettleAnswers)
    ensures var (w', x) := Settle(g, w, c, original, expected, expectedPath, choice, e);
            var open := GateOpen(g, w, c, original, expected, expectedPath, choice, e);
            && (x.pushInvoked <==> open && choice.UseLocal?) && (x.pullInvoked <==> open && choice.UseRemote?)
            && (!open ==> w' == w) && (choice.Cancel? <==> x.phase.Cancelled?)
  {
    hide RunPush, RunPull, ApplyPersisted;
  }

  /** Following a record moves the Reader at most, and lands on the record when it says so. */
  lemma FollowingLands(g: Engine, w: World, hasStore: bool, fault: Option<ProgressFault>)
    ensures var (w', x) := ApplyPersisted(g, w, hasStore, fault);
            && w' == w.(view := w.view.(page := w'.view.page)) && (x.phase.ImportApplied? ==> Agrees(g, w'))
            && (!x.phase.ImportApplied? ==> w' == w)
  {}

  /** After a choice that acted, Reader and disk agree unless the result says they may not. */
  lemma SettlingAgrees(g: Engine, w: World, c: Config, original: Result, expected: Position, expectedPath: Text,
                       choice: Choice,
                       e: SettleAnswers)
    requires Faithful(g)
    ensures var (w', x) := Settle(g, w, c, original, expected, expectedPath, choice, e);
            && (x.pushInvoked || x.pullInvoked ==> Agrees(g, w') || x.mismatchPossible)
            && (x.mismatchPossible ==> x.pull.saved && w'.view == w.view)
  {
    GateDecides(g, w, c, original, expected, expectedPath, choice, e);
    if GateOpen(g, w, c, original, expected, expectedPath, choice, e) {
      hide PushLocal, PullRemote, ApplyPersisted;
      PushIsSound(g, w, expectedPath, e.controller.exchange);
      PullIsSound(g, w, expectedPath, e.controller.exchange);
      FollowingLands(g, RunPull(g, w, expectedPath, e.controller).0, true, e.reload);
    }
  }

  lemma SettlingOnlyTouchesOpenBook(g: Engine, w: World, c: Config, original: Result, expected: Position,
                                    expectedPath: Text,
                                    choice: Choice, e: SettleAnswers)
    ensures var w' := Settle(g, w, c, original, expected, expectedPath, choice, e).0;
            OnlyOpenBook(g, w, w') && UploadsStored(g, w, w')
  {
    GateDecides(g, w, c, original, expected, expectedPath, choice, e);
    if GateOpen(g, w, c, original, expected, expectedPath, choice, e) {
      hide PushLocal, PullRemote, ApplyPersisted;
      PushIsSound(g, w, expectedPath, e.controller.exchange);
      PullIsSound(g, w, expectedPath, e.controller.exchange);
      FollowingLands(g, RunPull(g, w, expectedPath, e.controller).0, true, e.reload);
    }
  }

  /** A confirmed local choice leaves the server with exactly the position the user saw. */
  lemma LocalChoiceReachesServer(g: Engine, w: World, c: Config, original: Result, expected: Position,
                                 expectedPath: Text,
                                 choice: Choice, e: SettleAnswers)
    ensures var (w', x) := Settle(g, w, c, original, expected, expectedPath, choice, e);
            && (x.push.remoteMutation.Confirmed? ==>
                  w' == w.(remote := w.remote[g.document(expectedPath) := expected]) && x.phase.LocalComplete?)
            && (x.phase.LocalComplete? && x.push.remoteMutation.NoMutation? ==> w' == w)
  {
    GateDecides(g, w, c, original, expected, expectedPath, choice, e);
    if GateOpen(g, w, c, original, expected, expectedPath, choice, e) {
      hide PushLocal, PullRemote;
      PushIsSound(g, w, expectedPath, e.controller.exchange);
    }
  }

  /** An applied remote choice leaves disk and server with one position, and the Reader on its page. */
  lemma RemoteChoiceReachesReader(g: Engine, w: World, c: Config, original: Result, expected: Position,
                                  expectedPath: Text,
                                  choice: Choice, e: SettleAnswers)
    ensures var (w', x) := Settle(g, w, c, original, expected, expectedPath, choice, e);
            x.phase.RemoteApplied? ==>
              && Identity(g, expectedPath).Some? && g.document(expectedPath) in w.remote && w'.remote == w.remote
              && var p := w.remote[g.document(expectedPath)];
                 && w'.records == w.records[Identity(g, expectedPath).value := Stored(p)]
                 && g.pageOf(expectedPath, p.location) == Some(w'.view.page) && w'.view.page < w'.view.pages
                 && OpenBook(w'.view) == Some(expectedPath) && w'.view == w.view.(page := w'.view.page)
  {
    GateDecides(g, w, c, original, expected, expectedPath, choice, e);
    if GateOpen(g, w, c, original, expected, expectedPath, choice, e) {
      hide PushLocal, PullRemote;
      PullIsSound(g, w, expectedPath, e.controller.exchange);
    }
  }

  // ----- The next sync -----

  const CALM := ManualAnswers(false, None, ControllerAnswers(None, HEALTHY), None)

  /**
    * A fault-free manual sync of a book that the server knows: it finds no change exactly if the locations
    * are the same.
    */
  lemma CalmSyncCompares(g: Engine, w: World, c: Config, path: Text, p: Position)
    requires OpenBook(w.view) == Some(path) && Identity(g, path).Some? && c.complete && !Mismatch(c, path)
    requires g.document(path) in w.remote && g.capture(path, w.view.page) == Some(p) && g.storable(p)
    ensures var (w', x) := ManualOnce(g, w, c, CALM);
            var same := p.location == w.remote[g.document(path)].location;
            && (x.controller.verdict.outcome.Unchanged? <==> same) && (IsConflict(x) <==> !same)
  {}

  /** After a confirmed local choice the conflict is gone. */
  lemma LocalChoiceSettles(g: Engine, w: World, c: Config, original: Result, expected: Position, expectedPath: Text,
                           choice: Choice, e: SettleAnswers)
    requires g.storable(expected)
    ensures var (w', x) := Settle(g, w, c, original, expected, expectedPath, choice, e);
            x.push.remoteMutation.Confirmed? ==> ManualOnce(g, w', c, CALM).1.controller.verdict.outcome.Unchanged?
  {
    hide Settle, ManualOnce;
    GateDecides(g, w, c, original, expected, expectedPath, choice, e);
    LocalChoiceReachesServer(g, w, c, original, expected, expectedPath, choice, e);
    var (w', x) := Settle(g, w, c, original, expected, expectedPath, choice, e);
    if x.push.remoteMutation.Confirmed? {
      LocalCompleteWasPushed(g, w, c, original, expected, expectedPath, choice, e);
      CalmSyncCompares(g, w', c, expectedPath, expected);
    }
  }

  lemma LocalCompleteWasPushed(g: Engine, w: World, c: Config, original: Result, expected: Position, expectedPath: Text,
                               choice: Choice, e: SettleAnswers)
    ensures var (w', x) := Settle(g, w, c, original, expected, expectedPath, choice, e);
            && (x.phase.LocalComplete? ==> x.pushInvoked)
            && (x.phase.RemoteApplied? ==> x.pullInvoked)
  {
    hide RunPush, RunPull, ApplyPersisted;
  }

  /** The server's position can be stored and leads to a page of the open book. */
  predicate Followable(g: Engine, w: World, path: Text) {
    && g.document(path) in w.remote && g.storable(w.remote[g.document(path)])
    && var page := g.pageOf(path, w.remote[g.document(path)].location);
       page.Some? && page.value < w.view.pages
  }

  /** What the Reader captures on that page. */
  function Landing(g: Engine, w: World, path: Text): (p: Option<Position>)
    requires Followable(g, w, path)
  {
    var captured := g.capture(path, g.pageOf(path, w.remote[g.document(path)].location).value);
    if captured.Some? && g.storable(captured.value) then captured else None
  }

  /** With nothing failing, choosing the server's position applies it exactly if it can be followed. */
  lemma RemoteChoiceAppliesIff(g: Engine, w: World, c: Config, original: Result, expected: Position, path: Text,
                               e: SettleAnswers)
    requires GateOpen(g, w, c, original, expected, path, UseRemote, e)
    requires e.controller == ControllerAnswers(None, HEALTHY) && e.reload.None?
    ensures var (w', x) := Settle(g, w, c, original, expected, path, UseRemote, e);
            x.phase.RemoteApplied? <==> Followable(g, w, path)
  {}

  lemma BlankPageFails(g: Engine, w: World, c: Config, path: Text)
    requires OpenBook(w.view) == Some(path)
    requires g.capture(path, w.view.page).None? || !g.storable(g.capture(path, w.view.page).value)
    ensures var x := ManualOnce(g, w, c, CALM).1; !IsConflict(x) && !x.controller.verdict.outcome.Unchanged?
  {}

  /**
    * Choosing the server's position settles the conflict exactly if the page it leads to is captured as that
    * location: the pre-save of the next sync overwrites the record with what is captured there, and any
    * other location brings the conflict back.
    */
  lemma RemoteChoiceSettlesIff(g: Engine, w: World, c: Config, original: Result, expected: Position, path: Text,
                               e: SettleAnswers)
    requires GateOpen(g, w, c, original, expected, path, UseRemote, e) && Followable(g, w, path)
    requires e.controller == ControllerAnswers(None, HEALTHY) && e.reload.None?
    ensures var (w', x) := Settle(g, w, c, original, expected, path, UseRemote, e);
            var next, landing := ManualOnce(g, w', c, CALM).1, Landing(g, w, path);
            && (next.controller.verdict.outcome.Unchanged? <==>
                  landing.Some? && landing.value.location == w.remote[g.document(path)].location)
            && (IsConflict(next) <==> landing.Some? && landing.value.location != w.remote[g.document(path)].location)
  {
    hide Settle, ManualOnce, IsConflict;
    var w' := Settle(g, w, c, original, expected, path, UseRemote, e).0;
    RemoteChoiceAppliesIff(g, w, c, original, expected, path, e);
    RemoteChoiceReachesReader(g, w, c, original, expected, path, UseRemote, e);
    if Landing(g, w, path).Some? {
      CalmSyncCompares(g, w', c, path, Landing(g, w, path).value);
    } else {
      BlankPageFails(g, w', c, path);
    }
  }

  const PATH: Text := [0x2f, 0x62]
  const FIRST := Position([0x2f, 0x31], 0)
  const MIDDLE := Position([0x2f, 0x32], 50)

  /** A book of one page, captured at its first location, with another location in its middle. */
  const ONE_PAGE := Engine(path => path, path => path, (path, location) => Some(0),
                           (path, page) => if page == 0 then Some(FIRST) else None, p => true)

  /** Choosing the server's position in the middle of a page brings the same conflict back at the next sync. */
  lemma MidPageConflictReturns()
    ensures Faithful(ONE_PAGE)
    ensures var w := World(View(true, 1, Some(Book(PATH, true)), 0), map[], map[PATH := MIDDLE]);
            var c := Config(true, None, false);
            var (w1, first) := ManualOnce(ONE_PAGE, w, c, CALM);
            var (w2, settled) := Settle(ONE_PAGE, w1, c, first, FIRST, PATH, UseRemote,
                                        SettleAnswers(false, None, ControllerAnswers(None, HEALTHY), None));
            IsConflict(first) && settled.phase.RemoteApplied? && IsConflict(ManualOnce(ONE_PAGE, w2, c, CALM).1)
  {
    assert FIRST.location != MIDDLE.location;
  }
}
