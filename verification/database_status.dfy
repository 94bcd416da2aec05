/** The start-up database check: for each auto-import lexicon, decide from what
    can be observed about its database file whether it is usable, and collect the
    lexicons whose databases need attention. */
module DatabaseStatus {
  import opened Optional

  /** The database error codes. */
  datatype DbError = DbNoError | DbDoesNotExist | DbOpenError | DbOutOfDate | DbConnectionError | DbSymbolsOutOfDate

  /** What tryConnectToDatabase reads about one lexicon's database, besides whether
      the word engine is already connected to it. */
  datatype DbObservation = DbObservation(
    fileExists: bool,               // the database file exists
    openOk: bool,                   // the SQLite open succeeded
    storedVersion: Option<int>,     // the row of db_version, if any
    recordedFile: Option<string>,   // the row of lexicon_file, if any
    lexiconFile: string,            // the file the word engine loaded the lexicon from
    connectOk: bool                 // connectToDatabase would succeed
  )

  /** The version a database without a version row is taken to have. */
  function StoredVersion(o: DbObservation): int
  {
    o.storedVersion.GetOr(0)
  }

  /** The custom lexicon's database records a different lexicon file (an absent row
      reads as the empty string). */
  predicate CustomFileChanged(o: DbObservation)
  {
    o.recordedFile.GetOr("") != o.lexiconFile
  }

  /** The early return for an already connected, non-custom lexicon. */
  predicate AlreadyConnected(lexicon: string, custom: string, connected: bool)
  {
    connected && lexicon != custom
  }

  /** The file exists, opens, is current and (for the custom lexicon) matches its
      source file: the checks before an actual connection attempt all pass. */
  predicate FileUsable(lexicon: string, custom: string, currentVersion: int, o: DbObservation)
  {
    && o.fileExists
    && o.openOk
    && StoredVersion(o) >= currentVersion
    && !(lexicon == custom && CustomFileChanged(o))
  }

  /** MainWindow::tryConnectToDatabase, reduced to its decision. */
  function ClassifyDatabase(lexicon: string, custom: string, currentVersion: int,
                            connected: bool, o: DbObservation): (e: DbError)
    ensures e != DbSymbolsOutOfDate
    ensures e == DbNoError <==>
      AlreadyConnected(lexicon, custom, connected) || (FileUsable(lexicon, custom, currentVersion, o) && o.connectOk)
    ensures e == DbDoesNotExist <==> !AlreadyConnected(lexicon, custom, connected) && !o.fileExists
    ensures e == DbOpenError <==> !AlreadyConnected(lexicon, custom, connected) && o.fileExists && !o.openOk
    ensures e == DbOutOfDate <==>
      && !AlreadyConnected(lexicon, custom, connected)
      && o.fileExists && o.openOk
      && (StoredVersion(o) < currentVersion || (lexicon == custom && CustomFileChanged(o)))
    ensures e == DbConnectionError <==>
      !AlreadyConnected(lexicon, custom, connected) && FileUsable(lexicon, custom, currentVersion, o) && !o.connectOk
  {
    if connected && lexicon != custom then DbNoError
    else if !o.fileExists then DbDoesNotExist
    else if !o.openOk then DbOpenError
    else if o.storedVersion.GetOr(0) < currentVersion then DbOutOfDate
    else if lexicon == custom && o.recordedFile.GetOr("") != o.lexiconFile then DbOutOfDate
    else if !o.connectOk then DbConnectionError
    else DbNoError
  }

  /** Whether the check goes as far as calling connectToDatabase. */
  predicate AttemptsConnection(lexicon: string, custom: string, currentVersion: int,
                               connected: bool, o: DbObservation)
  {
    !AlreadyConnected(lexicon, custom, connected) && FileUsable(lexicon, custom, currentVersion, o)
  }

  /** The state tryConnectToDatabases threads through its loop. */
  datatype ConnectState = ConnectState(connected: set<string>, dbErrors: map<string, DbError>)

  /** One lexicon: classify it, remember a successful connection, and record any
      error under the lexicon's name. */
  function CheckOne(lexicon: string, custom: string, currentVersion: int,
                    observe: string -> DbObservation, st: ConnectState): ConnectState
  {
    var o := observe(lexicon);
    var e := ClassifyDatabase(lexicon, custom, currentVersion, lexicon in st.connected, o);
    var connected :=
      if AttemptsConnection(lexicon, custom, currentVersion, lexicon in st.connected, o) && o.connectOk
      then st.connected + {lexicon} else st.connected;
    ConnectState(connected, if e != DbNoError then st.dbErrors[lexicon := e] else st.dbErrors)
  }

  /** MainWindow::tryConnectToDatabases over the auto-import lexicons, in order. */
  function CheckAll(lexicons: seq<string>, custom: string, currentVersion: int,
                    observe: string -> DbObservation, st: ConnectState): (r: ConnectState)
    ensures st.connected <= r.connected
    ensures forall l :: l in r.connected - st.connected ==> l in lexicons
    ensures forall l :: l in r.dbErrors ==> l in st.dbErrors || l in lexicons
    ensures forall l :: l in r.dbErrors ==>
              r.dbErrors[l] != DbNoError || (l in st.dbErrors && r.dbErrors[l] == st.dbErrors[l])
    ensures forall l :: l !in lexicons ==> (l in r.dbErrors <==> l in st.dbErrors)
    ensures forall l :: l !in lexicons && l in st.dbErrors ==> r.dbErrors[l] == st.dbErrors[l]
    ensures forall l :: l in lexicons && l !in st.connected ==>
              (l in r.connected <==> AttemptsConnection(l, custom, currentVersion, false, observe(l)) && observe(l).connectOk)
    decreases |lexicons|
  {
    if |lexicons| == 0 then st
    else
      var next := CheckOne(lexicons[0], custom, currentVersion, observe, st);
      assert forall l :: l in lexicons[1..] ==> l in lexicons;
      CheckAll(lexicons[1..], custom, currentVersion, observe, next)
  }

  /** tryConnectToDatabases returns at once when auto-import is off. */
  function TryConnectToDatabases(useAutoImport: bool, lexicons: seq<string>, custom: string,
                                 currentVersion: int, observe: string -> DbObservation,
                                 st: ConnectState): (r: ConnectState)
    ensures !useAutoImport ==> r == st
    ensures useAutoImport ==> r == CheckAll(lexicons, custom, currentVersion, observe, st)
  {
    if !useAutoImport then st
    else CheckAll(lexicons, custom, currentVersion, observe, st)
  }

  /** With each lexicon listed once, a lexicon's entry in dbErrors afterwards is the
      classification made with the connection state from before the loop: an error
      is recorded exactly when the classification is not DbNoError, and otherwise the
      previous entry (if any) is left alone. */
  lemma {:induction false} CheckAllRecordsErrors(lexicons: seq<string>, custom: string, currentVersion: int,
                                                 observe: string -> DbObservation, st: ConnectState)
    requires forall i, j :: 0 <= i < j < |lexicons| ==> lexicons[i] != lexicons[j]
    ensures forall l :: l in lexicons ==>
      var e := ClassifyDatabase(l, custom, currentVersion, l in st.connected, observe(l));
      var r := CheckAll(lexicons, custom, currentVersion, observe, st);
      && (e != DbNoError ==> l in r.dbErrors && r.dbErrors[l] == e)
      && (e == DbNoError ==> (l in r.dbErrors <==> l in st.dbErrors))
      && (e == DbNoError && l in st.dbErrors ==> r.dbErrors[l] == st.dbErrors[l])
    decreases |lexicons|
  {
    if |lexicons| > 0 {
      var head := lexicons[0];
      var next := CheckOne(head, custom, currentVersion, observe, st);
      var tail := lexicons[1..];
      assert head !in tail;
      CheckAllRecordsErrors(tail, custom, currentVersion, observe, next);
      assert forall l :: l != head ==> (l in next.connected <==> l in st.connected);
      assert forall l :: l != head ==> (l in next.dbErrors <==> l in st.dbErrors);
      assert forall l :: l != head && l in st.dbErrors ==> next.dbErrors[l] == st.dbErrors[l];
      forall l | l in lexicons && l != head ensures l in tail {
        var i :| 0 <= i < |lexicons| && lexicons[i] == l;
        assert i > 0 && tail[i - 1] == l;
      }
    }
  }
}
