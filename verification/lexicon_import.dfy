/** Loading a lexicon by name: the custom lexicon comes from the configured text
    file, every other known lexicon from a pair of DAWG files (forward and reversed)
    whose names derive from a per-lexicon path prefix, checked against a checksum
    file.  The loaders themselves are outside the model; each is an opaque call. */
module LexiconImport {
  import opened Lexicons

  /** The per-lexicon path prefix, relative to the words directory.  Later entries
      win should two constants share a value, as with repeated QMap assignment. */
  function LexiconPrefixes(names: LexiconNames): map<string, string>
  {
    map[
      names.owl := "/North-American/OWL",
      names.owl2 := "/North-American/OWL2",
      names.ospd4 := "/North-American/OSPD4",
      names.wwf := "/North-American/WWF",
      names.volost := "/Antarctic/Volost",
      names.oswi := "/British/OSWI",
      names.csw07 := "/British/CSW07",
      names.csw12 := "/British/CSW12",
      names.cd := "/British/CD",
      names.ods4 := "/French/ODS4",
      names.ods5 := "/French/ODS5",
      names.fise2009 := "/Spanish/FISE2009",
      names.zinga := "/Italian/ZINGA"
    ]
  }

  /** The files a DAWG lexicon is loaded from. */
  datatype DawgFiles = DawgFiles(importFile: string, reverseImportFile: string,
                                 checksumFile: string, playabilityFile: string)

  /** The four file names derived from one prefix. */
  function FilesFromPrefix(prefix: string): DawgFiles
  {
    DawgFiles(prefix + ".dwg", prefix + "-R.dwg", prefix + "-Checksums.txt", prefix + "-Playability.txt")
  }

  /** The four names differ from one another, so no file is read for two purposes. */
  lemma FilesFromPrefixDistinct(prefix: string)
    ensures var f := FilesFromPrefix(prefix);
      && f.importFile != f.reverseImportFile && f.importFile != f.checksumFile
      && f.importFile != f.playabilityFile && f.reverseImportFile != f.checksumFile
      && f.reverseImportFile != f.playabilityFile && f.checksumFile != f.playabilityFile
  {
    var f := FilesFromPrefix(prefix);
    var n := |prefix|;
    assert |f.importFile| == n + 4 && |f.reverseImportFile| == n + 6;
    assert |f.checksumFile| == n + 14 && |f.playabilityFile| == n + 16;
  }

  /** Different prefixes give different forward DAWG files.  (A forward file can still
      coincide with another prefix's reverse file, as for prefixes p and p + "-R".) */
  lemma FilesFromPrefixInjective(p1: string, p2: string)
    requires FilesFromPrefix(p1).importFile == FilesFromPrefix(p2).importFile
    ensures p1 == p2
  {
    var f1 := FilesFromPrefix(p1).importFile;
    assert |p1| == |p2|;
    assert p1 == f1[..|p1|];
  }

  /** What the loading code calls outside this model. */
  datatype Loaders = Loaders(
    isLoaded: string -> bool,                    // WordEngine::lexiconIsLoaded
    loadedFile: string -> string,                // WordEngine::getLexiconFile
    checksumsIn: string -> seq<int>,             // importChecksums(file)
    importDawg: (string, string, bool, int) -> bool,  // importDawg(lexicon, file, reverse, expected checksum)
    importText: (string, string) -> int          // importText(lexicon, file): the number of words read
  )

  /** The loader calls made, in order. */
  datatype LoadCall =
    | DawgImport(file: string, reverse: bool, expectedChecksum: int)
    | TextImport(file: string)
    | StemImport(file: string)

  /** The stem lists importStems always reads. */
  function StemFiles(wordsDir: string): seq<string>
  {
    [wordsDir + "/North-American/6-letter-stems.txt", wordsDir + "/North-American/7-letter-stems.txt"]
  }

  function StemCalls(wordsDir: string): seq<LoadCall>
  {
    [StemImport(StemFiles(wordsDir)[0]), StemImport(StemFiles(wordsDir)[1])]
  }

  /** The outcome of importLexicon: the calls made and the result returned. */
  datatype LoadOutcome = LoadOutcome(calls: seq<LoadCall>, ok: bool)

  /** Where the lexicon would be loaded from: Text(file) for the custom lexicon,
      Dawg(files) for a known lexicon, Unknown otherwise. */
  datatype Source = Text(file: string) | Dawg(files: DawgFiles) | Unknown

  function SourceOf(lexicon: string, names: LexiconNames, autoImportFile: string, wordsDir: string): (s: Source)
    ensures lexicon == names.custom ==> s == Text(autoImportFile)
    ensures lexicon != names.custom ==> (s.Unknown? <==> lexicon !in LexiconPrefixes(names))
    ensures s.Dawg? ==> s.files == FilesFromPrefix(wordsDir + LexiconPrefixes(names)[lexicon])
    ensures lexicon != names.custom && lexicon in LexiconPrefixes(names) ==>
      s == Dawg(FilesFromPrefix(wordsDir + LexiconPrefixes(names)[lexicon]))
  {
    if lexicon == names.custom then Text(autoImportFile)
    else
      var prefixes := LexiconPrefixes(names);
      if lexicon in prefixes then Dawg(FilesFromPrefix(wordsDir + prefixes[lexicon])) else Unknown
  }

  /** The lexicon is loaded already and needs nothing: a non-custom lexicon is loaded,
      or the custom lexicon is loaded from the configured file. */
  predicate AlreadyLoaded(lexicon: string, names: LexiconNames, autoImportFile: string, ld: Loaders)
  {
    ld.isLoaded(lexicon) && (lexicon == names.custom ==> ld.loadedFile(lexicon) == autoImportFile)
  }

  /** The expected forward and reverse checksums: the first two numbers of the
      checksum file, or 0 and 0 (the initial values) when it has fewer than two. */
  function ExpectedChecksums(ld: Loaders, f: DawgFiles): (int, int)
  {
    var checksums := ld.checksumsIn(f.checksumFile);
    if |checksums| >= 2 then (checksums[0], checksums[1]) else (0, 0)
  }

  predicate ChecksumsFound(ld: Loaders, f: DawgFiles)
  {
    |ld.checksumsIn(f.checksumFile)| >= 2
  }

  /** MainWindow::importLexicon as written.  Two of its paths disagree with what
      the surrounding code intends; see LoadLexicon for the corrected version. */
  function LoadLexiconAsWritten(lexicon: string, names: LexiconNames, autoImportFile: string,
                                wordsDir: string, ld: Loaders): (r: LoadOutcome)
    ensures AlreadyLoaded(lexicon, names, autoImportFile, ld) ==> r == LoadOutcome([], true)
    ensures var src := SourceOf(lexicon, names, autoImportFile, wordsDir);
      !AlreadyLoaded(lexicon, names, autoImportFile, ld) ==>
      && (src.Unknown? ==> r == LoadOutcome([], false))
      && (src.Text? ==> (r.ok <==> |src.file| > 0 && ld.importText(lexicon, src.file) != 0))
      && (src.Dawg? ==>
            (r.ok <==> ChecksumsFound(ld, src.files)
                       && ld.importDawg(lexicon, src.files.importFile, false, ExpectedChecksums(ld, src.files).0)
                       && ld.importDawg(lexicon, src.files.reverseImportFile, true, ExpectedChecksums(ld, src.files).1)))
      && (src.Dawg? && !ChecksumsFound(ld, src.files) ==> r.calls == StemCalls(wordsDir))
      && (src.Text? && |src.file| == 0 ==> r == LoadOutcome([], false))
      && (src.Text? && |src.file| > 0 ==> r.calls == [TextImport(src.file)] + StemCalls(wordsDir))
  {
    if AlreadyLoaded(lexicon, names, autoImportFile, ld) then LoadOutcome([], true)
    else
      match SourceOf(lexicon, names, autoImportFile, wordsDir)
      case Unknown => LoadOutcome([], false)
      case Text(file) =>
        if |file| == 0 then LoadOutcome([], false)
        else LoadOutcome([TextImport(file)] + StemCalls(wordsDir), ld.importText(lexicon, file) != 0)
      case Dawg(f) =>
        var (fwd, rev) := ExpectedChecksums(ld, f);
        if !ChecksumsFound(ld, f) then LoadOutcome(StemCalls(wordsDir), false)
        else if !ld.importDawg(lexicon, f.importFile, false, fwd) then
          LoadOutcome([DawgImport(f.importFile, false, fwd)] + StemCalls(wordsDir), false)
        else
          LoadOutcome([DawgImport(f.importFile, false, fwd), DawgImport(f.reverseImportFile, true, rev)]
                      + StemCalls(wordsDir),
                      ld.importDawg(lexicon, f.reverseImportFile, true, rev))
  }

  /** As written, a missing or short checksum file stops the DAWGs from being read at
      all, although the warning shown says the lexicon will still be loaded. */
  lemma MissingChecksumsSkipLoadAsWritten(lexicon: string, names: LexiconNames, autoImportFile: string,
                                          wordsDir: string, ld: Loaders)
    requires !AlreadyLoaded(lexicon, names, autoImportFile, ld)
    requires SourceOf(lexicon, names, autoImportFile, wordsDir).Dawg?
    requires !ChecksumsFound(ld, SourceOf(lexicon, names, autoImportFile, wordsDir).files)
    ensures forall c :: c in LoadLexiconAsWritten(lexicon, names, autoImportFile, wordsDir, ld).calls ==> !c.DawgImport?
    ensures !LoadLexiconAsWritten(lexicon, names, autoImportFile, wordsDir, ld).ok
  {
  }

  /** As written, a text import that reports failure with a negative count makes
      importLexicon report success, since any non-zero count converts to true. */
  lemma FailedTextImportReportsSuccessAsWritten(names: LexiconNames, autoImportFile: string,
                                                wordsDir: string, ld: Loaders)
    requires !AlreadyLoaded(names.custom, names, autoImportFile, ld)
    requires |autoImportFile| > 0
    requires ld.importText(names.custom, autoImportFile) < 0
    ensures LoadLexiconAsWritten(names.custom, names, autoImportFile, wordsDir, ld).ok
  {
  }

  /** Loading from a known source once the lexicon is found not to be loaded:
      without checksums the DAWGs are still read (with expected checksum 0, as the
      code initialises them) and the result is false only as a warning; a text import
      counts as successful only when it read some words. */
  function LoadFrom(lexicon: string, src: Source, wordsDir: string, ld: Loaders): (r: LoadOutcome)
    ensures r.calls == [] || (|r.calls| >= 2 && r.calls[|r.calls| - 2..] == StemCalls(wordsDir))
    ensures src.Unknown? ==> r == LoadOutcome([], false)
    ensures src.Dawg? ==>
      |r.calls| >= 3 && r.calls[0] == DawgImport(src.files.importFile, false, ExpectedChecksums(ld, src.files).0)
    ensures src.Dawg? && r.ok ==>
      |r.calls| == 4 && ChecksumsFound(ld, src.files)
      && r.calls[1] == DawgImport(src.files.reverseImportFile, true, ExpectedChecksums(ld, src.files).1)
    ensures src.Text? && r.ok ==> |r.calls| == 3 && r.calls[0] == TextImport(src.file) && ld.importText(lexicon, src.file) > 0
    ensures src.Text? ==> (r.ok <==> |src.file| > 0 && ld.importText(lexicon, src.file) > 0)
    ensures src.Dawg? ==>
      (r.ok <==> ChecksumsFound(ld, src.files)
                 && ld.importDawg(lexicon, src.files.importFile, false, ExpectedChecksums(ld, src.files).0)
                 && ld.importDawg(lexicon, src.files.reverseImportFile, true, ExpectedChecksums(ld, src.files).1))
    ensures src.Dawg? && ld.importDawg(lexicon, src.files.importFile, false, ExpectedChecksums(ld, src.files).0) ==>
      |r.calls| == 4 && r.calls[1] == DawgImport(src.files.reverseImportFile, true, ExpectedChecksums(ld, src.files).1)
    ensures src.Dawg? && !ld.importDawg(lexicon, src.files.importFile, false, ExpectedChecksums(ld, src.files).0) ==>
      r.calls == [DawgImport(src.files.importFile, false, ExpectedChecksums(ld, src.files).0)] + StemCalls(wordsDir)
    ensures src.Text? && |src.file| == 0 ==> r == LoadOutcome([], false)
    ensures src.Text? && |src.file| > 0 ==> r.calls == [TextImport(src.file)] + StemCalls(wordsDir)
  {
    match src
    case Unknown => LoadOutcome([], false)
    case Text(file) =>
      if |file| == 0 then LoadOutcome([], false)
      else LoadOutcome([TextImport(file)] + StemCalls(wordsDir), ld.importText(lexicon, file) > 0)
    case Dawg(f) =>
      var (fwd, rev) := ExpectedChecksums(ld, f);
      if !ld.importDawg(lexicon, f.importFile, false, fwd) then
        LoadOutcome([DawgImport(f.importFile, false, fwd)] + StemCalls(wordsDir), false)
      else
        LoadOutcome([DawgImport(f.importFile, false, fwd), DawgImport(f.reverseImportFile, true, rev)]
                    + StemCalls(wordsDir),
                    ChecksumsFound(ld, f) && ld.importDawg(lexicon, f.reverseImportFile, true, rev))
  }

  /** importLexicon with both discrepancies corrected (see LoadFrom): a lexicon that
      is loaded already needs no calls and succeeds; otherwise it is read from its
      source, and a name with no source fails without any call. */
  function LoadLexicon(lexicon: string, names: LexiconNames, autoImportFile: string,
                       wordsDir: string, ld: Loaders): (r: LoadOutcome)
    ensures AlreadyLoaded(lexicon, names, autoImportFile, ld) ==> r == LoadOutcome([], true)
    ensures (!AlreadyLoaded(lexicon, names, autoImportFile, ld) && lexicon != names.custom
             && lexicon !in LexiconPrefixes(names)) ==> r == LoadOutcome([], false)
    ensures (!AlreadyLoaded(lexicon, names, autoImportFile, ld) && lexicon == names.custom) ==>
            (r.ok <==> |autoImportFile| > 0 && ld.importText(lexicon, autoImportFile) > 0)
  {
    if AlreadyLoaded(lexicon, names, autoImportFile, ld) then LoadOutcome([], true)
    else LoadFrom(lexicon, SourceOf(lexicon, names, autoImportFile, wordsDir), wordsDir, ld)
  }

  /** A known lexicon that is not loaded yet is read from its own forward DAWG first,
      then, if that read succeeded, from its reverse DAWG, whether or not checksums were
      found; it reports success exactly when checksums were found and both reads succeeded. */
  lemma LoadLexiconReadsItsDawg(lexicon: string, names: LexiconNames, autoImportFile: string,
                                wordsDir: string, ld: Loaders)
    requires !AlreadyLoaded(lexicon, names, autoImportFile, ld)
    requires lexicon != names.custom && lexicon in LexiconPrefixes(names)
    ensures var f := FilesFromPrefix(wordsDir + LexiconPrefixes(names)[lexicon]);
      var r := LoadLexicon(lexicon, names, autoImportFile, wordsDir, ld);
      && |r.calls| >= 3
      && r.calls[0] == DawgImport(f.importFile, false, ExpectedChecksums(ld, f).0)
      && (ld.importDawg(lexicon, f.importFile, false, ExpectedChecksums(ld, f).0) ==>
            r.calls[1] == DawgImport(f.reverseImportFile, true, ExpectedChecksums(ld, f).1))
      && (r.ok <==> ChecksumsFound(ld, f)
                    && ld.importDawg(lexicon, f.importFile, false, ExpectedChecksums(ld, f).0)
                    && ld.importDawg(lexicon, f.reverseImportFile, true, ExpectedChecksums(ld, f).1))
  {
    var src := SourceOf(lexicon, names, autoImportFile, wordsDir);
    assert src.Dawg?;
    assert LoadLexicon(lexicon, names, autoImportFile, wordsDir, ld) == LoadFrom(lexicon, src, wordsDir, ld);
  }

  /** The corrected loader differs from the code as written only on the two faulty
      paths: with checksums present and a non-negative text count they agree. */
  lemma LoadLexiconAgreesElsewhere(lexicon: string, names: LexiconNames, autoImportFile: string,
                                   wordsDir: string, ld: Loaders)
    requires SourceOf(lexicon, names, autoImportFile, wordsDir).Dawg? ==>
             ChecksumsFound(ld, SourceOf(lexicon, names, autoImportFile, wordsDir).files)
    requires ld.importText(lexicon, autoImportFile) >= 0
    ensures LoadLexicon(lexicon, names, autoImportFile, wordsDir, ld)
         == LoadLexiconAsWritten(lexicon, names, autoImportFile, wordsDir, ld)
  {
  }
}
