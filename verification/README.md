# Zyzzyva main-window decision procedures, in Dafny

Zyzzyva is a word-study and quiz program. Its main window (`MainWindow`) holds, among
menu and dialog wiring, a handful of small decision procedures. This project models
them as pure functions over sequences, sets, maps and records, and proves what they
decide:

- **Cardbox reschedule routing** (`CardboxReschedule`). The reschedule dialog handler
  picks the words and the one parameter. `rescheduleCardbox` then turns the words into
  question keys. Anagram-family quizzes use the distinct alphagrams; other quizzes use
  the words. The request is routed to exactly one quiz-statistics store operation, or
  to none. The store operations are opaque calls that return a count.
- **Settings arithmetic** (`LexiconSettings`). Three procedures work on settings:
  - after the settings dialog, which lexicons to import and which need a symbol
    rebuild (`editSettings`);
  - the default lexicon-style merge on upgrade to 2.1.3 (`updateSettings`);
  - the settings rewrite when a lexicon is renamed (`renameLexicon`).
- **Database status** (`DatabaseStatus`). The start-up classification of each lexicon
  database (`tryConnectToDatabase`), and the collection of the errors
  (`tryConnectToDatabases`).
- **Word files** (`WordFile`, `Text`). Reading a plain word list into an anagram quiz
  (`newQuizFromWordFile`).
- **Config repair** (`ConfigFix`). Dropping `filedialog=` lines from Trolltech.conf.
- **Lexicon loading** (`LexiconImport`). The file names derived for each lexicon, the
  loader calls made, and the result returned (`importLexicon`).
- **Quiz responses** (`QuizResponses`). The `QuizResponse` record and its status enum.

The helpers whose bodies are not part of this model are parameters of the functions
that call them. They are `Auxil::getAlphagram`, `Auxil::stringToQuizType`,
`Auxil::lessThanVersion`, `LexiconStyle::operator==`, `WordEngine::search`,
`QuizStatsDatabase`'s three reschedule operations and `isValid`, the word engine's
import calls and `importChecksums`. The lexicon-name constants and the current database
version live in the program's Defs header, which is not part of this model. They are
carried as data (`Lexicons.LexiconNames`, a `currentVersion` argument).

Choices where the code leaves something open:

- `QStringList::fromSet` gives no order. `QuestionKeys` keeps first occurrences, and
  its contract states only the set of keys, the absence of duplicates and the bound on
  their number.
- `editSettings` scans the old styles in order, and each `removeAll` removes matches
  for good. The model keeps that order-dependent fold (`ScanOldStyles`).
  `DuplicateOldStyleIsFlagged` shows one effect: a style listed twice flags its
  lexicon even when nothing changed.
- The custom lexicon's text import is converted from `int` to `bool` in the code, so
  any non-zero count is success. `LoadLexiconAsWritten` keeps that; the corrected
  loader (`LoadFrom`, `LoadLexicon`) counts a load as successful only when some words
  were read (see Findings).

## Model

| member | source | states |
|---|---|---|
| QuizResponses.StatusValue | src/libzyzzyva/QuizResponse.h:31-36 | Incomplete, Correct, Missed and Incorrect have the values 0, 1, 2 and 3, each value naming exactly one status |
| QuizResponses.StatusFromValue | src/libzyzzyva/QuizResponse.h:31-36 | an integer names a status exactly when it lies in 0..3 |
| QuizResponses.StatusValueRoundTrip | src/libzyzzyva/QuizResponse.h:31-36 | reading a status's value back gives the status, and a value reads as a status exactly when it is that status's value |
| QuizResponses.StatusValueInjective | src/libzyzzyva/QuizResponse.h:31-36 | two statuses share a value only if they are the same status |
| QuizResponses.DefaultResponse | src/libzyzzyva/QuizResponse.h:39 | a default-constructed response has question index -1, status Incomplete (value 0) and an empty name |
| QuizResponses.SetQuestionIndex | src/libzyzzyva/QuizResponse.h:44-55 | after setQuestionIndex(i) the getter returns i; status and name are unchanged |
| QuizResponses.SetStatus | src/libzyzzyva/QuizResponse.h:44-55 | after setStatus(s) the getter returns s; question index and name are unchanged |
| QuizResponses.SetName | src/libzyzzyva/QuizResponse.h:44-55 | after setName(n) the getter returns n; question index and status are unchanged |
| QuizResponses.SettersCommute | src/libzyzzyva/QuizResponse.h:44-55 | the setters act on disjoint fields, so they commute and the three last-set values determine the response |
| CardboxReschedule.QuestionKeys | src/libzyzzyva/MainWindow.cpp:1409-1429 | no words give no keys; other quiz types pass the words through; anagram-family keys are duplicate-free, no more than the words, and are exactly the words' alphagrams |
| CardboxReschedule.QuestionKeysCount | src/libzyzzyva/MainWindow.cpp:1417-1422 | an anagram-family reschedule sends one key per distinct alphagram |
| CardboxReschedule.PlanReschedule | src/libzyzzyva/MainWindow.cpp:1402-1446 | no store call happens iff the reschedule type is unknown, the quiz type is unknown or the store is invalid; otherwise exactly the operation of the requested type is called, with the question keys, and the value reaches only the two shift operations |
| CardboxReschedule.RescheduleCardbox | src/libzyzzyva/MainWindow.cpp:1398-1446 | the count is 0 when a guard fails; otherwise it is what the store answers to the operation of the requested type, called with the question keys and, for the two shifts, the value |
| CardboxReschedule.RescheduleGuardsGiveZero | src/libzyzzyva/MainWindow.cpp:1402-1433 | each guard clause makes the reschedule return 0, whatever the store would answer |
| CardboxReschedule.ByCardboxIgnoresValue | src/libzyzzyva/MainWindow.cpp:1435-1446 | rescheduling by box level issues the same call whatever value is passed |
| CardboxReschedule.QuestionNoun | src/libzyzzyva/MainWindow.cpp:922-923 | the noun is "question" iff the count is 1, and "questions" for every other count |
| CardboxReschedule.HandleRescheduleRequest | src/libzyzzyva/MainWindow.cpp:896-928 | a rejected dialog does nothing; a search request that finds no words stops before any reschedule; otherwise the reschedule is made with the dialog's value and the count is reported |
| CardboxReschedule.DialogForwardsItsParameter | src/libzyzzyva/MainWindow.cpp:902-919 | the store sees numDays in a day shift and backlogSize in a backlog shift; "reschedule all" sends no keys; no store call reports 0 |
| CardboxReschedule.ReportMessageReadsBack | src/libzyzzyva/MainWindow.cpp:922-926 | the report's tokens are the count, the noun and "rescheduled."; the count parses back; the noun is singular iff the count is 1 |
| Text.IntToStringRoundTrip | src/libzyzzyva/MainWindow.cpp:925 | the decimal rendering of the count parses back to the count |
| LexiconSettings.RemoveAll | src/libzyzzyva/MainWindow.cpp:753 | removeAll keeps exactly the styles not equal to the given one, and removes something iff some style was equal |
| LexiconSettings.ScanOldStyles | src/libzyzzyva/MainWindow.cpp:749-759 | the leftover new styles are exactly those equal to no old style; an old style whose compare lexicon is added, or which finds no equal at all, flags its lexicon; only old styles' lexicons are flagged |
| LexiconSettings.ScanFlagsExactly | src/libzyzzyva/MainWindow.cpp:749-759 | a lexicon is flagged iff some old style of that lexicon finds no equal left by the styles before it, or compares against an added lexicon; so a style that removed an equal and compares against no added lexicon flags nothing |
| LexiconSettings.FindsEqualAfterFirst | src/libzyzzyva/MainWindow.cpp:750-753 | each later old style sees only the new styles its predecessors did not remove |
| LexiconSettings.AddedLexicons | src/libzyzzyva/MainWindow.cpp:735-742 | a lexicon is added iff it is selected and either auto-import was off before or it was not selected before, or it is the custom lexicon, selected, with a changed file |
| LexiconSettings.EditSettings | src/libzyzzyva/MainWindow.cpp:715-791 | nothing happens unless the dialog was accepted and auto-import is on; the symbol rebuilds are exactly the scan's flagged lexicons minus the added ones; the imports are exactly the added lexicons plus the rebuilds; errors are processed iff some rebuild is needed |
| LexiconSettings.EditSettingsCharacterised | src/libzyzzyva/MainWindow.cpp:735-768 | a lexicon is rebuilt iff it is not added and some old style of it flags or some new style of it equals no old style; it is imported iff it is added or rebuilt |
| LexiconSettings.SymbolCandidatesCharacterised | src/libzyzzyva/MainWindow.cpp:747-766 | a lexicon is a rebuild candidate iff an old style of it flags (no equal left, or compares against an added lexicon) or a new style of it equals no old style |
| LexiconSettings.DuplicateOldStyleIsFlagged | src/libzyzzyva/MainWindow.cpp:750-758 | an old style listed twice flags its lexicon although the styles are unchanged |
| LexiconSettings.RejectedDialogImportsNothing | src/libzyzzyva/MainWindow.cpp:715-730 | a rejected dialog, or auto-import turned off, imports and rebuilds nothing |
| LexiconSettings.UnchangedSettingsDoNothing | src/libzyzzyva/MainWindow.cpp:728-768 | accepting unchanged settings, with distinct styles and exact style equality, imports nothing and rebuilds nothing |
| LexiconSettings.MergeStyles | src/libzyzzyva/MainWindow.cpp:1857-1873 | the merge keeps the existing list as a prefix and appends at most one entry per default |
| LexiconSettings.MergeStylesCovers | src/libzyzzyva/MainWindow.cpp:1858-1873 | after the merge every default's lexicon, compare lexicon and in-compare flag are present |
| LexiconSettings.MergeStylesAppendsOnlyMissing | src/libzyzzyva/MainWindow.cpp:1858-1873 | every appended entry is a default whose comparison was absent from the list before it, including entries just appended |
| LexiconSettings.MergeStylesIdempotent | src/libzyzzyva/MainWindow.cpp:1857-1873 | merging the defaults a second time changes nothing |
| LexiconSettings.MergeGrowsIffMissing | src/libzyzzyva/MainWindow.cpp:1857-1878 | the list grows, and so is written, iff some default's comparison was missing |
| LexiconSettings.UpdateSettings | src/libzyzzyva/MainWindow.cpp:1822-1879 | equal versions write nothing; the styles are written iff the upgrade crosses 2.1.3 and some default is missing; what is written is the default merge, which extends the old list and holds every default |
| LexiconSettings.RenameLexicon | src/libzyzzyva/MainWindow.cpp:1956-1988 | the auto-import list is written iff it held the old name, and the styles iff one mentioned it; entries equal to the old name become the new name, everything else and the lengths are kept |
| LexiconSettings.RenameStyles | src/libzyzzyva/MainWindow.cpp:1972-1984 | renaming keeps the length and renames each style in place |
| LexiconSettings.RenameStylesInverse | src/libzyzzyva/MainWindow.cpp:1970-1984 | renaming to an unused name and back restores the styles, and afterwards the old name is mentioned nowhere |
| Collections.ReplaceAll | src/libzyzzyva/MainWindow.cpp:1958-1966 | the rewritten list has the same length and replaces exactly the entries equal to the old name |
| Collections.ReplaceAllInverse | src/libzyzzyva/MainWindow.cpp:1958-1966 | replacing with an unused name and back restores the list |
| DatabaseStatus.ClassifyDatabase | src/libzyzzyva/MainWindow.cpp:1146-1218 | already connected and not custom gives NoError; otherwise a missing file gives DoesNotExist, a failed open OpenError, a stored version below current (0 without a row) or a changed custom file OutOfDate, and then the connection decides NoError or ConnectionError |
| DatabaseStatus.CheckAll | src/libzyzzyva/MainWindow.cpp:457-464 | only lexicons of the list gain entries or connections, only errors are added, and other lexicons' entries are untouched; a listed lexicon not connected before ends up connected iff it passes its checks and the connection succeeds |
| DatabaseStatus.TryConnectToDatabases | src/libzyzzyva/MainWindow.cpp:454-464 | with auto-import off nothing changes |
| DatabaseStatus.CheckAllRecordsErrors | src/libzyzzyva/MainWindow.cpp:458-464 | with each lexicon listed once, a lexicon's entry is its classification when that is an error and is left as it was otherwise |
| WordFile.LineWordCharacterised | src/libzyzzyva/MainWindow.cpp:1668-1675 | a line is skipped iff it is blank or starts with '#' after simplification; otherwise its word is its first token, upper-cased |
| WordFile.ReadWords | src/libzyzzyva/MainWindow.cpp:1665-1678 | at most one word per line; every word is non-empty, space-free and upper case |
| WordFile.ReadWordsAppend | src/libzyzzyva/MainWindow.cpp:1667-1678 | the words keep file order: a file's words are its first part's words followed by the rest's |
| WordFile.WordFileQuiz | src/libzyzzyva/MainWindow.cpp:1680-1692 | the quiz is an anagram quiz in the default lexicon with one in-word-list condition whose string splits back into exactly the words read and is already simplified, so it is the words joined by single spaces |
| Text.SimplifiedIdempotent | src/libzyzzyva/MainWindow.cpp:1669 | simplifying a simplified line changes nothing |
| Text.FirstSectionOfSimplified | src/libzyzzyva/MainWindow.cpp:1669-1673 | the first space-separated section of a simplified non-blank line is the line's first token |
| Text.TokensOfJoin | src/libzyzzyva/MainWindow.cpp:1682 | joining tokens with single spaces and splitting again gives the tokens back |
| ConfigFix.KeepConfigLines | src/libzyzzyva/MainWindow.cpp:1795-1801 | no kept line starts with "filedialog=", every other line is kept, and nothing new appears |
| ConfigFix.KeepConfigLinesAppend | src/libzyzzyva/MainWindow.cpp:1797-1801 | the filter works line by line and keeps the file order |
| ConfigFix.KeepConfigLinesIdempotent | src/libzyzzyva/MainWindow.cpp:1795-1811 | a repaired file needs no further repair |
| LexiconImport.FilesFromPrefixDistinct | src/libzyzzyva/MainWindow.cpp:2037-2043 | the forward, reverse, checksum and playability files of a lexicon are four different files |
| LexiconImport.FilesFromPrefixInjective | src/libzyzzyva/MainWindow.cpp:2022-2043 | different prefixes give different forward DAWG files |
| LexiconImport.SourceOf | src/libzyzzyva/MainWindow.cpp:2008-2044 | the custom lexicon loads from the configured file; another lexicon is unknown iff it has no prefix, and a lexicon with a prefix loads from the DAWG files of that prefix |
| LexiconImport.LoadLexiconAsWritten | src/libzyzzyva/MainWindow.cpp:2000-2086 | as written: a loaded lexicon succeeds with no calls; an unknown one fails with no calls; an unnamed text file means no call and failure; a named one is imported and then the stems are read, and succeeds iff the count is non-zero; a DAWG load succeeds iff checksums were found and both reads succeeded, and without checksums only the stems are read |
| LexiconImport.MissingChecksumsSkipLoadAsWritten | src/libzyzzyva/MainWindow.cpp:2056-2078 | as written, a short checksum file means no DAWG is read |
| LexiconImport.FailedTextImportReportsSuccessAsWritten | src/libzyzzyva/MainWindow.cpp:2080-2081 | as written, a negative text-import count is reported as success |
| LexiconImport.LoadFrom | src/libzyzzyva/MainWindow.cpp:2040-2086 | corrected loader, once the lexicon is found unloaded: an unnamed text file means no call and failure; once a file is named, stems are read last; the forward DAWG is always tried with the recorded checksum (0 without one), and the reverse DAWG is read exactly when that read succeeds; a named text file is imported and then the stems are read; a DAWG load succeeds iff checksums were found and both reads succeeded; a text import succeeds iff the file is named and some words were read; an unknown source fails with no calls |
| LexiconImport.LoadLexicon | src/libzyzzyva/MainWindow.cpp:2000-2086 | corrected loader: a loaded lexicon needs nothing and succeeds; an unknown one fails with no calls; the custom lexicon succeeds iff its file is named and some words were read |
| LexiconImport.LoadLexiconReadsItsDawg | src/libzyzzyva/MainWindow.cpp:2040-2078 | corrected loader: a known unloaded lexicon first reads the forward DAWG derived from its own prefix, then the reverse DAWG if that read succeeded, and succeeds iff checksums were found and both reads succeeded |
| LexiconImport.LoadLexiconAgreesElsewhere | src/libzyzzyva/MainWindow.cpp:2000-2086 | off the two faulty paths the corrected loader behaves exactly as written |

## Left out

- Everything of Qt: menus, tabs, dialogs, message boxes, cursors, splash messages, fonts
  and the font-size clamp in `readSettings`. Dialog results are the fields of request
  records.
- `CardboxForm.cpp`. It holds widget layout and direct store calls with no logic of its
  own.
- The cardbox date arithmetic: shifting by days, shifting by backlog and rescheduling by
  box level. These are `QuizStatsDatabase` operations whose bodies are not part of this
  model. They appear only as the `StoreCall` issued and the count returned.
- File system and SQLite work. This covers the renames and backups in `renameLexicon`
  and `rebuildDatabase`, `makeUserDirs`, and the queries in `tryConnectToDatabase`.
  Their observed outcomes are inputs (`DbObservation`).
- `rebuildDatabase`, `rebuildDatabases` and `processDatabaseErrors`. They are a
  background thread with a cancellable progress dialog and user prompts.
- `tryAutoImport`. It returns at once when auto-import is off, prompts for lexicons
  when none are set, and then imports each listed lexicon; the per-lexicon import is
  `LoadLexicon`, and the prompt and the loop are not modelled.
- Reading files. `readLine` into a buffer of `MAX_INPUT_LINE_LEN` can split a long line.
  The model takes the sequence of lines as returned and does not model that split.
  Reading and parsing the checksum file is also left out: checksums are an input.
- Files that fail to open. `newQuizFromWordFile` and `fixTrolltechConfig` return early
  when `file.open` fails; `WordFileQuiz` and `KeepConfigLines` take the lines of a file
  that opened, and the failure path is not modelled.
- Checksum width. The checksums are `quint16` in the code and `int` in the model; they
  are only compared, never computed, so the width does not change a decision here.
- Unicode. `QString::simplified` and `toUpper` are modelled over ASCII (whitespace 9-13
  and 32; 'a'..'z').
- Connection side effects. A successful connection is recorded by name in
  `ConnectState`; whatever else the word engine does is not modelled.
- QuizResponses.SetQuestionIndex: the index is a 32-bit `int`, modelled as the
  `Int32` newtype, so out-of-range values cannot be passed. `isValid` is declared only
  and is not modelled.
- CardboxReschedule.RescheduleType: the enum's header is not part of this model. It is
  taken to have exactly Unknown, ShiftDays, ShiftBacklog and ByCardbox, so the switch's
  default case cannot be reached.
- CardboxReschedule.QuestionKeys: states the key set, not the key order, because the
  code's set-to-list conversion has no defined order.

## Findings

| source | as written | input that shows it | evidently intended | confidence | as-written member | corrected member |
|---|---|---|---|---|---|---|
| src/libzyzzyva/MainWindow.cpp:2056-2078 | with fewer than two checksums `ok` is set to false, so both `ok && importDawg(...)` skip the import | a known, unloaded lexicon whose checksum file has 0 or 1 lines | load the DAWGs anyway and return false only as a warning, as the message "The lexicon will be loaded" says | medium, not executed | LexiconImport.MissingChecksumsSkipLoadAsWritten | LexiconImport.LoadFrom |
| src/libzyzzyva/MainWindow.cpp:2080-2081 | the `int` count from `importText` converts to `bool`, so a negative count becomes true | the custom lexicon with `importTextFile` returning -1; `importInteractive` (line 529) treats a negative count as failure | success only when some words were read | medium, not executed | LexiconImport.FailedTextImportReportsSuccessAsWritten | LexiconImport.LoadFrom |
