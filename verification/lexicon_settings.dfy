/** The settings-side decisions of the main window: which lexicons to import and
    which need their symbols rebuilt after the settings dialog, the default-style
    merge done on a version upgrade, and the rewrite of settings when a lexicon is
    renamed. */
module LexiconSettings {
  import opened Optional
  import opened Collections
  import opened Lexicons

  // ---------------------------------------------------------------------------
  // editSettings

  /** The auto-import part of the settings, as read before or after the dialog. */
  datatype ImportSettings = ImportSettings(
    useAutoImport: bool,
    autoImportLexicons: seq<string>,
    autoImportFile: string,
    styles: seq<LexiconStyle>
  )

  /** What editSettings goes on to do: import `imports` (and reconnect to the
      databases when that set is non-empty), record a symbols-out-of-date error for
      each lexicon of `symbolErrors`, and offer to process the errors when asked. */
  datatype SettingsEffect = SettingsEffect(
    imports: set<string>,
    symbolErrors: set<string>,
    processErrors: bool
  )

  function ToSet(xs: seq<string>): (s: set<string>)
    ensures forall x :: x in s <==> x in xs
  {
    set x | x in xs
  }

  /** QList::removeAll(style): what remains after dropping every element equal to
      `style` under the style equality `same`. */
  function RemoveAll(xs: seq<LexiconStyle>, style: LexiconStyle,
                     same: (LexiconStyle, LexiconStyle) -> bool): (r: seq<LexiconStyle>)
    ensures |r| <= |xs|
    ensures forall x :: x in r <==> x in xs && !same(x, style)
    ensures (exists x :: x in xs && same(x, style)) <==> |r| < |xs|
  {
    if |xs| == 0 then []
    else
      var rest := RemoveAll(xs[1..], style, same);
      assert forall x :: x in xs <==> x == xs[0] || x in xs[1..];
      if same(xs[0], style) then rest else [xs[0]] + rest
  }

  /** `x` is equal to none of the first `n` old styles, so none of them removed it. */
  predicate Survives(x: LexiconStyle, olds: seq<LexiconStyle>, n: nat, same: (LexiconStyle, LexiconStyle) -> bool)
    requires n <= |olds|
  {
    forall j :: 0 <= j < n ==> !same(x, olds[j])
  }

  /** The i-th old style still finds an equal among the new styles, i.e. one that no
      earlier old style has removed. */
  predicate FindsEqual(olds: seq<LexiconStyle>, remaining: seq<LexiconStyle>, i: nat,
                       same: (LexiconStyle, LexiconStyle) -> bool)
    requires i < |olds|
  {
    exists x :: x in remaining && same(x, olds[i]) && Survives(x, olds, i, same)
  }

  /** The i-th old style flags its lexicon: it removed nothing, or its compare
      lexicon is being added. */
  predicate FlagsAt(olds: seq<LexiconStyle>, remaining: seq<LexiconStyle>, i: nat, added: set<string>,
                    same: (LexiconStyle, LexiconStyle) -> bool)
    requires i < |olds|
  {
    !FindsEqual(olds, remaining, i, same) || olds[i].compareLexicon in added
  }

  /** The scan over the old styles: each one removes its equals from what is left of
      the new styles, and its lexicon is flagged when nothing was removed or when its
      compare lexicon is being added.  Returns the flagged lexicons and the new
      styles no old style removed. */
  function ScanOldStyles(olds: seq<LexiconStyle>, remaining: seq<LexiconStyle>, added: set<string>,
                         same: (LexiconStyle, LexiconStyle) -> bool): (r: (set<string>, seq<LexiconStyle>))
    ensures forall x :: x in r.1 ==> x in remaining
    ensures forall x :: x in r.1 ==> forall i :: 0 <= i < |olds| ==> !same(x, olds[i])
    ensures forall x :: x in remaining && (forall i :: 0 <= i < |olds| ==> !same(x, olds[i])) ==> x in r.1
    ensures forall l :: l in r.0 ==> exists i :: 0 <= i < |olds| && olds[i].lexicon == l
    ensures forall i :: 0 <= i < |olds| && olds[i].compareLexicon in added ==> olds[i].lexicon in r.0
    ensures forall i :: 0 <= i < |olds| && (forall x :: x in remaining ==> !same(x, olds[i])) ==>
              olds[i].lexicon in r.0
  {
    if |olds| == 0 then ({}, remaining)
    else
      var style := olds[0];
      var left := RemoveAll(remaining, style, same);
      var removed := |left| < |remaining|;
      var tail := ScanOldStyles(olds[1..], left, added, same);
      var here: set<string> := if !removed || style.compareLexicon in added then {style.lexicon} else {};
      assert forall i :: 1 <= i < |olds| ==> olds[i] == olds[1..][i - 1];
      (here + tail.0, tail.1)
  }

  /** The old styles after the first see the new styles the first left behind: the
      (k+1)-th old style finds an equal in the full list exactly when the k-th of the
      rest finds one in what the first style left. */
  lemma FindsEqualAfterFirst(olds: seq<LexiconStyle>, remaining: seq<LexiconStyle>, k: nat,
                             same: (LexiconStyle, LexiconStyle) -> bool)
    requires k + 1 < |olds|
    ensures FindsEqual(olds[1..], RemoveAll(remaining, olds[0], same), k, same)
        <==> FindsEqual(olds, remaining, k + 1, same)
  {
    var left := RemoveAll(remaining, olds[0], same);
    if FindsEqual(olds[1..], left, k, same) {
      var x :| x in left && same(x, olds[1..][k]) && Survives(x, olds[1..], k, same);
      forall j | 0 <= j < k + 1 ensures !same(x, olds[j]) {
        if j > 0 { assert olds[j] == olds[1..][j - 1]; }
      }
      assert x in remaining && same(x, olds[k + 1]) && Survives(x, olds, k + 1, same);
    }
    if FindsEqual(olds, remaining, k + 1, same) {
      var x :| x in remaining && same(x, olds[k + 1]) && Survives(x, olds, k + 1, same);
      forall j | 0 <= j < k ensures !same(x, olds[1..][j]) {
        assert olds[1..][j] == olds[j + 1];
      }
      assert x in left && same(x, olds[1..][k]) && Survives(x, olds[1..], k, same);
    }
  }

  /** The first old style finds an equal exactly when removeAll removes something. */
  lemma FindsEqualFirst(olds: seq<LexiconStyle>, remaining: seq<LexiconStyle>,
                        same: (LexiconStyle, LexiconStyle) -> bool)
    requires 0 < |olds|
    ensures FindsEqual(olds, remaining, 0, same) <==> |RemoveAll(remaining, olds[0], same)| < |remaining|
  {
    if |RemoveAll(remaining, olds[0], same)| < |remaining| {
      var x :| x in remaining && same(x, olds[0]);
      assert Survives(x, olds, 0, same);
    }
  }

  /** Exactly the lexicons of the old styles that flag are flagged: an old style that
      still finds an equal and whose compare lexicon is not added flags nothing. */
  lemma {:induction false} ScanFlagsExactly(olds: seq<LexiconStyle>, remaining: seq<LexiconStyle>, added: set<string>,
                                            same: (LexiconStyle, LexiconStyle) -> bool)
    ensures forall l :: l in ScanOldStyles(olds, remaining, added, same).0 <==>
              exists i :: 0 <= i < |olds| && olds[i].lexicon == l && FlagsAt(olds, remaining, i, added, same)
  {
    if |olds| > 0 {
      var left := RemoveAll(remaining, olds[0], same);
      var tail := ScanOldStyles(olds[1..], left, added, same).0;
      ScanFlagsExactly(olds[1..], left, added, same);
      FindsEqualFirst(olds, remaining, same);
      var here: set<string> := if FlagsAt(olds, remaining, 0, added, same) then {olds[0].lexicon} else {};
      assert ScanOldStyles(olds, remaining, added, same).0 == here + tail;
      forall l ensures l in here + tail <==>
        exists i :: 0 <= i < |olds| && olds[i].lexicon == l && FlagsAt(olds, remaining, i, added, same)
      {
        ScanFlagsStep(olds, remaining, added, same, l, tail);
      }
    }
  }

  /** One step of ScanFlagsExactly for one lexicon: the first old style's own flag
      joined with what the rest flag, given the claim for the rest. */
  lemma ScanFlagsStep(olds: seq<LexiconStyle>, remaining: seq<LexiconStyle>, added: set<string>,
                      same: (LexiconStyle, LexiconStyle) -> bool, l: string, tail: set<string>)
    requires 0 < |olds|
    requires l in tail <==>
      exists i :: 0 <= i < |olds| - 1 && olds[1..][i].lexicon == l
                  && FlagsAt(olds[1..], RemoveAll(remaining, olds[0], same), i, added, same)
    ensures (|| (l == olds[0].lexicon && FlagsAt(olds, remaining, 0, added, same))
             || l in tail) <==>
      exists i :: 0 <= i < |olds| && olds[i].lexicon == l && FlagsAt(olds, remaining, i, added, same)
  {
    var left := RemoveAll(remaining, olds[0], same);
    if l in tail {
      var k :| 0 <= k < |olds| - 1 && olds[1..][k].lexicon == l && FlagsAt(olds[1..], left, k, added, same);
      FindsEqualAfterFirst(olds, remaining, k, same);
      assert olds[k + 1].lexicon == l && FlagsAt(olds, remaining, k + 1, added, same);
    }
    if exists i :: 0 <= i < |olds| && olds[i].lexicon == l && FlagsAt(olds, remaining, i, added, same) {
      var i :| 0 <= i < |olds| && olds[i].lexicon == l && FlagsAt(olds, remaining, i, added, same);
      if i > 0 {
        FindsEqualAfterFirst(olds, remaining, i - 1, same);
        assert olds[1..][i - 1].lexicon == l && FlagsAt(olds[1..], left, i - 1, added, same);
      }
    }
  }

  /** The lexicons added to the import list: every selected lexicon when auto-import
      was just switched on, the newly selected ones otherwise, and the custom lexicon
      when it is selected and its file changed. */
  function AddedLexicons(before: ImportSettings, after: ImportSettings, names: LexiconNames): (r: set<string>)
    ensures forall l :: l in r <==>
      || (l in after.autoImportLexicons && (!before.useAutoImport || l !in before.autoImportLexicons))
      || (l == names.custom && before.autoImportFile != after.autoImportFile && names.custom in after.autoImportLexicons)
  {
    var newLexicons := ToSet(after.autoImportLexicons);
    var added0 := if !before.useAutoImport then newLexicons else newLexicons - ToSet(before.autoImportLexicons);
    if before.autoImportFile != after.autoImportFile && names.custom in newLexicons
    then added0 + {names.custom} else added0
  }

  /** The lexicons flagged for a symbol rebuild, before the added ones are taken out. */
  function SymbolCandidates(before: ImportSettings, after: ImportSettings, added: set<string>,
                            same: (LexiconStyle, LexiconStyle) -> bool): set<string>
  {
    var scan := ScanOldStyles(before.styles, after.styles, added, same);
    scan.0 + (set s | s in scan.1 :: s.lexicon)
  }

  /** MainWindow::editSettings, after the dialog: None when it returns early,
      otherwise the imports and symbol rebuilds it requests. */
  function EditSettings(accepted: bool, before: ImportSettings, after: ImportSettings,
                        names: LexiconNames, same: (LexiconStyle, LexiconStyle) -> bool): (r: Option<SettingsEffect>)
    ensures r.None? <==> !accepted || !after.useAutoImport
    ensures r.Some? ==> r.value.imports == AddedLexicons(before, after, names) + r.value.symbolErrors
    ensures r.Some? ==>
      r.value.symbolErrors == SymbolCandidates(before, after, AddedLexicons(before, after, names), same)
                              - AddedLexicons(before, after, names)
    ensures r.Some? ==> (r.value.processErrors <==> r.value.symbolErrors != {})
  {
    if !accepted || !after.useAutoImport then None
    else
      var added := AddedLexicons(before, after, names);
      var symbol := SymbolCandidates(before, after, added, same) - added;
      Some(SettingsEffect(added + symbol, symbol, symbol != {}))
  }

  /** Which lexicons get a symbol rebuild: exactly the lexicons of the old styles that
      flag (they find no equal left among the new styles, or compare against an added
      lexicon) and of the new styles equal to no old style. */
  lemma SymbolCandidatesCharacterised(before: ImportSettings, after: ImportSettings, added: set<string>,
                                      same: (LexiconStyle, LexiconStyle) -> bool)
    ensures forall l :: l in SymbolCandidates(before, after, added, same) <==>
              || (exists i :: 0 <= i < |before.styles| && before.styles[i].lexicon == l
                              && FlagsAt(before.styles, after.styles, i, added, same))
              || (exists n :: n in after.styles && n.lexicon == l
                              && Survives(n, before.styles, |before.styles|, same))
  {
    ScanFlagsExactly(before.styles, after.styles, added, same);
    var scan := ScanOldStyles(before.styles, after.styles, added, same);
    forall l ensures l in SymbolCandidates(before, after, added, same) <==>
              || (exists i :: 0 <= i < |before.styles| && before.styles[i].lexicon == l
                              && FlagsAt(before.styles, after.styles, i, added, same))
              || (exists n :: n in after.styles && n.lexicon == l
                              && Survives(n, before.styles, |before.styles|, same))
    {
      if exists n :: n in after.styles && n.lexicon == l && Survives(n, before.styles, |before.styles|, same) {
        var n :| n in after.styles && n.lexicon == l && Survives(n, before.styles, |before.styles|, same);
        assert n in scan.1;
      }
    }
  }

  /** What editSettings imports and rebuilds, spelled out: a lexicon is rebuilt exactly
      when it is not added and its symbols are flagged by the style scan. */
  lemma EditSettingsCharacterised(before: ImportSettings, after: ImportSettings, names: LexiconNames,
                                  same: (LexiconStyle, LexiconStyle) -> bool, l: string)
    requires after.useAutoImport
    ensures var r := EditSettings(true, before, after, names, same).value;
      var added := AddedLexicons(before, after, names);
      && (l in r.symbolErrors <==>
            l !in added
            && (|| (exists i :: 0 <= i < |before.styles| && before.styles[i].lexicon == l
                                && FlagsAt(before.styles, after.styles, i, added, same))
                || (exists n :: n in after.styles && n.lexicon == l
                                && Survives(n, before.styles, |before.styles|, same))))
      && (l in r.imports <==> l in added || l in r.symbolErrors)
  {
    SymbolCandidatesCharacterised(before, after, AddedLexicons(before, after, names), same);
  }

  /** The scan is order-dependent: an old style listed twice finds its equal already
      removed the second time and flags its lexicon, although the styles did not change. */
  lemma DuplicateOldStyleIsFlagged(s: LexiconStyle, added: set<string>)
    ensures var same := (a: LexiconStyle, b: LexiconStyle) => a == b;
      var settings := ImportSettings(true, [], "", [s, s]);
      s.lexicon in SymbolCandidates(settings, settings, added, same)
  {
    var same := (a: LexiconStyle, b: LexiconStyle) => a == b;
    assert RemoveAll([s, s], s, same) == [];
    assert RemoveAll([], s, same) == [];
  }

  /** editSettings requests nothing when the dialog is rejected or auto-import is off,
      whatever the settings say. */
  lemma RejectedDialogImportsNothing(before: ImportSettings, after: ImportSettings,
                                     names: LexiconNames, same: (LexiconStyle, LexiconStyle) -> bool)
    ensures EditSettings(false, before, after, names, same) == None
    ensures !after.useAutoImport ==> EditSettings(true, before, after, names, same) == None
  {
  }

  /** Unchanged settings with auto-import already on, and a style equality that is an
      equivalence, import nothing and rebuild nothing, provided the style list has no
      two equal entries. */
  lemma UnchangedSettingsDoNothing(s: ImportSettings, names: LexiconNames,
                                    same: (LexiconStyle, LexiconStyle) -> bool)
    requires s.useAutoImport
    requires forall a, b :: same(a, b) <==> a == b
    requires forall i, j :: 0 <= i < j < |s.styles| ==> s.styles[i] != s.styles[j]
    ensures EditSettings(true, s, s, names, same) == Some(SettingsEffect({}, {}, false))
  {
    ScanDistinctAgainstItself(s.styles, same);
    var lexicons := ToSet(s.autoImportLexicons);
    assert lexicons - lexicons == {};
    var scan := ScanOldStyles(s.styles, s.styles, {}, same);
    assert scan.0 == {} && scan.1 == [];
    assert (set x | x in scan.1 :: x.lexicon) == {};
    var r := EditSettings(true, s, s, names, same);
    assert r.Some?;
    assert r.value.symbolErrors == {};
    assert r.value.imports == {};
  }

  /** Scanning a duplicate-free list against itself flags nothing and leaves nothing. */
  lemma {:induction false} ScanDistinctAgainstItself(xs: seq<LexiconStyle>, same: (LexiconStyle, LexiconStyle) -> bool)
    requires forall a, b :: same(a, b) <==> a == b
    requires forall i, j :: 0 <= i < j < |xs| ==> xs[i] != xs[j]
    ensures ScanOldStyles(xs, xs, {}, same) == ({}, [])
  {
    ScanSuffix(xs, 0, same);
    assert xs[0..] == xs;
  }

  /** Scanning the suffix xs[k..] against itself, as the remainder left after its prefix. */
  lemma {:induction false} ScanSuffix(xs: seq<LexiconStyle>, k: nat, same: (LexiconStyle, LexiconStyle) -> bool)
    requires k <= |xs|
    requires forall a, b :: same(a, b) <==> a == b
    requires forall i, j :: 0 <= i < j < |xs| ==> xs[i] != xs[j]
    ensures ScanOldStyles(xs[k..], xs[k..], {}, same) == ({}, [])
    decreases |xs| - k
  {
    if k < |xs| {
      var olds := xs[k..];
      assert olds[1..] == xs[k + 1..];
      RemoveAllDistinctHead(olds, same);
      var left := RemoveAll(olds, olds[0], same);
      assert left == olds[1..];
      assert |left| < |olds|;
      ScanSuffix(xs, k + 1, same);
      var tail := ScanOldStyles(olds[1..], left, {}, same);
      assert tail == ({}, []);
      assert ScanOldStyles(olds, olds, {}, same).0 == {} + tail.0;
      assert ScanOldStyles(olds, olds, {}, same).0 == {};
      assert ScanOldStyles(olds, olds, {}, same).1 == [];
    }
  }

  lemma {:induction false} RemoveAllDistinctHead(xs: seq<LexiconStyle>, same: (LexiconStyle, LexiconStyle) -> bool)
    requires |xs| > 0
    requires forall a, b :: same(a, b) <==> a == b
    requires forall i, j :: 0 <= i < j < |xs| ==> xs[i] != xs[j]
    ensures RemoveAll(xs, xs[0], same) == xs[1..]
  {
    RemoveAllAbsent(xs[1..], xs[0], same);
  }

  lemma {:induction false} RemoveAllAbsent(xs: seq<LexiconStyle>, style: LexiconStyle,
                                           same: (LexiconStyle, LexiconStyle) -> bool)
    requires forall i :: 0 <= i < |xs| ==> !same(xs[i], style)
    ensures RemoveAll(xs, style, same) == xs
  {
    if |xs| > 0 {
      RemoveAllAbsent(xs[1..], style, same);
    }
  }

  // ---------------------------------------------------------------------------
  // updateSettings

  /** Two styles describe the same comparison: equal lexicon, compare lexicon and
      in-compare flag (the symbol is not compared). */
  predicate SameComparison(a: LexiconStyle, b: LexiconStyle)
  {
    a.lexicon == b.lexicon && a.compareLexicon == b.compareLexicon && a.inCompareLexicon == b.inCompareLexicon
  }

  predicate HasComparison(styles: seq<LexiconStyle>, s: LexiconStyle)
  {
    exists x :: x in styles && SameComparison(s, x)
  }

  /** The three default styles added in version 2.1.3. */
  function DefaultStyles(names: LexiconNames): seq<LexiconStyle>
  {
    [ LexiconStyle(names.csw12, names.owl2, false, "#"),
      LexiconStyle(names.csw12, names.csw07, false, "+"),
      LexiconStyle(names.csw07, names.csw12, false, "^") ]
  }

  /** Append each of `adds` whose comparison is not already in the list, checking
      against the list as it grows. */
  function MergeStyles(styles: seq<LexiconStyle>, adds: seq<LexiconStyle>): (r: seq<LexiconStyle>)
    ensures |styles| <= |r| <= |styles| + |adds|
    ensures r[..|styles|] == styles
    decreases |adds|
  {
    if |adds| == 0 then styles
    else
      var next := if HasComparison(styles, adds[0]) then styles else styles + [adds[0]];
      var r := MergeStyles(next, adds[1..]);
      assert r[..|styles|] == r[..|next|][..|styles|];
      r
  }

  /** One step of the merge, as the loop body performs it. */
  lemma MergeStylesStep(styles: seq<LexiconStyle>, adds: seq<LexiconStyle>)
    requires |adds| > 0
    ensures MergeStyles(styles, adds)
         == MergeStyles(if HasComparison(styles, adds[0]) then styles else styles + [adds[0]], adds[1..])
  {
  }

  /** A style in a prefix of the merge result stays in it. */
  lemma PrefixKeepsComparison(prefix: seq<LexiconStyle>, r: seq<LexiconStyle>, a: LexiconStyle)
    requires |prefix| <= |r| && r[..|prefix|] == prefix
    requires HasComparison(prefix, a)
    ensures HasComparison(r, a)
  {
    var x :| x in prefix && SameComparison(a, x);
    var k :| 0 <= k < |prefix| && prefix[k] == x;
    assert r[k] == x;
  }

  /** After the merge, every added style's comparison is present. */
  lemma {:induction false} MergeStylesCovers(styles: seq<LexiconStyle>, adds: seq<LexiconStyle>)
    ensures forall a :: a in adds ==> HasComparison(MergeStyles(styles, adds), a)
    decreases |adds|
  {
    if |adds| > 0 {
      var a := adds[0];
      var next := if HasComparison(styles, a) then styles else styles + [a];
      assert HasComparison(next, a) by {
        if !HasComparison(styles, a) {
          assert next[|styles|] == a;
          assert a in next;
          assert SameComparison(a, a);
        }
      }
      MergeStylesStep(styles, adds);
      MergeStylesCovers(next, adds[1..]);
      PrefixKeepsComparison(next, MergeStyles(styles, adds), a);
      forall b | b in adds ensures HasComparison(MergeStyles(styles, adds), b) {
        if b != a {
          assert b in adds[1..];
        }
      }
    }
  }

  /** The merge only appends, and only additions whose comparison is not yet in the list
      (including the entries appended before them). */
  lemma {:induction false} MergeStylesAppendsOnlyMissing(styles: seq<LexiconStyle>, adds: seq<LexiconStyle>)
    ensures var r := MergeStyles(styles, adds);
      forall i :: |styles| <= i < |r| ==> r[i] in adds && !HasComparison(r[..i], r[i])
    decreases |adds|
  {
    if |adds| > 0 {
      var a := adds[0];
      var next := if HasComparison(styles, a) then styles else styles + [a];
      var r := MergeStyles(styles, adds);
      MergeStylesStep(styles, adds);
      MergeStylesAppendsOnlyMissing(next, adds[1..]);
      forall i | |styles| <= i < |r| ensures r[i] in adds && !HasComparison(r[..i], r[i]) {
        if i < |next| {
          assert i == |styles| && r[i] == a;
          assert r[..i] == styles;
        } else {
          assert r[i] in adds[1..];
        }
      }
    }
  }

  /** Merging twice adds nothing the first merge did not. */
  lemma MergeStylesIdempotent(styles: seq<LexiconStyle>, adds: seq<LexiconStyle>)
    ensures MergeStyles(MergeStyles(styles, adds), adds) == MergeStyles(styles, adds)
  {
    MergeStylesCovers(styles, adds);
    MergeAllPresent(MergeStyles(styles, adds), adds);
  }

  /** A merge whose every addition is already present changes nothing. */
  lemma {:induction false} MergeAllPresent(styles: seq<LexiconStyle>, adds: seq<LexiconStyle>)
    requires forall a :: a in adds ==> HasComparison(styles, a)
    ensures MergeStyles(styles, adds) == styles
  {
    if |adds| > 0 {
      assert adds[0] in adds;
      assert forall a :: a in adds[1..] ==> a in adds;
      MergeStylesStep(styles, adds);
      MergeAllPresent(styles, adds[1..]);
    }
  }

  /** MainWindow::updateSettings: the style list to write, or None when nothing is written. */
  function UpdateSettings(prevVersion: string, currVersion: string, styles: seq<LexiconStyle>,
                          names: LexiconNames, lessThanVersion: (string, string) -> bool): (r: Option<seq<LexiconStyle>>)
    ensures prevVersion == currVersion ==> r.None?
    ensures r.Some? <==>
      && prevVersion != currVersion
      && lessThanVersion(prevVersion, "2.1.3")
      && (currVersion == "2.1.3" || lessThanVersion("2.1.3", currVersion))
      && exists d :: d in DefaultStyles(names) && !HasComparison(styles, d)
    ensures r.Some? ==> r.value == MergeStyles(styles, DefaultStyles(names))
    ensures r.Some? ==> |r.value| > |styles| && r.value[..|styles|] == styles
    ensures r.Some? ==> forall d :: d in DefaultStyles(names) ==> HasComparison(r.value, d)
  {
    if prevVersion == currVersion then None
    else if lessThanVersion(prevVersion, "2.1.3") && (currVersion == "2.1.3" || lessThanVersion("2.1.3", currVersion)) then
      var merged := MergeStyles(styles, DefaultStyles(names));
      MergeGrowsIffMissing(styles, DefaultStyles(names));
      MergeStylesCovers(styles, DefaultStyles(names));
      if |merged| > |styles| then Some(merged) else None
    else None
  }

  /** The merge grows the list exactly when some addition's comparison is missing. */
  lemma MergeGrowsIffMissing(styles: seq<LexiconStyle>, adds: seq<LexiconStyle>)
    ensures |MergeStyles(styles, adds)| > |styles| <==> exists a :: a in adds && !HasComparison(styles, a)
  {
    if forall a :: a in adds ==> HasComparison(styles, a) {
      MergeAllPresent(styles, adds);
    } else {
      var a :| a in adds && !HasComparison(styles, a);
      MergeStylesCovers(styles, adds);
      assert HasComparison(MergeStyles(styles, adds), a);
    }
  }

  // ---------------------------------------------------------------------------
  // renameLexicon

  /** A style with `oldName` replaced by `newName` in its lexicon and compare lexicon. */
  function RenameInStyle(s: LexiconStyle, oldName: string, newName: string): LexiconStyle
  {
    s.(lexicon := if s.lexicon == oldName then newName else s.lexicon,
       compareLexicon := if s.compareLexicon == oldName then newName else s.compareLexicon)
  }

  predicate MentionsLexicon(s: LexiconStyle, name: string)
  {
    s.lexicon == name || s.compareLexicon == name
  }

  /** Every style renamed, in place. */
  function RenameStyles(styles: seq<LexiconStyle>, oldName: string, newName: string): (r: seq<LexiconStyle>)
    ensures |r| == |styles|
    ensures forall i :: 0 <= i < |r| ==> r[i] == RenameInStyle(styles[i], oldName, newName)
  {
    seq(|styles|, i requires 0 <= i < |styles| => RenameInStyle(styles[i], oldName, newName))
  }

  /** The settings writes renameLexicon makes: the rewritten auto-import list when it
      held the old name, and the rewritten styles when one of them mentioned it. */
  datatype RenameWrites = RenameWrites(autoImportLexicons: Option<seq<string>>, styles: Option<seq<LexiconStyle>>)

  function RenameLexicon(autoImportLexicons: seq<string>, styles: seq<LexiconStyle>,
                         oldName: string, newName: string): (w: RenameWrites)
    ensures w.autoImportLexicons.Some? <==> oldName in autoImportLexicons
    ensures w.autoImportLexicons.Some? ==>
      var r := w.autoImportLexicons.value;
      |r| == |autoImportLexicons|
      && forall i :: 0 <= i < |r| ==>
           r[i] == (if autoImportLexicons[i] == oldName then newName else autoImportLexicons[i])
    ensures w.styles.Some? <==> exists i :: 0 <= i < |styles| && MentionsLexicon(styles[i], oldName)
    ensures w.styles.Some? ==>
      var r := w.styles.value;
      |r| == |styles|
      && forall i :: 0 <= i < |r| ==>
           && r[i].lexicon == (if styles[i].lexicon == oldName then newName else styles[i].lexicon)
           && r[i].compareLexicon == (if styles[i].compareLexicon == oldName then newName else styles[i].compareLexicon)
           && r[i].inCompareLexicon == styles[i].inCompareLexicon
           && r[i].symbol == styles[i].symbol
  {
    var mentioned := exists i :: 0 <= i < |styles| && MentionsLexicon(styles[i], oldName);
    RenameWrites(
      if oldName in autoImportLexicons then Some(ReplaceAll(autoImportLexicons, oldName, newName)) else None,
      if mentioned then Some(RenameStyles(styles, oldName, newName)) else None)
  }

  /** Renaming to a name no style mentions and back again restores the styles, and
      after a rename to a different name the old name is mentioned nowhere. */
  lemma RenameStylesInverse(styles: seq<LexiconStyle>, oldName: string, newName: string)
    requires forall i :: 0 <= i < |styles| ==> !MentionsLexicon(styles[i], newName)
    ensures RenameStyles(RenameStyles(styles, oldName, newName), newName, oldName) == styles
    ensures oldName != newName ==>
      forall i :: 0 <= i < |styles| ==> !MentionsLexicon(RenameStyles(styles, oldName, newName)[i], oldName)
  {
  }
}
