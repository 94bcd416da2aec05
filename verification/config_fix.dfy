/** The Trolltech.conf repair: every line starting with "filedialog=" is dropped and
    the rest are written back in order. */
module ConfigFix {

  predicate StartsWith(s: string, prefix: string)
  {
    |prefix| <= |s| && s[..|prefix|] == prefix
  }

  const FileDialogKey: string := "filedialog="

  /** The lines kept by MainWindow::fixTrolltechConfig. */
  function KeepConfigLines(lines: seq<string>): (kept: seq<string>)
    ensures |kept| <= |lines|
    ensures forall i :: 0 <= i < |kept| ==> !StartsWith(kept[i], FileDialogKey) && kept[i] in lines
    ensures forall l :: l in lines && !StartsWith(l, FileDialogKey) ==> l in kept
  {
    if |lines| == 0 then []
    else
      var rest := KeepConfigLines(lines[1..]);
      assert forall l :: l in lines <==> l == lines[0] || l in lines[1..];
      if StartsWith(lines[0], FileDialogKey) then rest else [lines[0]] + rest
  }

  /** Filtering works line by line. */
  lemma {:induction false} KeepConfigLinesAppend(a: seq<string>, b: seq<string>)
    ensures KeepConfigLines(a + b) == KeepConfigLines(a) + KeepConfigLines(b)
  {
    if |a| > 0 {
      assert (a + b)[1..] == a[1..] + b;
      KeepConfigLinesAppend(a[1..], b);
    } else {
      assert a + b == b;
    }
  }

  /** A repaired file needs no further repair, and a file without file-dialog lines
      is written back unchanged. */
  lemma {:induction false} KeepConfigLinesIdempotent(lines: seq<string>)
    ensures KeepConfigLines(KeepConfigLines(lines)) == KeepConfigLines(lines)
  {
    KeepWhenNoneMatch(KeepConfigLines(lines));
  }

  lemma {:induction false} KeepWhenNoneMatch(lines: seq<string>)
    requires forall i :: 0 <= i < |lines| ==> !StartsWith(lines[i], FileDialogKey)
    ensures KeepConfigLines(lines) == lines
  {
    if |lines| > 0 {
      KeepWhenNoneMatch(lines[1..]);
    }
  }
}
