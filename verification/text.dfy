/** ASCII models of the QString operations the word-file reader and the reschedule
    report rely on: whitespace simplification, first space-separated section,
    upper-casing, joining and decimal rendering of an int. */
module Text {
  import opened Optional

  /** The ASCII characters QChar::isSpace accepts: tab, line feed, vertical tab,
      form feed, carriage return and space. */
  predicate IsSpace(c: char)
  {
    c == ' ' || 9 <= c as int <= 13
  }

  predicate NoSpace(s: string)
  {
    forall i :: 0 <= i < |s| ==> !IsSpace(s[i])
  }

  /** A token of a simplified line: non-empty and free of whitespace. */
  predicate IsToken(s: string)
  {
    |s| > 0 && NoSpace(s)
  }

  /** Length of the leading run of non-space characters of `s`. */
  function RunLength(s: string): (k: nat)
    ensures k <= |s|
    ensures NoSpace(s[..k])
    ensures k < |s| ==> IsSpace(s[k])
  {
    if |s| == 0 || IsSpace(s[0]) then 0
    else 1 + RunLength(s[1..])
  }

  /** The maximal runs of non-space characters of `s`, left to right. */
  function Tokens(s: string): (ts: seq<string>)
    ensures forall i :: 0 <= i < |ts| ==> IsToken(ts[i])
    ensures NoSpace(s) && |s| > 0 ==> ts == [s]
    decreases |s|
  {
    if |s| == 0 then []
    else if IsSpace(s[0]) then Tokens(s[1..])
    else
      var k := RunLength(s);
      assert NoSpace(s) ==> k == |s|;
      assert NoSpace(s) ==> s[..k] == s && |s[k..]| == 0;
      [s[..k]] + Tokens(s[k..])
  }

  /** `ws` joined with `sep` between consecutive elements (QStringList::join). */
  function Join(ws: seq<string>, sep: string): (r: string)
    ensures |ws| == 0 ==> r == ""
    ensures |ws| == 1 ==> r == ws[0]
    ensures |ws| > 1 ==> r == ws[0] + sep + Join(ws[1..], sep)
  {
    if |ws| == 0 then ""
    else if |ws| == 1 then ws[0]
    else ws[0] + sep + Join(ws[1..], sep)
  }

  /** QString::simplified over ASCII: leading and trailing whitespace removed and
      every inner run of whitespace replaced by one space. */
  function Simplified(s: string): string
  {
    Join(Tokens(s), " ")
  }

  /** QString::section(' ', 0, 0): everything before the first space, or all of `s`. */
  function FirstSection(s: string): (r: string)
    ensures |r| <= |s| && r == s[..|r|]
    ensures ' ' !in r
    ensures |r| < |s| ==> s[|r|] == ' '
  {
    if |s| == 0 then ""
    else if s[0] == ' ' then ""
    else [s[0]] + FirstSection(s[1..])
  }

  /** QString::toUpper over ASCII: 'a'..'z' become 'A'..'Z', everything else is kept. */
  function UpperChar(c: char): (u: char)
    ensures !('a' <= u <= 'z')
    ensures 'a' <= c <= 'z' ==> u as int == c as int - 32 && 'A' <= u <= 'Z'
    ensures !('a' <= c <= 'z') ==> u == c
  {
    if 'a' <= c <= 'z' then (c as int - 32) as char else c
  }

  function Upper(s: string): (r: string)
    ensures |r| == |s|
    ensures forall i :: 0 <= i < |s| ==> r[i] == UpperChar(s[i])
  {
    seq(|s|, i requires 0 <= i < |s| => UpperChar(s[i]))
  }

  /** A run of non-space characters followed by a space (or nothing) ends exactly there. */
  lemma {:induction false} RunLengthOfToken(w: string, rest: string)
    requires NoSpace(w)
    requires |rest| == 0 || IsSpace(rest[0])
    ensures RunLength(w + rest) == |w|
  {
    if |w| > 0 {
      assert (w + rest)[1..] == w[1..] + rest;
      RunLengthOfToken(w[1..], rest);
    } else {
      assert w + rest == rest;
    }
  }

  /** Leading whitespace does not change the tokens. */
  lemma {:induction false} TokensSkipSpace(s: string)
    requires |s| > 0 && IsSpace(s[0])
    ensures Tokens(s) == Tokens(s[1..])
  {
  }

  /** Splitting a space-joined list of tokens gives the list back. */
  lemma {:induction false} TokensOfJoin(ws: seq<string>)
    requires forall i :: 0 <= i < |ws| ==> IsToken(ws[i])
    ensures Tokens(Join(ws, " ")) == ws
  {
    if |ws| == 1 {
      assert Tokens(ws[0]) == [ws[0]];
    } else if |ws| > 1 {
      var w := ws[0];
      var tail := " " + Join(ws[1..], " ");
      var s := Join(ws, " ");
      assert s == w + tail;
      RunLengthOfToken(w, tail);
      assert s[..|w|] == w;
      assert s[|w|..] == tail;
      assert Tokens(tail) == Tokens(Join(ws[1..], " ")) by {
        TokensSkipSpace(tail);
        assert tail[1..] == Join(ws[1..], " ");
      }
      TokensOfJoin(ws[1..]);
      assert ws == [w] + ws[1..];
    }
  }

  /** Simplification is idempotent, as for QString::simplified. */
  lemma SimplifiedIdempotent(s: string)
    ensures Simplified(Simplified(s)) == Simplified(s)
  {
    TokensOfJoin(Tokens(s));
  }

  /** The first section of a space-joined token list is its first token. */
  lemma {:induction false} FirstSectionOfJoin(ws: seq<string>)
    requires |ws| > 0
    requires forall i :: 0 <= i < |ws| ==> IsToken(ws[i])
    ensures FirstSection(Join(ws, " ")) == ws[0]
  {
    var s := Join(ws, " ");
    var w := ws[0];
    assert |ws| > 1 ==> s == w + " " + Join(ws[1..], " ");
    assert s[..|w|] == w;
    FirstSectionOfSpaceFree(w, s);
  }

  /** A space-free prefix followed by a space or by the end is the first section. */
  lemma {:induction false} FirstSectionOfSpaceFree(w: string, s: string)
    requires NoSpace(w) && |w| <= |s| && s[..|w|] == w
    requires |w| < |s| ==> s[|w|] == ' '
    ensures FirstSection(s) == w
  {
    if |w| > 0 {
      assert s[1..][..|w| - 1] == w[1..];
      FirstSectionOfSpaceFree(w[1..], s[1..]);
    }
  }

  /** The first section of a simplified non-blank line is the line's first token. */
  lemma FirstSectionOfSimplified(s: string)
    requires |Tokens(s)| > 0
    ensures FirstSection(Simplified(s)) == Tokens(s)[0]
  {
    FirstSectionOfJoin(Tokens(s));
  }

  /** A simplified line is empty exactly when the line is blank, and otherwise
      starts with the first character of its first token. */
  lemma SimplifiedShape(s: string)
    ensures |Simplified(s)| == 0 <==> |Tokens(s)| == 0
    ensures |Tokens(s)| > 0 ==> Simplified(s)[0] == Tokens(s)[0][0]
  {
    var ts := Tokens(s);
    if |ts| > 1 {
      assert Simplified(s) == ts[0] + " " + Join(ts[1..], " ");
    }
  }

  // ---------------------------------------------------------------------------
  // Decimal rendering (QString::number on an int) and its inverse

  function DigitChar(d: nat): (c: char)
    requires d < 10
    ensures '0' <= c <= '9'
    ensures c as int - '0' as int == d
  {
    ('0' as int + d) as char
  }

  predicate IsDigit(c: char)
  {
    '0' <= c <= '9'
  }

  predicate AllDigits(s: string)
  {
    forall i :: 0 <= i < |s| ==> IsDigit(s[i])
  }

  /** Decimal digits of `n`, most significant first, with no leading zero. */
  function NatToString(n: nat): (s: string)
    ensures |s| > 0 && AllDigits(s)
    ensures |s| > 1 ==> s[0] != '0'
  {
    if n < 10 then [DigitChar(n)]
    else NatToString(n / 10) + [DigitChar(n % 10)]
  }

  /** The number written in decimal as `s`. */
  function ParseNat(s: string): nat
    requires AllDigits(s)
  {
    if |s| == 0 then 0
    else 10 * ParseNat(s[..|s| - 1]) + (s[|s| - 1] as int - '0' as int)
  }

  /** QString::number for an int: an optional minus sign, then the digits. */
  function IntToString(n: int): (s: string)
    ensures |s| > 0
    ensures n < 0 <==> s[0] == '-'
  {
    if n < 0 then "-" + NatToString(-n) else NatToString(n)
  }

  /** Reads back a string produced by IntToString; None for anything else. */
  function ParseInt(s: string): Option<int>
  {
    if |s| > 0 && s[0] == '-' && |s| > 1 && AllDigits(s[1..]) then Some(0 - ParseNat(s[1..]) as int)
    else if |s| > 0 && AllDigits(s) then Some(ParseNat(s))
    else None
  }

  lemma {:induction false} ParseNatToString(n: nat)
    ensures ParseNat(NatToString(n)) == n
  {
    if n >= 10 {
      var s := NatToString(n);
      assert s[..|s| - 1] == NatToString(n / 10);
      ParseNatToString(n / 10);
    }
  }

  /** Rendering then reading an int gives it back. */
  lemma IntToStringRoundTrip(n: int)
    ensures ParseInt(IntToString(n)) == Some(n)
  {
    if n < 0 {
      assert IntToString(n)[1..] == NatToString(-n);
      ParseNatToString(-n);
    } else {
      ParseNatToString(n);
    }
  }
}
