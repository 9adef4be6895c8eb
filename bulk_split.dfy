/** How the bulk-add page cuts pasted text into question blocks and lines
    (src/app/admin/questions/bulk-add/page.tsx:50-53), with the regular
    expressions written out as character tests. */
module BulkSplit {
  import opened Text

  predicate IsDelimiterPunct(c: char)
  {
    c == '.' || c == ')' || c == ':'
  }

  /** Length of the run of digits at the start of `s`. */
  function DigitRun(s: string): (k: nat)
    ensures k <= |s|
    ensures forall i :: 0 <= i < k ==> IsDigit(s[i])
    ensures k < |s| ==> !IsDigit(s[k])
  {
    if s != [] && IsDigit(s[0]) then 1 + DigitRun(s[1..]) else 0
  }

  /** Length of the run of white space at the start of `s`. */
  function SpaceRun(s: string): (k: nat)
    ensures k <= |s|
    ensures forall i :: 0 <= i < k ==> IsSpace(s[i])
    ensures k < |s| ==> !IsSpace(s[k])
  {
    if s != [] && IsSpace(s[0]) then 1 + SpaceRun(s[1..]) else 0
  }

  /** Length of the match of the block delimiter
      `(?:\d+\s*[\.\):]|Q:|Question:)` that starts at the first char of `s`,
      or 0 when it does not match there. The greedy `\d+` and `\s*` cannot
      usefully backtrack: digits, white space and the closing punctuation are
      disjoint classes. */
  function DelimiterLength(s: string): (n: nat)
    ensures n <= |s|
    ensures n == 0 || n >= 2
  {
    if s == [] then 0
    else if IsDigit(s[0]) then
      var k := DigitRun(s);
      var w := SpaceRun(s[k..]);
      if k + w < |s| && IsDelimiterPunct(s[k + w]) then k + w + 1 else 0
    else if StartsWith(s, "Q:") then 2
    else if StartsWith(s, "Question:") then 9
    else 0
  }

  /** Position of the leftmost delimiter match in `s`, or `|s|`. */
  function FirstDelimiter(s: string): (i: nat)
    ensures i <= |s|
    ensures i < |s| ==> DelimiterLength(s[i..]) > 0
  {
    if s == [] then 0
    else if DelimiterLength(s) > 0 then 0
    else
      var i := 1 + FirstDelimiter(s[1..]);
      assert s[i..] == s[1..][i - 1..];
      i
  }

  /** `text.split(/(?:\d+\s*[\.\):]|Q:|Question:)/)`: the pieces between
      successive leftmost, non-overlapping delimiter matches; the delimiters
      themselves are dropped. */
  function SplitOnDelimiters(s: string): (pieces: seq<string>)
    ensures |pieces| >= 1
    decreases |s|
  {
    if FirstDelimiter(s) == |s| then [s]
    else [s[..FirstDelimiter(s)]] + SplitOnDelimiters(AfterDelimiter(s))
  }

  /** The text after the leftmost delimiter match. */
  function AfterDelimiter(s: string): (r: string)
    requires FirstDelimiter(s) < |s|
    ensures |r| < |s|
  {
    s[FirstDelimiter(s) + DelimiterLength(s[FirstDelimiter(s)..])..]
  }

  /** Keeps the pieces whose trim is not empty (`.filter(block => block.trim())`). */
  function NonBlank(pieces: seq<string>): (r: seq<string>)
    ensures |r| <= |pieces|
    ensures forall b :: b in r ==> b in pieces && Trim(b) != []
    ensures forall b :: b in pieces && Trim(b) != [] ==> b in r
  {
    if pieces == [] then []
    else if Trim(pieces[0]) != [] then [pieces[0]] + NonBlank(pieces[1..])
    else NonBlank(pieces[1..])
  }

  /** The question blocks of the pasted text. */
  function Blocks(text: string): seq<string>
  {
    NonBlank(SplitOnDelimiters(text))
  }

  /** `s.split('\n')`. */
  function SplitLines(s: string): (lines: seq<string>)
    ensures |lines| >= 1
    decreases |s|
  {
    var i := IndexOf(s, '\n');
    if i == |s| then [s] else [s[..i]] + SplitLines(s[i + 1..])
  }

  /** `.map(line => line.trim()).filter(line => line)`. */
  function TrimAndDropEmpty(lines: seq<string>): (r: seq<string>)
    ensures forall l :: l in r ==> l != []
  {
    if lines == [] then []
    else if Trim(lines[0]) != [] then [Trim(lines[0])] + TrimAndDropEmpty(lines[1..])
    else TrimAndDropEmpty(lines[1..])
  }

  /** The lines of a block as the parser sees them: trimmed, none empty. */
  function BlockLines(block: string): seq<string>
  {
    TrimAndDropEmpty(SplitLines(block))
  }

  // ---------------------------------------------------------------------
  // No piece of the split holds a delimiter, and neither does any of its lines.

  /** No delimiter match starts anywhere in `s`. */
  ghost predicate DelimiterFree(s: string)
  {
    forall i {:trigger DelimiterLength(s[i..])} :: 0 <= i < |s| ==> DelimiterLength(s[i..]) == 0
  }

  lemma {:induction false} DigitRunOfExtension(t: string, u: string)
    requires |t| <= |u| && u[..|t|] == t
    requires DigitRun(t) < |t|
    ensures DigitRun(u) == DigitRun(t)
    decreases |t|
  {
    if t != [] && IsDigit(t[0]) {
      assert u[1..][..|t[1..]|] == t[1..];
      DigitRunOfExtension(t[1..], u[1..]);
    }
  }

  lemma {:induction false} SpaceRunOfExtension(t: string, u: string)
    requires |t| <= |u| && u[..|t|] == t
    requires SpaceRun(t) < |t|
    ensures SpaceRun(u) == SpaceRun(t)
    decreases |t|
  {
    if t != [] && IsSpace(t[0]) {
      assert u[1..][..|t[1..]|] == t[1..];
      SpaceRunOfExtension(t[1..], u[1..]);
    }
  }

  /** A delimiter matched inside `t` still matches, with the same length,
      once `t` is extended to the right. */
  lemma DelimiterOfExtension(t: string, u: string)
    requires |t| <= |u| && u[..|t|] == t
    requires DelimiterLength(t) > 0
    ensures DelimiterLength(u) == DelimiterLength(t)
  {
    assert u[0] == t[0];
    if IsDigit(t[0]) {
      NumberedDelimiterOfExtension(t, u);
    } else if StartsWith(t, "Q:") {
      assert u[..2] == t[..2];
    } else {
      assert u[..2] == t[..2];
      assert u[..9] == t[..9];
    }
  }

  lemma NumberedDelimiterOfExtension(t: string, u: string)
    requires |t| <= |u| && u[..|t|] == t
    requires DigitRun(t) + SpaceRun(t[DigitRun(t)..]) < |t|
    ensures DigitRun(u) == DigitRun(t)
    ensures SpaceRun(u[DigitRun(u)..]) == SpaceRun(t[DigitRun(t)..])
  {
    var k := DigitRun(t);
    DigitRunOfExtension(t, u);
    assert u[k..][..|t[k..]|] == t[k..];
    SpaceRunOfExtension(t[k..], u[k..]);
  }

  lemma DelimiterFreeSlice(s: string, a: nat, b: nat)
    requires DelimiterFree(s) && a <= b <= |s|
    ensures DelimiterFree(s[a..b])
  {
    forall i | 0 <= i < b - a ensures DelimiterLength(s[a..b][i..]) == 0 {
      var t := s[a..b][i..];
      var u := s[a + i..];
      assert u[..|t|] == t;
      if DelimiterLength(t) > 0 {
        DelimiterOfExtension(t, u);
      }
    }
  }

  /** No delimiter match starts before the one `FirstDelimiter` finds. */
  lemma {:induction false} FirstDelimiterIsLeftmost(s: string, j: nat)
    requires j < FirstDelimiter(s)
    ensures DelimiterLength(s[j..]) == 0
    decreases |s|
  {
    if j > 0 {
      FirstDelimiterIsLeftmost(s[1..], j - 1);
      assert s[j..] == s[1..][j - 1..];
    }
  }

  /** The text before the leftmost delimiter holds no delimiter. */
  lemma PrefixBeforeDelimiterIsFree(s: string, i: nat)
    requires i == FirstDelimiter(s)
    ensures DelimiterFree(s[..i])
  {
    forall j | 0 <= j < i ensures DelimiterLength(s[..i][j..]) == 0 {
      FirstDelimiterIsLeftmost(s, j);
      NoDelimiterInSlice(s, i, j);
    }
  }

  lemma NoDelimiterInSlice(s: string, i: nat, j: nat)
    requires j < i <= |s|
    requires DelimiterLength(s[j..]) == 0
    ensures DelimiterLength(s[..i][j..]) == 0
  {
    assert s[..i][j..] == s[j..][..i - j];
    NoDelimiterInPrefix(s[j..], s[j..][..i - j]);
  }

  lemma NoDelimiterInPrefix(u: string, t: string)
    requires |t| <= |u| && u[..|t|] == t
    requires DelimiterLength(u) == 0
    ensures DelimiterLength(t) == 0
  {
    if DelimiterLength(t) > 0 {
      DelimiterOfExtension(t, u);
    }
  }

  ghost predicate AllDelimiterFree(pieces: seq<string>)
  {
    forall k :: 0 <= k < |pieces| ==> DelimiterFree(pieces[k])
  }

  lemma ConsDelimiterFree(first: string, pieces: seq<string>)
    requires DelimiterFree(first) && AllDelimiterFree(pieces)
    ensures AllDelimiterFree([first] + pieces)
  {
  }

  lemma {:induction false} SplitPiecesAreDelimiterFree(s: string)
    ensures AllDelimiterFree(SplitOnDelimiters(s))
    decreases |s|
  {
    var i := FirstDelimiter(s);
    PrefixBeforeDelimiterIsFree(s, i);
    if i < |s| {
      SplitPiecesAreDelimiterFree(AfterDelimiter(s));
      ConsDelimiterFree(s[..i], SplitOnDelimiters(AfterDelimiter(s)));
    } else {
      assert s[..i] == s;
    }
  }

  lemma {:induction false} LinesAreDelimiterFree(s: string)
    requires DelimiterFree(s)
    ensures forall l :: l in SplitLines(s) ==> DelimiterFree(l)
    decreases |s|
  {
    var i := IndexOf(s, '\n');
    if i < |s| {
      DelimiterFreeSlice(s, 0, i);
      DelimiterFreeSlice(s, i + 1, |s|);
      assert s[i + 1..|s|] == s[i + 1..];
      assert s[0..i] == s[..i];
      LinesAreDelimiterFree(s[i + 1..]);
    }
  }

  lemma {:induction false} TrimmedLinesAreDelimiterFree(lines: seq<string>)
    requires forall l :: l in lines ==> DelimiterFree(l)
    ensures forall l :: l in TrimAndDropEmpty(lines) ==> DelimiterFree(l)
  {
    if lines != [] {
      var a, b := TrimIsSlice(lines[0]);
      DelimiterFreeSlice(lines[0], a, b);
      TrimmedLinesAreDelimiterFree(lines[1..]);
    }
  }

  /** Every line of every block is free of the block delimiter. */
  lemma BlockLinesAreDelimiterFree(text: string)
    ensures forall b, l :: b in Blocks(text) && l in BlockLines(b) ==> DelimiterFree(l)
  {
    SplitPiecesAreDelimiterFree(text);
    forall b, l | b in Blocks(text) && l in BlockLines(b) ensures DelimiterFree(l) {
      var k :| 0 <= k < |SplitOnDelimiters(text)| && SplitOnDelimiters(text)[k] == b;
      LinesAreDelimiterFree(b);
      TrimmedLinesAreDelimiterFree(SplitLines(b));
    }
  }

  // ---------------------------------------------------------------------
  // A block that is not blank has at least one line.

  lemma {:induction false} BlankLinesMeanBlankText(s: string)
    requires forall l :: l in SplitLines(s) ==> Trim(l) == []
    ensures AllSpace(s)
    decreases |s|
  {
    var i := IndexOf(s, '\n');
    if i < |s| {
      assert Trim(s[..i]) == [];
      BlankLinesMeanBlankText(s[i + 1..]);
      forall j | 0 <= j < |s| ensures IsSpace(s[j]) {
        if j < i { assert s[j] == s[..i][j]; }
        else if j > i { assert s[j] == s[i + 1..][j - i - 1]; }
      }
    } else {
      assert Trim(s) == [];
    }
  }

  lemma {:induction false} EmptyAfterTrimming(lines: seq<string>)
    requires TrimAndDropEmpty(lines) == []
    ensures forall l :: l in lines ==> Trim(l) == []
  {
    if lines != [] {
      EmptyAfterTrimming(lines[1..]);
    }
  }

  /** A block the filter kept has at least one non-empty line. */
  lemma NonBlankBlockHasLines(block: string)
    requires Trim(block) != []
    ensures BlockLines(block) != []
  {
    if BlockLines(block) == [] {
      EmptyAfterTrimming(SplitLines(block));
      BlankLinesMeanBlankText(block);
    }
  }
}
