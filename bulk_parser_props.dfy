/** What `parseQuestions` (src/app/admin/questions/bulk-add/page.tsx:48-145)
    does to pasted text, stated over the line machine of `BulkParser`. */
module BulkParserProps {
  import opened Types
  import opened Text
  import opened BulkSplit
  import opened BulkParser

  // ---------------------------------------------------------------------
  // One question per non-blank piece of the split.

  /** Every piece of the split whose trim is not empty gives exactly one
      question, at its position among the kept pieces; no question is dropped
      later, even one with no text and no options. */
  lemma OneQuestionPerBlock(text: string, k: nat)
    ensures |ParsedQuestions(text)| == |Blocks(text)|
    ensures forall b :: b in Blocks(text) <==> b in SplitOnDelimiters(text) && Trim(b) != []
    ensures k < |Blocks(text)| ==> ParsedQuestions(text)[k] == BlockResult(BlockLines(Blocks(text)[k]), k)
  {
  }

  // ---------------------------------------------------------------------
  // The first-line marker test is dead.

  /** Whatever the first-line test accepts is also a split delimiter. */
  lemma QuestionMarkerIsDelimiter(line: string)
    requires QuestionMarkerLength(line) > 0
    ensures DelimiterLength(line) > 0
  {
    var k := DigitRun(line);
    if k > 0 && k < |line| && IsDelimiterPunct(line[k]) {
      assert IsDigit(line[0]);
      assert SpaceRun(line[k..]) == 0 by { assert line[k..][0] == line[k]; }
    }
  }

  /** Every block has a first line, and no first line of a block carries the
      question marker, because the split has already consumed it. */
  lemma FirstLineHasNoMarker(text: string, k: nat)
    requires k < |Blocks(text)|
    ensures BlockLines(Blocks(text)[k]) != []
    ensures QuestionMarkerLength(BlockLines(Blocks(text)[k])[0]) == 0
  {
    var b := Blocks(text)[k];
    assert b in Blocks(text);
    NonBlankBlockHasLines(b);
    var l := BlockLines(b)[0];
    assert l in BlockLines(b);
    BlockLinesAreDelimiterFree(text);
    assert DelimiterFree(l);
    assert l[0..] == l;
    assert DelimiterLength(l[0..]) == 0;
    if QuestionMarkerLength(l) > 0 {
      QuestionMarkerIsDelimiter(l);
    }
  }

  // ---------------------------------------------------------------------
  // Classification of a line.

  /** The option test comes first in the IF chain, and the header test is
      only reached by a line that is not an option. */
  lemma ClassifyLine(line: string)
    ensures Classify(line).OptionLine? <==> IsOptionLine(line)
    ensures Classify(line).OptionLine? ==> Classify(line).marked == HasMarker(line)
    ensures Classify(line).ExplanationHeader? <==> !IsOptionLine(line) && ExplanationHeaderLength(line) > 0
    ensures Classify(line).PlainLine? ==> Classify(line).content == line
  {
  }

  /** No line is both an option line and an explanation header: the header
      starts with an `E`, which is not an option letter. */
  lemma HeaderIsNotOption(line: string)
    requires ExplanationHeaderLength(line) > 0
    ensures !IsOptionLine(line)
  {
    assert line[0] == 'E';
  }

  // ---------------------------------------------------------------------
  // The correct marker.

  /** Without a match of the marker pattern, `replace` leaves the text as
      it is. */
  lemma StripWithoutMarker(s: string)
    requires forall q :: 0 <= q < |s| ==> MarkerAt(s, q) == 0
    ensures StripFirstMarker(s) == s
  {
    assert FirstMarker(s, 0) == |s|;
  }

  /** `replace` removes the leftmost match of the marker pattern and nothing
      else, so the text gets shorter. */
  lemma StripRemovesLeftmost(s: string, p: nat)
    requires p < |s| && MarkerAt(s, p) > 0
    requires forall q :: 0 <= q < p ==> MarkerAt(s, q) == 0
    ensures StripFirstMarker(s) == s[..p] + s[p + MarkerAt(s, p)..]
    ensures |StripFirstMarker(s)| < |s|
  {
    assert FirstMarker(s, 0) == p;
    CutIsShorter(s, p, MarkerAt(s, p));
  }

  lemma CutIsShorter(s: string, p: nat, m: nat)
    requires 0 < m && p + m <= |s|
    ensures |s[..p] + s[p + m..]| == |s| - m
  {
  }

  /** `includes` finds `t` at some position of `s`. */
  lemma {:induction false} ContainsAt(s: string, t: string) returns (p: nat)
    requires Contains(s, t)
    ensures p <= |s| && StartsWith(s[p..], t)
    decreases |s|
  {
    if StartsWith(s, t) {
      p := 0;
    } else {
      var q := ContainsAt(s[1..], t);
      p := q + 1;
      assert s[p..] == s[1..][q..];
    }
  }

  /** An occurrence of `t` anywhere makes `includes` true. */
  lemma {:induction false} ContainsFrom(s: string, t: string, p: nat)
    requires p <= |s| && StartsWith(s[p..], t)
    ensures Contains(s, t)
    decreases p
  {
    if p > 0 {
      assert s[p..] == s[1..][p - 1..];
      ContainsFrom(s[1..], t, p - 1);
    }
  }

  /** The regular expression that strips the marker matches exactly when the
      `includes` test that sets `isCorrect` succeeds. */
  lemma MarkerFoundIffHasMarker(s: string)
    ensures FirstMarker(s, 0) < |s| <==> HasMarker(s)
  {
    if HasMarker(s) {
      MarkedTextHasMatch(s);
    }
    if FirstMarker(s, 0) < |s| {
      MatchMeansMarked(s, FirstMarker(s, 0));
    }
  }

  lemma MarkedTextHasMatch(s: string)
    requires HasMarker(s)
    ensures FirstMarker(s, 0) < |s|
  {
    var p;
    if Contains(s, "(correct)") {
      p := ContainsAt(s, "(correct)");
      MarkerMatchesAt(s, p, "(correct)");
    } else {
      p := ContainsAt(s, "✓");
      MarkerMatchesAt(s, p, "✓");
    }
    assert MarkerAt(s, p) > 0;
  }

  /** Where the marker text itself starts, the pattern matches with an empty
      white space run. */
  lemma MarkerMatchesAt(s: string, p: nat, t: string)
    requires t == "(correct)" || t == "✓"
    requires p <= |s| && StartsWith(s[p..], t)
    ensures p < |s| && MarkerAt(s, p) > 0
  {
    assert s[p..][0] == t[0];
    assert SpaceRun(s[p..]) == 0;
    assert s[p + 0..] == s[p..];
  }

  lemma MatchMeansMarked(s: string, p: nat)
    requires p <= |s| && MarkerAt(s, p) > 0
    ensures HasMarker(s)
  {
    var w := SpaceRun(s[p..]);
    assert s[p + w..] == s[p..][w..];
    if StartsWith(s[p + w..], "(correct)") {
      ContainsFrom(s, "(correct)", p + w);
    } else {
      ContainsFrom(s, "✓", p + w);
    }
  }

  // ---------------------------------------------------------------------
  // Question text.

  /** Once the section is `options`, an option exists, so nothing more is
      appended to the question text. */
  ghost predicate TextSealed(st: BlockState)
  {
    st.section == OptionsSection ==> |st.options| > 0
  }

  lemma StepKeepsSealedText(st: BlockState, k: LineKind)
    requires TextSealed(st)
    ensures TextSealed(Step(st, k)) && Step(st, k).text == st.text
  {
  }

  lemma {:induction false} SealedTextUnchanged(st: BlockState, ks: seq<LineKind>, n: nat)
    requires 1 <= n <= |ks| && TextSealed(st)
    ensures TextSealed(RunLines(st, ks, n)) && RunLines(st, ks, n).text == st.text
  {
    if n > 1 {
      SealedTextUnchanged(st, ks, n - 1);
      StepKeepsSealedText(RunLines(st, ks, n - 1), ks[n - 1]);
    }
  }

  /** The question text only ever grows at its end. */
  lemma {:induction false} TextOnlyGrows(st: BlockState, ks: seq<LineKind>, n: nat)
    requires 1 <= n <= |ks|
    ensures StartsWith(RunLines(st, ks, n).text, st.text)
  {
    if n > 1 {
      TextOnlyGrows(st, ks, n - 1);
      var before := RunLines(st, ks, n - 1).text;
      var after := RunLines(st, ks, n).text;
      assert after == before || (ks[n - 1].PlainLine? && after == before + " " + ks[n - 1].content);
      assert after[..|before|] == before;
      assert after[..|st.text|] == before[..|st.text|];
    }
  }

  /** The first block loses its question text and gets no number: its first
      line is dropped, and its later non-option lines are dropped too while
      the section is still `question`. */
  lemma FirstBlockLosesText(text: string)
    requires |Blocks(text)| > 0
    ensures ParsedQuestions(text)[0].text == ""
    ensures ParsedQuestions(text)[0].originalNumber == ""
  {
    OneQuestionPerBlock(text, 0);
    FirstLineHasNoMarker(text, 0);
    var lines := BlockLines(Blocks(text)[0]);
    SealedTextUnchanged(StartState(lines[0], 0), Kinds(lines), |lines|);
  }

  /** Block k > 0 is numbered `k+1` followed by a dot, and its text starts with
      its first line. */
  lemma LaterBlockNumbered(text: string, k: nat)
    requires 0 < k < |Blocks(text)|
    ensures BlockLines(Blocks(text)[k]) != []
    ensures ParsedQuestions(text)[k].originalNumber == NatToString(k + 1) + "."
    ensures StartsWith(ParsedQuestions(text)[k].text, BlockLines(Blocks(text)[k])[0])
  {
    OneQuestionPerBlock(text, k);
    FirstLineHasNoMarker(text, k);
    var lines := BlockLines(Blocks(text)[k]);
    var st := StartState(lines[0], k);
    assert st.text == lines[0];
    BlockTextAndNumber(lines, k);
    TextOnlyGrows(st, Kinds(lines), |lines|);
  }

  /** The text and number of a parsed block come from the loop's final state
      and from the header of its first line. */
  lemma BlockTextAndNumber(lines: seq<string>, blockIndex: nat)
    requires lines != []
    ensures BlockResult(lines, blockIndex).text
            == RunLines(StartState(lines[0], blockIndex), Kinds(lines), |lines|).text
    ensures BlockResult(lines, blockIndex).originalNumber == Header(lines[0], blockIndex).1
  {
    var st := StartState(lines[0], blockIndex);
    BlockResultOfFinalState(lines, blockIndex, st, RunLines(st, Kinds(lines), |lines|));
  }

  // ---------------------------------------------------------------------
  // Options: numbering and correct flags.

  /** For each option line among `lines[1..n]`, in order, whether it carries
      a correct marker. */
  function OptionFlags(lines: seq<string>, n: nat): (flags: seq<bool>)
    requires 1 <= n <= |lines|
    ensures |flags| < n
  {
    if n == 1 then []
    else OptionFlags(lines, n - 1) + (if IsOptionLine(lines[n - 1]) then [HasMarker(lines[n - 1])] else [])
  }

  /** The same flags, read off the classified lines. */
  function KindFlags(ks: seq<LineKind>, n: nat): (flags: seq<bool>)
    requires 1 <= n <= |ks|
    ensures |flags| < n
  {
    if n == 1 then []
    else KindFlags(ks, n - 1) + (if ks[n - 1].OptionLine? then [ks[n - 1].marked] else [])
  }

  lemma {:induction false} KindFlagsOfLines(lines: seq<string>, n: nat)
    requires 1 <= n <= |lines|
    ensures KindFlags(Kinds(lines), n) == OptionFlags(lines, n)
  {
    if n > 1 {
      KindFlagsOfLines(lines, n - 1);
      var ks := Kinds(lines);
      var line := lines[n - 1];
      assert ks[n - 1] == Classify(line);
      var added := FlagOfLine(ks[n - 1], line);
      assert KindFlags(ks, n) == KindFlags(ks, n - 1) + added;
      assert OptionFlags(lines, n) == OptionFlags(lines, n - 1) + added;
    }
  }

  lemma FlagOfLine(k: LineKind, line: string) returns (added: seq<bool>)
    requires k == Classify(line)
    ensures added == (if k.OptionLine? then [k.marked] else [])
    ensures added == (if IsOptionLine(line) then [HasMarker(line)] else [])
  {
    ClassifyLine(line);
    if IsOptionLine(line) {
      added := [HasMarker(line)];
    } else {
      added := [];
    }
  }

  /** Options numbered `1..|os|` in order. */
  ghost predicate NumberedFromOne(os: seq<AnswerOption>)
  {
    forall j :: 0 <= j < |os| ==> os[j].id == NatToString(j + 1)
  }

  /** One option per flag, option j correct iff `flags[j]`. */
  ghost predicate CorrectAsFlagged(os: seq<AnswerOption>, flags: seq<bool>)
  {
    |os| == |flags| && forall j :: 0 <= j < |os| ==> os[j].isCorrect == flags[j]
  }

  ghost predicate NumberedWithFlags(os: seq<AnswerOption>, flags: seq<bool>)
  {
    NumberedFromOne(os) && CorrectAsFlagged(os, flags)
  }

  /** Same number of options, with the same ids and correct flags. */
  ghost predicate SameIdsAndFlags(a: seq<AnswerOption>, b: seq<AnswerOption>)
  {
    |a| == |b| && forall j :: 0 <= j < |a| ==> a[j].id == b[j].id && a[j].isCorrect == b[j].isCorrect
  }

  /** What one line does to the options: an option line appends one, numbered
      after the others; any other line keeps every id and correct flag. */
  lemma StepOptions(st: BlockState, k: LineKind)
    ensures k.OptionLine? ==>
              Step(st, k).options == st.options + [AnswerOption(NatToString(|st.options| + 1), k.optionText, k.marked)]
              && Step(st, k).hasCorrect == (st.hasCorrect || k.marked)
    ensures !k.OptionLine? ==> SameIdsAndFlags(Step(st, k).options, st.options) && Step(st, k).hasCorrect == st.hasCorrect
  {
  }

  lemma AppendedOptionKeepsIds(os: seq<AnswerOption>, o: AnswerOption)
    requires NumberedFromOne(os) && o.id == NatToString(|os| + 1)
    ensures NumberedFromOne(os + [o])
  {
    forall j | 0 <= j < |os| + 1 ensures (os + [o])[j].id == NatToString(j + 1) {
      if j < |os| { assert (os + [o])[j] == os[j]; } else { assert (os + [o])[j] == o; }
    }
  }

  lemma AppendedOptionKeepsFlags(os: seq<AnswerOption>, flags: seq<bool>, o: AnswerOption)
    requires CorrectAsFlagged(os, flags)
    ensures CorrectAsFlagged(os + [o], flags + [o.isCorrect])
  {
    forall j | 0 <= j < |os| + 1 ensures (os + [o])[j].isCorrect == (flags + [o.isCorrect])[j] {
      if j < |os| { assert (os + [o])[j] == os[j]; } else { assert (os + [o])[j] == o; }
    }
  }

  lemma SomeFlagAppended(flags: seq<bool>, b: bool)
    ensures (true in flags + [b]) <==> (true in flags || b)
  {
    var flags' := flags + [b];
    if true in flags' && !b {
      var j :| 0 <= j < |flags'| && flags'[j];
      assert flags[j];
    }
    if true in flags {
      var j :| 0 <= j < |flags| && flags[j];
      assert flags'[j];
    }
    if b {
      assert flags'[|flags|];
    }
  }

  lemma SameIdsKeepNumbering(a: seq<AnswerOption>, b: seq<AnswerOption>, flags: seq<bool>)
    requires SameIdsAndFlags(a, b) && NumberedWithFlags(b, flags)
    ensures NumberedWithFlags(a, flags)
  {
  }

  /** Starting from no options, the loop makes one option per option line,
      numbered `1..k` in order, each correct iff its line has a marker. */
  lemma {:induction false} OptionsFollowOptionLines(st: BlockState, ks: seq<LineKind>, n: nat)
    requires 1 <= n <= |ks| && st.options == [] && !st.hasCorrect
    ensures NumberedWithFlags(RunLines(st, ks, n).options, KindFlags(ks, n))
    ensures RunLines(st, ks, n).hasCorrect <==> true in KindFlags(ks, n)
  {
    if n > 1 {
      OptionsFollowOptionLines(st, ks, n - 1);
      var before := RunLines(st, ks, n - 1);
      var flags := KindFlags(ks, n - 1);
      var k := ks[n - 1];
      var after := RunLines(st, ks, n);
      assert after == Step(before, k);
      StepOptions(before, k);
      if k.OptionLine? {
        assert KindFlags(ks, n) == flags + [k.marked];
        var o := after.options[|before.options|];
        AppendedOptionKeepsIds(before.options, o);
        AppendedOptionKeepsFlags(before.options, flags, o);
        SomeFlagAppended(flags, k.marked);
      } else {
        assert KindFlags(ks, n) == flags;
        SameIdsKeepNumbering(after.options, before.options, flags);
      }
    }
  }

  /** The options of a parsed block, given the marker flag of each option
      line: one option per line, numbered from 1; with a marker somewhere,
      exactly the marked options are correct, so several can be; without any
      marker, only option 1 is. */
  ghost predicate OptionsAsParsed(os: seq<AnswerOption>, flags: seq<bool>)
  {
    NumberedFromOne(os) && |os| == |flags|
    && (true in flags ==> CorrectAsFlagged(os, flags))
    && (true !in flags ==> forall j :: 0 <= j < |os| ==> os[j].isCorrect == (j == 0))
  }

  lemma BlockOptions(lines: seq<string>, blockIndex: nat)
    requires lines != []
    ensures OptionsAsParsed(BlockResult(lines, blockIndex).options, OptionFlags(lines, |lines|))
  {
    var st := StartState(lines[0], blockIndex);
    var ks := Kinds(lines);
    var flags := OptionFlags(lines, |lines|);
    OptionsFollowOptionLines(st, ks, |lines|);
    KindFlagsOfLines(lines, |lines|);
    var final := RunLines(st, ks, |lines|);
    var number := Header(lines[0], blockIndex).1;
    BlockResultOfFinalState(lines, blockIndex, st, final);
    FinishDefaultsFirst(final, number, flags);
    assert BlockResult(lines, blockIndex) == Finish(final, number);
  }

  /** Lines 134-136 only touch option 1, and only when no option was marked. */
  lemma FinishDefaultsFirst(st: BlockState, number: string, flags: seq<bool>)
    requires NumberedWithFlags(st.options, flags) && (st.hasCorrect <==> true in flags)
    ensures OptionsAsParsed(Finish(st, number).options, flags)
  {
    var os := Finish(st, number).options;
    if true !in flags {
      forall j | 0 <= j < |os| ensures os[j].isCorrect == (j == 0) {
        if j > 0 {
          assert os[j] == st.options[j];
          assert !flags[j];
        }
      }
    }
  }

  /** After parsing, a question with options has a correct one, and a
      question without options has none. */
  lemma ParsedQuestionHasCorrectOption(lines: seq<string>, blockIndex: nat)
    ensures CorrectCount(BlockResult(lines, blockIndex).options) > 0
            <==> |BlockResult(lines, blockIndex).options| > 0
  {
    if lines != [] {
      BlockOptions(lines, blockIndex);
      var q := BlockResult(lines, blockIndex);
      var flags := OptionFlags(lines, |lines|);
      if |q.options| > 0 {
        if true in flags {
          var j :| 0 <= j < |flags| && flags[j];
          assert q.options[j].isCorrect;
        } else {
          assert q.options[0].isCorrect;
        }
      }
    }
  }

  // ---------------------------------------------------------------------
  // Single steps of the line machine.

  /** The case-insensitive option test of lines 104-117 only accepts lines the
      first option test has already taken, so it never fires. */
  lemma LooseOptionLineIsOptionLine(line: string)
    ensures IsLooseOptionLine(line) ==> IsOptionLine(line)
  {
  }

  /** An option line always adds an option and switches to `options`, even in
      the explanation section; the explanation so far is kept. */
  lemma OptionLineAlwaysAddsOption(st: BlockState, line: string)
    requires IsOptionLine(line)
    ensures Step(st, Classify(line)).section == OptionsSection
    ensures |Step(st, Classify(line)).options| == |st.options| + 1
    ensures Step(st, Classify(line)).options[..|st.options|] == st.options
    ensures Step(st, Classify(line)).options[|st.options|].id == NatToString(|st.options| + 1)
    ensures Step(st, Classify(line)).options[|st.options|].isCorrect <==> HasMarker(line)
    ensures Step(st, Classify(line)).explanation == st.explanation
    ensures Step(st, Classify(line)).text == st.text
  {
    var k := Classify(line);
    ClassifyLine(line);
    var o := AnswerOption(NatToString(|st.options| + 1), k.optionText, k.marked);
    var r := Step(st, k);
    assert r == st.(section := OptionsSection, options := st.options + [o], hasCorrect := st.hasCorrect || k.marked);
    assert (st.options + [o])[..|st.options|] == st.options;
    assert (st.options + [o])[|st.options|] == o;
  }

  /** A header line sets the explanation to its own trimmed remainder: what
      was collected before is discarded, not extended. */
  lemma ExplanationHeaderReplaces(st1: BlockState, st2: BlockState, line: string)
    requires ExplanationHeaderLength(line) > 0
    ensures Step(st1, Classify(line)).explanation == Step(st2, Classify(line)).explanation
    ensures Step(st1, Classify(line)).section == ExplanationSection
    ensures |Step(st1, Classify(line)).explanation| < |line|
  {
    HeaderIsNotOption(line);
  }

  /** In the options section, a line that is neither an option nor a header
      never adds, removes or renumbers options and never changes a correct
      flag: it only extends the text of the last option, or the question text
      when there is no option yet. */
  lemma ContinuationKeepsOptions(st: BlockState, line: string)
    requires st.section == OptionsSection && !IsOptionLine(line) && ExplanationHeaderLength(line) == 0
    ensures var r := Step(st, Classify(line));
            SameIdsAndFlags(r.options, st.options)
            && r.section == OptionsSection && r.hasCorrect == st.hasCorrect
            && (|st.options| > 0 ==> r.text == st.text
                                     && r.options[|st.options| - 1].text == st.options[|st.options| - 1].text + " " + line)
            && (|st.options| == 0 ==> r.text == st.text + " " + line)
  {
  }

  /** Without a header line, the explanation stays empty and the parsed
      question has none. */
  lemma {:induction false} NoHeaderNoExplanation(st: BlockState, ks: seq<LineKind>, n: nat)
    requires 1 <= n <= |ks| && st.explanation == "" && st.section != ExplanationSection
    requires forall i :: 0 <= i < n ==> !ks[i].ExplanationHeader?
    ensures RunLines(st, ks, n).explanation == ""
    ensures RunLines(st, ks, n).section != ExplanationSection
  {
    if n > 1 {
      NoHeaderNoExplanation(st, ks, n - 1);
    }
  }

  lemma BlockWithoutHeaderHasNoExplanation(lines: seq<string>, blockIndex: nat)
    requires forall l :: l in lines ==> ExplanationHeaderLength(l) == 0
    ensures BlockResult(lines, blockIndex).explanation == None
  {
    if lines != [] {
      var ks := Kinds(lines);
      forall i | 0 <= i < |lines| ensures !ks[i].ExplanationHeader? {
        assert lines[i] in lines;
        assert ks[i] == Classify(lines[i]);
        ClassifyLine(lines[i]);
      }
      var st := StartState(lines[0], blockIndex);
      NoHeaderNoExplanation(st, ks, |lines|);
      BlockResultOfFinalState(lines, blockIndex, st, RunLines(st, ks, |lines|));
    }
  }
}
