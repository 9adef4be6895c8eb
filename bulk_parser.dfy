/** The per-block line machine of `parseQuestions`
    (src/app/admin/questions/bulk-add/page.tsx:52-143): each block of the
    pasted text becomes one parsed question, built by walking its lines with a
    current section of `question`, `options` or `explanation`. */
module BulkParser {
  import opened Types
  import opened Text
  import opened BulkSplit

  datatype Section = QuestionSection | OptionsSection | ExplanationSection

  /** What the parser returns for one block (`ParsedQuestion`). */
  datatype ParsedQuestion = ParsedQuestion(
    text: string,
    options: seq<AnswerOption>,
    explanation: Option<string>,
    originalNumber: string)

  /** The local variables of the block loop. */
  datatype BlockState = BlockState(
    text: string,
    options: seq<AnswerOption>,
    explanation: string,
    section: Section,
    hasCorrect: bool)

  // ---------------------------------------------------------------------
  // The fixed patterns, as character tests.

  predicate IsOptionLetter(c: char)
  {
    ('A' <= c <= 'D') || ('a' <= c <= 'd')
  }

  /** `/^[A-Da-d][\)\.:]/` */
  predicate IsLetterOptionLine(line: string)
  {
    |line| >= 2 && IsOptionLetter(line[0]) && (line[1] == ')' || line[1] == '.' || line[1] == ':')
  }

  /** `/^\([A-Da-d]\)/` */
  predicate IsParenOptionLine(line: string)
  {
    |line| >= 3 && line[0] == '(' && IsOptionLetter(line[1]) && line[2] == ')'
  }

  /** The option test `/^[A-Da-d][\)\.:]|^\([A-Da-d]\)/`. */
  predicate IsOptionLine(line: string)
  {
    IsLetterOptionLine(line) || IsParenOptionLine(line)
  }

  /** The second option test `/^\(([a-d])\)|^([a-d])\)/i`. */
  predicate IsLooseOptionLine(line: string)
  {
    IsParenOptionLine(line) || (|line| >= 2 && IsOptionLetter(line[0]) && line[1] == ')')
  }

  // `line.replace(/^[A-Da-d][\)\.:]\s*|^\([A-Da-d]\)\s*/, '').trim()`: the
  // left alternative is tried first.
  function OptionText(line: string): string
    requires IsOptionLine(line)
  {
    var p := if IsLetterOptionLine(line) then 2 else 3;
    Trim(line[p + SpaceRun(line[p..])..])
  }

  /** `line.includes('(correct)') || line.includes('✓')` */
  predicate HasMarker(line: string)
  {
    Contains(line, "(correct)") || Contains(line, "✓")
  }

  /** Length of a match of `/\s*\(correct\)|\s*✓/` starting at `s[p]`, or 0.
      The white space run is taken whole: a shorter run would leave a space
      where the marker must begin. */
  function MarkerAt(s: string, p: nat): (n: nat)
    requires p <= |s|
    ensures p + n <= |s|
  {
    var w := SpaceRun(s[p..]);
    if StartsWith(s[p + w..], "(correct)") then w + 9
    else if StartsWith(s[p + w..], "✓") then w + 1
    else 0
  }

  /** The leftmost position where the correct marker matches, or `|s|`. */
  function FirstMarker(s: string, from: nat): (p: nat)
    requires from <= |s|
    ensures from <= p <= |s|
    ensures p < |s| ==> MarkerAt(s, p) > 0
    ensures forall q :: from <= q < p ==> MarkerAt(s, q) == 0
    decreases |s| - from
  {
    if from == |s| then from
    else if MarkerAt(s, from) > 0 then from
    else FirstMarker(s, from + 1)
  }

  /** `text.replace(/\s*\(correct\)|\s*✓/, '')`: only the leftmost match is
      removed. */
  function StripFirstMarker(s: string): (r: string)
  {
    var p := FirstMarker(s, 0);
    if p == |s| then s else s[..p] + s[p + MarkerAt(s, p)..]
  }

  /** Length of a match of `/^(Explanation:|Exp:)/`, or 0. */
  function ExplanationHeaderLength(line: string): (n: nat)
    ensures n <= |line|
    ensures n > 0 <==> StartsWith(line, "Explanation:") || StartsWith(line, "Exp:")
  {
    if StartsWith(line, "Explanation:") then 12
    else if StartsWith(line, "Exp:") then 4
    else 0
  }

  /** Length of a match of the first-line test `/^(\d+[\.\):]|Q:|Question:)/`,
      or 0. */
  function QuestionMarkerLength(line: string): (n: nat)
    ensures n <= |line|
  {
    var k := DigitRun(line);
    if k > 0 && k < |line| && IsDelimiterPunct(line[k]) then k + 1
    else if StartsWith(line, "Q:") then 2
    else if StartsWith(line, "Question:") then 9
    else 0
  }

  // ---------------------------------------------------------------------
  // The line machine.

  /** What the IF chain of lines 84-127 makes of a line, before looking at
      the current section: an option with its cleaned text and marker, an
      explanation header with its trimmed remainder, or any other line. */
  datatype LineKind =
    | OptionLine(optionText: string, marked: bool)
    | ExplanationHeader(rest: string)
    | PlainLine(content: string)

  function Classify(line: string): LineKind
  {
    if IsOptionLine(line) then OptionLine(StripFirstMarker(OptionText(line)), HasMarker(line))
    else if ExplanationHeaderLength(line) > 0 then ExplanationHeader(Trim(line[ExplanationHeaderLength(line)..]))
    else PlainLine(line)
  }

  /** The classification of every line, in order. */
  function Kinds(lines: seq<string>): (ks: seq<LineKind>)
    ensures |ks| == |lines|
  {
    seq(|lines|, i requires 0 <= i < |lines| => Classify(lines[i]))
  }

  /** Appends a space and `line` to the text of the last option, in place. */
  function AppendToLast(os: seq<AnswerOption>, line: string): seq<AnswerOption>
    requires |os| > 0
  {
    os[|os| - 1 := os[|os| - 1].(text := os[|os| - 1].text + " " + line)]
  }

  /** One pass of the loop body at lines 81-128 for a classified line. The
      case-insensitive option test of lines 104-117 is not a case here: every
      line it accepts is an option line (see `ProcessLine`). */
  function Step(st: BlockState, k: LineKind): BlockState
  {
    match k
    case OptionLine(text, marked) =>
      var opt := AnswerOption(NatToString(|st.options| + 1), text, marked);
      st.(section := OptionsSection, options := st.options + [opt], hasCorrect := st.hasCorrect || marked)
    case ExplanationHeader(rest) =>
      st.(section := ExplanationSection, explanation := rest)
    case PlainLine(line) =>
      if st.section == ExplanationSection then st.(explanation := st.explanation + " " + line)
      else if st.section == OptionsSection then
        if |st.options| > 0 then st.(options := AppendToLast(st.options, line))
        else st.(text := st.text + " " + line)
      else st
  }

  /** The state after the loop, started at `st`, has consumed `ks[1..n]` in
      order: the first line is the header and is not part of the loop. */
  function RunLines(st: BlockState, ks: seq<LineKind>, n: nat): BlockState
    requires 1 <= n <= |ks|
  {
    if n == 1 then st else Step(RunLines(st, ks, n - 1), ks[n - 1])
  }

  /** Lines 63-78: the first line either carries a marker, or numbers a later
      block, or is dropped. Returns the question text, the number and the
      starting section. */
  function Header(first: string, blockIndex: nat): (string, string, Section)
  {
    var m := QuestionMarkerLength(first);
    if m > 0 then (Trim(first[m..]), first[..m], OptionsSection)
    else if blockIndex > 0 then (first, NatToString(blockIndex + 1) + ".", OptionsSection)
    else ("", "", QuestionSection)
  }

  function StartState(first: string, blockIndex: nat): BlockState
  {
    var (text, _, section) := Header(first, blockIndex);
    BlockState(text, [], "", section, false)
  }

  /** Lines 132-143: default the first option to correct when no marker was
      seen; an empty explanation becomes `undefined`. */
  function Finish(st: BlockState, originalNumber: string): ParsedQuestion
  {
    var options :=
      if |st.options| > 0 && !st.hasCorrect then st.options[0 := st.options[0].(isCorrect := true)]
      else st.options;
    ParsedQuestion(st.text, options, if st.explanation == "" then None else Some(st.explanation), originalNumber)
  }

  /** The question built from the trimmed, non-empty lines of block number
      `blockIndex`. */
  function BlockResult(lines: seq<string>, blockIndex: nat): ParsedQuestion
  {
    if lines == [] then ParsedQuestion("", [], None, "")
    else Finish(RunLines(StartState(lines[0], blockIndex), Kinds(lines), |lines|), Header(lines[0], blockIndex).1)
  }

  // ---------------------------------------------------------------------
  // The imperative parser, proved to follow the line machine.

  /** The loop body of lines 81-128 for one line, updating the loop's
      variables. */
  method ProcessLine(text0: string, options0: seq<AnswerOption>, explanation0: string, section0: Section,
                     hasCorrect0: bool, line: string)
    returns (text: string, options: seq<AnswerOption>, explanation: string, section: Section, hasCorrect: bool)
    ensures BlockState(text, options, explanation, section, hasCorrect)
            == Step(BlockState(text0, options0, explanation0, section0, hasCorrect0), Classify(line))
  {
    text, options, explanation, section, hasCorrect := text0, options0, explanation0, section0, hasCorrect0;
    if IsOptionLine(line) {
      section := OptionsSection;
      var isCorrect := HasMarker(line);
      if isCorrect {
        hasCorrect := true;
      }
      options := options + [AnswerOption(NatToString(|options| + 1), StripFirstMarker(OptionText(line)), isCorrect)];
    } else if ExplanationHeaderLength(line) > 0 {
      section := ExplanationSection;
      explanation := Trim(line[ExplanationHeaderLength(line)..]);
    } else if section == ExplanationSection {
      explanation := explanation + " " + line;
    } else if section == OptionsSection && IsLooseOptionLine(line) {
      // lines 104-117: every line this test accepts was taken by the option test
      assert false;
    } else if section == OptionsSection {
      if |options| > 0 {
        options := options[|options| - 1 := options[|options| - 1].(text := options[|options| - 1].text + " " + line)];
      } else {
        text := text + " " + line;
      }
    }
  }

  /** Lines 80-129: the loop over the lines after the first. */
  method ProcessLines(lines: seq<string>, start: BlockState) returns (final: BlockState)
    requires |lines| > 0
    ensures final == RunLines(start, Kinds(lines), |lines|)
  {
    var text, options, explanation, section, hasCorrect := start.text, start.options, start.explanation, start.section, start.hasCorrect;
    var i := 1;
    while i < |lines|
      invariant 1 <= i <= |lines|
      invariant BlockState(text, options, explanation, section, hasCorrect) == RunLines(start, Kinds(lines), i)
    {
      ghost var before := BlockState(text, options, explanation, section, hasCorrect);
      text, options, explanation, section, hasCorrect := ProcessLine(text, options, explanation, section, hasCorrect, lines[i]);
      StepIsNextRun(start, lines, i, before);
      i := i + 1;
    }
    assert i == |lines|;
    final := BlockState(text, options, explanation, section, hasCorrect);
  }

  lemma StepIsNextRun(start: BlockState, lines: seq<string>, i: nat, before: BlockState)
    requires 1 <= i < |lines| && before == RunLines(start, Kinds(lines), i)
    ensures Step(before, Classify(lines[i])) == RunLines(start, Kinds(lines), i + 1)
  {
    assert Kinds(lines)[i] == Classify(lines[i]);
  }

  method ParseBlock(lines: seq<string>, blockIndex: nat) returns (q: ParsedQuestion)
    ensures q == BlockResult(lines, blockIndex)
  {
    if |lines| == 0 {
      return ParsedQuestion("", [], None, "");
    }
    var first := lines[0];
    var header := Header(first, blockIndex);
    var start := BlockState(header.0, [], "", header.2, false);
    var final := ProcessLines(lines, start);
    BlockResultOfFinalState(lines, blockIndex, start, final);
    var options := final.options;
    if |options| > 0 && !final.hasCorrect {
      options := options[0 := options[0].(isCorrect := true)];
    }
    q := ParsedQuestion(final.text, options, if final.explanation == "" then None else Some(final.explanation), header.1);
  }

  lemma BlockResultOfFinalState(lines: seq<string>, blockIndex: nat, start: BlockState, final: BlockState)
    requires |lines| > 0 && start == StartState(lines[0], blockIndex)
    requires final == RunLines(start, Kinds(lines), |lines|)
    ensures BlockResult(lines, blockIndex) == Finish(final, Header(lines[0], blockIndex).1)
  {
  }

  /** The questions parsed from the first `n` blocks, in order. */
  function ParsedBlocks(blocks: seq<string>, n: nat): (qs: seq<ParsedQuestion>)
    requires n <= |blocks|
    ensures |qs| == n
  {
    seq(n, j requires 0 <= j < n => BlockResult(BlockLines(blocks[j]), j))
  }

  lemma ParsedBlocksSnoc(blocks: seq<string>, k: nat, q: ParsedQuestion)
    requires k < |blocks| && q == BlockResult(BlockLines(blocks[k]), k)
    ensures ParsedBlocks(blocks, k + 1) == ParsedBlocks(blocks, k) + [q]
  {
    var a := ParsedBlocks(blocks, k + 1);
    var b := ParsedBlocks(blocks, k) + [q];
    forall j | 0 <= j <= k ensures a[j] == b[j] {
      if j < k {
        assert b[j] == ParsedBlocks(blocks, k)[j];
      }
    }
  }

  /** `parseQuestions(text)`: the questions of all blocks. */
  function ParsedQuestions(text: string): seq<ParsedQuestion>
  {
    ParsedBlocks(Blocks(text), |Blocks(text)|)
  }

  /** One call of the `map` callback: parses block `k` and appends it. */
  method ParseNextBlock(questions: seq<ParsedQuestion>, blocks: seq<string>, k: nat)
    returns (r: seq<ParsedQuestion>)
    requires k < |blocks| && questions == ParsedBlocks(blocks, k)
    ensures r == ParsedBlocks(blocks, k + 1)
  {
    var q := ParseBlock(BlockLines(blocks[k]), k);
    ParsedBlocksSnoc(blocks, k, q);
    r := questions + [q];
  }

  /** `parseQuestions(text)`: one question per block, in order. */
  method ParseQuestions(text: string) returns (questions: seq<ParsedQuestion>)
    ensures questions == ParsedQuestions(text)
  {
    var blocks := Blocks(text);
    questions := [];
    var k := 0;
    while k < |blocks|
      invariant 0 <= k <= |blocks|
      invariant questions == ParsedBlocks(blocks, k)
    {
      questions := ParseNextBlock(questions, blocks, k);
      k := k + 1;
    }
  }
}
