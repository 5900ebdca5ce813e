/** Formatting of a whole file (src/fmt.rs, `block_comment_carries` and `Formatter::format`). */
module FmtFile {
  import opened SourceScan
  import opened FmtSpacing

  // --- the formatter's own comment tracker ---

  /** The position of the quote that closes a string, or one past the end of the line. */
  function ClosingQuote(line: string, i: nat): nat
    decreases |line| - i
  {
    if i >= |line| then i
    else if line[i] == '\\' then ClosingQuote(line, i + 2)
    else if line[i] == '"' then i
    else ClosingQuote(line, i + 1)
  }

  lemma ClosingQuoteAdvances(line: string, i: nat)
    ensures i <= ClosingQuote(line, i)
    decreases |line| - i
  {
    if i < |line| && line[i] == '\\' {
      ClosingQuoteAdvances(line, i + 2);
    }
  }

  /** Whether a block comment is open at the end of the line when it is `open` at position `i`. */
  function CarriesFrom(line: string, i: nat, open: bool): bool
    decreases |line| - i
  {
    if i >= |line| then open else
    var hasNext := i + 1 < |line|;
    if !open then
      if line[i] == '/' && hasNext && line[i + 1] == '*' then CarriesFrom(line, i + 2, true)
      else if line[i] == '/' && hasNext && line[i + 1] == '/' then false
      else if line[i] == '"' then
        ClosingQuoteAdvances(line, i + 1);
        CarriesFrom(line, ClosingQuote(line, i + 1) + 1, false)
      else CarriesFrom(line, i + 1, false)
    else if line[i] == '*' && hasNext && line[i + 1] == '/' then CarriesFrom(line, i + 2, false)
    else CarriesFrom(line, i + 1, true)
  }

  method BlockCommentCarries(line: string, alreadyOpen: bool) returns (open: bool)
    ensures open == CarriesFrom(line, 0, alreadyOpen)
  {
    open := alreadyOpen;
    var i := 0;
    while i < |line|
      invariant CarriesFrom(line, 0, alreadyOpen) == CarriesFrom(line, i, open)
    {
      if !open {
        if line[i] == '/' && i + 1 < |line| && line[i + 1] == '*' {
          open := true;
          i := i + 2;
          continue;
        }
        if line[i] == '/' && i + 1 < |line| && line[i + 1] == '/' {
          return;
        }
        if line[i] == '"' {
          ghost var from := i + 1;
          i := i + 1;
          while i < |line|
            invariant from <= i
            invariant ClosingQuote(line, from) == ClosingQuote(line, i)
          {
            if line[i] == '\\' {
              i := i + 2;
              continue;
            }
            if line[i] == '"' {
              break;
            }
            i := i + 1;
          }
          assert i == ClosingQuote(line, from);
        }
      } else if line[i] == '*' && i + 1 < |line| && line[i + 1] == '/' {
        open := false;
        i := i + 2;
        continue;
      }
      i := i + 1;
    }
  }

  // --- lines ---

  function NewlineFrom(source: string, i: nat): nat
    decreases |source| - i
  {
    if i >= |source| || source[i] == '\n' then i else NewlineFrom(source, i + 1)
  }

  lemma NewlineFromBounds(source: string, i: nat)
    requires i <= |source|
    ensures i <= NewlineFrom(source, i) <= |source|
    ensures NewlineFrom(source, i) < |source| ==> source[NewlineFrom(source, i)] == '\n'
    ensures forall k :: i <= k < NewlineFrom(source, i) ==> source[k] != '\n'
    decreases |source| - i
  {
  }

  function WithoutCarriageReturn(line: string): string {
    if line != "" && line[|line| - 1] == '\r' then line[..|line| - 1] else line
  }

  /** The line that starts at `start`; a carriage return before the newline belongs to the line end. */
  function LineFrom(source: string, start: nat): string
    requires start <= |source|
  {
    NewlineFromBounds(source, start);
    var end := NewlineFrom(source, start);
    if end < |source| then WithoutCarriageReturn(source[start..end]) else source[start..end]
  }

  function NextStart(source: string, start: nat): (r: nat)
    requires start <= |source|
    ensures start <= r <= |source| && (start < |source| ==> start < r)
  {
    NewlineFromBounds(source, start);
    var end := NewlineFrom(source, start);
    if end < |source| then end + 1 else end
  }

  /** The start positions of the lines from `start` on. */
  function StartsFrom(source: string, start: nat): seq<nat>
    requires start <= |source|
    decreases |source| - start
  {
    if start == |source| then [] else [start] + StartsFrom(source, NextStart(source, start))
  }

  // --- formatting ---

  datatype FormatState = FormatState(indent: nat, prevBlank: bool, inBlockComment: bool)

  const INITIAL := FormatState(0, false, false)

  const INDENT_SIZE := 4

  function Spaces(n: nat): string {
    seq(n, _ => ' ')
  }

  /** The text a line is formatted to, without its indentation. */
  function Text(line: string, inBlockComment: bool): string {
    if inBlockComment then Trim(line) else Normalized(Trim(line))
  }

  predicate ClosesBlock(stripped: string) {
    stripped != "" && (stripped[0] == '}' || stripped[0] == ')' || stripped[0] == ']')
  }

  predicate OpensBlock(stripped: string) {
    stripped != "" && var last := stripped[|stripped| - 1]; last == '{' || last == '(' || last == '['
  }

  /** What a line's text adds to the output, and the state for the next line. */
  function PlaceText(text: string, st: FormatState, inBlockComment: bool): (string, FormatState) {
    if text == "" then
      (if st.prevBlank then "" else "\n", FormatState(st.indent, true, inBlockComment))
    else
      var stripped := Blanked(Scanned(text));
      var indent := if ClosesBlock(stripped) && st.indent > 0 then st.indent - 1 else st.indent;
      (Spaces(indent * INDENT_SIZE) + text + "\n",
       FormatState(if OpensBlock(stripped) then indent + 1 else indent, false, inBlockComment))
  }

  /** What one line adds to the output, and the state for the next line. */
  function FormatLine(line: string, st: FormatState): (string, FormatState) {
    var text := Text(line, st.inBlockComment);
    PlaceText(text, st, CarriesFrom(text, 0, st.inBlockComment))
  }

  ghost predicate Inside(source: string, starts: seq<nat>) {
    forall j :: 0 <= j < |starts| ==> starts[j] < |source|
  }

  lemma {:induction false} StartsInside(source: string, start: nat)
    requires start <= |source|
    ensures Inside(source, StartsFrom(source, start))
    decreases |source| - start
  {
    if start < |source| {
      StartsInside(source, NextStart(source, start));
    }
  }

  function LineStarts(source: string): (starts: seq<nat>)
    ensures Inside(source, starts)
  {
    StartsInside(source, 0);
    StartsFrom(source, 0)
  }

  /** The lines of a file, without their ends. */
  function Lines(source: string): seq<string> {
    var starts := LineStarts(source);
    seq(|starts|, k requires 0 <= k < |starts| => LineFrom(source, starts[k]))
  }

  type LineStep = (string, FormatState) -> (string, FormatState)

  datatype Progress = Progress(output: string, st: FormatState)

  /** The output and the state after the first `k` lines, each line handled by `step`. */
  function AfterLines(step: LineStep, lines: seq<string>, k: nat): Progress
    requires k <= |lines|
  {
    if k == 0 then Progress("", INITIAL) else
    var before := AfterLines(step, lines, k - 1);
    var (piece, st) := step(lines[k - 1], before.st);
    Progress(before.output + piece, st)
  }

  function Formatted(source: string): string {
    var lines := Lines(source);
    AfterLines(FormatLine, lines, |lines|).output
  }

  method LineText(line: string, inBlockComment: bool) returns (trimmed: string)
    ensures trimmed == Text(line, inBlockComment)
  {
    trimmed := Trim(line);
    if !inBlockComment {
      trimmed := NormalizeSpacing(trimmed);
    }
  }

  method PlaceLine(trimmed: string, indentBefore: nat, blankBefore: bool, inBlockComment: bool)
    returns (piece: string, indentLevel: nat, prevBlank: bool)
    ensures (piece, FormatState(indentLevel, prevBlank, inBlockComment))
            == PlaceText(trimmed, FormatState(indentBefore, blankBefore, false), inBlockComment)
  {
    indentLevel := indentBefore;
    if trimmed == "" {
      piece := if blankBefore then "" else "\n";
      prevBlank := true;
      return;
    }
    prevBlank := false;
    var stripped := StripStringContents(trimmed);
    if ClosesBlock(stripped) && indentLevel > 0 {
      indentLevel := indentLevel - 1;
    }
    piece := Spaces(indentLevel * INDENT_SIZE) + trimmed + "\n";
    if OpensBlock(stripped) {
      indentLevel := indentLevel + 1;
    }
  }

  /** The body of the formatter's loop: what the line adds, and the updated locals. */
  method FormatOneLine(line: string, indentBefore: nat, blankBefore: bool, inBlockBefore: bool)
    returns (piece: string, indentLevel: nat, prevBlank: bool, inBlockComment: bool)
    ensures (piece, FormatState(indentLevel, prevBlank, inBlockComment))
            == FormatLine(line, FormatState(indentBefore, blankBefore, inBlockBefore))
  {
    var trimmed := LineText(line, inBlockBefore);
    inBlockComment := BlockCommentCarries(trimmed, inBlockBefore);
    piece, indentLevel, prevBlank := PlaceLine(trimmed, indentBefore, blankBefore, inBlockComment);
  }

  /** `Formatter::format` */
  method Format(source: string) returns (output: string)
    ensures output == Formatted(source)
  {
    output := "";
    var indentLevel: nat, prevBlank, inBlockComment := 0, false, false;
    var lines := Lines(source);
    for k := 0 to |lines|
      invariant AfterLines(FormatLine, lines, k)
        == Progress(output, FormatState(indentLevel, prevBlank, inBlockComment))
    {
      var piece;
      piece, indentLevel, prevBlank, inBlockComment :=
        FormatOneLine(lines[k], indentLevel, prevBlank, inBlockComment);
      output := output + piece;
    }
  }
}
