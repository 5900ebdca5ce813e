/** Inputs with strings over several lines that formatting changes (src/fmt.rs). */
module FmtStringInputs {
  import opened SourceScan
  import opened FmtSpacing
  import opened FmtRegions
  import opened FmtFile
  import opened FmtFileRegions
  import opened FmtStrings
  import opened FmtFileStrings
  import opened FmtCommentFlag

  // --- a string over two lines ---

  /** `n` spaces, then another character. */
  ghost predicate StartsWithSpaces(raw: string, n: nat) {
    n < |raw| && raw[n] != ' ' && forall i :: 0 <= i < n ==> raw[i] == ' '
  }

  lemma SpacesAreInLiteral(raw: string, n: nat)
    requires StartsWithSpaces(raw, n)
    ensures n < |LiteralPart(raw)| && forall i :: 0 <= i <= n ==> LiteralPart(raw)[i] == raw[i]
  {
    QuoteIsThere(raw);
    ClosingQuoteAdvances(raw, 0);
    assert ClosingQuote(raw, 0) < |raw| ==> raw[ClosingQuote(raw, 0)] != ' ';
  }

  lemma OddIndentIsNoPrefix(part: string, n: nat, piece: string, body: string, m: nat)
    requires StartsWithSpaces(part, n) && n % INDENT_SIZE != 0
    requires piece == "" || piece == "\n" || (piece == body + "\n" && IndentedText(body, m * INDENT_SIZE))
    ensures !(part <= piece)
  {
    assert n != m * INDENT_SIZE && part[0] == ' ';
    if piece != "" && piece != "\n" {
      var j := if n < m * INDENT_SIZE then n else m * INDENT_SIZE;
      assert piece[j] == body[j] != part[j];
    }
  }

  lemma OddIndentIsLost(source: string, k: nat, n: nat)
    requires k < |LineStarts(source)| && StartsWithSpaces(RawAt(source, k), n) && n % INDENT_SIZE != 0
    ensures !(LiteralPart(RawAt(source, k)) <= PieceAt(source, k))
  {
    SpacesAreInLiteral(RawAt(source, k), n);
    var body, m := PieceShape(source, k);
    OddIndentIsNoPrefix(LiteralPart(RawAt(source, k)), n, PieceAt(source, k), body, m);
  }

  /** A continuation line whose first text does not stand at a multiple of the indentation is always changed. */
  lemma OddIndentShows(source: string, k: nat, n: nat)
    requires Closed(source) && k < |LineStarts(source)| && TameBefore(source, k) && KeptBefore(source, k)
    requires StartsInString(source, k) && StartsWithSpaces(RawAt(source, k), n) && n % INDENT_SIZE != 0
    ensures Visible(Formatted(source)) != Visible(source)
  {
    OddIndentIsLost(source, k, n);
    LostLiteralIsVisible(source, k);
  }

  /** Without the character there is no character literal. */
  lemma ClosedText(s: string)
    requires LexState(s) == Plain && forall k :: 0 <= k < |s| ==> s[k] != '\''
    ensures Closed(s)
  {
    ScannedChars(s);
  }

  lemma NextState(s: string, i: nat)
    requires i < |s|
    ensures LexState(s[..i + 1]) == Next(LexState(s[..i]), s[i])
  {
    ReadOne(Plain, s, i);
  }

  /** A source of two lines, the first of which ends inside a string. */
  ghost predicate StartsOpen(s: string) {
    && |s| > 3 && s[0] == '"' && s[1] == 'a' && s[2] == '\n'
    && LexState(s[..2]) == Str && LexState(s[..3]) == Str
  }

  lemma OpenStart(s: string)
    requires |s| > 3 && s[0] == '"' && s[1] == 'a' && s[2] == '\n'
    ensures StartsOpen(s)
  {
    assert s[..0] == "";
    NextState(s, 0);
    NextState(s, 1);
    NextState(s, 2);
  }

  lemma SecondLine(s: string)
    requires StartsOpen(s)
    ensures |LineStarts(s)| > 1 && StartAt(s, 0) == 0 && StartAt(s, 1) == 3 && RawAt(s, 0) == s[..2]
    ensures StartsInString(s, 1) && TameBefore(s, 1) && KeptBefore(s, 1)
  {
    assert NewlineFrom(s, 1) == 2;
    StartsChain(s, 0, 0);
    LineBounds(s, 0);
    LineBounds(s, 1);
    assert s[..0] == "";
  }

  /** A string literal over two lines, the second with two spaces in front. */
  const TWO_LINES := "\"a\n  b\""

  ghost predicate IsTwoLines(s: string) {
    |s| == 7 && s[0] == '"' && s[1] == 'a' && s[2] == '\n' && s[3] == ' ' && s[4] == ' ' && s[5] == 'b' && s[6] == '"'
  }

  lemma TwoLinesScan(s: string)
    requires IsTwoLines(s)
    ensures LexState(s) == Plain
  {
    OpenStart(s);
    NextState(s, 3);
    NextState(s, 4);
    NextState(s, 5);
    NextState(s, 6);
    assert s[..7] == s;
  }

  /** Formatting deletes the two spaces inside the literal. */
  lemma FormattingChangesString(s: string)
    requires s == TWO_LINES
    ensures Visible(Formatted(s)) != Visible(s)
  {
    assert IsTwoLines(s);
    TwoLinesScan(s);
    ClosedText(s);
    OpenStart(s);
    SecondLine(s);
    assert NewlineFrom(s, 3) == 7;
    assert RawAt(s, 1) == s[3..7];
    OddIndentShows(s, 1, 2);
  }

  /** A string literal over two lines that holds a comment opener, and a line behind it. */
  const OPENER_IN_STRING := "\"a\n/*\"\nx"

  ghost predicate IsOpenerInString(s: string) {
    |s| == 8 && s[0] == '"' && s[1] == 'a' && s[2] == '\n' && s[3] == '/' && s[4] == '*' && s[5] == '"'
    && s[6] == '\n' && s[7] == 'x'
  }

  lemma OpenerScan(s: string)
    requires IsOpenerInString(s)
    ensures LexState(s) == Plain && LexState(s[..7]) == Plain
  {
    OpenStart(s);
    NextState(s, 3);
    NextState(s, 4);
    NextState(s, 5);
    NextState(s, 6);
    NextState(s, 7);
    assert s[..8] == s;
  }

  ghost predicate IsOpenerLine(core: string) {
    |core| == 3 && core[0] == '/' && core[1] == '*' && core[2] == '"'
  }

  lemma OpenerLineScan(core: string)
    requires IsOpenerLine(core)
    ensures LexFrom(Plain, core) == Block && QUOTE !in EmittedFrom(Plain, core)
  {
    assert core[..0] == "";
    ReadOne(Plain, core, 0);
    ReadOne(Plain, core, 1);
    ReadOne(Plain, core, 2);
    assert core[..3] == core;
  }

  /** A line that reads as an open block comment leaves the tracker's flag set. */
  lemma OpenerSetsFlag(core: string)
    requires Trimmed(core) && '\n' !in core
    requires LexFrom(Plain, core) == Block && QUOTE !in EmittedFrom(Plain, core)
    ensures CarriesFrom(Normalized(core), 0, false)
  {
    NormalizationKeepsSubstance(core);
    NormalizationKeepsQuotes(core);
    NormalizedHasNoNewline(core);
    FeedAllFrom(FRESH, core, CodeSpace);
    FeedAllFrom(FRESH, Normalized(core), CodeSpace);
    TrackerFromLineStart(Plain, Normalized(core));
  }

  lemma OpenerLines(s: string)
    requires IsOpenerInString(s) && |LineStarts(s)| > 1 && StartAt(s, 1) == 3
    ensures |LineStarts(s)| > 2 && StartAt(s, 2) == 7 && IsOpenerLine(Lines(s)[1])
  {
    assert NewlineFrom(s, 5) == 6;
    assert NewlineFrom(s, 4) == 6;
    LineBounds(s, 1);
    StartsChain(s, 0, 1);
  }

  lemma OpenerLineSetsFlag(line: string, st: FormatState)
    requires IsOpenerLine(line) && !st.inBlockComment
    ensures FormatLine(line, st).1.inBlockComment
  {
    OpenerLineScan(line);
    assert Trim(line) == line;
    OpenerSetsFlag(line);
  }

  lemma OpenerFollowsString(s: string)
    requires IsOpenerInString(s)
    ensures |LineStarts(s)| > 2 && StartAt(s, 2) == 7 && IsOpenerLine(Lines(s)[1])
    ensures !StateAt(s, 1).inBlockComment && LexState(s[..7]) == Plain
  {
    OpenerScan(s);
    ClosedText(s);
    OpenStart(s);
    SecondLine(s);
    OpenerLines(s);
    FlagFollowsKeptStrings(s, 1);
    FlagUnsetInString(s, 1);
  }

  /** Behind such a literal the comment flag is set although no comment is open. */
  lemma OpenerInStringBreaksFlag(s: string)
    requires s == OPENER_IN_STRING
    ensures |LineStarts(s)| > 2 && AfterLines(FormatLine, Lines(s), 2).st.inBlockComment
    ensures LexState(s[..LineStarts(s)[2]]) == Plain && !FlagRight(s, 2)
  {
    assert IsOpenerInString(s);
    OpenerFollowsString(s);
    OpenerLineSetsFlag(Lines(s)[1], StateAt(s, 1));
    OneMoreLine(s, 1);
  }

  // --- a line that is not tame ---

  /** A string over two lines, then, on the second, another one that holds a bracket and a space. */
  const SECOND_STRING := "\"a\n\"\"( \""

  ghost predicate IsSecondString(s: string) {
    |s| == 8 && s[0] == '"' && s[1] == 'a' && s[2] == '\n' && IsSecondLine(s[3..])
  }

  ghost predicate IsSecondLine(core: string) {
    |core| == 5 && core[0] == '"' && core[1] == '"' && core[2] == '(' && core[3] == ' ' && core[4] == '"'
  }

  /** Scanned on its own, the line is an empty string, code, and the start of a string. */
  lemma SecondLineScan(core: string)
    requires IsSecondLine(core)
    ensures Scanned(core) == [('"', Code), ('"', Code), ('(', Code), (' ', Code), ('"', Code)]
  {
    assert core[..0] == "";
    ReadOne(Plain, core, 0);
    ReadOne(Plain, core, 1);
    ReadOne(Plain, core, 2);
    ReadOne(Plain, core, 3);
    ReadOne(Plain, core, 4);
    assert core[..5] == core;
  }

  lemma QuoteStep(core: string, regions: Tagged, i: nat, out: seq<Cell>)
    requires i < |core| == |regions| && core[i] == '"' && regions[i].1 == Code
    ensures Rewrite(core, regions, i, out) == (out + [('"', true)], i + 1)
  {
    assert out + [] == out && out + [('"', true)] + [] == out + [('"', true)];
  }

  lemma BracketStep(core: string, regions: Tagged, i: nat, out: seq<Cell>)
    requires i + 1 < |core| == |regions| && core[i] == '(' && core[i + 1] == ' ' && regions[i].1 == Code
    ensures Rewrite(core, regions, i, out) == (out + [('(', true)], i + 2)
  {
  }

  lemma SecondLineRewritten(core: string, regions: Tagged)
    requires IsSecondLine(core) && |regions| == 5 && forall k :: 0 <= k < 5 ==> regions[k].1 == Code
    ensures RewriteFrom(core, regions, 0, []) == [('"', true), ('"', true), ('(', true), ('"', true)]
  {
    var a: seq<Cell> := [] + [('"', true)];
    QuoteStep(core, regions, 0, []);
    QuoteStep(core, regions, 1, a);
    var b := a + [('"', true)];
    BracketStep(core, regions, 2, b);
    var c := b + [('(', true)];
    QuoteStep(core, regions, 4, c);
    assert RewriteFrom(core, regions, 2, b) == RewriteFrom(core, regions, 4, c) == c + [('"', true)];
  }

  lemma CollapsedWithoutSpaces(out: seq<Cell>)
    requires |out| == 4 && forall k :: 0 <= k < 4 ==> out[k] != SPACE
    ensures Collapsed(out) == [out[0].0, out[1].0, out[2].0, out[3].0]
  {
    assert Collapsed(out[..1]) == [out[0].0] by { assert out[..1][..0] == []; }
    assert Collapsed(out[..2]) == [out[0].0, out[1].0] by { assert out[..2][..1] == out[..1]; }
    assert Collapsed(out[..3]) == [out[0].0, out[1].0, out[2].0] by { assert out[..3][..2] == out[..2]; }
  }

  /** So the rewriter takes the space in the second string for one behind a bracket. */
  lemma SecondLineNormalized(core: string)
    requires IsSecondLine(core)
    ensures Trim(core) == core && Normalized(core) == ['"', '"', '(', '"']
  {
    SecondLineScan(core);
    SecondLineRewritten(core, Scanned(core));
    CollapsedWithoutSpaces(RewriteFrom(core, Scanned(core), 0, []));
    assert core[2] in NEEDS_NORMALIZING;
    var text := ['"', '"', '(', '"'];
    assert Trim(text) == text;
  }

  lemma SecondStringScan(s: string)
    requires IsSecondString(s)
    ensures LexState(s) == Plain
  {
    assert s[3..][0] == s[3] && s[3..][1] == s[4] && s[3..][2] == s[5] && s[3..][3] == s[6] && s[3..][4] == s[7];
    OpenStart(s);
    NextState(s, 3);
    NextState(s, 4);
    NextState(s, 5);
    NextState(s, 6);
    NextState(s, 7);
    assert s[..8] == s;
  }

  lemma SecondStringClosed(s: string)
    requires IsSecondString(s) && LexState(s) == Plain
    ensures Closed(s)
  {
    assert s[3..][0] == s[3] && s[3..][1] == s[4] && s[3..][2] == s[5] && s[3..][3] == s[6] && s[3..][4] == s[7];
    ClosedText(s);
  }

  /** The first line leaves the indentation as it is. */
  lemma OpenLineKeepsIndent(line: string, st: FormatState)
    requires |line| == 2 && line[0] == '"' && line[1] == 'a' && st == INITIAL
    ensures FormatLine(line, st).1.indent == 0
  {
    assert line[..0] == "";
    ReadOne(Plain, line, 0);
    ReadOne(Plain, line, 1);
    assert line[..2] == line;
    assert Trim(line) == line && Normalized(line) == line;
    assert Scanned(line) == [('"', Code), ('a', StringContent)];
    assert Blanked(Scanned(line))[0] == '"' && Blanked(Scanned(line))[1] == ' ';
  }

  lemma SecondStringLines(s: string)
    requires IsSecondString(s) && StartsOpen(s)
    ensures |LineStarts(s)| == 2 && StartAt(s, 1) == 3 && RawAt(s, 1) == s[3..] && IsSecondLine(Lines(s)[1])
    ensures StartsInString(s, 1) && TameBefore(s, 1) && KeptBefore(s, 1) && Lines(s)[0] == s[..2]
  {
    SecondLine(s);
    assert s[3..][0] == s[3] && s[3..][1] == s[4] && s[3..][2] == s[5] && s[3..][3] == s[6] && s[3..][4] == s[7];
    LineBounds(s, 0);
    NoNewlineToEnd(s, 3);
    LineBounds(s, 1);
    StartsChain(s, 0, 1);
  }

  lemma {:induction false} NoNewlineToEnd(s: string, i: nat)
    requires i <= |s| && forall k :: i <= k < |s| ==> s[k] != '\n'
    ensures NewlineFrom(s, i) == |s|
    decreases |s| - i
  {
    if i < |s| {
      NoNewlineToEnd(s, i + 1);
    }
  }

  lemma SecondStringState(s: string)
    requires IsSecondString(s)
    ensures StartsOpen(s) && Closed(s) && |LineStarts(s)| == 2 && MirroredAt(s, 1)
    ensures StateAt(s, 1).indent == 0 && !StateAt(s, 1).inBlockComment
  {
    SecondStringScan(s);
    SecondStringClosed(s);
    OpenStart(s);
    SecondStringLines(s);
    MirroredUpTo(s, 1);
    FlagFollowsKeptStrings(s, 1);
    FlagUnsetInString(s, 1);
    OpenLineKeepsIndent(Lines(s)[0], INITIAL);
    OneMoreLine(s, 0);
  }

  lemma SecondLinePiece(line: string, st: FormatState)
    requires IsSecondLine(line) && st.indent == 0 && !st.inBlockComment
    ensures FormatLine(line, st).0 == ['"', '"', '(', '"', '\n']
  {
    SecondLineNormalized(line);
    var text := ['"', '"', '(', '"'];
    var indent := PieceOfText(text, st, CarriesFrom(text, 0, false));
    assert Spaces(0) + text + "\n" == ['"', '"', '(', '"', '\n'];
  }

  lemma SecondLineParts(raw: string, piece: string)
    requires IsSecondLine(raw) && piece == ['"', '"', '(', '"', '\n']
    ensures LiteralPart(raw) <= piece && !Tame(raw)
  {
    assert ClosingQuote(raw, 0) == 0 && LiteralPart(raw) == ['"'];
    assert raw[1..][0] == '"';
  }

  lemma SecondStringPieces(s: string)
    requires IsSecondString(s)
    ensures |LineStarts(s)| == 2 && PieceAt(s, 1) == RestAt(s, 1) == ['"', '"', '(', '"', '\n']
  {
    SecondStringState(s);
    SecondStringLines(s);
    SecondLinePiece(Lines(s)[1], StateAt(s, 1));
    RestStep(s, 1);
    assert RestAt(s, 2) == "";
  }

  lemma SecondStringIsKept(s: string)
    requires IsSecondString(s)
    ensures |LineStarts(s)| == 2 && KeptBefore(s, 2) && !TameBefore(s, 2)
  {
    SecondStringState(s);
    SecondStringLines(s);
    SecondStringPieces(s);
    SecondLineParts(RawAt(s, 1), PieceAt(s, 1));
    assert !TameAt(s, 1) && LiteralKept(s, 1);
  }

  lemma SplitAtThree(a: string, b: string)
    requires IsSecondLine(a) && b == ['"', '"', '(', '"', '\n']
    ensures a == a[..3] + a[3..] && b == a[..3] + b[3..] && a[3..][0] == ' ' && b[3..][0] == '"'
    ensures LexFrom(Str, a[..3]) == Str
  {
    assert a[..0] == "";
    ReadOne(Str, a, 0);
    ReadOne(Str, a, 1);
    ReadOne(Str, a, 2);
    assert a[..3] == b[..3];
  }

  /** Behind the first three characters the source goes on with a space, the output with a quote. */
  lemma SecondLinesLookDifferent(g: Sig, rest: string, piece: string)
    requires g.q == Str && IsSecondLine(rest) && piece == ['"', '"', '(', '"', '\n']
    ensures Settle(FeedAll(g, rest, Layout)).kept != Settle(FeedAll(g, piece, Layout)).kept
  {
    SplitAtThree(rest, piece);
    LooksDifferentBehind(g, rest[..3], rest[3..], piece[3..]);
  }

  lemma LooksDifferentBehind(g: Sig, shared: string, a: string, b: string)
    requires LexFrom(g.q, shared) == Str && a != "" && b != "" && a[0] != b[0]
    ensures Settle(FeedAll(g, shared + a, Layout)).kept != Settle(FeedAll(g, shared + b, Layout)).kept
  {
    FeedConcat(g, shared, a, Layout);
    FeedConcat(g, shared, b, Layout);
    FeedAllFrom(g, shared, Layout);
    FirstCharacterShows(FeedAll(g, shared, Layout), a, b);
  }

  /** On a line that is not tame, keeping its part of a string is not enough. */
  lemma SecondStringOnLineChanges(s: string)
    requires s == SECOND_STRING
    ensures Closed(s) && |LineStarts(s)| == 2 && KeptBefore(s, 2) && !TameBefore(s, 2)
    ensures Visible(Formatted(s)) != Visible(s)
  {
    assert IsSecondString(s) by {
      assert s[3..][0] == s[3] && s[3..][1] == s[4] && s[3..][2] == s[5] && s[3..][3] == s[6] && s[3..][4] == s[7];
    }
    SecondStringState(s);
    SecondStringLines(s);
    SecondStringPieces(s);
    SecondStringIsKept(s);
    ContinuationFacts(s, 1);
    SecondLinesLookDifferent(ReadTo(s, 3), s[3..], RestAt(s, 1));
    RestShows(s, 1, ReadTo(s, 3), 3);
  }
}
