/** Which lines keep their part of a string, read off the lines themselves (src/fmt.rs). */
module FmtLiteralLines {
  import opened SourceScan
  import opened FmtSpacing
  import opened FmtRegions
  import opened FmtFile
  import opened FmtFileRegions
  import opened FmtStrings
  import opened FmtFileStrings
  import opened FmtCommentFlag

  // --- one line ---

  /**
    * A line that starts inside a string stands as the formatter sets it, as far as the string reaches: a blank line is
    * empty and follows none, another is indented by exactly the spaces that the formatter gives it, and from there on
    * its part of the string begins the re-spaced line.
    */
  predicate Stands(raw: string, st: FormatState) {
    var text := Normalized(Trim(raw));
    var n := IndentOf(text, st) * INDENT_SIZE;
    if Trim(raw) == "" then raw == "" && !st.prevBlank
    else IndentedBy(raw, n) && n <= |LiteralPart(raw)| && LiteralPart(raw)[n..] <= text + "\n"
  }

  /** Exactly `n` spaces, then a character that is not whitespace. */
  predicate IndentedBy(raw: string, n: nat) {
    n < |raw| && !IsWhitespace(raw[n]) && forall i :: 0 <= i < n ==> raw[i] == ' '
  }

  /** The literal part reaches beyond the whitespace in front. */
  lemma PartHoldsFront(raw: string, f: nat)
    requires f < |raw| && !IsWhitespace(raw[f]) && forall i :: 0 <= i < f ==> IsWhitespace(raw[i])
    ensures f < |LiteralPart(raw)| && forall i :: 0 <= i <= f ==> LiteralPart(raw)[i] == raw[i]
  {
    QuoteIsThere(raw);
    ClosingQuoteAdvances(raw, 0);
    assert ClosingQuote(raw, 0) < |raw| ==> !IsWhitespace(raw[ClosingQuote(raw, 0)]);
  }

  lemma FrontOf(raw: string) returns (f: nat)
    requires Trim(raw) != ""
    ensures f < |raw| && !IsWhitespace(raw[f]) && forall i :: 0 <= i < f ==> IsWhitespace(raw[i])
  {
    var front, back := TrimParts(raw);
    f := |front|;
    assert raw[f] == Trim(raw)[0];
    assert forall i :: 0 <= i < f ==> raw[i] == front[i];
  }

  /** A part that goes on as the indented text starts at the same column. */
  lemma SameColumn(part: string, f: nat, n: nat, text: string)
    requires f < |part| && !IsWhitespace(part[f]) && forall i :: 0 <= i < f ==> IsWhitespace(part[i])
    requires text != "" && !IsWhitespace(text[0]) && part <= Spaces(n) + text + "\n"
    ensures f == n && (forall i :: 0 <= i < n ==> part[i] == ' ') && part[n..] <= text + "\n"
  {
    var piece := Spaces(n) + text + "\n";
    assert piece[n] == text[0] && forall i :: 0 <= i < n ==> piece[i] == ' ';
    assert piece[n..] == text + "\n";
    assert part == piece[..|part|];
  }

  lemma IndentedPrefix(part: string, n: nat, text: string)
    requires n <= |part| && (forall i :: 0 <= i < n ==> part[i] == ' ') && part[n..] <= text + "\n"
    ensures part <= Spaces(n) + text + "\n"
  {
    assert part == Spaces(n) + part[n..];
    assert Spaces(n) + text + "\n" == Spaces(n) + (text + "\n");
  }

  lemma BlankStands(raw: string, line: string, st: FormatState)
    requires Trim(raw) == "" == Trim(line) && !st.inBlockComment
    ensures LiteralPart(raw) <= FormatLine(line, st).0 <==> raw == "" && !st.prevBlank
  {
    TrimmedAwayIsBlank(raw);
    BlankLiteralPart(raw);
    assert FormatLine(line, st).0 == if st.prevBlank then "" else "\n";
    assert raw + "\n" <= "\n" ==> raw == "";
  }

  lemma TextOfLine(line: string, st: FormatState)
    requires Trim(line) != "" && '\n' !in Trim(line) && !st.inBlockComment
    ensures var text := Normalized(Trim(line));
            && text != "" && !IsWhitespace(text[0])
            && FormatLine(line, st).0 == Spaces(IndentOf(text, st) * INDENT_SIZE) + text + "\n"
  {
    TextIsDense(line, false);
    if Normalized(Trim(line)) == "" {
      EmptyTextIsTrimmedAway(line, false);
    }
  }

  /** The formatter keeps the line's part of the string exactly when the line stands. */
  lemma KeptWhereItStands(raw: string, line: string, st: FormatState)
    requires '\n' !in raw && Trim(line) == Trim(raw) && !st.inBlockComment
    ensures LiteralPart(raw) <= FormatLine(line, st).0 <==> Stands(raw, st)
  {
    if Trim(raw) == "" {
      BlankStands(raw, line, st);
    } else {
      TrimKeepsNewlines(raw);
      TextOfLine(line, st);
      var text := Normalized(Trim(raw));
      TextStands(raw, text, IndentOf(text, st) * INDENT_SIZE);
    }
  }

  lemma TextStands(raw: string, text: string, n: nat)
    requires Trim(raw) != "" && text != "" && !IsWhitespace(text[0])
    ensures LiteralPart(raw) <= Spaces(n) + text + "\n"
            <==> IndentedBy(raw, n) && n <= |LiteralPart(raw)| && LiteralPart(raw)[n..] <= text + "\n"
  {
    var f := FrontOf(raw);
    PartHoldsFront(raw, f);
    if LiteralPart(raw) <= Spaces(n) + text + "\n" {
      SameColumn(LiteralPart(raw), f, n, text);
    }
    if IndentedBy(raw, n) && n <= |LiteralPart(raw)| && LiteralPart(raw)[n..] <= text + "\n" {
      PartHoldsFront(raw, n);
      IndentedPrefix(LiteralPart(raw), n, text);
    }
  }

  /** A line without a character that is re-spaced stands exactly when it has the right indentation and, if the string
      goes on behind it, no whitespace at its end. */
  lemma PlainLineStands(raw: string, st: FormatState)
    requires Trim(raw) != "" && !Mentions(Trim(raw), NEEDS_NORMALIZING)
    ensures Stands(raw, st)
            <==> IndentedBy(raw, IndentOf(Trim(raw), st) * INDENT_SIZE)
                 && (ClosingQuote(raw, 0) < |raw| || NoTrailingSpace(raw))
  {
    var n := IndentOf(Trim(raw), st) * INDENT_SIZE;
    if IndentedBy(raw, n) {
      PartHoldsFront(raw, n);
      PlainPart(raw, n);
    }
  }

  lemma PlainPart(raw: string, n: nat)
    requires IndentedBy(raw, n) && n <= |LiteralPart(raw)|
    ensures LiteralPart(raw)[n..] <= Trim(raw) + "\n" <==> ClosingQuote(raw, 0) < |raw| || NoTrailingSpace(raw)
  {
    var front, back := TrimParts(raw);
    var core := Trim(raw);
    FrontIsIndent(raw, front, core, back, n);
    QuoteIsThere(raw);
    ClosingQuoteAdvances(raw, 0);
    var e := ClosingQuote(raw, 0);
    assert raw[n..] == core + back;
    if e < |raw| {
      QuoteInCore(raw, n, core, back, e);
    } else {
      WholeLineInCore(raw, n, core, back);
    }
  }

  lemma FrontIsIndent(raw: string, front: string, core: string, back: string, n: nat)
    requires raw == front + core + back && Blank(front) && Blank(back) && Trimmed(core) && IndentedBy(raw, n)
    ensures |front| == n && core != ""
  {
    assert forall i :: 0 <= i < |front| ==> raw[i] == front[i];
    assert forall i :: |front + core| <= i < |raw| ==> raw[i] == back[i - |front + core|];
    assert |front| <= n < |front + core|;
    assert raw[|front|] == core[0];
  }

  lemma QuoteInCore(raw: string, n: nat, core: string, back: string, e: nat)
    requires n <= e < |raw| && raw[e] == '"' && raw[n..] == core + back && Blank(back)
    ensures raw[..e + 1][n..] <= core + "\n"
  {
    assert raw[n..][e - n] == '"';
    assert e - n < |core|;
    assert raw[..e + 1][n..] == core[..e + 1 - n];
  }

  lemma WholeLineInCore(raw: string, n: nat, core: string, back: string)
    requires n <= |raw| && raw[n..] == core + back && Blank(back) && core != "" && !IsWhitespace(core[|core| - 1])
    ensures (raw + "\n")[n..] <= core + "\n" <==> NoTrailingSpace(raw)
  {
    assert (raw + "\n")[n..] == core + back + "\n";
    assert raw[|raw| - 1] == (core + back)[|core + back| - 1];
    if back == "" {
      assert core + back + "\n" == core + "\n";
    } else {
      assert |core + back + "\n"| > |core + "\n"|;
    }
  }

  // --- the whole file ---

  /** The parts of strings on line `k` stand as the formatter sets them. */
  predicate StandsAt(source: string, k: nat)
    requires k < |LineStarts(source)|
  {
    if StartsInString(source, k) then Stands(RawAt(source, k), StateAt(source, k))
    else EndsInString(source, k) ==> NoTrailingSpace(RawAt(source, k))
  }

  predicate StandsBefore(source: string, k: nat)
    requires k <= |LineStarts(source)|
  {
    forall j {:trigger StandsAt(source, j)} :: 0 <= j < k ==> StandsAt(source, j)
  }

  lemma KeptAtExactly(source: string, k: nat)
    requires Closed(source) && k < |LineStarts(source)| && FlagRight(source, k)
    ensures LiteralKept(source, k) <==> StandsAt(source, k)
  {
    if StartsInString(source, k) {
      FlagUnsetInString(source, k);
      LineHasNoNewline(source, k);
      KeptWhereItStands(RawAt(source, k), Lines(source)[k], StateAt(source, k));
    }
  }

  lemma OneMoreStands(source: string, k: nat)
    requires k < |LineStarts(source)|
    ensures StandsBefore(source, k + 1) <==> StandsBefore(source, k) && StandsAt(source, k)
    ensures KeptBefore(source, k + 1) <==> KeptBefore(source, k) && LiteralKept(source, k)
  {
  }

  /** Among tame lines, every part is kept exactly when every part stands. */
  lemma {:induction false} KeptBeforeExactly(source: string, k: nat)
    requires Closed(source) && k <= |LineStarts(source)| && TameBefore(source, k)
    ensures KeptBefore(source, k) <==> StandsBefore(source, k)
  {
    if k > 0 {
      TameFewer(source, k - 1, k);
      KeptBeforeExactly(source, k - 1);
      KeptNextExactly(source, k - 1);
    }
  }

  lemma KeptNextExactly(source: string, k: nat)
    requires Closed(source) && k < |LineStarts(source)| && TameBefore(source, k)
    requires KeptBefore(source, k) <==> StandsBefore(source, k)
    ensures KeptBefore(source, k + 1) <==> StandsBefore(source, k + 1)
  {
    OneMoreStands(source, k);
    if KeptBefore(source, k) {
      KeptHereExactly(source, k);
    }
  }

  lemma KeptHereExactly(source: string, k: nat)
    requires Closed(source) && k < |LineStarts(source)| && TameBefore(source, k) && KeptBefore(source, k)
    ensures LiteralKept(source, k) <==> StandsAt(source, k)
  {
    MirroredUpTo(source, k);
    FlagOfMirrored(source, k);
    KeptAtExactly(source, k);
  }

  /** Formatting changes nothing but layout exactly when every part of a string stands as the formatter sets it. */
  lemma FormattingKeepsStandingExactly(source: string)
    requires Closed(source) && TameBefore(source, |LineStarts(source)|)
    ensures Visible(Formatted(source)) == Visible(source) <==> StandsBefore(source, |LineStarts(source)|)
  {
    KeptBeforeExactly(source, |LineStarts(source)|);
    FormattingKeepsVisibleExactly(source);
  }

  /** Behind tame lines that stand, the first line that does not stand changes what is visible, whatever follows it. */
  lemma FallenLineShows(source: string, k: nat)
    requires Closed(source) && k < |LineStarts(source)| && TameBefore(source, k) && StandsBefore(source, k)
    requires !StandsAt(source, k)
    ensures Visible(Formatted(source)) != Visible(source)
  {
    KeptBeforeExactly(source, k);
    KeptHereExactly(source, k);
    LostLiteralIsVisible(source, k);
  }

  /** Whatever the rest of the file: if the first line that starts inside a string does not stand, the text changes. */
  lemma FirstStringLineHasToStand(source: string, k: nat)
    requires Closed(source) && k < |LineStarts(source)|
    requires forall j {:trigger StartsInString(source, j)} :: 0 <= j < k ==> !StartsInString(source, j)
    requires !StandsAt(source, k)
    ensures Visible(Formatted(source)) != Visible(source)
  {
    if KeptBefore(source, k) {
      KeptHereExactly(source, k);
      LostLiteralIsVisible(source, k);
    } else {
      var j := FirstLostLine(source, k);
      LostLiteralIsVisible(source, j);
    }
  }
}
