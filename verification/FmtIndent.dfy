/** Where the formatter puts each line (src/fmt.rs, `Formatter::format`). */
module FmtIndent {
  import opened SourceScan
  import opened FmtSpacing
  import opened FmtRegions
  import opened FmtFile
  import opened FmtFileRegions
  import opened FmtStrings
  import opened FmtFileStrings

  // --- what a line does to the nesting ---

  /** A line without the whitespace around it. */
  function CoreAt(source: string, k: nat): string
    requires k < |LineStarts(source)|
  {
    Trim(Lines(source)[k])
  }

  predicate BlankAt(source: string, k: nat)
    requires k < |LineStarts(source)|
  {
    CoreAt(source, k) == ""
  }

  /** The line starts with a closing bracket. */
  predicate StartsClosing(core: string) {
    core != "" && core[0] in ['}', ')', ']']
  }

  /** The line ends with an opening bracket that is not part of a literal; one in a comment counts. */
  predicate EndsOpening(core: string) {
    core != "" && core[|core| - 1] in ['{', '(', '[']
    && |Scanned(core)| == |core| && Scanned(core)[|core| - 1].1 !in [StringContent, CharContent]
  }

  /** The nesting depth before line `k`. */
  function Depth(source: string, k: nat): nat
    requires k <= |LineStarts(source)|
    decreases k, 0
  {
    if k == 0 then 0
    else if BlankAt(source, k - 1) then Depth(source, k - 1)
    else OwnDepth(source, k - 1) + if EndsOpening(CoreAt(source, k - 1)) then 1 else 0
  }

  /** The depth at which line `k` itself stands: a closing bracket takes it back by one. */
  function OwnDepth(source: string, k: nat): nat
    requires k < |LineStarts(source)|
    decreases k, 1
  {
    var depth := Depth(source, k);
    if StartsClosing(CoreAt(source, k)) && depth > 0 then depth - 1 else depth
  }

  /** A comment that ends in a bracket indents what follows. */
  lemma CommentOpens(core: string)
    requires |core| == 3 && core[0] == '/' && core[1] == '/' && core[2] == '{'
    ensures EndsOpening(core)
  {
    assert core[..0] == "";
    ReadOne(Plain, core, 0);
    ReadOne(Plain, core, 1);
    ScannedLength(core);
    RegionAt(core, 2);
  }

  // --- the ends of a line survive its re-spacing ---

  lemma NormalizedEnds(core: string)
    requires core != "" && Trimmed(core) && '\n' !in core
    ensures var text := Normalized(core);
            text != "" && text[0] == core[0] && text[|text| - 1] == core[|core| - 1]
  {
    if Mentions(core, NEEDS_NORMALIZING) {
      ScannedChars(core);
      assert core[..0] == "";
      LoopKeeps(core, 0, []);
      var out := RewriteFrom(core, Scanned(core), 0, []);
      CollapsedEnds(core, out);
      TrimOfCollapsed(Collapsed(out));
    }
  }

  lemma KeptLast(t: Tagged)
    requires t != [] && !CodeSpace(t[|t| - 1].0, t[|t| - 1].1)
    ensures Kept(t, CodeSpace) != [] && Kept(t, CodeSpace)[|Kept(t, CodeSpace)| - 1] == t[|t| - 1]
  {
  }

  lemma LastTagKept(core: string)
    requires core != "" && Trimmed(core) && '\n' !in core
    ensures var text := Normalized(core);
            && text != "" && |Scanned(text)| == |text| && |Scanned(core)| == |core|
            && Scanned(text)[|text| - 1] == Scanned(core)[|core| - 1]
  {
    NormalizedEnds(core);
    var text := Normalized(core);
    NormalizationKeepsSubstance(core);
    ScannedChars(core);
    ScannedChars(text);
    KeptLast(Scanned(core));
    KeptLast(Scanned(text));
  }

  /** The first character of a line is in no literal. */
  lemma FirstTag(text: string)
    requires text != ""
    ensures |Scanned(text)| == |text| && Blanked(Scanned(text))[0] == text[0]
  {
    ScannedChars(text);
    RegionAt(text, 0);
    assert text[..0] == "";
  }

  lemma ClosingIsExact(core: string, text: string)
    requires core != "" && text != "" && text[0] == core[0]
    ensures ClosesBlock(Blanked(Scanned(text))) <==> StartsClosing(core)
  {
    FirstTag(text);
  }

  lemma OpeningIsExact(core: string, text: string)
    requires core != "" && text != "" && |Scanned(text)| == |text| && |Scanned(core)| == |core|
    requires Scanned(text)[|text| - 1] == Scanned(core)[|core| - 1]
    ensures OpensBlock(Blanked(Scanned(text))) <==> EndsOpening(core)
  {
    ScannedChars(text);
    ScannedChars(core);
    assert Blanked(Scanned(text))[|text| - 1]
        == if Scanned(core)[|core| - 1].1 in [StringContent, CharContent] then ' ' else core[|core| - 1];
  }

  /** The formatter's view of a line's brackets is the line's own. */
  lemma BracketsOfLine(line: string, inBlockComment: bool)
    requires Trim(line) != "" && '\n' !in Trim(line)
    ensures var stripped := Blanked(Scanned(Text(line, inBlockComment)));
            && Text(line, inBlockComment) != ""
            && (ClosesBlock(stripped) <==> StartsClosing(Trim(line)))
            && (OpensBlock(stripped) <==> EndsOpening(Trim(line)))
  {
    var core := Trim(line);
    TrimIsDense(line);
    ScannedLength(core);
    if !inBlockComment {
      NormalizedEnds(core);
      LastTagKept(core);
    }
    ClosingIsExact(core, Text(line, inBlockComment));
    OpeningIsExact(core, Text(line, inBlockComment));
  }

  lemma TextOfBlank(line: string, inBlockComment: bool)
    requires Trim(line) == ""
    ensures Text(line, inBlockComment) == ""
  {
  }

  // --- the whole file ---

  /** The formatter's indentation is the nesting depth, and it remembers whether the line before was blank. */
  lemma {:induction false} StateIsDepth(source: string, k: nat)
    requires k <= |LineStarts(source)|
    ensures StateAt(source, k).indent == Depth(source, k)
    ensures StateAt(source, k).prevBlank <==> k > 0 && BlankAt(source, k - 1)
  {
    if k > 0 {
      StateIsDepth(source, k - 1);
      StateStep(source, k - 1);
    }
  }

  lemma StateStep(source: string, k: nat)
    requires k < |LineStarts(source)| && StateAt(source, k).indent == Depth(source, k)
    ensures StateAt(source, k + 1).indent == Depth(source, k + 1)
    ensures StateAt(source, k + 1).prevBlank <==> BlankAt(source, k)
  {
    OneMoreLine(source, k);
    LineHasNoNewline(source, k);
    PlacedLine(Lines(source)[k], StateAt(source, k));
  }

  /** One line in terms of its brackets. */
  lemma PlacedLine(line: string, st: FormatState)
    requires '\n' !in Trim(line)
    ensures var (piece, st') := FormatLine(line, st);
            var core, text := Trim(line), Text(line, st.inBlockComment);
            if core == "" then piece == (if st.prevBlank then "" else "\n") && st'.indent == st.indent && st'.prevBlank
            else
              var own := if StartsClosing(core) && st.indent > 0 then st.indent - 1 else st.indent;
              && piece == Spaces(own * INDENT_SIZE) + text + "\n" && text != ""
              && st'.indent == own + (if EndsOpening(core) then 1 else 0) && !st'.prevBlank
  {
    if Trim(line) == "" {
      TextOfBlank(line, st.inBlockComment);
    } else {
      BracketsOfLine(line, st.inBlockComment);
    }
  }

  /** `piece` is `text` behind `n` spaces, with a newline. */
  predicate StandsAtColumn(piece: string, n: nat, text: string) {
    && |piece| == n + |text| + 1
    && (forall i :: 0 <= i < n ==> piece[i] == ' ')
    && piece[n..|piece| - 1] == text && piece[|piece| - 1] == '\n'
  }

  /** Each line stands four columns in for every bracket open around it; a run of blank lines leaves one. */
  lemma LineStandsAtItsDepth(source: string, k: nat)
    requires k < |LineStarts(source)|
    ensures if BlankAt(source, k) then PieceAt(source, k) == if k > 0 && BlankAt(source, k - 1) then "" else "\n"
            else StandsAtColumn(PieceAt(source, k), 4 * OwnDepth(source, k),
                                Text(Lines(source)[k], StateAt(source, k).inBlockComment))
  {
    StateIsDepth(source, k);
    LineHasNoNewline(source, k);
    PlacedLine(Lines(source)[k], StateAt(source, k));
  }

  // --- matching brackets ---

  /** The lines from `i` to `j`, blank ones apart, stand deeper than `depth`. */
  predicate Deeper(source: string, i: nat, j: nat, depth: nat)
    requires i <= j <= |LineStarts(source)|
  {
    forall m {:trigger OwnDepth(source, m)} :: i <= m < j && !BlankAt(source, m) ==> OwnDepth(source, m) > depth
  }

  lemma {:induction false} DepthStaysDeep(source: string, i: nat, j: nat, depth: nat)
    requires i <= j <= |LineStarts(source)| && Deeper(source, i, j, depth) && Depth(source, i) > depth
    ensures Depth(source, j) > depth
    decreases j - i
  {
    if i < j {
      DepthStaysDeep(source, i, j - 1, depth);
    }
  }

  /** Behind a line that opens a bracket, the first line that stands no deeper starts with a closing one, and stands
      exactly where the opening line does. */
  lemma ClosingLineStandsUnderOpening(source: string, i: nat, j: nat)
    requires i < j < |LineStarts(source)| && !BlankAt(source, i) && !BlankAt(source, j)
    requires EndsOpening(CoreAt(source, i)) && Deeper(source, i + 1, j, OwnDepth(source, i))
    requires OwnDepth(source, j) <= OwnDepth(source, i)
    ensures StartsClosing(CoreAt(source, j)) && OwnDepth(source, j) == OwnDepth(source, i)
  {
    DepthStaysDeep(source, i + 1, j, OwnDepth(source, i));
  }
}
