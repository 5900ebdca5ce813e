/** When formatting a file keeps the string literals that span lines (src/fmt.rs). */
module FmtFileStrings {
  import opened SourceScan
  import opened FmtSpacing
  import opened FmtRegions
  import opened FmtFile
  import opened FmtFileRegions
  import opened FmtStrings

  // --- line by line ---

  /** An output signature and a comment flag that stand for the source up to position `p`, be it inside a string. */
  ghost predicate Mirrors(source: string, p: nat, out: Sig, flag: bool) {
    && p <= |source|
    && out == Calm(ReadTo(source, p))
    && (AtLineStart(out) || out.q == Str)
    && (p < |source| ==> out == ReadTo(source, p))
    && (flag <==> out.q == Block)
  }

  lemma LineReads(source: string, k: nat)
    requires k < |LineStarts(source)|
    ensures var start, end := StartAt(source, k), NewlineFrom(source, StartAt(source, k));
            && start < |source| && start <= end <= |source| && '\n' !in RawAt(source, k)
            && ReadTo(source, start).q == LexState(source[..start])
            && ReadTo(source, end).q == LexState(source[..end])
            && ReadTo(source, end) == FeedAll(ReadTo(source, start), RawAt(source, k), Layout)
            && LexFrom(ReadTo(source, start).q, RawAt(source, k)) == LexState(source[..end])
  {
    LineBounds(source, k);
    var start, end := StartAt(source, k), NewlineFrom(source, StartAt(source, k));
    ReadSegment(source, start, end);
    FeedAllFrom(FRESH, source[..start], Layout);
    FeedAllFrom(FRESH, source[..end], Layout);
  }

  lemma StateIsNoChr(source: string, end: nat)
    requires QuoteFree(source) && end <= |source|
    ensures InLiteral(LexState(source[..end])) <==> ReadsString(LexState(source[..end]))
  {
    SegmentHasNoQuote(source, 0, end);
    NoQuoteNoLiteral(Plain, source[..end]);
  }

  lemma ClosedEnd(source: string, end: nat)
    requires Closed(source) && end == |source|
    ensures !InLiteral(LexState(source[..end]))
  {
    assert source[..end] == source;
  }

  lemma LineHasNoQuote(source: string, k: nat)
    requires Closed(source) && k < |LineStarts(source)|
    ensures var start, end := StartAt(source, k), NewlineFrom(source, StartAt(source, k));
            && start <= end <= |source|
            && QUOTE !in EmittedFrom(LexState(source[..start]), RawAt(source, k))
            && (InLiteral(LexState(source[..end])) <==> EndsInString(source, k))
            && (end == |source| ==> !EndsInString(source, k))
  {
    LineBounds(source, k);
    var start, end := StartAt(source, k), NewlineFrom(source, StartAt(source, k));
    SegmentHasNoQuote(source, start, end);
    StateIsNoChr(source, end);
    if end == |source| {
      ClosedEnd(source, end);
    }
  }

  /** What is known about a line of a closed text. */
  lemma LineFacts(source: string, k: nat)
    requires Closed(source) && k < |LineStarts(source)|
    ensures var start, end := StartAt(source, k), NewlineFrom(source, StartAt(source, k));
            && start < |source| && start <= end <= |source| && '\n' !in RawAt(source, k)
            && ReadTo(source, start).q == LexState(source[..start])
            && ReadTo(source, end).q == LexState(source[..end])
            && ReadTo(source, end) == FeedAll(ReadTo(source, start), RawAt(source, k), Layout)
            && LexFrom(ReadTo(source, start).q, RawAt(source, k)) == LexState(source[..end])
            && QUOTE !in EmittedFrom(LexState(source[..start]), RawAt(source, k))
            && (InLiteral(LexState(source[..end])) <==> EndsInString(source, k))
            && (end == |source| ==> !EndsInString(source, k))
    ensures Trim(Lines(source)[k]) == Trim(RawAt(source, k))
  {
    LineReads(source, k);
    LineHasNoQuote(source, k);
    LineBounds(source, k);
    TrimIgnoresCarriageReturn(RawAt(source, k));
  }

  lemma LineEndFacts(source: string, k: nat)
    requires Closed(source) && k < |LineStarts(source)|
    ensures var end := NewlineFrom(source, StartAt(source, k));
            && end <= |source| && (end < |source| ==> source[end] == '\n')
            && (InLiteral(ReadTo(source, end).q) ==> ReadsString(ReadTo(source, end).q) && end < |source|)
            && StartAt(source, k + 1) == if end < |source| then end + 1 else end
  {
    LineFacts(source, k);
    LineBounds(source, k);
  }

  /** When what a line adds reads like the line with its newline, the output stands for the next line's start. */
  lemma NextMirrored(source: string, k: nat, out: Sig, flag: bool)
    requires Closed(source) && k < |LineStarts(source)|
    requires var end := NewlineFrom(source, StartAt(source, k));
             end <= |source| && out == Feed(ReadTo(source, end), '\n', Layout)
    requires flag <==> out.q == Block
    ensures Mirrors(source, StartAt(source, k + 1), out, flag)
  {
    LineEndFacts(source, k);
    MirroredBehind(source, NewlineFrom(source, StartAt(source, k)), out, flag);
  }

  lemma MirroredBehind(source: string, end: nat, out: Sig, flag: bool)
    requires end <= |source| && out == Feed(ReadTo(source, end), '\n', Layout) && (flag <==> out.q == Block)
    requires end < |source| ==> source[end] == '\n'
    requires InLiteral(ReadTo(source, end).q) ==> ReadsString(ReadTo(source, end).q) && end < |source|
    ensures Mirrors(source, if end < |source| then end + 1 else end, out, flag)
  {
    if !InLiteral(ReadTo(source, end).q) {
      EndOfLineCalms(ReadTo(source, end));
    }
    if end < |source| {
      NewlineRead(source, end);
    }
  }

  lemma NewlineRead(source: string, end: nat)
    requires end < |source| && source[end] == '\n'
    ensures ReadTo(source, end + 1) == Feed(ReadTo(source, end), '\n', Layout)
  {
    assert source[..end + 1][..end] == source[..end];
  }

  /** A line outside strings is mirrored as before. */
  lemma OutsideMirrored(source: string, k: nat, out: Sig, st: FormatState)
    requires Closed(source) && k < |LineStarts(source)|
    requires Mirrors(source, StartAt(source, k), out, st.inBlockComment)
    requires !StartsInString(source, k) && !EndsInString(source, k)
    ensures var (piece, st') := FormatLine(Lines(source)[k], st);
            Mirrors(source, StartAt(source, k + 1), FeedAll(out, piece, Layout), st'.inBlockComment)
  {
    LineFacts(source, k);
    LineBounds(source, k);
    var raw := RawAt(source, k);
    var end := NewlineFrom(source, StartAt(source, k));
    LineKeepsVisible(out, raw, Lines(source)[k], st);
    EndOfLineCalms(ReadTo(source, end));
    NextMirrored(source, k, Feed(ReadTo(source, end), '\n', Layout), Calm(ReadTo(source, end)).q == Block);
  }

  lemma OpeningMirrored(source: string, k: nat, out: Sig, st: FormatState)
    requires Closed(source) && k < |LineStarts(source)|
    requires Mirrors(source, StartAt(source, k), out, st.inBlockComment)
    requires !StartsInString(source, k) && EndsInString(source, k) && NoTrailingSpace(RawAt(source, k))
    ensures var (piece, st') := FormatLine(Lines(source)[k], st);
            Mirrors(source, StartAt(source, k + 1), FeedAll(out, piece, Layout), st'.inBlockComment)
  {
    LineFacts(source, k);
    var raw := RawAt(source, k);
    var end := NewlineFrom(source, StartAt(source, k));
    var h, back := OpeningPiece(out, raw, Lines(source)[k], st);
    assert "\n"[..0] == "";
    assert FeedAll(h, "\n", Layout) == Feed(ReadTo(source, end), '\n', Layout);
    NextMirrored(source, k, Feed(ReadTo(source, end), '\n', Layout), false);
  }

  /** Behind a tame line no block comment is open. */
  lemma TameLineOpensNothing(g: Sig, raw: string)
    requires g.q == Str && Tame(raw)
    ensures FeedAll(g, raw + "\n", Layout) == Feed(FeedAll(g, raw, Layout), '\n', Layout)
    ensures FeedAll(g, raw + "\n", Layout).q != Block
  {
    assert (raw + "\n")[..|raw|] == raw;
    FeedAllFrom(g, raw, Layout);
    if ClosingQuote(raw, 0) < |raw| {
      TailEndsPlain(raw);
    } else {
      LiteralPartEnds(raw);
    }
  }

  lemma ContinuingMirrored(source: string, k: nat, out: Sig, st: FormatState)
    requires Closed(source) && k < |LineStarts(source)|
    requires Mirrors(source, StartAt(source, k), out, st.inBlockComment)
    requires StartsInString(source, k) && Tame(RawAt(source, k))
    requires LiteralPart(RawAt(source, k)) <= FormatLine(Lines(source)[k], st).0
    ensures var (piece, st') := FormatLine(Lines(source)[k], st);
            Mirrors(source, StartAt(source, k + 1), FeedAll(out, piece, Layout), st'.inBlockComment)
  {
    LineFacts(source, k);
    var raw := RawAt(source, k);
    ContinuingPiece(out, raw, Lines(source)[k], st);
    TameLineOpensNothing(out, raw);
    NextMirrored(source, k, FeedAll(out, raw + "\n", Layout), false);
  }

  function OutputAt(source: string, k: nat): string
    requires k <= |LineStarts(source)|
  {
    AfterLines(FormatLine, Lines(source), k).output
  }

  lemma OneMoreLine(source: string, k: nat)
    requires k < |LineStarts(source)|
    ensures OutputAt(source, k + 1) == OutputAt(source, k) + PieceAt(source, k)
    ensures StateAt(source, k + 1) == FormatLine(Lines(source)[k], StateAt(source, k)).1
  {
  }

  ghost predicate MirroredAt(source: string, k: nat)
    requires k <= |LineStarts(source)|
  {
    Mirrors(source, StartAt(source, k), FeedAll(FRESH, OutputAt(source, k), Layout), StateAt(source, k).inBlockComment)
  }

  lemma MirroredFirst(source: string)
    ensures MirroredAt(source, 0)
  {
    StartsChain(source, 0, 0);
    assert source[..0] == "";
  }

  ghost predicate Leads(holds: nat -> bool, k: nat) {
    holds(k) ==> holds(k + 1)
  }

  lemma {:induction false} StepByStep(holds: nat -> bool, k: nat)
    requires holds(0) && forall j :: 0 <= j < k ==> Leads(holds, j)
    ensures holds(k)
  {
    if k > 0 {
      StepByStep(holds, k - 1);
      assert Leads(holds, k - 1);
    }
  }

  ghost function Mirrored(source: string): nat -> bool {
    (k: nat) => k <= |LineStarts(source)| && MirroredAt(source, k)
  }

  lemma MirroredLeads(source: string, k: nat)
    requires Closed(source) && k < |LineStarts(source)| && LiteralKept(source, k) && TameAt(source, k)
    ensures Leads(Mirrored(source), k)
  {
    if Mirrored(source)(k) {
      MirroredNext(source, k);
    }
  }

  lemma KeptLine(source: string, n: nat, k: nat)
    requires k < n <= |LineStarts(source)| && TameBefore(source, n) && KeptBefore(source, n)
    ensures LiteralKept(source, k) && TameAt(source, k)
  {
  }

  lemma MirroredThroughout(source: string, k: nat)
    requires Closed(source) && k <= |LineStarts(source)| && TameBefore(source, k) && KeptBefore(source, k)
    ensures Mirrored(source)(k)
  {
    MirroredFirst(source);
    forall j | 0 <= j < k
      ensures Leads(Mirrored(source), j)
    {
      KeptLine(source, k, j);
      MirroredLeads(source, j);
    }
    StepByStep(Mirrored(source), k);
  }

  /** As long as every part of a string is kept, the output reads like the source. */
  lemma MirroredUpTo(source: string, k: nat)
    requires Closed(source) && k <= |LineStarts(source)| && TameBefore(source, k) && KeptBefore(source, k)
    ensures MirroredAt(source, k)
  {
    MirroredThroughout(source, k);
  }

  lemma MirroredNext(source: string, k: nat)
    requires Closed(source) && k < |LineStarts(source)| && LiteralKept(source, k) && TameAt(source, k)
    requires MirroredAt(source, k)
    ensures MirroredAt(source, k + 1)
  {
    LineMirrored(source, k, FeedAll(FRESH, OutputAt(source, k), Layout));
    FeedConcat(FRESH, OutputAt(source, k), PieceAt(source, k), Layout);
    OneMoreLine(source, k);
  }

  lemma LineMirrored(source: string, k: nat, out: Sig)
    requires Closed(source) && k < |LineStarts(source)| && LiteralKept(source, k)
    requires TameAt(source, k)
    requires Mirrors(source, StartAt(source, k), out, StateAt(source, k).inBlockComment)
    ensures Mirrors(source, StartAt(source, k + 1), FeedAll(out, PieceAt(source, k), Layout),
                    FormatLine(Lines(source)[k], StateAt(source, k)).1.inBlockComment)
  {
    if StartsInString(source, k) {
      ContinuingMirrored(source, k, out, StateAt(source, k));
    } else if EndsInString(source, k) {
      OpeningMirrored(source, k, out, StateAt(source, k));
    } else {
      OutsideMirrored(source, k, out, StateAt(source, k));
    }
  }

  // --- a line that loses its part of a string ---

  /** What the lines from `k` on add to the output. */
  function RestOf(step: LineStep, lines: seq<string>, k: nat): string
    requires k <= |lines|
    decreases |lines| - k
  {
    if k == |lines| then "" else step(lines[k], AfterLines(step, lines, k).st).0 + RestOf(step, lines, k + 1)
  }

  function RestAt(source: string, k: nat): string
    requires k <= |LineStarts(source)|
  {
    RestOf(FormatLine, Lines(source), k)
  }

  lemma {:induction false} RestFollows(step: LineStep, lines: seq<string>, k: nat)
    requires k <= |lines|
    ensures AfterLines(step, lines, |lines|).output == AfterLines(step, lines, k).output + RestOf(step, lines, k)
    decreases |lines| - k
  {
    if k < |lines| {
      RestFollows(step, lines, k + 1);
      var before := AfterLines(step, lines, k);
      AssociateStrings(before.output, step(lines[k], before.st).0, RestOf(step, lines, k + 1));
    }
  }

  lemma RestStep(source: string, k: nat)
    requires k < |LineStarts(source)|
    ensures RestAt(source, k) == PieceAt(source, k) + RestAt(source, k + 1)
  {
  }

  lemma OutputAndRest(source: string, k: nat)
    requires k <= |LineStarts(source)|
    ensures Formatted(source) == OutputAt(source, k) + RestAt(source, k)
  {
    RestFollows(FormatLine, Lines(source), k);
  }

  lemma AssociateStrings(a: string, b: string, c: string)
    ensures (a + b) + c == a + (b + c)
  {
  }

  /** Where the readings of the rest of the source and the rest of the output differ, the two look different. */
  lemma RestShows(source: string, k: nat, g: Sig, start: nat)
    requires k < |LineStarts(source)| && start < |source| && g == ReadTo(source, start)
    requires FeedAll(FRESH, OutputAt(source, k), Layout) == g
    requires Settle(FeedAll(g, source[start..], Layout)).kept != Settle(FeedAll(g, RestAt(source, k), Layout)).kept
    ensures Visible(Formatted(source)) != Visible(source)
  {
    OutputAndRest(source, k);
    TwoParts(source, start);
    VisibleDiffers(source[..start], source[start..], OutputAt(source, k), RestAt(source, k));
  }

  lemma TwoParts(s: string, start: nat)
    requires start <= |s|
    ensures s == s[..start] + s[start..]
  {
  }

  lemma VisibleDiffers(a: string, b: string, c: string, d: string)
    requires var g := FeedAll(FRESH, a, Layout);
             g == FeedAll(FRESH, c, Layout)
             && Settle(FeedAll(g, b, Layout)).kept != Settle(FeedAll(g, d, Layout)).kept
    ensures Visible(c + d) != Visible(a + b)
  {
    VisibleOfTwo(a, b);
    VisibleOfTwo(c, d);
  }

  lemma VisibleOfTwo(a: string, b: string)
    ensures Visible(a + b) == Settle(FeedAll(FeedAll(FRESH, a, Layout), b, Layout)).kept
  {
    FeedConcat(FRESH, a, b, Layout);
    SettledIsVisible(a + b);
  }

  /** Spaces, then a character that is not whitespace. */
  ghost predicate IndentedText(s: string, n: nat) {
    n < |s| && !IsWhitespace(s[n]) && forall i :: 0 <= i < n ==> s[i] == ' '
  }

  lemma LineHasNoNewline(source: string, k: nat)
    requires k < |LineStarts(source)|
    ensures '\n' !in RawAt(source, k) && '\n' !in Trim(Lines(source)[k])
    ensures Trim(Lines(source)[k]) == Trim(RawAt(source, k))
  {
    LineBounds(source, k);
    TrimIgnoresCarriageReturn(RawAt(source, k));
    TrimKeepsNewlines(RawAt(source, k));
  }

  /** A line adds nothing, a newline, or its indented text with a newline. */
  lemma PieceShape(source: string, k: nat) returns (body: string, n: nat)
    requires k < |LineStarts(source)|
    ensures var st := StateAt(source, k);
            if Text(Lines(source)[k], st.inBlockComment) == ""
            then PieceAt(source, k) == if st.prevBlank then "" else "\n"
            else PieceAt(source, k) == body + "\n" && '\n' !in body && IndentedText(body, n * INDENT_SIZE)
  {
    var st := StateAt(source, k);
    var text := Text(Lines(source)[k], st.inBlockComment);
    body, n := "", 0;
    LineHasNoNewline(source, k);
    TextIsDense(Lines(source)[k], st.inBlockComment);
    if text != "" {
      n := IndentOf(text, st);
      body := Spaces(n * INDENT_SIZE) + text;
    }
  }

  ghost predicate Indented(s: string) {
    exists n: nat :: IndentedText(s, n)
  }

  /** Behind a blank line, a line adds nothing and is blank itself, or adds indented text. */
  ghost predicate DropsBlanks(step: LineStep, line: string, st: FormatState) {
    st.prevBlank ==> var (piece, st') := step(line, st); (piece == "" && st'.prevBlank) || Indented(piece)
  }

  lemma IndentedLine(text: string, n: nat)
    requires text != "" && !IsWhitespace(text[0])
    ensures IndentedText(Spaces(n) + text + "\n", n)
  {
  }

  lemma LineDropsBlanks(line: string, st: FormatState)
    requires '\n' !in Trim(line)
    ensures DropsBlanks(FormatLine, line, st)
  {
    var text := Text(line, st.inBlockComment);
    TextIsDense(line, st.inBlockComment);
    if text != "" {
      IndentedLine(text, IndentOf(text, st) * INDENT_SIZE);
    }
  }

  lemma IndentedGoesOn(a: string, b: string)
    requires Indented(a)
    ensures Indented(a + b)
  {
    var n: nat :| IndentedText(a, n);
    assert IndentedText(a + b, n);
  }

  /** Behind a blank line the output is empty or goes on with indented text. */
  lemma {:induction false} RestBehindBlank(step: LineStep, lines: seq<string>, k: nat)
    requires k <= |lines| && AfterLines(step, lines, k).st.prevBlank
    requires forall j, st {:trigger DropsBlanks(step, lines[j], st)} ::
      0 <= j < |lines| ==> DropsBlanks(step, lines[j], st)
    ensures RestOf(step, lines, k) == "" || Indented(RestOf(step, lines, k))
    decreases |lines| - k
  {
    if k < |lines| {
      var st := AfterLines(step, lines, k).st;
      assert DropsBlanks(step, lines[k], st);
      var piece := step(lines[k], st).0;
      if Indented(piece) {
        IndentedGoesOn(piece, RestOf(step, lines, k + 1));
      } else {
        RestBehindBlank(step, lines, k + 1);
        NothingInFront(piece, RestOf(step, lines, k + 1));
      }
    }
  }

  lemma NothingInFront(a: string, b: string)
    ensures a == "" ==> a + b == b
  {
  }

  lemma BlankIsNoIndentedText(raw: string, rest: string)
    requires Blank(raw) && (rest == "" || Indented(rest))
    ensures !(raw + "\n" <= rest)
  {
    if rest != "" {
      var n: nat :| IndentedText(rest, n);
      var j := if n < |raw| then n else |raw|;
      assert (raw + "\n")[j] == if n < |raw| then raw[n] else '\n';
      assert |rest| > |raw| ==> rest[j] != (raw + "\n")[j];
    }
  }

  lemma EmptyDenseIsBlank(s: string)
    requires Dense(s) == ""
    ensures Blank(s)
  {
    forall i | 0 <= i < |s| ensures IsWhitespace(s[i]) {
      if !IsWhitespace(s[i]) {
        DenseMember(s, s[i]);
      }
    }
  }

  lemma EmptyTextIsTrimmedAway(line: string, inBlockComment: bool)
    requires Text(line, inBlockComment) == "" && '\n' !in Trim(line)
    ensures Trim(line) == ""
  {
    TextIsDense(line, inBlockComment);
    TrimIsDense(line);
    EmptyDenseIsBlank(Trim(line));
  }

  lemma TrimmedAwayIsBlank(raw: string)
    requires Trim(raw) == ""
    ensures Blank(raw)
  {
    var front, back := TrimParts(raw);
    assert raw == front + back;
  }

  lemma BlankLiteralPart(raw: string)
    requires Blank(raw)
    ensures LiteralPart(raw) == raw + "\n"
  {
    QuoteIsThere(raw);
    ClosingQuoteAdvances(raw, 0);
  }

  lemma LongerThanPiece(raw: string, body: string, more: string)
    requires '\n' !in raw && LiteralPart(raw) <= (body + "\n") + more
    ensures LiteralPart(raw) <= body + "\n"
  {
    var part := LiteralPart(raw);
    ClosingQuoteAdvances(raw, 0);
    assert forall i :: 0 <= i < |part| - 1 ==> part[i] != '\n';
    assert ((body + "\n") + more)[|body|] == '\n';
  }

  /** A part of a string that its own line loses is not made up for by later lines. */
  lemma LostForGood(source: string, k: nat)
    requires k < |LineStarts(source)| && !(LiteralPart(RawAt(source, k)) <= PieceAt(source, k))
    ensures !(LiteralPart(RawAt(source, k)) <= RestAt(source, k))
  {
    if PieceAt(source, k) == "" {
      BlankLineLost(source, k);
    } else if LiteralPart(RawAt(source, k)) <= RestAt(source, k) {
      LineHasNoNewline(source, k);
      var body := PieceBody(source, k);
      LongerThanPiece(RawAt(source, k), body, RestAt(source, k + 1));
    }
  }

  lemma PieceBody(source: string, k: nat) returns (body: string)
    requires k < |LineStarts(source)| && PieceAt(source, k) != ""
    ensures PieceAt(source, k) == body + "\n"
  {
    var n;
    body, n := PieceShape(source, k);
    if Text(Lines(source)[k], StateAt(source, k).inBlockComment) == "" {
      body := "";
    }
  }

  lemma BlankLineLost(source: string, k: nat)
    requires k < |LineStarts(source)| && PieceAt(source, k) == ""
    ensures !(LiteralPart(RawAt(source, k)) <= RestAt(source, k))
  {
    var raw := RawAt(source, k);
    DroppedLine(source, k);
    RestStep(source, k);
    NothingInFront(PieceAt(source, k), RestAt(source, k + 1));
    BlankLiteralPart(raw);
    BlankIsNoIndentedText(raw, RestAt(source, k + 1));
  }

  /** Only blank lines behind blank lines are dropped. */
  lemma DroppedLine(source: string, k: nat)
    requires k < |LineStarts(source)| && PieceAt(source, k) == ""
    ensures Blank(RawAt(source, k))
    ensures RestAt(source, k + 1) == "" || Indented(RestAt(source, k + 1))
  {
    LineHasNoNewline(source, k);
    EmptyTextIsTrimmedAway(Lines(source)[k], StateAt(source, k).inBlockComment);
    TrimmedAwayIsBlank(RawAt(source, k));
    OneMoreLine(source, k);
    forall j, st | 0 <= j < |Lines(source)| ensures DropsBlanks(FormatLine, Lines(source)[j], st) {
      LineHasNoNewline(source, j);
      LineDropsBlanks(Lines(source)[j], st);
    }
    RestBehindBlank(FormatLine, Lines(source), k + 1);
  }

  // --- when formatting changes what is visible ---

  lemma RawFollows(source: string, k: nat)
    requires k < |LineStarts(source)|
    ensures var start, end, raw := StartAt(source, k), NewlineFrom(source, StartAt(source, k)), RawAt(source, k);
            && start < |source| && start <= end <= |source| && raw <= source[start..]
            && (end < |source| ==> |raw| < |source[start..]| && source[start..][|raw|] == '\n')
  {
    LineBounds(source, k);
  }

  lemma ContinuationReads(source: string, k: nat)
    requires Closed(source) && k < |LineStarts(source)| && MirroredAt(source, k) && StartsInString(source, k)
    ensures var start, end, raw := StartAt(source, k), NewlineFrom(source, StartAt(source, k)), RawAt(source, k);
            && start < |source| && end <= |source|
            && FeedAll(FRESH, OutputAt(source, k), Layout) == ReadTo(source, start)
            && ReadTo(source, start).q == Str && (ReadsString(LexFrom(Str, raw)) ==> end < |source|)
  {
    LineFacts(source, k);
  }

  /** Of a line that starts inside a string: where it starts, what is read there, and that the string goes on. */
  lemma ContinuationFacts(source: string, k: nat)
    requires Closed(source) && k < |LineStarts(source)| && MirroredAt(source, k) && StartsInString(source, k)
    ensures var start, raw := StartAt(source, k), RawAt(source, k);
            && start < |source| && FeedAll(FRESH, OutputAt(source, k), Layout) == ReadTo(source, start)
            && ReadTo(source, start).q == Str && raw <= source[start..]
            && (ReadsString(LexFrom(Str, raw)) ==> |raw| < |source[start..]| && source[start..][|raw|] == '\n')
  {
    ContinuationReads(source, k);
    RawFollows(source, k);
  }

  lemma LostContinuation(source: string, k: nat)
    requires Closed(source) && k < |LineStarts(source)| && MirroredAt(source, k)
    requires StartsInString(source, k) && !LiteralKept(source, k)
    ensures Visible(Formatted(source)) != Visible(source)
  {
    ContinuationFacts(source, k);
    var start, raw := StartAt(source, k), RawAt(source, k);
    LostForGood(source, k);
    ContinuationShows(ReadTo(source, start), raw, source[start..], RestAt(source, k));
    RestShows(source, k, ReadTo(source, start), start);
  }

  lemma ContinuationShows(g: Sig, raw: string, rest: string, other: string)
    requires g.q == Str && raw <= rest && !(LiteralPart(raw) <= other)
    requires ReadsString(LexFrom(Str, raw)) ==> |raw| < |rest| && rest[|raw|] == '\n'
    ensures Settle(FeedAll(g, rest, Layout)).kept != Settle(FeedAll(g, other, Layout)).kept
  {
    ClosingQuoteAdvances(raw, 0);
    LiteralPartEnds(raw);
    forall i | 0 <= i < |LiteralPart(raw)| ensures ReadsString(LexFrom(Str, LiteralPart(raw)[..i])) {
      LiteralPartStays(raw, i);
    }
    LostLiteralShows(g, LiteralPart(raw), rest, other);
  }

  /** Of a line that starts outside strings and ends inside one: where it is, and what is read there. */
  lemma OpeningFacts(source: string, k: nat)
    requires Closed(source) && k < |LineStarts(source)| && MirroredAt(source, k)
    requires !StartsInString(source, k) && EndsInString(source, k)
    ensures var start, end, raw := StartAt(source, k), NewlineFrom(source, StartAt(source, k)), RawAt(source, k);
            var g := ReadTo(source, start);
            && start < |source| && start <= end <= |source| && FeedAll(FRESH, OutputAt(source, k), Layout) == g
            && AtLineStart(g) && '\n' !in raw && QUOTE !in EmittedFrom(g.q, raw) && ReadsString(LexFrom(g.q, raw))
            && Trim(Lines(source)[k]) == Trim(raw) && (StateAt(source, k).inBlockComment <==> g.q == Block)
            && source[start..] == raw + source[end..]
  {
    LineFacts(source, k);
    LineBounds(source, k);
    ThreeParts(source, StartAt(source, k), NewlineFrom(source, StartAt(source, k)));
  }

  lemma ThreeParts(s: string, start: nat, end: nat)
    requires start <= end <= |s|
    ensures s[start..] == s[start..end] + s[end..]
  {
  }

  lemma LostOpening(source: string, k: nat)
    requires Closed(source) && k < |LineStarts(source)| && MirroredAt(source, k)
    requires !StartsInString(source, k) && !LiteralKept(source, k)
    ensures Visible(Formatted(source)) != Visible(source)
  {
    OpeningFacts(source, k);
    var start, end := StartAt(source, k), NewlineFrom(source, StartAt(source, k));
    var g := ReadTo(source, start);
    var h, back := OpeningPiece(g, RawAt(source, k), Lines(source)[k], StateAt(source, k));
    RestStep(source, k);
    OpeningShows(g, h, RawAt(source, k), back, source[end..], PieceAt(source, k), RestAt(source, k + 1));
    RestShows(source, k, g, start);
  }

  lemma OpeningShows(g: Sig, h: Sig, raw: string, back: string, behind: string, piece: string, more: string)
    requires ReadsString(h.q) && '\n' !in back && back != ""
    requires FeedAll(g, raw, Layout) == FeedAll(h, back, Layout)
    requires FeedAll(g, piece, Layout) == FeedAll(h, "\n", Layout)
    ensures Settle(FeedAll(g, raw + behind, Layout)).kept != Settle(FeedAll(g, piece + more, Layout)).kept
  {
    FeedConcat(g, raw, behind, Layout);
    FeedConcat(h, back, behind, Layout);
    FeedConcat(g, piece, more, Layout);
    FeedConcat(h, "\n", more, Layout);
    assert (back + behind)[0] == back[0];
    FirstCharacterShows(h, back + behind, "\n" + more);
  }

  /**
    * The first line that loses its part of a string shows in the formatted text, whatever comes behind it:
    * a line that starts inside a string and is re-indented or re-spaced there, or a line that ends inside one and
    * has whitespace at its end.
    */
  lemma LostLiteralIsVisible(source: string, k: nat)
    requires Closed(source) && k < |LineStarts(source)| && TameBefore(source, k) && KeptBefore(source, k)
    requires !LiteralKept(source, k)
    ensures Visible(Formatted(source)) != Visible(source)
  {
    MirroredUpTo(source, k);
    if StartsInString(source, k) {
      LostContinuation(source, k);
    } else {
      LostOpening(source, k);
    }
  }

  lemma OneMoreKept(source: string, n: nat)
    requires n < |LineStarts(source)| && KeptBefore(source, n) && LiteralKept(source, n)
    ensures KeptBefore(source, n + 1)
  {
  }

  lemma {:induction false} FirstLostLine(source: string, n: nat) returns (k: nat)
    requires n <= |LineStarts(source)| && !KeptBefore(source, n)
    ensures k < n && KeptBefore(source, k) && !LiteralKept(source, k)
  {
    if KeptBefore(source, n - 1) {
      k := n - 1;
      if LiteralKept(source, k) {
        OneMoreKept(source, k);
      }
    } else {
      k := FirstLostLine(source, n - 1);
    }
  }

  lemma TameFewer(source: string, k: nat, n: nat)
    requires k <= n <= |LineStarts(source)| && TameBefore(source, n)
    ensures TameBefore(source, k)
  {
  }

  /** Whatever the rest of the file: if the first line that starts inside a string loses its part, the text changes. */
  lemma FirstStringLineShows(source: string, k: nat)
    requires Closed(source) && k < |LineStarts(source)|
    requires forall j {:trigger StartsInString(source, j)} :: 0 <= j < k ==> !StartsInString(source, j)
    requires !LiteralKept(source, k)
    ensures Visible(Formatted(source)) != Visible(source)
  {
    var j := k;
    if !KeptBefore(source, k) {
      j := FirstLostLine(source, k);
    }
    LostLiteralIsVisible(source, j);
  }

  /** Exactly when every line keeps its part of a string does formatting change nothing but layout. */
  lemma FormattingKeepsVisibleExactly(source: string)
    requires Closed(source) && TameBefore(source, |LineStarts(source)|)
    ensures Visible(Formatted(source)) == Visible(source) <==> KeptBefore(source, |LineStarts(source)|)
  {
    var n := |LineStarts(source)|;
    if KeptBefore(source, n) {
      AllMirrored(source);
    } else {
      var k := FirstLostLine(source, n);
      TameFewer(source, k, n);
      LostLiteralIsVisible(source, k);
    }
  }

  lemma MirroredEnd(source: string, n: nat)
    requires n == |LineStarts(source)| && MirroredAt(source, n)
    ensures FeedAll(FRESH, OutputAt(source, n), Layout) == Calm(FeedAll(FRESH, source, Layout))
    ensures Formatted(source) == OutputAt(source, n)
  {
    assert source[..|source|] == source;
  }

  lemma AllMirrored(source: string)
    requires Closed(source)
    requires TameBefore(source, |LineStarts(source)|) && KeptBefore(source, |LineStarts(source)|)
    ensures Visible(Formatted(source)) == Visible(source)
  {
    MirroredUpTo(source, |LineStarts(source)|);
    MirroredEnd(source, |LineStarts(source)|);
    AllRead(source, Formatted(source));
  }

  lemma AllRead(source: string, output: string)
    requires Closed(source) && FeedAll(FRESH, output, Layout) == Calm(FeedAll(FRESH, source, Layout))
    ensures Visible(output) == Visible(source)
  {
    FeedAllFrom(FRESH, source, Layout);
    EndOfLineCalms(FeedAll(FRESH, source, Layout));
    CalmReadingsLookAlike(output, source);
  }

  /** Where strings close on their line, no line loses a part of one. */
  lemma FormattableIsKept(source: string)
    requires Formattable(source)
    ensures Closed(source) && TameBefore(source, |LineStarts(source)|) && KeptBefore(source, |LineStarts(source)|)
  {
    assert source[..|source|] == source;
    NoQuoteNoLiteral(Plain, source);
    forall k | 0 <= k < |LineStarts(source)| ensures TameAt(source, k) && LiteralKept(source, k) {
      NoStringAcross(source, k);
    }
  }

  lemma NoStringAcross(source: string, k: nat)
    requires StringsCloseOnTheirLine(source) && k < |LineStarts(source)|
    ensures !StartsInString(source, k) && !EndsInString(source, k)
  {
    LineBounds(source, k);
    if k == 0 {
      assert source[..0] == "";
    } else {
      StartIsBehindNewline(source, k);
      NewlineOutside(source, StartAt(source, k) - 1);
    }
  }

  lemma StartIsBehindNewline(source: string, k: nat)
    requires 0 < k < |LineStarts(source)|
    ensures 0 < StartAt(source, k) <= |source| && source[StartAt(source, k) - 1] == '\n'
  {
    LineBounds(source, k);
    LineBounds(source, k - 1);
  }

  lemma NewlineOutside(source: string, p: nat)
    requires StringsCloseOnTheirLine(source) && p < |source| && source[p] == '\n'
    ensures !ReadsString(LexState(source[..p + 1]))
  {
    ReadOne(Plain, source, p);
  }
}
