/** What the formatter does to string literals that span lines (src/fmt.rs). */
module FmtStrings {
  import opened SourceScan
  import opened FmtSpacing
  import opened FmtRegions
  import opened FmtFile
  import opened FmtFileRegions

  // --- lines and strings ---

  function StartAt(source: string, k: nat): nat
    requires k <= |LineStarts(source)|
  {
    StartOf(source, LineStarts(source), k)
  }

  lemma LineBounds(source: string, k: nat)
    requires k < |LineStarts(source)|
    ensures var start, end := StartAt(source, k), NewlineFrom(source, StartAt(source, k));
            && start < |source| && start <= end <= |source| && '\n' !in source[start..end]
            && (end < |source| ==> source[end] == '\n')
            && StartAt(source, k + 1) == (if end < |source| then end + 1 else end)
    ensures Lines(source)[k] == LineFrom(source, StartAt(source, k))
    ensures k == 0 ==> StartAt(source, k) == 0
  {
    StartsChain(source, 0, k);
    NewlineFromBounds(source, StartAt(source, k));
  }

  /** Line `k` without its newline; a carriage return is still there. */
  function RawAt(source: string, k: nat): string
    requires k < |LineStarts(source)|
  {
    LineBounds(source, k);
    source[StartAt(source, k)..NewlineFrom(source, StartAt(source, k))]
  }

  predicate ReadsString(q: Lex) {
    q == Str || q == StrEscape
  }

  predicate StartsInString(source: string, k: nat)
    requires k < |LineStarts(source)|
  {
    LineBounds(source, k);
    ReadsString(LexState(source[..StartAt(source, k)]))
  }

  predicate EndsInString(source: string, k: nat)
    requires k < |LineStarts(source)|
  {
    LineBounds(source, k);
    ReadsString(LexState(source[..NewlineFrom(source, StartAt(source, k))]))
  }

  /** Of a line that starts inside a string: up to the closing quote, or all of it with its newline. */
  function LiteralPart(raw: string): string {
    ClosingQuoteAdvances(raw, 0);
    var e := ClosingQuote(raw, 0);
    if e < |raw| then raw[..e + 1] else raw + "\n"
  }

  function StateAt(source: string, k: nat): FormatState
    requires k <= |LineStarts(source)|
  {
    AfterLines(FormatLine, Lines(source), k).st
  }

  /** What line `k` adds to the output. */
  function PieceAt(source: string, k: nat): string
    requires k < |LineStarts(source)|
  {
    FormatLine(Lines(source)[k], StateAt(source, k)).0
  }

  predicate NoTrailingSpace(raw: string) {
    raw == "" || !IsWhitespace(raw[|raw| - 1])
  }

  /**
    * The part of a string on line `k` survives: a line that starts inside a string comes out, indented and re-spaced,
    * with the string's part as it was; a line that only ends inside one has no trailing whitespace to lose.
    */
  predicate LiteralKept(source: string, k: nat)
    requires k < |LineStarts(source)|
  {
    if StartsInString(source, k) then LiteralPart(RawAt(source, k)) <= PieceAt(source, k)
    else EndsInString(source, k) ==> NoTrailingSpace(RawAt(source, k))
  }

  predicate HasOpener(s: string) {
    exists i :: 0 <= i < |s| - 1 && s[i] == '/' && s[i + 1] == '*'
  }

  predicate PlainTail(s: string) {
    '"' !in s && '/' !in s && '\'' !in s
  }

  /**
    * A line that starts inside a string holds no block comment opener, and neither a quote nor a slash behind the
    * string.
    */
  predicate Tame(raw: string) {
    ClosingQuoteAdvances(raw, 0);
    !HasOpener(raw) && (ClosingQuote(raw, 0) < |raw| ==> PlainTail(raw[ClosingQuote(raw, 0) + 1..]))
  }

  predicate TameAt(source: string, k: nat)
    requires k < |LineStarts(source)|
  {
    StartsInString(source, k) ==> Tame(RawAt(source, k))
  }

  /** The first `k` lines are tame where they start inside a string. */
  predicate TameBefore(source: string, k: nat)
    requires k <= |LineStarts(source)|
  {
    forall j {:trigger TameAt(source, j)} :: 0 <= j < k ==> TameAt(source, j)
  }

  /** The first `k` lines keep their parts of strings. */
  predicate KeptBefore(source: string, k: nat)
    requires k <= |LineStarts(source)|
  {
    forall j {:trigger LiteralKept(source, j)} :: 0 <= j < k ==> LiteralKept(source, j)
  }

  /** The text could be a program: no quote outside strings and comments, and no string left open. */
  ghost predicate Closed(source: string) {
    QuoteFree(source) && !InLiteral(LexState(source))
  }

  // --- inside a string ---

  /** Up to the closing quote the automaton stays in the string. */
  lemma {:induction false} StaysInString(q: Lex, line: string, i: nat, j: nat)
    requires i <= j <= |line| && j <= ClosingQuote(line, i) && LexFrom(q, line[..i]) == Str
    ensures ReadsString(LexFrom(q, line[..j]))
    decreases |line| - i
  {
    if i < j {
      ReadOne(q, line, i);
      if line[i] == '\\' {
        if i + 1 < j {
          ReadOne(q, line, i + 1);
          StaysInString(q, line, i + 2, j);
        }
      } else {
        StaysInString(q, line, i + 1, j);
      }
    }
  }

  /** The literal part of a line that starts inside a string: inside it up to its last character. */
  lemma LiteralPartStays(raw: string, i: nat)
    requires i < |LiteralPart(raw)|
    ensures ReadsString(LexFrom(Str, LiteralPart(raw)[..i]))
  {
    var part := LiteralPart(raw);
    ClosingQuoteAdvances(raw, 0);
    assert raw[..0] == "";
    assert part[..i] == raw[..i];
    StaysInString(Str, raw, 0, i);
  }

  /** A closed literal part ends in code, an open one inside the string. */
  lemma LiteralPartEnds(raw: string)
    ensures LexFrom(Str, LiteralPart(raw)) == if ClosingQuote(raw, 0) < |raw| then Plain else Str
    ensures ClosingQuote(raw, 0) >= |raw| ==> ReadsString(LexFrom(Str, raw))
  {
    ClosingQuoteAdvances(raw, 0);
    var e := ClosingQuote(raw, 0);
    assert raw[..0] == "";
    StringRuns(Str, raw, 0);
    if e < |raw| {
      ReadOne(Str, raw, e);
    } else {
      assert (raw + "\n")[..|raw|] == raw;
      assert LexFrom(Str, raw + "\n") == Next(LexFrom(Str, raw), '\n');
    }
  }

  /** From inside a string, texts with different first characters look different. */
  lemma FirstCharacterShows(h: Sig, x: string, y: string)
    requires ReadsString(h.q) && x != "" && (y != "" ==> x[0] != y[0])
    ensures Settle(FeedAll(h, x, Layout)).kept != Settle(FeedAll(h, y, Layout)).kept
  {
    ShowsFirst(h, x);
    if y != "" {
      ShowsFirst(h, y);
    }
  }

  lemma ShowsFirst(h: Sig, x: string)
    requires ReadsString(h.q) && x != ""
    ensures var kept := Settle(FeedAll(h, x, Layout)).kept;
            |kept| > |h.kept| && kept[|h.kept|].0 == x[0]
  {
    assert x == [x[0]] + x[1..];
    FeedConcat(h, [x[0]], x[1..], Layout);
    assert [x[0]][..0] == "";
    var e := Emit(h.q, x[0]);
    assert e[..0] == [] && Kept(e, Layout) == e;
    FeedAllFrom(Feed(h, x[0], Layout), x[1..], Layout);
  }

  /** A text that does not go on like a literal part looks different from one that does. */
  lemma LostLiteralShows(h: Sig, part: string, x: string, y: string)
    requires h.q == Str && part <= x && !(part <= y)
    requires forall i :: 0 <= i < |part| ==> ReadsString(LexFrom(Str, part[..i]))
    ensures Settle(FeedAll(h, x, Layout)).kept != Settle(FeedAll(h, y, Layout)).kept
  {
    var i := FirstDifference(part, y);
    var shared := part[..i];
    assert x == shared + x[i..] && y == shared + y[i..];
    FeedConcat(h, shared, x[i..], Layout);
    FeedConcat(h, shared, y[i..], Layout);
    FeedAllFrom(h, shared, Layout);
    FirstCharacterShows(FeedAll(h, shared, Layout), x[i..], y[i..]);
  }

  lemma {:induction false} FirstDifference(part: string, y: string) returns (i: nat)
    requires !(part <= y)
    ensures i < |part| && i <= |y| && part[..i] == y[..i] && (i < |y| ==> part[i] != y[i])
  {
    if y == "" || part[0] != y[0] {
      i := 0;
    } else {
      assert part == [part[0]] + part[1..] && y == [y[0]] + y[1..];
      var rest := FirstDifference(part[1..], y[1..]);
      i := rest + 1;
      assert part[..i] == [part[0]] + part[1..][..rest] && y[..i] == [y[0]] + y[1..][..rest];
    }
  }

  // --- the characters a line is made of ---

  /** The characters of a text that are not whitespace. */
  function Dense(s: string): string {
    if s == "" then ""
    else Dense(s[..|s| - 1]) + if IsWhitespace(s[|s| - 1]) then "" else [s[|s| - 1]]
  }

  function DenseTags(t: Tagged): string {
    if t == [] then ""
    else DenseTags(t[..|t| - 1]) + if IsWhitespace(t[|t| - 1].0) then "" else [t[|t| - 1].0]
  }

  lemma {:induction false} DenseConcat(a: string, b: string)
    ensures Dense(a + b) == Dense(a) + Dense(b)
  {
    if b == "" {
      assert a + b == a;
    } else {
      assert (a + b)[..|a + b| - 1] == a + b[..|b| - 1];
      DenseConcat(a, b[..|b| - 1]);
    }
  }

  lemma {:induction false} DenseTagsConcat(a: Tagged, b: Tagged)
    ensures DenseTags(a + b) == DenseTags(a) + DenseTags(b)
  {
    if b == [] {
      assert a + b == a;
    } else {
      assert (a + b)[..|a + b| - 1] == a + b[..|b| - 1];
      DenseTagsConcat(a, b[..|b| - 1]);
    }
  }

  lemma {:induction false} DenseOfTags(t: Tagged, s: string)
    requires |t| == |s| && forall k :: 0 <= k < |s| ==> t[k].0 == s[k]
    ensures DenseTags(t) == Dense(s)
  {
    if s != "" {
      DenseOfTags(t[..|t| - 1], s[..|s| - 1]);
    }
  }

  lemma {:induction false} DenseIgnoresSpaces(t: Tagged)
    ensures DenseTags(Kept(t, CodeSpace)) == DenseTags(t)
  {
    if t != [] {
      var k := |t| - 1;
      DenseIgnoresSpaces(t[..k]);
      DenseTagsConcat(Kept(t[..k], CodeSpace), [t[k]]);
      assert [t[k]][..0] == [] && DenseTags([]) == "";
      assert Kept(t[..k], CodeSpace) + [] == Kept(t[..k], CodeSpace);
    }
  }

  lemma {:induction false} DenseOfBlank(s: string)
    requires Blank(s)
    ensures Dense(s) == ""
  {
    if s != "" {
      DenseOfBlank(s[..|s| - 1]);
    }
  }

  lemma {:induction false} DenseMember(s: string, c: char)
    requires !IsWhitespace(c)
    ensures c in Dense(s) <==> c in s
  {
    if s != "" {
      DenseMember(s[..|s| - 1], c);
      assert s == s[..|s| - 1] + [s[|s| - 1]];
    }
  }

  lemma TrimIsDense(line: string)
    ensures Dense(Trim(line)) == Dense(line) && Trimmed(Trim(line))
  {
    var front, back := TrimParts(line);
    DenseConcat(front + Trim(line), back);
    DenseConcat(front, Trim(line));
    DenseOfBlank(front);
    DenseOfBlank(back);
    assert "" + Dense(Trim(line)) + "" == Dense(Trim(line));
  }

  lemma NormalizedIsTrimmed(core: string)
    requires Trimmed(core)
    ensures Trimmed(Normalized(core))
  {
    if Mentions(core, NEEDS_NORMALIZING) {
      ScannedLength(core);
      var a, b := TrimParts(Collapsed(RewriteFrom(core, Scanned(core), 0, [])));
    }
  }

  /** Trimming and normalising a line drop and add nothing but whitespace. */
  lemma TextIsDense(line: string, inBlockComment: bool)
    requires '\n' !in Trim(line)
    ensures Dense(Text(line, inBlockComment)) == Dense(line)
    ensures Trimmed(Text(line, inBlockComment)) && '\n' !in Text(line, inBlockComment)
  {
    TrimIsDense(line);
    if !inBlockComment {
      NormalizedIsDense(Trim(line));
      NormalizedHasNoNewline(Trim(line));
      NormalizedIsTrimmed(Trim(line));
    }
  }

  lemma NormalizedIsDense(core: string)
    requires Trimmed(core) && '\n' !in core
    ensures Dense(Normalized(core)) == Dense(core)
  {
    var text := Normalized(core);
    NormalizationKeepsSubstance(core);
    ScannedChars(core);
    ScannedChars(text);
    DenseOfTags(Scanned(core), core);
    DenseOfTags(Scanned(text), text);
    DenseIgnoresSpaces(Scanned(core));
    DenseIgnoresSpaces(Scanned(text));
  }

  // --- plain code ---

  /** What plain code shows: its characters but whitespace, all of them code. */
  function Shown(s: string): Tagged {
    seq(|Dense(s)|, i requires 0 <= i < |Dense(s)| => (Dense(s)[i], Code))
  }

  lemma PlainFeed(h: Sig, c: char)
    requires h.q == Plain && c != '"' && c != '/' && c != '\''
    ensures Feed(h, c, Layout) == Sig(Plain, h.kept + if IsWhitespace(c) then [] else [(c, Code)])
  {
    assert Emit(Plain, c)[..0] == [];
    assert Kept(Emit(Plain, c), Layout) == if IsWhitespace(c) then [] else [(c, Code)];
  }

  lemma ShownOneMore(s: string)
    requires s != ""
    ensures var k := |s| - 1; Shown(s) == Shown(s[..k]) + if IsWhitespace(s[k]) then [] else [(s[k], Code)]
  {
  }

  lemma {:induction false} PlainCodeReads(h: Sig, s: string)
    requires h.q == Plain && PlainTail(s)
    ensures FeedAll(h, s, Layout) == Sig(Plain, h.kept + Shown(s))
  {
    if s == "" {
      assert h.kept + [] == h.kept;
    } else {
      var k := |s| - 1;
      PlainCodeReads(h, s[..k]);
      PlainFeed(FeedAll(h, s[..k], Layout), s[k]);
      ShownOneMore(s);
      Associate(h.kept, Shown(s[..k]), if IsWhitespace(s[k]) then [] else [(s[k], Code)]);
    }
  }

  lemma SameDenseSamePlainCode(h: Sig, a: string, b: string)
    requires h.q == Plain && PlainTail(b) && Dense(a) == Dense(b)
    ensures FeedAll(h, a, Layout) == FeedAll(h, b, Layout) && FeedAll(h, a, Layout).q == Plain
  {
    SameDenseSameTail(a, b);
    PlainCodeReads(h, a);
    PlainCodeReads(h, b);
  }

  /** Without an opener in sight the tracker does not open a comment. */
  lemma {:induction false} NoOpenerNoComment(text: string, i: nat)
    requires !HasOpener(text)
    ensures !CarriesFrom(text, i, false)
    decreases |text| - i
  {
    if i < |text| {
      if text[i] == '"' {
        ClosingQuoteAdvances(text, i + 1);
        NoOpenerNoComment(text, ClosingQuote(text, i + 1) + 1);
      } else if !(text[i] == '/' && i + 1 < |text| && text[i + 1] == '/') {
        NoOpenerNoComment(text, i + 1);
      }
    }
  }

  // --- one line ---

  lemma NormalizedOpening(g: Sig, core: string)
    requires g.q == Plain && Trimmed(core) && '\n' !in core
    requires QUOTE !in EmittedFrom(Plain, core) && ReadsString(LexFrom(Plain, core))
    ensures FeedAll(g, Normalized(core), Layout) == FeedAll(g, core, Layout)
    ensures QUOTE !in EmittedFrom(Plain, Normalized(core)) && '\n' !in Normalized(core)
  {
    NormalizationKeepsVisible(core, g);
    NormalizationKeepsQuotes(core);
    NormalizedHasNoNewline(core);
    FeedAllFrom(g, core, Layout);
    FeedAllFrom(g, Normalized(core), Layout);
  }

  lemma TrimmedReading(g: Sig, front: string, core: string, back: string)
    requires AtLineStart(g) && Blank(front)
    ensures FeedAll(g, front + core + back, Layout) == FeedAll(FeedAll(g, core, Layout), back, Layout)
  {
    BlankCalms(g, front);
    FeedConcat(g, front + core, back, Layout);
    FeedConcat(g, front, core, Layout);
  }

  /** Whitespace does not open a string. */
  lemma CoreEndsReadsString(g: Sig, core: string, back: string)
    requires Blank(back) && ReadsString(FeedAll(FeedAll(g, core, Layout), back, Layout).q)
    requires FeedAll(g, core, Layout).q != Chr && FeedAll(g, core, Layout).q != ChrEscape
    ensures ReadsString(FeedAll(g, core, Layout).q)
  {
    var h := FeedAll(g, core, Layout);
    if !InLiteral(h.q) {
      BlankCalms(h, back);
    }
  }

  lemma CoreEmits(g: Sig, front: string, core: string, back: string)
    requires AtLineStart(g) && Blank(front) && QUOTE !in EmittedFrom(g.q, front + core + back)
    ensures QUOTE !in EmittedFrom(g.q, core) && LexFrom(g.q, core) != Chr && LexFrom(g.q, core) != ChrEscape
  {
    BlankCalms(g, front);
    FeedAllFrom(g, front, Layout);
    EmittedConcat(g.q, front + core, back);
    EmittedConcat(g.q, front, core);
    NoQuoteNoLiteral(g.q, core);
  }

  lemma TrailingPart(raw: string, front: string, core: string, back: string)
    requires raw == front + core + back && Blank(back) && core != "" && !IsWhitespace(core[|core| - 1])
    ensures back == "" <==> NoTrailingSpace(raw)
    ensures '\n' !in raw ==> '\n' !in core && '\n' !in back
  {
    assert forall c :: c in core || c in back ==> c in raw;
    assert back != "" ==> raw[|raw| - 1] == back[|back| - 1];
    assert back == "" ==> raw[|raw| - 1] == core[|core| - 1];
  }

  lemma CoreOfOpening(g: Sig, raw: string) returns (back: string)
    requires AtLineStart(g) && '\n' !in raw && QUOTE !in EmittedFrom(g.q, raw) && ReadsString(LexFrom(g.q, raw))
    ensures Trimmed(Trim(raw)) && ReadsString(LexFrom(g.q, Trim(raw))) && QUOTE !in EmittedFrom(g.q, Trim(raw))
    ensures '\n' !in Trim(raw) && '\n' !in back && (back == "" <==> NoTrailingSpace(raw))
    ensures FeedAll(g, raw, Layout) == FeedAll(FeedAll(g, Trim(raw), Layout), back, Layout)
  {
    var core := Trim(raw);
    var front;
    front, back := TrimParts(raw);
    TrimmedReading(g, front, core, back);
    FeedAllFrom(g, raw, Layout);
    FeedAllFrom(g, core, Layout);
    CoreEmits(g, front, core, back);
    CoreEndsReadsString(g, core, back);
    TrailingPart(raw, front, core, back);
  }

  /** The piece of a line with text is its indentation, the text and a newline. */
  lemma PieceOfText(text: string, st: FormatState, flag: bool) returns (indent: string)
    requires text != ""
    ensures PlaceText(text, st, flag).0 == indent + text + "\n" && PlaceText(text, st, flag).1.inBlockComment == flag
    ensures Blank(indent) && forall i :: 0 <= i < |indent| ==> indent[i] == ' '
  {
    indent := Spaces(IndentOf(text, st) * INDENT_SIZE);
  }

  lemma PieceReads(g: Sig, text: string, st: FormatState, flag: bool)
    requires AtLineStart(g) && text != ""
    ensures FeedAll(g, PlaceText(text, st, flag).0, Layout) == FeedAll(FeedAll(g, text, Layout), "\n", Layout)
    ensures PlaceText(text, st, flag).0 != "" && PlaceText(text, st, flag).1.inBlockComment == flag
  {
    var indent := PieceOfText(text, st, flag);
    BlankCalms(g, indent);
    FeedConcat(g, indent + text, "\n", Layout);
    FeedConcat(g, indent, text, Layout);
  }

  /** What such a line adds reads like the line without the whitespace at its end. */
  lemma OpeningPiece(g: Sig, raw: string, line: string, st: FormatState) returns (h: Sig, back: string)
    requires AtLineStart(g) && '\n' !in raw && QUOTE !in EmittedFrom(g.q, raw) && ReadsString(LexFrom(g.q, raw))
    requires Trim(line) == Trim(raw) && (st.inBlockComment <==> g.q == Block)
    ensures ReadsString(h.q) && '\n' !in back && (back == "" <==> NoTrailingSpace(raw))
    ensures FeedAll(g, raw, Layout) == FeedAll(h, back, Layout)
    ensures var (piece, st') := FormatLine(line, st);
            FeedAll(g, piece, Layout) == FeedAll(h, "\n", Layout) && !st'.inBlockComment && piece != ""
  {
    back := CoreOfOpening(g, raw);
    var text := Text(line, st.inBlockComment);
    assert text == if g.q == Block then Trim(raw) else Normalized(Trim(raw));
    if g.q == Plain {
      NormalizedOpening(g, Trim(raw));
    }
    h := FeedAll(g, text, Layout);
    FeedAllFrom(g, text, Layout);
    FeedAllFrom(g, Trim(raw), Layout);
    TrackerFromLineStart(g.q, text);
    PieceReads(g, text, st, CarriesFrom(text, 0, st.inBlockComment));
  }

  /** A line that starts inside a string and keeps its part of it reads like the raw line with its newline. */
  lemma ContinuingPiece(g: Sig, raw: string, line: string, st: FormatState)
    requires g.q == Str && '\n' !in raw && Tame(raw) && Trim(line) == Trim(raw) && !st.inBlockComment
    requires LiteralPart(raw) <= FormatLine(line, st).0
    ensures var (piece, st') := FormatLine(line, st);
            FeedAll(g, piece, Layout) == FeedAll(g, raw + "\n", Layout) && !st'.inBlockComment
  {
    var text := Text(line, false);
    TrimIsDense(line);
    TrimIsDense(raw);
    TrimKeepsNewlines(raw);
    TextIsDense(line, false);
    NoOpenerInText(raw, text, st, CarriesFrom(text, 0, false));
    NoOpenerNoComment(text, 0);
    KeptPieceReads(g, raw, text, st, CarriesFrom(text, 0, false));
  }

  lemma KeptText(raw: string, text: string, st: FormatState, flag: bool) returns (indent: string)
    requires '\n' !in raw && LiteralPart(raw) <= PlaceText(text, st, flag).0
    ensures if text == "" then raw == "" && PlaceText(text, st, flag).0 == "\n"
            else PlaceText(text, st, flag).0 == indent + text + "\n" && Blank(indent) && '\n' !in indent
    ensures text != "" && ClosingQuote(raw, 0) >= |raw| ==> raw + "\n" <= indent + text + "\n"
    ensures ClosingQuote(raw, 0) < |raw| ==> text != "" && raw[..ClosingQuote(raw, 0) + 1] <= indent + text + "\n"
    ensures PlaceText(text, st, flag).1.inBlockComment == flag
  {
    ClosingQuoteAdvances(raw, 0);
    if text == "" {
      var part := LiteralPart(raw);
      assert part == "\n" == PlaceText(text, st, flag).0;
      indent := "";
      QuoteIsThere(raw);
    } else {
      indent := PieceOfText(text, st, flag);
    }
  }

  lemma QuoteIsThere(raw: string)
    ensures ClosingQuote(raw, 0) < |raw| ==> raw[ClosingQuote(raw, 0)] == '"'
  {
    assert raw[..0] == "";
    StringRuns(Str, raw, 0);
  }

  lemma NoOpenerInText(raw: string, text: string, st: FormatState, flag: bool)
    requires '\n' !in raw && '\n' !in text && Tame(raw) && Dense(text) == Dense(raw)
    requires LiteralPart(raw) <= PlaceText(text, st, flag).0
    ensures !HasOpener(text)
  {
    var indent := KeptText(raw, text, st, flag);
    QuoteIsThere(raw);
    ClosingQuoteAdvances(raw, 0);
    var e := ClosingQuote(raw, 0);
    if text != "" {
      if e >= |raw| {
        WholeLineKept(raw, indent, text);
        NoOpenerInside(raw, text, |indent|);
      } else {
        NoOpenerBehind(raw, indent, text, e);
      }
    }
  }

  lemma NoOpenerBehind(raw: string, indent: string, text: string, e: nat)
    requires e < |raw| && raw[e] == '"' && !HasOpener(raw) && PlainTail(raw[e + 1..])
    requires Blank(indent) && Dense(text) == Dense(raw) && raw[..e + 1] <= indent + text + "\n"
    ensures !HasOpener(text)
  {
    var behind := TailKept(raw, indent, text, e);
    NoOpenerAcross(raw, behind, e);
    assert (indent + text + "\n")[|indent|..|indent| + |text|] == text;
    NoOpenerInside(indent + text + "\n", text, |indent|);
  }

  lemma KeptPieceReads(g: Sig, raw: string, text: string, st: FormatState, flag: bool)
    requires g.q == Str && '\n' !in raw && '\n' !in text && Tame(raw) && Dense(text) == Dense(raw)
    requires LiteralPart(raw) <= PlaceText(text, st, flag).0
    ensures FeedAll(g, PlaceText(text, st, flag).0, Layout) == FeedAll(g, raw + "\n", Layout)
    ensures PlaceText(text, st, flag).1.inBlockComment == flag
  {
    var indent := KeptText(raw, text, st, flag);
    QuoteIsThere(raw);
    ClosingQuoteAdvances(raw, 0);
    var e := ClosingQuote(raw, 0);
    if text != "" {
      if e >= |raw| {
        WholeLineKept(raw, indent, text);
      } else {
        var behind := TailKept(raw, indent, text, e);
        TailReads(g, raw, PlaceText(text, st, flag).0, behind, e);
      }
    }
  }

  lemma NoOpenerInside(whole: string, text: string, at: nat)
    requires !HasOpener(whole) && at + |text| <= |whole| && whole[at..at + |text|] == text
    ensures !HasOpener(text)
  {
    forall i | 0 <= i < |text| - 1 ensures !(text[i] == '/' && text[i + 1] == '*') {
      assert whole[at + i] == text[i] && whole[at + i + 1] == text[i + 1];
    }
  }

  lemma NoOpenerAcross(raw: string, behind: string, e: nat)
    requires e < |raw| && raw[e] == '"' && !HasOpener(raw) && PlainTail(behind)
    ensures !HasOpener(raw[..e + 1] + behind)
  {
    var whole := raw[..e + 1] + behind;
    forall i | 0 <= i < |whole| - 1 ensures !(whole[i] == '/' && whole[i + 1] == '*') {
      if i < e {
        assert whole[i] == raw[i] && whole[i + 1] == raw[i + 1];
      } else if i > e {
        assert whole[i] == behind[i - e - 1];
      }
    }
  }

  lemma TrimKeepsNewlines(raw: string)
    ensures '\n' !in raw ==> '\n' !in Trim(raw)
  {
    var front, back := TrimParts(raw);
    assert forall c :: c in Trim(raw) ==> c in raw;
  }

  lemma WholeLineKept(raw: string, indent: string, text: string)
    requires '\n' !in text && '\n' !in indent && raw + "\n" <= indent + text + "\n"
    ensures indent + text == raw && raw[|indent|..|indent| + |text|] == text
  {
    var body := indent + text;
    assert (body + "\n")[|raw|] == '\n';
    assert forall i :: 0 <= i < |body| ==> body[i] != '\n';
    assert (body + "\n")[..|raw|] == body;
  }

  /** Behind the kept part of a string comes the same plain code, up to whitespace. */
  lemma TailKept(raw: string, indent: string, text: string, e: nat) returns (behind: string)
    requires e < |raw| && PlainTail(raw[e + 1..]) && Blank(indent) && Dense(text) == Dense(raw)
    requires raw[..e + 1] <= indent + text + "\n"
    ensures indent + text + "\n" == raw[..e + 1] + behind
    ensures Dense(behind) == Dense(raw[e + 1..]) && PlainTail(behind)
  {
    var piece, part, tail := indent + text + "\n", raw[..e + 1], raw[e + 1..];
    behind := piece[e + 1..];
    assert piece == part + behind && raw == part + tail;
    DenseOfPiece(indent, text);
    DenseConcat(part, behind);
    DenseConcat(part, tail);
    assert (Dense(part) + Dense(behind))[|Dense(part)|..] == Dense(behind);
    assert (Dense(part) + Dense(tail))[|Dense(part)|..] == Dense(tail);
    SameDenseSameTail(behind, tail);
  }

  lemma DenseOfPiece(indent: string, text: string)
    requires Blank(indent)
    ensures Dense(indent + text + "\n") == Dense(text)
  {
    DenseConcat(indent + text, "\n");
    DenseConcat(indent, text);
    DenseOfBlank(indent);
    DenseOfBlank("\n");
    assert "" + Dense(text) + "" == Dense(text);
  }

  lemma SameDenseSameTail(a: string, b: string)
    requires Dense(a) == Dense(b) && PlainTail(b)
    ensures PlainTail(a)
  {
    DenseMember(a, '"');
    DenseMember(a, '/');
    DenseMember(a, '\'');
    DenseMember(b, '"');
    DenseMember(b, '/');
    DenseMember(b, '\'');
  }

  lemma TailReads(g: Sig, raw: string, piece: string, behind: string, e: nat)
    requires g.q == Str && e == ClosingQuote(raw, 0) < |raw| && PlainTail(raw[e + 1..])
    requires piece == raw[..e + 1] + behind && Dense(behind) == Dense(raw[e + 1..])
    ensures FeedAll(g, piece, Layout) == FeedAll(g, raw + "\n", Layout)
  {
    TailStrings(raw, e);
    PartEndsPlain(g, raw, e);
    SwapPlainTail(g, raw[..e + 1], behind, raw[e + 1..] + "\n");
  }

  lemma TailStrings(raw: string, e: nat)
    requires e < |raw| && PlainTail(raw[e + 1..])
    ensures raw + "\n" == raw[..e + 1] + (raw[e + 1..] + "\n")
    ensures PlainTail(raw[e + 1..] + "\n") && Dense(raw[e + 1..] + "\n") == Dense(raw[e + 1..])
  {
    SplitWithNewline(raw, e + 1);
    NewlineIsPlain(raw[e + 1..]);
    DenseWithNewline(raw[e + 1..]);
  }

  lemma SplitWithNewline(raw: string, k: nat)
    requires k <= |raw|
    ensures raw + "\n" == raw[..k] + (raw[k..] + "\n")
  {
  }

  lemma DenseWithNewline(tail: string)
    ensures Dense(tail + "\n") == Dense(tail)
  {
    DenseConcat(tail, "\n");
    DenseOfBlank("\n");
  }

  lemma NewlineIsPlain(tail: string)
    requires PlainTail(tail)
    ensures PlainTail(tail + "\n")
  {
    var whole := tail + "\n";
    assert forall i :: 0 <= i < |whole| ==> whole[i] == if i < |tail| then tail[i] else '\n';
    assert forall i :: 0 <= i < |tail| ==> tail[i] != '"' && tail[i] != '/' && tail[i] != '\'';
  }

  lemma PartEndsPlain(g: Sig, raw: string, e: nat)
    requires g.q == Str && e == ClosingQuote(raw, 0) < |raw|
    ensures FeedAll(g, raw[..e + 1], Layout).q == Plain
  {
    LiteralPartEnds(raw);
    FeedAllFrom(g, raw[..e + 1], Layout);
  }

  lemma SwapPlainTail(g: Sig, part: string, a: string, b: string)
    requires FeedAll(g, part, Layout).q == Plain && PlainTail(b) && Dense(a) == Dense(b)
    ensures FeedAll(g, part + a, Layout) == FeedAll(g, part + b, Layout)
  {
    SameDenseSamePlainCode(FeedAll(g, part, Layout), a, b);
    FeedConcat(g, part, a, Layout);
    FeedConcat(g, part, b, Layout);
  }

  lemma PlainTailEnds(tail: string)
    requires PlainTail(tail)
    ensures LexFrom(Plain, tail) == Plain
  {
    PlainCodeReads(FRESH, tail);
    FeedAllFrom(FRESH, tail, Layout);
  }

  lemma SplitAt(s: string, k: nat)
    requires k <= |s|
    ensures s == s[..k] + s[k..]
  {
  }

  lemma TailEndsPlain(raw: string)
    requires Tame(raw) && ClosingQuote(raw, 0) < |raw|
    ensures LexFrom(Str, raw) == Plain
  {
    ClosingQuoteAdvances(raw, 0);
    var e := ClosingQuote(raw, 0);
    LiteralPartEnds(raw);
    SplitAt(raw, e + 1);
    EmittedConcat(Str, raw[..e + 1], raw[e + 1..]);
    PlainTailEnds(raw[e + 1..]);
  }
}
