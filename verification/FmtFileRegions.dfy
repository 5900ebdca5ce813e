/** Formatting a file keeps everything but layout, and its comment flag is the scanner's (src/fmt.rs). */
module FmtFileRegions {
  import opened SourceScan
  import opened FmtSpacing
  import opened FmtRegions
  import opened FmtFile

  // --- the comment tracker against the automaton ---

  predicate InComment(q: Lex) {
    q == Block || q == Star
  }

  predicate InLiteral(q: Lex) {
    q == Str || q == StrEscape || q == Chr || q == ChrEscape
  }

  /** No character literal is entered while reading `s`. */
  ghost predicate NeverChr(q: Lex, s: string) {
    LexFrom(q, s) != Chr && LexFrom(q, s) != ChrEscape && (s == "" || NeverChr(q, s[..|s| - 1]))
  }

  lemma {:induction false} NeverChrAt(q: Lex, s: string, j: nat)
    requires j <= |s| && NeverChr(q, s)
    ensures LexFrom(q, s[..j]) != Chr && LexFrom(q, s[..j]) != ChrEscape
    decreases |s|
  {
    if j < |s| {
      NeverChrAt(q, s[..|s| - 1], j);
      assert s[..|s| - 1][..j] == s[..j];
    } else {
      assert s[..j] == s;
    }
  }

  /** The tracker's flag at position `i` describes the automaton's state there. */
  ghost predicate InStep(q: Lex, line: string, i: nat, open: bool) {
    if open then q == Block || (q == Star && (i < |line| ==> line[i] != '/'))
    else q == Plain || (q == Slash && (i < |line| ==> line[i] != '/' && line[i] != '*'))
  }

  lemma {:induction false} LineStays(q: Lex, line: string, i: nat)
    requires i <= |line| && '\n' !in line && LexFrom(q, line[..i]) == Line
    ensures LexFrom(q, line) == Line
    decreases |line| - i
  {
    if i < |line| {
      ReadOne(q, line, i);
      LineStays(q, line, i + 1);
    } else {
      assert line[..i] == line;
    }
  }

  /** Skipping to the closing quote follows the automaton through a string. */
  lemma {:induction false} StringRuns(q: Lex, line: string, i: nat)
    requires i <= |line| && LexFrom(q, line[..i]) == Str
    ensures var e := ClosingQuote(line, i);
            if e < |line| then i <= e && line[e] == '"' && LexFrom(q, line[..e]) == Str
            else LexFrom(q, line) == Str || LexFrom(q, line) == StrEscape
    decreases |line| - i
  {
    if i == |line| {
      assert line[..i] == line;
    } else {
      ReadOne(q, line, i);
      if line[i] == '\\' {
        if i + 1 < |line| {
          ReadOne(q, line, i + 1);
          StringRuns(q, line, i + 2);
        } else {
          assert line[..i + 1] == line;
        }
      } else if line[i] != '"' {
        StringRuns(q, line, i + 1);
      }
    }
  }

  /** Where no character literal occurs, the tracker and the automaton agree at the end of the line. */
  lemma {:induction false} TrackerAgrees(q: Lex, line: string, i: nat, open: bool)
    requires i <= |line| && '\n' !in line && NeverChr(q, line)
    requires InStep(LexFrom(q, line[..i]), line, i, open)
    ensures CarriesFrom(line, i, open) <==> InComment(LexFrom(q, line))
    decreases |line| - i, 3
  {
    if i == |line| {
      assert line[..i] == line;
    } else {
      if open {
        TrackerInside(q, line, i);
      } else {
        TrackerOutside(q, line, i);
      }
    }
  }

  lemma {:induction false} TrackerInside(q: Lex, line: string, i: nat)
    requires i < |line| && '\n' !in line && NeverChr(q, line)
    requires InStep(LexFrom(q, line[..i]), line, i, true)
    ensures CarriesFrom(line, i, true) <==> InComment(LexFrom(q, line))
    decreases |line| - i, 0
  {
    ReadOne(q, line, i);
    if line[i] == '*' && i + 1 < |line| && line[i + 1] == '/' {
      ReadOne(q, line, i + 1);
      TrackerAgrees(q, line, i + 2, false);
    } else {
      TrackerAgrees(q, line, i + 1, true);
    }
  }

  lemma TrackerAtEnd(line: string, i: nat, open: bool)
    requires i >= |line|
    ensures CarriesFrom(line, i, open) == open
  {
  }

  lemma {:induction false} TrackerBehindString(q: Lex, line: string, i: nat, e: nat)
    requires i < |line| && '\n' !in line && NeverChr(q, line) && i < e
    requires if e < |line| then line[e] == '"' && LexFrom(q, line[..e]) == Str
             else LexFrom(q, line) == Str || LexFrom(q, line) == StrEscape
    ensures CarriesFrom(line, e + 1, false) <==> InComment(LexFrom(q, line))
    decreases |line| - i, 0
  {
    if e < |line| {
      ReadOne(q, line, e);
      TrackerAgrees(q, line, e + 1, false);
    } else {
      TrackerAtEnd(line, e + 1, false);
    }
  }

  lemma {:induction false} TrackerString(q: Lex, line: string, i: nat)
    requires i < |line| && '\n' !in line && NeverChr(q, line)
    requires LexFrom(q, line[..i + 1]) == Str
    ensures CarriesFrom(line, ClosingQuote(line, i + 1) + 1, false) <==> InComment(LexFrom(q, line))
    decreases |line| - i, 1
  {
    StringRuns(q, line, i + 1);
    ClosingQuoteAdvances(line, i + 1);
    TrackerBehindString(q, line, i, ClosingQuote(line, i + 1));
  }

  lemma {:induction false} TrackerOpening(q: Lex, line: string, i: nat)
    requires i + 1 < |line| && '\n' !in line && NeverChr(q, line)
    requires LexFrom(q, line[..i]) == Plain && line[i] == '/' && (line[i + 1] == '*' || line[i + 1] == '/')
    ensures (line[i + 1] == '*' && CarriesFrom(line, i + 2, true)) <==> InComment(LexFrom(q, line))
    decreases |line| - i, 0
  {
    ReadOne(q, line, i);
    ReadOne(q, line, i + 1);
    if line[i + 1] == '*' {
      TrackerAgrees(q, line, i + 2, true);
    } else {
      LineStays(q, line, i + 2);
    }
  }

  lemma {:induction false} TrackerOutside(q: Lex, line: string, i: nat)
    requires i < |line| && '\n' !in line && NeverChr(q, line)
    requires InStep(LexFrom(q, line[..i]), line, i, false)
    ensures CarriesFrom(line, i, false) <==> InComment(LexFrom(q, line))
    decreases |line| - i, 2
  {
    ReadOne(q, line, i);
    if line[i] == '/' && i + 1 < |line| && (line[i + 1] == '*' || line[i + 1] == '/') {
      TrackerOpening(q, line, i);
    } else if line[i] == '"' {
      TrackerString(q, line, i);
    } else {
      NeverChrAt(q, line, i + 1);
      TrackerAgrees(q, line, i + 1, false);
    }
  }

  // --- layout ---

  /** Whitespace that is not part of a string or character literal. */
  predicate Layout(c: char, r: Region) {
    IsWhitespace(c) && (r == Code || r == LineComment || r == BlockComment)
  }

  /** The scan of a text without its layout. */
  function Visible(s: string): Tagged {
    Kept(Scanned(s), Layout)
  }

  /** What a signature becomes at the end of a line. */
  function Calm(g: Sig): Sig {
    match g.q
    case Slash => Settle(g)
    case Line => Sig(Plain, g.kept)
    case Star => Sig(Block, g.kept)
    case _ => g
  }

  predicate AtLineStart(g: Sig) {
    g.q == Plain || g.q == Block
  }

  lemma EndOfLineCalms(g: Sig)
    requires !InLiteral(g.q)
    ensures Feed(g, '\n', Layout) == Calm(g) && AtLineStart(Calm(g))
  {
    WhitespaceCalms(g, '\n');
  }

  /** Whitespace outside literals emits only itself, and that is layout. */
  lemma WhitespaceEmits(q: Lex, c: char)
    requires !InLiteral(q) && q != Slash && IsWhitespace(c)
    ensures |Emit(q, c)| == 1 && Layout(Emit(q, c)[0].0, Emit(q, c)[0].1)
    ensures Next(q, c)
      == (if q == Plain then Plain else if q == Line then (if c == '\n' then Plain else Line) else Block)
  {
  }

  lemma WhitespaceFeeds(g: Sig, c: char)
    requires !InLiteral(g.q) && g.q != Slash && IsWhitespace(c)
    ensures Feed(g, c, Layout) == Sig(Next(g.q, c), g.kept)
  {
    WhitespaceEmits(g.q, c);
    var e := Emit(g.q, c);
    assert e[..0] == [];
    assert Kept(e, Layout) == [];
    assert g.kept + [] == g.kept;
  }

  lemma WhitespaceCalms(g: Sig, c: char)
    requires !InLiteral(g.q) && IsWhitespace(c)
    ensures Calm(Feed(g, c, Layout)) == Calm(g) && !InLiteral(Next(g.q, c))
    ensures AtLineStart(g) ==> Feed(g, c, Layout) == g
    ensures c == '\n' ==> Feed(g, c, Layout) == Calm(g)
  {
    if g.q == Slash {
      FeedSettled(g, c, Layout);
    }
    WhitespaceFeeds(Settle(g), c);
    WhitespaceEmits(Settle(g).q, c);
  }

  ghost predicate Blank(s: string) {
    forall k :: 0 <= k < |s| ==> IsWhitespace(s[k])
  }

  lemma {:induction false} BlankCalms(g: Sig, s: string)
    requires !InLiteral(g.q) && Blank(s)
    ensures Calm(FeedAll(g, s, Layout)) == Calm(g) && !InLiteral(FeedAll(g, s, Layout).q)
    ensures AtLineStart(g) ==> FeedAll(g, s, Layout) == g
  {
    if s != "" {
      BlankCalms(g, s[..|s| - 1]);
      WhitespaceCalms(FeedAll(g, s[..|s| - 1], Layout), s[|s| - 1]);
    }
  }

  /** Whitespace does not close a literal. */
  lemma {:induction false} BlankKeepsLiteral(g: Sig, s: string)
    requires InLiteral(g.q) && Blank(s)
    ensures InLiteral(FeedAll(g, s, Layout).q)
  {
    if s != "" {
      BlankKeepsLiteral(g, s[..|s| - 1]);
    }
  }

  // --- trimming ---

  lemma {:induction false} TrimStartParts(s: string) returns (front: string)
    ensures s == front + TrimStart(s) && Blank(front)
    ensures TrimStart(s) != "" ==> !IsWhitespace(TrimStart(s)[0])
  {
    front := "";
    if s != "" && IsWhitespace(s[0]) {
      var rest := TrimStartParts(s[1..]);
      front := [s[0]] + rest;
      assert s == [s[0]] + s[1..];
    }
  }

  lemma {:induction false} TrimEndParts(s: string) returns (back: string)
    ensures s == TrimEnd(s) + back && Blank(back)
    ensures TrimEnd(s) != "" ==> !IsWhitespace(TrimEnd(s)[|TrimEnd(s)| - 1]) && TrimEnd(s)[0] == s[0]
  {
    back := "";
    if s != "" && IsWhitespace(s[|s| - 1]) {
      var rest := TrimEndParts(s[..|s| - 1]);
      back := rest + [s[|s| - 1]];
      assert s == s[..|s| - 1] + [s[|s| - 1]];
    }
  }

  lemma TrimParts(s: string) returns (front: string, back: string)
    ensures s == front + Trim(s) + back && Blank(front) && Blank(back)
    ensures Trimmed(Trim(s))
  {
    front := TrimStartParts(s);
    back := TrimEndParts(TrimStart(s));
  }

  /** A carriage return at the end of a line is trimmed away anyway. */
  lemma TrimIgnoresCarriageReturn(s: string)
    ensures Trim(WithoutCarriageReturn(s)) == Trim(s)
  {
    if s != "" && s[|s| - 1] == '\r' {
      var t := s[..|s| - 1];
      assert s == t + ['\r'];
      TrimWithTail(t, '\r');
    }
  }

  lemma {:induction false} TrimWithTail(t: string, c: char)
    requires IsWhitespace(c)
    ensures Trim(t + [c]) == Trim(t)
  {
    if t == "" {
      assert t + [c] == [c];
      assert TrimStart([c]) == TrimStart([c][1..]);
    } else if IsWhitespace(t[0]) {
      assert (t + [c])[1..] == t[1..] + [c];
      TrimWithTail(t[1..], c);
    } else {
      assert (t + [c])[..|t|] == t;
    }
  }

  // --- from disregarding spaces in code to disregarding layout ---

  lemma {:induction false} KeptTwice(t: Tagged)
    ensures Kept(Kept(t, CodeSpace), Layout) == Kept(t, Layout)
  {
    if t != [] {
      var k := |t| - 1;
      KeptTwice(t[..k]);
      KeptConcat(Kept(t[..k], CodeSpace), [t[k]], Layout);
      assert t[..k] + [t[k]] == t;
      assert [t[k]][..0] == [];
      assert Kept(t[..k], CodeSpace) + [] == Kept(t[..k], CodeSpace);
    }
  }

  /** Reading from any kept prefix only adds to it. */
  lemma {:induction false} FeedAllFrom(g: Sig, s: string, drop: Filter)
    ensures FeedAll(g, s, drop) == Sig(LexFrom(g.q, s), g.kept + Kept(EmittedFrom(g.q, s), drop))
  {
    if s == "" {
      assert g.kept + [] == g.kept;
    } else {
      var t := s[..|s| - 1];
      FeedAllFrom(g, t, drop);
      var e := Emit(LexFrom(g.q, t), s[|s| - 1]);
      KeptConcat(EmittedFrom(g.q, t), e, drop);
      Associate(g.kept, Kept(EmittedFrom(g.q, t), drop), Kept(e, drop));
    }
  }

  lemma Associate(a: Tagged, b: Tagged, c: Tagged)
    ensures (a + b) + c == a + (b + c)
  {
  }

  lemma SettledScan(s: string, drop: Filter, kept: Tagged)
    requires !drop('/', Code)
    ensures Settle(FeedAll(Sig(Plain, kept), s, drop)).kept == kept + Kept(Scanned(s), drop)
    ensures Settle(FeedAll(Sig(Plain, kept), s, drop)).q == (if LexState(s) == Slash then Plain else LexState(s))
  {
    FeedAllFrom(Sig(Plain, kept), s, drop);
    KeptConcat(EmittedFrom(Plain, s), Pending(LexState(s)), drop);
    var e := Kept(EmittedFrom(Plain, s), drop);
    assert [('/', Code)][..0] == [];
    if LexState(s) == Slash {
      assert Kept(Pending(Slash), drop) == [('/', Code)];
      Associate(kept, e, [('/', Code)]);
    } else {
      assert e + [] == e;
    }
  }

  /** Normalisation keeps the layout-free scan and the final state, from any line start in code. */
  lemma NormalizationKeepsVisible(line: string, g: Sig)
    requires Trimmed(line) && '\n' !in line && g.q == Plain
    ensures Settle(FeedAll(g, Normalized(line), Layout)) == Settle(FeedAll(g, line, Layout))
  {
    NormalizationKeepsSubstance(line);
    KeptTwice(Scanned(line));
    KeptTwice(Scanned(Normalized(line)));
    SettledScan(line, Layout, g.kept);
    SettledScan(Normalized(line), Layout, g.kept);
    SettledScan(line, CodeSpace, []);
    SettledScan(Normalized(line), CodeSpace, []);
  }

  // --- character literals ---

  const QUOTE: (char, Region) := ('\'', Code)

  /** No single quote stands in code: there are no character literals. */
  ghost predicate QuoteFree(s: string) {
    QUOTE !in Scanned(s)
  }

  lemma {:induction false} KeptMember(t: Tagged, drop: Filter, p: (char, Region))
    ensures p in Kept(t, drop) <==> p in t && !drop(p.0, p.1)
  {
    if t != [] {
      var k := |t| - 1;
      KeptMember(t[..k], drop, p);
      assert t == t[..k] + [t[k]];
    }
  }

  lemma QuoteTag(q: Lex, c: char)
    requires q != Chr && q != ChrEscape
    requires Next(q, c) == Chr || Next(q, c) == ChrEscape
    ensures QUOTE in Emit(q, c)
  {
    assert Emit(q, c)[|Emit(q, c)| - 1] == QUOTE;
  }

  /** Entering a character literal leaves a quote in what is emitted. */
  lemma {:induction false} NoQuoteNoLiteral(q: Lex, s: string)
    requires q != Chr && q != ChrEscape && QUOTE !in EmittedFrom(q, s)
    ensures NeverChr(q, s)
  {
    if s != "" {
      var t := s[..|s| - 1];
      NoQuoteNoLiteral(q, t);
      if LexFrom(q, s) == Chr || LexFrom(q, s) == ChrEscape {
        QuoteTag(LexFrom(q, t), s[|s| - 1]);
      }
    }
  }

  lemma NormalizationKeepsQuotes(line: string)
    requires Trimmed(line) && '\n' !in line && QUOTE !in EmittedFrom(Plain, line)
    ensures QUOTE !in EmittedFrom(Plain, Normalized(line))
  {
    NormalizationKeepsSubstance(line);
    KeptMember(Scanned(line), CodeSpace, QUOTE);
    KeptMember(Scanned(Normalized(line)), CodeSpace, QUOTE);
  }

  lemma {:induction false} EmittedConcat(q: Lex, a: string, b: string)
    ensures LexFrom(q, a + b) == LexFrom(LexFrom(q, a), b)
    ensures EmittedFrom(q, a + b) == EmittedFrom(q, a) + EmittedFrom(LexFrom(q, a), b)
  {
    if b == "" {
      assert a + b == a;
    } else {
      var k := |b| - 1;
      assert (a + b)[..|a + b| - 1] == a + b[..k];
      EmittedConcat(q, a, b[..k]);
    }
  }

  // --- one line ---

  /** A line that starts in code or in a block comment, has no character literal and ends outside strings. */
  ghost predicate LineOk(g: Sig, raw: string) {
    AtLineStart(g) && '\n' !in raw && QUOTE !in EmittedFrom(g.q, raw) && !InLiteral(LexFrom(g.q, raw))
  }

  /** The trimmed line reads like the raw one. */
  lemma TrimKeepsVisible(g: Sig, raw: string)
    requires LineOk(g, raw)
    ensures LineOk(g, Trim(raw)) && Trimmed(Trim(raw))
    ensures Calm(FeedAll(g, Trim(raw), Layout)) == Calm(FeedAll(g, raw, Layout))
  {
    var front, back := TrimParts(raw);
    var core := Trim(raw);
    BlankCalms(g, front);
    FeedConcat(g, front + core, back, Layout);
    FeedConcat(g, front, core, Layout);
    FeedAllFrom(g, front, Layout);
    FeedAllFrom(g, core, Layout);
    FeedAllFrom(g, raw, Layout);
    EmittedConcat(g.q, front + core, back);
    EmittedConcat(g.q, front, core);
    var x := FeedAll(g, core, Layout);
    if InLiteral(x.q) {
      BlankKeepsLiteral(x, back);
    }
    BlankCalms(x, back);
    assert forall c :: c in core ==> c in raw;
  }

  lemma TrackerFromLineStart(q: Lex, text: string)
    requires (q == Plain || q == Block) && '\n' !in text && QUOTE !in EmittedFrom(q, text)
    ensures CarriesFrom(text, 0, q == Block) <==> InComment(LexFrom(q, text))
  {
    NoQuoteNoLiteral(q, text);
    assert text[..0] == "";
    TrackerAgrees(q, text, 0, q == Block);
  }

  /** The text of a line is free of newlines and character literals like the line, and reads like it. */
  lemma TextIsOk(g: Sig, raw: string)
    requires LineOk(g, raw)
    ensures LineOk(g, Text(raw, g.q == Block))
    ensures Calm(FeedAll(g, Text(raw, g.q == Block), Layout)) == Calm(FeedAll(g, raw, Layout))
  {
    TrimKeepsVisible(g, raw);
    if g.q == Plain {
      NormalizedIsOk(g, Trim(raw));
    }
  }

  lemma CalmOfSettled(g: Sig, h: Sig)
    requires Settle(g) == Settle(h)
    ensures Calm(g) == Calm(h) && InLiteral(g.q) == InLiteral(h.q)
  {
  }

  lemma NormalizedIsOk(g: Sig, core: string)
    requires LineOk(g, core) && Trimmed(core) && g.q == Plain
    ensures LineOk(g, Normalized(core))
    ensures Calm(FeedAll(g, Normalized(core), Layout)) == Calm(FeedAll(g, core, Layout))
  {
    NormalizationKeepsVisible(core, g);
    NormalizationKeepsQuotes(core);
    NormalizedHasNoNewline(core);
    FeedAllFrom(g, core, Layout);
    FeedAllFrom(g, Normalized(core), Layout);
    CalmOfSettled(FeedAll(g, core, Layout), FeedAll(g, Normalized(core), Layout));
  }

  /** The comment tracker's flag is the scanner's state at the end of the line. */
  lemma TrackerTellsComment(g: Sig, text: string)
    requires LineOk(g, text)
    ensures CarriesFrom(text, 0, g.q == Block) <==> Calm(FeedAll(g, text, Layout)).q == Block
  {
    TrackerFromLineStart(g.q, text);
    FeedAllFrom(g, text, Layout);
  }

  lemma NormalizedHasNoNewline(line: string)
    requires Trimmed(line) && '\n' !in line
    ensures '\n' !in Normalized(line)
  {
    var n := Normalized(line);
    NormalizationKeepsSubstance(line);
    ScannedChars(line);
    ScannedChars(n);
    forall k | 0 <= k < |n|
      ensures n[k] != '\n'
    {
      var p := Scanned(n)[k];
      KeptMember(Scanned(n), CodeSpace, p);
      KeptMember(Scanned(line), CodeSpace, p);
    }
  }

  lemma SpacesAreBlank(n: nat)
    ensures Blank(Spaces(n))
  {
  }

  /** What a line adds to the output reads like the line with its newline. */
  lemma LineKeepsVisible(g: Sig, raw: string, line: string, st: FormatState)
    requires LineOk(g, raw) && Trim(line) == Trim(raw)
    requires st.inBlockComment <==> g.q == Block
    ensures var (piece, st') := FormatLine(line, st);
            && FeedAll(g, piece, Layout) == Calm(FeedAll(g, raw, Layout))
            && (st'.inBlockComment <==> Calm(FeedAll(g, raw, Layout)).q == Block)
  {
    var text := Text(raw, g.q == Block);
    TextIsOk(g, raw);
    TrackerTellsComment(g, text);
    assert Text(line, st.inBlockComment) == text;
    if text == "" {
      EmptyPiece(g);
    } else {
      var indent := Spaces(IndentOf(text, st) * INDENT_SIZE);
      SpacesAreBlank(IndentOf(text, st) * INDENT_SIZE);
      PieceKeepsVisible(g, indent, text);
    }
  }

  function IndentOf(text: string, st: FormatState): nat {
    if ClosesBlock(Blanked(Scanned(text))) && st.indent > 0 then st.indent - 1 else st.indent
  }

  lemma EmptyPiece(g: Sig)
    requires AtLineStart(g)
    ensures FeedAll(g, "", Layout) == g && FeedAll(g, "\n", Layout) == g && Calm(g) == g
  {
    assert "\n"[..0] == "";
    WhitespaceCalms(g, '\n');
  }

  lemma PieceKeepsVisible(g: Sig, indent: string, text: string)
    requires AtLineStart(g) && Blank(indent) && !InLiteral(LexFrom(g.q, text))
    ensures FeedAll(g, indent + text + "\n", Layout) == Calm(FeedAll(g, text, Layout))
  {
    BlankCalms(g, indent);
    FeedConcat(g, indent + text, "\n", Layout);
    FeedConcat(g, indent, text, Layout);
    assert "\n"[..0] == "";
    FeedAllFrom(g, text, Layout);
    EndOfLineCalms(FeedAll(g, text, Layout));
  }

  // --- the whole file ---

  /** Every string is closed on its own line. */
  ghost predicate StringsCloseOnTheirLine(source: string) {
    forall p :: 0 <= p <= |source| && (p == |source| || source[p] == '\n') ==>
      LexState(source[..p]) != Str && LexState(source[..p]) != StrEscape
  }

  ghost predicate Formattable(source: string) {
    QuoteFree(source) && StringsCloseOnTheirLine(source)
  }

  function ReadTo(source: string, p: nat): Sig
    requires p <= |source|
  {
    FeedAll(FRESH, source[..p], Layout)
  }

  lemma ReadSegment(source: string, start: nat, end: nat)
    requires start <= end <= |source|
    ensures ReadTo(source, end) == FeedAll(ReadTo(source, start), source[start..end], Layout)
    ensures LexFrom(ReadTo(source, start).q, source[start..end]) == LexState(source[..end])
  {
    assert source[..end] == source[..start] + source[start..end];
    FeedConcat(FRESH, source[..start], source[start..end], Layout);
    EmittedConcat(Plain, source[..start], source[start..end]);
    FeedAllFrom(FRESH, source[..start], Layout);
  }

  lemma SegmentHasNoQuote(source: string, start: nat, end: nat)
    requires QuoteFree(source) && start <= end <= |source|
    ensures QUOTE !in EmittedFrom(LexState(source[..start]), source[start..end])
    ensures QUOTE !in EmittedFrom(Plain, source[..end])
  {
    assert source == source[..end] + source[end..];
    EmittedConcat(Plain, source[..end], source[end..]);
    assert source[..end] == source[..start] + source[start..end];
    EmittedConcat(Plain, source[..start], source[start..end]);
  }

  lemma LineIsOk(source: string, start: nat)
    requires Formattable(source) && start < |source| && AtLineStart(ReadTo(source, start))
    ensures start <= NewlineFrom(source, start) <= |source|
    ensures LineOk(ReadTo(source, start), source[start..NewlineFrom(source, start)])
  {
    NewlineFromBounds(source, start);
    var end := NewlineFrom(source, start);
    ReadSegment(source, start, end);
    FeedAllFrom(FRESH, source[..start], Layout);
    SegmentHasNoQuote(source, start, end);
    NoQuoteNoLiteral(Plain, source[..end]);
    assert source[..end][..end] == source[..end];
  }

  lemma LineEnd(source: string, start: nat)
    requires Formattable(source) && start < |source| && AtLineStart(ReadTo(source, start))
    ensures start <= NewlineFrom(source, start) <= |source|
    ensures !InLiteral(ReadTo(source, NewlineFrom(source, start)).q)
  {
    LineIsOk(source, start);
    var end := NewlineFrom(source, start);
    ReadSegment(source, start, end);
    FeedAllFrom(FRESH, source[..end], Layout);
  }

  lemma ReadNewline(source: string, end: nat)
    requires end < |source| && source[end] == '\n' && !InLiteral(ReadTo(source, end).q)
    ensures ReadTo(source, end + 1) == Calm(ReadTo(source, end)) && AtLineStart(ReadTo(source, end + 1))
  {
    assert source[..end + 1][..end] == source[..end];
    EndOfLineCalms(ReadTo(source, end));
  }

  /** The state of the scanner at the next line start. */
  lemma NextLineStart(source: string, start: nat)
    requires Formattable(source) && start < |source| && AtLineStart(ReadTo(source, start))
    ensures var end := NewlineFrom(source, start);
            start <= end <= |source|
            && Calm(ReadTo(source, NextStart(source, start))) == Calm(ReadTo(source, end))
            && AtLineStart(Calm(ReadTo(source, end)))
            && (NextStart(source, start) < |source|
              ==> ReadTo(source, NextStart(source, start)) == Calm(ReadTo(source, end)))
  {
    LineEnd(source, start);
    NewlineFromBounds(source, start);
    BehindLineEnd(source, NewlineFrom(source, start));
  }

  lemma BehindLineEnd(source: string, end: nat)
    requires end <= |source| && !InLiteral(ReadTo(source, end).q) && (end < |source| ==> source[end] == '\n')
    ensures var next := if end < |source| then end + 1 else end;
            && Calm(ReadTo(source, next)) == Calm(ReadTo(source, end))
            && AtLineStart(Calm(ReadTo(source, end)))
            && (next < |source| ==> ReadTo(source, next) == Calm(ReadTo(source, end)))
  {
    EndOfLineCalms(ReadTo(source, end));
    if end < |source| {
      ReadNewline(source, end);
    }
  }

  /** Each line starts where the previous one ends. */
  lemma {:induction false} StartsChain(source: string, start: nat, k: nat)
    requires start <= |source| && k <= |StartsFrom(source, start)|
    ensures var starts := StartsFrom(source, start);
            && Inside(source, starts)
            && (starts == [] ==> start == |source|)
            && (starts != [] ==> starts[0] == start)
            && (k < |starts| ==> NextStart(source, starts[k]) == if k + 1 < |starts| then starts[k + 1] else |source|)
    decreases |source| - start
  {
    StartsInside(source, start);
    if start < |source| {
      var next := NextStart(source, start);
      StartsChain(source, next, if k == 0 then 0 else k - 1);
    }
  }

  /** Where line `k` starts; behind the last line this is the end of the file. */
  function StartOf(source: string, starts: seq<nat>, k: nat): nat
    requires k <= |starts|
  {
    if k < |starts| then starts[k] else |source|
  }

  /** An output signature and a comment flag that stand for the source up to position `p`. */
  ghost predicate Reached(source: string, p: nat, out: Sig, flag: bool) {
    && p <= |source|
    && out == Calm(ReadTo(source, p))
    && AtLineStart(out)
    && (p < |source| ==> out == ReadTo(source, p))
    && (flag <==> out.q == Block)
  }

  lemma OneLine(source: string, start: nat, out: Sig, st: FormatState)
    requires Formattable(source) && start < |source|
    requires Reached(source, start, out, st.inBlockComment)
    ensures var (piece, st') := FormatLine(LineFrom(source, start), st);
            Reached(source, NextStart(source, start), FeedAll(out, piece, Layout), st'.inBlockComment)
  {
    LineIsOk(source, start);
    var end := NewlineFrom(source, start);
    var raw := source[start..end];
    TrimIgnoresCarriageReturn(raw);
    LineKeepsVisible(out, raw, LineFrom(source, start), st);
    ReadSegment(source, start, end);
    NextLineStart(source, start);
  }

  /** What holds of the number of handled lines, the output's signature and the comment flag. */
  type LineInvariant = (nat, Sig, bool) -> bool

  /** `step` carries the invariant over line `j`. */
  ghost predicate Carries(inv: LineInvariant, step: LineStep, lines: seq<string>, j: nat, out: Sig, st: FormatState) {
    j < |lines| && inv(j, out, st.inBlockComment) ==>
      var (piece, st') := step(lines[j], st);
      inv(j + 1, FeedAll(out, piece, Layout), st'.inBlockComment)
  }

  lemma {:induction false} InvariantHolds(inv: LineInvariant, step: LineStep, lines: seq<string>, k: nat)
    requires inv(0, FRESH, false) && k <= |lines|
    requires forall j: nat, out: Sig, st: FormatState :: Carries(inv, step, lines, j, out, st)
    ensures var p := AfterLines(step, lines, k); inv(k, FeedAll(FRESH, p.output, Layout), p.st.inBlockComment)
  {
    if k > 0 {
      InvariantHolds(inv, step, lines, k - 1);
      var before := AfterLines(step, lines, k - 1);
      assert Carries(inv, step, lines, k - 1, FeedAll(FRESH, before.output, Layout), before.st);
      FeedConcat(FRESH, before.output, step(lines[k - 1], before.st).0, Layout);
    }
  }

  /** The output reads like the source up to the start of line `k`. */
  ghost predicate ReachedLine(source: string, k: nat, out: Sig, flag: bool) {
    k <= |LineStarts(source)| && Reached(source, StartOf(source, LineStarts(source), k), out, flag)
  }

  lemma NothingRead(source: string)
    ensures ReachedLine(source, 0, FRESH, false)
  {
    assert source[..0] == "";
    StartsChain(source, 0, 0);
  }

  lemma LineCarries(source: string, k: nat, out: Sig, st: FormatState)
    requires Formattable(source) && k < |LineStarts(source)|
    requires ReachedLine(source, k, out, st.inBlockComment)
    ensures var (piece, st') := FormatLine(Lines(source)[k], st);
            ReachedLine(source, k + 1, FeedAll(out, piece, Layout), st'.inBlockComment)
  {
    StartsChain(source, 0, k);
    OneLine(source, LineStarts(source)[k], out, st);
  }

  lemma LineInvariantCarries(source: string, inv: LineInvariant, j: nat, out: Sig, st: FormatState)
    requires Formattable(source)
    requires forall i: nat, o: Sig, flag: bool :: inv(i, o, flag) == ReachedLine(source, i, o, flag)
    ensures Carries(inv, FormatLine, Lines(source), j, out, st)
  {
    if j < |Lines(source)| && ReachedLine(source, j, out, st.inBlockComment) {
      LineCarries(source, j, out, st);
    }
  }

  /** After any number of lines, the output reads like the source up to there. */
  lemma ReachedAfterLines(source: string, k: nat)
    requires Formattable(source) && k <= |Lines(source)|
    ensures var p := AfterLines(FormatLine, Lines(source), k);
            ReachedLine(source, k, FeedAll(FRESH, p.output, Layout), p.st.inBlockComment)
  {
    var inv: LineInvariant := (j: nat, out: Sig, flag: bool) => ReachedLine(source, j, out, flag);
    NothingRead(source);
    forall j: nat, out: Sig, st: FormatState
      ensures Carries(inv, FormatLine, Lines(source), j, out, st)
    {
      LineInvariantCarries(source, inv, j, out, st);
    }
    InvariantHolds(inv, FormatLine, Lines(source), k);
  }

  lemma SettledIsVisible(s: string)
    ensures Settle(FeedAll(FRESH, s, Layout)).kept == Visible(s)
  {
    SettledScan(s, Layout, []);
    assert [] + Visible(s) == Visible(s);
  }

  lemma CalmKeepsSettled(g: Sig)
    requires AtLineStart(Calm(g))
    ensures Settle(Calm(g)).kept == Settle(g).kept
  {
  }

  lemma CalmReadingsLookAlike(a: string, b: string)
    requires FeedAll(FRESH, a, Layout) == Calm(FeedAll(FRESH, b, Layout))
    requires AtLineStart(FeedAll(FRESH, a, Layout))
    ensures Visible(a) == Visible(b)
  {
    SettledIsVisible(a);
    SettledIsVisible(b);
    CalmKeepsSettled(FeedAll(FRESH, b, Layout));
  }

  /** Formatting a file changes nothing but whitespace outside string and character literals. */
  lemma FormattingKeepsVisible(source: string)
    requires Formattable(source)
    ensures Visible(Formatted(source)) == Visible(source)
  {
    ReachedAfterLines(source, |Lines(source)|);
    assert source[..|source|] == source;
    CalmReadingsLookAlike(Formatted(source), source);
  }

  // --- without the hypothesis on character literals ---

  /** A character literal holding a double quote, then a comment that stays open. */
  const QUOTED := "'\"' /*\nx"

  ghost predicate IsQuoted(s: string) {
    |s| == 8 && s[0] == '\'' && s[1] == '"' && s[2] == '\'' && s[3] == ' '
    && s[4] == '/' && s[5] == '*' && s[6] == '\n' && s[7] == 'x'
  }

  lemma QuotedStates(s: string)
    requires IsQuoted(s)
    ensures LexState(s[..1]) == Chr && LexState(s[..6]) == Block && LexState(s[..7]) == Block && LexState(s) == Block
  {
    assert s[..0] == "";
    ReadOne(Plain, s, 0);
    ReadOne(Plain, s, 1);
    ReadOne(Plain, s, 2);
    ReadOne(Plain, s, 3);
    ReadOne(Plain, s, 4);
    ReadOne(Plain, s, 5);
    ReadOne(Plain, s, 6);
    ReadOne(Plain, s, 7);
    assert s[..8] == s;
  }

  lemma QuotedTracker(line: string)
    requires |line| == 6 && line[0] == '\'' && line[1] == '"' && line[2] == '\'' && line[3] == ' '
    requires line[4] == '/' && line[5] == '*'
    ensures !CarriesFrom(line, 0, false)
  {
    assert ClosingQuote(line, 6) == 6;
    assert ClosingQuote(line, 4) == 6;
    assert ClosingQuote(line, 2) == 6;
    TrackerAtEnd(line, 7, false);
    assert !CarriesFrom(line, 1, false);
  }

  /** The comment tracker takes the double quote for the start of a string and misses the comment, so the
      hypothesis on single quotes cannot be dropped. */
  lemma CharLiteralBreaksTracker(s: string)
    requires s == QUOTED
    ensures !QuoteFree(s) && StringsCloseOnTheirLine(s)
    ensures LexState(s[..7]) == Block && !CarriesFrom(s[..6], 0, false)
  {
    assert IsQuoted(s);
    QuotedStates(s);
    if QUOTE !in EmittedFrom(Plain, s) {
      NoQuoteNoLiteral(Plain, s);
      NeverChrAt(Plain, s, 1);
    }
    assert s[..8] == s;
    QuotedTracker(s[..6]);
  }
}
