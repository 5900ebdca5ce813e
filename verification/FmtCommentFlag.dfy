/** When the formatter's comment flag is the scanner's state (src/fmt.rs, `block_comment_carries` and `format`). */
module FmtCommentFlag {
  import opened SourceScan
  import opened FmtSpacing
  import opened FmtRegions
  import opened FmtFile
  import opened FmtFileRegions
  import opened FmtStrings
  import opened FmtFileStrings

  /** The scanner's state where line `k` starts. */
  function StateBefore(source: string, k: nat): Lex
    requires k < |LineStarts(source)|
  {
    LineBounds(source, k);
    LexState(source[..StartAt(source, k)])
  }

  /** Before line `k` the comment flag says what a scan of the whole source says there. */
  ghost predicate FlagRight(source: string, k: nat)
    requires k < |LineStarts(source)|
  {
    StateAt(source, k).inBlockComment <==> StateBefore(source, k) == Block
  }

  /** On a line that starts inside a string, the tracker, which takes it for code, ends as the scanner does. */
  predicate Tracks(raw: string) {
    CarriesFrom(Normalized(Trim(raw)), 0, false) <==> InComment(LexFrom(Str, raw))
  }

  predicate TracksAt(source: string, k: nat)
    requires k < |LineStarts(source)|
  {
    StartsInString(source, k) ==> Tracks(RawAt(source, k))
  }

  // --- the scanner at the start of a line ---

  lemma StateBehindNewline(source: string, p: nat)
    requires QuoteFree(source) && p < |source| && source[p] == '\n'
    ensures LexState(source[..p + 1]) in [Plain, Block, Str]
    ensures LexState(source[..p + 1]) == Block <==> InComment(LexState(source[..p]))
  {
    StateIsNoChr(source, p + 1);
    ReadOne(Plain, source, p);
  }

  /** Where a line starts, the scanner is in code, in a block comment or in a string. */
  lemma StartStates(source: string, k: nat)
    requires Closed(source) && k < |LineStarts(source)|
    ensures StateBefore(source, k) in [Plain, Block, Str]
    ensures StartsInString(source, k) <==> StateBefore(source, k) == Str
  {
    LineBounds(source, k);
    if k == 0 {
      assert source[..0] == "";
    } else {
      StartIsBehindNewline(source, k);
      StateBehindNewline(source, StartAt(source, k) - 1);
    }
  }

  /** The scanner is in a block comment at the next line exactly when the line ends inside one. */
  lemma NextStartState(source: string, k: nat)
    requires Closed(source) && k + 1 < |LineStarts(source)|
    ensures StateBefore(source, k + 1) == Block <==> InComment(LexFrom(StateBefore(source, k), RawAt(source, k)))
  {
    LineReads(source, k);
    LineBounds(source, k);
    LineBounds(source, k + 1);
    StateBehindNewline(source, NewlineFrom(source, StartAt(source, k)));
  }

  // --- one line ---

  /** What is known of a line, and what its flag has to be. */
  lemma FlagFacts(source: string, k: nat)
    requires Closed(source) && k + 1 < |LineStarts(source)|
    ensures var q, raw := StateBefore(source, k), RawAt(source, k);
            && '\n' !in raw && Trim(Lines(source)[k]) == Trim(raw) && QUOTE !in EmittedFrom(q, raw)
            && (InLiteral(LexFrom(q, raw)) <==> ReadsString(LexFrom(q, raw)))
            && (FlagRight(source, k + 1)
                <==> (FormatLine(Lines(source)[k], StateAt(source, k)).1.inBlockComment
                    <==> InComment(LexFrom(q, raw))))
  {
    LineFacts(source, k);
    NextStartState(source, k);
    OneMoreLine(source, k);
  }

  lemma FlagBehindOutside(q: Lex, raw: string, line: string, st: FormatState)
    requires (q == Plain || q == Block) && '\n' !in raw && Trim(line) == Trim(raw) && QUOTE !in EmittedFrom(q, raw)
    requires !InLiteral(LexFrom(q, raw)) && (st.inBlockComment <==> q == Block)
    ensures FormatLine(line, st).1.inBlockComment <==> InComment(LexFrom(q, raw))
  {
    LineKeepsVisible(Sig(q, []), raw, line, st);
    CalmReading(q, raw);
  }

  lemma CalmReading(q: Lex, raw: string)
    ensures Calm(FeedAll(Sig(q, []), raw, Layout)).q == Block <==> InComment(LexFrom(q, raw))
  {
    FeedAllFrom(Sig(q, []), raw, Layout);
  }

  lemma FlagBehindOpening(q: Lex, raw: string, line: string, st: FormatState)
    requires (q == Plain || q == Block) && '\n' !in raw && Trim(line) == Trim(raw) && QUOTE !in EmittedFrom(q, raw)
    requires ReadsString(LexFrom(q, raw)) && (st.inBlockComment <==> q == Block)
    ensures FormatLine(line, st).1.inBlockComment <==> InComment(LexFrom(q, raw))
  {
    var h, back := OpeningPiece(Sig(q, []), raw, line, st);
  }

  lemma FlagBehindLine(line: string, st: FormatState)
    ensures FormatLine(line, st).1.inBlockComment == CarriesFrom(Text(line, st.inBlockComment), 0, st.inBlockComment)
  {
  }

  /** Over a line that starts outside strings the flag stays right; over another exactly when the tracker follows. */
  lemma FlagStep(source: string, k: nat)
    requires Closed(source) && k + 1 < |LineStarts(source)| && FlagRight(source, k)
    ensures FlagRight(source, k + 1) <==> TracksAt(source, k)
  {
    var q, raw, line, st := StateBefore(source, k), RawAt(source, k), Lines(source)[k], StateAt(source, k);
    StartStates(source, k);
    FlagFacts(source, k);
    if StartsInString(source, k) {
      FlagBehindLine(line, st);
    } else if ReadsString(LexFrom(q, raw)) {
      FlagBehindOpening(q, raw, line, st);
    } else {
      FlagBehindOutside(q, raw, line, st);
    }
  }

  // --- the whole file ---

  ghost predicate FlagRightUpTo(source: string, n: nat)
    requires n < |LineStarts(source)|
  {
    forall k {:trigger FlagRight(source, k)} :: 0 <= k <= n ==> FlagRight(source, k)
  }

  predicate TracksBefore(source: string, n: nat)
    requires n <= |LineStarts(source)|
  {
    forall k {:trigger TracksAt(source, k)} :: 0 <= k < n ==> TracksAt(source, k)
  }

  lemma FlagRightFirst(source: string)
    requires 0 < |LineStarts(source)|
    ensures FlagRight(source, 0)
  {
    StartsChain(source, 0, 0);
    assert source[..0] == "";
  }

  lemma UpToOneMore(source: string, n: nat)
    requires n + 1 < |LineStarts(source)|
    ensures FlagRightUpTo(source, n + 1) <==> FlagRightUpTo(source, n) && FlagRight(source, n + 1)
    ensures TracksBefore(source, n + 1) <==> TracksBefore(source, n) && TracksAt(source, n)
  {
  }

  /** The flag is right before all lines up to line `n` exactly when the tracker follows every line before it that
      starts inside a string. */
  lemma {:induction false} FlagRightExactly(source: string, n: nat)
    requires Closed(source) && n < |LineStarts(source)|
    ensures FlagRightUpTo(source, n) <==> TracksBefore(source, n)
  {
    if n == 0 {
      FlagRightFirst(source);
    } else {
      FlagRightExactly(source, n - 1);
      UpToOneMore(source, n - 1);
      if FlagRightUpTo(source, n - 1) {
        FlagStep(source, n - 1);
      }
    }
  }

  // --- read off the source alone ---

  /** Without a character literal in the line's own scan, the tracker follows exactly when that scan and the scan of
      the file agree on whether a comment is open at the end of the line. */
  lemma TracksExactly(raw: string)
    requires '\n' !in raw && QUOTE !in EmittedFrom(Plain, Trim(raw))
    ensures Tracks(raw) <==> (InComment(LexFrom(Plain, Trim(raw))) <==> InComment(LexFrom(Str, raw)))
  {
    var core := Trim(raw);
    TrimIsDense(raw);
    TrimKeepsNewlines(raw);
    NormalizationKeepsSubstance(core);
    NormalizationKeepsQuotes(core);
    NormalizedHasNoNewline(core);
    FeedAllFrom(FRESH, core, CodeSpace);
    FeedAllFrom(FRESH, Normalized(core), CodeSpace);
    TrackerFromLineStart(Plain, Normalized(core));
  }

  /** Scanned on its own, a line that starts inside a string has no character literal. */
  predicate OwnScanQuoteFree(source: string, k: nat)
    requires k < |LineStarts(source)|
  {
    StartsInString(source, k) ==> QUOTE !in EmittedFrom(Plain, Trim(RawAt(source, k)))
  }

  predicate ScansAgreeAt(source: string, k: nat)
    requires k < |LineStarts(source)|
  {
    StartsInString(source, k) ==>
      var raw := RawAt(source, k);
      InComment(LexFrom(Plain, Trim(raw))) <==> InComment(LexFrom(Str, raw))
  }

  lemma TracksAtExactly(source: string, k: nat)
    requires k < |LineStarts(source)| && OwnScanQuoteFree(source, k)
    ensures TracksAt(source, k) <==> ScansAgreeAt(source, k)
  {
    if StartsInString(source, k) {
      LineHasNoNewline(source, k);
      TracksExactly(RawAt(source, k));
    }
  }

  /** The condition in terms of scans of the source. */
  lemma FlagRightExactlyOnSource(source: string, n: nat)
    requires Closed(source) && n < |LineStarts(source)|
    requires forall k {:trigger OwnScanQuoteFree(source, k)} :: 0 <= k < n ==> OwnScanQuoteFree(source, k)
    ensures FlagRightUpTo(source, n)
            <==> forall k {:trigger ScansAgreeAt(source, k)} :: 0 <= k < n ==> ScansAgreeAt(source, k)
  {
    FlagRightExactly(source, n);
    forall k | 0 <= k < n ensures TracksAt(source, k) <==> ScansAgreeAt(source, k) {
      assert OwnScanQuoteFree(source, k);
      TracksAtExactly(source, k);
    }
  }

  // --- when the tracker follows ---

  /** A tame line that keeps its part of a string does not mislead the tracker. */
  lemma KeptLineTracks(g: Sig, raw: string, line: string, st: FormatState)
    requires g.q == Str && '\n' !in raw && Tame(raw) && Trim(line) == Trim(raw) && !st.inBlockComment
    requires LiteralPart(raw) <= FormatLine(line, st).0
    ensures Tracks(raw)
  {
    ContinuingPiece(g, raw, line, st);
    FlagBehindLine(line, st);
    TameLineEndsOutside(g, raw);
  }

  lemma TameLineEndsOutside(g: Sig, raw: string)
    requires g.q == Str && Tame(raw)
    ensures !InComment(LexFrom(Str, raw))
  {
    TameLineOpensNothing(g, raw);
    FeedAllFrom(g, raw, Layout);
  }

  /** Where a string goes on, a flag that is right is unset. */
  lemma FlagUnsetInString(source: string, k: nat)
    requires Closed(source) && k < |LineStarts(source)| && StartsInString(source, k) && FlagRight(source, k)
    ensures !StateAt(source, k).inBlockComment
  {
    StartStates(source, k);
  }

  lemma FlagOfMirrored(source: string, k: nat)
    requires Closed(source) && k < |LineStarts(source)| && MirroredAt(source, k)
    ensures FlagRight(source, k)
  {
    LineFacts(source, k);
  }

  lemma KeptTracksAt(source: string, k: nat)
    requires Closed(source) && k < |LineStarts(source)| && MirroredAt(source, k)
    requires TameAt(source, k) && LiteralKept(source, k)
    ensures TracksAt(source, k)
  {
    if StartsInString(source, k) {
      FlagOfMirrored(source, k);
      FlagUnsetInString(source, k);
      LineHasNoNewline(source, k);
      KeptLineTracks(Sig(Str, []), RawAt(source, k), Lines(source)[k], StateAt(source, k));
    }
  }

  /** While tame lines keep their parts of strings, the flag is right. */
  lemma FlagFollowsKeptStrings(source: string, k: nat)
    requires Closed(source) && k < |LineStarts(source)| && TameBefore(source, k) && KeptBefore(source, k)
    ensures FlagRightUpTo(source, k)
  {
    forall j | 0 <= j < k ensures TracksAt(source, j) {
      assert TameAt(source, j) && LiteralKept(source, j);
      MirroredUpTo(source, j);
      KeptTracksAt(source, j);
    }
    FlagRightExactly(source, k);
  }

  /** Where strings close on their line, the flag is right before every line. */
  lemma FlagIsScannerState(source: string, k: nat)
    requires Formattable(source) && k < |LineStarts(source)|
    ensures FlagRightUpTo(source, k)
  {
    FormattableIsKept(source);
    forall j | 0 <= j < k ensures TracksAt(source, j) {
      NoStringAcross(source, j);
    }
    FlagRightExactly(source, k);
  }
}
