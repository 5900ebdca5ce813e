/** Spacing normalisation changes nothing but spaces in code (src/fmt.rs, src/source_scan.rs). */
module FmtRegions {
  import opened SourceScan
  import opened FmtSpacing

  // --- what a scan leaves when some characters are disregarded ---

  type Filter = (char, Region) -> bool

  function Kept(t: Tagged, drop: Filter): Tagged {
    if t == [] then [] else
    var k := |t| - 1;
    Kept(t[..k], drop) + (if drop(t[k].0, t[k].1) then [] else [t[k]])
  }

  predicate CodeSpace(c: char, r: Region) {
    c == ' ' && r == Code
  }

  /** The scan without its spaces in code: what formatting a line must not change. */
  function Substance(s: string): Tagged {
    Kept(Scanned(s), CodeSpace)
  }

  lemma {:induction false} KeptConcat(a: Tagged, b: Tagged, drop: Filter)
    ensures Kept(a + b, drop) == Kept(a, drop) + Kept(b, drop)
  {
    if b == [] {
      assert a + b == a;
    } else {
      var k := |b| - 1;
      assert (a + b)[..|a + b| - 1] == a + b[..k];
      KeptConcat(a, b[..k], drop);
    }
  }

  // --- the automaton together with what it has kept ---

  datatype Sig = Sig(q: Lex, kept: Tagged)

  function Feed(g: Sig, c: char, drop: Filter): Sig {
    Sig(Next(g.q, c), g.kept + Kept(Emit(g.q, c), drop))
  }

  function FeedAll(g: Sig, s: string, drop: Filter): Sig {
    if s == "" then g else Feed(FeedAll(g, s[..|s| - 1], drop), s[|s| - 1], drop)
  }

  /** The signature once it is known that no comment opens at a pending slash. */
  function Settle(g: Sig): Sig {
    if g.q == Slash then Sig(Plain, g.kept + [('/', Code)]) else g
  }

  predicate CodeState(q: Lex) {
    q == Plain || q == Slash
  }

  const FRESH := Sig(Plain, [])

  lemma {:induction false} FeedAllIsScan(q: Lex, s: string, drop: Filter)
    ensures FeedAll(Sig(q, []), s, drop) == Sig(LexFrom(q, s), Kept(EmittedFrom(q, s), drop))
  {
    if s != "" {
      var t := s[..|s| - 1];
      FeedAllIsScan(q, t, drop);
      KeptConcat(EmittedFrom(q, t), Emit(LexFrom(q, t), s[|s| - 1]), drop);
    }
  }

  lemma SettledIsSubstance(s: string)
    ensures Settle(FeedAll(FRESH, s, CodeSpace)).kept == Substance(s)
  {
    FeedAllIsScan(Plain, s, CodeSpace);
    KeptConcat(EmittedFrom(Plain, s), Pending(LexState(s)), CodeSpace);
  }

  lemma FeedSettled(g: Sig, c: char, drop: Filter)
    requires !drop('/', Code)
    requires g.q == Slash ==> c != '/' && c != '*'
    ensures Feed(Settle(g), c, drop) == Feed(g, c, drop)
  {
    if g.q == Slash {
      assert Emit(Slash, c) == [('/', Code)] + Emit(Plain, c);
      KeptConcat([('/', Code)], Emit(Plain, c), drop);
      assert Kept([('/', Code)], drop) == [('/', Code)];
    }
  }

  lemma FeedSpace(g: Sig, drop: Filter)
    requires CodeState(g.q) && drop(' ', Code) && !drop('/', Code)
    ensures Feed(g, ' ', drop) == Settle(g)
  {
    FeedSettled(g, ' ', drop);
    assert Emit(Plain, ' ') == [(' ', Code)];
    assert Kept([(' ', Code)], drop) == [];
    assert Settle(g).kept + [] == Settle(g).kept;
  }

  lemma FeedOne(s: string, i: nat, drop: Filter)
    requires i < |s|
    ensures FeedAll(FRESH, s[..i + 1], drop) == Feed(FeedAll(FRESH, s[..i], drop), s[i], drop)
  {
    assert s[..i + 1][..i] == s[..i];
  }

  // --- the region of one character ---

  lemma {:induction false} EmittedPrefix(s: string, j: nat)
    requires j <= |s|
    ensures EmittedFrom(Plain, s[..j]) <= EmittedFrom(Plain, s)
    decreases |s|
  {
    if j < |s| {
      var t := s[..|s| - 1];
      EmittedPrefix(t, j);
      assert t[..j] == s[..j];
    } else {
      assert s[..j] == s;
    }
  }

  /** The region of character `k` depends on the state before it and, for a slash, on the next character. */
  function RegionIn(q: Lex, s: string, k: nat): Region
    requires k < |s|
  {
    if q == Plain && s[k] == '/' then
      if k + 1 < |s| && s[k + 1] == '/' then LineComment
      else if k + 1 < |s| && s[k + 1] == '*' then BlockComment
      else Code
    else
      var e := Emit(q, s[k]);
      e[|e| - 1].1
  }

  /** What has been emitted for a prefix stands at the front of the whole scan. */
  lemma PrefixTags(s: string, j: nat)
    requires j <= |s|
    ensures EmittedFrom(Plain, s[..j]) <= Scanned(s)
    ensures |EmittedFrom(Plain, s[..j])| == if LexState(s[..j]) == Slash then j - 1 else j
  {
    EmittedPrefix(s, j);
    EmittedChars(s[..j]);
  }

  lemma RegionAt(s: string, k: nat)
    requires k < |s| == |Scanned(s)|
    ensures Scanned(s)[k].1 == RegionIn(LexState(s[..k]), s, k)
  {
    if LexState(s[..k]) == Plain && s[k] == '/' {
      SlashRegion(s, k);
    } else {
      OtherRegion(s, k);
    }
  }

  lemma TagOfPrefix(s: string, k: nat, after: Tagged)
    requires k < |s| == |Scanned(s)| && after <= Scanned(s) && |after| == k + 1
    ensures Scanned(s)[k] == after[|after| - 1]
  {
  }

  lemma OtherRegion(s: string, k: nat)
    requires k < |s| == |Scanned(s)|
    requires !(LexState(s[..k]) == Plain && s[k] == '/')
    ensures Scanned(s)[k].1 == RegionIn(LexState(s[..k]), s, k)
  {
    var q := LexState(s[..k]);
    ReadOne(Plain, s, k);
    PrefixTags(s, k + 1);
    LastTag(q, s[k], EmittedFrom(Plain, s[..k]));
    TagOfPrefix(s, k, EmittedFrom(Plain, s[..k + 1]));
  }

  lemma LastTag(q: Lex, c: char, before: Tagged)
    requires !(q == Plain && c == '/')
    ensures var e := Emit(q, c); |e| > 0 && (before + e)[|before + e| - 1] == e[|e| - 1]
  {
  }

  lemma SlashRegion(s: string, k: nat)
    requires k < |s| == |Scanned(s)|
    requires LexState(s[..k]) == Plain && s[k] == '/'
    ensures Scanned(s)[k].1 == RegionIn(Plain, s, k)
  {
    ReadOne(Plain, s, k);
    PrefixTags(s, k + 1);
    var before := EmittedFrom(Plain, s[..k + 1]);
    if k + 1 < |s| {
      FirstTagAfterSlash(s, k, before);
    } else {
      assert s[..k + 1] == s;
    }
  }

  lemma FirstTagAfterSlash(s: string, k: nat, before: Tagged)
    requires k + 1 < |s| == |Scanned(s)|
    requires LexState(s[..k + 1]) == Slash && before == EmittedFrom(Plain, s[..k + 1]) && |before| == k
    ensures Scanned(s)[k] == Emit(Slash, s[k + 1])[0]
  {
    ReadOne(Plain, s, k + 1);
    PrefixTags(s, k + 2);
    var after := before + Emit(Slash, s[k + 1]);
    assert after <= Scanned(s);
    assert after[k] == Scanned(s)[k];
  }

  // --- cells ---

  function CellSig(out: seq<Cell>): Sig {
    if out == [] then FRESH else Feed(CellSig(out[..|out| - 1]), out[|out| - 1].0, CodeSpace)
  }

  /** Collapsible spaces stand in code. */
  ghost predicate Sound(out: seq<Cell>) {
    out == [] ||
    (Sound(out[..|out| - 1]) && (out[|out| - 1] == SPACE ==> CodeState(CellSig(out[..|out| - 1]).q)))
  }

  lemma Push(out: seq<Cell>, x: Cell)
    requires Sound(out)
    requires x == SPACE ==> CodeState(CellSig(out).q)
    ensures Sound(out + [x]) && CellSig(out + [x]) == Feed(CellSig(out), x.0, CodeSpace)
    ensures x == SPACE ==> CellSig(out + [x]) == Settle(CellSig(out))
  {
    assert (out + [x])[..|out|] == out;
    if x == SPACE {
      FeedSpace(CellSig(out), CodeSpace);
    }
  }

  lemma {:induction false} Pop(out: seq<Cell>)
    requires Sound(out)
    ensures Sound(PopSpaces(out))
    ensures Settle(CellSig(PopSpaces(out))) == Settle(CellSig(out))
  {
    if out != [] && out[|out| - 1] == SPACE {
      FeedSpace(CellSig(out[..|out| - 1]), CodeSpace);
      Pop(out[..|out| - 1]);
    }
  }

  lemma {:induction false} PopIsPrefix(out: seq<Cell>)
    ensures PopSpaces(out) <= out
    ensures forall k :: 0 <= k < |out| && out[k] != SPACE ==> k < |PopSpaces(out)|
  {
    if out != [] && out[|out| - 1] == SPACE {
      PopIsPrefix(out[..|out| - 1]);
    }
  }

  /** Collapsing keeps the signature. */
  lemma {:induction false} CollapseKeeps(out: seq<Cell>)
    requires Sound(out)
    ensures FeedAll(FRESH, Collapsed(out), CodeSpace) == CellSig(out)
  {
    if out != [] {
      var k := |out| - 1;
      CollapseKeeps(out[..k]);
      if out[k] == SPACE && k > 0 && out[k - 1] == SPACE {
        assert out[..k][..k - 1] == out[..k - 1];
        assert out[..k][k - 1] == SPACE;
        FeedSpace(CellSig(out[..k - 1]), CodeSpace);
        FeedSpace(CellSig(out[..k]), CodeSpace);
      } else {
        var before := Collapsed(out[..k]);
        assert (before + [out[k].0])[..|before|] == before;
      }
    }
  }

  // --- the loop invariant of the rewriter ---

  function Read(line: string, i: nat): Sig
    requires i <= |line|
  {
    FeedAll(FRESH, line[..i], CodeSpace)
  }

  predicate IsCode(line: string, i: nat) {
    i < |line| && i < |Scanned(line)| && Scanned(line)[i].1 == Code
  }

  /** The output so far is read like the input so far, up to a settled slash after a code character; the
      escape pairs of the rewriter are those of the scanner. */
  ghost predicate Aligned(line: string, i: nat, out: seq<Cell>)
    requires i <= |line|
  {
    && Sound(out)
    && (CellSig(out) == Read(line, i) || (CellSig(out) == Settle(Read(line, i)) && i > 0 && IsCode(line, i - 1)))
    && (i < |line| ==> !InPair(Read(line, i).q))
  }

  lemma ReadState(line: string, i: nat)
    requires i <= |line|
    ensures Read(line, i).q == LexState(line[..i])
  {
    FeedAllIsScan(Plain, line[..i], CodeSpace);
  }

  /** In code, the next character cannot turn a pending slash into a comment. */
  lemma CodeCharacter(line: string, i: nat)
    requires i < |line| && IsCode(line, i) && line[i] != '\n'
    ensures Read(line, i).q == Slash ==> line[i] != '/' && line[i] != '*'
    ensures line[i] != '"' && line[i] != '\'' ==> CodeState(Read(line, i).q) && CodeState(Read(line, i + 1).q)
    ensures Read(line, i).q == Plain && line[i] == '/' && i + 1 < |line| ==> line[i + 1] != '/' && line[i + 1] != '*'
    ensures !InPair(Read(line, i + 1).q)
  {
    ScannedLength(line);
    ReadState(line, i);
    RegionAt(line, i);
    FeedOne(line, i, CodeSpace);
  }

  lemma SlashComesFromPlain(q: Lex, c: char)
    requires Next(q, c) == Slash
    ensures q == Plain && c == '/'
  {
  }

  /** After a slash in code there is no second character of a comment opener. */
  lemma AfterCodeSlash(line: string, i: nat)
    requires 0 < i < |line| && IsCode(line, i - 1) && Read(line, i).q == Slash
    ensures line[i] != '/' && line[i] != '*'
  {
    ScannedLength(line);
    ReadState(line, i);
    var q := LexState(line[..i - 1]);
    ReadOne(Plain, line, i - 1);
    SlashComesFromPlain(q, line[i - 1]);
    RegionAt(line, i - 1);
  }

  /** Emitting a code character, perhaps with a space before it, on output that settles like the input. */
  lemma EmitCharacter(line: string, i: nat, base: seq<Cell>, before: bool)
    requires i < |line| && IsCode(line, i) && line[i] != '\n'
    requires before ==> line[i] != '"' && line[i] != '\''
    requires Sound(base) && Settle(CellSig(base)) == Settle(Read(line, i))
    requires CellSig(base).q == Slash ==> line[i] != '/' && line[i] != '*'
    ensures var out := base + Spaced(before) + [(line[i], true)];
            Sound(out) && CellSig(out) == Read(line, i + 1)
  {
    CodeCharacter(line, i);
    FeedOne(line, i, CodeSpace);
    FeedSettled(Read(line, i), line[i], CodeSpace);
    FeedSettled(CellSig(base), line[i], CodeSpace);
    if before {
      Push(base, SPACE);
      Push(base + [SPACE], (line[i], true));
    } else {
      assert base + Spaced(before) == base;
      Push(base, (line[i], true));
    }
  }

  /** The same with an optional space after the character. */
  lemma EmitCode(line: string, i: nat, base: seq<Cell>, before: bool, after: bool)
    requires i < |line| && IsCode(line, i) && line[i] != '\n'
    requires before || after ==> line[i] != '"' && line[i] != '\''
    requires Sound(base) && Settle(CellSig(base)) == Settle(Read(line, i))
    requires CellSig(base).q == Slash ==> line[i] != '/' && line[i] != '*'
    ensures Aligned(line, i + 1, base + Spaced(before) + [(line[i], true)] + Spaced(after))
  {
    EmitCharacter(line, i, base, before);
    CodeCharacter(line, i);
    var out := base + Spaced(before) + [(line[i], true)];
    if after {
      Push(out, SPACE);
    } else {
      assert out + Spaced(after) == out;
    }
  }

  lemma AlignedSettles(line: string, i: nat, out: seq<Cell>)
    requires i < |line| && Aligned(line, i, out) && IsCode(line, i) && line[i] != '\n'
    ensures Settle(CellSig(out)) == Settle(Read(line, i))
    ensures CellSig(out).q == Slash ==> line[i] != '/' && line[i] != '*'
  {
    CodeCharacter(line, i);
  }

  /** Emitting one or two characters verbatim keeps the output exactly in step. */
  lemma EmitVerbatim(line: string, i: nat, out: seq<Cell>, code: bool)
    requires i < |line| && Sound(out) && CellSig(out) == Read(line, i)
    requires (line[i], code) != SPACE
    ensures Sound(out + [(line[i], code)]) && CellSig(out + [(line[i], code)]) == Read(line, i + 1)
  {
    FeedOne(line, i, CodeSpace);
    Push(out, (line[i], code));
  }

  /** Outside code the output is exactly in step with the input. */
  lemma OutsideCodeExact(line: string, i: nat, out: seq<Cell>)
    requires i < |line| && Aligned(line, i, out) && !IsCode(line, i)
    ensures CellSig(out) == Read(line, i)
  {
    ScannedLength(line);
    ReadState(line, i);
    RegionAt(line, i);
    if CellSig(out) != Read(line, i) {
      AfterCodeSlash(line, i);
    }
  }

  predicate InPair(q: Lex) {
    q == StrEscape || q == ChrEscape
  }

  /** A step over one character, or over a backslash and the next character, does not end inside an escape pair. */
  lemma VerbatimPairs(line: string, i: nat)
    requires i < |line| && !InPair(Read(line, i).q)
    ensures line[i] != '\\' ==> !InPair(Read(line, i + 1).q)
    ensures line[i] == '\\' && i + 1 < |line| ==> !InPair(Read(line, i + 2).q)
  {
    FeedOne(line, i, CodeSpace);
    if i + 1 < |line| {
      FeedOne(line, i + 1, CodeSpace);
      if line[i] == '\\' {
        PairOfTwo(Read(line, i).q, line[i], line[i + 1]);
      }
    }
  }

  lemma PairOfTwo(q: Lex, a: char, b: char)
    requires !InPair(q) && a == '\\'
    ensures !InPair(Next(Next(q, a), b))
  {
  }

  // --- every arm keeps the invariant ---

  ghost predicate Stepped(line: string, step: (seq<Cell>, nat)) {
    step.1 <= |line| && Aligned(line, step.1, step.0)
  }

  lemma VerbatimArm(line: string, i: nat, out: seq<Cell>)
    requires i < |line| == |Scanned(line)| && '\n' !in line
    requires Aligned(line, i, out) && !IsCode(line, i)
    ensures Stepped(line, RewriteVerbatim(line, i, out))
  {
    OutsideCodeExact(line, i, out);
    VerbatimPairs(line, i);
    EmitVerbatim(line, i, out, false);
    if line[i] == '\\' && i + 1 < |line| {
      EmitVerbatim(line, i + 1, out + [(line[i], false)], false);
    }
  }

  lemma OperatorCharacters(line: string, i: nat)
    requires i + 1 < |line| && MultiCharOperator(line, i)
    ensures NoQuote(line[i]) && NoQuote(line[i + 1])
  {
  }

  predicate NoQuote(c: char) {
    c != '"' && c != '\''
  }

  /** A code character on output that is exactly in step, with an optional space behind it. */
  lemma EmitExact(line: string, i: nat, base: seq<Cell>, after: bool)
    requires i < |line| && IsCode(line, i) && line[i] != '\n' && NoQuote(line[i])
    requires Sound(base) && CellSig(base) == Read(line, i)
    ensures Aligned(line, i + 1, base + [(line[i], true)] + Spaced(after))
  {
    CodeCharacter(line, i);
    EmitCode(line, i, base, false, after);
    assert base + Spaced(false) == base;
  }

  lemma EmitFirst(line: string, i: nat, out: seq<Cell>, before: bool)
    requires i < |line| && Aligned(line, i, out) && IsCode(line, i) && line[i] != '\n' && NoQuote(line[i])
    ensures var first := out + Spaced(before) + [(line[i], true)];
            Sound(first) && CellSig(first) == Read(line, i + 1)
  {
    AlignedSettles(line, i, out);
    EmitCharacter(line, i, out, before);
  }

  /** Two code characters kept together, with optional spaces around them. */
  lemma OperatorLikeArm(line: string, i: nat, out: seq<Cell>, before: bool, after: bool)
    requires i + 1 < |line| == |Scanned(line)| && '\n' !in line
    requires Aligned(line, i, out) && IsCode(line, i) && IsCode(line, i + 1)
    requires NoQuote(line[i]) && NoQuote(line[i + 1])
    ensures Aligned(line, i + 2, out + Spaced(before) + [(line[i], true)] + [(line[i + 1], true)] + Spaced(after))
  {
    EmitFirst(line, i, out, before);
    EmitExact(line, i + 1, out + Spaced(before) + [(line[i], true)], after);
  }

  /** The arms that emit one character with spaces around it. */
  lemma SpacedArm(line: string, i: nat, out: seq<Cell>, before: bool, after: bool)
    requires i < |line| == |Scanned(line)| && '\n' !in line
    requires Aligned(line, i, out) && IsCode(line, i)
    requires before || after ==> line[i] != '"' && line[i] != '\''
    ensures Stepped(line, Around(line, i, out, before, after))
  {
    AlignedSettles(line, i, out);
    EmitCode(line, i, out, before, after);
  }

  /** The arms that first take back spaces. */
  lemma TightArm(line: string, i: nat, out: seq<Cell>, after: bool)
    requires i < |line| == |Scanned(line)| && '\n' !in line
    requires Aligned(line, i, out) && IsCode(line, i)
    requires line[i] == ',' || line[i] == ')' || line[i] == ']'
    ensures Stepped(line, Around(line, i, PopSpaces(out), false, after))
  {
    AlignedSettles(line, i, out);
    Pop(out);
    EmitCode(line, i, PopSpaces(out), false, after);
  }

  /** Behind an opening bracket or a colon in code, a space or a colon is in code too. */
  lemma NextIsCode(line: string, i: nat)
    requires i + 1 < |line| == |Scanned(line)| && IsCode(line, i)
    requires line[i] == '(' || line[i] == '[' || line[i] == ':'
    requires line[i + 1] == ' ' || line[i + 1] == ':'
    ensures IsCode(line, i + 1) && Read(line, i + 1).q == Plain
  {
    CodeCharacter(line, i);
    FeedOne(line, i, CodeSpace);
    ReadState(line, i + 1);
    RegionAt(line, i + 1);
  }

  lemma SwallowSpace(line: string, i: nat)
    requires i + 1 < |line| == |Scanned(line)| && IsCode(line, i)
    requires line[i] == '(' || line[i] == '['
    requires line[i + 1] == ' '
    ensures Read(line, i + 2) == Read(line, i + 1) && !InPair(Read(line, i + 1).q)
  {
    NextIsCode(line, i);
    FeedOne(line, i + 1, CodeSpace);
    FeedSpace(Read(line, i + 1), CodeSpace);
  }

  lemma BracketArm(line: string, i: nat, out: seq<Cell>)
    requires i < |line| == |Scanned(line)| && '\n' !in line
    requires Aligned(line, i, out) && IsCode(line, i) && (line[i] == '(' || line[i] == '[')
    ensures Stepped(line, RewriteBracket(line, i, out))
  {
    SpacedArm(line, i, out, false, false);
    AlignedSettles(line, i, out);
    EmitCharacter(line, i, out, false);
    assert out + Spaced(false) + [(line[i], true)] + Spaced(false) == out + [(line[i], true)];
    assert out + Spaced(false) == out;
    if i + 1 < |line| && line[i + 1] == ' ' {
      SwallowSpace(line, i);
    }
  }

  lemma ColonArm(line: string, i: nat, out: seq<Cell>)
    requires i < |line| == |Scanned(line)| && '\n' !in line
    requires Aligned(line, i, out) && IsCode(line, i) && line[i] == ':'
    ensures Stepped(line, RewriteColon(line, i, out))
  {
    if i + 1 < |line| && line[i + 1] == ':' {
      NextIsCode(line, i);
      OperatorLikeArm(line, i, out, false, false);
      assert out + Spaced(false) + [(line[i], true)] + [(line[i + 1], true)] + Spaced(false)
          == out + [(line[i], true)] + [(line[i + 1], true)];
    } else {
      SpacedArm(line, i, out, false, SpaceAfter(line, i + 1, [':']));
    }
  }

  /** The comment arms for a slash in code are never taken. */
  lemma SlashIsDivision(line: string, i: nat)
    requires i < |line| == |Scanned(line)| && IsCode(line, i) && line[i] == '/'
    ensures i + 1 < |line| ==> line[i + 1] != '/' && line[i + 1] != '*'
  {
    CodeCharacter(line, i);
  }

  /** The remaining arms emit one character with spaces around it. */
  lemma SpacedStep(line: string, i: nat, out: seq<Cell>) returns (before: bool, after: bool)
    requires i < |line| && line[i] !in [',', ':', '(', '[', ')', ']']
    requires line[i] == '/' && i + 1 < |line| ==> line[i + 1] != '/' && line[i + 1] != '*'
    ensures RewriteSingle(line, i, out) == Around(line, i, out, before, after)
    ensures after ==> i + 1 < |line|
    ensures before || after ==> NoQuote(line[i])
  {
    var c := line[i];
    before, after := false, false;
    if c == '{' {
      before, after := SpaceBefore(line, i, ['(']), SpaceAfter(line, i + 1, ['}']);
    } else if c == '}' {
      before := SpaceBefore(line, i, ['{']);
    } else if c == '=' {
      before, after := i == 0 || SpaceBefore(line, i, ['<', '>', '!', '=']), SpaceAfter(line, i + 1, []);
    } else if c == '+' || c == '/' {
      before, after := SpaceBefore(line, i, OPENERS), SpaceAfter(line, i + 1, CLOSERS);
    }
  }

  /** The arms that take back spaces before a comma or a closing bracket. */
  lemma TightStep(line: string, i: nat, out: seq<Cell>) returns (after: bool)
    requires i < |line| && line[i] in [',', ')', ']']
    ensures RewriteSingle(line, i, out) == Around(line, i, PopSpaces(out), false, after)
    ensures after ==> i + 1 < |line|
  {
    after := line[i] == ',' && SpaceAfter(line, i + 1, []);
  }

  /** Which arm a character takes. */
  lemma ArmOf(line: string, i: nat, out: seq<Cell>)
    requires i < |line|
    ensures line[i] == ':' ==> RewriteSingle(line, i, out) == RewriteColon(line, i, out)
    ensures line[i] in ['(', '['] ==> RewriteSingle(line, i, out) == RewriteBracket(line, i, out)
  {
  }

  lemma ColonSingle(line: string, i: nat, out: seq<Cell>)
    requires i < |line| == |Scanned(line)| && '\n' !in line
    requires Aligned(line, i, out) && IsCode(line, i) && line[i] == ':'
    ensures Stepped(line, RewriteSingle(line, i, out))
  {
    ArmOf(line, i, out);
    ColonArm(line, i, out);
  }

  lemma BracketSingle(line: string, i: nat, out: seq<Cell>)
    requires i < |line| == |Scanned(line)| && '\n' !in line
    requires Aligned(line, i, out) && IsCode(line, i) && line[i] in ['(', '[']
    ensures Stepped(line, RewriteSingle(line, i, out))
  {
    ArmOf(line, i, out);
    BracketArm(line, i, out);
  }

  lemma TightSingle(line: string, i: nat, out: seq<Cell>)
    requires i < |line| == |Scanned(line)| && '\n' !in line
    requires Aligned(line, i, out) && IsCode(line, i) && line[i] in [',', ')', ']']
    ensures Stepped(line, RewriteSingle(line, i, out))
  {
    var after := TightStep(line, i, out);
    TightArm(line, i, out, after);
  }

  lemma PlainArm(line: string, i: nat, out: seq<Cell>)
    requires i < |line| == |Scanned(line)| && '\n' !in line
    requires Aligned(line, i, out) && IsCode(line, i) && line[i] !in [',', ':', '(', '[', ')', ']']
    ensures Stepped(line, RewriteSingle(line, i, out))
  {
    if line[i] == '/' {
      SlashIsDivision(line, i);
    }
    var before, after := SpacedStep(line, i, out);
    SpacedArm(line, i, out, before, after);
  }

  lemma SingleArm(line: string, i: nat, out: seq<Cell>)
    requires i < |line| == |Scanned(line)| && '\n' !in line
    requires Aligned(line, i, out) && IsCode(line, i)
    ensures Stepped(line, RewriteSingle(line, i, out))
  {
    if line[i] == ':' {
      ColonSingle(line, i, out);
    } else if line[i] in ['(', '['] {
      BracketSingle(line, i, out);
    } else if line[i] in [',', ')', ']'] {
      TightSingle(line, i, out);
    } else {
      PlainArm(line, i, out);
    }
  }

  lemma RewriteKeepsAligned(line: string, i: nat, out: seq<Cell>)
    requires i < |line| == |Scanned(line)| && '\n' !in line
    requires Aligned(line, i, out)
    ensures Stepped(line, Rewrite(line, Scanned(line), i, out))
  {
    RewriteAdvances(line, Scanned(line), i, out);
    if !IsCode(line, i) {
      VerbatimArm(line, i, out);
    } else if i + 1 < |line| && IsCode(line, i + 1) && MultiCharOperator(line, i) {
      OperatorCharacters(line, i);
      OperatorLikeArm(line, i, out, SpaceBefore(line, i, OPENERS), SpaceAfter(line, i + 2, CLOSERS));
    } else {
      SingleArm(line, i, out);
    }
  }

  // --- the ends of the line, which the final trim touches ---

  ghost predicate Trimmed(line: string) {
    line != "" ==> !IsWhitespace(line[0]) && !IsWhitespace(line[|line| - 1])
  }

  /** The output starts with the first character of the line, at most one space before it. */
  ghost predicate Leads(line: string, out: seq<Cell>)
    requires line != ""
  {
    || (|out| > 0 && out[0].0 == line[0])
    || (|out| > 1 && out[0] == SPACE && out[1].0 == line[0])
  }

  ghost predicate Shaped(line: string, i: nat, out: seq<Cell>)
    requires line != "" && i <= |line|
  {
    && (i == 0 ==> out == [])
    && (i > 0 ==> Leads(line, out))
    && (i == |line| ==> out != [] && out[|out| - 1].0 == line[|line| - 1])
  }

  lemma LeadsGrows(line: string, out: seq<Cell>, more: seq<Cell>)
    requires line != "" && Leads(line, out)
    ensures Leads(line, out + more)
  {
  }

  lemma PopLeads(line: string, out: seq<Cell>)
    requires line != "" && line[0] != ' ' && Leads(line, out)
    ensures Leads(line, PopSpaces(out))
  {
    PopIsPrefix(out);
    assert out[0] == SPACE ==> out[1] != SPACE;
  }

  lemma AroundShaped(line: string, i: nat, base: seq<Cell>, before: bool, after: bool)
    requires i < |line|
    requires if i == 0 then base == [] else Leads(line, base)
    requires after ==> i + 1 < |line|
    ensures Shaped(line, i + 1, Around(line, i, base, before, after).0)
  {
    if i > 0 {
      LeadsGrows(line, base, Spaced(before) + [(line[i], true)] + Spaced(after));
      assert base + (Spaced(before) + [(line[i], true)] + Spaced(after)) == Around(line, i, base, before, after).0;
    }
  }

  lemma PairShaped(line: string, i: nat, base: seq<Cell>, x: Cell, y: Cell)
    requires i + 1 < |line| && x.0 == line[i] && y.0 == line[i + 1]
    requires if i == 0 then base == [] else Leads(line, base)
    ensures Shaped(line, i + 1, base + [x]) && Shaped(line, i + 2, base + [x] + [y])
  {
    if i > 0 {
      LeadsGrows(line, base, [x]);
    }
    LeadsGrows(line, base + [x], [y]);
  }

  lemma OneShaped(line: string, i: nat, base: seq<Cell>, x: Cell)
    requires i < |line| && x.0 == line[i]
    requires if i == 0 then base == [] else Leads(line, base)
    ensures Shaped(line, i + 1, base + [x])
  {
    if i > 0 {
      LeadsGrows(line, base, [x]);
    }
  }

  ghost predicate StepShaped(line: string, step: (seq<Cell>, nat)) {
    line != "" && step.1 <= |line| && Shaped(line, step.1, step.0)
  }

  lemma SingleShaped(line: string, i: nat, out: seq<Cell>)
    requires i < |line| == |Scanned(line)| && IsCode(line, i) && Trimmed(line)
    requires Shaped(line, i, out)
    ensures StepShaped(line, RewriteSingle(line, i, out))
  {
    var c := line[i];
    if i > 0 {
      PopLeads(line, out);
    }
    if c == ':' {
      if i + 1 < |line| && line[i + 1] == ':' {
        PairShaped(line, i, out, (':', true), (':', true));
      } else {
        AroundShaped(line, i, out, false, SpaceAfter(line, i + 1, [':']));
      }
    } else if c == '(' || c == '[' {
      OneShaped(line, i, out, (c, true));
    } else if c in [',', ')', ']'] {
      var after := TightStep(line, i, out);
      AroundShaped(line, i, PopSpaces(out), false, after);
    } else {
      if c == '/' {
        SlashIsDivision(line, i);
      }
      var before, after := SpacedStep(line, i, out);
      AroundShaped(line, i, out, before, after);
    }
  }

  lemma OperatorShaped(line: string, i: nat, out: seq<Cell>)
    requires i + 1 < |line| && Shaped(line, i, out)
    ensures Shaped(line, i + 2, RewriteOperator(line, i, out).0)
  {
    var before, after := SpaceBefore(line, i, OPENERS), SpaceAfter(line, i + 2, CLOSERS);
    AroundShaped(line, i, out, before, false);
    var first := out + Spaced(before) + [(line[i], true)];
    assert first + Spaced(false) == first;
    AroundShaped(line, i + 1, first, false, after);
    assert first + Spaced(false) == first;
  }

  lemma VerbatimShaped(line: string, i: nat, out: seq<Cell>)
    requires i < |line| && Shaped(line, i, out)
    ensures StepShaped(line, RewriteVerbatim(line, i, out))
  {
    if line[i] == '\\' && i + 1 < |line| {
      PairShaped(line, i, out, (line[i], false), (line[i + 1], false));
    } else {
      OneShaped(line, i, out, (line[i], false));
    }
  }

  lemma RewriteKeepsShaped(line: string, i: nat, out: seq<Cell>)
    requires i < |line| == |Scanned(line)| && '\n' !in line && Trimmed(line)
    requires Shaped(line, i, out)
    ensures StepShaped(line, Rewrite(line, Scanned(line), i, out))
  {
    if !IsCode(line, i) {
      VerbatimShaped(line, i, out);
    } else if i + 1 < |line| && IsCode(line, i + 1) && MultiCharOperator(line, i) {
      OperatorShaped(line, i, out);
    } else {
      SingleShaped(line, i, out);
    }
  }

  lemma {:induction false} LoopKeeps(line: string, i: nat, out: seq<Cell>)
    requires line != "" && i <= |line| == |Scanned(line)| && '\n' !in line && Trimmed(line)
    requires Aligned(line, i, out) && Shaped(line, i, out)
    ensures var end := RewriteFrom(line, Scanned(line), i, out);
            Aligned(line, |line|, end) && Shaped(line, |line|, end)
    decreases |line| - i
  {
    if i < |line| {
      RewriteAdvances(line, Scanned(line), i, out);
      RewriteKeepsAligned(line, i, out);
      RewriteKeepsShaped(line, i, out);
      var (out', i') := Rewrite(line, Scanned(line), i, out);
      LoopKeeps(line, i', out');
    }
  }

  // --- collapsing and trimming ---

  lemma {:induction false} CollapsedPrefix(out: seq<Cell>, k: nat)
    requires k <= |out|
    ensures Collapsed(out[..k]) <= Collapsed(out)
    decreases |out|
  {
    if k < |out| {
      CollapsedPrefix(out[..|out| - 1], k);
      assert out[..|out| - 1][..k] == out[..k];
    } else {
      assert out[..k] == out;
    }
  }

  /** Collapsed output starts and ends like the line, one leading space aside. */
  lemma CollapsedEnds(line: string, out: seq<Cell>)
    requires line != "" && Trimmed(line) && Shaped(line, |line|, out)
    ensures var t := Collapsed(out);
            && |t| > 0 && t[|t| - 1] == line[|line| - 1]
            && (t[0] == line[0] || (|t| > 1 && t[0] == ' ' && t[1] == line[0]))
  {
    CollapsedPrefix(out, 1);
    assert out[..1] == [out[0]] && Collapsed([out[0]]) == [out[0].0];
    if out[0].0 != line[0] {
      CollapsedPrefix(out, 2);
      assert out[..2][..1] == [out[0]];
      assert Collapsed(out[..2]) == [out[0].0] + [out[1].0];
    }
  }

  lemma TrimOfCollapsed(t: string)
    requires |t| > 0 && !IsWhitespace(t[|t| - 1])
    requires !IsWhitespace(t[0]) || (|t| > 1 && t[0] == ' ' && !IsWhitespace(t[1]))
    ensures Trim(t) == if IsWhitespace(t[0]) then t[1..] else t
  {
    var u := if IsWhitespace(t[0]) then t[1..] else t;
    assert TrimStart(u) == u && TrimStart(t) == u;
    assert u[|u| - 1] == t[|t| - 1];
    assert TrimEnd(u) == u;
  }

  lemma {:induction false} FeedConcat(g: Sig, a: string, b: string, drop: Filter)
    ensures FeedAll(g, a + b, drop) == FeedAll(FeedAll(g, a, drop), b, drop)
  {
    if b == "" {
      assert a + b == a;
    } else {
      var k := |b| - 1;
      assert (a + b)[..|a + b| - 1] == a + b[..k];
      FeedConcat(g, a, b[..k], drop);
    }
  }

  lemma LeadingSpaceIsNothing(t: string)
    requires t != "" && t[0] == ' '
    ensures FeedAll(FRESH, t[1..], CodeSpace) == FeedAll(FRESH, t, CodeSpace)
  {
    assert t == [' '] + t[1..];
    FeedConcat(FRESH, [' '], t[1..], CodeSpace);
    FeedSpace(FRESH, CodeSpace);
    assert [' '][..0] == "";
  }

  /** On a trimmed line normalisation changes nothing but spaces in code: scanning the result and the line
      and disregarding those spaces gives the same characters in the same regions, and leaves the scanner
      in the same state, a pending slash settled. */
  lemma NormalizationKeepsSubstance(line: string)
    requires Trimmed(line) && '\n' !in line
    ensures Substance(Normalized(line)) == Substance(line)
    ensures Settle(FeedAll(FRESH, Normalized(line), CodeSpace)) == Settle(FeedAll(FRESH, line, CodeSpace))
  {
    if Mentions(line, NEEDS_NORMALIZING) {
      ScannedChars(line);
      assert line[..0] == "";
      LoopKeeps(line, 0, []);
      var out := RewriteFrom(line, Scanned(line), 0, []);
      assert line[..|line|] == line;
      CollapseKeeps(out);
      CollapsedEnds(line, out);
      var t := Collapsed(out);
      TrimOfCollapsed(t);
      if IsWhitespace(t[0]) {
        LeadingSpaceIsNothing(t);
      }
    }
    SettledIsSubstance(line);
    SettledIsSubstance(Normalized(line));
  }
}
