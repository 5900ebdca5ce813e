/** The character scanner shared by the formatter and the linter (src/source_scan.rs). */
module SourceScan {
  datatype Region = Code | StringContent | CharContent | LineComment | BlockComment

  datatype ScanState = InCode | InString | InChar | InLine | InBlock

  type Tagged = seq<(char, Region)>

  function RegionOf(state: ScanState): Region {
    match state
    case InCode => Code
    case InString => StringContent
    case InChar => CharContent
    case InLine => LineComment
    case InBlock => BlockComment
  }

  // --- the scanner as an automaton that reads one character at a time ---

  /** `Slash` has seen a slash whose region depends on the next character, `Star` a star inside a block
      comment, and the escape states a backslash. */
  datatype Lex = Plain | Slash | Str | StrEscape | Chr | ChrEscape | Line | Block | Star

  function Next(q: Lex, c: char): Lex {
    match q
    case Plain => if c == '/' then Slash else if c == '"' then Str else if c == '\'' then Chr else Plain
    case Slash => if c == '/' then Line else if c == '*' then Block
                  else if c == '"' then Str else if c == '\'' then Chr else Plain
    case Str => if c == '\\' then StrEscape else if c == '"' then Plain else Str
    case StrEscape => Str
    case Chr => if c == '\\' then ChrEscape else if c == '\'' then Plain else Chr
    case ChrEscape => Chr
    case Line => if c == '\n' then Plain else Line
    case Block => if c == '*' then Star else Block
    case Star => if c == '/' then Plain else if c == '*' then Star else Block
  }

  /** What is known about the regions once `c` is read in state `q`; a slash in code is emitted one later. */
  function Emit(q: Lex, c: char): Tagged {
    match q
    case Plain => if c == '/' then [] else [(c, Code)]
    case Slash => if c == '/' then [('/', LineComment), (c, LineComment)]
                  else if c == '*' then [('/', BlockComment), (c, BlockComment)]
                  else [('/', Code), (c, Code)]
    case Str => [(c, if c == '"' then Code else StringContent)]
    case StrEscape => [(c, StringContent)]
    case Chr => [(c, if c == '\'' then Code else CharContent)]
    case ChrEscape => [(c, CharContent)]
    case Line => [(c, if c == '\n' then Code else LineComment)]
    case _ => [(c, BlockComment)]
  }

  function Pending(q: Lex): Tagged {
    if q == Slash then [('/', Code)] else []
  }

  /** The state after reading `s` from state `q`, and what has been emitted on the way. */
  function LexFrom(q: Lex, s: string): Lex {
    if s == "" then q else Next(LexFrom(q, s[..|s| - 1]), s[|s| - 1])
  }

  function EmittedFrom(q: Lex, s: string): Tagged {
    if s == "" then [] else EmittedFrom(q, s[..|s| - 1]) + Emit(LexFrom(q, s[..|s| - 1]), s[|s| - 1])
  }

  function LexState(s: string): Lex {
    LexFrom(Plain, s)
  }

  /** Every character of `s` with its region. */
  function Scanned(s: string): Tagged {
    EmittedFrom(Plain, s) + Pending(LexState(s))
  }

  lemma ReadOne(q: Lex, s: string, i: nat)
    requires i < |s|
    ensures LexFrom(q, s[..i + 1]) == Next(LexFrom(q, s[..i]), s[i])
    ensures EmittedFrom(q, s[..i + 1]) == EmittedFrom(q, s[..i]) + Emit(LexFrom(q, s[..i]), s[i])
  {
    assert s[..i + 1][..i] == s[..i];
  }

  lemma SlashIsLast(s: string)
    ensures LexState(s) == Slash ==> s != "" && s[|s| - 1] == '/'
  {
  }

  lemma {:induction false} EmittedChars(s: string)
    ensures |EmittedFrom(Plain, s)| == |s| - |Pending(LexState(s))|
    ensures forall k :: 0 <= k < |EmittedFrom(Plain, s)| ==> EmittedFrom(Plain, s)[k].0 == s[k]
  {
    if s != "" {
      EmittedChars(s[..|s| - 1]);
      SlashIsLast(s[..|s| - 1]);
    }
  }

  lemma ScannedLength(s: string)
    ensures |Scanned(s)| == |s|
  {
    EmittedChars(s);
  }

  lemma ScannedChars(s: string)
    ensures |Scanned(s)| == |s|
    ensures forall k :: 0 <= k < |s| ==> Scanned(s)[k].0 == s[k]
  {
    EmittedChars(s);
    SlashIsLast(s);
  }

  // --- the scanner of the source ---

  /** Where the scanner stands at the top of its loop, compared with the automaton. */
  ghost predicate Follows(chars: string, i: nat, state: ScanState, result: Tagged)
    requires i <= |chars|
  {
    && result == Scanned(chars[..i])
    && match LexState(chars[..i])
       case Plain => state == InCode
       case Slash => state == InCode && (i < |chars| ==> chars[i] != '/' && chars[i] != '*')
       case Str => state == InString
       case Chr => state == InChar
       case Line => state == InLine
       case Block => state == InBlock
       case Star => state == InBlock && (i < |chars| ==> chars[i] != '/')
       case _ => i == |chars|
  }

  lemma FollowsOne(chars: string, i: nat, state: ScanState, result: Tagged, state': ScanState, region: Region)
    requires i < |chars| && Follows(chars, i, state, result)
    requires match state
             case InCode =>
                 state' == (if chars[i] == '"' then InString else if chars[i] == '\'' then InChar else InCode)
                 && region == Code
                 && (chars[i] == '/' ==> (i + 1 < |chars| ==> chars[i + 1] != '/' && chars[i + 1] != '*'))
             case InString => state' == (if chars[i] == '"' then InCode else InString)
                 && region == (if chars[i] == '"' then Code else StringContent)
                 && (chars[i] == '\\' ==> i + 1 == |chars|)
             case InChar => state' == (if chars[i] == '\'' then InCode else InChar)
                 && region == (if chars[i] == '\'' then Code else CharContent)
                 && (chars[i] == '\\' ==> i + 1 == |chars|)
             case InLine => state' == (if chars[i] == '\n' then InCode else InLine)
                 && region == (if chars[i] == '\n' then Code else LineComment)
             case InBlock => (state' == InBlock && region == BlockComment
                 && (chars[i] == '*' ==> (i + 1 < |chars| ==> chars[i + 1] != '/')))
    ensures Follows(chars, i + 1, state', result + [(chars[i], region)])
  {
    ReadOne(Plain, chars, i);
  }

  lemma FollowsOpening(chars: string, i: nat, result: Tagged, state': ScanState, region: Region)
    requires i + 1 < |chars| && Follows(chars, i, InCode, result) && chars[i] == '/'
    requires || (chars[i + 1] == '/' && state' == InLine && region == LineComment)
             || (chars[i + 1] == '*' && state' == InBlock && region == BlockComment)
    ensures Follows(chars, i + 2, state', result + [(chars[i], region)] + [(chars[i + 1], region)])
  {
    ReadOne(Plain, chars, i);
    ReadOne(Plain, chars, i + 1);
  }

  lemma FollowsEscape(chars: string, i: nat, state: ScanState, result: Tagged)
    requires i + 1 < |chars| && Follows(chars, i, state, result) && chars[i] == '\\'
    requires state == InString || state == InChar
    ensures Follows(chars, i + 2, state, result + [(chars[i], RegionOf(state))] + [(chars[i + 1], RegionOf(state))])
  {
    ReadOne(Plain, chars, i);
    ReadOne(Plain, chars, i + 1);
  }

  lemma FollowsClosing(chars: string, i: nat, result: Tagged)
    requires i + 1 < |chars| && Follows(chars, i, InBlock, result) && chars[i] == '*' && chars[i + 1] == '/'
    ensures Follows(chars, i + 2, InCode, result + [(chars[i], BlockComment)] + [(chars[i + 1], BlockComment)])
  {
    ReadOne(Plain, chars, i);
    ReadOne(Plain, chars, i + 1);
  }

  method Scan(chars: string) returns (result: Tagged)
    ensures result == Scanned(chars)
  {
    result := [];
    var state := InCode;
    var i := 0;
    while i < |chars|
      invariant i <= |chars|
      invariant Follows(chars, i, state, result)
    {
      var ch := chars[i];
      var before, was := state, result;
      var hasNext := i + 1 < |chars|;
      if ch == '\n' {
        if state == InLine {
          state := InCode;
        }
        result := result + [(ch, RegionOf(state))];
        FollowsOne(chars, i, before, was, state, RegionOf(state));
        i := i + 1;
        continue;
      }
      match state
      case InCode =>
        if ch == '/' && hasNext && chars[i + 1] == '/' {
          state := InLine;
          result := result + [(ch, LineComment)] + [(chars[i + 1], LineComment)];
          FollowsOpening(chars, i, was, state, LineComment);
          i := i + 2;
          continue;
        }
        if ch == '/' && hasNext && chars[i + 1] == '*' {
          state := InBlock;
          result := result + [(ch, BlockComment)] + [(chars[i + 1], BlockComment)];
          FollowsOpening(chars, i, was, state, BlockComment);
          i := i + 2;
          continue;
        }
        if ch == '"' {
          state := InString;
        } else if ch == '\'' {
          state := InChar;
        }
        result := result + [(ch, Code)];
        FollowsOne(chars, i, before, was, state, Code);
        i := i + 1;
      case InString =>
        if ch == '\\' && hasNext {
          result := result + [(ch, StringContent)] + [(chars[i + 1], StringContent)];
          FollowsEscape(chars, i, before, was);
          i := i + 2;
          continue;
        }
        if ch == '"' {
          state := InCode;
          result := result + [(ch, Code)];
          FollowsOne(chars, i, before, was, state, Code);
          i := i + 1;
          continue;
        }
        result := result + [(ch, StringContent)];
        FollowsOne(chars, i, before, was, state, StringContent);
        i := i + 1;
      case InChar =>
        if ch == '\\' && hasNext {
          result := result + [(ch, CharContent)] + [(chars[i + 1], CharContent)];
          FollowsEscape(chars, i, before, was);
          i := i + 2;
          continue;
        }
        if ch == '\'' {
          state := InCode;
          result := result + [(ch, Code)];
          FollowsOne(chars, i, before, was, state, Code);
          i := i + 1;
          continue;
        }
        result := result + [(ch, CharContent)];
        FollowsOne(chars, i, before, was, state, CharContent);
        i := i + 1;
      case InLine =>
        result := result + [(ch, LineComment)];
        FollowsOne(chars, i, before, was, state, LineComment);
        i := i + 1;
      case InBlock =>
        if ch == '*' && hasNext && chars[i + 1] == '/' {
          state := InCode;
          result := result + [(ch, BlockComment)] + [(chars[i + 1], BlockComment)];
          FollowsClosing(chars, i, was);
          i := i + 2;
          continue;
        }
        result := result + [(ch, BlockComment)];
        FollowsOne(chars, i, before, was, state, BlockComment);
        i := i + 1;
    }
    assert chars[..i] == chars;
  }

  function Blanked(t: Tagged): string {
    seq(|t|, k requires 0 <= k < |t| => if t[k].1 == StringContent || t[k].1 == CharContent then ' ' else t[k].0)
  }

  /** String and character contents become spaces, everything else is kept, so positions do not move. */
  method StripStringContents(line: string) returns (r: string)
    ensures r == Blanked(Scanned(line)) && |r| == |line|
  {
    var scanned := Scan(line);
    ScannedLength(line);
    r := "";
    for k := 0 to |scanned|
      invariant r == Blanked(scanned)[..k]
    {
      var (ch, region) := scanned[k];
      match region
      case StringContent => r := r + [' '];
      case CharContent => r := r + [' '];
      case _ => r := r + [ch];
    }
  }
}
