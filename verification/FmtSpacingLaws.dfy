/** Which spaces the spacing normalisation leaves (src/fmt.rs, `normalize_spacing`). */
module FmtSpacingLaws {
  import opened SourceScan
  import opened FmtSpacing
  import opened FmtRegions
  import opened FmtFile
  import opened FmtFileRegions

  // --- the result, a space at a time ---

  /** The text so far, without spaces at its end in code, and whether a space is due before what follows. */
  datatype Laid = Laid(text: string, due: bool)

  function Put(s: Laid, chars: string): Laid {
    Laid(s.text + (if s.due then " " else "") + chars, false)
  }

  function Due(s: Laid, yes: bool): Laid {
    Laid(s.text, s.due || yes)
  }

  /** The character at `i`, if there is one. */
  predicate Has(line: string, i: int, set0: string) {
    0 <= i < |line| && line[i] in set0
  }

  /** There is a character at `i`, and it is none of these. */
  predicate HasOther(line: string, i: int, set0: string) {
    0 <= i < |line| && line[i] !in set0
  }

  predicate CodeAt(line: string, i: nat) {
    i < |line| == |Scanned(line)| && Scanned(line)[i].1 == Code
  }

  /** The two-character operators. */
  const PAIRS := ["==", "!=", "<=", ">=", "+=", "-=", "*=", "/=", "&=", "|=", "^=", "=>", "->", "|>", "**", "&&", "||"]

  /** A space is due before the character: before a brace, a plus, a slash and an equals sign, unless what stands there
      holds it tight. */
  predicate WantsBefore(line: string, i: nat) {
    || (Has(line, i, "{") && HasOther(line, i - 1, " ("))
    || (Has(line, i, "}") && HasOther(line, i - 1, " {"))
    || (Has(line, i, "+/") && HasOther(line, i - 1, " ([{"))
    || (Has(line, i, "=") && (i == 0 || HasOther(line, i - 1, " <>!=")))
  }

  /** A space is due behind the character: behind an opening brace, a comma, a colon, a plus, a slash and an equals
      sign. */
  predicate WantsAfter(line: string, i: nat) {
    || (Has(line, i, "{") && HasOther(line, i + 1, " }"))
    || (Has(line, i, "=,") && HasOther(line, i + 1, " "))
    || (Has(line, i, ":") && HasOther(line, i + 1, " :"))
    || (Has(line, i, "+/") && HasOther(line, i + 1, " )]},;"))
  }

  /**
    * One step along a line. Text outside code is copied, an escape with its character. Spaces in code are not copied:
    * they make one due. Operators of two characters and a double colon stay together. A space is dropped before a comma
    * and a closing bracket, and one behind an opening bracket.
    */
  function Advance(line: string, i: nat, s: Laid): (Laid, nat)
    requires i < |line|
  {
    var c := line[i];
    if !CodeAt(line, i) then
      if c == '\\' && i + 1 < |line| then (Put(s, line[i..i + 2]), i + 2) else (Put(s, [c]), i + 1)
    else if CodeAt(line, i + 1) && line[i..i + 2] in PAIRS then
      (Due(Put(Due(s, HasOther(line, i - 1, " ([{")), line[i..i + 2]), HasOther(line, i + 2, " )]},;")), i + 2)
    else if c == ' ' then (Due(s, true), i + 1)
    else if c == ':' && Has(line, i + 1, ":") then (Put(s, "::"), i + 2)
    else if c in "([" then (Put(s, [c]), if Has(line, i + 1, " ") then i + 2 else i + 1)
    else if c in ",)]" then (Due(Put(s.(due := false), [c]), WantsAfter(line, i)), i + 1)
    else (Due(Put(Due(s, WantsBefore(line, i)), [c]), WantsAfter(line, i)), i + 1)
  }

  lemma AdvanceMoves(line: string, i: nat, s: Laid)
    requires i < |line|
    ensures i < Advance(line, i, s).1 <= |line|
  {
  }

  function Along(line: string, i: nat, s: Laid): Laid
    decreases |line| - i
  {
    if i >= |line| then s else
    AdvanceMoves(line, i, s);
    var (s', i') := Advance(line, i, s);
    Along(line, i', s')
  }

  // --- the emitted cells, a space at a time ---

  /** What some emitted cells come to. */
  function Seen(out: seq<Cell>): Laid {
    if out == [] then Laid("", false) else
    var before, last := Seen(out[..|out| - 1]), out[|out| - 1];
    if last == SPACE then Due(before, true) else Put(before, [last.0])
  }

  lemma SeenOneMore(out: seq<Cell>, x: Cell)
    ensures Seen(out + [x]) == if x == SPACE then Due(Seen(out), true) else Put(Seen(out), [x.0])
  {
    assert (out + [x])[..|out|] == out;
  }

  lemma SeenSpaced(out: seq<Cell>, yes: bool)
    ensures Seen(out + Spaced(yes)) == Due(Seen(out), yes)
  {
    if yes {
      SeenOneMore(out, SPACE);
    } else {
      assert out + [] == out;
    }
  }

  lemma {:induction false} SeenWithoutSpaces(out: seq<Cell>)
    ensures Seen(PopSpaces(out)) == Seen(out).(due := false)
  {
    if out != [] && out[|out| - 1] == SPACE {
      SeenWithoutSpaces(out[..|out| - 1]);
    }
  }

  lemma {:induction false} CollapsedIsSeen(out: seq<Cell>)
    ensures Collapsed(out) == Seen(out).text + (if Seen(out).due then " " else "")
    ensures Seen(out).due <==> out != [] && out[|out| - 1] == SPACE
  {
    if out != [] {
      var k := |out| - 1;
      CollapsedIsSeen(out[..k]);
      assert k > 0 ==> out[..k][k - 1] == out[k - 1];
    }
  }

  lemma SeenAround(line: string, i: nat, out: seq<Cell>, before: bool, after: bool)
    requires i < |line| && line[i] != ' '
    ensures Seen(Around(line, i, out, before, after).0) == Due(Put(Due(Seen(out), before), [line[i]]), after)
  {
    var a := out + Spaced(before);
    SeenSpaced(out, before);
    SeenOneMore(a, (line[i], true));
    SeenSpaced(a + [(line[i], true)], after);
  }

  lemma PutTwo(s: Laid, a: char, b: char)
    ensures Put(Put(s, [a]), [b]) == Put(s, [a, b])
  {
    assert [a] + [b] == [a, b];
  }

  lemma SeenPair(out: seq<Cell>, x: Cell, y: Cell)
    requires x != SPACE && y != SPACE
    ensures Seen(out + [x] + [y]) == Put(Seen(out), [x.0, y.0])
  {
    SeenOneMore(out, x);
    SeenOneMore(out + [x], y);
    PutTwo(Seen(out), x.0, y.0);
  }

  // --- one turn of the loop ---

  lemma OperatorIsPair(a: char, b: char)
    ensures IsOperator(a, b) <==> [a, b] in PAIRS
  {
    assert forall k :: 0 <= k < |PAIRS| ==> |PAIRS[k]| == 2;
    assert [a, b] in PAIRS <==> exists k :: 0 <= k < |PAIRS| && PAIRS[k][0] == a && PAIRS[k][1] == b by {
      if k :| 0 <= k < |PAIRS| && PAIRS[k][0] == a && PAIRS[k][1] == b {
        assert PAIRS[k] == [a, b];
      }
    }
  }

  lemma PairIsOperator(line: string, i: nat)
    requires i + 1 < |line|
    ensures MultiCharOperator(line, i) <==> line[i..i + 2] in PAIRS
  {
    OperatorIsPair(line[i], line[i + 1]);
    assert line[i..i + 2] == [line[i], line[i + 1]];
  }

  /** The arm agrees with the step. */
  ghost predicate StepsAlike(line: string, i: nat, out: seq<Cell>, step: (seq<Cell>, nat))
    requires i < |line|
  {
    Advance(line, i, Seen(out)) == (Seen(step.0), step.1)
  }

  lemma VerbatimSteps(line: string, i: nat, out: seq<Cell>)
    requires i < |line| && !CodeAt(line, i)
    ensures StepsAlike(line, i, out, RewriteVerbatim(line, i, out))
  {
    if line[i] == '\\' && i + 1 < |line| {
      SeenPair(out, (line[i], false), (line[i + 1], false));
      assert line[i..i + 2] == [line[i], line[i + 1]];
    } else {
      SeenOneMore(out, (line[i], false));
    }
  }

  lemma OperatorSteps(line: string, i: nat, out: seq<Cell>)
    requires CodeAt(line, i) && CodeAt(line, i + 1) && MultiCharOperator(line, i)
    ensures StepsAlike(line, i, out, RewriteOperator(line, i, out))
  {
    PairIsOperator(line, i);
    assert line[i..i + 2] == [line[i], line[i + 1]];
    var before, after := SpaceBefore(line, i, OPENERS), SpaceAfter(line, i + 2, CLOSERS);
    assert before == HasOther(line, i - 1, " ([{") && after == HasOther(line, i + 2, " )]},;");
    var a := out + Spaced(before);
    SeenSpaced(out, before);
    SeenPair(a, (line[i], true), (line[i + 1], true));
    SeenSpaced(a + [(line[i], true)] + [(line[i + 1], true)], after);
  }

  lemma SpaceSteps(line: string, i: nat, out: seq<Cell>)
    requires i < |line| && line[i] == ' '
    ensures Seen(RewriteSingle(line, i, out).0) == Due(Seen(out), true) && RewriteSingle(line, i, out).1 == i + 1
  {
    assert out + [] + [(line[i], true)] + [] == out + [SPACE];
    SeenOneMore(out, SPACE);
  }

  lemma ColonSteps(line: string, i: nat, out: seq<Cell>)
    requires i < |line| && line[i] == ':'
    ensures Seen(RewriteColon(line, i, out).0)
            == (if Has(line, i + 1, ":") then Put(Seen(out), "::")
                else Due(Put(Due(Seen(out), WantsBefore(line, i)), ":"), WantsAfter(line, i)))
    ensures RewriteColon(line, i, out).1 == if Has(line, i + 1, ":") then i + 2 else i + 1
  {
    if i + 1 < |line| && line[i + 1] == ':' {
      SeenPair(out, (':', true), (':', true));
      assert "::" == [':', ':'];
    } else {
      SeenAround(line, i, out, false, SpaceAfter(line, i + 1, [':']));
    }
  }

  lemma BracketSteps(line: string, i: nat, out: seq<Cell>)
    requires i < |line| && line[i] in "(["
    ensures Seen(RewriteBracket(line, i, out).0) == Put(Seen(out), [line[i]])
    ensures RewriteBracket(line, i, out).1 == if Has(line, i + 1, " ") then i + 2 else i + 1
  {
    SeenOneMore(out, (line[i], true));
  }

  lemma TightArmIs(line: string, i: nat, out: seq<Cell>)
    requires i < |line| && line[i] in ",)]"
    ensures RewriteSingle(line, i, out) == Around(line, i, PopSpaces(out), false, WantsAfter(line, i))
  {
    assert WantsAfter(line, i) <==> line[i] == ',' && SpaceAfter(line, i + 1, []);
  }

  lemma TightSteps(line: string, i: nat, out: seq<Cell>)
    requires i < |line| && line[i] in ",)]"
    ensures Seen(RewriteSingle(line, i, out).0) == Due(Put(Seen(out).(due := false), [line[i]]), WantsAfter(line, i))
    ensures RewriteSingle(line, i, out).1 == i + 1
  {
    TightArmIs(line, i, out);
    SeenWithoutSpaces(out);
    SeenAround(line, i, PopSpaces(out), false, WantsAfter(line, i));
  }

  lemma SingleArmIs(line: string, i: nat, out: seq<Cell>)
    requires i < |line| && line[i] !in " :([,)]"
    requires line[i] == '/' && i + 1 < |line| ==> line[i + 1] != '/' && line[i + 1] != '*'
    ensures RewriteSingle(line, i, out) == Around(line, i, out, WantsBefore(line, i), WantsAfter(line, i))
  {
  }

  lemma SingleSteps(line: string, i: nat, out: seq<Cell>)
    requires i < |line| && line[i] !in " :([,)]"
    requires line[i] == '/' && i + 1 < |line| ==> line[i + 1] != '/' && line[i + 1] != '*'
    ensures Seen(RewriteSingle(line, i, out).0)
            == Due(Put(Due(Seen(out), WantsBefore(line, i)), [line[i]]), WantsAfter(line, i))
    ensures RewriteSingle(line, i, out).1 == i + 1
  {
    SingleArmIs(line, i, out);
    SeenAround(line, i, out, WantsBefore(line, i), WantsAfter(line, i));
  }

  /** Every turn of the loop is a step. */
  lemma TurnsAreSteps(line: string, i: nat, out: seq<Cell>)
    requires i < |line| == |Scanned(line)|
    ensures StepsAlike(line, i, out, Rewrite(line, Scanned(line), i, out))
  {
    if !CodeAt(line, i) {
      VerbatimSteps(line, i, out);
    } else if CodeAt(line, i + 1) && MultiCharOperator(line, i) {
      OperatorSteps(line, i, out);
    } else {
      if i + 1 < |line| {
        PairIsOperator(line, i);
      }
      CodeSteps(line, i, out);
    }
  }

  lemma PunctuationSteps(line: string, i: nat, out: seq<Cell>)
    requires CodeAt(line, i) && !(CodeAt(line, i + 1) && line[i..i + 2] in PAIRS) && line[i] in ":([,)]"
    ensures StepsAlike(line, i, out, RewriteSingle(line, i, out))
  {
    if line[i] == ':' {
      ColonSteps(line, i, out);
    } else if line[i] in "([" {
      BracketSteps(line, i, out);
    } else {
      TightSteps(line, i, out);
    }
  }

  lemma PlainSteps(line: string, i: nat, out: seq<Cell>)
    requires CodeAt(line, i) && !(CodeAt(line, i + 1) && line[i..i + 2] in PAIRS) && line[i] !in ":([,)]"
    ensures StepsAlike(line, i, out, RewriteSingle(line, i, out))
  {
    if line[i] == ' ' {
      SpaceSteps(line, i, out);
    } else {
      if line[i] == '/' {
        SlashIsDivision(line, i);
      }
      SingleSteps(line, i, out);
    }
  }

  lemma CodeSteps(line: string, i: nat, out: seq<Cell>)
    requires CodeAt(line, i) && !(CodeAt(line, i + 1) && line[i..i + 2] in PAIRS)
    ensures StepsAlike(line, i, out, RewriteSingle(line, i, out))
  {
    if line[i] in ":([,)]" {
      PunctuationSteps(line, i, out);
    } else {
      PlainSteps(line, i, out);
    }
  }

  lemma {:induction false} LoopIsAlong(line: string, i: nat, out: seq<Cell>)
    requires i <= |line| == |Scanned(line)|
    ensures Seen(RewriteFrom(line, Scanned(line), i, out)) == Along(line, i, Seen(out))
    decreases |line| - i
  {
    if i < |line| {
      RewriteAdvances(line, Scanned(line), i, out);
      TurnsAreSteps(line, i, out);
      var (out', i') := Rewrite(line, Scanned(line), i, out);
      LoopIsAlong(line, i', out');
    }
  }

  // --- the whole line ---

  /** The normalised line is the line with its spaces in code placed one at a time, as they fall due; a line without
      any of the characters concerned is left as it is. */
  lemma SpacesAsTheyFallDue(line: string)
    requires line != "" && Trimmed(line) && '\n' !in line
    ensures Normalized(line)
            == if !Mentions(line, NEEDS_NORMALIZING) then line
               else TrimStart(Along(line, 0, Laid("", false)).text)
  {
    if Mentions(line, NEEDS_NORMALIZING) {
      ScannedChars(line);
      assert line[..0] == "";
      LoopKeeps(line, 0, []);
      var out := RewriteFrom(line, Scanned(line), 0, []);
      LoopIsAlong(line, 0, []);
      CollapsedIsSeen(out);
      CollapsedEnds(line, out);
      TrimOfCollapsed(Collapsed(out));
      StartOfCollapsed(Collapsed(out));
    }
  }

  /** On a line that is left as it is, nothing but a slash would have a space around it, and the slash gets none. */
  lemma LeftAloneButForSlashes(line: string, i: nat)
    requires !Mentions(line, NEEDS_NORMALIZING) && i < |line|
    ensures WantsBefore(line, i) || WantsAfter(line, i) ==> line[i] == '/'
    ensures i + 1 < |line| ==> line[i..i + 2] !in PAIRS
    ensures Normalized(line) == line
  {
    assert line[i] !in NEEDS_NORMALIZING;
    if i + 1 < |line| {
      assert line[i + 1] !in NEEDS_NORMALIZING;
      assert line[i..i + 2] == [line[i], line[i + 1]];
    }
  }

  lemma StartOfCollapsed(t: string)
    requires |t| > 0 && (!IsWhitespace(t[0]) || (|t| > 1 && !IsWhitespace(t[1])))
    ensures TrimStart(t) == if IsWhitespace(t[0]) then t[1..] else t
  {
  }

  // --- what this means for single characters ---

  /** A character that is read on its own, as code. */
  predicate Alone(line: string, i: nat) {
    CodeAt(line, i) && !(CodeAt(line, i + 1) && line[i..i + 2] in PAIRS)
  }

  /** No space comes before a comma or a closing bracket, whatever the line has there. */
  lemma TightBefore(line: string, i: nat, s: Laid)
    requires Alone(line, i) && line[i] in ",)]"
    ensures Advance(line, i, s).0.text == s.text + [line[i]]
    ensures Advance(line, i, s).0.due <==> line[i] == ',' && i + 1 < |line| && line[i + 1] != ' '
  {
  }

  /** A plus has a space on both sides, brackets and the ends of the line apart. */
  lemma PlusIsSpaced(line: string, i: nat, s: Laid)
    requires Alone(line, i) && line[i] == '+' && 0 < i < |line| - 1
    requires line[i - 1] !in " ([{" && line[i + 1] !in " )]},;"
    ensures Advance(line, i, s) == (Laid(s.text + " +", true), i + 1)
  {
    assert s.text + " " + ['+'] == s.text + " +";
  }

  /** One space behind an opening bracket goes, a second one stays. */
  lemma BracketTakesOneSpace(line: string, i: nat, s: Laid)
    requires Alone(line, i) && line[i] in "([" && i + 2 < |line| && line[i + 1] == ' '
    ensures var (s', i') := Advance(line, i, s);
            && !s'.due && i' == i + 2
            && (Alone(line, i + 2) && line[i + 2] == ' ' ==> Advance(line, i', s').0.due)
  {
  }

  ghost predicate IsTwoSpaces(s: string) {
    |s| == 4 && s[0] == '(' && s[1] == ' ' && s[2] == ' ' && s[3] == 'x'
  }

  lemma TwoSpacesScan(s: string)
    requires IsTwoSpaces(s)
    ensures forall k :: 0 <= k < 4 ==> CodeAt(s, k)
  {
    assert s[..0] == "";
    ReadOne(Plain, s, 0);
    ReadOne(Plain, s, 1);
    ReadOne(Plain, s, 2);
    ReadOne(Plain, s, 3);
    assert s[..4] == s;
  }

  lemma TwoSpacesAlong(s: string)
    requires IsTwoSpaces(s)
    ensures Along(s, 0, Laid("", false)) == Laid("( x", false)
  {
    TwoSpacesScan(s);
    assert forall k :: 0 <= k < |PAIRS| ==> PAIRS[k][0] != '(' && PAIRS[k][0] != ' ' && PAIRS[k][0] != 'x';
    assert s[0..2][0] == '(' && s[2..4][0] == ' ';
    assert "" + "" + ['('] == "(" && "(" + " " + ['x'] == "( x";
    assert Advance(s, 0, Laid("", false)) == (Laid("(", false), 2);
    assert Advance(s, 2, Laid("(", false)) == (Laid("(", true), 3);
    assert Advance(s, 3, Laid("(", true)) == (Laid("( x", false), 4);
    assert Along(s, 3, Laid("(", true)) == Laid("( x", false);
  }

  /** A bracket with two spaces behind it keeps one. */
  lemma BracketIsNotTight(s: string)
    requires s == "(  x"
    ensures Normalized(s) == "( x"
  {
    TwoSpacesAlong(s);
    assert s[0] in NEEDS_NORMALIZING;
    SpacesAsTheyFallDue(s);
  }
}
