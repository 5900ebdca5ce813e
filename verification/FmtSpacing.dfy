/** Spacing normalisation of one line (src/fmt.rs, `normalize_spacing`). */
module FmtSpacing {
  import opened Wrappers
  import opened SourceScan

  // --- the rewriter ---

  /** An emitted character; the flag says that it belongs to code, so that its spaces may be collapsed. */
  type Cell = (char, bool)

  const SPACE: Cell := (' ', true)

  /** The characters Rust's `char::is_whitespace` accepts. */
  predicate IsWhitespace(c: char) {
    var n := c as int;
    || 0x9 <= n <= 0xD || n == 0x20 || n == 0x85 || n == 0xA0 || n == 0x1680
    || 0x2000 <= n <= 0x200A || n == 0x2028 || n == 0x2029 || n == 0x202F || n == 0x205F || n == 0x3000
  }

  function TrimStart(s: string): string {
    if s != "" && IsWhitespace(s[0]) then TrimStart(s[1..]) else s
  }

  function TrimEnd(s: string): string {
    if s != "" && IsWhitespace(s[|s| - 1]) then TrimEnd(s[..|s| - 1]) else s
  }

  function Trim(s: string): string {
    TrimEnd(TrimStart(s))
  }

  /** The two-character operators the lexer reads as one token. */
  predicate IsOperator(a: char, b: char) {
    if b == '=' then a in ['=', '!', '<', '>', '+', '-', '*', '/', '&', '|', '^']
    else if b == '>' then a == '=' || a == '-' || a == '|'
    else a == b && (a == '*' || a == '&' || a == '|')
  }

  predicate MultiCharOperator(chars: string, i: nat)
    requires i < |chars|
  {
    i + 1 < |chars| && IsOperator(chars[i], chars[i + 1])
  }

  const NEEDS_NORMALIZING := ['{', '}', '(', ')', '[', ']', ',', ':', '-', '=', '+', '*', '<', '>', '|', '&']

  predicate Mentions(line: string, set0: seq<char>) {
    exists k :: 0 <= k < |line| && line[k] in set0
  }

  /** Whether character `i` follows another one that is neither a space nor in `tight`. */
  predicate SpaceBefore(chars: string, i: nat, tight: seq<char>)
    requires i < |chars|
  {
    i > 0 && chars[i - 1] != ' ' && chars[i - 1] !in tight
  }

  /** Whether character `i` exists and is neither a space nor in `tight`. */
  predicate SpaceAfter(chars: string, i: nat, tight: seq<char>) {
    i < |chars| && chars[i] != ' ' && chars[i] !in tight
  }

  function Spaced(yes: bool): seq<Cell> {
    if yes then [SPACE] else []
  }

  /** Drops the collapsible spaces at the end of the output. */
  function PopSpaces(out: seq<Cell>): seq<Cell> {
    if out != [] && out[|out| - 1] == SPACE then PopSpaces(out[..|out| - 1]) else out
  }

  const OPENERS := ['(', '[', '{']
  const CLOSERS := [')', ']', '}', ',', ';']

  /** Character `i` with optional spaces around it. */
  function Around(chars: string, i: nat, out: seq<Cell>, before: bool, after: bool): (seq<Cell>, nat)
    requires i < |chars|
  {
    (out + Spaced(before) + [(chars[i], true)] + Spaced(after), i + 1)
  }

  /** `::` stays glued; a single colon is followed by a space. */
  function RewriteColon(chars: string, i: nat, out: seq<Cell>): (seq<Cell>, nat)
    requires i < |chars|
  {
    if i + 1 < |chars| && chars[i + 1] == ':' then (out + [(chars[i], true)] + [(chars[i + 1], true)], i + 2)
    else Around(chars, i, out, false, SpaceAfter(chars, i + 1, [':']))
  }

  /** An opening bracket swallows the space behind it. */
  function RewriteBracket(chars: string, i: nat, out: seq<Cell>): (seq<Cell>, nat)
    requires i < |chars|
  {
    (out + [(chars[i], true)], if i + 1 < |chars| && chars[i + 1] == ' ' then i + 2 else i + 1)
  }

  /** The scanner never leaves a comment opener in code; the two comment arms are the source's defence. */
  function RewriteSlash(chars: string, i: nat, out: seq<Cell>): (seq<Cell>, nat)
    requires i < |chars|
  {
    if i + 1 < |chars| && chars[i + 1] == '/' then (out + Verbatim(chars[i..]), |chars|)
    else if i + 1 < |chars| && chars[i + 1] == '*' then (out + Verbatim(chars[i..i + 2]), i + 2)
    else Around(chars, i, out, SpaceBefore(chars, i, OPENERS), SpaceAfter(chars, i + 1, CLOSERS))
  }

  /** The arms for a single code character: what is emitted for it, and the next position. */
  function RewriteSingle(chars: string, i: nat, out: seq<Cell>): (seq<Cell>, nat)
    requires i < |chars|
  {
    var c := chars[i];
    if c == '{' then Around(chars, i, out, SpaceBefore(chars, i, ['(']), SpaceAfter(chars, i + 1, ['}']))
    else if c == '}' then Around(chars, i, out, SpaceBefore(chars, i, ['{']), false)
    else if c == ',' then Around(chars, i, PopSpaces(out), false, SpaceAfter(chars, i + 1, []))
    else if c == ':' then RewriteColon(chars, i, out)
    else if c == '=' then
      Around(chars, i, out, i == 0 || SpaceBefore(chars, i, ['<', '>', '!', '=']), SpaceAfter(chars, i + 1, []))
    else if c == '(' || c == '[' then RewriteBracket(chars, i, out)
    else if c == ')' || c == ']' then Around(chars, i, PopSpaces(out), false, false)
    else if c == '/' then RewriteSlash(chars, i, out)
    else if c == '+' then Around(chars, i, out, SpaceBefore(chars, i, OPENERS), SpaceAfter(chars, i + 1, CLOSERS))
    else Around(chars, i, out, false, false)
  }

  /** Outside code: copied, an escaped character together with its backslash. */
  function RewriteVerbatim(chars: string, i: nat, out: seq<Cell>): (seq<Cell>, nat)
    requires i < |chars|
  {
    if chars[i] == '\\' && i + 1 < |chars| then (out + [(chars[i], false)] + [(chars[i + 1], false)], i + 2)
    else (out + [(chars[i], false)], i + 1)
  }

  function RewriteOperator(chars: string, i: nat, out: seq<Cell>): (seq<Cell>, nat)
    requires i + 1 < |chars|
  {
    (out + Spaced(SpaceBefore(chars, i, OPENERS)) + [(chars[i], true)] + [(chars[i + 1], true)]
         + Spaced(SpaceAfter(chars, i + 2, CLOSERS)), i + 2)
  }

  /** One turn of the loop. */
  function Rewrite(chars: string, regions: Tagged, i: nat, out: seq<Cell>): (seq<Cell>, nat)
    requires i < |chars| == |regions|
  {
    if regions[i].1 != Code then RewriteVerbatim(chars, i, out)
    else if i + 1 < |chars| && regions[i + 1].1 == Code && MultiCharOperator(chars, i) then
      RewriteOperator(chars, i, out)
    else RewriteSingle(chars, i, out)
  }

  function Verbatim(s: string): seq<Cell> {
    seq(|s|, k requires 0 <= k < |s| => (s[k], false))
  }

  lemma RewriteAdvances(chars: string, regions: Tagged, i: nat, out: seq<Cell>)
    requires i < |chars| == |regions|
    ensures i < Rewrite(chars, regions, i, out).1 <= |chars|
  {
  }

  /** The loop of `normalize_spacing` from position `i` on. */
  function RewriteFrom(chars: string, regions: Tagged, i: nat, out: seq<Cell>): seq<Cell>
    requires |chars| == |regions|
    decreases |chars| - i
  {
    if i >= |chars| then out else
    RewriteAdvances(chars, regions, i, out);
    var (out', i') := Rewrite(chars, regions, i, out);
    RewriteFrom(chars, regions, i', out')
  }

  /** Of a run of spaces in code only the first is kept. */
  function Collapsed(out: seq<Cell>): string {
    if out == [] then "" else
    var k := |out| - 1;
    var before := Collapsed(out[..k]);
    if out[k] == SPACE && k > 0 && out[k - 1] == SPACE then before else before + [out[k].0]
  }

  /** The value of `normalize_spacing`. */
  function Normalized(line: string): string {
    if !Mentions(line, NEEDS_NORMALIZING) then line else
    ScannedChars(line);
    Trim(Collapsed(RewriteFrom(line, Scanned(line), 0, [])))
  }

  method NormalizeSpacing(line: string) returns (r: string)
    ensures r == Normalized(line)
  {
    if !Mentions(line, NEEDS_NORMALIZING) {
      return line;
    }
    var scanned := Scan(line);
    ScannedChars(line);
    var out: seq<Cell> := [];
    var i := 0;
    while i < |line|
      invariant RewriteFrom(line, scanned, 0, []) == RewriteFrom(line, scanned, i, out)
    {
      RewriteAdvances(line, scanned, i, out);
      var (out', i') := Rewrite(line, scanned, i, out);
      out, i := out', i';
    }
    var result := "";
    var prevCodeSpace := false;
    for k := 0 to |out|
      invariant result == Collapsed(out[..k])
      invariant prevCodeSpace <==> k > 0 && out[k - 1] == SPACE
    {
      assert out[..k + 1][..k] == out[..k];
      var (c, collapsible) := out[k];
      if c == ' ' {
        if collapsible {
          if prevCodeSpace {
            continue;
          }
          prevCodeSpace := true;
        } else {
          prevCodeSpace := false;
        }
      } else {
        prevCodeSpace := false;
      }
      result := result + [c];
    }
    assert out[..|out|] == out;
    r := Trim(result);
  }
}
