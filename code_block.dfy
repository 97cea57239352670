/** The animated code block: the configured code is split into lines,
    each drawn with its line number, and every character is coloured by
    a fixed rule. */
module CodeBlock {
  import opened Wrappers
  import opened Text
  import opened ConfigTypes

  /** The colour classes a character can get. */
  datatype CharColor = Yellow | Green | Purple | White | Blue

  /** `/[(){}[\]]/`: a bracket of any kind. */
  predicate IsBracket(c: char) {
    c == '(' || c == ')' || c == '{' || c == '}' || c == '[' || c == ']'
  }

  /** `/['"]/`: a quote. */
  predicate IsQuote(c: char) {
    c == '\'' || c == '"'
  }

  /** `/^function |const |let |var /`: the line starts with `function `
      or contains `const `, `let ` or `var ` anywhere. */
  predicate KeywordLine(line: string) {
    IsPrefix("function ", line) || Contains(line, "const ") || Contains(line, "let ") || Contains(line, "var ")
  }

  /** The colour of character `c` at position `idx` of `line`: brackets
      yellow, quotes green, the first eight characters of a keyword line
      purple, dots white, everything else blue; the earlier rule wins. */
  function CharClass(line: string, idx: int, c: char): (r: CharColor)
    ensures r == Yellow <==> IsBracket(c)
    ensures r == Green <==> !IsBracket(c) && IsQuote(c)
    ensures r == Purple <==> !IsBracket(c) && !IsQuote(c) && KeywordLine(line) && idx < 8
    ensures r == White <==> !IsBracket(c) && !IsQuote(c) && !(KeywordLine(line) && idx < 8) && c == '.'
  {
    if IsBracket(c) then Yellow
    else if IsQuote(c) then Green
    else if KeywordLine(line) && idx < 8 then Purple
    else if c == '.' then White
    else Blue
  }

  /** The colours of a line, one per character. */
  function LineColors(line: string): (r: seq<CharColor>)
    ensures |r| == |line|
    ensures forall i :: 0 <= i < |line| ==> r[i] == CharClass(line, i, line[i])
  {
    seq(|line|, i requires 0 <= i < |line| => CharClass(line, i, line[i]))
  }

  /** Purple marks at most the first eight characters, and only on a
      keyword line. */
  lemma PurpleOnlyAtStartOfKeywordLines(line: string)
    ensures forall i :: 0 <= i < |line| && LineColors(line)[i] == Purple ==> i < 8 && KeywordLine(line)
    ensures !KeywordLine(line) ==> Purple !in LineColors(line)
  {
  }

  /** The keyword may sit anywhere on the line: an indented `const`
      colours the indentation and the keyword, and so does any word that
      merely ends in `let`. */
  lemma KeywordAnywhere()
    ensures KeywordLine("  const x = 1;")
    ensures KeywordLine("outlet = 1;")
    ensures LineColors("  const x = 1;")[0] == Purple
  {
    assert OccursAt("  const x = 1;", "const ", 2);
    ContainsAt("  const x = 1;", "const ");
    assert OccursAt("outlet = 1;", "let ", 3);
    ContainsAt("outlet = 1;", "let ");
  }

  /** `config.codeEditor.code.split('\n')`. The section is read without a
      fallback, so a configuration without it is an error. */
  function LinesOf(c: Config): (r: Result<seq<string>, string>)
    ensures c.codeEditor.None? <==> r.Err?
    ensures r.Ok? ==> |r.value| >= 1 && Join(r.value, '\n') == c.codeEditor.value.code
  {
    if c.codeEditor.None? then Err("codeEditor is undefined")
    else
      JoinSplit(c.codeEditor.value.code, '\n');
      Ok(Split(c.codeEditor.value.code, '\n'))
  }

  /** The number drawn beside line `index`. */
  function LineNumber(index: nat): (n: nat)
    ensures n >= 1
  {
    index + 1
  }

  /** The line numbers of `k` lines are `1` to `k`, one apart. */
  lemma LineNumbersConsecutive(k: nat)
    ensures forall i :: 0 <= i < k ==> 1 <= LineNumber(i) <= k
    ensures forall i :: 0 < i < k ==> LineNumber(i) == LineNumber(i - 1) + 1
  {
  }

  /** The component's state: the hovered line, whether the lines animate
      in, and the lines. */
  class CodeBlockDemo {
    var hoveredLine: Option<nat>
    var isTyping: bool
    var codeLines: seq<string>

    /** The lines animate in from the start and never stop doing so: no
        handler clears the flag. */
    predicate Valid()
      reads this
    {
      isTyping
    }

    constructor ()
      ensures hoveredLine == None && isTyping && codeLines == []
      ensures Valid()
    {
      hoveredLine, isTyping, codeLines := None, true, [];
    }

    /** The effect on a change of the code: split it into lines and
        restart the animation; the hovered line is kept. */
    method CodeChanged(code: string)
      modifies this
      ensures codeLines == Split(code, '\n') && isTyping && hoveredLine == old(hoveredLine)
      ensures Join(codeLines, '\n') == code
      ensures Valid()
    {
      codeLines := Split(code, '\n');
      isTyping := true;
      JoinSplit(code, '\n');
    }

    /** The mouse enters line `index`: that line, and only that line, is
        highlighted. */
    method MouseEnter(index: nat)
      modifies this
      ensures hoveredLine == Some(index) && isTyping == old(isTyping) && codeLines == old(codeLines)
      ensures forall j :: Highlighted(j) <==> j == index
    {
      hoveredLine := Some(index);
    }

    /** The mouse leaves a line: no line is highlighted. */
    method MouseLeave()
      modifies this
      ensures hoveredLine == None && isTyping == old(isTyping) && codeLines == old(codeLines)
      ensures forall j :: !Highlighted(j)
    {
      hoveredLine := None;
    }

    /** Exactly the hovered line is highlighted. */
    function Highlighted(index: nat): bool
      reads this
    {
      hoveredLine == Some(index)
    }
  }
}
