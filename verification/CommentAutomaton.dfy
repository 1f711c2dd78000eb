/** What removing comments means: a character automaton with four states marks the characters of a
    line that belong to comments; the unmarked ones are kept, trimmed and ended by a newline. */
module CommentAutomaton {

  datatype Level = NO | STRING | ENDOFLINE | MULTILINE

  const NUL: char := '\0'
  const MAX_LINE := 254

  predicate Starts(s: string, marker: string)
  {
    marker <= s
  }

  function Repeat(n: nat, value: bool): (r: seq<bool>)
    ensures |r| == n && forall k | 0 <= k < n :: r[k] == value
  {
    seq(n, k => value)
  }

  /** Runs the automaton over s.  Gives the level reached and, per character, whether it is part of a
      comment.  There is no escape state: every quote toggles. */
  function Scan(level: Level, s: string): (r: (Level, seq<bool>))
    ensures |r.1| == |s|
    decreases |s|
  {
    if s == "" then (level, [])
    else match level
      case NO =>
        if Starts(s, "/*") then
          var r := Scan(MULTILINE, s[2..]);
          (r.0, [true, true] + r.1)
        else if Starts(s, "//") then
          var r := Scan(ENDOFLINE, s[2..]);
          (r.0, [true, true] + r.1)
        else
          var r := Scan(if s[0] == '"' then STRING else NO, s[1..]);
          (r.0, [false] + r.1)
      case STRING =>
        var r := Scan(if s[0] == '"' then NO else STRING, s[1..]);
        (r.0, [false] + r.1)
      case ENDOFLINE =>
        var r := Scan(ENDOFLINE, s[1..]);
        (r.0, [true] + r.1)
      case MULTILINE =>
        if Starts(s, "*/") then
          var r := Scan(NO, s[2..]);
          (r.0, [true, true] + r.1)
        else
          var r := Scan(MULTILINE, s[1..]);
          (r.0, [true] + r.1)
  }

  /** The characters that are not marked, in order. */
  function Keep(s: string, marks: seq<bool>): (kept: string)
    requires |marks| == |s|
    ensures |kept| <= |s|
  {
    if s == "" then ""
    else (if marks[0] then "" else [s[0]]) + Keep(s[1..], marks[1..])
  }

  lemma KeepCons(c: char, t: string, mark: bool, marks: seq<bool>)
    requires |marks| == |t|
    ensures Keep([c] + t, [mark] + marks) == (if mark then "" else [c]) + Keep(t, marks)
  {
    assert ([c] + t)[1..] == t && ([mark] + marks)[1..] == marks;
  }

  function TrimRight(s: string): (t: string)
    ensures t <= s && (t != "" ==> t[|t| - 1] != ' ')
    ensures forall k | |t| <= k < |s| :: s[k] == ' '
  {
    if s != "" && s[|s| - 1] == ' ' then TrimRight(s[..|s| - 1]) else s
  }

  function TrimLeft(s: string): (t: string)
    ensures |t| <= |s| && t == s[|s| - |t|..] && (t != "" ==> t[0] != ' ')
    ensures forall k | 0 <= k < |s| - |t| :: s[k] == ' '
  {
    if s != "" && s[0] == ' ' then TrimLeft(s[1..]) else s
  }

  function Trim(s: string): string
  {
    TrimLeft(TrimRight(s))
  }

  /** A buffer line is read as a C string: up to its first NUL. */
  function UpToNul(text: string): (s: string)
    ensures s <= text && NUL !in s
    ensures |s| < |text| ==> text[|s|] == NUL
  {
    if text == "" || text[0] == NUL then "" else [text[0]] + UpToNul(text[1..])
  }

  /** The text kept of one line, and the level at the start of the next line. */
  function StripLine(level: Level, text: string): (Level, string)
  {
    var s := UpToNul(text);
    var r := Scan(level, s);
    (if r.0 == ENDOFLINE then NO else r.0, Trim(Keep(s, r.1)))
  }

  datatype Line = NoLine | Got(text: string, rest: string)

  /** Length of the first line. */
  function LineLength(input: string): (n: nat)
    ensures n <= |input| && '\n' !in input[..n]
    ensures n < |input| ==> input[n] == '\n'
  {
    if input == "" || input[0] == '\n' then 0 else 1 + LineLength(input[1..])
  }

  /** Reading the next line fails at the end of the input, and at a line too long for the buffer. */
  function GetLine(input: string): (l: Line)
    ensures l.NoLine? <==> input == "" || LineLength(input) > MAX_LINE
    ensures l.Got? ==> |l.rest| < |input| && |l.text| <= MAX_LINE && '\n' !in l.text
    ensures l.Got? ==> (input == l.text + "\n" + l.rest || (input == l.text && l.rest == ""))
  {
    var n := LineLength(input);
    if input == "" || n > MAX_LINE then NoLine
    else Got(input[..n], if n < |input| then input[n + 1..] else "")
  }

  /** Useful text is ended by a newline; an empty line leaves nothing. */
  function Emit(kept: string, tail: string): string
  {
    (if kept == "" then "" else kept + "\n") + tail
  }

  function StripFrom(level: Level, input: string): (out: string)
    decreases |input|
  {
    match GetLine(input)
    case NoLine => ""
    case Got(text, rest) =>
      var (level', kept) := StripLine(level, text);
      Emit(kept, StripFrom(level', rest))
  }

  /** The whole of the input with its comments, outer blanks and empty lines removed. */
  function Strip(input: string): string
  {
    StripFrom(NO, input)
  }
}
