/** The scanner against a lexer for C: the lexer knows escapes in string literals, and character literals.  The
    two see the same strings and comments exactly on files in which no escaped quote stands in a string literal,
    and neither a quote nor a comment marker in a character literal. */
module CommentLexer {
  import opened CommentAutomaton
  import opened CommentIdempotence
  import opened CommentFreeText

  datatype State = Code | InString | InChar | InLineComment | InBlockComment

  /** The level that stands for a state.  The scanner has none for character literals. */
  function LevelOf(st: State): Level
  {
    match st
    case Code => NO
    case InString => STRING
    case InChar => NO
    case InLineComment => ENDOFLINE
    case InBlockComment => MULTILINE
  }

  /** Two characters are consumed by a backslash in a literal. */
  predicate Escape(s: string)
  {
    |s| >= 2 && s[0] == '\\'
  }

  /** Runs the lexer over s.  Gives the state reached and, per character, whether it is part of a comment. */
  function Lex(st: State, s: string): (r: (State, seq<bool>))
    ensures |r.1| == |s|
    decreases |s|
  {
    if s == "" then (st, [])
    else match st
      case Code =>
        if Starts(s, "/*") then
          var r := Lex(InBlockComment, s[2..]);
          (r.0, [true, true] + r.1)
        else if Starts(s, "//") then
          var r := Lex(InLineComment, s[2..]);
          (r.0, [true, true] + r.1)
        else
          var r := Lex(if s[0] == '"' then InString else if s[0] == '\'' then InChar else Code, s[1..]);
          (r.0, [false] + r.1)
      case InString =>
        if Escape(s) then
          var r := Lex(InString, s[2..]);
          (r.0, [false, false] + r.1)
        else
          var r := Lex(if s[0] == '"' then Code else InString, s[1..]);
          (r.0, [false] + r.1)
      case InChar =>
        if Escape(s) then
          var r := Lex(InChar, s[2..]);
          (r.0, [false, false] + r.1)
        else
          var r := Lex(if s[0] == '\'' then Code else InChar, s[1..]);
          (r.0, [false] + r.1)
      case InLineComment =>
        var r := Lex(InLineComment, s[1..]);
        (r.0, [true] + r.1)
      case InBlockComment =>
        if Starts(s, "*/") then
          var r := Lex(Code, s[2..]);
          (r.0, [true, true] + r.1)
        else
          var r := Lex(InBlockComment, s[1..]);
          (r.0, [true] + r.1)
  }

  /** The level of the scanner at every character and at the end. */
  function Track(level: Level, s: string): (t: seq<Level>)
    ensures |t| == |s| + 1 && t[0] == level
    decreases |s|
  {
    if s == "" then [level]
    else match level
      case NO =>
        if Starts(s, "/*") then [NO, MULTILINE] + Track(MULTILINE, s[2..])
        else if Starts(s, "//") then [NO, ENDOFLINE] + Track(ENDOFLINE, s[2..])
        else [NO] + Track(if s[0] == '"' then STRING else NO, s[1..])
      case STRING => [STRING] + Track(if s[0] == '"' then NO else STRING, s[1..])
      case ENDOFLINE => [ENDOFLINE] + Track(ENDOFLINE, s[1..])
      case MULTILINE =>
        if Starts(s, "*/") then [MULTILINE, MULTILINE] + Track(NO, s[2..])
        else [MULTILINE] + Track(MULTILINE, s[1..])
  }

  /** The level that stands for the state of the lexer at every character and at the end. */
  function LexTrack(st: State, s: string): (t: seq<Level>)
    ensures |t| == |s| + 1 && t[0] == LevelOf(st)
    decreases |s|
  {
    if s == "" then [LevelOf(st)]
    else match st
      case Code =>
        if Starts(s, "/*") then [NO, MULTILINE] + LexTrack(InBlockComment, s[2..])
        else if Starts(s, "//") then [NO, ENDOFLINE] + LexTrack(InLineComment, s[2..])
        else [NO] + LexTrack(if s[0] == '"' then InString else if s[0] == '\'' then InChar else Code, s[1..])
      case InString =>
        if Escape(s) then [STRING, STRING] + LexTrack(InString, s[2..])
        else [STRING] + LexTrack(if s[0] == '"' then Code else InString, s[1..])
      case InChar =>
        if Escape(s) then [NO, NO] + LexTrack(InChar, s[2..])
        else [NO] + LexTrack(if s[0] == '\'' then Code else InChar, s[1..])
      case InLineComment => [ENDOFLINE] + LexTrack(InLineComment, s[1..])
      case InBlockComment =>
        if Starts(s, "*/") then [MULTILINE, MULTILINE] + LexTrack(Code, s[2..])
        else [MULTILINE] + LexTrack(InBlockComment, s[1..])
  }

  /** What changes the level of the scanner in code. */
  predicate Marker(s: string)
  {
    s != "" && (s[0] == '"' || Starts(s, "/*") || Starts(s, "//"))
  }

  /** The lexer meets an escaped quote in a string literal, or a quote or a comment marker in a character literal. */
  predicate Misread(st: State, s: string)
    decreases |s|
  {
    s != ""
    && match st
       case Code =>
         if Starts(s, "/*") then Misread(InBlockComment, s[2..])
         else if Starts(s, "//") then Misread(InLineComment, s[2..])
         else Misread(if s[0] == '"' then InString else if s[0] == '\'' then InChar else Code, s[1..])
       case InString =>
         if Escape(s) then s[1] == '"' || Misread(InString, s[2..])
         else Misread(if s[0] == '"' then Code else InString, s[1..])
       case InChar =>
         Marker(s)
         || (if Escape(s) then Marker(s[1..]) || Misread(InChar, s[2..])
             else Misread(if s[0] == '\'' then Code else InChar, s[1..]))
       case InLineComment => Misread(InLineComment, s[1..])
       case InBlockComment => Misread(if Starts(s, "*/") then Code else InBlockComment,
                                      s[if Starts(s, "*/") then 2 else 1..])
  }

  lemma Cancel(a: seq<Level>, x: seq<Level>, y: seq<Level>)
    ensures a + x == a + y <==> x == y
  {
    if a + x == a + y {
      assert (a + x)[|a|..] == x && (a + y)[|a|..] == y;
    }
  }

  lemma InCodeTrack(s: string)
    requires s != "" && !Starts(s, "/*") && !Starts(s, "//")
    ensures Track(NO, s) == [NO] + Track(if s[0] == '"' then STRING else NO, s[1..])
  {
  }

  /** On a line, the scanner is at the levels of the lexer exactly when nothing is misread. */
  lemma {:induction false} SameTrackIff(st: State, s: string)
    ensures Track(LevelOf(st), s) == LexTrack(st, s) <==> !Misread(st, s)
    decreases |s|
  {
    if s != "" {
      match st
      case Code => CodeTrack(s);
      case InString => StringTrack(s);
      case InChar => CharTrack(s);
      case InLineComment =>
        SameTrackIff(InLineComment, s[1..]);
        Cancel([ENDOFLINE], Track(ENDOFLINE, s[1..]), LexTrack(InLineComment, s[1..]));
      case InBlockComment =>
        if Starts(s, "*/") {
          SameTrackIff(Code, s[2..]);
          Cancel([MULTILINE, MULTILINE], Track(NO, s[2..]), LexTrack(Code, s[2..]));
        } else {
          SameTrackIff(InBlockComment, s[1..]);
          Cancel([MULTILINE], Track(MULTILINE, s[1..]), LexTrack(InBlockComment, s[1..]));
        }
    }
  }

  lemma CodeTrack(s: string)
    requires s != ""
    ensures Track(NO, s) == LexTrack(Code, s) <==> !Misread(Code, s)
    decreases |s|, 0
  {
    if Starts(s, "/*") {
      SameTrackIff(InBlockComment, s[2..]);
      Cancel([NO, MULTILINE], Track(MULTILINE, s[2..]), LexTrack(InBlockComment, s[2..]));
    } else if Starts(s, "//") {
      SameTrackIff(InLineComment, s[2..]);
      Cancel([NO, ENDOFLINE], Track(ENDOFLINE, s[2..]), LexTrack(InLineComment, s[2..]));
    } else {
      var next := if s[0] == '"' then InString else if s[0] == '\'' then InChar else Code;
      SameTrackIff(next, s[1..]);
      Cancel([NO], Track(LevelOf(next), s[1..]), LexTrack(next, s[1..]));
    }
  }

  lemma StringTrack(s: string)
    requires s != ""
    ensures Track(STRING, s) == LexTrack(InString, s) <==> !Misread(InString, s)
    decreases |s|, 0
  {
    if Escape(s) {
      assert s[1..][1..] == s[2..];
      assert Track(STRING, s) == [STRING] + Track(STRING, s[1..]);
      if s[1] == '"' {
        assert Track(STRING, s)[2] == Track(NO, s[2..])[0];
        assert LexTrack(InString, s)[2] == LexTrack(InString, s[2..])[0];
      } else {
        SameTrackIff(InString, s[2..]);
        assert Track(STRING, s) == [STRING, STRING] + Track(STRING, s[2..]);
        Cancel([STRING, STRING], Track(STRING, s[2..]), LexTrack(InString, s[2..]));
      }
    } else {
      var next := if s[0] == '"' then Code else InString;
      SameTrackIff(next, s[1..]);
      Cancel([STRING], Track(LevelOf(next), s[1..]), LexTrack(next, s[1..]));
    }
  }

  /** At a marker the scanner leaves the level of code. */
  lemma MarkerTrack(s: string)
    requires Marker(s)
    ensures Track(NO, s)[1] != NO
  {
  }

  lemma StillInChar(s: string)
    requires s != ""
    ensures LexTrack(InChar, s)[1] == NO
  {
  }

  lemma CharTrack(s: string)
    requires s != ""
    ensures Track(NO, s) == LexTrack(InChar, s) <==> !Misread(InChar, s)
    decreases |s|, 0
  {
    if Marker(s) {
      MarkerTrack(s);
      StillInChar(s);
    } else if Escape(s) {
      assert s[1..][1..] == s[2..];
      InCodeTrack(s);
      if Marker(s[1..]) {
        MarkerTrack(s[1..]);
        assert Track(NO, s)[2] == Track(NO, s[1..])[1];
        assert LexTrack(InChar, s)[2] == LexTrack(InChar, s[2..])[0];
      } else {
        InCodeTrack(s[1..]);
        SameTrackIff(InChar, s[2..]);
        assert Track(NO, s) == [NO, NO] + Track(NO, s[2..]);
        Cancel([NO, NO], Track(NO, s[2..]), LexTrack(InChar, s[2..]));
      }
    } else {
      InCodeTrack(s);
      var next := if s[0] == '\'' then Code else InChar;
      SameTrackIff(next, s[1..]);
      Cancel([NO], Track(NO, s[1..]), LexTrack(next, s[1..]));
    }
  }

  /** Where nothing is misread, the scanner marks the comments the lexer marks, and ends at its level. */
  lemma {:induction false} SameMarks(st: State, s: string)
    requires !Misread(st, s)
    ensures Scan(LevelOf(st), s) == (LevelOf(Lex(st, s).0), Lex(st, s).1)
    decreases |s|
  {
    if s != "" {
      match st
      case Code =>
        if Starts(s, "/*") {
          SameMarks(InBlockComment, s[2..]);
        } else if Starts(s, "//") {
          SameMarks(InLineComment, s[2..]);
        } else {
          SameMarks(if s[0] == '"' then InString else if s[0] == '\'' then InChar else Code, s[1..]);
        }
      case InString =>
        if Escape(s) {
          SameMarks(InString, s[2..]);
          ScanTwo(STRING, s);
        } else {
          SameMarks(if s[0] == '"' then Code else InString, s[1..]);
        }
      case InChar =>
        if Escape(s) {
          SameMarks(InChar, s[2..]);
          ScanTwo(NO, s);
        } else {
          SameMarks(if s[0] == '\'' then Code else InChar, s[1..]);
        }
      case InLineComment => SameMarks(InLineComment, s[1..]);
      case InBlockComment =>
        if Starts(s, "*/") {
          SameMarks(Code, s[2..]);
        } else {
          SameMarks(InBlockComment, s[1..]);
        }
    }
  }

  /** Two characters that mean nothing to the scanner. */
  lemma ScanTwo(level: Level, s: string)
    requires |s| >= 2 && (level == NO || level == STRING) && !Marker(s) && s[1] != '"'
    requires level == NO ==> !Marker(s[1..])
    ensures Scan(level, s) == (Scan(level, s[2..]).0, [false, false] + Scan(level, s[2..]).1)
  {
    assert s[1..][1..] == s[2..];
    assert Scan(level, s[1..]) == (Scan(level, s[2..]).0, [false] + Scan(level, s[2..]).1);
    assert [false] + ([false] + Scan(level, s[2..]).1) == [false, false] + Scan(level, s[2..]).1;
  }

  // ----- Whole files

  /** A line comment ends with its line; other states go on in the next line. */
  function NextState(st: State, s: string): State
  {
    if Lex(st, s).0 == InLineComment then Code else Lex(st, s).0
  }

  function Tracks(level: Level, input: string): seq<seq<Level>>
    decreases |input|
  {
    match GetLine(input)
    case NoLine => []
    case Got(text, rest) => [Track(level, UpToNul(text))] + Tracks(NextLevel(level, UpToNul(text)), rest)
  }

  function LexTracks(st: State, input: string): seq<seq<Level>>
    decreases |input|
  {
    match GetLine(input)
    case NoLine => []
    case Got(text, rest) => [LexTrack(st, UpToNul(text))] + LexTracks(NextState(st, UpToNul(text)), rest)
  }

  predicate MisreadFile(st: State, input: string)
    decreases |input|
  {
    match GetLine(input)
    case NoLine => false
    case Got(text, rest) => Misread(st, UpToNul(text)) || MisreadFile(NextState(st, UpToNul(text)), rest)
  }

  lemma ConsIff(a: seq<Level>, x: seq<seq<Level>>, b: seq<Level>, y: seq<seq<Level>>)
    ensures [a] + x == [b] + y <==> a == b && x == y
  {
    if [a] + x == [b] + y {
      assert ([a] + x)[0] == a && ([b] + y)[0] == b;
      assert ([a] + x)[1..] == x && ([b] + y)[1..] == y;
    }
  }

  /** Over a whole file, the scanner is at the levels of the lexer at every character exactly when nothing is
      misread. */
  lemma {:induction false} SameTracksIff(st: State, input: string)
    ensures Tracks(LevelOf(st), input) == LexTracks(st, input) <==> !MisreadFile(st, input)
    decreases |input|
  {
    hide Track, LexTrack, Misread, Scan, Lex, UpToNul, NextState, NextLevel;
    match GetLine(input)
    case NoLine =>
    case Got(text, rest) =>
      var s := UpToNul(text);
      SameTrackIff(st, s);
      ConsIff(Track(LevelOf(st), s), Tracks(NextLevel(LevelOf(st), s), rest),
              LexTrack(st, s), LexTracks(NextState(st, s), rest));
      if !Misread(st, s) {
        SameNext(st, s);
        SameTracksIff(NextState(st, s), rest);
      }
  }

  lemma SameNext(st: State, s: string)
    requires !Misread(st, s)
    ensures NextLevel(LevelOf(st), s) == LevelOf(NextState(st, s))
  {
    hide Scan, Lex, Misread;
    SameMarks(st, s);
  }

  /** What the lexer leaves of a file when its comments, outer blanks and empty lines are removed. */
  function LexStrip(st: State, input: string): string
    decreases |input|
  {
    match GetLine(input)
    case NoLine => ""
    case Got(text, rest) =>
      var s := UpToNul(text);
      Emit(Trim(Keep(s, Lex(st, s).1)), LexStrip(NextState(st, s), rest))
  }

  /** Exactly the comments of the language are removed from a file in which nothing is misread. */
  lemma {:induction false} StripsComments(st: State, input: string)
    requires !MisreadFile(st, input)
    ensures StripFrom(LevelOf(st), input) == LexStrip(st, input)
    decreases |input|
  {
    hide Scan, Lex, Misread, UpToNul, Keep, Trim, Emit;
    match GetLine(input)
    case NoLine =>
    case Got(text, rest) =>
      SameMarks(st, UpToNul(text));
      StripsComments(NextState(st, UpToNul(text)), rest);
  }

  // ----- A file that is misread

  lemma ScanOther(level: Level, c: char, t: string)
    requires (level == NO && c != '/') || level == STRING
    ensures var r := Scan(if c == '"' then (if level == NO then STRING else NO) else level, t);
      Scan(level, [c] + t) == (r.0, [false] + r.1)
  {
    assert ([c] + t)[1..] == t;
    StartsTwo([c] + t, '/', '*');
    StartsTwo([c] + t, '/', '/');
  }

  lemma ScanLineComment(t: string)
    requires |t| == 1
    ensures Scan(NO, "//" + t) == (ENDOFLINE, [true, true, true])
  {
    var s := "//" + t;
    StartsTwo(s, '/', '*');
    StartsTwo(s, '/', '/');
    assert s[2..] == t && t[1..] == "";
    assert Scan(ENDOFLINE, "") == (ENDOFLINE, []);
    assert [true] + [] == [true];
    assert Scan(ENDOFLINE, t) == (ENDOFLINE, [true]);
    assert [true, true] + [true] == [true, true, true];
  }

  lemma ScanEscaped(tail: string, marks: seq<bool>)
    requires Scan(NO, tail) == (ENDOFLINE, marks)
    ensures Scan(NO, ['"'] + (['\\'] + (['"'] + tail))) == (ENDOFLINE, [false] + ([false] + ([false] + marks)))
  {
    hide Scan;
    ScanOther(STRING, '"', tail);
    ScanOther(STRING, '\\', ['"'] + tail);
    ScanOther(NO, '"', ['\\'] + (['"'] + tail));
  }

  lemma KeepEscaped(a: char, b: char, c: char, tail: string, marks: seq<bool>)
    requires |marks| == |tail| && Keep(tail, marks) == ""
    ensures Keep([a] + ([b] + ([c] + tail)), [false] + ([false] + ([false] + marks))) == [a, b, c]
  {
    hide Keep;
    KeepCons(a, [b] + ([c] + tail), false, [false] + ([false] + marks));
    KeepCons(b, [c] + tail, false, [false] + marks);
    KeepCons(c, tail, false, marks);
    assert [a] + ([b] + ([c] + "")) == [a, b, c];
  }

  /** The file that is nothing but the string literal of an escaped quote and two slashes. */
  const LITERAL := "\"\\\"//\"\n"

  /** It holds no comment, but loses the end of its literal. */
  lemma EscapedQuoteEndsString()
    ensures MisreadFile(Code, LITERAL)
    ensures LexStrip(Code, LITERAL) == LITERAL
    ensures Strip(LITERAL) == "\"\\\"\n"
  {
    hide Scan, Keep, StripFrom, Lex, LexStrip, Misread, MisreadFile;
    var tail := "//" + "\"";
    var line := ['"'] + (['\\'] + (['"'] + tail));
    assert line + "\n" == LITERAL;
    ScanLineComment("\"");
    KeepNothing(tail, [true, true, true]);
    ScanEscaped(tail, [true, true, true]);
    KeepEscaped('"', '\\', '"', tail, [true, true, true]);
    OneLine(line, ['"', '\\', '"']);
    LiteralMisread(line);
    LexLiteral(line);
    LexOneLine(line);
  }

  lemma LiteralMisread(line: string)
    requires |line| >= 3 && line[0] == '"' && line[1] == '\\' && line[2] == '"'
    ensures Misread(Code, line)
  {
    assert line[1..][0] == '\\' && line[1..][1] == '"';
    assert Misread(InString, line[1..]);
    StartsTwo(line, '/', '*');
    StartsTwo(line, '/', '/');
  }

  lemma {:induction false} LexString(s: string)
    requires forall i | 0 <= i < |s| :: s[i] != '\\' && (s[i] == '"' <==> i == |s| - 1)
    ensures Lex(InString, s).1 == Repeat(|s|, false)
  {
    if |s| > 1 {
      LexString(s[1..]);
      assert [false] + Repeat(|s| - 1, false) == Repeat(|s|, false);
    } else if |s| == 1 {
      assert s[1..] == "";
    }
  }

  lemma LexLiteral(line: string)
    requires line == ['"'] + (['\\'] + (['"'] + ("//" + "\"")))
    ensures Lex(Code, line).1 == Repeat(|line|, false)
  {
    hide Lex;
    LexString(line[3..]);
    LexEscape(line[1..]);
    LexQuote(line);
    assert line[1..][2..] == line[3..];
    assert [false] + ([false, false] + Repeat(|line| - 3, false)) == Repeat(|line|, false);
  }

  lemma LexEscape(s: string)
    requires Escape(s)
    ensures Lex(InString, s).1 == [false, false] + Lex(InString, s[2..]).1
  {
  }

  lemma LexQuote(s: string)
    requires s != "" && s[0] == '"'
    ensures Lex(Code, s).1 == [false] + Lex(InString, s[1..]).1
  {
    StartsTwo(s, '/', '*');
    StartsTwo(s, '/', '/');
  }

  lemma LexOneLine(line: string)
    requires 0 < |line| <= MAX_LINE && '\n' !in line && NUL !in line && line[0] != ' ' && line[|line| - 1] != ' '
    requires Lex(Code, line).1 == Repeat(|line|, false) && Misread(Code, line)
    ensures LexStrip(Code, line + "\n") == line + "\n" && MisreadFile(Code, line + "\n")
  {
    hide Lex, Keep, TrimLeft, TrimRight, Misread, GetLine, UpToNul, LineLength;
    UpToNulWhole(line);
    KeepClean(line);
    TrimPlain(line);
    OnlyLine(line);
    LexNothing(NextState(Code, line));
    assert line + "\n" + "" == line + "\n";
  }

  lemma OnlyLine(line: string)
    requires |line| <= MAX_LINE && '\n' !in line
    ensures GetLine(line + "\n") == Got(line, "") && GetLine("") == NoLine
  {
    var input := line + "\n";
    FirstLine(line, "");
    assert line + "\n" + "" == input;
    assert input[..|line|] == line && input[|line| + 1..] == "";
  }

  lemma LexNothing(st: State)
    ensures LexStrip(st, "") == ""
  {
  }

  lemma KeepNothing(s: string, marks: seq<bool>)
    requires |s| == 3 && marks == [true, true, true]
    ensures Keep(s, marks) == ""
  {
    hide Keep;
    KeepCons(s[2], "", true, []);
    KeepCons(s[1], [s[2]], true, [true]);
    KeepCons(s[0], [s[1], s[2]], true, [true, true]);
    assert s == [s[0]] + [s[1], s[2]] && [s[1], s[2]] == [s[1]] + [s[2]] && [s[2]] == [s[2]] + "";
    assert [true] == [true] + [] && [true, true] == [true] + [true] && marks == [true] + [true, true];
    KeepEmpty();
  }

  lemma KeepEmpty()
    ensures Keep("", []) == ""
  {
  }

  lemma OneLine(line: string, kept: string)
    requires 0 < |line| <= MAX_LINE && '\n' !in line && NUL !in line
    requires kept != "" && kept[0] != ' ' && kept[|kept| - 1] != ' ' && Keep(line, Scan(NO, line).1) == kept
    ensures Strip(line + "\n") == kept + "\n"
  {
    hide Scan, Keep, TrimLeft, TrimRight, GetLine, UpToNul;
    UpToNulWhole(line);
    TrimPlain(kept);
    OnlyLine(line);
    assert StripLine(NO, line).1 == kept;
    NothingRead(StripLine(NO, line).0, "");
    assert kept + "\n" + "" == kept + "\n";
  }
}
