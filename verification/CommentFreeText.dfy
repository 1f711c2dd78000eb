/** Which files come through unchanged, and how much of a file is read at all. */
module CommentFreeText {
  import opened CommentAutomaton
  import opened CommentIdempotence

  // ----- How much is read

  /** What is left of the input when reading stops. */
  function Unread(input: string): (u: string)
    ensures |u| <= |input| && u == input[|input| - |u|..]
    decreases |input|
  {
    match GetLine(input)
    case NoLine => input
    case Got(text, rest) => Unread(rest)
  }

  /** No piece without a newline is longer than the line buffer takes. */
  ghost predicate ShortLines(input: string)
  {
    forall i, j | 0 <= i <= j <= |input| && '\n' !in input[i..j] :: j - i <= 254
  }

  lemma InPiece(s: string, i: nat, n: nat, j: nat)
    requires i <= n < j <= |s|
    ensures s[n] in s[i..j]
  {
    assert s[i..j][n - i] == s[n];
  }

  lemma SlicesOfRest(s: string, n: nat, i: nat, j: nat)
    requires n <= i <= j <= |s|
    ensures s[i..j] == s[n..][i - n..j - n]
  {
  }

  lemma ShortRest(input: string, n: nat)
    requires n < |input| && n <= MAX_LINE && '\n' !in input[..n] && input[n] == '\n'
    ensures ShortLines(input) <==> ShortLines(input[n + 1..])
  {
    var rest := input[n + 1..];
    if ShortLines(input) {
      forall i, j | 0 <= i <= j <= |rest| && '\n' !in rest[i..j] ensures j - i <= MAX_LINE {
        assert rest[i..j] == input[n + 1 + i..n + 1 + j];
      }
    }
    if ShortLines(rest) {
      forall i, j | 0 <= i <= j <= |input| && '\n' !in input[i..j] ensures j - i <= MAX_LINE {
        if n < i {
          SlicesOfRest(input, n + 1, i, j);
          assert '\n' !in rest[i - (n + 1)..j - (n + 1)];
        } else if n < j {
          InPiece(input, i, n, j);
        }
      }
    }
  }

  lemma ShortOnly(input: string)
    requires '\n' !in input
    ensures ShortLines(input) <==> |input| <= MAX_LINE
  {
    assert input[0..|input|] == input;
  }

  lemma LongLine(input: string, n: nat)
    requires MAX_LINE < n <= |input| && '\n' !in input[..n]
    ensures !ShortLines(input)
  {
    assert input[0..n] == input[..n];
  }

  /** All lines are read exactly when none is longer than 254 characters. */
  lemma {:induction false} AllReadIff(input: string)
    ensures Unread(input) == "" <==> ShortLines(input)
    decreases |input|
  {
    hide ShortLines;
    var n := LineLength(input);
    if n > MAX_LINE {
      LongLine(input, n);
    } else if n == |input| {
      assert input[..n] == input;
      ShortOnly(input);
      LastLine(input);
    } else {
      AllReadIff(input[n + 1..]);
      ShortRest(input, n);
      assert GetLine(input) == Got(input[..n], input[n + 1..]);
    }
  }

  lemma LastLine(input: string)
    requires LineLength(input) == |input| <= MAX_LINE
    ensures Unread(input) == ""
  {
    assert Unread("") == "";
  }

  function ReadPart(input: string): string
  {
    input[..|input| - |Unread(input)|]
  }

  lemma FirstLineLength(line: string, tail: string)
    requires '\n' !in line && (tail == "" || tail[0] == '\n')
    ensures LineLength(line + tail) == |line|
  {
    hide LineLength;
    if tail == "" {
      assert line + tail == line;
      NoNewline(line);
    } else {
      FirstLine(line, tail[1..]);
      assert line + "\n" + tail[1..] == line + tail;
    }
  }

  lemma {:induction false} NoNewline(line: string)
    requires '\n' !in line
    ensures LineLength(line) == |line|
  {
    if line != "" {
      NoNewline(line[1..]);
    }
  }

  lemma ReadLine(text: string, part: string)
    requires '\n' !in text && |text| <= MAX_LINE
    ensures GetLine(text + ("\n" + part)) == Got(text, part)
  {
    var s := text + ("\n" + part);
    FirstLineLength(text, "\n" + part);
    assert s[..|text|] == text && s[|text| + 1..] == part;
  }

  lemma PartOfPieces(a: string, rest: string, u: nat)
    requires u <= |rest|
    ensures (a + rest)[..|a + rest| - u] == a + rest[..|rest| - u]
  {
  }

  /** Without its last u characters, a text still has its first line. */
  lemma SameEndedLine(input: string, text: string, rest: string, u: nat)
    requires '\n' !in text && |text| <= MAX_LINE && input == (text + "\n") + rest && u <= |rest|
    ensures GetLine(input[..|input| - u]) == Got(text, rest[..|rest| - u])
  {
    hide GetLine;
    var part := rest[..|rest| - u];
    PartOfPieces(text + "\n", rest, u);
    assert (text + "\n") + part == text + ("\n" + part);
    ReadLine(text, part);
  }

  lemma ReadPartIs(input: string)
    ensures |Unread(input)| <= |input| && ReadPart(input) == input[..|input| - |Unread(input)|]
  {
    hide Unread;
  }

  lemma Pieces(input: string)
    requires GetLine(input).Got? && LineLength(input) < |input|
    ensures var l := GetLine(input);
      '\n' !in l.text && |l.text| <= MAX_LINE && input == (l.text + "\n") + l.rest
  {
  }

  lemma WholeRest(input: string)
    requires GetLine(input).Got? && LineLength(input) == |input| && Unread("") == "" && Unread(input) == Unread("")
    ensures GetLine(input).rest == "" && ReadPart(input) == input && ReadPart("") == ""
  {
    hide Unread;
  }

  /** The part that is read has the same lines. */
  lemma SameLine(input: string)
    requires GetLine(input).Got?
    ensures GetLine(ReadPart(input)) == Got(GetLine(input).text, ReadPart(GetLine(input).rest))
  {
    hide *;
    UnreadStep(input);
    EmptyRest();
    LineLengthBound(input);
    if LineLength(input) < |input| {
      Pieces(input);
      var rest := GetLine(input).rest;
      ReadPartIs(input);
      ReadPartIs(rest);
      SameEndedLine(input, GetLine(input).text, rest, |Unread(rest)|);
    } else {
      NoRest(input);
      WholeRest(input);
    }
  }

  lemma LineLengthBound(input: string)
    ensures LineLength(input) <= |input|
  {
  }

  lemma NoRest(input: string)
    requires GetLine(input).Got? && LineLength(input) == |input|
    ensures GetLine(input).rest == ""
  {
  }

  lemma UnreadStep(input: string)
    requires GetLine(input).Got?
    ensures Unread(input) == Unread(GetLine(input).rest)
  {
  }

  lemma EmptyRest()
    ensures Unread("") == "" && ReadPart("") == ""
  {
  }

  /** What is not read has no effect: the first line that is too long ends the input. */
  lemma {:induction false} UnreadIsIgnored(level: Level, input: string)
    ensures StripFrom(level, input) == StripFrom(level, ReadPart(input))
    decreases |input|
  {
    hide StripLine, GetLine, ReadPart;
    if GetLine(input).Got? {
      UnreadIsIgnored(StripLine(level, GetLine(input).text).0, GetLine(input).rest);
      SameLine(input);
    } else {
      NothingRead(level, input);
    }
  }

  lemma NothingRead(level: Level, input: string)
    requires GetLine(input).NoLine?
    ensures StripFrom(level, input) == "" && StripFrom(level, ReadPart(input)) == ""
  {
    assert ReadPart(input) == "";
  }

  // ----- What comes through unchanged

  /** A line that is read whole, has no blanks at its ends, and no character of which belongs to a comment. */
  ghost predicate PlainLine(level: Level, line: string)
  {
    && 0 < |line| <= MAX_LINE && NUL !in line
    && line[0] != ' ' && line[|line| - 1] != ' '
    && Scan(level, line).1 == Repeat(|line|, false)
  }

  function NextLevel(level: Level, line: string): Level
  {
    if Scan(level, line).0 == ENDOFLINE then NO else Scan(level, line).0
  }

  /** Every line is plain and ended by a newline. */
  ghost predicate Untouched(level: Level, input: string)
    decreases |input|
  {
    input == ""
    || (var n := LineLength(input);
        && n < |input| && PlainLine(level, input[..n])
        && Untouched(NextLevel(level, input[..n]), input[n + 1..]))
  }

  lemma {:induction false} KeptWhole(s: string, marks: seq<bool>)
    requires |marks| == |s| && |Keep(s, marks)| == |s|
    ensures marks == Repeat(|s|, false)
  {
    if s != "" {
      if !marks[0] {
        KeptWhole(s[1..], marks[1..]);
        assert marks == [false] + marks[1..];
      }
    }
  }

  lemma TrimmedWhole(k: string)
    requires k != "" && |Trim(k)| == |k|
    ensures k[0] != ' ' && k[|k| - 1] != ' ' && Trim(k) == k
  {
    assert TrimRight(k) == k;
  }

  lemma TrimPlain(k: string)
    requires k != "" && k[0] != ' ' && k[|k| - 1] != ' '
    ensures Trim(k) == k
  {
  }

  /** A line is kept whole exactly when it is plain. */
  lemma KeptIffPlain(level: Level, line: string)
    requires 0 < |line| <= MAX_LINE
    ensures |StripLine(level, line).1| == |line| <==> PlainLine(level, line)
    ensures PlainLine(level, line) ==> StripLine(level, line) == (NextLevel(level, line), line)
  {
    hide Scan, TrimLeft, TrimRight;
    var s := UpToNul(line);
    var k := Keep(s, Scan(level, s).1);
    TrimFrom(k);
    if |StripLine(level, line).1| == |line| {
      assert s == line;
      KeptWhole(s, Scan(level, s).1);
      KeepClean(s);
      TrimmedWhole(k);
    }
    if PlainLine(level, line) {
      UpToNulWhole(line);
      KeepClean(line);
      TrimPlain(line);
    }
  }

  predicate Ended(s: string)
  {
    s == "" || s[|s| - 1] == '\n'
  }

  lemma {:induction false} OutputEnded(level: Level, input: string)
    ensures Ended(StripFrom(level, input))
    decreases |input|
  {
    hide StripLine;
    match GetLine(input)
    case NoLine =>
    case Got(text, rest) => OutputEnded(StripLine(level, text).0, rest);
  }

  lemma EndedLine(input: string)
    requires input != "" && Ended(input)
    ensures LineLength(input) < |input| && Ended(input[LineLength(input) + 1..])
  {
    InPiece(input, 0, |input| - 1, |input|);
    assert input[0..|input|] == input[..|input|];
  }

  lemma {:induction false} OutputFits(level: Level, input: string)
    requires Ended(input)
    ensures |StripFrom(level, input)| <= |input|
    decreases |input|
  {
    match GetLine(input)
    case NoLine =>
    case Got(text, rest) =>
      EndedLine(input);
      OutputFits(StripLine(level, text).0, rest);
      StrippedLineFits(level, text);
  }

  lemma SamePieces(a: string, b: string, c: string, d: string)
    requires |a| == |c| && a + "\n" + b == c + "\n" + d
    ensures a == c && b == d
  {
    var s := a + "\n" + b;
    assert s[..|a|] == a && s[|a| + 1..] == b;
    assert s == c + "\n" + d;
    assert s[..|c|] == c && s[|c| + 1..] == d;
  }

  lemma {:induction false} UnchangedIff(level: Level, input: string)
    ensures StripFrom(level, input) == input <==> Untouched(level, input)
    decreases |input|
  {
    hide Scan, StripLine, PlainLine, NextLevel;
    if input != "" {
      var n := LineLength(input);
      if StripFrom(level, input) == input {
        OutputEnded(level, input);
        EndedLine(input);
      }
      if n < |input| && n <= MAX_LINE {
        UnchangedLine(level, input, n);
      } else if n > MAX_LINE {
        TooLong(level, input);
      }
    }
  }

  lemma TooLong(level: Level, input: string)
    requires LineLength(input) > MAX_LINE
    ensures !Untouched(level, input)
  {
    hide Scan;
  }

  lemma UnchangedLine(level: Level, input: string, n: nat)
    requires n == LineLength(input) < |input| && n <= MAX_LINE
    ensures StripFrom(level, input) == input <==> Untouched(level, input)
    decreases |input|, 0
  {
    hide Scan, StripLine, PlainLine, NextLevel, StripFrom, Emit;
    var line, rest := input[..n], input[n + 1..];
    var r := StripLine(level, line);
    var tail := StripFrom(r.0, rest);
    assert input == line + "\n" + rest;
    EmitLine(level, input, n);
    UnchangedIff(r.0, rest);
    StrippedLineFits(level, line);
    if n > 0 {
      KeptIffPlain(level, line);
    } else {
      EmptyLine(level);
    }
    EmitIs(r.1, tail);
    if Emit(r.1, tail) == input {
      OutputEnded(level, input);
      EndedLine(input);
      OutputFits(r.0, rest);
      SamePieces(r.1, tail, line, rest);
    }
  }

  lemma EmitIs(kept: string, tail: string)
    ensures Emit(kept, tail) == if kept == "" then tail else kept + "\n" + tail
  {
  }

  lemma EmitLine(level: Level, input: string, n: nat)
    requires n == LineLength(input) < |input| && n <= MAX_LINE
    ensures var r := StripLine(level, input[..n]);
      StripFrom(level, input) == Emit(r.1, StripFrom(r.0, input[n + 1..]))
  {
    hide StripLine, Emit;
    assert GetLine(input) == Got(input[..n], input[n + 1..]);
  }

  lemma EmptyLine(level: Level)
    ensures !PlainLine(level, "")
  {
  }

  /** A file comes through unchanged exactly when every line of it is ended by a newline and neither empty nor
      longer than 254 characters, has no NUL, no blanks at its ends and no character that belongs to a comment. */
  lemma StripUnchangedIff(input: string)
    ensures Strip(input) == input <==> Untouched(NO, input)
  {
    UnchangedIff(NO, input);
  }

  lemma LineFrom(level: Level, text: string)
    ensures forall c | c in StripLine(level, text).1 :: c in text
  {
    hide Scan, Keep;
    var s := UpToNul(text);
    KeepFrom(s, Scan(level, s).1);
    TrimFrom(Keep(s, Scan(level, s).1));
  }

  lemma RestFrom(input: string)
    requires GetLine(input).Got?
    ensures forall c | c in GetLine(input).text || c in GetLine(input).rest :: c in input
  {
  }

  /** Every character of the output comes from the input, or ends a line. */
  lemma {:induction false} StrippedFrom(level: Level, input: string)
    ensures forall c | c in StripFrom(level, input) :: c in input || c == '\n'
    decreases |input|
  {
    hide StripLine, GetLine;
    if GetLine(input).Got? {
      var text, rest := GetLine(input).text, GetLine(input).rest;
      StrippedFrom(StripLine(level, text).0, rest);
      LineFrom(level, text);
      RestFrom(input);
    }
  }
}
