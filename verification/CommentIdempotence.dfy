/** Stripping comments twice is stripping them once: removing a comment never brings the two halves
    of a marker together, and never changes whether a kept character is inside a string. */
module CommentIdempotence {
  import opened CommentAutomaton

  /** The level of the same point of the text once comments are gone. */
  function Outside(level: Level): Level
  {
    if level == STRING then STRING else NO
  }

  /** No character of s is part of a comment, and the text ends at level `last`. */
  ghost predicate Clean(level: Level, s: string, last: Level)
  {
    Scan(level, s) == (last, Repeat(|s|, false))
  }

  lemma CleanPrepend(level: Level, c: char, t: string, last: Level)
    requires level == NO || level == STRING
    requires Clean(if c == '"' then (if level == NO then STRING else NO) else level, t, last)
    requires level == NO ==> !Starts([c] + t, "/*") && !Starts([c] + t, "//")
    ensures Clean(level, [c] + t, last)
  {
    assert ([c] + t)[1..] == t;
    assert [false] + Repeat(|t|, false) == Repeat(|t| + 1, false);
  }

  lemma StartsTwo(s: string, a: char, b: char)
    ensures Starts(s, [a, b]) <==> |s| >= 2 && s[0] == a && s[1] == b
  {
    if |s| >= 2 && s[0] == a && s[1] == b {
      assert s[..2] == [a, b];
    }
  }

  /** A kept slash is followed, in the kept text, by the character that followed it in the source. */
  lemma SlashKeepsNeighbour(s: string)
    requires s != "" && s[0] == '/' && !Starts(s, "/*") && !Starts(s, "//")
    ensures var k := Keep(s[1..], Scan(NO, s[1..]).1);
      !Starts([s[0]] + k, "/*") && !Starts([s[0]] + k, "//")
  {
    var t := s[1..];
    var k := Keep(t, Scan(NO, t).1);
    StartsTwo(s, '/', '*');
    StartsTwo(s, '/', '/');
    StartsTwo([s[0]] + k, '/', '*');
    StartsTwo([s[0]] + k, '/', '/');
    if t != "" {
      StartsTwo(t, '/', '*');
      StartsTwo(t, '/', '/');
      assert !Scan(NO, t).1[0];
      assert k[0] == t[0];
    }
  }

  lemma KeptPrependsNothing(s: string, c: char, k: string)
    requires c != '/'
    ensures !Starts([c] + k, "/*") && !Starts([c] + k, "//")
  {
    StartsTwo([c] + k, '/', '*');
    StartsTwo([c] + k, '/', '/');
  }

  /** The text kept of a line is clean, and leaves the same string state as the line did. */
  lemma {:induction false} KeptIsClean(level: Level, s: string)
    ensures Clean(Outside(level), Keep(s, Scan(level, s).1), Outside(Scan(level, s).0))
    decreases |s|
  {
    if s == "" {
    } else if level == NO && (Starts(s, "/*") || Starts(s, "//")) {
      var next := if Starts(s, "/*") then MULTILINE else ENDOFLINE;
      KeptIsClean(next, s[2..]);
      DropTwo(s, Scan(next, s[2..]).1);
    } else if level == MULTILINE && Starts(s, "*/") {
      KeptIsClean(NO, s[2..]);
      DropTwo(s, Scan(NO, s[2..]).1);
    } else if level == MULTILINE || level == ENDOFLINE {
      KeptIsClean(level, s[1..]);
      DropOne(s, Scan(level, s[1..]).1);
    } else {
      var next := if s[0] == '"' then (if level == NO then STRING else NO) else level;
      KeptIsClean(next, s[1..]);
      var k := Keep(s[1..], Scan(next, s[1..]).1);
      assert Scan(level, s).1[1..] == Scan(next, s[1..]).1;
      if s[0] != '/' {
        KeptPrependsNothing(s, s[0], k);
      } else if level == NO {
        SlashKeepsNeighbour(s);
      }
      CleanPrepend(level, s[0], k, Outside(Scan(next, s[1..]).0));
    }
  }

  lemma DropOne(s: string, marks: seq<bool>)
    requires |s| >= 1 && |marks| == |s| - 1
    ensures Keep(s, [true] + marks) == Keep(s[1..], marks)
  {
    assert ([true] + marks)[1..] == marks;
  }

  lemma DropTwo(s: string, marks: seq<bool>)
    requires |s| >= 2 && |marks| == |s| - 2
    ensures Keep(s, [true, true] + marks) == Keep(s[2..], marks)
  {
    assert ([true, true] + marks)[1..] == [true] + marks;
    assert ([true] + marks)[1..] == marks;
    assert s[1..][1..] == s[2..];
  }

  // ----- Trimming

  lemma CleanTail(level: Level, c: char, t: string, last: Level)
    requires level == NO || level == STRING
    requires Clean(level, [c] + t, last)
    ensures Clean(if c == '"' then (if level == NO then STRING else NO) else level, t, last)
    ensures level == NO ==> !Starts([c] + t, "/*") && !Starts([c] + t, "//")
  {
    var s := [c] + t;
    var next := if c == '"' then (if level == NO then STRING else NO) else level;
    assert s[1..] == t;
    assert !Scan(level, s).1[0];
    assert Scan(level, s).1 == [false] + Scan(next, t).1;
    assert Scan(next, t).1 == Scan(level, s).1[1..] == Repeat(|t|, false);
  }

  lemma {:induction false} CleanTrimLeft(level: Level, s: string, last: Level)
    requires level == NO || level == STRING
    requires Clean(level, s, last)
    ensures Clean(level, TrimLeft(s), last)
  {
    if s != "" && s[0] == ' ' {
      assert s == [s[0]] + s[1..];
      CleanTail(level, s[0], s[1..], last);
      CleanTrimLeft(level, s[1..], last);
    }
  }

  lemma {:induction false} CleanDropLastBlank(level: Level, s: string, last: Level)
    requires level == NO || level == STRING
    requires Clean(level, s + " ", last)
    ensures Clean(level, s, last)
    decreases |s|
  {
    if s == "" {
      CleanTail(level, ' ', "", last);
      assert s + " " == [' '] + "";
    } else {
      var c, t := s[0], s[1..];
      assert s + " " == [c] + (t + " ") && s == [c] + t;
      CleanTail(level, c, t + " ", last);
      var next := if c == '"' then (if level == NO then STRING else NO) else level;
      CleanDropLastBlank(next, t, last);
      StartsTwo(s, '/', '*');
      StartsTwo(s, '/', '/');
      StartsTwo(s + " ", '/', '*');
      StartsTwo(s + " ", '/', '/');
      CleanPrepend(level, c, t, last);
    }
  }

  lemma {:induction false} CleanTrimRight(level: Level, s: string, last: Level)
    requires level == NO || level == STRING
    requires Clean(level, s, last)
    ensures Clean(level, TrimRight(s), last)
  {
    if s != "" && s[|s| - 1] == ' ' {
      assert s == s[..|s| - 1] + " ";
      CleanDropLastBlank(level, s[..|s| - 1], last);
      CleanTrimRight(level, s[..|s| - 1], last);
    }
  }

  lemma TrimTwice(s: string)
    ensures Trim(Trim(s)) == Trim(s)
  {
    var r := TrimRight(s);
    var t := TrimLeft(r);
    if t != "" {
      assert t[|t| - 1] == r[|r| - 1];
    }
  }

  lemma {:induction false} KeepClean(s: string)
    ensures Keep(s, Repeat(|s|, false)) == s
  {
    if s != "" {
      assert Repeat(|s|, false)[1..] == Repeat(|s| - 1, false);
      KeepClean(s[1..]);
    }
  }

  /** Every character kept or trimmed comes from the source. */
  lemma {:induction false} KeepFrom(s: string, marks: seq<bool>)
    requires |marks| == |s|
    ensures forall c | c in Keep(s, marks) :: c in s
  {
    if s != "" {
      KeepFrom(s[1..], marks[1..]);
    }
  }

  lemma TrimFrom(s: string)
    ensures |Trim(s)| <= |s| && forall c | c in Trim(s) :: c in s
  {
  }

  lemma {:induction false} UpToNulWhole(s: string)
    requires NUL !in s
    ensures UpToNul(s) == s
  {
    if s != "" {
      UpToNulWhole(s[1..]);
    }
  }

  /** A stripped line strips to itself. */
  lemma StripLineTwice(level: Level, text: string)
    ensures var r := StripLine(level, text);
      StripLine(Outside(level), r.1) == (Outside(r.0), r.1)
  {
    var s := UpToNul(text);
    var (last, marks) := Scan(level, s);
    var k := Keep(s, marks);
    var t := Trim(k);
    KeptIsClean(level, s);
    CleanTrimRight(Outside(level), k, Outside(last));
    CleanTrimLeft(Outside(level), TrimRight(k), Outside(last));
    KeepFrom(s, marks);
    TrimFrom(k);
    UpToNulWhole(t);
    KeepClean(t);
    TrimTwice(k);
  }

  lemma {:induction false} FirstLine(line: string, rest: string)
    requires '\n' !in line
    ensures LineLength(line + "\n" + rest) == |line|
  {
    if line != "" {
      assert (line + "\n" + rest)[1..] == line[1..] + "\n" + rest;
      FirstLine(line[1..], rest);
    }
  }

  lemma StrippedLineFits(level: Level, text: string)
    requires '\n' !in text
    ensures |StripLine(level, text).1| <= |text| && '\n' !in StripLine(level, text).1
  {
    var s := UpToNul(text);
    KeepFrom(s, Scan(level, s).1);
    TrimFrom(Keep(s, Scan(level, s).1));
  }

  /** Reading a text that begins with a short line. */
  lemma StripFromLine(level: Level, line: string, tail: string)
    requires line != "" && '\n' !in line && |line| <= MAX_LINE
    ensures var r := StripLine(level, line);
      StripFrom(level, Emit(line, tail)) == Emit(r.1, StripFrom(r.0, tail))
  {
    var input := Emit(line, tail);
    FirstLine(line, tail);
    assert input == line + "\n" + tail;
    assert input[..|line|] == line && input[|line| + 1..] == tail;
    assert GetLine(input) == Got(line, tail);
  }

  /** Stripping the kept part of a line in front of a text. */
  lemma StripKeptLine(level: Level, text: string, tail: string)
    requires '\n' !in text && |text| <= MAX_LINE
    ensures var r := StripLine(level, text);
      StripFrom(Outside(level), Emit(r.1, tail)) == Emit(r.1, StripFrom(Outside(r.0), tail))
  {
    var r := StripLine(level, text);
    StripLineTwice(level, text);
    if r.1 == "" {
      EmptyLineKeepsLevel(Outside(level));
      assert Emit(r.1, tail) == tail;
    } else {
      StrippedLineFits(level, text);
      StripFromLine(Outside(level), r.1, tail);
    }
  }

  lemma {:induction false} StripFromTwice(level: Level, input: string)
    ensures StripFrom(Outside(level), StripFrom(level, input)) == StripFrom(level, input)
    decreases |input|
  {
    match GetLine(input)
    case NoLine =>
    case Got(text, rest) =>
      var (level', kept) := StripLine(level, text);
      StripFromTwice(level', rest);
      StripKeptLine(level, text, StripFrom(level', rest));
  }

  lemma EmptyLineKeepsLevel(level: Level)
    requires level == NO || level == STRING
    ensures StripLine(level, "") == (level, "")
  {
  }

  /** Removing comments from text without comments changes nothing. */
  lemma StripIdempotent(input: string)
    ensures Strip(Strip(input)) == Strip(input)
  {
    StripFromTwice(NO, input);
  }
}
