/** Removing comments line by line: scanning tokens, deleting the marked segments in place from the
    last to the first, and trimming blanks. */
module CommentRemover {
  import opened CommentAutomaton
  import opened CommentMarks
  import opened CStrings

  /** The delimiters cut the copy of the line so that no event of the line lies across a cut. */
  ghost predicate TokenOf(s: string, local: array<char>, token: int, e: int)
    reads local
  {
    && CString(local, token, e)
    && e <= |s|
    && local[token..e] == s[token..e]
    && (e < |s| ==> Delimiter(s[e]))
  }

  lemma MatchIsStart(s: string, local: array<char>, token: nat, e: nat, k: nat, marker: string)
    requires TokenOf(s, local, token, e) && token <= k < e && NUL !in marker
    requires marker != "" && forall c | c in marker :: !Delimiter(c)
    ensures MatchAt(local, k, marker) <==> Starts(s[k..], marker)
  {
    forall i | token <= i < e ensures local[i] == s[i] {
      assert local[token..e][i - token] == s[token..e][i - token];
    }
    if MatchAt(local, k, marker) {
      MatchInside(local, k, marker, e);
      forall i | 0 <= i < |marker| ensures s[k..][i] == marker[i] {
        assert local[k..k + |marker|][i] == marker[i];
      }
    }
    if Starts(s[k..], marker) {
      if k + |marker| > e {
        assert false;
      }
      forall i | 0 <= i < |marker| ensures local[k + i] == marker[i] {
        assert s[k..][i] == marker[i];
      }
      assert local[k..k + |marker|] == marker;
    }
  }

  ghost predicate NoMatch(local: array<char>, i: nat, j: int, marker: string)
    reads local
  {
    forall k: nat | i <= k < j :: !MatchAt(local, k, marker)
  }

  lemma QuietInString(s: string, local: array<char>, token: nat, e: nat, q: nat)
    requires TokenOf(s, local, token, e) && token <= q <= e && NoMatch(local, token, q, "\"")
    ensures Quiet(STRING, s, token, q)
  {
    forall k | token <= k < q ensures !Event(STRING, s, k) {
      MatchIsStart(s, local, token, e, k, "\"");
    }
  }

  lemma QuietInComment(s: string, local: array<char>, token: nat, e: nat, q: nat)
    requires TokenOf(s, local, token, e) && token <= q <= e && NoMatch(local, token, q, "*/")
    ensures Quiet(MULTILINE, s, token, q)
  {
    forall k | token <= k < q ensures !Event(MULTILINE, s, k) {
      MatchIsStart(s, local, token, e, k, "*/");
    }
  }

  lemma QuietInCode(s: string, local: array<char>, token: nat, e: nat, q: nat)
    requires TokenOf(s, local, token, e) && token <= q <= e
    requires NoMatch(local, token, q, "/*") && NoMatch(local, token, q, "//") && NoMatch(local, token, q, "\"")
    ensures Quiet(NO, s, token, q)
  {
    forall k | token <= k < q ensures !Event(NO, s, k) {
      MatchIsStart(s, local, token, e, k, "/*");
      MatchIsStart(s, local, token, e, k, "//");
      MatchIsStart(s, local, token, e, k, "\"");
    }
  }

  /** The leftmost of the three markers that matter outside comments and strings. */
  method FirstSubtoken(ghost s: string, local: array<char>, token: nat, ghost e: nat)
    returns (level: Level, subtoken: int)
    requires TokenOf(s, local, token, e)
    ensures level == NO <==> subtoken == NULLPTR
    ensures level == NO ==> Quiet(NO, s, token, e)
    ensures level != NO ==> token <= subtoken < e && Quiet(NO, s, token, subtoken)
    ensures level == MULTILINE ==> Starts(s[subtoken..], "/*") && subtoken + 2 <= e
    ensures level == ENDOFLINE ==> Starts(s[subtoken..], "//") && subtoken + 2 <= e
    ensures level == STRING ==> Starts(s[subtoken..], "\"")
  {
    hide Quiet, Starts, Event, MatchAt;
    level := NO;
    subtoken := Find(local, token, "/*", e);
    if subtoken != NULLPTR {
      level := MULTILINE;
    }
    var ptr := Find(local, token, "//", e);
    if ptr != NULLPTR && (subtoken == NULLPTR || ptr < subtoken) {
      level := ENDOFLINE;
      subtoken := ptr;
    }
    ptr := Find(local, token, "\"", e);
    if ptr != NULLPTR && (subtoken == NULLPTR || ptr < subtoken) {
      level := STRING;
      subtoken := ptr;
    }
    QuietInCode(s, local, token, e, if subtoken == NULLPTR then e else subtoken);
    if subtoken != NULLPTR {
      MatchIsStart(s, local, token, e, subtoken, "/*");
      MatchIsStart(s, local, token, e, subtoken, "//");
      MatchIsStart(s, local, token, e, subtoken, "\"");
    }
  }

  /** What is left of the token, after a step, is in step with the automaton; the null pointer stands
      for its end. */
  ghost predicate TokenSync(level0: Level, s: string, level: Level, dels: seq<Segment>, start: int,
                            token: int, after: nat, e: nat)
  {
    && (token == NULLPTR || after < token <= e)
    && Sync(level0, s, level, dels, start, if token == NULLPTR then e else token)
  }

  method StepInComment(ghost s: string, local: array<char>, token: nat, ghost e: nat, ghost level0: Level,
                       inDels: seq<Segment>, inStart: int)
    returns (level: Level, dels: seq<Segment>, start: int, token': int)
    requires TokenOf(s, local, token, e) && Sync(level0, s, MULTILINE, inDels, inStart, token)
    ensures TokenSync(level0, s, level, dels, start, token', token, e)
  {
    hide Scan, Done, Ordered, Paint, Event;
    level, dels, start := MULTILINE, inDels, inStart;
    var subtoken := Find(local, token, "*/", e);
    QuietInComment(s, local, token, e, if subtoken == NULLPTR then e else subtoken);
    Advance(level0, s, level, dels, start, token, if subtoken == NULLPTR then e else subtoken);
    if subtoken != NULLPTR {
      MatchIsStart(s, local, token, e, subtoken, "*/");
      CloseComment(level0, s, dels, start, subtoken);
      dels := dels + [Segment(start, subtoken + 2)];
      start := NULLPTR;
      token' := subtoken + 2;
      level := NO;
    } else {
      token' := NULLPTR;
    }
  }

  method StepInString(ghost s: string, local: array<char>, token: nat, ghost e: nat, ghost level0: Level,
                      ghost dels: seq<Segment>)
    returns (level: Level, token': int)
    requires TokenOf(s, local, token, e) && Sync(level0, s, STRING, dels, NULLPTR, token)
    ensures TokenSync(level0, s, level, dels, NULLPTR, token', token, e)
  {
    hide Sync, Quiet;
    level := STRING;
    var subtoken := Find(local, token, "\"", e);
    QuietInString(s, local, token, e, if subtoken == NULLPTR then e else subtoken);
    Advance(level0, s, level, dels, NULLPTR, token, if subtoken == NULLPTR then e else subtoken);
    if subtoken != NULLPTR {
      MatchIsStart(s, local, token, e, subtoken, "\"");
      ToggleString(level0, s, level, dels, subtoken);
      token' := subtoken + 1;
      level := NO;
    } else {
      token' := NULLPTR;
    }
  }

  method StepInCode(ghost s: string, local: array<char>, token: nat, ghost e: nat, ghost level0: Level,
                    ghost dels: seq<Segment>)
    returns (level: Level, start: int, token': int)
    requires TokenOf(s, local, token, e) && Sync(level0, s, NO, dels, NULLPTR, token)
    ensures TokenSync(level0, s, level, dels, start, token', token, e)
  {
    hide Scan, Done, Ordered, Paint, Event;
    start := NULLPTR;
    var subtoken;
    level, subtoken := FirstSubtoken(s, local, token, e);
    Advance(level0, s, NO, dels, start, token, if level == NO then e else subtoken);
    match level {
      case MULTILINE =>
        OpenComment(level0, s, level, dels, subtoken);
        start := subtoken;
        token' := subtoken + 2;
      case ENDOFLINE =>
        OpenComment(level0, s, level, dels, subtoken);
        start := subtoken;
        token' := subtoken + 2;
      case STRING =>
        ToggleString(level0, s, NO, dels, subtoken);
        token' := subtoken + 1;
      case NO =>
        token' := NULLPTR;
    }
  }

  lemma AdvanceEndOfLine(level0: Level, s: string, dels: seq<Segment>, start: int, token: nat, e: nat)
    requires Sync(level0, s, ENDOFLINE, dels, start, token) && token <= e <= |s|
    ensures Sync(level0, s, ENDOFLINE, dels, start, e)
  {
    Advance(level0, s, ENDOFLINE, dels, start, token, e);
  }

  /** The scan of one token.  `start` is the beginning of the segment being recorded, if any. */
  method ScanToken(ghost s: string, local: array<char>, first: int, ghost e: nat, ghost level0: Level,
                   inLevel: Level, inDels: seq<Segment>, inStart: int)
    returns (level: Level, dels: seq<Segment>, start: int)
    requires TokenOf(s, local, first, e)
    requires Sync(level0, s, inLevel, inDels, inStart, first)
    ensures Sync(level0, s, level, dels, start, e)
  {
    level, dels, start := inLevel, inDels, inStart;
    var token := first;
    while token != NULLPTR
      invariant token == NULLPTR || first <= token <= e
      invariant Sync(level0, s, level, dels, start, if token == NULLPTR then e else token)
      decreases if token == NULLPTR then 0 else e - token + 1
    {
      TokenSuffix(s, local, first, token, e);
      match level {
        case MULTILINE =>
          level, dels, start, token := StepInComment(s, local, token, e, level0, dels, start);
        case STRING =>
          level, token := StepInString(s, local, token, e, level0, dels);
        case NO =>
          level, start, token := StepInCode(s, local, token, e, level0, dels);
        case ENDOFLINE =>
          AdvanceEndOfLine(level0, s, dels, start, token, e);
          token := NULLPTR;
      }
    }
  }

  lemma TokenSuffix(s: string, local: array<char>, first: int, token: int, e: nat)
    requires TokenOf(s, local, first, e) && first <= token <= e
    ensures TokenOf(s, local, token, e)
  {
    assert local[token..e] == local[first..e][token - first..];
    assert s[token..e] == s[first..e][token - first..];
  }

  /** The line buffer holds the C string s. */
  ghost predicate Holds(buf: array<char>, s: string)
    reads buf
  {
    |s| < buf.Length && buf[..|s|] == s && buf[|s|] == NUL && NUL !in s
  }

  lemma QuietDelimiters(level: Level, s: string, i: nat, j: nat)
    requires i <= j <= |s| && forall k | i <= k < j :: Delimiter(s[k])
    ensures Quiet(level, s, i, j)
  {
    forall k | i <= k < j ensures !Event(level, s, k) {
      assert s[k..][0] == s[k];
    }
  }

  /** The copy still holds the end of the line from `context` on. */
  ghost predicate HoldsFrom(local: array<char>, s: string, context: int)
    reads local
  {
    && 0 <= context <= |s| < local.Length
    && NUL !in s && local[|s|] == NUL
    && forall k | context <= k < |s| :: local[k] == s[k]
  }

  /** Fetches the next token, passing over the delimiters in front of it. */
  method FetchToken(ghost s: string, local: array<char>, from: nat, ghost level0: Level,
                    ghost level: Level, ghost dels: seq<Segment>, ghost start: int)
    returns (token: int, context: nat, ghost e: nat)
    requires HoldsFrom(local, s, from) && Sync(level0, s, level, dels, start, from)
    modifies local
    ensures HoldsFrom(local, s, context)
    ensures token == NULLPTR ==> context == |s| && Sync(level0, s, level, dels, start, |s|)
    ensures token != NULLPTR ==> TokenOf(s, local, token, e) && Sync(level0, s, level, dels, start, token)
    ensures token != NULLPTR ==> from < e <= context && QuietBetween(s, e, context)
  {
    hide Sync, Event, Quiet;
    assert forall k | from <= k < |s| :: local[k] == s[k] && s[k] in s;
    token, context, e := NextToken(local, from, |s|);
    if token == NULLPTR {
      assert forall k | from <= k < |s| :: Delimiter(s[k]);
      QuietDelimiters(level, s, from, |s|);
      Advance(level0, s, level, dels, start, from, |s|);
    } else {
      QuietDelimiters(level, s, from, token);
      Advance(level0, s, level, dels, start, from, token);
      assert forall k | token <= k < e :: local[k] == s[k];
      assert local[token..e] == s[token..e];
    }
  }

  ghost predicate QuietBetween(s: string, i: int, j: int)
  {
    0 <= i <= j <= |s| && forall k | i <= k < j :: Delimiter(s[k])
  }

  method ScanLine(ghost s: string, local: array<char>, level0: Level, inStart: int)
    returns (level: Level, dels: seq<Segment>, start: int)
    requires HoldsFrom(local, s, 0) && Sync(level0, s, level0, [], inStart, 0)
    modifies local
    ensures Sync(level0, s, level, dels, start, |s|)
  {
    level, dels, start := level0, [], inStart;
    var token, context;
    ghost var e;
    token, context, e := FetchToken(s, local, 0, level0, level, dels, start);
    var again := true;
    while again
      invariant again || token == NULLPTR
      invariant HoldsFrom(local, s, context)
      invariant token == NULLPTR ==> context == |s| && Sync(level0, s, level, dels, start, |s|)
      invariant token != NULLPTR ==> TokenOf(s, local, token, e) && Sync(level0, s, level, dels, start, token)
      invariant token != NULLPTR ==> e <= context && QuietBetween(s, e, context)
      decreases again, |s| - context, token != NULLPTR
    {
      if token != NULLPTR {
        level, dels, start := ScanToken(s, local, token, e, level0, level, dels, start);
        QuietDelimiters(level, s, e, context);
        Advance(level0, s, level, dels, start, e, context);
      }
      token, context, e := FetchToken(s, local, context, level0, level, dels, start);
      again := token != NULLPTR;
    }
  }

  /** The segments to delete cover exactly the characters the automaton marks. */
  method MarkLine(line: array<char>, level0: Level, ghost s: string)
    returns (level: Level, dels: seq<Segment>)
    requires line.Length == BUFFER && Holds(line, s) && level0 != ENDOFLINE
    ensures Ordered(dels, |s|) && Paint(dels, |s|) == Scan(level0, s).1
    ensures level == if Scan(level0, s).0 == ENDOFLINE then NO else Scan(level0, s).0
  {
    var start := if level0 == MULTILINE then 0 else NULLPTR;
    var local := new char[BUFFER](i requires 0 <= i < BUFFER reads line => line[i]);
    local[BUFFER - 1] := NUL;
    LocalCopy(line, local, s);
    StartOfLine(level0, s, start);
    level, dels, start := ScanLine(s, local, level0, start);
    EndOfLine(level0, s, level, dels, start);
    if start != NULLPTR {
      if level == ENDOFLINE {
        level := NO;
      }
      var length := Strlen(line, s);
      dels := dels + [Segment(start, length)];
    }
  }

  lemma LocalCopy(line: array<char>, local: array<char>, s: string)
    requires line.Length == local.Length == BUFFER && Holds(line, s)
    requires forall i | 0 <= i < BUFFER - 1 :: local[i] == line[i]
    requires local[BUFFER - 1] == NUL
    ensures HoldsFrom(local, s, 0)
  {
    assert forall k | 0 <= k < |s| :: line[k] == line[..|s|][k] == s[k];
  }

  lemma StartOfLine(level0: Level, s: string, start: int)
    requires level0 != ENDOFLINE && start == if level0 == MULTILINE then 0 else NULLPTR
    ensures Sync(level0, s, level0, [], start, 0)
  {
    assert s[0..] == s;
    assert Done([], start, 0) + Scan(level0, s).1 == Scan(level0, s).1;
  }

  lemma EndOfLine(level0: Level, s: string, level: Level, dels: seq<Segment>, start: int)
    requires Sync(level0, s, level, dels, start, |s|)
    ensures level == Scan(level0, s).0
    ensures start == NULLPTR ==> Ordered(dels, |s|) && Paint(dels, |s|) == Scan(level0, s).1
    ensures start != NULLPTR ==>
      Ordered(dels + [Segment(start, |s|)], |s|)
      && Paint(dels + [Segment(start, |s|)], |s|) == Scan(level0, s).1
  {
    assert s[|s|..] == "";
    if start != NULLPTR {
      PaintSegment(dels, start, |s|);
    }
  }

  method Strlen(buf: array<char>, ghost s: string) returns (n: nat)
    requires Holds(buf, s)
    ensures n == |s|
  {
    n := 0;
    while buf[n] != NUL
      invariant n <= |s|
      decreases |s| - n
    {
      assert buf[n] == buf[..|s|][n] == s[n];
      n := n + 1;
    }
  }

  // ----- Deleting in place

  /** Closes the gap between two offsets by moving the tail of the string over it. */
  method DeleteRange(line: array<char>, start: nat, end: nat, ghost t: string)
    requires line.Length == BUFFER && Holds(line, t) && start <= end <= |t|
    modifies line
    ensures Holds(line, t[..start] + t[end..])
  {
    var ptr1, ptr2 := start, end;
    ghost var gap := end - start;
    assert forall k | 0 <= k < |t| :: line[k] == line[..|t|][k] == t[k];
    while line[ptr2] != NUL && ptr2 != BUFFER
      invariant end <= ptr2 <= |t| && ptr1 == ptr2 - gap
      invariant line[|t|] == NUL
      invariant forall k | 0 <= k < start :: line[k] == t[k]
      invariant forall k | start <= k < ptr1 :: line[k] == t[k + gap]
      invariant forall k | ptr2 <= k < |t| :: line[k] == t[k]
      decreases |t| - ptr2
    {
      line[ptr1] := line[ptr2];
      ptr1, ptr2 := ptr1 + 1, ptr2 + 1;
    }
    line[ptr1] := NUL;
    assert line[..ptr1] == t[..start] + t[end..];
  }

  lemma {:induction false} KeepConcat(s: string, t: string, m: seq<bool>, n: seq<bool>)
    requires |s| == |m| && |t| == |n|
    ensures Keep(s + t, m + n) == Keep(s, m) + Keep(t, n)
  {
    if s == "" {
      assert s + t == t && m + n == n;
    } else {
      assert (s + t)[1..] == s[1..] + t && (m + n)[1..] == m[1..] + n;
      KeepConcat(s[1..], t, m[1..], n);
    }
  }

  lemma {:induction false} KeepAll(s: string, value: bool)
    ensures Keep(s, Repeat(|s|, value)) == if value then "" else s
  {
    if s != "" {
      assert Repeat(|s|, value)[1..] == Repeat(|s| - 1, value);
      KeepAll(s[1..], value);
    }
  }

  lemma KeepTail(b: string, c: string)
    ensures Keep(b + c, Repeat(|b|, true) + Repeat(|c|, false)) == c
  {
    hide Keep, Repeat;
    KeepAll(b, true);
    KeepAll(c, false);
    KeepConcat(b, c, Repeat(|b|, true), Repeat(|c|, false));
  }

  lemma KeepThree(a: string, b: string, c: string, marks: seq<bool>)
    requires |marks| == |a|
    ensures Keep(a + (b + c), marks + (Repeat(|b|, true) + Repeat(|c|, false))) == Keep(a, marks) + c
  {
    KeepTail(b, c);
    KeepConcat(a, b + c, marks, Repeat(|b|, true) + Repeat(|c|, false));
  }

  /** Keeping what follows the start of the last segment. */
  lemma KeepSegment(s: string, dels: seq<Segment>, c: nat, d: Segment)
    requires dels != [] && c <= |s| && Ordered(dels, c) && d == dels[|dels| - 1]
    ensures Keep(s[..c], Paint(dels, c)) == Keep(s[..d.start], Paint(dels[..|dels| - 1], d.start)) + s[d.end..c]
  {
    hide Keep, Paint, Ordered, Repeat;
    LastSegment(dels, c, d);
    var before := Paint(dels[..|dels| - 1], d.start);
    CutThree(s, d.start, d.end, c);
    KeepThree(s[..d.start], s[d.start..d.end], s[d.end..c], before);
  }

  lemma LastSegment(dels: seq<Segment>, c: nat, d: Segment)
    requires dels != [] && Ordered(dels, c) && d == dels[|dels| - 1]
    ensures d.start <= d.end <= c && Ordered(dels[..|dels| - 1], d.start)
    ensures Paint(dels, c)
         == Paint(dels[..|dels| - 1], d.start) + (Repeat(d.end - d.start, true) + Repeat(c - d.end, false))
  {
    hide Repeat;
  }

  lemma CutThree(s: string, i: nat, j: nat, k: nat)
    requires i <= j <= k <= |s|
    ensures s[..k] == s[..i] + (s[i..j] + s[j..k])
  {
  }

  lemma CutText(s: string, c: nat, tail: string, start: nat, end: nat)
    requires start <= end <= c <= |s|
    ensures var text := s[..c] + tail;
      text[..start] + text[end..] == s[..start] + (s[end..c] + tail)
  {
  }

  /** One deletion of the backward pass.  The text up to c is untouched and `tail` is what is kept of the
      rest. */
  method DeleteLast(line: array<char>, dels: seq<Segment>, ghost s: string, ghost c: nat, ghost tail: string)
    returns (ghost tail': string)
    requires line.Length == BUFFER && dels != [] && c <= |s| && Ordered(dels, c)
    requires Holds(line, s[..c] + tail)
    modifies line
    ensures var d := dels[|dels| - 1];
      && Holds(line, s[..d.start] + tail')
      && Keep(s[..c], Paint(dels, c)) + tail == Keep(s[..d.start], Paint(dels[..|dels| - 1], d.start)) + tail'
  {
    var d := dels[|dels| - 1];
    DeleteRange(line, d.start, d.end, s[..c] + tail);
    CutText(s, c, tail, d.start, d.end);
    tail' := s[d.end..c] + tail;
    KeepSegment(s, dels, c, d);
    var kept := Keep(s[..d.start], Paint(dels[..|dels| - 1], d.start));
    assert kept + s[d.end..c] + tail == kept + (s[d.end..c] + tail);
  }

  /** Deletes the segments from the last to the first: the buffer then holds exactly the characters that
      no segment covers, in order. */
  method DeleteSegments(line: array<char>, dels: seq<Segment>, ghost s: string)
    requires line.Length == BUFFER && Holds(line, s) && Ordered(dels, |s|)
    modifies line
    ensures Holds(line, Keep(s, Paint(dels, |s|)))
  {
    var i := |dels|;
    ghost var c := |s|;
    ghost var tail := "";
    assert s[..c] == s && dels[..i] == dels;
    assert s + tail == s;
    while i > 0
      invariant 0 <= i <= |dels| && 0 <= c <= |s| && Ordered(dels[..i], c)
      invariant Holds(line, s[..c] + tail)
      invariant Keep(s, Paint(dels, |s|)) == Keep(s[..c], Paint(dels[..i], c)) + tail
    {
      tail := DeleteLast(line, dels[..i], s, c, tail);
      assert dels[..i][..i - 1] == dels[..i - 1];
      i := i - 1;
      c := dels[i].start;
    }
    KeepAll(s[..c], false);
  }

  // ----- Trimming and reading

  /** Cuts blanks off the end of the line, in place. */
  method TrimEnd(line: array<char>, ghost t: string)
    requires Holds(line, t)
    modifies line
    ensures Holds(line, TrimRight(t))
  {
    var length := Strlen(line, t);
    var i := length as int - 1;
    assert t[..i + 1] == t;
    assert forall k | 0 <= k < |t| :: line[k] == line[..|t|][k] == t[k];
    while i >= 0 && line[i] == ' '
      invariant -1 <= i < |t| && Holds(line, t[..i + 1])
      invariant forall k | 0 <= k <= i :: line[k] == t[k]
      invariant TrimRight(t[..i + 1]) == TrimRight(t)
    {
      assert t[..i + 1][..i] == t[..i];
      line[i] := NUL;
      assert line[..i] == t[..i];
      i := i - 1;
    }
  }

  /** The string from the first character that is not a blank. */
  method SkipBlanks(line: array<char>, ghost t: string) returns (kept: string)
    requires Holds(line, t)
    ensures kept == TrimLeft(t)
  {
    var length := Strlen(line, t);
    var i := 0;
    assert t[0..] == t;
    while i < length && line[i] == ' '
      invariant 0 <= i <= length
      invariant TrimLeft(t[i..]) == TrimLeft(t)
    {
      assert line[i] == line[..|t|][i] == t[i];
      assert t[i..][1..] == t[i + 1..];
      i := i + 1;
    }
    if i < length {
      assert line[i] == line[..|t|][i] == t[i];
    }
    kept := line[i..length];
    assert kept == line[..|t|][i..] == t[i..];
  }

  /** Stores a line that was read, ended by NUL, into the buffer. */
  method StoreLine(line: array<char>, text: string)
    requires line.Length == BUFFER && |text| <= MAX_LINE
    modifies line
    ensures Holds(line, UpToNul(text))
  {
    for k := 0 to |text|
      invariant forall j | 0 <= j < k :: line[j] == text[j]
    {
      line[k] := text[k];
    }
    line[|text|] := NUL;
    ghost var s := UpToNul(text);
    assert line[..|s|] == s;
  }

  /** One line through the buffer: scan, delete, trim. */
  method ProcessLine(line: array<char>, text: string, level0: Level) returns (level: Level, kept: string)
    requires line.Length == BUFFER && |text| <= MAX_LINE && level0 != ENDOFLINE
    modifies line
    ensures level != ENDOFLINE && (level, kept) == StripLine(level0, text)
  {
    StoreLine(line, text);
    ghost var s := UpToNul(text);
    var dels;
    level, dels := MarkLine(line, level0, s);
    DeleteSegments(line, dels, s);
    ghost var t := Keep(s, Scan(level0, s).1);
    TrimEnd(line, t);
    kept := SkipBlanks(line, TrimRight(t));
  }

  lemma StripFromStep(ss: string, level: Level, rest: string)
    requires GetLine(rest).Got?
    ensures var (level', kept) := StripLine(level, GetLine(rest).text);
      ss + StripFrom(level, rest)
      == (if kept == "" then ss else ss + (kept + "\n")) + StripFrom(level', GetLine(rest).rest)
  {
    hide StripLine, GetLine;
    var (level', kept) := StripLine(level, GetLine(rest).text);
    Added(ss, kept, StripFrom(level', GetLine(rest).rest));
  }

  lemma Added(ss: string, kept: string, out: string)
    ensures ss + Emit(kept, out) == (if kept == "" then ss else ss + (kept + "\n")) + out
  {
    assert ss + (kept + "\n") + out == ss + (kept + "\n" + out);
  }

  /** Removes the comments of a whole file, carrying the level from line to line. */
  method RemoveComments(input: string) returns (ss: string)
    ensures ss == Strip(input)
  {
    ss := "";
    var line := new char[BUFFER](_ => NUL);
    var level := NO;
    var rest := input;
    var next := GetLine(rest);
    while next.Got?
      invariant level != ENDOFLINE && next == GetLine(rest)
      invariant Strip(input) == ss + StripFrom(level, rest)
      decreases |rest|
    {
      StripFromStep(ss, level, rest);
      var kept;
      level, kept := ProcessLine(line, next.text, level);
      rest := next.rest;
      if kept != "" {
        ss := ss + (kept + "\n");
      }
      next := GetLine(rest);
    }
  }
}
