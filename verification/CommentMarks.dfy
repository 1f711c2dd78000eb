/** The segments the scanner records, the marks they stand for, and the moves by which the scanner
    keeps pace with the automaton. */
module CommentMarks {
  import opened CommentAutomaton
  import opened CStrings

  datatype Segment = Segment(start: int, end: int)

  /** Segments are recorded from left to right and do not overlap. */
  ghost predicate Ordered(dels: seq<Segment>, n: int)
  {
    if dels == [] then n >= 0
    else
      var d := dels[|dels| - 1];
      0 <= d.start <= d.end <= n && Ordered(dels[..|dels| - 1], d.start)
  }

  /** The characters of a line of length n that the segments cover. */
  ghost function Paint(dels: seq<Segment>, n: int): (marks: seq<bool>)
    requires Ordered(dels, n)
    ensures |marks| == n
  {
    if dels == [] then Repeat(n, false)
    else
      var d := dels[|dels| - 1];
      Paint(dels[..|dels| - 1], d.start) + Repeat(d.end - d.start, true) + Repeat(n - d.end, false)
  }

  /** The marks up to pos, when a segment starting at `start` may still be open. */
  ghost function Done(dels: seq<Segment>, start: int, pos: nat): (marks: seq<bool>)
    requires start <= pos && Ordered(dels, if start >= 0 then start else pos)
    ensures |marks| == pos
  {
    if start >= 0 then Paint(dels, start) + Repeat(pos - start, true) else Paint(dels, pos)
  }

  ghost predicate InComment(level: Level)
  {
    level == MULTILINE || level == ENDOFLINE
  }

  /** The scanner, having consumed pos characters, agrees with the automaton. */
  ghost predicate Sync(level0: Level, s: string, level: Level, dels: seq<Segment>, start: int, pos: int)
  {
    && 0 <= pos <= |s|
    && start <= pos
    && (if InComment(level) then start >= 0 else start == NULLPTR)
    && Ordered(dels, if start >= 0 then start else pos)
    && Scan(level0, s) == (Scan(level, s[pos..]).0, Done(dels, start, pos) + Scan(level, s[pos..]).1)
  }

  /** At offset k the automaton leaves the level. */
  ghost predicate Event(level: Level, s: string, k: nat)
    requires k <= |s|
  {
    match level
    case NO => Starts(s[k..], "/*") || Starts(s[k..], "//") || Starts(s[k..], "\"")
    case STRING => Starts(s[k..], "\"")
    case ENDOFLINE => false
    case MULTILINE => Starts(s[k..], "*/")
  }

  ghost predicate Quiet(level: Level, s: string, i: int, j: int)
    requires 0 <= i <= j <= |s|
  {
    forall k | i <= k < j :: !Event(level, s, k)
  }

  // ----- Segments and marks

  lemma PaintMore(dels: seq<Segment>, i: nat, j: nat)
    requires Ordered(dels, i) && i <= j
    ensures Ordered(dels, j) && Paint(dels, j) == Paint(dels, i) + Repeat(j - i, false)
  {
    if dels == [] {
    } else {
      var d := dels[|dels| - 1];
      assert Repeat(j - d.end, false) == Repeat(i - d.end, false) + Repeat(j - i, false);
    }
  }

  lemma PaintSegment(dels: seq<Segment>, start: nat, end: nat)
    requires Ordered(dels, start) && start <= end
    ensures Ordered(dels + [Segment(start, end)], end)
    ensures Paint(dels + [Segment(start, end)], end) == Paint(dels, start) + Repeat(end - start, true)
  {
    var ds := dels + [Segment(start, end)];
    assert ds[..|ds| - 1] == dels;
  }

  lemma DoneMore(dels: seq<Segment>, start: int, i: nat, j: nat)
    requires start <= i <= j && Ordered(dels, if start >= 0 then start else i)
    ensures Ordered(dels, if start >= 0 then start else j)
    ensures Done(dels, start, j) == Done(dels, start, i) + Repeat(j - i, start >= 0)
  {
    if start < 0 {
      PaintMore(dels, i, j);
    } else {
      assert Repeat(j - start, true) == Repeat(i - start, true) + Repeat(j - i, true);
    }
  }

  // ----- The scanner's moves

  lemma ScanOneQuiet(level: Level, s: string)
    requires s != "" && !Event(level, s, 0)
    ensures Scan(level, s) == (Scan(level, s[1..]).0, [InComment(level)] + Scan(level, s[1..]).1)
  {
    assert s[0..] == s;
    assert s[0] == '"' ==> Starts(s, "\"");
  }

  /** Consuming a prefix of what is left moves its marks to what is done. */
  lemma MoveMarks(level0: Level, s: string, level: Level, rest: string, next: Level, moved: seq<bool>,
                  done: seq<bool>, done': seq<bool>, tail: string)
    requires Scan(level0, s) == (Scan(level, rest).0, done + Scan(level, rest).1)
    requires Scan(level, rest) == (Scan(next, tail).0, moved + Scan(next, tail).1)
    requires done' == done + moved
    ensures Scan(level0, s) == (Scan(next, tail).0, done' + Scan(next, tail).1)
  {
    hide Scan;
    assert done + (moved + Scan(next, tail).1) == done + moved + Scan(next, tail).1;
  }

  lemma AdvanceOne(level0: Level, s: string, level: Level, dels: seq<Segment>, start: int, pos: nat)
    requires Sync(level0, s, level, dels, start, pos) && pos < |s| && !Event(level, s, pos)
    ensures Sync(level0, s, level, dels, start, pos + 1)
  {
    var rest := s[pos..];
    assert rest[0..] == rest && rest[1..] == s[pos + 1..];
    ScanOneQuiet(level, rest);
    DoneMore(dels, start, pos, pos + 1);
    assert Repeat(1, start >= 0) == [InComment(level)];
    MoveMarks(level0, s, level, rest, level, [InComment(level)],
              Done(dels, start, pos), Done(dels, start, pos + 1), s[pos + 1..]);
  }

  lemma {:induction false} Advance(level0: Level, s: string, level: Level, dels: seq<Segment>, start: int,
                                   pos: nat, q: nat)
    requires Sync(level0, s, level, dels, start, pos) && pos <= q <= |s| && Quiet(level, s, pos, q)
    ensures Sync(level0, s, level, dels, start, q)
    decreases q - pos
  {
    if pos < q {
      AdvanceOne(level0, s, level, dels, start, pos);
      Advance(level0, s, level, dels, start, pos + 1, q);
    }
  }

  /** A quote outside a comment is kept and toggles the level. */
  lemma ScanQuote(level: Level, rest: string)
    requires (level == NO || level == STRING) && Starts(rest, "\"")
    ensures rest != "" && var r := Scan(if level == NO then STRING else NO, rest[1..]);
            Scan(level, rest) == (r.0, [false] + r.1)
  {
    assert rest[0] == '"';
  }

  lemma ToggleString(level0: Level, s: string, level: Level, dels: seq<Segment>, pos: nat)
    requires Sync(level0, s, level, dels, NULLPTR, pos) && pos < |s| && Starts(s[pos..], "\"")
    ensures level == NO ==> Sync(level0, s, STRING, dels, NULLPTR, pos + 1)
    ensures level == STRING ==> Sync(level0, s, NO, dels, NULLPTR, pos + 1)
  {
    hide Scan, Starts, Paint;
    if level == NO || level == STRING {
      ScanQuote(level, s[pos..]);
    }
    assert s[pos..][1..] == s[pos + 1..];
    var next := if level == NO then STRING else NO;
    DoneMore(dels, NULLPTR, pos, pos + 1);
    assert Repeat(1, false) == [false];
    assert Done(dels, NULLPTR, pos) + ([false] + Scan(next, s[pos + 1..]).1)
      == Done(dels, NULLPTR, pos + 1) + Scan(next, s[pos + 1..]).1;
  }

  lemma OpenComment(level0: Level, s: string, next: Level, dels: seq<Segment>, pos: nat)
    requires Sync(level0, s, NO, dels, NULLPTR, pos)
    requires if next == MULTILINE then Starts(s[pos..], "/*") else next == ENDOFLINE && Starts(s[pos..], "//")
    ensures Sync(level0, s, next, dels, pos, pos + 2)
  {
    var rest := s[pos..];
    assert rest[1] == (if next == MULTILINE then '*' else '/');
    assert rest[2..] == s[pos + 2..];
    assert Repeat(2, true) == [true, true];
    assert Done(dels, NULLPTR, pos) + ([true, true] + Scan(next, s[pos + 2..]).1)
      == Done(dels, pos, pos + 2) + Scan(next, s[pos + 2..]).1;
  }

  lemma CloseComment(level0: Level, s: string, dels: seq<Segment>, start: nat, pos: nat)
    requires Sync(level0, s, MULTILINE, dels, start, pos) && Starts(s[pos..], "*/")
    ensures Sync(level0, s, NO, dels + [Segment(start, pos + 2)], NULLPTR, pos + 2)
  {
    var rest := s[pos..];
    assert rest[2..] == s[pos + 2..];
    PaintSegment(dels, start, pos + 2);
    assert Repeat(pos + 2 - start, true) == Repeat(pos - start, true) + [true, true];
    assert Done(dels, start, pos) + ([true, true] + Scan(NO, s[pos + 2..]).1)
      == Done(dels + [Segment(start, pos + 2)], NULLPTR, pos + 2) + Scan(NO, s[pos + 2..]).1;
  }
}
