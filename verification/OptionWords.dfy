/** Option arguments joined with blanks by the parser and split again by the generator. */
module OptionWords {

  predicate Space(c: char)
  {
    c == ' ' || c == '\t' || c == '\n' || c == '\r' || c == 11 as char || c == 12 as char
  }

  /** Appends to an option value: the first argument starts it, later ones follow a blank. */
  function Append(value: string, arg: string): string
  {
    if value != "" then value + " " + arg else value + arg
  }

  function JoinWords(args: seq<string>): string
  {
    if args == [] then "" else Append(JoinWords(args[..|args| - 1]), args[|args| - 1])
  }

  function SkipSpace(s: string): (t: string)
    ensures |t| <= |s| && (t != "" ==> !Space(t[0]))
  {
    if s != "" && Space(s[0]) then SkipSpace(s[1..]) else s
  }

  function WordLength(s: string): (n: nat)
    ensures n <= |s| && (s != "" && !Space(s[0]) ==> n > 0)
  {
    if s == "" || Space(s[0]) then 0 else 1 + WordLength(s[1..])
  }

  datatype Extraction = Failed | Word(word: string, rest: string)

  /** Formatted extraction of a word from a stream holding s. */
  function Extract(s: string): (e: Extraction)
    ensures e.Word? ==> |e.rest| < |s| && e.word != ""
  {
    var t := SkipSpace(s);
    if t == "" then Failed else Word(t[..WordLength(t)], t[WordLength(t)..])
  }

  function Words(s: string): seq<string>
    decreases |s|
  {
    match Extract(s)
    case Failed => []
    case Word(word, rest) => [word] + Words(rest)
  }

  predicate Plain(word: string)
  {
    word != "" && forall c | c in word :: !Space(c)
  }

  lemma {:induction false} WordLengthStops(s: string, t: string)
    requires t == "" || Space(t[0])
    ensures WordLength(s + t) == WordLength(s)
  {
    if s == "" {
      assert s + t == t;
    } else {
      assert (s + t)[1..] == s[1..] + t;
      WordLengthStops(s[1..], t);
    }
  }

  lemma {:induction false} PlainLength(word: string)
    requires forall c | c in word :: !Space(c)
    ensures WordLength(word) == |word|
  {
    if word != "" {
      PlainLength(word[1..]);
    }
  }

  lemma {:induction false} SkipSpaceAppend(s: string, t: string)
    requires t != "" && Space(t[0])
    ensures SkipSpace(s + t) == if SkipSpace(s) == "" then SkipSpace(t) else SkipSpace(s) + t
  {
    if s == "" {
      assert s + t == t;
    } else {
      assert (s + t)[1..] == s[1..] + t;
      if Space(s[0]) {
        SkipSpaceAppend(s[1..], t);
      }
    }
  }

  lemma WordAlone(word: string)
    requires Plain(word)
    ensures Words(word) == [word]
  {
    PlainLength(word);
    assert SkipSpace(word) == word;
    assert word[..|word|] == word && word[|word|..] == "";
    assert Extract(word) == Word(word, "");
    assert Words("") == [];
  }

  /** A plain word after a blank is one more word. */
  lemma {:induction false} WordsAppend(s: string, word: string)
    requires Plain(word)
    ensures Words(s + (" " + word)) == Words(s) + [word]
    decreases |s|
  {
    var t := " " + word;
    SkipSpaceAppend(s, t);
    assert t[1..] == word;
    assert SkipSpace(t) == word;
    if SkipSpace(s) == "" {
      WordAlone(word);
      assert Extract(s + t) == Extract(word);
    } else {
      var u := SkipSpace(s);
      var n := WordLength(u);
      WordLengthStops(u, t);
      assert (u + t)[..n] == u[..n] && (u + t)[n..] == u[n..] + t;
      WordsAppend(u[n..], word);
      assert [u[..n]] + (Words(u[n..]) + [word]) == [u[..n]] + Words(u[n..]) + [word];
    }
  }

  lemma {:induction false} JoinNonempty(args: seq<string>)
    requires args != [] && forall i | 0 <= i < |args| :: Plain(args[i])
    ensures JoinWords(args) != ""
  {
  }

  lemma NoWords()
    ensures Words("") == []
  {
  }

  /** Blank-free arguments come back as the same list. */
  lemma {:induction false} SplitJoined(args: seq<string>)
    requires forall i | 0 <= i < |args| :: Plain(args[i])
    ensures Words(JoinWords(args)) == args
  {
    hide Words, Plain;
    if args == [] {
      NoWords();
    } else {
      var init, last := args[..|args| - 1], args[|args| - 1];
      SplitJoined(init);
      if init == [] {
        WordAlone(last);
        assert "" + last == last;
      } else {
        JoinNonempty(init);
        WordsAppend(JoinWords(init), last);
        assert JoinWords(init) + " " + last == JoinWords(init) + (" " + last);
      }
      assert args == init + [last];
    }
  }

  lemma {:induction false} WordIsPlain(s: string)
    ensures forall c | c in s[..WordLength(s)] :: !Space(c)
  {
    if s != "" && !Space(s[0]) {
      WordIsPlain(s[1..]);
      assert s[..WordLength(s)] == [s[0]] + s[1..][..WordLength(s[1..])];
    }
  }

  lemma {:induction false} WordsArePlain(s: string)
    ensures forall i | 0 <= i < |Words(s)| :: Plain(Words(s)[i])
    decreases |s|
  {
    match Extract(s)
    case Failed =>
    case Word(word, rest) =>
      WordIsPlain(SkipSpace(s));
      WordsArePlain(rest);
  }

  /** ... and only they do. */
  lemma SplitJoinedIff(args: seq<string>)
    ensures Words(JoinWords(args)) == args <==> forall i | 0 <= i < |args| :: Plain(args[i])
  {
    WordsArePlain(JoinWords(args));
    if forall i | 0 <= i < |args| :: Plain(args[i]) {
      SplitJoined(args);
    }
  }
}
