/** The options of the command line. */
module Bin2Cpp {
  import opened ByteList
  import opened OptionWords

  datatype OptionName = Name | Type | File | Output | Namespace

  datatype Kind = Verbose | Binary | Nullterm | Formatted | Version | Help | Key(option: OptionName) | Value

  /** Switches and option names are recognised by their spelling; everything else is a value. */
  function KindOf(arg: string): Kind
  {
    if arg == "--verbose" then Verbose
    else if arg == "--binary" then Binary
    else if arg == "--nullterm" then Nullterm
    else if arg == "--formatted" then Formatted
    else if arg == "--version" then Version
    else if arg == "--help" then Help
    else if arg == "--name" then Key(Name)
    else if arg == "--type" then Key(Type)
    else if arg == "--file" then Key(File)
    else if arg == "--output" then Key(Output)
    else if arg == "--namespace" then Key(Namespace)
    else Value
  }

  /** Some argument among the first i is of the given kind. */
  predicate Seen(args: seq<string>, kind: Kind, i: nat)
    requires i <= |args|
  {
    i > 0 && (KindOf(args[i - 1]) == kind || Seen(args, kind, i - 1))
  }

  lemma {:induction false} SeenLater(args: seq<string>, kind: Kind, i: nat, j: nat)
    requires i <= j <= |args| && Seen(args, kind, i)
    ensures Seen(args, kind, j)
  {
    if i < j {
      SeenLater(args, kind, i, j - 1);
    }
  }

  /** The option that arguments belong to after the first i, if any. */
  function CurrentOption(args: seq<string>, i: nat): Option<OptionName>
    requires i <= |args|
  {
    if i == 0 then None
    else
      var kind := KindOf(args[i - 1]);
      if kind.Key? then Some(kind.option) else CurrentOption(args, i - 1)
  }

  /** The arguments among the first i that belong to an option. */
  function ValuesOf(args: seq<string>, option: OptionName, i: nat): seq<string>
    requires i <= |args|
  {
    if i == 0 then []
    else if KindOf(args[i - 1]) == Value && CurrentOption(args, i - 1) == Some(option)
    then ValuesOf(args, option, i - 1) + [args[i - 1]]
    else ValuesOf(args, option, i - 1)
  }

  // ----- The same by spelling

  predicate OptionWord(arg: string)
  {
    arg == "--name" || arg == "--type" || arg == "--file" || arg == "--output" || arg == "--namespace"
  }

  predicate Switch(arg: string)
  {
    || arg == "--verbose" || arg == "--binary" || arg == "--nullterm" || arg == "--formatted" || arg == "--version"
    || arg == "--help"
  }

  /** The last option word among the first i arguments, if there is one. */
  function LastOption(args: seq<string>, i: nat): Option<string>
    requires i <= |args|
  {
    if i == 0 then None else if OptionWord(args[i - 1]) then Some(args[i - 1]) else LastOption(args, i - 1)
  }

  /** The arguments among the first i that are neither option words nor switches, and stand behind the given option
      word with no other one in between. */
  function Following(args: seq<string>, word: string, i: nat): seq<string>
    requires i <= |args|
  {
    if i == 0 then []
    else if !OptionWord(args[i - 1]) && !Switch(args[i - 1]) && LastOption(args, i - 1) == Some(word)
    then Following(args, word, i - 1) + [args[i - 1]]
    else Following(args, word, i - 1)
  }

  function Spelling(option: OptionName): (word: string)
    ensures OptionWord(word) && KindOf(word) == Key(option)
  {
    match option
    case Name => "--name"
    case Type => "--type"
    case File => "--file"
    case Output => "--output"
    case Namespace => "--namespace"
  }

  lemma KindBySpelling(arg: string)
    ensures KindOf(arg).Key? <==> OptionWord(arg)
    ensures KindOf(arg).Key? ==> arg == Spelling(KindOf(arg).option)
    ensures KindOf(arg) == Value <==> !OptionWord(arg) && !Switch(arg)
  {
  }

  lemma {:induction false} CurrentBySpelling(args: seq<string>, i: nat)
    requires i <= |args|
    ensures LastOption(args, i) == match CurrentOption(args, i) case None => None case Some(o) => Some(Spelling(o))
  {
    hide KindOf, OptionWord, Spelling;
    if i > 0 {
      KindBySpelling(args[i - 1]);
      CurrentBySpelling(args, i - 1);
    }
  }

  lemma SameSpelling(o: OptionName, p: OptionName)
    requires Spelling(o) == Spelling(p)
    ensures o == p
  {
  }

  lemma {:induction false} ValuesBySpelling(args: seq<string>, option: OptionName, i: nat)
    requires i <= |args|
    ensures ValuesOf(args, option, i) == Following(args, Spelling(option), i)
  {
    hide KindOf, OptionWord, Spelling, Switch;
    if i > 0 {
      KindBySpelling(args[i - 1]);
      CurrentBySpelling(args, i - 1);
      ValuesBySpelling(args, option, i - 1);
      var current := CurrentOption(args, i - 1);
      if current.Some? && Spelling(current.value) == Spelling(option) {
        SameSpelling(current.value, option);
      }
    }
  }

  lemma {:induction false} SeenBySpelling(args: seq<string>, i: nat)
    requires i <= |args|
    ensures Seen(args, Help, i) <==> "--help" in args[..i]
    ensures Seen(args, Formatted, i) <==> "--formatted" in args[..i]
    ensures Seen(args, Binary, i) <==> "--binary" in args[..i]
    ensures Seen(args, Nullterm, i) <==> "--nullterm" in args[..i]
  {
    if i > 0 {
      SeenBySpelling(args, i - 1);
      assert args[..i] == args[..i - 1] + [args[i - 1]];
    }
  }

  lemma JoinOneMore(args: seq<string>, arg: string)
    ensures JoinWords(args + [arg]) == Append(JoinWords(args), arg)
  {
    assert (args + [arg])[..|args|] == args;
  }

  ghost predicate Collected(values: map<OptionName, string>, args: seq<string>, i: nat)
    requires i <= |args|
  {
    forall o: OptionName :: o in values && values[o] == JoinWords(ValuesOf(args, o, i))
  }

  /** Every option holds the blank-joined arguments behind its own word. */
  ghost predicate CollectedWords(values: map<OptionName, string>, args: seq<string>)
  {
    && (forall o: OptionName :: o in values)
    && values[Name] == JoinWords(Following(args, "--name", |args|))
    && values[Type] == JoinWords(Following(args, "--type", |args|))
    && values[File] == JoinWords(Following(args, "--file", |args|))
    && values[Output] == JoinWords(Following(args, "--output", |args|))
    && values[Namespace] == JoinWords(Following(args, "--namespace", |args|))
  }

  lemma WordsCollected(values: map<OptionName, string>, args: seq<string>)
    requires Collected(values, args, |args|)
    ensures CollectedWords(values, args)
  {
    hide JoinWords, ValuesOf, Following;
    ValuesBySpelling(args, Name, |args|);
    ValuesBySpelling(args, Type, |args|);
    ValuesBySpelling(args, File, |args|);
    ValuesBySpelling(args, Output, |args|);
    ValuesBySpelling(args, Namespace, |args|);
  }

  lemma NothingCollected(values: map<OptionName, string>, args: seq<string>)
    requires values == map[Name := "", Type := "", File := "", Output := "", Namespace := ""]
    ensures Collected(values, args, 0)
  {
    forall o: OptionName ensures o in values && values[o] == "" {
      match o case Name => case Type => case File => case Output => case Namespace =>
    }
  }

  lemma CollectValue(values: map<OptionName, string>, args: seq<string>, i: nat, o: OptionName)
    requires i < |args| && Collected(values, args, i) && KindOf(args[i]) == Value
    requires CurrentOption(args, i) == Some(o)
    ensures Collected(values[o := Append(values[o], args[i])], args, i + 1)
  {
    JoinOneMore(ValuesOf(args, o, i), args[i]);
  }

  lemma CollectOther(values: map<OptionName, string>, args: seq<string>, i: nat)
    requires i < |args| && Collected(values, args, i)
    requires KindOf(args[i]) != Value || CurrentOption(args, i).None?
    ensures Collected(values, args, i + 1)
  {
    forall o: OptionName ensures ValuesOf(args, o, i + 1) == ValuesOf(args, o, i) {
    }
  }

  class Options {
    var formatted: bool
    var binary: bool
    var nullterm: bool
    var values: map<OptionName, string>

    constructor ()
      ensures !formatted && !binary && !nullterm && values == map[]
    {
      formatted, binary, nullterm, values := false, false, false, map[];
    }

    /** Every option holds the blank-joined arguments that follow its name, wherever they stand; switches
        may be mixed in.  Asking for help exits at once. */
    method Parse(args: seq<string>) returns (exited: bool)
      requires !formatted && !binary && !nullterm
      modifies this
      ensures exited <==> "--help" in args
      ensures !exited ==> formatted == ("--formatted" in args)
      ensures !exited ==> binary == ("--binary" in args)
      ensures !exited ==> nullterm == ("--nullterm" in args)
      ensures !exited ==> CollectedWords(values, args)
    {
      hide KindOf, JoinWords, ValuesOf;
      SeenBySpelling(args, |args|);
      assert args[..|args|] == args;
      values := map[Name := "", Type := "", File := "", Output := "", Namespace := ""];
      var currOpt := None;
      NothingCollected(values, args);
      for i := 0 to |args|
        invariant Collected(values, args, i)
        invariant !Seen(args, Help, i)
        invariant formatted == Seen(args, Formatted, i)
        invariant binary == Seen(args, Binary, i)
        invariant nullterm == Seen(args, Nullterm, i)
        invariant currOpt == CurrentOption(args, i)
      {
        var kind := KindOf(args[i]);
        if kind == Help {
          SeenLater(args, Help, i + 1, |args|);
          return true;
        }
        if kind == Value && currOpt.Some? {
          CollectValue(values, args, i, currOpt.value);
          values := values[currOpt.value := Append(values[currOpt.value], args[i])];
        } else {
          CollectOther(values, args, i);
          match kind {
            case Binary => binary := true;
            case Nullterm => nullterm := true;
            case Formatted => formatted := true;
            case Key(o) => currOpt := Some(o);
            case _ =>
          }
        }
      }
      WordsCollected(values, args);
      exited := false;
    }
  }
}
