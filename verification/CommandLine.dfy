/** The whole program: from the command line and the contents of a file to the header. */
module CommandLine {
  import CommentAutomaton
  import CommentFreeText
  import opened Numerals
  import opened ByteList
  import opened OptionWords
  import opened Bin2Cpp
  import opened HeaderGenerator
  import opened HeaderProperties

  /** The value of an option after all arguments. */
  function ValueOf(args: seq<string>, word: string): string
  {
    JoinWords(Following(args, word, |args|))
  }

  /** The header the arguments ask for. */
  function Requested(args: seq<string>, file: string, hash: string): string
  {
    HeaderText(OrDefault(ValueOf(args, "--name"), "var"), OrDefault(ValueOf(args, "--type"), "char"),
               ValueOf(args, "--namespace"), CommentAutomaton.Strip(file), hash, "--nullterm" in args,
               "--formatted" in args)
  }

  /** Prints the usage when there are no arguments but the program's name, or when help is asked for, and the
      header otherwise. */
  method PrintHeader(args: seq<string>, file: string, hash: string) returns (header: Option<string>)
    ensures header.None? <==> |args| == 1 || "--help" in args
    ensures header.Some? ==> header.value == Requested(args, file, hash)
  {
    if |args| == 1 {
      return None;
    }
    var options := new Options();
    var exited := options.Parse(args);
    if exited {
      return None;
    }
    var generator := new Generator(options.formatted);
    generator.Generate(options.values[Name], options.values[Type], options.values[Namespace], file, hash,
                       options.nullterm);
    header := Some(generator.out);
  }

  /** What the header of a command line holds, whatever the arguments: in front of the list, one namespace per word
      given for them; in the list, the bytes of the file without its comments, and the terminator exactly if asked
      for; behind it the pointer of the name and type given, and the number of bytes.  Asking for binary input makes
      no difference. */
  lemma RequestedContents(args: seq<string>, file: string, hash: string) returns (middle: string, after: string)
    ensures var text := Requested(args, file, hash);
      var name := OrDefault(ValueOf(args, "--name"), "var");
      var before := BeforeList(name, ValueOf(args, "--namespace"), "--formatted" in args);
      var bytes := Values(CommentAutomaton.Strip(file), 0, "--nullterm" in args);
      && before <= text
      && ReadList(UpToBrace(text[|before|..])) == Some(bytes)
      && text[|before|..] == UpToBrace(text[|before|..]) + (END + middle
         + (("static const size_t " + name + "_len  = " + Write(|bytes|, 10) + ";\n") + after))
    ensures var name, typ := OrDefault(ValueOf(args, "--name"), "var"), OrDefault(ValueOf(args, "--type"), "char");
      var indent := Tabs("--formatted" in args, |Names(ValueOf(args, "--namespace"))|);
      middle == indent
        + (("static const " + typ + " *" + name + " = (const " + typ + " *)" + name + "_uchar;\n") + indent)
    ensures var namespaces := Following(args, "--namespace", |args|);
      Names(ValueOf(args, "--namespace")) == namespaces <==> forall i | 0 <= i < |namespaces| :: Plain(namespaces[i])
  {
    hide HeaderText, BeforeList, ReadList, Values, Write, Tabs;
    var name, typ := OrDefault(ValueOf(args, "--name"), "var"), OrDefault(ValueOf(args, "--type"), "char");
    middle, after := HeaderContents(name, typ, ValueOf(args, "--namespace"), CommentAutomaton.Strip(file), hash,
                                    "--nullterm" in args, "--formatted" in args);
    NamespacesComeBack(Following(args, "--namespace", |args|));
  }

  /** The list holds the file byte for byte exactly when nothing in it is stripped, with or without asking for
      binary input. */
  lemma ListedUnchangedIff(file: string)
    requires forall c | c in file :: c as int < 256
    ensures Values(CommentAutomaton.Strip(file), 0, false) == Codes(file)
      <==> CommentFreeText.Untouched(CommentAutomaton.NO, file)
  {
    hide CommentAutomaton.StripFrom, CommentFreeText.Untouched;
    var out := CommentAutomaton.Strip(file);
    CommentFreeText.StripUnchangedIff(file);
    StrippedBytes(file);
    SameValues(out, file);
  }

  lemma SameValues(out: string, file: string)
    requires forall c | c in file || c in out :: c as int < 256
    ensures Values(out, 0, false) == Codes(file) <==> out == file
  {
    hide Values, Codes;
    var v := Values(out, 0, false);
    forall i | 0 <= i < |out| ensures v[i] == out[i] as int {
      assert out[i] in out;
      assert v[i - 0] == ByteOf(out[i]);
    }
    if v == Codes(file) {
      forall i | 0 <= i < |file| ensures out[i] == file[i] {
        assert v[i] == Codes(file)[i];
      }
    }
  }

  function Codes(file: string): (v: seq<nat>)
    ensures |v| == |file| && forall i | 0 <= i < |file| :: v[i] == file[i] as int
  {
    seq(|file|, i requires 0 <= i < |file| => file[i] as int)
  }

  lemma StrippedBytes(file: string)
    requires forall c | c in file :: c as int < 256
    ensures forall c | c in CommentAutomaton.Strip(file) :: c as int < 256
  {
    CommentFreeText.StrippedFrom(CommentAutomaton.NO, file);
  }
}
