/** What holds of every generated header: its braces, the list and the length a compiler finds in it, and the
    namespaces it opens. */
module HeaderProperties {
  import opened Numerals
  import opened ByteList
  import opened OptionWords
  import opened HeaderGenerator

  // ----- Balanced braces

  function BraceOf(c: char): int
  {
    if c == '{' then 1 else if c == '}' then -1 else 0
  }

  /** Opening braces minus closing braces. */
  function Balance(s: string): int
  {
    if s == "" then 0 else Balance(s[..|s| - 1]) + BraceOf(s[|s| - 1])
  }

  predicate NoBrace(s: string)
  {
    forall c | c in s :: BraceOf(c) == 0
  }

  lemma {:induction false} BalanceConcat(s: string, t: string)
    ensures Balance(s + t) == Balance(s) + Balance(t)
  {
    if t == "" {
      assert s + t == s;
    } else {
      assert (s + t)[..|s + t| - 1] == s + t[..|t| - 1];
      BalanceConcat(s, t[..|t| - 1]);
    }
  }

  lemma {:induction false} NoBraceBalance(s: string)
    requires NoBrace(s)
    ensures Balance(s) == 0
  {
    if s != "" {
      NoBraceBalance(s[..|s| - 1]);
    }
  }

  lemma {:induction false} ListHasNoBrace(bytes: string, k: nat, nullterm: bool, formatted: bool, level: nat)
    requires k <= |bytes|
    ensures NoBrace(ListFrom(bytes, k, nullterm, formatted, level))
    decreases |bytes| - k
  {
    if k < |bytes| {
      WriteIsDigits(ByteOf(bytes[k]), 16);
      ListHasNoBrace(bytes, k + 1, nullterm, formatted, level);
      assert forall c | c in Item(bytes[k]) :: BraceOf(c) == 0;
      assert forall c | c in Break(k + 1, formatted, level) :: BraceOf(c) == 0;
    }
  }

  lemma WithLineBalance(out: string, line: string, formatted: bool, level: nat)
    ensures Balance(WithLine(out, line, formatted, level)) == Balance(out) + Balance(line)
  {
    BalanceConcat(out, line);
    BalanceConcat(out + line, Tabs(formatted, level));
    NoBraceBalance(Tabs(formatted, level));
  }

  /** A text with one brace in it. */
  lemma OneBrace(before: string, brace: string, after: string)
    requires NoBrace(before) && NoBrace(after) && |brace| == 1
    ensures Balance(before + brace + after) == BraceOf(brace[0])
  {
    NoBraceBalance(before);
    NoBraceBalance(after);
    BalanceConcat(before, brace);
    BalanceConcat(before + brace, after);
    assert brace[..0] == "";
  }

  lemma {:induction false} ClosingsBalance(n: nat, formatted: bool)
    ensures Balance(Closings(n, formatted)) + n == 0
  {
    if n > 0 {
      var tabs := Tabs(formatted, n - 1);
      ClosingsBalance(n - 1, formatted);
      OneBrace(tabs, "}", "\n");
      assert tabs + "}\n" == tabs + "}" + "\n";
      BalanceConcat(tabs + "}\n", Closings(n - 1, formatted));
    }
  }

  lemma NoBraceConcat(s: string, t: string)
    requires NoBrace(s) && NoBrace(t)
    ensures NoBrace(s + t)
  {
  }

  /** A text around a name. */
  lemma AroundBalance(before: string, name: string, after: string)
    requires NoBrace(before) && NoBrace(after)
    ensures Balance(before + name + after) == Balance(name)
  {
    NoBraceBalance(before);
    NoBraceBalance(after);
    BalanceConcat(before, name);
    BalanceConcat(before + name, after);
  }

  lemma OpeningBalance(name: string, formatted: bool, level: nat)
    ensures Balance(Opening(name, formatted, level)) == 1 + Balance(name)
  {
    hide Balance, NoBrace, Tabs;
    var before := Tabs(formatted, level) + "namespace ";
    PlainPieces();
    TabsPlain(formatted, level);
    NoBraceConcat(Tabs(formatted, level), "namespace ");
    AroundBalance(before, name, "");
    OneBrace(" ", "{", " \n");
    BalanceConcat(before + name + "", " " + "{" + " \n");
    OpeningPieces(before, name);
  }

  lemma OpeningPieces(before: string, name: string)
    ensures before + name + " { \n" == before + name + "" + (" " + "{" + " \n")
  {
  }

  lemma TabsPlain(formatted: bool, level: nat)
    ensures NoBrace(Tabs(formatted, level))
  {
  }

  function TotalBalance(names: seq<string>): int
  {
    if names == [] then 0 else TotalBalance(names[..|names| - 1]) + Balance(names[|names| - 1])
  }

  lemma {:induction false} OpeningsBalance(names: seq<string>, formatted: bool)
    ensures Balance(Openings(names, formatted, 0)) == |names| + TotalBalance(names)
  {
    if names != [] {
      var name := names[|names| - 1];
      OpeningsBalance(names[..|names| - 1], formatted);
      OpeningBalance(name, formatted, |names| - 1);
      BalanceConcat(Openings(names[..|names| - 1], formatted, 0), Opening(name, formatted, |names| - 1));
    }
  }

  lemma PointerLineBalance(name: string, typ: string)
    ensures Balance(PointerLine(name, typ)) == 2 * Balance(name) + 2 * Balance(typ)
  {
    hide Balance, NoBrace;
    var a, b := "static const " + typ + " *", "" + name + " = (const ";
    var c, d := "" + typ + " *)", "" + name + "_uchar;\n";
    PlainPieces();
    AroundBalance("static const ", typ, " *");
    AroundBalance("", name, " = (const ");
    AroundBalance("", typ, " *)");
    AroundBalance("", name, "_uchar;\n");
    BalanceConcat(a, b);
    BalanceConcat(a + b, c);
    BalanceConcat(a + b + c, d);
    PointerLinePieces(name, typ);
  }

  lemma PlainPieces()
    ensures NoBrace("") && NoBrace("static const ") && NoBrace(" *") && NoBrace(" = (const ") && NoBrace(" *)")
    ensures NoBrace("_uchar;\n") && NoBrace("namespace ") && NoBrace(" ") && NoBrace(" \n") && NoBrace("\n")
  {
  }

  lemma PlainDeclarations()
    ensures NoBrace("static const common::Source ") && NoBrace("_src") && NoBrace("static const unsigned char ")
    ensures NoBrace("_uchar [] = ")
  {
  }

  lemma PointerLinePieces(name: string, typ: string)
    ensures PointerLine(name, typ)
         == ("static const " + typ + " *") + ("" + name + " = (const ") + ("" + typ + " *)") + ("" + name + "_uchar;\n")
  {
  }

  lemma LengthLineBalance(name: string, count: nat)
    ensures Balance(LengthLine(name, count)) == Balance(name)
  {
    hide Balance, NoBrace, Write;
    var after := "_len" + "  = " + Write(count, 10) + ";\n";
    AfterLength(count, after);
    AroundBalance("static const size_t ", name, after);
    LengthLinePieces(name, count, after);
  }

  lemma AfterLength(count: nat, after: string)
    requires after == "_len" + "  = " + Write(count, 10) + ";\n"
    ensures NoBrace("static const size_t ") && NoBrace(after)
  {
    hide Write;
    WriteIsDigits(count, 10);
  }

  lemma LengthLinePieces(name: string, count: nat, after: string)
    requires after == "_len" + "  = " + Write(count, 10) + ";\n"
    ensures LengthLine(name, count) == "static const size_t " + name + after
  {
    hide Write;
  }

  lemma HashLineBalance(name: string, hash: string)
    ensures Balance(HashLine(name, hash)) == Balance(name) + Balance(hash)
  {
    hide Balance, NoBrace;
    HashPieces();
    AroundBalance("static const size_t ", name, "_hash = ");
    AroundBalance("", hash, "ULL;\n");
    BalanceConcat("static const size_t " + name + "_hash = ", "" + hash + "ULL;\n");
    HashLinePieces(name, hash);
  }

  lemma HashPieces()
    ensures NoBrace("static const size_t ") && NoBrace("_hash = ") && NoBrace("") && NoBrace("ULL;\n")
  {
  }

  lemma HashLinePieces(name: string, hash: string)
    ensures HashLine(name, hash) == ("static const size_t " + name + "_hash = ") + ("" + hash + "ULL;\n")
  {
    assert "_hash" + " = " == "_hash = ";
  }

  lemma FieldLinesBalance(name: string)
    ensures Balance(name + ",\n") == Balance(name + "_len,\n") == Balance(name + "_hash\n") == Balance(name)
  {
    AroundBalance("", name, ",\n");
    AroundBalance("", name, "_len,\n");
    AroundBalance("", name, "_hash\n");
    assert "" + name == name;
  }

  lemma EndBalance()
    ensures Balance(END) == -1
  {
    OneBrace("", "}", ";\n");
    assert END == "" + "}" + ";\n";
  }

  lemma SourceLineBalance(name: string)
    ensures Balance(SourceLine(name)) == 1 + Balance(name)
  {
    hide Balance, NoBrace;
    PlainPieces();
    PlainDeclarations();
    AroundBalance("static const common::Source ", name, "");
    OneBrace("_src", "{", "\n");
    var a := "static const common::Source " + name + "";
    BalanceConcat(a, "_src" + "{" + "\n");
    assert SourceLine(name) == a + ("_src" + "{" + "\n");
  }

  lemma DeclarationBalance(name: string)
    ensures Balance(Declaration(name)) == 1 + Balance(name)
  {
    hide Balance, NoBrace;
    PlainPieces();
    PlainDeclarations();
    AroundBalance("static const unsigned char ", name, "");
    OneBrace("_uchar [] = ", "{", "\n");
    var a := "static const unsigned char " + name + "";
    BalanceConcat(a, "_uchar [] = " + "{" + "\n");
    assert Declaration(name) == a + ("_uchar [] = " + "{" + "\n");
  }

  lemma PreambleBalance()
    ensures Balance(PREAMBLE) == 0
  {
    assert NoBrace("#pragma once\n");
    assert NoBrace("#include <cstddef>\n");
    assert NoBrace("#include <common/Source.hpp>\n");
    NoBraceConcat("#pragma once\n", "#include <cstddef>\n");
    NoBraceConcat("#pragma once\n" + "#include <cstddef>\n", "#include <common/Source.hpp>\n");
    NoBraceBalance(PREAMBLE);
  }

  lemma TrailerBalance(out: string, name: string, typ: string, count: nat, hash: string, formatted: bool, level: nat)
    ensures Balance(WithTrailer(out, name, typ, count, hash, formatted, level))
         == Balance(out) - 1 + 8 * Balance(name) + 2 * Balance(typ) + Balance(hash)
  {
    hide Balance, PointerLine, LengthLine, HashLine, SourceLine, WithLine;
    PointerLineBalance(name, typ);
    LengthLineBalance(name, count);
    HashLineBalance(name, hash);
    FieldLinesBalance(name);
    EndBalance();
    SourceLineBalance(name);
    var o1 := WithLine(out, END, formatted, level);
    WithLineBalance(out, END, formatted, level);
    var o2 := WithLine(o1, PointerLine(name, typ), formatted, level);
    WithLineBalance(o1, PointerLine(name, typ), formatted, level);
    var o3 := WithLine(o2, LengthLine(name, count), formatted, level);
    WithLineBalance(o2, LengthLine(name, count), formatted, level);
    var o4 := WithLine(o3, HashLine(name, hash), formatted, level);
    WithLineBalance(o3, HashLine(name, hash), formatted, level);
    var o5 := WithLine(o4, SourceLine(name), formatted, level + 1);
    WithLineBalance(o4, SourceLine(name), formatted, level + 1);
    var o6 := WithLine(o5, name + ",\n", formatted, level + 1);
    WithLineBalance(o5, name + ",\n", formatted, level + 1);
    var o7 := WithLine(o6, name + "_len,\n", formatted, level + 1);
    WithLineBalance(o6, name + "_len,\n", formatted, level + 1);
    var o8 := WithLine(o7, name + "_hash\n", formatted, level);
    WithLineBalance(o7, name + "_hash\n", formatted, level);
    BalanceConcat(o8, END);
  }

  lemma FrontBalance(name: string, namespaces: string, bytes: string, nullterm: bool, formatted: bool)
    ensures Balance(Front(name, namespaces, bytes, nullterm, formatted))
         == |Names(namespaces)| + TotalBalance(Names(namespaces)) + 1 + Balance(name)
  {
    hide Balance, Declaration, Openings, Names;
    var names := Names(namespaces);
    var level := |names|;
    PreambleBalance();
    OpeningsBalance(names, formatted);
    DeclarationBalance(name);
    var front := WithLine(PREAMBLE, Openings(names, formatted, 0), formatted, level);
    WithLineBalance(PREAMBLE, Openings(names, formatted, 0), formatted, level);
    WithLineBalance(front, Declaration(name), formatted, level + 1);
    var list := ListFrom(bytes, 0, nullterm, formatted, level + 1);
    ListHasNoBrace(bytes, 0, nullterm, formatted, level + 1);
    NoBraceBalance(list);
    BalanceConcat(WithLine(front, Declaration(name), formatted, level + 1), list);
  }

  /** Opening and closing braces of a header differ only by those in the names it is given, whatever the input:
      the name stands in it nine times, the type and the hash twice and once, and every namespace once. */
  lemma HeaderBalanced(name: string, typ: string, namespaces: string, bytes: string, hash: string,
                       nullterm: bool, formatted: bool)
    ensures Balance(HeaderText(name, typ, namespaces, bytes, hash, nullterm, formatted))
         == TotalBalance(Names(namespaces)) + 9 * Balance(name) + 2 * Balance(typ) + Balance(hash)
  {
    hide Balance, Front, WithTrailer, Closings, Names;
    var level := |Names(namespaces)|;
    var front := Front(name, namespaces, bytes, nullterm, formatted);
    FrontBalance(name, namespaces, bytes, nullterm, formatted);
    TrailerBalance(front, name, typ, Count(bytes, nullterm), hash, formatted, level);
    ClosingsBalance(level, formatted);
    BalanceConcat(WithTrailer(front, name, typ, Count(bytes, nullterm), hash, formatted, level),
                  Closings(level, formatted));
  }

  // ----- What a compiler finds in a header

  /** The text up to the first closing brace. */
  function UpToBrace(s: string): string
  {
    if s == "" || s[0] == '}' then "" else [s[0]] + UpToBrace(s[1..])
  }

  lemma {:induction false} UpToBraceOf(s: string, tail: string)
    requires '}' !in s && tail != "" && tail[0] == '}'
    ensures UpToBrace(s + tail) == s
  {
    if s == "" {
      assert s + tail == tail;
    } else {
      assert (s + tail)[1..] == s[1..] + tail;
      UpToBraceOf(s[1..], tail);
    }
  }

  /** The header up to the first character of the list. */
  function BeforeList(name: string, namespaces: string, formatted: bool): string
  {
    var names := Names(namespaces);
    WithLine(PREAMBLE, Openings(names, formatted, 0), formatted, |names|) + Declaration(name)
  }

  function ListText(namespaces: string, bytes: string, nullterm: bool, formatted: bool): string
  {
    var level := |Names(namespaces)| + 1;
    Tabs(formatted, level) + ListFrom(bytes, 0, nullterm, formatted, level)
  }

  lemma FrontPieces(name: string, namespaces: string, bytes: string, nullterm: bool, formatted: bool)
    ensures Front(name, namespaces, bytes, nullterm, formatted)
         == BeforeList(name, namespaces, formatted) + ListText(namespaces, bytes, nullterm, formatted)
  {
    hide Declaration, Openings, Names, ListFrom, Tabs;
    var names := Names(namespaces);
    var level := |names| + 1;
    var before := WithLine(PREAMBLE, Openings(names, formatted, 0), formatted, |names|);
    Assoc(before + Declaration(name), Tabs(formatted, level), ListFrom(bytes, 0, nullterm, formatted, level));
  }

  lemma Assoc(x: string, y: string, z: string)
    ensures (x + y) + z == x + (y + z)
  {
  }

  /** A line added to a text is added to the end of the text. */
  lemma LineAfter(out: string, x: string, line: string, formatted: bool, level: nat)
    ensures WithLine(out + x, line, formatted, level) == out + WithLine(x, line, formatted, level)
  {
    hide Tabs;
    Assoc(out, x, line);
    Assoc(out, x + line, Tabs(formatted, level));
  }

  /** What stands in a trailer before and after the length line. */
  lemma TrailerPieces(out: string, name: string, typ: string, count: nat, hash: string, formatted: bool, level: nat)
    returns (middle: string, after: string)
    ensures WithTrailer(out, name, typ, count, hash, formatted, level)
         == out + ((END + middle) + (LengthLine(name, count) + after))
    ensures middle == Tabs(formatted, level) + (PointerLine(name, typ) + Tabs(formatted, level))
  {
    hide LengthLine, PointerLine, HashLine, SourceLine, Tabs, WithLine;
    var pointer, line := PointerLine(name, typ), LengthLine(name, count);
    var m1 := WithLine("", END, formatted, level);
    var m2 := WithLine(m1, pointer, formatted, level);
    LineAfter(out, "", END, formatted, level);
    LineAfter(out, m1, pointer, formatted, level);
    assert out + "" == out;
    var a1 := WithLine(line, "", formatted, level);
    var a2 := WithLine(a1, HashLine(name, hash), formatted, level);
    var a3 := WithLine(a2, SourceLine(name), formatted, level + 1);
    var a4 := WithLine(a3, name + ",\n", formatted, level + 1);
    var a5 := WithLine(a4, name + "_len,\n", formatted, level + 1);
    var a6 := WithLine(a5, name + "_hash\n", formatted, level);
    FirstLineIs(out + m2, line, formatted, level);
    LineAfter(out + m2, a1, HashLine(name, hash), formatted, level);
    LineAfter(out + m2, a2, SourceLine(name), formatted, level + 1);
    LineAfter(out + m2, a3, name + ",\n", formatted, level + 1);
    LineAfter(out + m2, a4, name + "_len,\n", formatted, level + 1);
    LineAfter(out + m2, a5, name + "_hash\n", formatted, level);
    Assoc(out + m2, a6, END);
    Assoc(out, m2, a6 + END);
    middle := EndFirst(pointer, formatted, level);
    after := LineFirst(line, name, hash, formatted, level);
  }

  lemma FirstLineIs(out: string, line: string, formatted: bool, level: nat)
    ensures WithLine(out, line, formatted, level) == out + WithLine(line, "", formatted, level)
  {
    hide Tabs;
    assert line + "" == line;
    Assoc(out, line, Tabs(formatted, level));
  }

  lemma EndFirst(pointer: string, formatted: bool, level: nat) returns (middle: string)
    ensures WithLine(WithLine("", END, formatted, level), pointer, formatted, level) == END + middle
    ensures middle == Tabs(formatted, level) + (pointer + Tabs(formatted, level))
  {
    hide Tabs;
    var t := Tabs(formatted, level);
    middle := t + (pointer + t);
    assert "" + END == END;
    Assoc(END, t, pointer);
    Assoc(END, t + pointer, t);
    Assoc(t, pointer, t);
  }

  lemma LineFirst(line: string, name: string, hash: string, formatted: bool, level: nat) returns (after: string)
    ensures var a1 := WithLine(line, "", formatted, level);
      var a2 := WithLine(a1, HashLine(name, hash), formatted, level);
      var a3 := WithLine(a2, SourceLine(name), formatted, level + 1);
      var a4 := WithLine(a3, name + ",\n", formatted, level + 1);
      var a5 := WithLine(a4, name + "_len,\n", formatted, level + 1);
      var a6 := WithLine(a5, name + "_hash\n", formatted, level);
      a6 + END == line + after
  {
    hide Tabs, HashLine, SourceLine, WithLine;
    var b1 := WithLine("", "", formatted, level);
    LineAfter(line, "", "", formatted, level);
    assert line + "" == line;
    var b2 := WithLine(b1, HashLine(name, hash), formatted, level);
    LineAfter(line, b1, HashLine(name, hash), formatted, level);
    var b3 := WithLine(b2, SourceLine(name), formatted, level + 1);
    LineAfter(line, b2, SourceLine(name), formatted, level + 1);
    var b4 := WithLine(b3, name + ",\n", formatted, level + 1);
    LineAfter(line, b3, name + ",\n", formatted, level + 1);
    var b5 := WithLine(b4, name + "_len,\n", formatted, level + 1);
    LineAfter(line, b4, name + "_len,\n", formatted, level + 1);
    var b6 := WithLine(b5, name + "_hash\n", formatted, level);
    LineAfter(line, b5, name + "_hash\n", formatted, level);
    after := b6 + END;
    Assoc(line, b6, END);
  }

  /** In every header, between the declaration and the next closing brace, stands a list that a compiler reads as
      the given bytes with the terminator asked for, and after it come a pointer to it of the given name and type,
      and a line with their number. */
  lemma HeaderContents(name: string, typ: string, namespaces: string, bytes: string, hash: string,
                       nullterm: bool, formatted: bool)
    returns (middle: string, after: string)
    ensures var text := HeaderText(name, typ, namespaces, bytes, hash, nullterm, formatted);
      var before := BeforeList(name, namespaces, formatted);
      && before <= text
      && ReadList(UpToBrace(text[|before|..])) == Some(Values(bytes, 0, nullterm))
      && text[|before|..] == UpToBrace(text[|before|..]) + (END + middle
         + (("static const size_t " + name + "_len  = " + Write(|Values(bytes, 0, nullterm)|, 10) + ";\n") + after))
    ensures var indent := Tabs(formatted, |Names(namespaces)|);
      middle == indent
        + (("static const " + typ + " *" + name + " = (const " + typ + " *)" + name + "_uchar;\n") + indent)
    ensures AllDigits(Write(|Values(bytes, 0, nullterm)|, 10))
         && Read(Write(|Values(bytes, 0, nullterm)|, 10), 10) == |Values(bytes, 0, nullterm)|
  {
    hide WithTrailer, Front, BeforeList, LengthLine, PointerLine, Closings, ListFrom, ReadList, Tabs, Write, Read,
         AllDigits;
    var level := |Names(namespaces)|;
    var count := Count(bytes, nullterm);
    var list := ListText(namespaces, bytes, nullterm, formatted);
    var front := Front(name, namespaces, bytes, nullterm, formatted);
    var rest;
    middle, rest := TrailerPieces(front, name, typ, count, hash, formatted, level);
    after := rest + Closings(level, formatted);
    FrontPieces(name, namespaces, bytes, nullterm, formatted);
    var tail := END + middle + (LengthLine(name, count) + after);
    ListReads(namespaces, bytes, nullterm, formatted);
    Located(BeforeList(name, namespaces, formatted), list, END + middle, LengthLine(name, count), rest,
            Closings(level, formatted));
    UpToBraceOf(list, tail);
    ReadWrite(count, 10);
    LineTexts(name, typ, count);
  }

  lemma LineTexts(name: string, typ: string, count: nat)
    ensures PointerLine(name, typ)
         == "static const " + typ + " *" + name + " = (const " + typ + " *)" + name + "_uchar;\n"
    ensures LengthLine(name, count) == "static const size_t " + name + "_len  = " + Write(count, 10) + ";\n"
  {
    hide Write;
    assert name + "_len" + "  = " == name + "_len  = ";
    assert "static const size_t " + name + "_len" + "  = " == "static const size_t " + name + "_len  = ";
  }

  lemma Located(before: string, list: string, middle: string, line: string, rest: string, closings: string)
    ensures var text := before + list + (middle + (line + rest)) + closings;
      before <= text && text[|before|..] == list + (middle + (line + (rest + closings)))
  {
  }

  lemma ListReads(namespaces: string, bytes: string, nullterm: bool, formatted: bool)
    ensures '}' !in ListText(namespaces, bytes, nullterm, formatted)
    ensures ReadList(ListText(namespaces, bytes, nullterm, formatted)) == Some(Values(bytes, 0, nullterm))
  {
    hide ListFrom, ReadList, Values;
    var level := |Names(namespaces)| + 1;
    ListHasNoBrace(bytes, 0, nullterm, formatted, level);
    NoClosing(ListFrom(bytes, 0, nullterm, formatted, level));
    ReadPrintedList(bytes, 0, nullterm, formatted, level);
    ReadListSkips(Tabs(formatted, level), ListFrom(bytes, 0, nullterm, formatted, level));
  }

  lemma NoClosing(s: string)
    requires NoBrace(s)
    ensures '}' !in s
  {
  }

  /** The namespaces opened are the arguments given, exactly when no argument is empty or holds blanks. */
  lemma NamespacesComeBack(args: seq<string>)
    ensures Names(JoinWords(args)) == args <==> forall i | 0 <= i < |args| :: Plain(args[i])
  {
    SplitJoinedIff(args);
    WordsArePlain(JoinWords(args));
    if args == [""] {
      assert JoinWords(args[..0]) == "";
    } else if args != [] && forall i | 0 <= i < |args| :: Plain(args[i]) {
      JoinNonempty(args);
    }
  }
}
