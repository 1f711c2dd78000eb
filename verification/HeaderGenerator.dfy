/** Printing the header: namespaces, the byte list of the stripped file, its length, and the closing
    braces. */
module HeaderGenerator {
  import CommentAutomaton
  import CommentRemover
  import opened Numerals
  import opened ByteList
  import opened OptionWords

  const PREAMBLE := "#pragma once\n" + "#include <cstddef>\n" + "#include <common/Source.hpp>\n"

  /** The namespaces front for an option value; a value of blanks only opens one without a name. */
  function Names(value: string): seq<string>
  {
    if value == "" then [] else if Words(value) == [] then [""] else Words(value)
  }

  function Openings(names: seq<string>, formatted: bool, level: nat): string
  {
    if names == [] then ""
    else Openings(names[..|names| - 1], formatted, level)
         + Opening(names[|names| - 1], formatted, level + |names| - 1)
  }

  function Opening(name: string, formatted: bool, level: nat): string
  {
    Tabs(formatted, level) + "namespace " + name + " { \n"
  }

  function Closings(n: nat, formatted: bool): string
  {
    if n == 0 then "" else Tabs(formatted, n - 1) + "}\n" + Closings(n - 1, formatted)
  }

  function Declaration(name: string): string
  {
    "static const unsigned char " + name + "_uchar [] = {\n"
  }

  function PointerLine(name: string, typ: string): string
  {
    "static const " + typ + " *" + name + " = (const " + typ + " *)" + name + "_uchar;\n"
  }

  /** The length is printed in base ten. */
  function LengthLine(name: string, count: nat): string
  {
    "static const size_t " + name + "_len" + "  = " + Write(count, 10) + ";\n"
  }

  function HashLine(name: string, hash: string): string
  {
    "static const size_t " + name + "_hash" + " = " + hash + "ULL;\n"
  }

  function SourceLine(name: string): string
  {
    "static const common::Source " + name + "_src{\n"
  }

  /** A line, and the indentation of the next one. */
  function WithLine(out: string, line: string, formatted: bool, level: nat): string
  {
    out + line + Tabs(formatted, level)
  }

  const END := "};\n"

  /** The text `out` followed by what comes after the list. */
  function WithTrailer(out: string, name: string, typ: string, count: nat, hash: string,
                       formatted: bool, level: nat): string
  {
    var o1 := WithLine(out, END, formatted, level);
    var o2 := WithLine(o1, PointerLine(name, typ), formatted, level);
    var o3 := WithLine(o2, LengthLine(name, count), formatted, level);
    var o4 := WithLine(o3, HashLine(name, hash), formatted, level);
    var o5 := WithLine(o4, SourceLine(name), formatted, level + 1);
    var o6 := WithLine(o5, name + ",\n", formatted, level + 1);
    var o7 := WithLine(o6, name + "_len,\n", formatted, level + 1);
    var o8 := WithLine(o7, name + "_hash\n", formatted, level);
    o8 + END
  }

  function Count(bytes: string, nullterm: bool): nat
  {
    |bytes| + (if nullterm then 1 else 0)
  }

  /** The header up to and including the byte list. */
  function Front(name: string, namespaces: string, bytes: string, nullterm: bool, formatted: bool): string
  {
    var names := Names(namespaces);
    WithLine(WithLine(PREAMBLE, Openings(names, formatted, 0), formatted, |names|), Declaration(name),
             formatted, |names| + 1)
    + ListFrom(bytes, 0, nullterm, formatted, |names| + 1)
  }

  function HeaderText(name: string, typ: string, namespaces: string, bytes: string, hash: string,
                      nullterm: bool, formatted: bool): string
  {
    var level := |Names(namespaces)|;
    WithTrailer(Front(name, namespaces, bytes, nullterm, formatted), name, typ, Count(bytes, nullterm), hash,
                formatted, level)
    + Closings(level, formatted)
  }

  lemma OpeningsStep(names: seq<string>, k: nat, formatted: bool, before: string, start: string)
    requires k < |names| && before == start + Openings(names[..k], formatted, 0)
    ensures before + Opening(names[k], formatted, k)
         == start + Openings(names[..k + 1], formatted, 0)
  {
    assert names[..k + 1][..k] == names[..k];
  }

  lemma ClosingsStep(before: string, left: nat, formatted: bool)
    ensures before + Closings(left + 1, formatted)
         == before + Tabs(formatted, left) + "}\n" + Closings(left, formatted)
  {
  }

  lemma NextWord(names: seq<string>, k: nat, rest: string)
    requires k <= |names| && names[k..] == Words(rest)
    ensures Extract(rest).Failed? ==> k == |names|
    ensures Extract(rest).Word? ==>
      k < |names| && names[k] == Extract(rest).word && names[k + 1..] == Words(Extract(rest).rest)
  {
    if Extract(rest).Word? {
      assert names[k] == names[k..][0];
      assert names[k + 1..] == names[k..][1..];
    }
  }

  lemma ListStep(before: string, bytes: string, k: nat, nullterm: bool, formatted: bool, level: nat)
    requires k < |bytes|
    ensures before + (Item(bytes[k]) + Break(k + 1, formatted, level))
            + ListFrom(bytes, k + 1, nullterm, formatted, level)
         == before + ListFrom(bytes, k, nullterm, formatted, level)
  {
  }

  function OrDefault(value: string, default: string): string
  {
    if value == "" then default else value
  }

  class Generator {
    const formatted: bool
    var out: string
    var level: nat

    constructor (formatted: bool)
      ensures out == "" && level == 0 && this.formatted == formatted
    {
      this.formatted := formatted;
      out, level := "", 0;
    }

    method AddTabs(n: nat)
      modifies this`out
      ensures out == old(out) + Tabs(formatted, n)
    {
      if formatted {
        for i := 0 to n
          invariant out == old(out) + Tabs(formatted, i)
        {
          out := out + "\t";
          assert Tabs(formatted, i + 1) == Tabs(formatted, i) + "\t";
        }
      }
    }

    method OpenNamespace(name: string)
      modifies this
      ensures level == old(level) + 1
      ensures out == old(out) + Opening(name, formatted, old(level))
    {
      AddTabs(level);
      level := level + 1;
      out := out + "namespace " + name + " { \n";
    }

    /** Opens one namespace per word, extracting the next word after each. */
    method OpenNamespaces(value: string) returns (count: nat)
      requires level == 0
      modifies this
      ensures count == |Names(value)| == level
      ensures out == old(out) + Openings(Names(value), formatted, 0)
    {
      count := 0;
      ghost var names := Names(value);
      if value != "" {
        var e := Extract(value);
        var name := if e.Word? then e.word else "";
        var rest := if e.Word? then e.rest else "";
        var failed := false;
        while !failed
          invariant level == count <= |names|
          invariant out == old(out) + Openings(names[..count], formatted, 0)
          invariant failed ==> count == |names|
          invariant !failed ==> count < |names| && names[count] == name && names[count + 1..] == Words(rest)
          decreases !failed, |rest|
        {
          ghost var before := out;
          OpenNamespace(name);
          OpeningsStep(names, count, formatted, before, old(out));
          count := count + 1;
          e := Extract(rest);
          failed := e.Failed?;
          NextWord(names, count, rest);
          if !failed {
            name, rest := e.word, e.rest;
          }
        }
      }
      assert names[..|names|] == names;
    }

    method PrintByte(c: char, charCnt: nat)
      modifies this`out
      ensures out == old(out) + (Item(c) + Break(charCnt + 1, formatted, level))
    {
      out := out + Item(c);
      if (charCnt + 1) % BYTES_PER_LINE == 0 {
        out := out + "\n";
        AddTabs(level);
      }
    }

    /** Prints every byte of the stripped file, ten to a line. */
    method PrintBytes(bytes: string, nullterm: bool) returns (charCnt: nat)
      modifies this`out
      ensures out == old(out) + ListFrom(bytes, 0, nullterm, formatted, level)
      ensures charCnt == Count(bytes, nullterm)
    {
      charCnt := 0;
      while charCnt < |bytes|
        invariant charCnt <= |bytes|
        invariant out + ListFrom(bytes, charCnt, nullterm, formatted, level)
               == old(out) + ListFrom(bytes, 0, nullterm, formatted, level)
      {
        ListStep(out, bytes, charCnt, nullterm, formatted, level);
        PrintByte(bytes[charCnt], charCnt);
        charCnt := charCnt + 1;
      }
      if nullterm {
        out := out + "0x0";
        charCnt := charCnt + 1;
      }
    }

    method CloseNamespaces(count: nat)
      requires level == count
      modifies this
      ensures out == old(out) + Closings(count, formatted)
      ensures level == 0
    {
      hide Tabs;
      var left := count;
      while left > 0
        invariant level == left
        invariant out + Closings(left, formatted) == old(out) + Closings(count, formatted)
      {
        left := left - 1;
        level := level - 1;
        ClosingsStep(out, left, formatted);
        AddTabs(level);
        out := out + "}\n";
      }
    }

    method PrintLine(line: string)
      modifies this`out
      ensures out == WithLine(old(out), line, formatted, level)
    {
      out := out + line;
      AddTabs(level);
    }

    method PrintTrailer(name: string, typ: string, count: nat, hash: string)
      modifies this
      ensures level == old(level)
      ensures out == WithTrailer(old(out), name, typ, count, hash, formatted, level)
    {
      PrintLine(END);
      PrintLine(PointerLine(name, typ));
      PrintLine(LengthLine(name, count));
      PrintLine(HashLine(name, hash));
      level := level + 1;
      PrintLine(SourceLine(name));
      PrintLine(name + ",\n");
      PrintLine(name + "_len,\n");
      level := level - 1;
      PrintLine(name + "_hash\n");
      out := out + END;
    }

    method PrintFront(name: string, namespaces: string, ss: string, nullterm: bool)
      returns (nsCnt: nat, charCnt: nat)
      requires out == "" && level == 0
      modifies this
      ensures level == nsCnt == |Names(namespaces)| && charCnt == Count(ss, nullterm)
      ensures out == Front(name, namespaces, ss, nullterm, formatted)
    {
      out := PREAMBLE;
      nsCnt := OpenNamespaces(namespaces);
      AddTabs(level);
      level := level + 1;
      PrintLine(Declaration(name));
      charCnt := PrintBytes(ss, nullterm);
      level := level - 1;
    }

    /** The whole header for an input file; `hash` stands for the hash of the stripped text. */
    method Generate(nameArg: string, typeArg: string, namespaces: string, input: string, hash: string,
                    nullterm: bool)
      requires out == "" && level == 0
      modifies this
      ensures level == 0
      ensures out == HeaderText(OrDefault(nameArg, "var"), OrDefault(typeArg, "char"), namespaces,
                                CommentAutomaton.Strip(input), hash, nullterm, formatted)
    {
      var name := OrDefault(nameArg, "var");
      var typ := OrDefault(typeArg, "char");
      var ss := CommentRemover.RemoveComments(input);
      var nsCnt, charCnt := PrintFront(name, namespaces, ss, nullterm);
      PrintTrailer(name, typ, charCnt, hash);
      CloseNamespaces(nsCnt);
    }
  }
}
