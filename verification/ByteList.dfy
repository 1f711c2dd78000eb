/** The initializer list printed for a byte array, and how a compiler reads it. */
module ByteList {
  import opened Numerals

  const BYTES_PER_LINE := 10

  function ByteOf(c: char): (b: nat)
    ensures b < 256
  {
    c as int % 256
  }

  function Tabs(formatted: bool, level: nat): (t: string)
    ensures forall c | c in t :: c == '\t'
  {
    if formatted then seq(level, _ => '\t') else ""
  }

  function Item(c: char): string
  {
    "0x" + Write(ByteOf(c), 16) + ",\t"
  }

  /** After every tenth byte the list goes on in a new line. */
  function Break(count: nat, formatted: bool, level: nat): (t: string)
    ensures forall c | c in t :: Blank(c)
  {
    if count % BYTES_PER_LINE == 0 then "\n" + Tabs(formatted, level) else ""
  }

  /** The list from byte k on. */
  function ListFrom(bytes: string, k: nat, nullterm: bool, formatted: bool, level: nat): string
    requires k <= |bytes|
    decreases |bytes| - k
  {
    if k == |bytes| then (if nullterm then "0x0" else "")
    else Item(bytes[k]) + Break(k + 1, formatted, level) + ListFrom(bytes, k + 1, nullterm, formatted, level)
  }

  // ----- Reading an initializer list

  datatype Option<T> = None | Some(value: T)

  predicate Blank(c: char)
  {
    c == ' ' || c == '\t' || c == '\n'
  }

  function Skip(s: string): (t: string)
    ensures |t| <= |s|
  {
    if s != "" && Blank(s[0]) then Skip(s[1..]) else s
  }

  /** Number of leading hexadecimal digits. */
  function HexRun(s: string): (n: nat)
    ensures n <= |s| && AllDigits(s[..n])
  {
    if s == "" || DigitValue(s[0]) < 0 then 0
    else
      assert s[..1 + HexRun(s[1..])] == [s[0]] + s[1..][..HexRun(s[1..])];
      1 + HexRun(s[1..])
  }

  /** Hexadecimal literals separated by commas; a comma may end the list. */
  function ReadList(s: string): Option<seq<nat>>
    decreases |s|
  {
    var t := Skip(s);
    if t == "" then Some([])
    else if !("0x" <= t) then None
    else
      var n := HexRun(t[2..]);
      if n == 0 then None
      else
        var v := Read(t[2..][..n], 16);
        var u := Skip(t[2..][n..]);
        if u == "" then Some([v])
        else if u[0] != ',' then None
        else
          var rest := ReadList(u[1..]);
          if rest.None? then None else Some([v] + rest.value)
  }

  // ----- Round trip

  lemma {:induction false} SkipBlanks(b: string, s: string)
    requires forall c | c in b :: Blank(c)
    ensures Skip(b + s) == Skip(s)
  {
    if b == "" {
      assert b + s == s;
    } else {
      assert (b + s)[1..] == b[1..] + s;
      SkipBlanks(b[1..], s);
    }
  }

  lemma ReadListSkips(b: string, s: string)
    requires forall c | c in b :: Blank(c)
    ensures ReadList(b + s) == ReadList(s)
  {
    SkipBlanks(b, s);
  }

  lemma {:induction false} HexRunStops(d: string, s: string)
    requires AllDigits(d) && (s == "" || DigitValue(s[0]) < 0)
    ensures HexRun(d + s) == |d|
  {
    if d == "" {
      assert d + s == s;
    } else {
      assert (d + s)[1..] == d[1..] + s;
      HexRunStops(d[1..], s);
    }
  }

  lemma ReadLiteral(w: string, s: string)
    requires w != "" && AllDigits(w) && ReadList(s).Some?
    ensures ReadList("0x" + (w + ("," + s))) == Some([Read(w, 16)] + ReadList(s).value)
  {
    var after := "," + s;
    var t := "0x" + (w + after);
    assert t[0] == '0' && !Blank(t[0]);
    assert Skip(t) == t;
    assert "0x" <= t && t[2..] == w + after;
    HexRunStops(w, after);
    assert (w + after)[..|w|] == w && (w + after)[|w|..] == after;
    assert Skip(after) == after;
    assert after[1..] == s;
  }

  /** A literal followed by a comma and more of the list. */
  lemma ReadItem(v: nat, s: string)
    requires ReadList(s).Some?
    ensures ReadList("0x" + Write(v, 16) + ",\t" + s) == Some([v] + ReadList(s).value)
  {
    hide ReadList, Write, Read, AllDigits;
    ReadWrite(v, 16);
    WriteIsDigits(v, 16);
    ReadListSkips("\t", s);
    ReadLiteral(Write(v, 16), "\t" + s);
    assert "0x" + Write(v, 16) + ",\t" + s == "0x" + (Write(v, 16) + ("," + ("\t" + s)));
  }

  lemma ReadTerminator()
    ensures ReadList("0x0") == Some([0])
  {
    ReadWrite(0, 16);
    HexRunStops("0", "");
    assert "0x0"[2..] == "0" + "";
    assert "0"[..1] == "0" && "0"[1..] == "";
    assert Write(0, 16) == "0";
  }

  function Values(bytes: string, k: nat, nullterm: bool): (v: seq<nat>)
    requires k <= |bytes|
    ensures |v| == |bytes| - k + (if nullterm then 1 else 0)
    ensures forall i | k <= i < |bytes| :: v[i - k] == ByteOf(bytes[i])
    ensures nullterm ==> v[|bytes| - k] == 0
    decreases |bytes| - k
  {
    if k == |bytes| then (if nullterm then [0] else [])
    else [ByteOf(bytes[k])] + Values(bytes, k + 1, nullterm)
  }

  /** Reading the printed list gives exactly the bytes printed, plus the terminator when asked for. */
  lemma {:induction false} ReadPrintedList(bytes: string, k: nat, nullterm: bool, formatted: bool, level: nat)
    requires k <= |bytes|
    ensures ReadList(ListFrom(bytes, k, nullterm, formatted, level)) == Some(Values(bytes, k, nullterm))
    decreases |bytes| - k
  {
    if k == |bytes| {
      if nullterm {
        ReadTerminator();
      }
    } else {
      ReadPrintedList(bytes, k + 1, nullterm, formatted, level);
      ReadNext(bytes[k], Break(k + 1, formatted, level), ListFrom(bytes, k + 1, nullterm, formatted, level));
    }
  }

  lemma ReadNext(c: char, gap: string, rest: string)
    requires (forall g | g in gap :: Blank(g)) && ReadList(rest).Some?
    ensures ReadList(Item(c) + gap + rest) == Some([ByteOf(c)] + ReadList(rest).value)
  {
    ReadListSkips(gap, rest);
    ReadItem(ByteOf(c), gap + rest);
    assert Item(c) + gap + rest == Item(c) + (gap + rest);
  }
}
