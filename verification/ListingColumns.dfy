/** The listing without its address column is the disassembly with everything up to the tab of each line removed. */
module ListingColumns {
  import opened Isa
  import opened Listing

  function LineEnd(text: string): (n: nat)
    ensures n <= |text|
  {
    if text == [] || text[0] == '\n' then 0 else 1 + LineEnd(text[1..])
  }

  /** What follows the first tab of a line that has one. */
  function AfterTab(line: string): string {
    if line == [] then [] else if line[0] == '\t' then line[1..] else
      var rest := AfterTab(line[1..]);
      if '\t' in line[1..] then rest else line
  }

  function WithoutColumns(text: string): string
    decreases |text|
  {
    if text == [] then []
    else
      var n := LineEnd(text);
      AfterTab(text[..n]) + if n < |text| then "\n" + WithoutColumns(text[n + 1..]) else ""
  }

  predicate Solid(s: string) {
    '\t' !in s && '\n' !in s
  }

  lemma {:induction false} LineEndIs(line: string, rest: string)
    requires '\n' !in line
    ensures LineEnd(line + ("\n" + rest)) == |line|
    decreases |line|
  {
    if line == [] {
      assert [] + ("\n" + rest) == "\n" + rest;
    } else {
      assert (line + ("\n" + rest))[1..] == line[1..] + ("\n" + rest);
      LineEndIs(line[1..], rest);
    }
  }

  lemma LineByLine(line: string, rest: string)
    requires '\n' !in line
    ensures WithoutColumns(line + ("\n" + rest)) == AfterTab(line) + ("\n" + WithoutColumns(rest))
  {
    hide AfterTab, LineEnd;
    var text := line + ("\n" + rest);
    LineEndIs(line, rest);
    assert text[..|line|] == line && text[|line| + 1..] == rest;
  }

  lemma {:induction false} SolidStays(line: string)
    requires Solid(line)
    ensures AfterTab(line) == line
  {}

  lemma {:induction false} ColumnDrops(column: string, line: string)
    requires Solid(column) && Solid(line)
    ensures AfterTab(column + "\t" + line) == line
    decreases |column|
  {
    if column == [] {
      assert [] + "\t" + line == "\t" + line;
    } else {
      var all := column + "\t" + line;
      assert all[1..] == column[1..] + "\t" + line;
      assert all[1..][|column| - 1] == '\t';
      ColumnDrops(column[1..], line);
    }
  }

  // ----- nothing printed contains a tab or a new line

  lemma SolidJoins(a: string, b: string)
    requires Solid(a) && Solid(b)
    ensures Solid(a + b)
  {}

  lemma DigitIsSolid(d: nat)
    requires d < 10
    ensures Solid([DigitChar(d)])
  {}

  lemma {:induction false} DecIsSolid(n: nat)
    ensures Solid(Dec(n))
    decreases n
  {
    hide DigitChar;
    DigitIsSolid(n % 10);
    if n >= 10 {
      DecIsSolid(n / 10);
      SolidJoins(Dec(n / 10), [DigitChar(n % 10)]);
    }
  }

  lemma {:induction false} SetTextIsSolid(mask: bv8, k: nat)
    requires k <= 8
    ensures Solid(SetText(mask, k))
    decreases 8 - k
  {
    hide Has, DigitChar;
    if k < 8 {
      SetTextIsSolid(mask, k + 1);
      DigitIsSolid(k);
      SolidJoins([DigitChar(k)], SetText(mask, k + 1));
    }
  }

  lemma RegsetIsSolid(mask: bv8)
    ensures Solid(RegsetText(mask))
  {
    hide SetText;
    SetTextIsSolid(mask, 0);
    SolidJoins("$", SetText(mask, 0));
  }

  lemma LabelIsSolid(k: nat)
    ensures Solid(LabelText(k))
  {
    hide Dec;
    DecIsSolid(k);
    SolidJoins("l_", Dec(k));
  }

  lemma HexIsSolid(n: nat)
    requires n < 65536
    ensures Solid(Hex4(n))
  {
    hide HexDigit;
    HexDigitIsSolid(n / 4096);
    HexDigitIsSolid(n / 256 % 16);
    HexDigitIsSolid(n / 16 % 16);
    HexDigitIsSolid(n % 16);
  }

  lemma HexDigitIsSolid(d: nat)
    requires d < 16
    ensures HexDigit(d) != '\t' && HexDigit(d) != '\n'
  {}

  lemma OperandIsSolid(i: Instr)
    ensures Solid(OperandText(i))
  {
    hide RegsetText, Dec, LabelText, Wide, Num;
    RegsetIsSolid(i.a);
    RegsetIsSolid(i.b);
    DecIsSolid(Num(i.b));
    LabelIsSolid(Wide(i.a, i.b));
  }

  lemma PrefixIsSolid(c: bv4)
    ensures Solid(Prefix(c))
  {}

  lemma MnemonicIsSolid(op: Op)
    ensures Solid(MnemonicText(op))
  {}

  lemma InstrIsSolid(i: Instr)
    ensures Solid(InstrText(i))
  {
    hide Prefix, MnemonicText, OperandText;
    PrefixIsSolid(i.cond);
    MnemonicIsSolid(i.op);
    OperandIsSolid(i);
  }

  lemma LabelLineStays(targets: set<nat>, k: nat, rest: string)
    ensures WithoutColumns(LabelLine(targets, k) + rest) == LabelLine(targets, k) + WithoutColumns(rest)
  {
    hide WithoutColumns, AfterTab, LabelText;
    if k in targets {
      var l := LabelText(k) + ":";
      LabelIsSolid(k);
      SolidJoins(LabelText(k), ":");
      SolidStays(l);
      SolidStays("");
      LineByLine(l, rest);
      LineByLine("", l + ("\n" + rest));
      assert LabelLine(targets, k) + rest == "" + ("\n" + (l + ("\n" + rest)));
      assert "" + ("\n" + (l + ("\n" + WithoutColumns(rest)))) == LabelLine(targets, k) + WithoutColumns(rest);
    } else {
      assert "" + rest == rest;
      assert "" + WithoutColumns(rest) == WithoutColumns(rest);
    }
  }

  lemma {:induction false} LinesLoseColumns(p: seq<Instr>, targets: set<nat>, n: nat, rest: string)
    requires n <= |p| <= 65536
    ensures WithoutColumns(Lines(p, targets, n, true) + rest) == Lines(p, targets, n, false) + WithoutColumns(rest)
    decreases n
  {
    hide WithoutColumns, AfterTab, InstrText, LabelLine, Hex4;
    if n == 0 {
      assert "" + rest == rest;
      assert "" + WithoutColumns(rest) == WithoutColumns(rest);
    } else {
      var t := InstrText(p[n - 1]);
      var column := Hex4(n - 1);
      var line := column + "\t" + t;
      var tail := LabelLine(targets, n - 1) + (line + ("\n" + rest));
      assert Lines(p, targets, n, true) + rest == Lines(p, targets, n - 1, true) + tail;
      LinesLoseColumns(p, targets, n - 1, tail);
      LabelLineStays(targets, n - 1, line + ("\n" + rest));
      InstrIsSolid(p[n - 1]);
      HexIsSolid(n - 1);
      LineByLine(line, rest);
      ColumnDrops(column, t);
      var l, w := LabelLine(targets, n - 1), WithoutColumns(rest);
      assert Lines(p, targets, n, false) == Lines(p, targets, n - 1, false) + l + "" + t + "\n";
      assert Lines(p, targets, n, false) + w == Lines(p, targets, n - 1, false) + (l + (t + ("\n" + w)));
    }
  }

  /** Removing the address column of the disassembly gives the listing. */
  lemma ListedIsDisassembly(p: seq<Instr>)
    requires |p| <= 65536
    ensures WithoutColumns(Disassembly(p)) == Listed(p)
  {
    hide Lines, Targets;
    LinesLoseColumns(p, Targets(p, |p|), |p|, "");
    assert Disassembly(p) + "" == Disassembly(p);
    assert Listed(p) + "" == Listed(p);
    assert WithoutColumns("") == "";
  }
}
