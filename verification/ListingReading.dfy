/** What a reader finds in the disassembly: the address in front of every instruction, and what the words and
    numbers say that the assembler would not read back. */
module ListingReading {
  import opened Isa
  import opened Listing
  import opened ListingColumns
  import opened HexText
  import opened Encoding
  import E = Elaboration
  import R = ListingRoundTrip

  // ----- the address column

  /** The number that hexadecimal digits stand for. */
  function HexNumber(s: string): nat {
    if s == [] || !IsHexDigit(s[|s| - 1]) then 0 else HexNumber(s[..|s| - 1]) * 16 + HexValue(s[|s| - 1])
  }

  function BeforeTab(line: string): string {
    if line == [] || line[0] == '\t' then [] else [line[0]] + BeforeTab(line[1..])
  }

  /** The address in front of the tab, on a line that has one. */
  function LineAddress(line: string): seq<nat> {
    if '\t' in line then [HexNumber(BeforeTab(line))] else []
  }

  /** The addresses of all lines of a text, in order. */
  function Addresses(text: string): seq<nat>
    decreases |text|
  {
    if text == [] then []
    else
      var n := LineEnd(text);
      LineAddress(text[..n]) + if n < |text| then Addresses(text[n + 1..]) else []
  }

  lemma DigitAppends(s: string, d: nat)
    requires d < 16
    ensures HexNumber(s + [HexDigit(d)]) == HexNumber(s) * 16 + d
  {
    hide HexDigit, HexValue, IsHexDigit;
    HexDigitsMean(d);
    assert (s + [HexDigit(d)])[..|s|] == s;
  }

  lemma HexIsRead(n: nat)
    requires n < 65536
    ensures |Hex4(n)| == 4 && HexNumber(Hex4(n)) == n
  {
    hide HexDigit, HexNumber;
    var a, b, c, d := n / 4096, n / 256 % 16, n / 16 % 16, n % 16;
    FourDigits(a, b, c, d);
    Nibbles(n);
  }

  lemma FourDigits(a: nat, b: nat, c: nat, d: nat)
    requires a < 16 && b < 16 && c < 16 && d < 16
    ensures HexNumber([HexDigit(a), HexDigit(b), HexDigit(c), HexDigit(d)]) == ((a * 16 + b) * 16 + c) * 16 + d
  {
    hide HexDigit, HexNumber;
    var one := [HexDigit(a)];
    var two := one + [HexDigit(b)];
    var three := two + [HexDigit(c)];
    NoDigits();
    DigitAppends("", a);
    assert "" + one == one;
    DigitAppends(one, b);
    DigitAppends(two, c);
    DigitAppends(three, d);
    assert [HexDigit(a), HexDigit(b), HexDigit(c), HexDigit(d)] == three + [HexDigit(d)];
  }

  lemma Nibbles(n: nat)
    ensures ((n / 4096 * 16 + n / 256 % 16) * 16 + n / 16 % 16) * 16 + n % 16 == n
  {
    assert n / 4096 * 16 + n / 256 % 16 == n / 256;
    assert n / 256 * 16 + n / 16 % 16 == n / 16;
  }

  lemma NoDigits()
    ensures HexNumber("") == 0
  {}

  lemma {:induction false} BeforeTabIs(column: string, line: string)
    requires '\t' !in column
    ensures BeforeTab(column + "\t" + line) == column
    decreases |column|
  {
    var all := column + "\t" + line;
    if column != [] {
      assert all[1..] == column[1..] + "\t" + line;
      BeforeTabIs(column[1..], line);
    }
  }

  lemma LineByLine(line: string, rest: string)
    requires '\n' !in line
    ensures Addresses(line + ("\n" + rest)) == LineAddress(line) + Addresses(rest)
  {
    hide LineAddress, LineEnd;
    var text := line + ("\n" + rest);
    LineEndIs(line, rest);
    assert text[..|line|] == line && text[|line| + 1..] == rest;
  }

  lemma LabelHasNone(targets: set<nat>, k: nat, rest: string)
    ensures Addresses(LabelLine(targets, k) + rest) == Addresses(rest)
  {
    hide Addresses, LabelText;
    if k in targets {
      var name := LabelText(k) + ":";
      LabelIsSolid(k);
      LineByLine(name, rest);
      LineByLine("", name + ("\n" + rest));
      assert LabelLine(targets, k) + rest == "" + ("\n" + (name + ("\n" + rest)));
      assert LineAddress(name) == [] && LineAddress("") == [];
      assert [] + Addresses(rest) == Addresses(rest);
    } else {
      assert "" + rest == rest;
    }
  }

  function UpTo(n: nat): seq<nat> {
    if n == 0 then [] else UpTo(n - 1) + [n - 1]
  }

  lemma {:induction false} LinesHaveAddresses(p: seq<Instr>, targets: set<nat>, n: nat, rest: string)
    requires n <= |p| <= 65536
    ensures Addresses(Lines(p, targets, n, true) + rest) == UpTo(n) + Addresses(rest)
    decreases n
  {
    hide Addresses, InstrText, LabelLine, Hex4, HexNumber;
    if n == 0 {
      assert "" + rest == rest;
    } else {
      var t, column := InstrText(p[n - 1]), Hex4(n - 1);
      var line := column + "\t" + t;
      var tail := LabelLine(targets, n - 1) + (line + ("\n" + rest));
      assert Lines(p, targets, n, true) + rest == Lines(p, targets, n - 1, true) + tail;
      LinesHaveAddresses(p, targets, n - 1, tail);
      LabelHasNone(targets, n - 1, line + ("\n" + rest));
      InstrIsSolid(p[n - 1]);
      HexIsSolid(n - 1);
      LineByLine(line, rest);
      HexIsRead(n - 1);
      BeforeTabIs(column, t);
      assert line[|column|] == '\t';
      assert LineAddress(line) == [n - 1];
    }
  }

  /** The address column counts the instructions from zero. */
  lemma AddressesCount(p: seq<Instr>)
    requires |p| <= 65536
    ensures Addresses(Disassembly(p)) == UpTo(|p|)
  {
    hide Lines, Targets;
    LinesHaveAddresses(p, Targets(p, |p|), |p|, "");
    assert Disassembly(p) + "" == Disassembly(p);
    assert Addresses("") == [];
  }

  // ----- labels, `ctr` and conditions without a name

  /** A label is `l_` and the address. */
  lemma LabelIsRead(address: nat)
    ensures var s := LabelText(address);
            |s| > 2 && s[..2] == "l_" && E.PrefixValue(s[2..], 10, 0) == address
  {
    hide Dec;
    var s := LabelText(address);
    assert s[2..] == Dec(address);
    R.DecIsRead(address);
  }

  /** `ctr` prints its mask. */
  lemma ControlIsRead(i: Instr)
    requires i.op == Ctr
    ensures var s := OperandText(i);
            s[0] == ' ' && E.ImmediateOf(s[1..]) == i.b
  {
    hide Dec, Num, E.ImmediateOf;
    R.ImmediateIsRead(i.b);
    assert (" " + Dec(Num(i.b)))[1..] == Dec(Num(i.b));
  }

  function BinaryNumber(s: string): nat {
    if s == [] then 0 else BinaryNumber(s[..|s| - 1]) * 2 + if s[|s| - 1] == '1' then 1 else 0
  }

  /** A condition without a name prints its four bits, highest first. */
  lemma NibbleIsRead(c: bv4)
    requires !NamedCond(c)
    ensures |CondName(c)| == 4 && BinaryNumber(CondName(c)) == CondNumber(c)
    ensures forall k :: 0 <= k < 4 ==> CondName(c)[k] in "01"
  {
    hide CondNumber, BinaryDigit;
    var s := CondName(c);
    assert s[..3][..2] == s[..2] && s[..2][..1] == s[..1] && s[..1][..0] == [];
    assert BinaryNumber(s[..1]) == if s[0] == '1' then 1 else 0;
    assert BinaryNumber(s[..2]) == BinaryNumber(s[..1]) * 2 + if s[1] == '1' then 1 else 0;
    assert BinaryNumber(s[..3]) == BinaryNumber(s[..2]) * 2 + if s[2] == '1' then 1 else 0;
    assert s[..4] == s;
    FourBits(c);
  }

  lemma FourBits(c: bv4)
    ensures CondNumber(c) == (if BinaryDigit(c, 8) == '1' then 8 else 0) + (if BinaryDigit(c, 4) == '1' then 4 else 0) +
                             (if BinaryDigit(c, 2) == '1' then 2 else 0) + if BinaryDigit(c, 1) == '1' then 1 else 0
    ensures BinaryDigit(c, 8) in "01" && BinaryDigit(c, 4) in "01" && BinaryDigit(c, 2) in "01" && BinaryDigit(c, 1) in "01"
  {}

  // ----- one listing in full

  function Sample(): seq<Instr> {
    [Instr(Set, COND_T, 1, 16), Instr(Add, COND_NE, 0x82, 4), Instr(Jpi, COND_T, 0, 1)]
  }

  lemma SampleNumbers()
    ensures Dec(16) == "16" && Dec(1) == "1" && Wide(0, 1) == 1 && Num(16) == 16
    ensures Hex4(0) == "0000" && Hex4(1) == "0001" && Hex4(2) == "0002"
  {
    assert Dec(1) == "1";
  }

  lemma SampleSets()
    ensures RegsetText(1) == "$0" && RegsetText(0x82) == "$17" && RegsetText(4) == "$2"
  {
    assert SetText(1, 8) == SetText(1, 7) == SetText(1, 6) == SetText(1, 5) == SetText(1, 4) == SetText(1, 3) == SetText(1, 2) == SetText(1, 1) == "";
    assert SetText(4, 8) == SetText(4, 7) == SetText(4, 6) == SetText(4, 5) == SetText(4, 4) == SetText(4, 3) == "";
    assert SetText(4, 2) == "2" && SetText(4, 1) == "2" && SetText(4, 0) == "2";
    assert SetText(0x82, 8) == "" && SetText(0x82, 7) == "7" && SetText(0x82, 6) == "7" && SetText(0x82, 5) == "7" && SetText(0x82, 4) == "7";
    assert SetText(0x82, 3) == "7" && SetText(0x82, 2) == "7" && SetText(0x82, 1) == "17" && SetText(0x82, 0) == "17";
  }

  lemma SampleTexts()
    ensures InstrText(Sample()[0]) == "set" + (" " + "$0" + ", " + "16")
    ensures InstrText(Sample()[1]) == "ne" + "." + "add" + (" " + "$17" + ", " + "$2")
    ensures InstrText(Sample()[2]) == "jmp" + (" " + ("l_" + "1"))
  {
    hide Dec, RegsetText, Wide, Num;
    SampleNumbers();
    SampleSets();
  }

  /** Spaces, commas, tabs and empty lines: a listing, character by character. */
  lemma SampleListing()
    ensures Disassembly(Sample()) ==
            "0000\t" + "set $0, 16" + "\n" + "\nl_1:\n" + "0001\t" + "ne.add $17, $2" + "\n" + "0002\t" + "jmp l_1" + "\n"
  {
    hide Dec, Wide, Num, Hex4, InstrText, LabelLine;
    SampleNumbers();
    SampleTexts();
    SampleLabels();
    var p := Sample();
    assert InstrText(p[0]) == "set $0, 16";
    assert InstrText(p[1]) == "ne.add $17, $2";
    assert InstrText(p[2]) == "jmp l_1";
    SampleTargets();
    var first := "0000\t" + "set $0, 16" + "\n";
    assert Lines(p, {1}, 0, true) == "" && "" + "" + "0000\t" == "0000\t";
    assert Lines(p, {1}, 1, true) == first;
    var second := first + "\nl_1:\n" + "0001\t" + "ne.add $17, $2" + "\n";
    assert Lines(p, {1}, 2, true) == second;
    assert second + "" == second;
  }

  lemma SampleTargets()
    ensures Targets(Sample(), 3) == {1}
  {
    hide Wide;
    SampleNumbers();
    assert Targets(Sample(), 1) == {} && Targets(Sample(), 2) == {};
  }

  lemma SampleLabels()
    ensures LabelLine({1}, 0) == "" && LabelLine({1}, 1) == "\nl_1:\n" && LabelLine({1}, 2) == ""
  {
    hide Dec;
    SampleNumbers();
  }
}
