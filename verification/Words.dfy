/** What the words of an assembly source mean: condition names, numbers and mnemonics. */
module Words {
  import opened Isa
  import opened Options
  import opened Elaboration

  // ----- conditions

  /** Every name of a condition, and what it promises. */
  lemma ConditionNames(cf: bool, zf: bool)
    ensures ConditionOf("t").Some? && CheckFlags(ConditionOf("t").value, cf, zf)
    ensures ConditionOf("f").Some? && !CheckFlags(ConditionOf("f").value, cf, zf)
    ensures ConditionOf("e").Some? && (CheckFlags(ConditionOf("e").value, cf, zf) <==> zf)
    ensures ConditionOf("z").Some? && (CheckFlags(ConditionOf("z").value, cf, zf) <==> zf)
    ensures ConditionOf("ne").Some? && (CheckFlags(ConditionOf("ne").value, cf, zf) <==> !zf)
    ensures ConditionOf("nz").Some? && (CheckFlags(ConditionOf("nz").value, cf, zf) <==> !zf)
    ensures ConditionOf("c").Some? && (CheckFlags(ConditionOf("c").value, cf, zf) <==> cf)
    ensures ConditionOf("b").Some? && (CheckFlags(ConditionOf("b").value, cf, zf) <==> cf)
    ensures ConditionOf("nae").Some? && (CheckFlags(ConditionOf("nae").value, cf, zf) <==> cf)
    ensures ConditionOf("nc").Some? && (CheckFlags(ConditionOf("nc").value, cf, zf) <==> !cf)
    ensures ConditionOf("nb").Some? && (CheckFlags(ConditionOf("nb").value, cf, zf) <==> !cf)
    ensures ConditionOf("ae").Some? && (CheckFlags(ConditionOf("ae").value, cf, zf) <==> !cf)
    ensures ConditionOf("nbe").Some? && (CheckFlags(ConditionOf("nbe").value, cf, zf) <==> !cf && !zf)
    ensures ConditionOf("a").Some? && (CheckFlags(ConditionOf("a").value, cf, zf) <==> !cf && !zf)
  {
    hide CheckFlags;
    NamedConditions(cf, zf);
  }

  const NAMES := ["t", "f", "e", "z", "ne", "nz", "c", "b", "nae", "nc", "nb", "ae", "nbe", "a"]

  /** There is no other name. */
  lemma OnlyConditionNames(name: string)
    ensures ConditionOf(name).Some? <==> name in NAMES
  {
    assert NAMES[0] == "t" && NAMES[1] == "f" && NAMES[2] == "e" && NAMES[3] == "z" && NAMES[4] == "ne" && NAMES[5] == "nz" && NAMES[6] == "c";
    assert NAMES[7] == "b" && NAMES[8] == "nae" && NAMES[9] == "nc" && NAMES[10] == "nb" && NAMES[11] == "ae" && NAMES[12] == "nbe" && NAMES[13] == "a";
  }

  // ----- digits and numbers

  const LOWER := "0123456789abcdefghijklmnopqrstuvwxyz"
  const UPPER := "0123456789ABCDEFGHIJKLMNOPQRSTUVWXYZ"

  /** A digit is worth its place in the alphabet of digits, in either case. */
  lemma DigitMeans(d: nat)
    requires d < 36
    ensures DigitValue(LOWER[d]) == d && DigitValue(UPPER[d]) == d
  {
    LowerAt(d);
    UpperAt(d);
  }

  lemma LowerAt(d: nat)
    requires d < 36
    ensures LOWER[d] as int == if d < 10 then '0' as int + d else 'a' as int + d - 10
  {}

  lemma UpperAt(d: nat)
    requires d < 36
    ensures UPPER[d] as int == if d < 10 then '0' as int + d else 'A' as int + d - 10
  {}

  lemma NotADigit(c: char)
    requires c !in LOWER && c !in UPPER
    ensures DigitValue(c) == 36
  {
    if '0' <= c <= '9' {
      LowerAt(c as int - '0' as int);
      assert false;
    } else if 'a' <= c <= 'z' {
      LowerAt(c as int - 'a' as int + 10);
      assert false;
    } else if 'A' <= c <= 'Z' {
      UpperAt(c as int - 'A' as int + 10);
      assert false;
    }
  }

  /** The number that digits stand for, the last digit counting once. */
  function Positional(digits: seq<nat>, base: nat): nat {
    if digits == [] then 0 else Positional(digits[..|digits| - 1], base) * base + digits[|digits| - 1]
  }

  /** A text spells digits of a base, each in either case. */
  predicate Spells(s: string, digits: seq<nat>, base: nat) {
    |s| == |digits| && base <= 36 && forall k :: 0 <= k < |s| ==> digits[k] < base && (s[k] == LOWER[digits[k]] || s[k] == UPPER[digits[k]])
  }

  lemma {:induction false} DigitsInFront(s: string, rest: string, digits: seq<nat>, base: nat)
    requires Spells(s, digits, base) && base > 0
    ensures PrefixValue(s + rest, base, 0) == PrefixValue(rest, base, Positional(digits, base))
    decreases |s|
  {
    hide DigitValue;
    if s == [] {
      assert s + rest == rest;
    } else {
      var n := |s| - 1;
      DigitMeans(digits[n]);
      assert s + rest == s[..n] + ([s[n]] + rest);
      DigitsInFront(s[..n], [s[n]] + rest, digits[..n], base);
      assert ([s[n]] + rest)[1..] == rest;
    }
  }

  datatype Notation = Notation(prefix: string, base: nat)

  const HEXADECIMAL := Notation("0x", 16)
  const OCTAL := Notation("0o", 8)
  const BINARY := Notation("0b", 2)
  const DECIMAL := Notation("", 10)

  predicate Known(n: Notation) {
    n == HEXADECIMAL || n == OCTAL || n == BINARY || n == DECIMAL
  }

  lemma ParsedMeans(s: string, digits: seq<nat>, base: nat)
    requires Spells(s, digits, base) && base > 0
    ensures var v := Positional(digits, base);
            ParseInt(s, base) == if v > 0x7FFF_FFFF then 0 else v % 65536
  {
    hide PrefixValue, Spells, Positional;
    DigitsInFront(s, "", digits, base);
    assert s + "" == s;
    NothingMore(base, Positional(digits, base));
  }

  /** An immediate in any of the four notations is the number its digits stand for, its low byte when that fits
      an int and zero when it does not. */
  lemma ImmediateMeans(n: Notation, s: string, digits: seq<nat>)
    requires Known(n) && Spells(s, digits, n.base)
    ensures var v := Positional(digits, n.base);
            ImmediateOf(n.prefix + s) == if v > 0x7FFF_FFFF then 0 else ByteOf(v % 256)
  {
    hide ByteOf, ParseInt, Positional, Spells;
    var v := Positional(digits, n.base);
    ParsedMeans(s, digits, n.base);
    LowBytes(v);
    if n == DECIMAL {
      assert n.prefix + s == s;
      NoMark(s, digits);
      assert ImmediateOf(s) == ByteOf(ParseInt(s, 10) % 256);
    } else {
      BehindPrefix(n, s);
    }
  }

  lemma LowBytes(v: nat)
    ensures v % 65536 % 256 == v % 256 && ByteOf(0) == 0
  {}

  lemma NoMark(s: string, digits: seq<nat>)
    requires Spells(s, digits, 10)
    ensures |s| >= 2 ==> s[1] != 'x' && s[1] != 'o' && s[1] != 'b'
  {
    if |s| >= 2 {
      assert digits[1] < 10;
      LowerAt(digits[1]);
      UpperAt(digits[1]);
    }
  }

  lemma BehindPrefix(n: Notation, s: string)
    requires Known(n) && n != DECIMAL
    ensures var text := n.prefix + s;
            && |text| >= 2 && text[2..] == s
            && text[1] == if n == HEXADECIMAL then 'x' else if n == OCTAL then 'o' else 'b'
  {
    var text := n.prefix + s;
    assert text[1] == n.prefix[1];
  }

  lemma NothingMore(base: nat, acc: nat)
    ensures PrefixValue("", base, acc) == acc
  {}

  /** The value of a text ends at the first character that is no digit of the base. */
  lemma ValueStops(s: string, c: char, rest: string, digits: seq<nat>, base: nat)
    requires Spells(s, digits, base) && base > 0 && DigitValue(c) >= base
    ensures PrefixValue(s + [c] + rest, base, 0) == Positional(digits, base)
  {
    assert s + [c] + rest == s + ([c] + rest);
    DigitsInFront(s, [c] + rest, digits, base);
  }

  function Row(digits: seq<nat>, alphabet: string): (s: string)
    ensures |s| == |digits|
  {
    seq(|digits|, k requires 0 <= k < |digits| => if digits[k] < |alphabet| then alphabet[digits[k]] else '?')
  }

  lemma RowSpells(digits: seq<nat>, alphabet: string, base: nat)
    requires (alphabet == LOWER || alphabet == UPPER) && base <= 36 && Below(digits, base)
    ensures Spells(Row(digits, alphabet), digits, base)
  {}

  lemma Written(b: bv8, n: Notation, digits: seq<nat>, alphabet: string)
    requires Known(n) && (alphabet == LOWER || alphabet == UPPER)
    requires Below(digits, n.base) && Positional(digits, n.base) == Num(b)
    ensures ImmediateOf(n.prefix + Row(digits, alphabet)) == b
  {
    hide Num, ByteOf, ImmediateOf, Positional, Spells, Row, Below;
    RowSpells(digits, alphabet, n.base);
    ImmediateMeans(n, Row(digits, alphabet), digits);
    ByteOfNum(b);
  }

  function HexDigits(n: nat): seq<nat> {
    [n / 16, n % 16]
  }

  function OctalDigits(n: nat): seq<nat> {
    [n / 64, n / 8 % 8, n % 8]
  }

  function DecimalDigits(n: nat): seq<nat> {
    [n / 100, n / 10 % 10, n % 10]
  }

  function BinaryDigits(n: nat): seq<nat> {
    var n1 := n / 2;
    var n2 := n1 / 2;
    var n3 := n2 / 2;
    var n4 := n3 / 2;
    var n5 := n4 / 2;
    var n6 := n5 / 2;
    [n6 / 2, n6 % 2, n5 % 2, n4 % 2, n3 % 2, n2 % 2, n1 % 2, n % 2]
  }

  /** Every byte can be written in every notation, in lower and upper case. */
  lemma ByteNotations(b: bv8, alphabet: string)
    requires alphabet == LOWER || alphabet == UPPER
    ensures ImmediateOf("0x" + Row(HexDigits(Num(b)), alphabet)) == b
    ensures ImmediateOf("0o" + Row(OctalDigits(Num(b)), alphabet)) == b
    ensures ImmediateOf("0b" + Row(BinaryDigits(Num(b)), alphabet)) == b
    ensures ImmediateOf("" + Row(DecimalDigits(Num(b)), alphabet)) == b
  {
    hide Num, ImmediateOf, Positional, Row, Below, HexDigits, OctalDigits, DecimalDigits, BinaryDigits;
    HexOf(Num(b));
    OctalOf(Num(b));
    BinaryOf(Num(b));
    DecimalOf(Num(b));
    Written(b, HEXADECIMAL, HexDigits(Num(b)), alphabet);
    Written(b, OCTAL, OctalDigits(Num(b)), alphabet);
    Written(b, BINARY, BinaryDigits(Num(b)), alphabet);
    Written(b, DECIMAL, DecimalDigits(Num(b)), alphabet);
  }

  predicate Below(digits: seq<nat>, base: nat) {
    forall k :: 0 <= k < |digits| ==> digits[k] < base
  }

  lemma HexOf(n: nat)
    requires n < 256
    ensures Below(HexDigits(n), 16) && Positional(HexDigits(n), 16) == n
  {
    hide Positional;
    Two(n / 16, n % 16, 16);
  }

  lemma OctalOf(n: nat)
    requires n < 256
    ensures Below(OctalDigits(n), 8) && Positional(OctalDigits(n), 8) == n
  {
    hide Positional;
    Three(n / 64, n / 8 % 8, n % 8, 8);
  }

  lemma DecimalOf(n: nat)
    requires n < 256
    ensures Below(DecimalDigits(n), 10) && Positional(DecimalDigits(n), 10) == n
  {
    hide Positional;
    Three(n / 100, n / 10 % 10, n % 10, 10);
  }

  lemma BinaryOf(n: nat)
    requires n < 256
    ensures Below(BinaryDigits(n), 2) && Positional(BinaryDigits(n), 2) == n
  {
    hide Positional;
    Eight(BinaryDigits(n));
  }

  lemma Two(a: nat, b: nat, base: nat)
    ensures Positional([a, b], base) == a * base + b
  {
    assert [a, b][..1] == [a] && [a][..0] == [];
    assert Positional([a], base) == 0 * base + a;
  }

  lemma Three(a: nat, b: nat, c: nat, base: nat)
    ensures Positional([a, b, c], base) == (a * base + b) * base + c
  {
    assert [a, b, c][..2] == [a, b];
    Two(a, b, base);
  }

  lemma Eight(d: seq<nat>)
    requires |d| == 8
    ensures Positional(d, 2) == 128 * d[0] + 64 * d[1] + 32 * d[2] + 16 * d[3] + 8 * d[4] + 4 * d[5] + 2 * d[6] + d[7]
  {
    Three(d[0], d[1], d[2], 2);
    assert d[..3] == [d[0], d[1], d[2]];
    assert d[..4][..3] == d[..3] && d[..5][..4] == d[..4] && d[..6][..5] == d[..5] && d[..7][..6] == d[..6];
    assert Positional(d[..4], 2) == Positional(d[..3], 2) * 2 + d[3];
    assert Positional(d[..5], 2) == Positional(d[..4], 2) * 2 + d[4];
    assert Positional(d[..6], 2) == Positional(d[..5], 2) * 2 + d[5];
    assert Positional(d[..7], 2) == Positional(d[..6], 2) * 2 + d[6];
  }

  // ----- register sets and mnemonics

  /** The set that a text names has the register of every digit in it, and no other. */
  lemma {:induction false} RegsetMeans(digits: string, j: nat)
    requires j < 8 && forall k :: 0 <= k < |digits| ==> '0' <= digits[k] <= '7'
    ensures Has(RegsetBits(digits), j) <==> LOWER[j] in digits
    decreases |digits|
  {
    hide Has, Or8, DigitBit;
    if digits == [] {
      NoRegister(j);
    } else {
      var n := |digits| - 1;
      RegsetMeans(digits[..n], j);
      OneRegister(RegsetBits(digits[..n]), digits[n], j);
      assert digits == digits[..n] + [digits[n]];
    }
  }

  lemma NoRegister(j: nat)
    requires j < 8
    ensures !Has(0, j)
  {}

  lemma OneRegister(set_: bv8, c: char, j: nat)
    requires j < 8 && '0' <= c <= '7'
    ensures Has(Or8(set_, DigitBit(c)), j) <==> Has(set_, j) || c == LOWER[j]
  {
    LowerAt(j);
    OneBit(set_, c as int - '0' as int, j);
  }

  lemma OneBit(set_: bv8, i: nat, j: nat)
    requires i < 8 && j < 8
    ensures Has(Or8(set_, Bit(i)), j) <==> Has(set_, j) || i == j
  {}

  const MNEMONICS := ["nop", "set", "ldm", "stm", "jmp", "cid", "ctr", "nad", "and", "xor", "shr", "mov", "add", "cmp"]

  /** The mnemonics, the operations they stand for and the operands they take. */
  lemma MnemonicsMean()
    ensures MnemonicOf("nop") == Some((Nop, Bare)) && MnemonicOf("jmp") == Some((Jpr, JumpForm)) && MnemonicOf("cid") == Some((Cid, OneByte))
    ensures MnemonicOf("set") == Some((Set, SetAndByte)) && MnemonicOf("ctr") == Some((Ctr, SetAndByte))
  {}

  lemma ArithmeticMnemonics()
    ensures MnemonicOf("nad") == Some((Nad, TwoSets)) && MnemonicOf("and") == Some((And, TwoSets)) && MnemonicOf("xor") == Some((Xor, TwoSets))
    ensures MnemonicOf("shr") == Some((Shr, SetAndByte))
  {}

  lemma MoreMnemonics()
    ensures MnemonicOf("add") == Some((Add, TwoSets)) && MnemonicOf("cmp") == Some((Cmp, TwoSets)) && MnemonicOf("mov") == Some((Mov, TwoSets))
  {}

  lemma MemoryMnemonics()
    ensures MnemonicOf("ldm") == Some((Ldm, TwoSets)) && MnemonicOf("stm") == Some((Stm, TwoSets))
  {}

  lemma OnlyMnemonics(m: string)
    ensures MnemonicOf(m).Some? <==> m in MNEMONICS
  {
    var names := MNEMONICS;
    assert names[0] == "nop" && names[1] == "set" && names[2] == "ldm" && names[3] == "stm" && names[4] == "jmp" && names[5] == "cid" && names[6] == "ctr";
    assert names[7] == "nad" && names[8] == "and" && names[9] == "xor" && names[10] == "shr" && names[11] == "mov" && names[12] == "add" && names[13] == "cmp";
  }
}
