/** The disassembler's text: one line per instruction, with a label line in front of every jump target. */
module Listing {
  import opened Isa

  // ----- numbers and register sets

  function DigitChar(d: nat): char
    requires d < 10
  {
    '0' + d as char
  }

  function Dec(n: nat): (s: string)
    ensures |s| > 0
  {
    if n < 10 then [DigitChar(n)] else Dec(n / 10) + [DigitChar(n % 10)]
  }

  function SetText(mask: bv8, k: nat): string
    requires k <= 8
    decreases 8 - k
  {
    if k == 8 then ""
    else if Has(mask, k) then [DigitChar(k)] + SetText(mask, k + 1)
    else SetText(mask, k + 1)
  }

  function RegsetText(mask: bv8): string {
    "$" + SetText(mask, 0)
  }

  function HexDigit(d: nat): char
    requires d < 16
  {
    if d < 10 then '0' + d as char else 'A' + (d - 10) as char
  }

  /** Four upper-case hexadecimal digits. */
  function Hex4(n: nat): string
    requires n < 65536
  {
    [HexDigit(n / 4096), HexDigit(n / 256 % 16), HexDigit(n / 16 % 16), HexDigit(n % 16)]
  }

  // ----- instructions

  function BinaryDigit(c: bv4, m: bv4): char {
    if c & m != 0 then '1' else '0'
  }

  function CondName(c: bv4): string {
    if c == COND_F then "f"
    else if c == COND_NBE then "nbe"
    else if c == COND_NC then "nc"
    else if c == COND_C then "c"
    else if c == COND_NE then "ne"
    else if c == COND_E then "e"
    else [BinaryDigit(c, 8), BinaryDigit(c, 4), BinaryDigit(c, 2), BinaryDigit(c, 1)]
  }

  function Prefix(c: bv4): string {
    if c == COND_T then "" else CondName(c) + "."
  }

  function MnemonicText(op: Op): string {
    match op
    case Nop => "nop"
    case Set => "set"
    case Ldm => "ldm"
    case Stm => "stm"
    case Jpr => "jmp"
    case Jpi => "jmp"
    case Cid => "cid"
    case Ctr => "ctr"
    case Nad => "nad"
    case And => "and"
    case Xor => "xor"
    case Shr => "shr"
    case Mov => "mov"
    case Ext => ""
    case Add => "add"
    case Cmp => "cmp"
  }

  function LabelText(address: nat): string {
    "l_" + Dec(address)
  }

  /** Behind the mnemonic. */
  function OperandText(i: Instr): string {
    match i.op
    case Nop => ""
    case Ext => ""
    case Set => " " + RegsetText(i.a) + ", " + Dec(Num(i.b))
    case Shr => " " + RegsetText(i.a) + ", " + Dec(Num(i.b))
    case Cid => " " + Dec(Num(i.b))
    case Ctr => " " + Dec(Num(i.b))
    case Jpi => " " + LabelText(Wide(i.a, i.b))
    case Ldm | Stm | Jpr | Nad | And | Xor | Mov | Add | Cmp => " " + RegsetText(i.a) + ", " + RegsetText(i.b)
  }

  /** A `nop` prints without its condition. */
  function InstrText(i: Instr): string {
    (if i.op == Nop then "" else Prefix(i.cond)) + MnemonicText(i.op) + OperandText(i)
  }

  // ----- the listing

  /** The addresses that immediate jumps of the first n instructions lead to. */
  function Targets(p: seq<Instr>, n: nat): set<nat>
    requires n <= |p|
  {
    if n == 0 then {} else Targets(p, n - 1) + if p[n - 1].op == Jpi then {Wide(p[n - 1].a, p[n - 1].b)} else {}
  }

  function LabelLine(targets: set<nat>, address: nat): string {
    if address in targets then "\n" + LabelText(address) + ":\n" else ""
  }

  function AddressColumn(address: nat): string
    requires address < 65536
  {
    Hex4(address) + "\t"
  }

  /** The lines of the first n instructions, with the address column or without it. */
  function Lines(p: seq<Instr>, targets: set<nat>, n: nat, column: bool): string
    requires n <= |p| <= 65536
  {
    if n == 0 then ""
    else
      Lines(p, targets, n - 1, column) + LabelLine(targets, n - 1) + (if column then AddressColumn(n - 1) else "") +
      InstrText(p[n - 1]) + "\n"
  }

  function Disassembly(p: seq<Instr>): string
    requires |p| <= 65536
  {
    Lines(p, Targets(p, |p|), |p|, true)
  }

  function Listed(p: seq<Instr>): string
    requires |p| <= 65536
  {
    Lines(p, Targets(p, |p|), |p|, false)
  }

  // ----- as it runs

  class Labeler {
    var targets: seq<nat>

    constructor ()
      ensures targets == []
    {
      targets := [];
    }

    predicate Contains(t: nat)
      reads this
    {
      t in targets
    }

    method Add(t: nat)
      modifies this
      ensures forall x :: x in targets <==> x in old(targets) || x == t
    {
      if t !in targets {
        targets := targets + [t];
      }
    }
  }

  method RegsetString(mask: bv8) returns (value: string)
    ensures value == RegsetText(mask)
  {
    hide Has;
    value := "$";
    for i := 0 to REGISTER_COUNT
      invariant value + SetText(mask, i) == RegsetText(mask)
    {
      ghost var before := value;
      if Has(mask, i) {
        value := value + [DigitChar(i)];
        assert before + ([DigitChar(i)] + SetText(mask, i + 1)) == value + SetText(mask, i + 1);
      }
    }
  }

  /** `disassemble`: collect the jump targets, then print. */
  method Disassemble(p: seq<Instr>) returns (str: string)
    requires |p| <= 65536
    ensures str == Disassembly(p)
  {
    hide InstrText, LabelText, AddressColumn, Wide;
    var labeler := new Labeler();
    for i := 0 to |p|
      invariant forall x :: x in labeler.targets <==> x in Targets(p, i)
    {
      if p[i].op == Jpi {
        labeler.Add(Wide(p[i].a, p[i].b));
      }
    }
    str := "";
    for i := 0 to |p|
      invariant str == Lines(p, Targets(p, |p|), i, true)
    {
      if labeler.Contains(i) {
        str := str + "\n" + LabelText(i) + ":\n";
      }
      str := str + AddressColumn(i) + InstrText(p[i]);
      str := str + "\n";
    }
  }
}
