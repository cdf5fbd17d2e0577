/** The core as clocked objects: each register is a field, each clocked block a method that reads the old values
    and then assigns. Together they are one step of Pipeline.Clock. */
module PipelineRtl {
  import opened Isa
  import opened Pipeline
  import opened PipelineRefinement
  import opened PipelineControl
  import opened Arithmetic

  class RegisterBank {
    const registers: array<bv8>

    ghost predicate Valid() {
      registers.Length == REGISTER_COUNT
    }

    ghost function Contents(): Regs
      requires Valid()
      reads registers
    {
      registers[..]
    }

    constructor ()
      ensures Valid() && fresh(registers) && Contents() == [0, 0, 0, 0, 0, 0, 0, 0]
    {
      registers := new bv8[REGISTER_COUNT](i => 0);
    }

    /** One read bus: every register gated by its mask bit, ORed together. */
    method ReadBus(mask: bv8) returns (bus: bv8)
      requires Valid()
      ensures bus == Bus(Contents(), mask)
    {
      var out := new bv8[REGISTER_COUNT];
      for i := 0 to REGISTER_COUNT
        invariant forall k :: 0 <= k < i ==> out[k] == Pick(Contents(), mask, k)
      {
        out[i] := if Has(mask, i) then registers[i] else 0;
      }
      bus := OrTreeOf(out[..]);
      assert out[..] == Picks(Contents(), mask);
    }

    method PosEdge(i: Instr, bus: bv8, setter: bool, cid: bool)
      requires Valid() && setter == WritesBack(i) && cid == (OpCode(i.op) == 6)
      modifies registers
      ensures Contents() == BankAfter(old(Contents()), i, bus)
    {
      hide Has;
      if setter {
        WriteMasked(i.a, bus);
      }
      if cid {
        registers[0], registers[1], registers[2], registers[3] := 0, 0, 0, 0;
        LowFour(i.a);
      }
    }

    method WriteMasked(mask: bv8, bus: bv8)
      requires Valid()
      modifies registers
      ensures Contents() == WriteSet(old(Contents()), mask, bus)
    {
      hide Has;
      WriteOne(0, mask, bus);
      WriteOne(1, mask, bus);
      WriteOne(2, mask, bus);
      WriteOne(3, mask, bus);
      WriteOne(4, mask, bus);
      WriteOne(5, mask, bus);
      WriteOne(6, mask, bus);
      WriteOne(7, mask, bus);
    }

    method WriteOne(k: nat, mask: bv8, bus: bv8)
      requires Valid() && k < REGISTER_COUNT
      modifies registers
      ensures forall j :: 0 <= j < REGISTER_COUNT ==>
                registers[j] == if j == k && Has(mask, k) then bus else old(registers[j])
    {
      if Has(mask, k) {
        registers[k] := bus;
      }
    }
  }

  lemma LowFour(mask: bv8)
    ensures forall k: nat :: k < 8 ==> (Has(CID_REGISTERS, k) <==> k < 4)
  {}

  /** The result register, one `if` for each control code. */
  method ResultOf(control: nat, alpha: bv8, beta: bv8, immediate: bv8, out: bv8) returns (r: bv8)
    ensures r == AluOut(control, alpha, beta, immediate, out)
  {
    hide Difference8, Shifted, Sum8, Nand, Both, Either;
    r := out;
    if control == 4 {
      r := beta;
    }
    if control == 6 {
      r := Sum8(alpha, beta);
    }
    if control == 7 {
      r := Difference8(alpha, beta);
    }
    if control == 0 {
      r := Nand(alpha, beta);
    }
    if control == 1 {
      r := Both(alpha, beta);
    }
    if control == 2 {
      r := Either(alpha, beta);
    }
    if control == 3 {
      r := Shifted(alpha, immediate);
    }
  }

  /** The control byte after `ctr`: the value under the mask, the old byte elsewhere. */
  method Merged(old_: bv8, value: bv8, mask: bv8) returns (r: bv8)
    ensures r == MergeControl(old_, value, mask)
    ensures forall k: nat :: k < 8 ==> (Has(r, k) <==> if Has(mask, k) then Has(value, k) else Has(old_, k))
  {
    hide Has;
    r := (old_ & !mask) | (value & mask);
    forall k: nat | k < 8 ensures Has(MergeControl(old_, value, mask), k) <==> if Has(mask, k) then Has(value, k) else Has(old_, k) {
      MergeBit(old_, value, mask, k);
    }
  }

  class AluUnit {
    var control: nat
    var alpha: bv8
    var beta: bv8
    var immediate: bv8
    var out: bv8
    var cf: bool
    var zf: bool

    constructor (alpha: bv8, beta: bv8, immediate: bv8)
      ensures control == 0 && this.alpha == alpha && this.beta == beta && this.immediate == immediate
      ensures out == 0 && !cf && !zf
    {
      control, out, cf, zf := 0, 0, false, false;
      this.alpha, this.beta, this.immediate := alpha, beta, immediate;
    }

    /** The result register and the flags follow the old latches; new operands are latched on `execute`. */
    method PosEdge(inA: bv8, inB: bv8, inImmediate: bv8, inControl: nat, execute: bool)
      modifies this
      ensures out == AluOut(old(control), old(alpha), old(beta), old(immediate), old(out))
      ensures old(control) < 8 && old(control) != 5 ==>
                Computes(Instr(RowOfControl(old(control)), COND_T, 0, old(immediate)), old(alpha), old(beta), out)
      ensures old(control) == 7 ==> cf == Bit8OfDifference(old(alpha), old(beta)) && zf == (Difference8(old(alpha), old(beta)) == 0)
      ensures old(control) == 7 ==> (cf <==> Num(old(alpha)) < Num(old(beta))) && (zf <==> old(alpha) == old(beta))
      ensures old(control) != 7 ==> cf == old(cf) && zf == old(zf)
      ensures execute ==> control == inControl && alpha == inA && beta == inB && immediate == inImmediate
      ensures !execute ==> control == old(control) && alpha == old(alpha) && beta == old(beta) && immediate == old(immediate)
    {
      hide AluOut, Bit8OfDifference, Difference8, Computes, Num;
      if control < 8 {
        AluOutComputes(control, alpha, beta, immediate, out);
      }
      if control == 7 {
        cf := Bit8OfDifference(alpha, beta);
        zf := Difference8(alpha, beta) == 0;
      }
      out := ResultOf(control, alpha, beta, immediate, out);
      if execute {
        control, alpha, beta, immediate := inControl, inA, inB, inImmediate;
      }
    }
  }

  class CoreRtl {
    const program: Program
    const bank: RegisterBank
    const alu: AluUnit
    var pc: nat
    var ctr: bv8
    var s1: Instr
    var s2: Instr
    var s3: Instr

    ghost predicate Valid() {
      bank.Valid()
    }

    ghost function Model(): Core
      requires Valid()
      reads this, alu, bank.registers
    {
      Core(pc, ctr, s1, s2, s3, alu.control, alu.alpha, alu.beta, alu.immediate, alu.out, alu.cf, alu.zf, bank.Contents())
    }

    constructor (program: Program, alpha: bv8, beta: bv8, immediate: bv8)
      ensures Valid() && fresh(bank) && fresh(bank.registers) && fresh(alu) && this.program == program
      ensures Model() == Reset(alpha, beta, immediate)
    {
      this.program := program;
      bank := new RegisterBank();
      alu := new AluUnit(alpha, beta, immediate);
      pc, ctr := RESET_PC, 0;
      s1, s2, s3 := BUBBLE, BUBBLE, BUBBLE;
    }

    /** The wires of one clock settle from the registers, then every register is assigned. */
    method PosEdge(p: Pins)
      requires Valid()
      modifies this`pc, this`ctr, this`s1, this`s2, this`s3, alu, bank.registers
      ensures Model() == Clock(program, p, old(Model()))
    {
      hide Computes, Num, Hold, AluOut, Bit8OfDifference, Difference8, BankAfter, MergeControl, Bus, Stopped, PcAfter, CtrAfter, StagesAfter, Fetch, Executes, Issues;
      var busA := bank.ReadBus(s1.a);
      var busB := bank.ReadBus(s1.b);
      var hold := StageHold();
      var stopped := IsStopped();
      var executes := StageExecutes(hold);
      var next := NextAddress(executes, busA, busB);
      var value := ValueBack(s3, alu.out, p.mmuData);
      var i1, i3 := s1, s3;
      ghost var c := Model();
      StagesIgnore(program, p, c, AluAfter(c));
      UpdateCounterAndStages(p, hold, stopped, executes, next, busA);
      alu.PosEdge(busA, busB, i1.b, AluControl(i1), executes && UsesAlu(i1));
      bank.PosEdge(i3, value, WritesBack(i3), OpCode(i3.op) == 6);
    }

    method StageExecutes(hold: bool) returns (executes: bool)
      requires Valid() && hold == Hold(Model())
      ensures executes == Executes(Model())
    {
      hide FlagsAllow, Hold;
      executes := FlagsAllow(s1, alu.cf, alu.zf) && !hold;
    }

    method NextAddress(executes: bool, busA: bv8, busB: bv8) returns (next: nat)
      requires Valid() && executes == Executes(Model())
      requires busA == Bus(bank.Contents(), s1.a) && busB == Bus(bank.Contents(), s1.b)
      ensures next == Fetch(Model())
    {
      hide Executes, Bus, Wide;
      var jump := if OpCode(s1.op) % 2 == 1 then Wide(s1.a, s1.b) else Wide(busA, busB);
      next := if executes && Jumps(s1) then jump else NextPc(pc);
    }

    method StageSignals(p: Pins, executes: bool) returns (finished1: bool, ready2: bool, finished2: bool)
      requires Valid() && executes == Executes(Model())
      ensures finished1 == Finished1(Model()) && ready2 == Ready2(Model(), p) && finished2 == Finished2(Model(), p)
    {
      hide Executes, OpCode;
      finished1 := Jumps(s1) || OpCode(s1.op) == 7 || !executes || OpCode(s1.op) == 0;
      ready2 := !UsesMemory(s2) || p.mmuReady;
      finished2 := OpCode(s2.op) == 0 || (OpCode(s2.op) == 3 && ready2);
    }

    method UpdateCounterAndStages(p: Pins, hold: bool, stopped: bool, executes: bool, next: nat, busA: bv8)
      requires Valid() && hold == Hold(Model()) && stopped == Stopped(Model()) && executes == Executes(Model())
      requires next == Fetch(Model()) && busA == Bus(bank.Contents(), s1.a)
      modifies `pc, `ctr, `s1, `s2, `s3
      ensures pc == PcAfter(old(Model()), p) && ctr == CtrAfter(old(Model()), p)
      ensures var n := StagesAfter(program, p, old(Model()), old(Model())); s1 == n.s1 && s2 == n.s2 && s3 == n.s3
    {
      hide Hold, Stopped, Executes, Fetch, Bus, PcAfter, CtrAfter, OpCode, Finished1, Finished2, Ready2;
      var finished1, ready2, finished2 := StageSignals(p, executes);
      var advance := (ready2 || finished1) && !hold;
      var i1, i2 := s1, s2;
      UpdateCounter(p, advance, stopped, next, executes && OpCode(i1.op) == 7, busA, i1.b);
      s3 := if stopped || finished2 || !ready2 then BUBBLE else i2;
      s2 := if stopped then BUBBLE else if !ready2 then i2 else if finished1 || hold then BUBBLE else i1;
      s1 := if stopped then BUBBLE else if advance then program[next] else i1;
    }

    method StageHold() returns (hold: bool)
      requires Valid()
      ensures hold == Hold(Model())
    {
      hide Meets, Union, ReadsA, ReadsB, Announced, FlagDependent;
      var overlap := Meets(Union(Announced(s2), Announced(s3)), Union(ReadsA(s1), ReadsB(s1)));
      var flags := SetsFlags(s2) && FlagDependent(s1);
      hold := flags || overlap || ctr & 0xE0 != 0;
    }

    method IsStopped() returns (stopped: bool)
      requires Valid()
      ensures stopped == Stopped(Model())
    {
      stopped := ctr & 0xE0 != 0;
    }

    method UpdateCounter(p: Pins, advance: bool, stopped: bool, next: nat, setCtr: bool, value: bv8, mask: bv8)
      requires Valid() && stopped == Stopped(Model()) && advance == Issues(Model(), p) && next == Fetch(Model())
      requires setCtr == (Executes(Model()) && OpCode(s1.op) == 7) && value == Bus(bank.Contents(), s1.a) && mask == s1.b
      modifies `pc, `ctr
      ensures pc == PcAfter(old(Model()), p) && ctr == CtrAfter(old(Model()), p)
    {
      hide Fetch, Executes, Issues, MergeControl, Bus, Has;
      var interrupted := ctr & 0x10 != 0 && p.interrupt;
      if advance && !stopped {
        pc := next;
      }
      if setCtr {
        ctr := Merged(ctr, value, mask);
      }
      if interrupted {
        ctr := ctr & 0x0F;
        pc := 1;
      }
    }
  }

  /** The stage registers do not depend on what else the clock changes. */
  lemma StagesIgnore(program: Program, p: Pins, c: Core, n: Core)
    ensures var x, y := StagesAfter(program, p, c, n), StagesAfter(program, p, c, c);
            x == n.(s1 := y.s1, s2 := y.s2, s3 := y.s3)
  {
    hide Stopped, Issues, Fetch, Ready2, Finished1, Finished2, Hold;
  }
}
