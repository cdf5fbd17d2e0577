/** The three-stage pipelined core, one clock at a time: stage 1 issues, stage 2 is the latched ALU, stage 3 writes
    back. Everything here follows the hardware; what it means is in PipelineRefinement. */
module Pipeline {
  import opened Isa

  const ADDRESS_SPACE := 65536
  const RESET_PC := 0xFFFF

  const BUBBLE := Instr(Nop, 0, 0, 0)

  /** The registers of the core at one moment. */
  datatype Core = Core(
    pc: nat, ctr: bv8,
    s1: Instr, s2: Instr, s3: Instr,
    control: nat, alpha: bv8, beta: bv8, immediate: bv8, out: bv8, cf: bool, zf: bool,
    regs: Regs)

  /** What the outside drives during one clock. */
  datatype Pins = Pins(mmuReady: bool, mmuData: bv8, interrupt: bool)

  /** A word for every address; the program counter is sixteen bits wide. */
  type Program = p: seq<Instr> | |p| == ADDRESS_SPACE witness seq(ADDRESS_SPACE, i => BUBBLE)

  function Reset(alpha: bv8, beta: bv8, immediate: bv8): Core {
    Core(RESET_PC, 0, BUBBLE, BUBBLE, BUBBLE, 0, alpha, beta, immediate, 0, false, false, [0, 0, 0, 0, 0, 0, 0, 0])
  }

  // ----- instruction words

  predicate UsesAlu(i: Instr) {
    OpCode(i.op) >= 8
  }

  predicate UsesMemory(i: Instr) {
    OpCode(i.op) / 2 == 1
  }

  predicate Jumps(i: Instr) {
    OpCode(i.op) / 2 == 2
  }

  function AluControl(i: Instr): nat {
    OpCode(i.op) % 8
  }

  // ----- register bank

  /** The eight-input OR on each read bus. */
  function OrTreeOf(x: seq<bv8>): bv8
    requires |x| == 8
  {
    x[0] | x[1] | x[2] | x[3] | x[4] | x[5] | x[6] | x[7]
  }

  function Bus(r: Regs, mask: bv8): bv8 {
    OrTreeOf(Picks(r, mask))
  }

  lemma BusIsReadSet(r: Regs, mask: bv8)
    ensures Bus(r, mask) == ReadSet(r, mask)
  {
    hide Pick, OrFirst;
    OrTree(Picks(r, mask));
  }

  // ----- stage 1

  predicate CondBit(cond: bv4, m: bv4) {
    cond & m != 0
  }

  predicate FlagsAllow(i: Instr, cf: bool, zf: bool) {
    var zfComp := (zf && CondBit(i.cond, 8)) || (!zf && CondBit(i.cond, 4));
    var cfComp := (cf && CondBit(i.cond, 2)) || (!cf && CondBit(i.cond, 1));
    zfComp && cfComp
  }

  predicate FlagDependent(i: Instr) {
    CondBit(i.cond, 8) != CondBit(i.cond, 4) || CondBit(i.cond, 2) != CondBit(i.cond, 1)
  }

  function ReadsA(i: Instr): bv8 {
    var alu := UsesAlu(i) && AluControl(i) != 4;
    if alu || OpCode(i.op) == 4 || OpCode(i.op) == 3 || OpCode(i.op) == 7 then i.a else 0
  }

  function ReadsB(i: Instr): bv8 {
    var alu := UsesAlu(i) && AluControl(i) != 3;
    if alu || OpCode(i.op) == 4 || OpCode(i.op) / 2 == 1 then i.b else 0
  }

  function Union(x: bv8, y: bv8): bv8 {
    x | y
  }

  predicate Meets(x: bv8, y: bv8) {
    x & y != 0
  }

  // ----- stages 2 and 3

  predicate WritesBack(i: Instr) {
    UsesAlu(i) || OpCode(i.op) == 2 || OpCode(i.op) == 1
  }

  const CID_HAZARD: bv8 := 0xF0

  /** The registers stages 2 and 3 announce for their instruction. */
  function Announced(i: Instr): bv8 {
    if WritesBack(i) then i.a else if OpCode(i.op) == 6 then CID_HAZARD else 0
  }

  predicate SetsFlags(i: Instr) {
    OpCode(i.op) == 15
  }

  function ValueBack(i: Instr, accumulator: bv8, mmuData: bv8): bv8 {
    if UsesAlu(i) then accumulator else if OpCode(i.op) == 2 then mmuData else i.b
  }

  /** The write port: a masked write, and the clear of the lower four registers. */
  function BankAfter(r: Regs, i: Instr, v: bv8): Regs {
    var w := if WritesBack(i) then WriteSet(r, i.a, v) else r;
    if OpCode(i.op) == 6 then WriteSet(w, CID_REGISTERS, 0) else w
  }

  // ----- ALU

  function Wide9(x: bv8): bv9 {
    x as bv9
  }

  function LowByte9(x: bv9): bv8 {
    (x & 0xFF) as bv8
  }

  /** Bit 8 of the nine-bit difference. */
  predicate Bit8OfDifference(x: bv8, y: bv8) {
    (Wide9(x) - Wide9(y)) & 0x100 != 0
  }

  /** Its low byte. */
  function Difference8(x: bv8, y: bv8): bv8 {
    LowByte9(Wide9(x) - Wide9(y))
  }

  function Nand(x: bv8, y: bv8): bv8 {
    !(x & y)
  }

  /** The shifter: one stage for each of the three low bits of the count, and nothing is left of longer counts. */
  function Shifted(x: bv8, count: bv8): bv8 {
    var a := if count & 4 != 0 then x >> 4 else x;
    var b := if count & 2 != 0 then a >> 2 else a;
    var c := if count & 1 != 0 then b >> 1 else b;
    if count & 0xF8 != 0 then 0 else c
  }

  function Sum8(x: bv8, y: bv8): bv8 {
    x + y
  }

  function Both(x: bv8, y: bv8): bv8 {
    x & y
  }

  function Either(x: bv8, y: bv8): bv8 {
    x ^ y
  }

  function AluOut(control: nat, alpha: bv8, beta: bv8, immediate: bv8, out: bv8): bv8 {
    if control == 4 then beta
    else if control == 6 then Sum8(alpha, beta)
    else if control == 7 then Difference8(alpha, beta)
    else if control == 0 then Nand(alpha, beta)
    else if control == 1 then Both(alpha, beta)
    else if control == 2 then Either(alpha, beta)
    else if control == 3 then Shifted(alpha, immediate)
    else out
  }

  // ----- one clock

  predicate Stopped(c: Core) {
    c.ctr & 0xE0 != 0
  }

  predicate Hold(c: Core) {
    || (SetsFlags(c.s2) && FlagDependent(c.s1))
    || Meets(Union(Announced(c.s2), Announced(c.s3)), Union(ReadsA(c.s1), ReadsB(c.s1)))
    || Stopped(c)
  }

  predicate Executes(c: Core) {
    FlagsAllow(c.s1, c.cf, c.zf) && !Hold(c)
  }

  predicate Finished1(c: Core) {
    Jumps(c.s1) || OpCode(c.s1.op) == 7 || !Executes(c) || OpCode(c.s1.op) == 0
  }

  predicate Ready2(c: Core, p: Pins) {
    !UsesMemory(c.s2) || p.mmuReady
  }

  predicate Finished2(c: Core, p: Pins) {
    OpCode(c.s2.op) == 0 || (OpCode(c.s2.op) == 3 && Ready2(c, p))
  }

  /** Stage 1 hands its instruction on and takes the next one. */
  predicate Issues(c: Core, p: Pins) {
    (Ready2(c, p) || Finished1(c)) && !Hold(c)
  }

  function JumpTarget(c: Core): (t: nat)
    ensures t < ADDRESS_SPACE
  {
    if OpCode(c.s1.op) % 2 == 1 then Wide(c.s1.a, c.s1.b) else Wide(Bus(c.regs, c.s1.a), Bus(c.regs, c.s1.b))
  }

  /** The address on the instruction bus. */
  function Fetch(c: Core): (t: nat)
    ensures t < ADDRESS_SPACE
  {
    if Executes(c) && Jumps(c.s1) then JumpTarget(c) else NextPc(c.pc)
  }

  function MergeControl(old_: bv8, value: bv8, mask: bv8): bv8 {
    (old_ & !mask) | (value & mask)
  }

  predicate Interrupted(c: Core, p: Pins) {
    c.ctr & 0x10 != 0 && p.interrupt
  }

  function CtrAfter(c: Core, p: Pins): bv8 {
    var next := if Executes(c) && OpCode(c.s1.op) == 7 then MergeControl(c.ctr, Bus(c.regs, c.s1.a), c.s1.b) else c.ctr;
    if Interrupted(c, p) then next & 0x0F else next
  }

  function PcAfter(c: Core, p: Pins): nat {
    if Interrupted(c, p) then 1 else if Issues(c, p) && !Stopped(c) then Fetch(c) else c.pc
  }

  /** Latches take new operands when stage 1 executes an ALU instruction; the result register and the flags are
      recomputed from the old latches on every clock. */
  function AluAfter(c: Core): Core {
    var n := c.(out := AluOut(c.control, c.alpha, c.beta, c.immediate, c.out),
                cf := if c.control == 7 then Bit8OfDifference(c.alpha, c.beta) else c.cf,
                zf := if c.control == 7 then Difference8(c.alpha, c.beta) == 0 else c.zf);
    if Executes(c) && UsesAlu(c.s1) then
      n.(control := AluControl(c.s1), alpha := Bus(c.regs, c.s1.a), beta := Bus(c.regs, c.s1.b), immediate := c.s1.b)
    else n
  }

  function StagesAfter(program: Program, p: Pins, c: Core, n: Core): Core {
    if Stopped(c) then n.(s1 := BUBBLE, s2 := BUBBLE, s3 := BUBBLE)
    else
      n.(s1 := if Issues(c, p) then program[Fetch(c)] else c.s1,
         s2 := if !Ready2(c, p) then c.s2 else if Finished1(c) || Hold(c) then BUBBLE else c.s1,
         s3 := if Finished2(c, p) || !Ready2(c, p) then BUBBLE else c.s2)
  }

  function Clock(program: Program, p: Pins, c: Core): Core {
    var n := StagesAfter(program, p, c, AluAfter(c));
    n.(pc := PcAfter(c, p), ctr := CtrAfter(c, p), regs := BankAfter(c.regs, c.s3, ValueBack(c.s3, c.out, p.mmuData)))
  }

  /** The core after the clocks that the pins describe. */
  function Clocks(program: Program, pins: seq<Pins>, c: Core): Core
    decreases |pins|
  {
    if pins == [] then c else Clock(program, pins[|pins| - 1], Clocks(program, pins[..|pins| - 1], c))
  }

  /** How many instructions stage 1 has handed on by then. */
  function Issued(program: Program, pins: seq<Pins>, c: Core): nat
    decreases |pins|
  {
    if pins == [] then 0
    else
      var before := pins[..|pins| - 1];
      Issued(program, before, c) + if Issues(Clocks(program, before, c), pins[|pins| - 1]) then 1 else 0
  }
}
