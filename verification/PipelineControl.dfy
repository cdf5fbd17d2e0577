/** What the decoders of the pipelined core take an instruction for, and what its control register does: `ctr`,
    interrupts and the stopped state. */
module PipelineControl {
  import opened Isa
  import opened Pipeline
  import opened Encoding

  // ----- the decoders, operation by operation

  /** What stage 1 has to wait for: the registers that the operation reads. */
  lemma ReadsMeans(i: Instr)
    ensures ReadsA(i) == if i.op in {Stm, Jpr, Ctr, Nad, And, Xor, Shr, Ext, Add, Cmp} then i.a else 0
    ensures ReadsB(i) == if i.op in {Ldm, Stm, Jpr, Nad, And, Xor, Mov, Ext, Add, Cmp} then i.b else 0
  {}

  /** What stages 2 and 3 have still to write. */
  lemma WritesMeans(i: Instr)
    ensures WritesBack(i) <==> i.op in {Set, Ldm, Nad, And, Xor, Shr, Mov, Ext, Add, Cmp}
    ensures Announced(i) == if WritesBack(i) then i.a else if i.op == Cid then CID_HAZARD else 0
    ensures SetsFlags(i) <==> i.op == Cmp
  {}

  lemma KindsMean(i: Instr)
    ensures UsesMemory(i) <==> i.op == Ldm || i.op == Stm
    ensures Jumps(i) <==> i.op == Jpr || i.op == Jpi
    ensures UsesAlu(i) <==> IsAlu(i.op) || i.op == Ext
  {}

  /** Stage 1 finishes alone what it skips, jumps, control writes and `nop`. */
  lemma FinishedMeans(c: Core)
    ensures Finished1(c) <==> !Executes(c) || c.s1.op in {Nop, Jpr, Jpi, Ctr}
  {
    hide Executes;
  }

  /** A condition waits for the flags unless it asks nothing of both: two bits of the nibble for each flag, alike. */
  lemma FlagDependentMeans(i: Instr)
    ensures !FlagDependent(i) <==> i.cond in {0, 3, 12, 15}
    ensures !FlagDependent(i) ==> forall cf, zf :: FlagsAllow(i, cf, zf) == FlagsAllow(i, false, false)
  {}

  /** Sixteen address bits; the reset address is the one before zero; a bubble is the word of zeros. */
  lemma WordsAndAddresses()
    ensures ADDRESS_SPACE == Wide(0xFF, 0xFF) + 1 && RESET_PC == Wide(0xFF, 0xFF) && NextPc(RESET_PC) == 0
    ensures Encode(BUBBLE) == [0, 0, 0]
  {}

  // ----- the control register

  lemma MergeBit(old_: bv8, value: bv8, mask: bv8, k: nat)
    requires k < 8
    ensures Has(MergeControl(old_, value, mask), k) <==> if Has(mask, k) then Has(value, k) else Has(old_, k)
  {
    MergeAt(old_, value, mask, Bit(k));
  }

  lemma MergeAt(old_: bv8, value: bv8, mask: bv8, b: bv8)
    requires b in {1, 2, 4, 8, 16, 32, 64, 128}
    ensures MergeControl(old_, value, mask) & b == if mask & b != 0 then value & b else old_ & b
  {
    if mask & b != 0 {
      assert mask & b == b;
    }
  }

  lemma LowHalf(x: bv8, k: nat)
    requires k < 8
    ensures Has(x & 0x0F, k) <==> k < 4 && Has(x, k)
  {}

  /** Bit 4 lets an interrupt through. */
  lemma InterruptedMeans(c: Core, p: Pins)
    ensures Interrupted(c, p) <==> Has(c.ctr, 4) && p.interrupt
  {}

  lemma StoppedMeans(c: Core)
    ensures Stopped(c) <==> Has(c.ctr, 5) || Has(c.ctr, 6) || Has(c.ctr, 7)
  {}

  /** The control register after a clock, bit by bit: an executing `ctr` replaces the bits that its mask names, and
      an interrupt clears the upper half. */
  lemma ControlMeans(program: Program, p: Pins, c: Core, k: nat)
    requires k < 8
    ensures var written := if Executes(c) && c.s1.op == Ctr && Has(c.s1.b, k) then Has(ReadSet(c.regs, c.s1.a), k) else Has(c.ctr, k);
            Has(Clock(program, p, c).ctr, k) <==> written && !(Interrupted(c, p) && k >= 4)
  {
    hide Executes, Bus, ReadSet, MergeControl, Interrupted, StagesAfter, AluAfter, PcAfter, BankAfter, ValueBack, Has;
    BusIsReadSet(c.regs, c.s1.a);
    MergeBit(c.ctr, Bus(c.regs, c.s1.a), c.s1.b, k);
    LowHalf(c.ctr, k);
    LowHalf(MergeControl(c.ctr, Bus(c.regs, c.s1.a), c.s1.b), k);
  }

  /** An interrupt sends the program counter to address 1, disables further ones and wakes a stopped core. */
  lemma InterruptTaken(program: Program, p: Pins, q: Pins, c: Core)
    requires Interrupted(c, p)
    ensures var n := Clock(program, p, c);
            n.pc == 1 && !Stopped(n) && !Interrupted(n, q)
  {
    hide Executes, Bus, MergeControl, StagesAfter, AluAfter, BankAfter, ValueBack, Has, Interrupted;
    var n := Clock(program, p, c);
    StoppedMeans(n);
    InterruptedMeans(n, q);
    ControlMeans(program, p, c, 4);
    ControlMeans(program, p, c, 5);
    ControlMeans(program, p, c, 6);
    ControlMeans(program, p, c, 7);
  }

  /** A stopped core issues nothing, empties its stages and keeps its program counter and control register; only
      the instruction in stage 3 is still written back. */
  lemma StoppedStands(program: Program, p: Pins, c: Core)
    requires Stopped(c) && !Interrupted(c, p)
    ensures var n := Clock(program, p, c);
            && !Executes(c) && !Issues(c, p) && Stopped(n)
            && n.pc == c.pc && n.ctr == c.ctr && n.s1 == BUBBLE && n.s2 == BUBBLE && n.s3 == BUBBLE
            && n.regs == BankAfter(c.regs, c.s3, ValueBack(c.s3, c.out, p.mmuData))
            && n.control == c.control && n.alpha == c.alpha && n.beta == c.beta && n.immediate == c.immediate
  {
    hide Bus, MergeControl, AluOut, BankAfter, ValueBack, Bit8OfDifference, Difference8, Meets, Union, Announced, ReadsA, ReadsB;
    hide FlagDependent, Interrupted;
  }
}
