/** One clock of the whole core is at most one instruction of the sequential machine. */
module CoreMemoryClock {
  import opened Isa
  import opened Pipeline
  import opened PipelineRefinement
  import opened CoreMemory
  import opened CoreMemoryRefinement
  import M = MemorySystem
  import I = Interpreter

  // ----- agreement, part by part

  predicate SameParts(w: Whole, t: State) {
    DrainedRegsAll(w) == t.regs && w.core.pc == t.pc && RamOf(PendingCells(w.memory)) == t.ram && t.ctr == 0 && t.trace == []
  }

  predicate SameFlags(w: Whole, t: State) {
    DrainedCf(w.core) == t.cf && DrainedZf(w.core) == t.zf
  }

  lemma DrainedParts(w: Whole, t: State)
    ensures DrainedAll(w) == t <==> SameParts(w, t) && SameFlags(w, t)
  {
    hide DrainedRegsAll, DrainedCf, DrainedZf, RamOf, PendingCells;
  }

  /** Where the sequential machine goes on the same clock. */
  function After(dev: Device, w: Whole, issues: bool, t: State): State {
    if issues then Apply(PLAIN, dev, w.core.s1, t.(pc := NextPc(w.core.pc))) else t
  }

  lemma BubbleWritesNothing(r: Regs, v: bv8)
    ensures BankAfter(r, BUBBLE, v) == r
  {}

  /** What a clock does that hands nothing on: jumps and skipped instructions are finished in stage 1. */
  lemma FinishedInFirst(dev: Device, w: Whole, t: State)
    requires DrainedAll(w) == t && !Hold(w.core) && Finished1(w.core) && CidClear(w.core) && AllowedHere(w.core.s1)
    ensures After(dev, w, true, t) == t.(pc := Fetch(w.core))
  {
    hide Bus, ReadSet, CheckFlags, FlagsAllow, Hold, ClearOfCid, Wide, DrainedRegsAll, DrainedCf, DrainedZf, RamOf, PendingCells, Early, NextPc;
    DecisionAll(w, t);
    if Executes(w.core) && w.core.s1.op == Jpr {
      OperandsAll(w, t);
    }
    JumpEffect(dev, w.core.s1, t.(pc := NextPc(w.core.pc)));
  }

  lemma JumpEffect(dev: Device, i: Instr, t: State)
    ensures i.op == Jpr ==> Effect(PLAIN, dev, i, t) == t.(pc := Wide(ReadSet(t.regs, i.a), ReadSet(t.regs, i.b)))
    ensures i.op == Jpi ==> Effect(PLAIN, dev, i, t) == t.(pc := Wide(i.a, i.b))
  {
    hide ReadSet, Wide;
  }

  // ----- stage 2 waits

  lemma FlagsWait(program: Program, w: Whole)
    requires w.core.pc < ADDRESS_SPACE && LatchInv(w) && UsesMemory(w.core.s2) && !Early(w)
    ensures var n := WaitingClock(program, w);
            DrainedCf(n) == DrainedCf(w.core) && DrainedZf(n) == DrainedZf(w.core)
  {
    hide AluOut, Bus, Executes, Finished1, Hold, Fetch, BankAfter, AluAfter, Borrow, RegsAfterThird, LatchInv, Early;
    AluSettlesAll(w);
    AluKeepsStages(w.core);
  }

  lemma WaitingIsNotEarly(w: Whole)
    requires Waits(w)
    ensures UsesMemory(w.core.s2) && !Early(w)
  {}

  lemma WaitingRefines(dev: Device, program: Program, o: Outside, w: Whole, t: State)
    requires InvAll(program, w) && CidClear(w.core) && Waits(w) && DrainedAll(w) == t
    ensures var v := ClockAll(program, o, w);
            DrainedAll(v) == After(dev, w, Issues(w.core, PinsOf(w, o)), t)
  {
    hide StagesInv, LatchInv, LinkInv, Clock, M.Clock, Executes, CidClear, M.OperationCompleted, DrainedAll, RequestOf, Apply;
    hide DrainedRegsAll, DrainedCf, DrainedZf, RamOf, PendingCells, PendingLoad, Early, Hold, Finished1, Issues, AluAfter, Fetch, RegsAfterThird;
    var l := RequestOf(w.core, o.pins);
    var v := ClockAll(program, o, w);
    StagesOnly(program, w);
    ClockWaits(program, o, w);
    MemoryWaits(program, w, l);
    DrainWaits(program, w, v.memory);
    DrainedParts(w, t);
    WaitingIsNotEarly(w);
    FlagsWait(program, w);
    if Issues(w.core, PinsOf(w, o)) {
      FinishedInFirst(dev, w, t);
    }
    DrainedParts(v, After(dev, w, Issues(w.core, PinsOf(w, o)), t));
  }

  // ----- stage 2 moves

  /** Nothing enters stage 2. */
  lemma NothingEnters(program: Program, o: Outside, w: Whole, t: State)
    requires InvAll(program, w) && !Waits(w) && DrainedAll(w) == t
    requires MovingClock(program, w).s2 == BUBBLE && !Asks(w.core) && !Early(w)
    ensures DrainedAll(ClockAll(program, o, w)) == t.(pc := MovingClock(program, w).pc)
  {
    hide StagesInv, LatchInv, LinkInv, Clock, M.Clock, Executes, CidClear, M.OperationCompleted, DrainedAll, RequestOf, MovingClock, Asks;
    hide DrainedRegsAll, DrainedCf, DrainedZf, RamOf, PendingCells, PendingLoad, Early, Hold, Waits, BankAfter, PendingSecond, Issues;
    var l := RequestOf(w.core, o.pins);
    var v := ClockAll(program, o, w);
    StagesOnly(program, w);
    RequestIgnoresPins(w.core, o.pins);
    ClockMoves(program, o, w);
    MemoryMoves(program, w, l);
    DrainMoves(program, w, v.memory);
    SecondDrains(v);
    FlagsMove(program, w);
    BubbleWritesNothing(DrainedRegsAll(w), PendingSecond(v));
    BubbleSetsNothing(v);
    DrainedParts(w, t);
    DrainedParts(v, t.(pc := v.core.pc));
  }

  lemma SecondDrains(w: Whole)
    ensures DrainedRegsAll(w) == BankAfter(RegsAfterThird(w), w.core.s2, PendingSecond(w))
  {}

  lemma BubbleSetsNothing(w: Whole)
    requires w.core.s2 == BUBBLE
    ensures !SetsFlags(w.core.s2)
  {}

  /** The whole core after a memory instruction has entered stage 2, next to the sequential machine. */
  lemma MemoryEnters(dev: Device, program: Program, o: Outside, w: Whole, t: State)
    requires InvAll(program, w) && PortFree(w) && CidClear(w.core) && !Waits(w) && DrainedAll(w) == t && Asks(w.core)
    ensures var v := ClockAll(program, o, w);
            var e := Effect(PLAIN, dev, w.core.s1, t.(pc := NextPc(w.core.pc)));
            var l := RequestOf(w.core, o.pins);
            var cells := PendingCells(w.memory);
            && SameFlags(v, e) && v.core.pc == e.pc && e.ctr == 0 && e.trace == []
            && e.ram == RamOf(M.AfterRequest(cells, l))
            && RamOf(PendingCells(v.memory)) == RamOf(if w.memory.mmu.ongoing then cells else M.AfterRequest(cells, l))
            && e.regs == (if l.write then DrainedRegsAll(w) else WriteSet(DrainedRegsAll(w), w.core.s1.a, cells[l.address]))
            && DrainedRegsAll(v) ==
                 if l.write then RegsAfterThird(v) else WriteSet(RegsAfterThird(v), w.core.s1.a, LoadedBy(w.memory, l.address))
  {
    hide StagesInv, LatchInv, LinkInv, Clock, M.Clock, FlagsAllow, ClearOfCid, M.OperationCompleted, DrainedAll, RequestOf, MovingClock;
    hide DrainedRegsAll, DrainedCf, DrainedZf, RamOf, PendingCells, PendingLoad, Early, Hold, Waits, BankAfter, Effect, Bus, ReadSet;
    hide M.AfterRequest, Load, Store, ReadsA, ReadsB, NextPc, RegsAfterThird, LoadedBy;
    var c, l := w.core, RequestOf(w.core, o.pins);
    var v := ClockAll(program, o, w);
    StagesOnly(program, w);
    RequestIgnoresPins(c, o.pins);
    WriteLineIs(c.s1);
    WriteLineOf(c, o.pins);
    ClockMoves(program, o, w);
    MemoryMoves(program, w, l);
    FlagsMove(program, w);
    SecondMoves(program, w);
    MovesOn(program, w);
    NotEarly(w);
    DrainedParts(w, t);
    OperandsAll(w, t);
    MemoryReads(c.s1);
    SecondDrains(v);
    MemoryWrites(v.core, RegsAfterThird(v), PendingSecond(v));
    var u := t.(pc := NextPc(c.pc));
    I.EffectByOperation(PLAIN, dev, c.s1, u);
    PlainLoad(dev, u, PendingCells(w.memory), c.s1.a, ReadSet(t.regs, c.s1.b));
    PlainStore(u, PendingCells(w.memory), ReadSet(t.regs, c.s1.a), ReadSet(t.regs, c.s1.b), l);
  }

  /** What the load or the computation ahead of it leaves in the registers. */
  lemma AheadOfMemory(program: Program, o: Outside, w: Whole)
    requires InvAll(program, w) && PortFree(w) && !Waits(w) && Asks(w.core)
    ensures var v := ClockAll(program, o, w);
            var l := RequestOf(w.core, o.pins);
            && (!(OvertakesLoad(w) && !l.write) ==> RegsAfterThird(v) == DrainedRegsAll(w))
            && (OvertakesLoad(w) && !l.write ==>
                  && RegsAfterThird(v) == WriteSet(RegsAfterThird(w), w.core.s2.a, PendingCells(w.memory)[l.address])
                  && DrainedRegsAll(w) == WriteSet(RegsAfterThird(w), w.core.s2.a, w.memory.mmu.outData)
                  && LoadedBy(w.memory, l.address) == PendingCells(w.memory)[l.address])
  {
    hide StagesInv, LatchInv, LinkInv, Clock, M.Clock, FlagsAllow, M.OperationCompleted, RequestOf, MovingClock, M.Contents;
    hide DrainedRegsAll, RamOf, Waits, BankAfter, M.AfterRequest, RegsAfterThird, WriteSet, Asks;
    var l := RequestOf(w.core, o.pins);
    var v := ClockAll(program, o, w);
    StagesOnly(program, w);
    RequestIgnoresPins(w.core, o.pins);
    ClockMoves(program, o, w);
    MemoryMoves(program, w, l);
    DrainMoves(program, w, v.memory);
    SecondDrains(w);
    if w.core.s2.op == Ldm {
      MemoryWrites(w.core, RegsAfterThird(w), PendingSecond(w));
      MemoryWrites(w.core, RegsAfterThird(w), v.memory.mmu.outData);
    }
  }

  lemma RamsAgree(c: M.Cells, l: M.Lines)
    ensures RamOf(c) == RamOf(M.AfterRequest(c, l)) <==> (l.write ==> c[l.address] == l.data)
  {
    if l.write {
      var d := c[l.address := l.data];
      assert RamOf(c)[l.address] == c[l.address] && RamOf(d)[l.address] == l.data;
      if c[l.address] == l.data {
        assert d == c;
      }
    }
  }

  /** A memory instruction that enters stage 2 leaves core and memory where the sequential machine goes exactly if
      its request is harmless. */
  lemma MemoryEntersExactly(dev: Device, program: Program, o: Outside, w: Whole, t: State)
    requires InvAll(program, w) && PortFree(w) && CidClear(w.core) && !Waits(w) && DrainedAll(w) == t && Asks(w.core)
    ensures DrainedAll(ClockAll(program, o, w)) == Effect(PLAIN, dev, w.core.s1, t.(pc := NextPc(w.core.pc))) <==> Harmless(w)
  {
    hide ClockAll, CidClear, DrainedAll, RequestOf, Effect, InvAll, PortFree, Waits, Asks, SameFlags, Harmless, NextPc;
    hide DrainedRegsAll, RamOf, PendingCells, RegsAfterThird, LoadedBy, WriteSet, M.AfterRequest, OvertakesLoad;
    var v := ClockAll(program, o, w);
    var l := RequestOf(w.core, o.pins);
    var cells := PendingCells(w.memory);
    MemoryEnters(dev, program, o, w, t);
    DrainedParts(v, Effect(PLAIN, dev, w.core.s1, t.(pc := NextPc(w.core.pc))));
    RamsAgree(cells, l);
    SameCells(cells, l);
    HarmlessMeans(w, o.pins);
    if !l.write {
      LoadsAgree(program, o, w);
    } else {
      AheadOfMemory(program, o, w);
    }
  }

  lemma HarmlessMeans(w: Whole, pins: bv8)
    requires Asks(w.core) && !Waits(w)
    ensures var l := RequestOf(w.core, pins);
            var cell := PendingCells(w.memory)[l.address];
            Harmless(w) <==>
              if l.write then w.memory.mmu.ongoing ==> cell == l.data
              else
                && (LoadedBy(w.memory, l.address) == cell || w.core.s1.a == 0)
                && (OvertakesLoad(w) ==> w.memory.mmu.outData == cell || w.core.s2.a & !w.core.s1.a == 0)
  {
    hide Asks, Waits, RequestOf, PendingCells, LoadedBy, OvertakesLoad;
    RequestIgnoresPins(w.core, pins);
  }

  lemma LoadsAgree(program: Program, o: Outside, w: Whole)
    requires InvAll(program, w) && PortFree(w) && !Waits(w) && Asks(w.core) && !RequestOf(w.core, o.pins).write
    ensures var v := ClockAll(program, o, w);
            var a := RequestOf(w.core, o.pins).address;
            var cell := PendingCells(w.memory)[a];
            WriteSet(RegsAfterThird(v), w.core.s1.a, LoadedBy(w.memory, a)) == WriteSet(DrainedRegsAll(w), w.core.s1.a, cell) <==>
              && (LoadedBy(w.memory, a) == cell || w.core.s1.a == 0)
              && (OvertakesLoad(w) ==> w.memory.mmu.outData == cell || w.core.s2.a & !w.core.s1.a == 0)
  {
    hide ClockAll, RequestOf, InvAll, PortFree, Waits, Asks, DrainedRegsAll, PendingCells, RegsAfterThird, LoadedBy, WriteSet, OvertakesLoad;
    var v := ClockAll(program, o, w);
    var a := RequestOf(w.core, o.pins).address;
    var cell := PendingCells(w.memory)[a];
    AheadOfMemory(program, o, w);
    WritesAgree(RegsAfterThird(v), w.core.s1.a, LoadedBy(w.memory, a), cell);
    OverwritesAgree(RegsAfterThird(w), w.core.s2.a, cell, w.memory.mmu.outData, w.core.s1.a, cell);
  }

  lemma SameCells(c: M.Cells, l: M.Lines)
    ensures !l.write ==> M.AfterRequest(c, l) == c
  {}

  lemma MovesOn(program: Program, w: Whole)
    requires w.core.pc < ADDRESS_SPACE && Executes(w.core) && !Jumps(w.core.s1)
    ensures MovingClock(program, w).pc == NextPc(w.core.pc)
  {
    hide FlagsAllow, Hold, AluAfter, RegsAfterThird;
    assert !Hold(w.core);
  }

  lemma NotEarly(w: Whole)
    requires UsesMemory(w.core.s1)
    ensures !Early(w) && !Jumps(w.core.s1) && !SetsFlags(w.core.s1)
  {}

  lemma MemoryReads(i: Instr)
    requires UsesMemory(i)
    ensures ReadsB(i) == i.b && (i.op == Stm ==> ReadsA(i) == i.a)
  {}

  lemma MemoryWrites(c: Core, r: Regs, v: bv8)
    requires UsesMemory(c.s2)
    ensures BankAfter(r, c.s2, v) == if c.s2.op == Ldm then WriteSet(r, c.s2.a, v) else r
  {
    hide WriteSet;
  }

  /** Plain memory has one segment and nothing but RAM. */
  lemma PlainLoad(dev: Device, t: State, cells: M.Cells, mask: bv8, address: bv8)
    requires t.ram == RamOf(cells)
    ensures Load(PLAIN, dev, t, mask, address) == t.(regs := WriteSet(t.regs, mask, cells[Num(address)]))
  {
    hide WriteSet;
  }

  lemma PlainStore(t: State, cells: M.Cells, address: bv8, v: bv8, l: M.Lines)
    requires t.ram == RamOf(cells)
    ensures l.write && l.address == Num(address) && l.data == v ==>
              Store(PLAIN, t, address, v) == t.(ram := RamOf(M.AfterRequest(cells, l)))
    ensures !l.write ==> M.AfterRequest(cells, l) == cells
  {
    if l.write && l.address == Num(address) && l.data == v {
      assert RamOf(cells)[Num(address) := v] == RamOf(cells[Num(address) := v]);
    }
  }

  /** An instruction that only computes enters stage 2. */
  lemma ComputationEnters(dev: Device, program: Program, o: Outside, w: Whole, t: State)
    requires InvAll(program, w) && CidClear(w.core) && !Waits(w) && DrainedAll(w) == t
    requires Executes(w.core) && (UsesAlu(w.core.s1) || w.core.s1.op == Set || w.core.s1.op == Cid)
    ensures DrainedAll(ClockAll(program, o, w)) == Effect(PLAIN, dev, w.core.s1, t.(pc := NextPc(w.core.pc)))
  {
    hide StagesInv, LatchInv, LinkInv, Clock, M.Clock, FlagsAllow, CidClear, M.OperationCompleted, DrainedAll, RequestOf, MovingClock;
    hide DrainedRegsAll, DrainedCf, DrainedZf, RamOf, PendingCells, PendingLoad, Early, Hold, Waits, BankAfter, Effect, ReadSet, WriteSet;
    hide NextPc, PendingValue, Alu, Borrow;
    var c, l := w.core, RequestOf(w.core, o.pins);
    var v := ClockAll(program, o, w);
    StagesOnly(program, w);
    RequestIgnoresPins(c, o.pins);
    ClockMoves(program, o, w);
    MemoryMoves(program, w, l);
    DrainMoves(program, w, v.memory);
    SecondDrains(v);
    FlagsMove(program, w);
    MovesOn(program, w);
    DrainedParts(w, t);
    var u := t.(pc := NextPc(c.pc));
    SecondComputes(program, w);
    if UsesAlu(c.s1) {
      LatchedAll(program, w, t);
      EffectOfAlu(PLAIN, dev, c.s1, u);
    } else {
      I.EffectByOperation(PLAIN, dev, c.s1, u);
    }
    SecondWrites(v.core, DrainedRegsAll(w), PendingValue(v.core));
    ComputationIsNotEarly(w, v);
    DrainedParts(v, Effect(PLAIN, dev, c.s1, u));
  }

  lemma SecondComputes(program: Program, w: Whole)
    requires w.core.pc < ADDRESS_SPACE && Executes(w.core) && (UsesAlu(w.core.s1) || w.core.s1.op == Set || w.core.s1.op == Cid)
    ensures MovingClock(program, w).s2 == w.core.s1
  {
    hide FlagsAllow, Hold, AluAfter, RegsAfterThird, Fetch;
    assert !Hold(w.core);
  }

  lemma SecondWrites(c: Core, r: Regs, v: bv8)
    requires c.s2.op == Set || c.s2.op == Cid || UsesAlu(c.s2)
    ensures BankAfter(r, c.s2, v) == if c.s2.op == Cid then WriteSet(r, CID_REGISTERS, 0) else WriteSet(r, c.s2.a, v)
    ensures c.s2.op == Set ==> PendingValue(c) == c.s2.b
  {
    hide WriteSet, AluOut;
  }

  lemma ComputationIsNotEarly(w: Whole, v: Whole)
    requires UsesAlu(w.core.s1) || w.core.s1.op == Set || w.core.s1.op == Cid
    requires v.core.s2 == w.core.s1
    ensures PendingSecond(v) == PendingValue(v.core) && !UsesMemory(w.core.s1) && !Asks(w.core)
    ensures SetsFlags(w.core.s1) <==> w.core.s1.op == Cmp
    ensures Early(w) ==> w.core.s1.op == Cmp
    ensures !Jumps(w.core.s1)
  {
    hide PendingValue, Executes;
  }

  lemma MovingRefines(dev: Device, program: Program, o: Outside, w: Whole, t: State)
    requires InvAll(program, w) && PortFree(w) && CidClear(w.core) && !Waits(w) && DrainedAll(w) == t
    ensures var v := ClockAll(program, o, w);
            DrainedAll(v) == After(dev, w, Issues(w.core, PinsOf(w, o)), t) <==> Harmless(w)
  {
    hide InvAll, LatchInv, LinkInv, ClockAll, FlagsAllow, PortFree, CidClear, DrainedAll, MovingClock, Effect, Early, Hold, Waits, NextPc, Issues;
    hide CheckFlags, Fetch, StagesInv;
    var c := w.core;
    InvGives(program, o, w);
    if Hold(c) || Finished1(c) {
      NothingEntersWhen(program, w);
      NothingEnters(program, o, w, t);
      DrainedPcAll(w, t);
      if !Hold(c) {
        FinishedInFirst(dev, w, t);
      }
      assert Harmless(w);
    } else {
      DecisionAll(w, t);
      if UsesMemory(c.s1) {
        MemoryEntersExactly(dev, program, o, w, t);
      } else {
        ComputationEnters(dev, program, o, w, t);
        assert Harmless(w);
      }
    }
  }

  lemma InvGives(program: Program, o: Outside, w: Whole)
    requires InvAll(program, w)
    ensures w.core.pc < ADDRESS_SPACE && AllowedHere(w.core.s1)
    ensures !Waits(w) ==> (Issues(w.core, PinsOf(w, o)) <==> !Hold(w.core))
  {
    hide LatchInv, LinkInv, Clock, Waits, Hold, Issues, MovingClock, Asks, RequestOf, Executes;
    if !Waits(w) {
      ClockMoves(program, o, w);
    }
  }

  lemma DrainedPcAll(w: Whole, t: State)
    requires DrainedAll(w) == t
    ensures t.pc == w.core.pc
  {
    hide DrainedRegsAll, DrainedCf, DrainedZf, RamOf, PendingCells, Early;
  }

  lemma NothingEntersWhen(program: Program, w: Whole)
    requires w.core.pc < ADDRESS_SPACE && AllowedHere(w.core.s1) && (Hold(w.core) || Finished1(w.core))
    ensures var n := MovingClock(program, w);
            n.s2 == BUBBLE && n.pc == (if Hold(w.core) then w.core.pc else Fetch(w.core))
    ensures !Asks(w.core) && !Early(w)
  {
    hide FlagsAllow, FlagDependent, Hold, AluAfter, RegsAfterThird, Fetch;
  }

  /** Draining after a clock is draining before it, plus the instruction in stage 1 if the clock issued it, memory
      included, exactly if the clock makes no harmful request. */
  lemma ClockAllRefinesExactly(dev: Device, program: Program, o: Outside, w: Whole, t: State)
    requires InvAll(program, w) && PortFree(w) && CidClear(w.core) && DrainedAll(w) == t
    ensures DrainedAll(ClockAll(program, o, w)) == After(dev, w, Issues(w.core, PinsOf(w, o)), t) <==> Harmless(w)
  {
    hide InvAll, CidClear, PortFree, Waits, DrainedAll, ClockAll, After, Issues;
    if Waits(w) {
      WaitingRefines(dev, program, o, w, t);
    } else {
      MovingRefines(dev, program, o, w, t);
    }
  }
}
