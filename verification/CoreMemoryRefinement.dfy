/** The whole core, memory instructions included, refines the sequential machine as long as every memory request
    meets quiescent memory. */
module CoreMemoryRefinement {
  import opened Isa
  import opened Pipeline
  import opened PipelineRefinement
  import opened CoreMemory
  import M = MemorySystem

  /** One segment of plain memory and no peripherals. */
  const PLAIN := Config(SEGMENT_SIZE, {})

  predicate AllowedHere(i: Instr) {
    i.op != Ctr && i.op != Ext
  }

  predicate AllAllowed(program: Program) {
    forall k :: 0 <= k < |program| ==> AllowedHere(program[k])
  }

  // ----- what the run is asked to avoid

  /** Stage 2 holds a memory instruction whose answer is not there yet. */
  predicate Waits(w: Whole) {
    UsesMemory(w.core.s2) && w.memory.mmu.ongoing && !M.OperationCompleted(w.memory)
  }

  /** No request that the memory unit could take goes to the input port: it stores nothing, and a write to it is
      never answered. */
  predicate PortFree(w: Whole) {
    Asks(w.core) && !Waits(w) ==> RequestOf(w.core, 0).address != M.GPIO_INPUT
  }

  /** A request on a clock that lets stage 2 move does no harm. While an operation is under way it is not seen, so
      a store has to have nothing to change; a load has to get the right byte, unless it writes no register; and a
      load that is answered at once must not disturb the load ahead of it. */
  predicate Harmless(w: Whole) {
    Asks(w.core) && !Waits(w) ==>
      var l := RequestOf(w.core, 0);
      var cell := PendingCells(w.memory)[l.address];
      if l.write then w.memory.mmu.ongoing ==> cell == l.data
      else
        && (LoadedBy(w.memory, l.address) == cell || w.core.s1.a == 0)
        && (OvertakesLoad(w) ==> w.memory.mmu.outData == cell || w.core.s2.a & !w.core.s1.a == 0)
  }

  /** A load from a return register is answered while the load ahead of it still relies on the output register. */
  predicate OvertakesLoad(w: Whole) {
    w.core.s2.op == Ldm && !w.memory.mmu.ongoing && M.IsReturnRegister(RequestOf(w.core, 0).address)
  }

  predicate Calm(w: Whole) {
    PortFree(w) && Harmless(w) && CidClear(w.core)
  }

  // ----- draining

  function PendingSecond(w: Whole): bv8 {
    if w.core.s2.op == Ldm then PendingLoad(w.memory) else PendingValue(w.core)
  }

  function ThirdValue(w: Whole): bv8 {
    ValueBack(w.core.s3, w.core.out, w.memory.mmu.outData)
  }

  function RegsAfterThird(w: Whole): Regs {
    BankAfter(w.core.regs, w.core.s3, ThirdValue(w))
  }

  function DrainedRegsAll(w: Whole): Regs {
    BankAfter(RegsAfterThird(w), w.core.s2, PendingSecond(w))
  }

  function RamOf(cells: M.Cells): Ram {
    seq(RAM_SIZE, a requires 0 <= a < RAM_SIZE => if a < M.RAM_CELLS then cells[a] else 0)
  }

  /** What is in flight has happened, registers and memory, what is in stage 1 has not. */
  function DrainedAll(w: Whole): State {
    State(DrainedRegsAll(w), w.core.pc, DrainedCf(w.core), DrainedZf(w.core), RamOf(PendingCells(w.memory)), 0, [])
  }

  /** A comparison behind a memory instruction that has waited: the latches already hold its operands. */
  predicate Early(w: Whole) {
    UsesMemory(w.core.s2) && !Waits(w) && w.core.s1.op == Cmp && Executes(w.core)
  }

  // ----- the invariant

  predicate LatchInv(w: Whole) {
    var c := w.core;
    && (UsesAlu(c.s2) ==> c.control == AluControl(c.s2))
    && c.control < 8 && c.control != 5
    && (c.control == 7 && !SetsFlags(c.s2) && !Early(w) ==> c.cf == Borrow(c.alpha, c.beta) && c.zf == (c.alpha == c.beta))
  }

  predicate StagesInv(program: Program, w: Whole) {
    var c := w.core;
    && c.pc < ADDRESS_SPACE && c.ctr == 0
    && (c.s1 == program[c.pc] || c.s1 == BUBBLE) && AllowedHere(c.s1)
    && (InFlight(c.s2) || UsesMemory(c.s2)) && (InFlight(c.s3) || c.s3.op == Ldm)
  }

  /** Memory is busy exactly for the instruction in stage 2. */
  predicate LinkInv(w: Whole) {
    && MemoryInv(w.memory)
    && (UsesMemory(w.core.s2) ==> w.memory.mmu.ongoing || w.memory.mmu.completed)
    && (w.memory.mmu.ongoing ==> UsesMemory(w.core.s2) && Current(w.memory.mmu).write == (w.core.s2.op == Stm))
  }

  predicate InvAll(program: Program, w: Whole) {
    StagesInv(program, w) && LinkInv(w) && LatchInv(w)
  }

  // ----- the two kinds of clock

  /** Stage 2 moves on. */
  function MovingClock(program: Program, w: Whole): Core
    requires w.core.pc < ADDRESS_SPACE
  {
    var c := w.core;
    AluAfter(c).(pc := if Hold(c) then c.pc else Fetch(c),
                 s1 := if Hold(c) then c.s1 else program[Fetch(c)],
                 s2 := if Hold(c) || Finished1(c) then BUBBLE else c.s1,
                 s3 := if c.s2.op == Stm then BUBBLE else c.s2,
                 regs := RegsAfterThird(w))
  }

  /** Stage 2 waits for memory; stage 1 moves on only with what it can finish itself. */
  function WaitingClock(program: Program, w: Whole): Core
    requires w.core.pc < ADDRESS_SPACE
  {
    var c := w.core;
    var moves := Finished1(c) && !Hold(c);
    AluAfter(c).(pc := if moves then Fetch(c) else c.pc,
                 s1 := if moves then program[Fetch(c)] else c.s1,
                 s3 := BUBBLE,
                 regs := RegsAfterThird(w))
  }

  lemma PreCompletedMeans(w: Whole, l: M.Lines)
    requires LinkInv(w) && UsesMemory(w.core.s2)
    ensures M.PreCompleted(w.memory, l) <==> !Waits(w)
    ensures Waits(w) <==> w.memory.mmu.ongoing && Asked(w.memory)
  {
    hide M.Inv, M.StrobesOf, M.Contents, Current, M.RamReady;
    if w.memory.mmu.ongoing {
      if Asked(w.memory) {
        AskedIsIncomplete(w.memory);
      } else {
        NotCompleted(w.memory);
      }
    }
  }

  lemma AskedIsIncomplete(s: M.System)
    requires Asked(s)
    ensures !M.OperationCompleted(s)
  {}

  lemma StageFacts(program: Program, w: Whole)
    requires StagesInv(program, w)
    ensures w.core.pc < ADDRESS_SPACE && w.core.ctr == 0 && OpCode(w.core.s1.op) != 7
    ensures OpCode(w.core.s2.op) == 0 <==> w.core.s2 == BUBBLE
    ensures OpCode(w.core.s2.op) == 3 <==> w.core.s2.op == Stm
    ensures OpCode(w.core.s2.op) == 3 ==> UsesMemory(w.core.s2)
  {}

  lemma RegsAre(w: Whole, o: Outside)
    ensures RegsAfterThird(w) == BankAfter(w.core.regs, w.core.s3, ValueBack(w.core.s3, w.core.out, PinsOf(w, o).mmuData))
  {
    hide BankAfter, RequestOf, M.PreCompleted;
  }

  lemma ClockMoves(program: Program, o: Outside, w: Whole)
    requires InvAll(program, w) && !Waits(w)
    ensures Clock(program, PinsOf(w, o), w.core) == MovingClock(program, w)
    ensures Issues(w.core, PinsOf(w, o)) <==> !Hold(w.core)
  {
    hide FlagsAllow, FlagDependent, Meets, Union, ReadsA, ReadsB, BankAfter, AluOut, Bus, LatchInv, Fetch, MergeControl;
    hide Bit8OfDifference, Waits, M.PreCompleted, MemoryInv, RequestOf, Current, AluAfter, Executes, Finished1, Hold;
    hide OpCode, UsesMemory, StagesInv, RegsAfterThird;
    RegsAre(w, o);
    StageFacts(program, w);
    AluKeepsStages(w.core);
    NoControlBits(w.core.ctr);
    if UsesMemory(w.core.s2) {
      PreCompletedMeans(w, RequestOf(w.core, o.pins));
    }
  }

  lemma ClockWaits(program: Program, o: Outside, w: Whole)
    requires InvAll(program, w) && Waits(w)
    ensures Clock(program, PinsOf(w, o), w.core) == WaitingClock(program, w)
    ensures Issues(w.core, PinsOf(w, o)) <==> !Hold(w.core) && Finished1(w.core)
  {
    hide FlagsAllow, FlagDependent, Meets, Union, ReadsA, ReadsB, BankAfter, AluOut, Bus, LatchInv, Fetch, MergeControl;
    hide Bit8OfDifference, M.PreCompleted, MemoryInv, RequestOf, Current, M.OperationCompleted, AluAfter, Executes, Finished1, Hold;
    hide OpCode, UsesMemory, StagesInv, RegsAfterThird;
    RegsAre(w, o);
    StageFacts(program, w);
    AluKeepsStages(w.core);
    NoControlBits(w.core.ctr);
    PreCompletedMeans(w, RequestOf(w.core, o.pins));
  }

  // ----- memory on one clock

  lemma RequestIgnoresPins(c: Core, pins: bv8)
    ensures RequestOf(c, pins) == RequestOf(c, 0).(pins := pins) && RequestOf(c, pins).execute == Asks(c)
  {
    hide Bus, Asks, AsksToWrite, Num;
  }

  /** The memory after a clock on which stage 2 moves. A request is taken unless an operation is under way; only
      what was taken on this clock is under way afterwards. */
  lemma MemoryMoves(program: Program, w: Whole, l: M.Lines)
    requires InvAll(program, w) && !Waits(w) && l.execute == Asks(w.core)
    requires Asks(w.core) ==> l.address != M.GPIO_INPUT
    ensures var t := M.Clock(w.memory, l);
            && MemoryInv(t)
            && (t.mmu.ongoing ==> Asks(w.core) && Current(t.mmu).write == l.write)
            && (Asks(w.core) ==> t.mmu.ongoing || t.mmu.completed)
            && PendingCells(t) == (if Asks(w.core) && !w.memory.mmu.ongoing then M.AfterRequest(PendingCells(w.memory), l) else PendingCells(w.memory))
            && (Asks(w.core) && !l.write ==> PendingLoad(t) == LoadedBy(w.memory, l.address))
            && (w.core.s2.op == Ldm ==>
                  t.mmu.outData == if Asks(w.core) && !w.memory.mmu.ongoing && M.IsReturnRegister(l.address) && !l.write
                                   then PendingCells(w.memory)[l.address] else PendingLoad(w.memory))
  {
    hide M.Clock, M.Contents, StagesInv, LatchInv, M.OperationCompleted, MemoryInv, Current, Waits, Asks, Asked, Answered, M.Standing;
    if UsesMemory(w.core.s2) {
      PreCompletedMeans(w, l);
    }
    if w.memory.mmu.ongoing {
      AnsweredBecomesDone(w.memory, l);
    } else if !Asks(w.core) {
      NothingAsked(w.memory, l);
    } else if w.memory.mmu.completed {
      RequestRushed(w.memory, l);
    } else {
      RequestAccepted(w.memory, l);
    }
  }

  lemma MemoryWaits(program: Program, w: Whole, l: M.Lines)
    requires InvAll(program, w) && Waits(w)
    ensures var t := M.Clock(w.memory, l);
            && MemoryInv(t) && t.mmu.ongoing && PendingCells(t) == PendingCells(w.memory)
            && Current(t.mmu).write == Current(w.memory.mmu).write && M.OperationCompleted(t)
            && (w.core.s2.op == Ldm ==> PendingLoad(t) == PendingLoad(w.memory))
  {
    hide M.Clock, M.Contents, StagesInv, LatchInv, M.OperationCompleted, MemoryInv, Current, Asked;
    PreCompletedMeans(w, l);
    AskedBecomesAnswered(w.memory, l);
  }

  // ----- latches and flags

  lemma AluSettlesAll(w: Whole)
    requires LatchInv(w)
    ensures var n := AluAfter(w.core);
            && (!Early(w) ==> n.cf == DrainedCf(w.core) && n.zf == DrainedZf(w.core))
            && (w.core.control == 7 ==> n.cf == Borrow(w.core.alpha, w.core.beta) && n.zf == (w.core.alpha == w.core.beta))
            && (UsesAlu(w.core.s2) ==> n.out == PendingValue(w.core))
  {
    hide AluOut, Bus, Executes, Bit8OfDifference, Borrow, Difference8;
    DifferenceBit(w.core.alpha, w.core.beta);
    DifferenceZero(w.core.alpha, w.core.beta);
  }

  lemma LatchesMove(program: Program, w: Whole)
    requires w.core.pc < ADDRESS_SPACE && AllowedHere(w.core.s1) && LatchInv(w)
    ensures var c, n := w.core, MovingClock(program, w);
            if Executes(c) && UsesAlu(c.s1) then n.s2 == c.s1 && n.control == AluControl(c.s1)
            else !UsesAlu(n.s2) && n.control == c.control && n.alpha == c.alpha && n.beta == c.beta
  {
    hide AluOut, Bus, FlagsAllow, Hold, Fetch, BankAfter, LatchInv, Bit8OfDifference, Difference8, RegsAfterThird;
  }

  lemma LatchInvMoves(program: Program, w: Whole, s: M.System)
    requires w.core.pc < ADDRESS_SPACE && AllowedHere(w.core.s1) && LatchInv(w)
    ensures LatchInv(Whole(MovingClock(program, w), s))
  {
    hide AluOut, Bus, Executes, Finished1, Hold, Fetch, BankAfter, Borrow, AluAfter, RegsAfterThird, PendingValue, DrainedCf, DrainedZf;
    LatchesMove(program, w);
    AluSettlesAll(w);
  }

  lemma SmallerOverlap(x: bv8, y: bv8, z: bv8)
    requires !Meets(Union(x, y), z)
    ensures !Meets(Union(x, 0), z)
  {}

  /** What executes behind a waiting instruction goes on executing. */
  lemma StaysExecuting(program: Program, w: Whole)
    requires StagesInv(program, w) && LatchInv(w) && Waits(w) && Executes(w.core) && !Finished1(w.core)
    ensures Executes(WaitingClock(program, w)) && WaitingClock(program, w).s1 == w.core.s1
    ensures WaitingClock(program, w).s2 == w.core.s2
  {
    hide FlagsAllow, FlagDependent, Meets, Union, ReadsA, ReadsB, AluAfter, Fetch, RegsAfterThird, LatchInv, M.OperationCompleted;
    var c, n := w.core, WaitingClock(program, w);
    AluKeepsStages(c);
    SmallerOverlap(Announced(c.s2), Announced(c.s3), Union(ReadsA(c.s1), ReadsB(c.s1)));
    AluSettlesAll(w);
    NoControlBits(c.ctr);
  }

  lemma LatchesWait(program: Program, w: Whole)
    requires StagesInv(program, w) && UsesMemory(w.core.s2) && LatchInv(w)
    ensures var c, n := w.core, WaitingClock(program, w);
            && n.s2 == c.s2
            && if Executes(c) && UsesAlu(c.s1) then n.control == AluControl(c.s1) && !Finished1(c)
               else n.control == c.control && n.alpha == c.alpha && n.beta == c.beta
  {
    hide AluOut, Bus, FlagsAllow, Hold, Fetch, BankAfter, LatchInv, Bit8OfDifference, Difference8, RegsAfterThird;
  }

  lemma LatchInvWaits(program: Program, w: Whole, s: M.System)
    requires StagesInv(program, w) && LatchInv(w) && Waits(w) && M.OperationCompleted(s)
    ensures LatchInv(Whole(WaitingClock(program, w), s))
  {
    hide AluOut, Bus, Executes, Finished1, Hold, Fetch, BankAfter, Borrow, AluAfter, RegsAfterThird, PendingValue, DrainedCf, DrainedZf;
    hide ClearOfCid, FlagDependent, M.OperationCompleted;
    LatchesWait(program, w);
    AluSettlesAll(w);
    var c := w.core;
    if Executes(c) && UsesAlu(c.s1) && AluControl(c.s1) == 7 {
      assert c.s1.op == Cmp;
      StaysExecuting(program, w);
    }
  }

  // ----- the invariant on every clock

  lemma StagesInvMoves(program: Program, w: Whole, s: M.System)
    requires AllAllowed(program) && StagesInv(program, w)
    ensures StagesInv(program, Whole(MovingClock(program, w), s))
  {
    hide Executes, Hold, Fetch, BankAfter, AluAfter, RegsAfterThird;
    AluKeepsStages(w.core);
  }

  lemma StagesInvWaits(program: Program, w: Whole, s: M.System)
    requires AllAllowed(program) && StagesInv(program, w)
    ensures StagesInv(program, Whole(WaitingClock(program, w), s))
  {
    hide Executes, Hold, Fetch, BankAfter, AluAfter, RegsAfterThird, Finished1;
    AluKeepsStages(w.core);
  }

  lemma WriteLineIs(i: Instr)
    requires UsesMemory(i)
    ensures OpCode(i.op) % 2 == 1 <==> i.op == Stm
    ensures i.op == Ldm || i.op == Stm
  {}

  /** The stage registers ahead of the clock that moves. */
  lemma SecondMoves(program: Program, w: Whole)
    requires w.core.pc < ADDRESS_SPACE
    ensures var c, n := w.core, MovingClock(program, w);
            && (Asks(c) ==> n.s2 == c.s1)
            && (UsesMemory(n.s2) ==> Asks(c))
            && (!Executes(c) || Jumps(c.s1) || c.s1.op == Nop ==> n.s2 == BUBBLE)
  {
    hide FlagsAllow, Hold, Fetch, AluAfter, RegsAfterThird;
  }

  /** The invariant holds on every clock, however the program uses memory, as long as it leaves the input port alone. */
  lemma InvAllKept(program: Program, o: Outside, w: Whole)
    requires AllAllowed(program) && InvAll(program, w) && PortFree(w)
    ensures InvAll(program, ClockAll(program, o, w))
  {
    hide StagesInv, LatchInv, Clock, M.Clock, MovingClock, WaitingClock, MemoryInv, Executes, ClearOfCid, Current, M.OperationCompleted, RequestOf;
    var l := RequestOf(w.core, o.pins);
    var t := M.Clock(w.memory, l);
    RequestIgnoresPins(w.core, o.pins);
    StagesOnly(program, w);
    if Waits(w) {
      ClockWaits(program, o, w);
      MemoryWaits(program, w, l);
      StagesInvWaits(program, w, t);
      LatchInvWaits(program, w, t);
      LatchesWait(program, w);
    } else {
      ClockMoves(program, o, w);
      MemoryMoves(program, w, l);
      StagesInvMoves(program, w, t);
      LatchInvMoves(program, w, t);
      SecondMoves(program, w);
      if Asks(w.core) {
        WriteLineIs(w.core.s1);
        WriteLineOf(w.core, o.pins);
      }
    }
  }

  lemma StagesOnly(program: Program, w: Whole)
    requires StagesInv(program, w)
    ensures w.core.pc < ADDRESS_SPACE && AllowedHere(w.core.s1)
  {}

  lemma WriteLineOf(c: Core, pins: bv8)
    ensures RequestOf(c, pins).write == (OpCode(c.s1.op) % 2 == 1)
    ensures AsksToWrite(c) ==> RequestOf(c, pins).address == Num(Bus(c.regs, c.s1.a)) && RequestOf(c, pins).data == Bus(c.regs, c.s1.b)
    ensures !AsksToWrite(c) ==> RequestOf(c, pins).address == Num(Bus(c.regs, c.s1.b))
  {
    hide Bus, Num, Asks;
  }

  // ----- draining after a clock

  /** What stage 2 held is written back by stage 3, a load with what the output register then holds. */
  function SecondValue(w: Whole, outData: bv8): bv8 {
    if w.core.s2.op == Ldm then outData else PendingValue(w.core)
  }

  lemma DrainMoves(program: Program, w: Whole, s: M.System)
    requires StagesInv(program, w) && LatchInv(w)
    ensures var v := Whole(MovingClock(program, w), s);
            && RegsAfterThird(v) == BankAfter(RegsAfterThird(w), w.core.s2, SecondValue(w, s.mmu.outData))
            && ((w.core.s2.op == Ldm ==> s.mmu.outData == PendingLoad(w.memory)) ==>
                  RegsAfterThird(v) == DrainedRegsAll(w))
  {
    hide AluOut, Bus, Executes, Finished1, Hold, Fetch, WriteSet, DrainedCf, DrainedZf, LatchInv, PendingLoad, PendingCells, Early;
    AluSettlesAll(w);
    AluKeepsStages(w.core);
  }

  lemma DrainWaits(program: Program, w: Whole, s: M.System)
    requires StagesInv(program, w) && UsesMemory(w.core.s2)
    requires w.core.s2.op == Ldm ==> PendingLoad(s) == PendingLoad(w.memory)
    ensures DrainedRegsAll(Whole(WaitingClock(program, w), s)) == DrainedRegsAll(w)
  {
    hide AluAfter, Executes, Finished1, Hold, Fetch, WriteSet, PendingLoad, PendingCells, PendingValue;
    AluKeepsStages(w.core);
    WriteLineIs(w.core.s2);
  }

  lemma FlagsMove(program: Program, w: Whole)
    requires w.core.pc < ADDRESS_SPACE && LatchInv(w)
    ensures var n := MovingClock(program, w);
            && (SetsFlags(n.s2) ==> DrainedCf(n) == Borrow(n.alpha, n.beta) && DrainedZf(n) == (n.alpha == n.beta))
            && (!SetsFlags(n.s2) && !Early(w) ==> DrainedCf(n) == DrainedCf(w.core) && DrainedZf(n) == DrainedZf(w.core))
  {
    hide AluOut, Bus, Executes, Finished1, Hold, Fetch, BankAfter, AluAfter, Borrow, RegsAfterThird, LatchInv, Early;
    AluSettlesAll(w);
  }

  // ----- decisions and operands

  lemma DecisionAll(w: Whole, t: State)
    requires DrainedAll(w) == t && !Hold(w.core)
    ensures Executes(w.core) == CheckFlags(w.core.s1.cond, t.cf, t.zf)
  {
    hide FlagsAllow, FlagDependent, CheckFlags, Announced, Meets, Union, ReadsA, ReadsB, Borrow, DrainedRegsAll, RamOf, PendingCells;
    var c := w.core;
    FlagsAllowIsCheck(c.s1, t.cf, t.zf);
    if !FlagDependent(c.s1) {
      IndependentOfFlags(c.s1, c.cf, c.zf, t.cf, t.zf);
    }
  }

  /** The read buses carry the sequential machine's operands. */
  lemma OperandsAll(w: Whole, t: State)
    requires DrainedAll(w) == t && !Hold(w.core) && ClearOfCid(w.core)
    ensures Bus(w.core.regs, ReadsA(w.core.s1)) == ReadSet(t.regs, ReadsA(w.core.s1))
    ensures Bus(w.core.regs, ReadsB(w.core.s1)) == ReadSet(t.regs, ReadsB(w.core.s1))
  {
    hide Bus, ReadSet, ReadsA, ReadsB, Hold, ClearOfCid, BankAfter, PendingSecond, ThirdValue, RamOf, PendingCells, Early, DrainedCf, DrainedZf;
    OperandsPast(w.core, ThirdValue(w), PendingSecond(w));
  }

  lemma LatchedAll(program: Program, w: Whole, t: State)
    requires StagesInv(program, w) && DrainedAll(w) == t && !Hold(w.core) && CidClear(w.core) && Executes(w.core) && UsesAlu(w.core.s1)
    ensures var c, n := w.core, MovingClock(program, w);
            var x, y := ReadSet(t.regs, c.s1.a), ReadSet(t.regs, c.s1.b);
            && n.s2 == c.s1 && PendingValue(n) == Alu(c.s1.op, x, y, c.s1.b)
            && (c.s1.op == Cmp ==> n.alpha == x && n.beta == y)
  {
    hide Bus, FlagsAllow, Hold, Fetch, WriteSet, BankAfter, ReadSet, ClearOfCid, Alu, AluOut, ReadsA, ReadsB, DrainedAll, RegsAfterThird;
    var c := w.core;
    OperandsAll(w, t);
    AluIgnores(c.s1, Bus(c.regs, c.s1.a), Bus(c.regs, c.s1.b), ReadSet(t.regs, c.s1.a), ReadSet(t.regs, c.s1.b));
    AluOutIsAlu(c.s1, Bus(c.regs, c.s1.a), Bus(c.regs, c.s1.b), AluAfter(c).out);
    ReadsByAlu(c.s1);
  }

  /** An operand that is read at all is read from the instruction's own set. */
  lemma ReadsByAlu(i: Instr)
    ensures (ReadsA(i) == i.a || ReadsA(i) == 0) && (ReadsB(i) == i.b || ReadsB(i) == 0)
  {}
}
