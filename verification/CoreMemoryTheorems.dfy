/** Whole runs of the core with its memory, from power-up. */
module CoreMemoryTheorems {
  import opened Isa
  import opened Pipeline
  import opened PipelineRefinement
  import opened CoreMemory
  import opened CoreMemoryRefinement
  import opened CoreMemoryClock
  import T = PipelineTheorems
  import M = MemorySystem
  import I = Interpreter

  predicate AtPowerUp(w: Whole) {
    w.core == Reset(w.core.alpha, w.core.beta, w.core.immediate) && M.PoweredUp(w.memory)
  }

  /** The sequential machine at the start of the program, with the bytes the memory powers up with. */
  function StartWith(memory: M.System): State {
    State([0, 0, 0, 0, 0, 0, 0, 0], 0, false, false, RamOf(M.Contents(memory)), 0, [])
  }

  /** The sequential machine before its instruction number k. */
  function Before(dev: Device, program: Program, memory: M.System, k: nat): State {
    T.Before(PLAIN, dev, program, StartWith(memory), k)
  }

  /** On every clock of the run, no request goes to the input port. */
  predicate RunPortFree(program: Program, outside: seq<Outside>, w: Whole)
    decreases |outside|
  {
    outside == [] ||
    (var before := outside[..|outside| - 1]; RunPortFree(program, before, w) && PortFree(ClocksAll(program, before, w)))
  }

  predicate RunCalm(program: Program, outside: seq<Outside>, w: Whole)
    decreases |outside|
  {
    outside == [] ||
    (var before := outside[..|outside| - 1]; RunCalm(program, before, w) && Calm(ClocksAll(program, before, w)))
  }

  /** Where the whole core is once n instructions have left stage 1; the first of them is the word of the reset. */
  predicate FollowsAll(dev: Device, program: Program, memory: M.System, n: nat, w: Whole) {
    && (n == 0 ==> w.core.s1 == BUBBLE && DrainedAll(w) == StartWith(memory).(pc := RESET_PC))
    && (n > 0 ==> w.core.s1 == program[w.core.pc % ADDRESS_SPACE] && DrainedAll(w) == Before(dev, program, memory, n - 1))
  }

  lemma StartsAll(dev: Device, program: Program, w: Whole)
    requires AtPowerUp(w)
    ensures InvAll(program, w) && FollowsAll(dev, program, w.memory, 0, w)
  {
    hide M.Inv, M.Contents, RamOf, StartWith, Before, BankAfter, DrainedAll;
    M.InvAtPowerUp(w.memory);
    InvAtReset(program, w.core.alpha, w.core.beta, w.core.immediate);
    BubbleWritesNothing(w.core.regs, ThirdValue(w));
    BubbleWritesNothing(w.core.regs, PendingSecond(w));
    PowerUpParts(w);
    DrainedParts(w, StartWith(w.memory).(pc := RESET_PC));
  }

  lemma PowerUpParts(w: Whole)
    requires AtPowerUp(w)
    ensures SameParts(w, StartWith(w.memory).(pc := RESET_PC)) && SameFlags(w, StartWith(w.memory))
  {
    hide M.Contents, RamOf, BankAfter;
    BubbleWritesNothing(w.core.regs, ThirdValue(w));
    BubbleWritesNothing(w.core.regs, PendingSecond(w));
  }

  lemma StageOneNext(program: Program, o: Outside, w: Whole)
    requires InvAll(program, w)
    ensures var n := ClockAll(program, o, w).core;
            && n.pc < ADDRESS_SPACE
            && (Issues(w.core, PinsOf(w, o)) ==> n.s1 == program[n.pc])
            && (!Issues(w.core, PinsOf(w, o)) ==> n.s1 == w.core.s1 && n.pc == w.core.pc)
  {
    hide LatchInv, LinkInv, Clock, Waits, Hold, Finished1, Issues, Asks, RequestOf, Executes, AluAfter, Fetch, RegsAfterThird;
    StagesOnly(program, w);
    if Waits(w) {
      ClockWaits(program, o, w);
    } else {
      ClockMoves(program, o, w);
    }
    AluKeepsStages(w.core);
  }

  /** One more clock keeps up with the sequential machine exactly if it makes no harmful request. */
  lemma FollowsAllNext(dev: Device, program: Program, o: Outside, memory: M.System, n: nat, w: Whole)
    requires AllAllowed(program) && InvAll(program, w) && PortFree(w) && CidClear(w.core) && FollowsAll(dev, program, memory, n, w)
    ensures var v := ClockAll(program, o, w);
            && InvAll(program, v)
            && (FollowsAll(dev, program, memory, if Issues(w.core, PinsOf(w, o)) then n + 1 else n, v) <==> Harmless(w))
  {
    hide InvAll, PortFree, Harmless, CidClear, DrainedAll, ClockAll, Issues, After, StartWith, Before, PinsOf, AllAllowed;
    InvAllKept(program, o, w);
    StageOneNext(program, o, w);
    var t := if n == 0 then StartWith(memory).(pc := RESET_PC) else Before(dev, program, memory, n - 1);
    ClockAllRefinesExactly(dev, program, o, w, t);
    DrainedPcAll(w, t);
    InvGives(program, o, w);
    if Issues(w.core, PinsOf(w, o)) {
      if n == 0 {
        ResetWordIsFirst(dev, w, memory);
        BeforeFirst(dev, program, memory);
      } else {
        DrainedControlAll(w, t);
        NextBefore(dev, program, w, memory, n - 1);
      }
    } else {
      NothingAfter(dev, w, t);
    }
  }

  lemma NothingAfter(dev: Device, w: Whole, t: State)
    ensures After(dev, w, false, t) == t
  {}

  lemma ResetWordIsFirst(dev: Device, w: Whole, memory: M.System)
    requires w.core.s1 == BUBBLE && w.core.pc == RESET_PC
    ensures After(dev, w, true, StartWith(memory).(pc := RESET_PC)) == StartWith(memory)
  {
    ResetWordDoesNothing(dev, memory);
  }

  lemma BeforeFirst(dev: Device, program: Program, memory: M.System)
    ensures Before(dev, program, memory, 0) == StartWith(memory)
  {}

  lemma NextBefore(dev: Device, program: Program, w: Whole, memory: M.System, k: nat)
    requires var t := Before(dev, program, memory, k);
             t.pc == w.core.pc && t.pc < ADDRESS_SPACE && t.ctr == 0 && w.core.s1 == program[t.pc]
    ensures After(dev, w, true, Before(dev, program, memory, k)) == Before(dev, program, memory, k + 1)
  {
    hide Apply, StartWith;
    T.OneMore(PLAIN, dev, program, k, StartWith(memory));
  }

  lemma ResetWordDoesNothing(dev: Device, memory: M.System)
    ensures var s := StartWith(memory);
            Apply(PLAIN, dev, BUBBLE, s.(pc := RESET_PC).(pc := NextPc(RESET_PC))) == s
  {
    hide CheckFlags, Effect, RamOf, M.Contents;
  }

  lemma DrainedControlAll(w: Whole, t: State)
    requires DrainedAll(w) == t
    ensures t.ctr == 0
  {
    hide DrainedRegsAll, DrainedCf, DrainedZf, RamOf, PendingCells, Early;
  }

  /** Refinement with memory. On every clock of a calm run from power-up, stage 1 holds the instruction at pc, and
      draining the core and its memory gives exactly the registers, the bytes, the flags and the pc of the
      sequential machine after the instructions issued. */
  lemma {:induction false} CoreIsSequential(dev: Device, program: Program, outside: seq<Outside>, w: Whole)
    requires AllAllowed(program) && AtPowerUp(w) && RunCalm(program, outside, w)
    ensures var v := ClocksAll(program, outside, w);
            InvAll(program, v) && FollowsAll(dev, program, w.memory, IssuedAll(program, outside, w), v)
    decreases |outside|
  {
    hide Issues, ClockAll, PortFree, Harmless, CidClear, PinsOf, InvAll, FollowsAll, AtPowerUp, AllAllowed;
    if outside == [] {
      StartsAll(dev, program, w);
    } else {
      var before := outside[..|outside| - 1];
      CoreIsSequential(dev, program, before, w);
      FollowsAllNext(dev, program, outside[|outside| - 1], w.memory, IssuedAll(program, before, w), ClocksAll(program, before, w));
    }
  }

  /** That condition is exact: when a run has been calm so far, its next clock agrees with the sequential machine
      if and only if the request it makes, if any, is harmless. */
  lemma CoreFollowsExactly(dev: Device, program: Program, outside: seq<Outside>, o: Outside, w: Whole)
    requires AllAllowed(program) && AtPowerUp(w) && RunCalm(program, outside, w)
    requires var v := ClocksAll(program, outside, w); PortFree(v) && CidClear(v.core)
    ensures FollowsAll(dev, program, w.memory, IssuedAll(program, outside + [o], w), ClocksAll(program, outside + [o], w)) <==>
            Harmless(ClocksAll(program, outside, w))
  {
    hide Issues, ClockAll, RunCalm, InvAll, FollowsAll, AtPowerUp, AllAllowed, PortFree, Harmless, CidClear;
    var longer := outside + [o];
    assert longer[..|longer| - 1] == outside && longer[|longer| - 1] == o;
    CoreIsSequential(dev, program, outside, w);
    FollowsAllNext(dev, program, o, w.memory, IssuedAll(program, outside, w), ClocksAll(program, outside, w));
  }

  lemma {:induction false} CalmIsPortFree(program: Program, outside: seq<Outside>, w: Whole)
    requires RunCalm(program, outside, w)
    ensures RunPortFree(program, outside, w)
    decreases |outside|
  {
    hide PortFree, Harmless, CidClear, ClocksAll;
    if outside != [] {
      CalmIsPortFree(program, outside[..|outside| - 1], w);
    }
  }

  // ----- progress

  /** How many more clocks stage 1 can be held. */
  function PatienceAll(w: Whole): (n: nat)
    ensures n <= 3
  {
    (if Waits(w) then 1 else 0) + (if w.core.s2 != BUBBLE then 2 else if w.core.s3 != BUBBLE then 1 else 0)
  }

  lemma WaitsOnce(program: Program, o: Outside, w: Whole)
    requires InvAll(program, w) && Waits(w)
    ensures var v := ClockAll(program, o, w);
            !Waits(v) && v.core.s2 == w.core.s2
  {
    hide Clock, M.Clock, StagesInv, LatchInv, MemoryInv, M.OperationCompleted, Executes, Finished1, Hold, AluAfter, Fetch, RegsAfterThird;
    hide Current, RequestOf, PinsOf, Issues;
    StagesOnly(program, w);
    ClockWaits(program, o, w);
    MemoryWaits(program, w, RequestOf(w.core, o.pins));
    AluKeepsStages(w.core);
  }

  /** Every clock that does not issue uses up patience. */
  lemma HoldUsesPatienceAll(program: Program, o: Outside, w: Whole)
    requires InvAll(program, w) && !Issues(w.core, PinsOf(w, o))
    ensures PatienceAll(ClockAll(program, o, w)) < PatienceAll(w)
  {
    hide Clock, M.Clock, LatchInv, MemoryInv, M.OperationCompleted, Finished1, AluAfter, Fetch, RegsAfterThird, Current, RequestOf, PinsOf;
    hide Issues, FlagsAllow, FlagDependent, Meets, Union, ReadsA, ReadsB, CidClear;
    if Waits(w) {
      WaitsOnce(program, o, w);
    } else {
      ClockMoves(program, o, w);
      AluKeepsStages(w.core);
      T.EmptyAnnounces(Union(ReadsA(w.core.s1), ReadsB(w.core.s1)));
      NoControlBits(w.core.ctr);
    }
  }

  lemma {:induction false} ClocksAllAreUsed(program: Program, outside: seq<Outside>, w: Whole)
    requires AllAllowed(program) && AtPowerUp(w) && RunPortFree(program, outside, w)
    ensures InvAll(program, ClocksAll(program, outside, w))
    ensures |outside| + PatienceAll(ClocksAll(program, outside, w)) <= 4 * IssuedAll(program, outside, w)
    decreases |outside|
  {
    hide Issues, ClockAll, PortFree, InvAll, AllAllowed, PatienceAll, PinsOf, AtPowerUp;
    if outside == [] {
      NothingHeld(program, w);
    } else {
      var before, o := outside[..|outside| - 1], outside[|outside| - 1];
      ClocksAllAreUsed(program, before, w);
      var v := ClocksAll(program, before, w);
      InvAllKept(program, o, v);
      if !Issues(v.core, PinsOf(v, o)) {
        HoldUsesPatienceAll(program, o, v);
      }
    }
  }

  lemma NothingHeld(program: Program, w: Whole)
    requires AtPowerUp(w)
    ensures InvAll(program, w) && PatienceAll(w) == 0
  {
    hide InvAll, StartWith, FollowsAll;
    StartsAll((t, a) => 0, program, w);
  }

  /** Progress with memory. 4n clocks from power-up issue at least n instructions, however close together the
      program uses memory. */
  lemma FourClocksPerInstruction(program: Program, outside: seq<Outside>, w: Whole, n: nat)
    requires AllAllowed(program) && AtPowerUp(w) && RunPortFree(program, outside, w) && |outside| >= 4 * n
    ensures IssuedAll(program, outside, w) >= n
  {
    hide RunPortFree, AtPowerUp, AllAllowed, ClocksAll, IssuedAll, InvAll;
    ClocksAllAreUsed(program, outside, w);
  }

  // ----- what calm runs avoid

  /** A store whose request finds the answer to the one before it is issued without being carried out: the bytes
      are right afterwards exactly if it had nothing to change. */
  lemma OverlappingStoreIsLost(dev: Device, program: Program, o: Outside, w: Whole, t: State)
    requires InvAll(program, w) && DrainedAll(w) == t && CidClear(w.core)
    requires w.memory.mmu.ongoing && !Waits(w) && Asks(w.core) && w.core.s1.op == Stm
    ensures Issues(w.core, PinsOf(w, o)) && DrainedAll(ClockAll(program, o, w)).ram == t.ram
    ensures DrainedAll(ClockAll(program, o, w)).ram == After(dev, w, true, t).ram <==>
            t.ram[Num(ReadSet(t.regs, w.core.s1.a))] == ReadSet(t.regs, w.core.s1.b)
  {
    hide Clock, M.Clock, StagesInv, LatchInv, MemoryInv, FlagsAllow, M.OperationCompleted, RequestOf, Current, DrainedAll, Hold, Issues, PinsOf;
    hide CidClear, CheckFlags, ReadSet, Bus, ReadsA, ReadsB, RamOf, PendingCells, Effect, Store, NextPc;
    PreCompletedMeans(w, RequestOf(w.core, o.pins));
    AnsweredBecomesDone(w.memory, RequestOf(w.core, o.pins));
    ClockMoves(program, o, w);
    DecisionAll(w, t);
    DrainedRam(w, t);
    DrainedRam(ClockAll(program, o, w), DrainedAll(ClockAll(program, o, w)));
    var u := t.(pc := NextPc(w.core.pc));
    I.EffectByOperation(PLAIN, dev, w.core.s1, u);
    StoreChanges(u, ReadSet(t.regs, w.core.s1.a), ReadSet(t.regs, w.core.s1.b));
  }

  lemma DrainedRam(w: Whole, t: State)
    requires DrainedAll(w) == t
    ensures t.ram == RamOf(PendingCells(w.memory))
  {}

  lemma StoreChanges(t: State, address: bv8, v: bv8)
    ensures Store(PLAIN, t, address, v).ram == t.ram <==> t.ram[Num(address)] == v
  {
    var r := t.ram[Num(address) := v];
    assert r[Num(address)] == v;
  }
}
