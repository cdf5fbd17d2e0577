/** Why instructions that use memory are kept apart: a program that loses a store. */
module CoreMemoryOverlaps {
  import opened Isa
  import opened Pipeline
  import opened PipelineRefinement
  import opened CoreMemory
  import opened CoreMemoryRefinement
  import opened CoreMemoryClock
  import opened CoreMemoryTheorems
  import opened CoreMemorySpacing
  import T = PipelineTheorems
  import M = MemorySystem

  lemma StoreGoes(c: Core)
    requires c.s1.op == Stm && c.s1.cond == COND_T && c.s2.op == Stm && c.s3 == BUBBLE && c.ctr == 0
    ensures Asks(c) && CidClear(c) && !Finished1(c)
  {
    hide Union, Meets, FlagDependent, FlagsAllow, ReadsA, ReadsB;
    T.EmptyAnnounces(Union(ReadsA(c.s1), ReadsB(c.s1)));
    T.AlwaysRuns(c.s1, c.cf, c.zf);
    NoControlBits(c.ctr);
  }

  /** The clock that issues a store to a cell outside the return registers and the input port. */
  lemma StoreIssues(program: Program, o: Outside, w: Whole)
    requires InvAll(program, w) && M.Quiescent(w.memory) && w.core.s2 == BUBBLE && Asks(w.core) && w.core.s1.op == Stm
    requires RequestOf(w.core, 0).address > M.GPIO_INPUT
    ensures var v := ClockAll(program, o, w);
            && Issues(w.core, PinsOf(w, o)) && Waits(v) && v.core.pc == NextPc(w.core.pc) && v.core.s1 == program[v.core.pc]
            && v.core.s2 == w.core.s1 && v.core.s3 == BUBBLE && v.core.ctr == 0
  {
    hide M.Clock, Clock, MemoryInv, LatchInv, FlagsAllow, CidClear, M.OperationCompleted, RequestOf, M.Contents, Current, AluAfter, RegsAfterThird;
    hide Hold, Issues, PinsOf;
    var l := RequestOf(w.core, o.pins);
    RequestIgnoresPins(w.core, o.pins);
    ClockMoves(program, o, w);
    AluKeepsStages(w.core);
    MovesOn(program, w);
    SecondMoves(program, w);
    RequestAccepted(w.memory, l);
    M.AcceptsBy(w.memory, l);
    AskedIsIncomplete(M.Clock(w.memory, l));
  }

  lemma StoreWaits(program: Program, o: Outside, w: Whole)
    requires InvAll(program, w) && Waits(w) && !Finished1(w.core)
    ensures var v := ClockAll(program, o, w);
            && !Issues(w.core, PinsOf(w, o)) && !Waits(v) && v.memory.mmu.ongoing
            && v.core == v.core.(pc := w.core.pc, s1 := w.core.s1, s2 := w.core.s2, s3 := BUBBLE, ctr := w.core.ctr)
  {
    hide M.Clock, Clock, StagesInv, MemoryInv, LatchInv, M.OperationCompleted, RequestOf, Current, AluAfter, RegsAfterThird, Finished1;
    hide Hold, Issues, PinsOf, Fetch;
    StagesOnly(program, w);
    ClockWaits(program, o, w);
    WaitsOnce(program, o, w);
    MemoryWaits(program, w, RequestOf(w.core, o.pins));
    AluKeepsStages(w.core);
  }

  /** Two stores in a row, the second one unconditional: both are issued, on the first and on the third clock, and
      the second changes nothing. The bytes are right exactly if there was nothing to change. */
  lemma BackToBackStores(dev: Device, program: Program, o: Outside, p: Outside, q: Outside, w: Whole, t: State)
    requires AllAllowed(program) && InvAll(program, w) && CidClear(w.core) && M.Quiescent(w.memory) && DrainedAll(w) == t
    requires w.core.s2 == BUBBLE && Asks(w.core) && w.core.s1.op == Stm && RequestOf(w.core, 0).address > M.GPIO_INPUT
    requires program[NextPc(w.core.pc)].op == Stm && program[NextPc(w.core.pc)].cond == COND_T
    ensures var v1 := ClockAll(program, o, w);
            var v2 := ClockAll(program, p, v1);
            var v3 := ClockAll(program, q, v2);
            var t1 := After(dev, w, true, t);
            && Issues(w.core, PinsOf(w, o)) && !Issues(v1.core, PinsOf(v1, p)) && Issues(v2.core, PinsOf(v2, q))
            && v1.core.s1 == v2.core.s1 == program[NextPc(w.core.pc)] && DrainedAll(v2) == t1 && DrainedAll(v3).ram == t1.ram
            && (DrainedAll(v3).ram == After(dev, v2, true, t1).ram <==>
                  t1.ram[Num(ReadSet(t1.regs, v2.core.s1.a))] == ReadSet(t1.regs, v2.core.s1.b))
  {
    hide InvAll, ClockAll, Issues, PinsOf, DrainedAll, After, Asks, RequestOf, CidClear, Finished1, AllAllowed, ReadSet;
    var v1 := ClockAll(program, o, w);
    StoreIssues(program, o, w);
    InvAllKept(program, o, w);
    LateIsHarmless(program, w);
    ClockAllRefinesExactly(dev, program, o, w, t);
    StoreGoes(v1.core);
    var v2 := ClockAll(program, p, v1);
    var t1 := After(dev, w, true, t);
    StoreWaits(program, p, v1);
    InvAllKept(program, p, v1);
    ClockAllRefinesExactly(dev, program, p, v1, t1);
    NothingAfter(dev, v1, t1);
    StoreGoes(v2.core);
    OverlappingStoreIsLost(dev, program, q, v2, t1);
  }

  /** `set $0, 16; stm $0, $1; stm $0, $0` and whatever follows. */
  predicate TwoStores(program: Program) {
    && AllAllowed(program) && program[0] == Instr(Set, COND_T, 1, 16) && program[1] == Instr(Stm, COND_T, 1, 2)
    && program[2] == Instr(Stm, COND_T, 1, 1)
  }

  /** A clock without a request. */
  lemma QuietNext(program: Program, o: Outside, w: Whole)
    requires AllAllowed(program) && InvAll(program, w) && M.Quiescent(w.memory) && !Asks(w.core) && w.core.s2.op != Cid && w.core.s3.op != Cid
    requires w.core.s1 == BUBBLE || (w.core.s1.cond == COND_T && !Jumps(w.core.s1) && w.core.s1.op != Nop)
    ensures var v := ClockAll(program, o, w);
            && Calm(w) && InvAll(program, v) && M.Quiescent(v.memory) && (Issues(w.core, PinsOf(w, o)) <==> !Hold(w.core))
            && (!Hold(w.core) ==> T.Stages(v.core, NextPc(w.core.pc), program[NextPc(w.core.pc)], w.core.s1, w.core.s2))
            && (Hold(w.core) ==> T.Stages(v.core, w.core.pc, w.core.s1, BUBBLE, w.core.s2))
  {
    hide LatchInv, Clock, M.Clock, MemoryInv, Hold, FlagsAllow, FlagDependent, AluAfter, RegsAfterThird, Issues, PinsOf, RequestOf, Asks, AllAllowed;
    hide M.OperationCompleted, StagesInv, Current;
    StagesOnly(program, w);
    InvAllKept(program, o, w);
    ClockMoves(program, o, w);
    RequestIgnoresPins(w.core, o.pins);
    NothingAsked(w.memory, RequestOf(w.core, o.pins));
    AluKeepsStages(w.core);
    if w.core.s1 != BUBBLE {
      T.AlwaysRuns(w.core.s1, w.core.cf, w.core.zf);
    }
    SecondStays(program, w);
  }

  lemma SecondStays(program: Program, w: Whole)
    requires StagesInv(program, w) && w.core.s2.op != Stm
    ensures MovingClock(program, w).s3 == w.core.s2
  {}

  lemma HoldsExactly(c: Core)
    requires c.ctr == 0 && !SetsFlags(c.s2)
    ensures Hold(c) <==> Meets(Union(Announced(c.s2), Announced(c.s3)), Union(ReadsA(c.s1), ReadsB(c.s1)))
  {
    hide Meets, Union, Announced, ReadsA, ReadsB, FlagDependent;
    NoControlBits(c.ctr);
  }

  lemma Masks()
    ensures Meets(Union(1, 0), Union(1, 2)) && Meets(Union(0, 1), Union(1, 2))
  {}

  /** The first four clocks: the store waits until the register it reads has been written. */
  lemma FourClocks(program: Program, outside: seq<Outside>, w: Whole)
    requires TwoStores(program) && AtPowerUp(w) && |outside| == 4
    ensures var v := ClocksAll(program, outside, w);
            && AllAllowed(program) && RunCalm(program, outside, w) && IssuedAll(program, outside, w) == 2
            && InvAll(program, v) && M.Quiescent(v.memory) && T.Stages(v.core, 1, program[1], BUBBLE, BUBBLE)
  {
    hide ClockAll, InvAll, Calm, Issues, PinsOf, AtPowerUp, M.Quiescent, Hold, Asks, Announced, ReadsA, ReadsB, Union, Meets;
    ClocksAllNext(program, outside, 0, w);
    ClocksAllNext(program, outside, 1, w);
    ClocksAllNext(program, outside, 2, w);
    ClocksAllNext(program, outside, 3, w);
    assert outside[..0] == [] && outside[..4] == outside;
    var w1, w2, w3 := ClocksAll(program, outside[..1], w), ClocksAll(program, outside[..2], w), ClocksAll(program, outside[..3], w);
    FirstTwo(program, outside[0], outside[1], w, w1, w2);
    LastTwo(program, outside[2], outside[3], w2, w3, ClocksAll(program, outside, w));
  }

  lemma ClocksAllNext(program: Program, outside: seq<Outside>, k: nat, w: Whole)
    requires k < |outside|
    ensures ClocksAll(program, outside[..k + 1], w) == ClockAll(program, outside[k], ClocksAll(program, outside[..k], w))
    ensures IssuedAll(program, outside[..k + 1], w) ==
            var now := ClocksAll(program, outside[..k], w);
            IssuedAll(program, outside[..k], w) + if Issues(now.core, PinsOf(now, outside[k])) then 1 else 0
    ensures RunCalm(program, outside[..k + 1], w) <==>
            RunCalm(program, outside[..k], w) && Calm(ClocksAll(program, outside[..k], w))
    ensures ClocksAll(program, [], w) == w && IssuedAll(program, [], w) == 0 && RunCalm(program, [], w)
  {
    hide ClockAll, Issues, Calm, PinsOf;
    assert outside[..k + 1][..k] == outside[..k];
  }

  lemma FirstTwo(program: Program, o: Outside, p: Outside, w: Whole, w1: Whole, w2: Whole)
    requires TwoStores(program) && AtPowerUp(w) && w1 == ClockAll(program, o, w) && w2 == ClockAll(program, p, w1)
    ensures Calm(w) && Calm(w1) && Issues(w.core, PinsOf(w, o)) && Issues(w1.core, PinsOf(w1, p))
    ensures InvAll(program, w2) && M.Quiescent(w2.memory) && T.Stages(w2.core, 1, program[1], program[0], BUBBLE)
  {
    hide ClockAll, InvAll, Calm, Issues, PinsOf, M.Quiescent, Hold, Union, Meets, AllAllowed, StartWith, FollowsAll;
    M.InvAtPowerUp(w.memory);
    StartsAll((t, a) => 0, program, w);
    T.EmptyAnnounces(Union(0, 0));
    HoldsExactly(w.core);
    QuietNext(program, o, w);
    NoControl(program, w1);
    HoldsExactly(w1.core);
    QuietNext(program, p, w1);
  }

  lemma NoControl(program: Program, w: Whole)
    requires InvAll(program, w)
    ensures w.core.ctr == 0
  {
    hide LatchInv, LinkInv;
  }

  lemma LastTwo(program: Program, o: Outside, p: Outside, w2: Whole, w3: Whole, w4: Whole)
    requires TwoStores(program) && w3 == ClockAll(program, o, w2) && w4 == ClockAll(program, p, w3)
    requires InvAll(program, w2) && M.Quiescent(w2.memory) && T.Stages(w2.core, 1, program[1], program[0], BUBBLE)
    ensures Calm(w2) && Calm(w3) && !Issues(w2.core, PinsOf(w2, o)) && !Issues(w3.core, PinsOf(w3, p))
    ensures InvAll(program, w4) && M.Quiescent(w4.memory) && T.Stages(w4.core, 1, program[1], BUBBLE, BUBBLE)
  {
    hide ClockAll, InvAll, Calm, Issues, PinsOf, M.Quiescent, Union, Meets, AllAllowed, Hold;
    Masks();
    NoControl(program, w2);
    HoldsExactly(w2.core);
    HeldAsksNothing(w2.core);
    QuietNext(program, o, w2);
    NoControl(program, w3);
    HoldsExactly(w3.core);
    HeldAsksNothing(w3.core);
    QuietNext(program, p, w3);
  }

  lemma HeldAsksNothing(c: Core)
    requires Hold(c)
    ensures !Asks(c)
  {
    hide Hold;
  }

  // ----- the sequential machine on the same program

  lemma FirstRegister(r: Regs)
    ensures ReadSet(r, 1) == r[0] && ReadSet(r, 2) == r[1]
  {
    OrTree(Picks(r, 1));
    OrTree(Picks(r, 2));
    var x, y := Picks(r, 1), Picks(r, 2);
    assert x == [r[0], 0, 0, 0, 0, 0, 0, 0] && y == [0, r[1], 0, 0, 0, 0, 0, 0];
    OrZeros(r[0], r[1]);
  }

  lemma OrZeros(x: bv8, y: bv8)
    ensures x | 0 | 0 | 0 | 0 | 0 | 0 | 0 == x && 0 | y | 0 | 0 | 0 | 0 | 0 | 0 == y
  {}

  lemma PlainEffects(dev: Device, t: State, i: Instr)
    requires i.cond == COND_T
    ensures i.op == Set ==> Apply(PLAIN, dev, i, t) == t.(regs := WriteSet(t.regs, i.a, i.b))
    ensures i.op == Stm ==> Apply(PLAIN, dev, i, t) == t.(ram := t.ram[Num(ReadSet(t.regs, i.a)) := ReadSet(t.regs, i.b)])
  {
    hide ReadSet, WriteSet, Effect, CheckFlags;
    T.CheckAlways(t.cf, t.zf);
    T.I.EffectByOperation(PLAIN, dev, i, t);
  }

  /** Behind the constant, and behind the first store. */
  function SetDone(z: State): State {
    z.(pc := 1, regs := [16, 0, 0, 0, 0, 0, 0, 0])
  }

  function StoreDone(z: State): State {
    SetDone(z).(pc := 2, ram := z.ram[16 := 0])
  }

  lemma SequentialStores(dev: Device, program: Program, z: State)
    requires TwoStores(program) && z.pc == 0 && z.ctr == 0 && z.regs == [0, 0, 0, 0, 0, 0, 0, 0]
    ensures T.Before(PLAIN, dev, program, z, 1) == SetDone(z)
    ensures Apply(PLAIN, dev, program[1], SetDone(z).(pc := 2)) == StoreDone(z)
    ensures T.Before(PLAIN, dev, program, z, 3).ram[16] == 16
  {
    hide ReadSet, WriteSet, Apply, AllAllowed;
    var m := T.Sequential(PLAIN, dev, program);
    SetsFirst();
    PlainEffects(dev, z.(pc := 1), program[0]);
    FirstRegister(SetDone(z).regs);
    PlainEffects(dev, SetDone(z).(pc := 2), program[1]);
    PlainEffects(dev, StoreDone(z).(pc := 3), program[2]);
    ThreeSteps(m, z, SetDone(z), StoreDone(z));
  }

  lemma SetsFirst()
    ensures WriteSet([0, 0, 0, 0, 0, 0, 0, 0], 1, 16) == [16, 0, 0, 0, 0, 0, 0, 0] && Num(16) == 16
  {}

  lemma ThreeSteps(m: T.I.Setup, z: State, t: State, u: State)
    requires z.pc < |m.rom| && t.pc < |m.rom| && u.pc < |m.rom| && z.ctr == 0 && t.ctr == 0 && u.ctr == 0
    requires m.Next(z) == t && m.Next(t) == u
    ensures m.StepN(1, z) == t && m.StepN(3, z) == m.Next(u)
  {
    hide Step;
    assert m.StepN(1, z) == m.StepN(0, t);
    assert m.StepN(3, z) == m.StepN(2, t) == m.StepN(1, u) == m.StepN(0, m.Next(u));
  }

  /** The loss is real: seven clocks from power-up that program has been issued, cell 16 holds 0 in the hardware and
      16 in the instruction set. */
  lemma SecondStoreIsLost(dev: Device, program: Program, outside: seq<Outside>, w: Whole)
    requires TwoStores(program) && AtPowerUp(w) && |outside| == 7
    ensures IssuedAll(program, outside, w) == 4 && DrainedAll(ClocksAll(program, outside, w)).ram[16] == 0
    ensures Before(dev, program, w.memory, 3).ram[16] == 16
  {
    hide ClockAll, InvAll, Issues, PinsOf, DrainedAll, After, Asks, RequestOf, CidClear, ReadSet, AtPowerUp, M.Quiescent, T.Before, RunCalm, StartWith;
    hide TwoStores, M.Contents, RamOf, Apply, ClocksAll, IssuedAll;
    var w4 := ClocksAll(program, outside[..4], w);
    FourClocks(program, outside[..4], w);
    CoreIsSequential(dev, program, outside[..4], w);
    StartsAtZero(w.memory);
    SequentialStores(dev, program, StartWith(w.memory));
    var t := Before(dev, program, w.memory, 1);
    StoreIsReady(dev, program, w.memory, w4);
    BackToBackStores(dev, program, outside[4], outside[5], outside[6], w4, t);
    FirstStore(dev, program, w4, t);
    ClocksAllNext(program, outside, 4, w);
    ClocksAllNext(program, outside, 5, w);
    ClocksAllNext(program, outside, 6, w);
    assert outside[..7] == outside;
  }

  lemma StartsAtZero(memory: M.System)
    ensures var z := StartWith(memory); z.pc == 0 && z.ctr == 0 && z.regs == [0, 0, 0, 0, 0, 0, 0, 0]
  {
    hide RamOf, M.Contents;
  }

  lemma FirstStore(dev: Device, program: Program, w: Whole, t: State)
    requires TwoStores(program) && w.core.s1 == program[1] && w.core.pc == 1
    ensures After(dev, w, true, t) == Apply(PLAIN, dev, program[1], t.(pc := 2))
  {}

  lemma StoreIsReady(dev: Device, program: Program, memory: M.System, w: Whole)
    requires TwoStores(program) && InvAll(program, w) && FollowsAll(dev, program, memory, 2, w)
    requires T.Stages(w.core, 1, program[1], BUBBLE, BUBBLE)
    ensures CidClear(w.core) && Asks(w.core) && w.core.s1.op == Stm && DrainedAll(w) == Before(dev, program, memory, 1)
    ensures RequestOf(w.core, 0).address == 16 && program[NextPc(1)].op == Stm && program[NextPc(1)].cond == COND_T && AllAllowed(program)
  {
    hide InvAll, DrainedAll, T.Before, RequestOf, ReadSet, Hold, FlagsAllow, FlagDependent, Union, Meets, AllAllowed, StartWith;
    NoControl(program, w);
    T.EmptyAnnounces(Union(ReadsA(w.core.s1), ReadsB(w.core.s1)));
    HoldsExactly(w.core);
    T.AlwaysRuns(w.core.s1, w.core.cf, w.core.zf);
    AskingRequests(dev, program, memory, 2, w);
    StartsAtZero(memory);
    SequentialStores(dev, program, StartWith(memory));
    FirstRegister([16, 0, 0, 0, 0, 0, 0, 0]);
    SetsFirst();
  }
}
