/** Which programs have only calm runs, said about the sequential machine alone. */
module CoreMemorySpacing {
  import opened Isa
  import opened Pipeline
  import opened PipelineRefinement
  import opened CoreMemory
  import opened CoreMemoryRefinement
  import opened CoreMemoryClock
  import opened CoreMemoryTheorems
  import T = PipelineTheorems
  import M = MemorySystem

  // ----- the condition

  /** Instruction number k of the sequential run uses memory. */
  predicate Requests(dev: Device, program: Program, memory: M.System, k: nat) {
    var t := Before(dev, program, memory, k);
    UsesMemory(T.InstrAt(program, t)) && T.ExecutesAt(program, t)
  }

  /** A store takes its address from the first set, a load from the second. */
  function RequestedAddress(program: Program, t: State): nat {
    var i := T.InstrAt(program, t);
    if i.op == Stm then Num(ReadSet(t.regs, i.a)) else Num(ReadSet(t.regs, i.b))
  }

  predicate Stores(dev: Device, program: Program, memory: M.System, k: nat) {
    T.InstrAt(program, Before(dev, program, memory, k)).op == Stm
  }

  /** In the first `limit` instructions of the sequential run: three others between two that use memory, or two if
      the second is a store; none that uses the address of the input port; and no `cid` right before a read of what
      it clears. */
  predicate Spaced(dev: Device, program: Program, memory: M.System, limit: nat) {
    && (forall j: nat, k: nat :: j < k < limit && k <= j + 3 && Requests(dev, program, memory, j) && Requests(dev, program, memory, k) ==>
          k == j + 3 && Stores(dev, program, memory, k))
    && (forall k: nat :: k < limit && Requests(dev, program, memory, k) ==>
          RequestedAddress(program, Before(dev, program, memory, k)) != M.GPIO_INPUT)
    && T.CidSpaced(PLAIN, dev, program, StartWith(memory), limit)
  }

  // ----- how far the memory is

  /** Clocks until memory is quiescent again. */
  function Phase(s: M.System): (n: nat)
    ensures n <= 3
    ensures n == 0 <==> M.Quiescent(s)
  {
    if s.mmu.ongoing then (if M.OperationCompleted(s) then 2 else 3) else if s.mmu.completed then 1 else 0
  }

  /** Memory is busy only with an instruction issued that many clocks ago. */
  predicate Recent(dev: Device, program: Program, memory: M.System, n: nat, w: Whole) {
    Phase(w.memory) > 0 ==>
      exists j: nat :: j + 1 < n && n - 1 - j + Phase(w.memory) <= 4 && Requests(dev, program, memory, j)
  }

  lemma PhaseOfAsked(s: M.System)
    requires s.mmu.ongoing
    ensures Asked(s) ==> Phase(s) == 3
    ensures Answered(s) ==> Phase(s) == 2
  {
    if Asked(s) {
      AskedIsIncomplete(s);
    }
  }

  /** Every clock without a request brings memory closer to quiescence. */
  lemma PhaseFalls(s: M.System, l: M.Lines)
    requires MemoryInv(s) && (l.execute ==> s.mmu.ongoing)
    ensures Phase(M.Clock(s, l)) == if Phase(s) == 0 then 0 else Phase(s) - 1
  {
    hide M.Clock, M.Contents, M.Inv, M.OperationCompleted, Asked, Answered, Current;
    if s.mmu.ongoing {
      PhaseOfAsked(s);
      if Asked(s) {
        AskedBecomesAnswered(s, l);
        PhaseOfAsked(M.Clock(s, l));
      } else {
        AnsweredBecomesDone(s, l);
      }
    } else {
      NothingAsked(s, l);
    }
  }

  // ----- spaced runs are calm

  lemma AskingRequests(dev: Device, program: Program, memory: M.System, n: nat, w: Whole)
    requires InvAll(program, w) && FollowsAll(dev, program, memory, n, w) && Asks(w.core) && CidClear(w.core)
    ensures n > 0 && Requests(dev, program, memory, n - 1)
    ensures RequestOf(w.core, 0).address == RequestedAddress(program, Before(dev, program, memory, n - 1))
    ensures RequestOf(w.core, 0).write <==> Stores(dev, program, memory, n - 1)
  {
    hide InvAll, FlagsAllow, ClearOfCid, DrainedAll, Before, CheckFlags, Bus, ReadSet, Num, Hold, ReadsA, ReadsB;
    var t := Before(dev, program, memory, n - 1);
    DecisionAll(w, t);
    OperandsAll(w, t);
    DrainedPcAll(w, t);
    InvPc(program, w);
    WriteLineIs(w.core.s1);
    WriteLineOf(w.core, 0);
    MemoryReads(w.core.s1);
  }

  lemma InvPc(program: Program, w: Whole)
    requires InvAll(program, w)
    ensures w.core.pc < ADDRESS_SPACE
  {
    hide LatchInv, LinkInv;
  }

  lemma HoldsFollowingAll(dev: Device, program: Program, memory: M.System, n: nat, w: Whole)
    requires InvAll(program, w) && FollowsAll(dev, program, memory, n, w)
    ensures T.HoldsInstr(PLAIN, dev, program, StartWith(memory), n, w.core)
  {
    hide Hold, Executes, CheckFlags, DrainedAll, InvAll, T.Before, StartWith;
    InvPc(program, w);
    if n > 0 {
      var t := Before(dev, program, memory, n - 1);
      DrainedPcAll(w, t);
      if !Hold(w.core) {
        DecisionAll(w, t);
      }
    }
  }

  /** Requests that meet quiescent memory, and stores right behind an answer, are harmless. */
  lemma LateIsHarmless(program: Program, w: Whole)
    requires InvAll(program, w)
    requires Asks(w.core) ==> M.Quiescent(w.memory) || (!w.memory.mmu.ongoing && RequestOf(w.core, 0).write)
    ensures Harmless(w)
  {
    hide StagesInv, LatchInv, MemoryInv, Asks, RequestOf, M.Contents, Waits;
  }

  lemma SpacedIsCalm(dev: Device, program: Program, memory: M.System, n: nat, limit: nat, w: Whole)
    requires InvAll(program, w) && FollowsAll(dev, program, memory, n, w) && Recent(dev, program, memory, n, w)
    requires n <= limit && Spaced(dev, program, memory, limit)
    requires T.CidRecent(PLAIN, dev, program, StartWith(memory), n, w.core)
    ensures Calm(w) && (Asks(w.core) ==> !w.memory.mmu.ongoing)
  {
    hide InvAll, FollowsAll, CidClear, Requests, RequestedAddress, Before, Stores, Executes, RequestOf, T.CidSpaced, T.CidRecent, T.HoldsInstr;
    hide M.OperationCompleted, StartWith, Harmless, Waits;
    HoldsFollowingAll(dev, program, memory, n, w);
    T.SpacedIsClear(PLAIN, dev, program, StartWith(memory), n, limit, w.core);
    if Asks(w.core) {
      AskingRequests(dev, program, memory, n, w);
    }
    LateIsHarmless(program, w);
  }

  lemma RecentNext(dev: Device, program: Program, o: Outside, memory: M.System, n: nat, w: Whole)
    requires InvAll(program, w) && FollowsAll(dev, program, memory, n, w) && Recent(dev, program, memory, n, w) && CidClear(w.core)
    requires Asks(w.core) ==> !w.memory.mmu.ongoing
    ensures Recent(dev, program, memory, if Issues(w.core, PinsOf(w, o)) then n + 1 else n, ClockAll(program, o, w))
  {
    hide InvAll, FollowsAll, CidClear, Requests, Before, Executes, FlagDependent, RequestOf, M.Quiescent, M.OperationCompleted;
    hide Phase, M.Clock, Clock, Issues, Hold, PinsOf, Asks;
    var l := RequestOf(w.core, o.pins);
    RequestIgnoresPins(w.core, o.pins);
    MemoryInvOf(program, w);
    var v := ClockAll(program, o, w);
    var n' := if Issues(w.core, PinsOf(w, o)) then n + 1 else n;
    if Asks(w.core) {
      AskingRequests(dev, program, memory, n, w);
      AsksIssues(program, o, w);
      var j := n - 1;
      assert j + 1 < n' && n' - 1 - j + Phase(v.memory) <= 4 && Requests(dev, program, memory, j);
    } else {
      PhaseFalls(w.memory, l);
      if Phase(v.memory) > 0 {
        var j: nat :| j + 1 < n && n - 1 - j + Phase(w.memory) <= 4 && Requests(dev, program, memory, j);
        assert j + 1 < n' && n' - 1 - j + Phase(v.memory) <= 4;
      }
    }
  }

  lemma MemoryInvOf(program: Program, w: Whole)
    requires InvAll(program, w)
    ensures MemoryInv(w.memory)
  {
    hide MemoryInv, LatchInv, StagesInv;
  }

  lemma AsksIssues(program: Program, o: Outside, w: Whole)
    requires InvAll(program, w) && Asks(w.core) && !w.memory.mmu.ongoing
    ensures Issues(w.core, PinsOf(w, o))
  {
    hide InvAll, FlagsAllow, RequestOf, M.OperationCompleted, Hold, Issues, PinsOf;
    InvGives(program, o, w);
  }

  lemma CidRecentAll(dev: Device, program: Program, o: Outside, memory: M.System, n: nat, w: Whole)
    requires InvAll(program, w) && FollowsAll(dev, program, memory, n, w) && T.CidRecent(PLAIN, dev, program, StartWith(memory), n, w.core)
    ensures T.CidRecent(PLAIN, dev, program, StartWith(memory), if Issues(w.core, PinsOf(w, o)) then n + 1 else n, ClockAll(program, o, w).core)
  {
    hide LatchInv, LinkInv, FollowsAll, Issues, Clock, Hold, Finished1, AluAfter, Fetch, RegsAfterThird, StartWith, T.HoldsInstr, Waits, PinsOf;
    hide T.ClearsAt;
    HoldsFollowingAll(dev, program, memory, n, w);
    AluKeepsStages(w.core);
    if Waits(w) {
      ClockWaits(program, o, w);
      WaitingIsNotEarly(w);
    } else {
      ClockMoves(program, o, w);
      T.CidMoves(PLAIN, dev, program, StartWith(memory), n, w.core, ClockAll(program, o, w).core);
    }
  }

  lemma PowerUpIsRecent(dev: Device, program: Program, w: Whole)
    requires AtPowerUp(w)
    ensures Recent(dev, program, w.memory, 0, w) && T.CidRecent(PLAIN, dev, program, StartWith(w.memory), 0, w.core)
  {
    hide Requests, StartWith;
  }

  lemma {:induction false} SpacedRunIsCalm(dev: Device, program: Program, outside: seq<Outside>, w: Whole, limit: nat)
    requires AllAllowed(program) && AtPowerUp(w) && |outside| <= limit && Spaced(dev, program, w.memory, limit)
    ensures RunCalm(program, outside, w)
    ensures var v := ClocksAll(program, outside, w);
            var n := IssuedAll(program, outside, w);
            n <= |outside| && Recent(dev, program, w.memory, n, v) && T.CidRecent(PLAIN, dev, program, StartWith(w.memory), n, v.core)
    decreases |outside|
  {
    hide Issues, ClockAll, Calm, InvAll, FollowsAll, AtPowerUp, AllAllowed, Recent, Spaced, T.CidRecent, PinsOf, StartWith;
    if outside == [] {
      PowerUpIsRecent(dev, program, w);
    } else {
      var before, o := outside[..|outside| - 1], outside[|outside| - 1];
      SpacedRunIsCalm(dev, program, before, w, limit);
      CoreIsSequential(dev, program, before, w);
      OneMoreCalm(dev, program, o, w.memory, IssuedAll(program, before, w), limit, ClocksAll(program, before, w));
    }
  }

  lemma OneMoreCalm(dev: Device, program: Program, o: Outside, memory: M.System, n: nat, limit: nat, v: Whole)
    requires InvAll(program, v) && FollowsAll(dev, program, memory, n, v) && Recent(dev, program, memory, n, v)
    requires n <= limit && Spaced(dev, program, memory, limit)
    requires T.CidRecent(PLAIN, dev, program, StartWith(memory), n, v.core)
    ensures var next := ClockAll(program, o, v);
            var m := if Issues(v.core, PinsOf(v, o)) then n + 1 else n;
            Calm(v) && Recent(dev, program, memory, m, next) && T.CidRecent(PLAIN, dev, program, StartWith(memory), m, next.core)
  {
    hide Issues, Clock, PortFree, Harmless, CidClear, InvAll, FollowsAll, Recent, Spaced, T.CidRecent, PinsOf, StartWith, Asks;
    SpacedIsCalm(dev, program, memory, n, limit, v);
    RecentNext(dev, program, o, memory, n, v);
    CidRecentAll(dev, program, o, memory, n, v);
  }

  /** Refinement with memory, from a condition on the sequential machine alone: if its run keeps memory
      instructions apart, the hardware is the sequential machine on every clock, and issues one instruction at
      least every four. */
  lemma SpacedProgramsAreSequential(dev: Device, program: Program, outside: seq<Outside>, w: Whole)
    requires AllAllowed(program) && AtPowerUp(w) && Spaced(dev, program, w.memory, |outside|)
    ensures FollowsAll(dev, program, w.memory, IssuedAll(program, outside, w), ClocksAll(program, outside, w))
    ensures IssuedAll(program, outside, w) >= |outside| / 4
  {
    hide FollowsAll, InvAll, Spaced, AllAllowed, RunCalm, AtPowerUp, ClocksAll, IssuedAll, Recent, T.CidRecent, RunPortFree, StartWith;
    SpacedRunIsCalm(dev, program, outside, w, |outside|);
    CoreIsSequential(dev, program, outside, w);
    CalmIsPortFree(program, outside, w);
    FourClocksPerInstruction(program, outside, w, |outside| / 4);
  }
}
