/** Whole runs of the pipelined core, from reset, whatever memory and interrupt pins do. */
module PipelineTheorems {
  import opened Isa
  import opened Pipeline
  import opened PipelineRefinement
  import I = Interpreter

  /** On every clock of the run, no instruction reads a register that an unfinished `cid` clears. */
  predicate RunClear(program: Program, pins: seq<Pins>, c: Core)
    decreases |pins|
  {
    pins == [] ||
    (var before := pins[..|pins| - 1]; RunClear(program, before, c) && CidClear(Clocks(program, before, c)))
  }

  /** The sequential machine at the start of the program. */
  function Start(): State {
    State([0, 0, 0, 0, 0, 0, 0, 0], 0, false, false, seq(RAM_SIZE, i => 0), 0, [])
  }

  function Sequential(cfg: Config, dev: Device, program: Program): I.Setup {
    I.Setup(cfg, dev, program)
  }

  // ----- refinement

  lemma {:induction false} OneMore(cfg: Config, dev: Device, program: Program, n: nat, s: State)
    requires var t := Sequential(cfg, dev, program).StepN(n, s); t.pc < ADDRESS_SPACE && t.ctr == 0
    ensures var m := Sequential(cfg, dev, program);
            m.StepN(n + 1, s) == m.Next(m.StepN(n, s))
  {
    hide Step;
    var m := Sequential(cfg, dev, program);
    I.StepNAdds(m, n, 1, s);
    var t := m.StepN(n, s);
    assert m.StepN(1, t) == m.StepN(0, m.Next(t)) by { assert !m.Stopped(t); }
  }

  /** The state before the first instruction leaves stage 1, and after it. */
  predicate Follows(cfg: Config, dev: Device, program: Program, n: nat, c: Core) {
    && (n == 0 ==> c.s1 == BUBBLE && Drained(c) == Start().(pc := RESET_PC))
    && (n > 0 ==> c.s1 == program[c.pc % ADDRESS_SPACE] && Drained(c) == Sequential(cfg, dev, program).StepN(n - 1, Start()))
  }

  lemma FollowsNext(cfg: Config, dev: Device, program: Program, p: Pins, n: nat, c: Core)
    requires ProgramOk(program) && Inv(program, c) && CidClear(c) && Follows(cfg, dev, program, n, c)
    ensures Follows(cfg, dev, program, if Issues(c, p) then n + 1 else n, Clock(program, p, c))
    ensures Inv(program, Clock(program, p, c))
  {
    hide Issues, Clock, CidClear, AluInv, Apply, DrainedRegs, DrainedCf, DrainedZf;
    InvKept(program, p, c);
    ClockRefines(cfg, dev, program, p, c);
    if Issues(c, p) {
      if n == 0 {
        NopDoesNothing(cfg, dev);
      } else {
        OneMore(cfg, dev, program, n - 1, Start());
      }
    }
  }

  lemma NopDoesNothing(cfg: Config, dev: Device)
    ensures Apply(cfg, dev, BUBBLE, Start().(pc := NextPc(RESET_PC))) == Start()
  {
    hide CheckFlags, Effect;
  }

  /** Refinement. After any number of clocks from reset, stage 1 holds the instruction at pc, and draining stages
      2 and 3 gives exactly the registers, flags and pc of the sequential machine after the instructions issued.
      (The first one issued is the word the pipeline is reset to.) */
  lemma {:induction false} PipelineIsSequential(cfg: Config, dev: Device, program: Program, pins: seq<Pins>, reset: Core)
    requires ProgramOk(program) && RunClear(program, pins, reset)
    requires reset == Reset(reset.alpha, reset.beta, reset.immediate)
    ensures var c := Clocks(program, pins, reset);
            Inv(program, c) && Follows(cfg, dev, program, Issued(program, pins, reset), c)
    decreases |pins|
  {
    hide Issues, Clock, CidClear, Inv, Follows;
    if pins == [] {
      StartsRight(cfg, dev, program, reset);
    } else {
      var before := pins[..|pins| - 1];
      PipelineIsSequential(cfg, dev, program, before, reset);
      FollowsNext(cfg, dev, program, pins[|pins| - 1], Issued(program, before, reset), Clocks(program, before, reset));
    }
  }

  lemma StartsRight(cfg: Config, dev: Device, program: Program, reset: Core)
    requires reset == Reset(reset.alpha, reset.beta, reset.immediate)
    ensures Inv(program, reset) && Follows(cfg, dev, program, 0, reset)
  {
    hide Inv, Drained;
    InvAtReset(program, reset.alpha, reset.beta, reset.immediate);
  }

  // ----- cid

  predicate CidFree(program: Program) {
    forall k :: 0 <= k < |program| ==> program[k].op != Cid
  }

  predicate NoCidIn(c: Core) {
    c.s1.op != Cid && c.s2.op != Cid && c.s3.op != Cid
  }

  lemma NoCidAhead(program: Program, p: Pins, c: Core, n: Core)
    requires CidFree(program) && NoCidIn(c)
    ensures NoCidIn(StagesAfter(program, p, c, n))
  {
    hide Issues, Finished1, Finished2, Ready2, Hold, Stopped, Fetch;
  }

  lemma NoCidKept(program: Program, p: Pins, c: Core)
    requires CidFree(program) && NoCidIn(c)
    ensures NoCidIn(Clock(program, p, c)) && CidClear(c)
  {
    hide Meets, Union, StagesAfter, AluAfter, PcAfter, CtrAfter, BankAfter, ReadsA, ReadsB;
    NoCidAhead(program, p, c, AluAfter(c));
  }

  /** A program without `cid` never meets the hazard. */
  lemma {:induction false} CidFreeIsClear(program: Program, pins: seq<Pins>, reset: Core)
    requires CidFree(program) && NoCidIn(reset)
    ensures RunClear(program, pins, reset) && NoCidIn(Clocks(program, pins, reset))
    decreases |pins|
  {
    hide Clock, CidClear;
    if pins != [] {
      var before := pins[..|pins| - 1];
      CidFreeIsClear(program, before, reset);
      NoCidKept(program, pins[|pins| - 1], Clocks(program, before, reset));
    }
  }

  ghost predicate BusesDrained(c: Core) {
    Bus(c.regs, ReadsA(c.s1)) == ReadSet(DrainedRegs(c), ReadsA(c.s1)) && Bus(c.regs, ReadsB(c.s1)) == ReadSet(DrainedRegs(c), ReadsB(c.s1))
  }

  /** `cid` clears registers 0 to 3 but announces 4 to 7: stage 1, when it is not held, reads what the drained core
      holds, whatever the registers hold, exactly if it names none of the former while a `cid` is in flight. */
  lemma CidHazardExactly(c: Core)
    requires !Hold(c)
    ensures (forall r: Regs :: BusesDrained(c.(regs := r))) <==> ClearOfCid(c)
  {
    hide Bus, ReadSet, ReadsA, ReadsB, Hold, ClearOfCid, BankAfter, AluOut;
    OperandsPastExactly(c, ValueBack(c.s3, c.out, 0), PendingValue(c));
    if ReadsPast(c, ValueBack(c.s3, c.out, 0), PendingValue(c)) {
      forall r: Regs ensures BusesDrained(c.(regs := r)) {}
    } else {
      var r: Regs :| var after := BankAfter(BankAfter(r, c.s3, ValueBack(c.s3, c.out, 0)), c.s2, PendingValue(c));
                     Bus(r, ReadsA(c.s1)) != ReadSet(after, ReadsA(c.s1)) || Bus(r, ReadsB(c.s1)) != ReadSet(after, ReadsB(c.s1));
      assert !BusesDrained(c.(regs := r));
    }
  }

  // ----- programs that keep `cid` and the registers it clears apart

  function InstrAt(program: Program, t: State): Instr {
    program[t.pc % ADDRESS_SPACE]
  }

  predicate ExecutesAt(program: Program, t: State) {
    CheckFlags(InstrAt(program, t).cond, t.cf, t.zf)
  }

  /** The sequential machine before its instruction number k. */
  function Before(cfg: Config, dev: Device, program: Program, s: State, k: nat): State {
    Sequential(cfg, dev, program).StepN(k, s)
  }

  /** Instruction number k of the sequential run is a `cid`. */
  predicate ClearsAt(cfg: Config, dev: Device, program: Program, s: State, k: nat) {
    var t := Before(cfg, dev, program, s, k);
    InstrAt(program, t).op == Cid && ExecutesAt(program, t)
  }

  /** Instruction number k of the sequential run reads one of the registers 0 to 3. */
  predicate ReadsLowAt(cfg: Config, dev: Device, program: Program, s: State, k: nat) {
    var t := Before(cfg, dev, program, s, k);
    ExecutesAt(program, t) && Meets(CID_REGISTERS, Union(ReadsA(InstrAt(program, t)), ReadsB(InstrAt(program, t))))
  }

  /** In the first `limit` instructions of the sequential run, neither of the two behind a `cid` reads a register it
      clears. */
  predicate CidSpaced(cfg: Config, dev: Device, program: Program, s: State, limit: nat) {
    forall j: nat, k: nat :: j < k < limit && k <= j + 2 && ClearsAt(cfg, dev, program, s, j) ==> !ReadsLowAt(cfg, dev, program, s, k)
  }

  /** A `cid` in stage 2 is the instruction before the one in stage 1; a `cid` in stage 3 is that or the one before. */
  predicate CidRecent(cfg: Config, dev: Device, program: Program, s: State, n: nat, c: Core) {
    && (c.s2.op == Cid ==> n >= 2 && ClearsAt(cfg, dev, program, s, n - 2))
    && (c.s3.op == Cid ==> n >= 2 && (ClearsAt(cfg, dev, program, s, n - 2) || (n >= 3 && ClearsAt(cfg, dev, program, s, n - 3))))
  }

  /** Stage 1 holds instruction number n - 1, and decides as the sequential machine does. */
  predicate HoldsInstr(cfg: Config, dev: Device, program: Program, s: State, n: nat, c: Core) {
    && (n == 0 ==> c.s1 == BUBBLE)
    && (n > 0 ==> var t := Before(cfg, dev, program, s, n - 1);
          c.s1 == InstrAt(program, t) && (!Hold(c) ==> Executes(c) == ExecutesAt(program, t)))
  }

  lemma SpacedIsClear(cfg: Config, dev: Device, program: Program, s: State, n: nat, limit: nat, c: Core)
    requires HoldsInstr(cfg, dev, program, s, n, c) && CidRecent(cfg, dev, program, s, n, c)
    requires n <= limit && CidSpaced(cfg, dev, program, s, limit)
    ensures CidClear(c)
  {
    hide Before, ExecutesAt, FlagsAllow, Hold, Meets, Union, ClearsAt;
    if Executes(c) && (c.s2.op == Cid || c.s3.op == Cid) {
      assert !ReadsLowAt(cfg, dev, program, s, n - 1);
    }
  }

  /** On a clock on which stage 2 moves. */
  lemma CidMoves(cfg: Config, dev: Device, program: Program, s: State, n: nat, c: Core, next: Core)
    requires HoldsInstr(cfg, dev, program, s, n, c) && CidRecent(cfg, dev, program, s, n, c)
    requires next.s2 == (if Hold(c) || Finished1(c) then BUBBLE else c.s1) && (next.s3 == c.s2 || next.s3 == BUBBLE)
    ensures CidRecent(cfg, dev, program, s, if Hold(c) then n else n + 1, next)
  {
    hide Before, FlagsAllow, Hold, ExecutesAt;
  }

  lemma HoldsFollowing(cfg: Config, dev: Device, program: Program, n: nat, c: Core)
    requires Inv(program, c) && Follows(cfg, dev, program, n, c)
    ensures HoldsInstr(cfg, dev, program, Start(), n, c)
  {
    hide Hold, Executes, CheckFlags, AluInv, Allowed, InFlight, DrainedRegs, DrainedCf, DrainedZf, Sequential;
    if n > 0 && !Hold(c) {
      DecisionDrained(c);
    }
  }

  /** A program whose sequential run keeps `cid` and reads of registers 0 to 3 apart never meets the hazard. */
  lemma {:induction false} CidSpacedIsClear(cfg: Config, dev: Device, program: Program, pins: seq<Pins>, reset: Core, limit: nat)
    requires ProgramOk(program) && reset == Reset(reset.alpha, reset.beta, reset.immediate)
    requires |pins| <= limit && CidSpaced(cfg, dev, program, Start(), limit)
    ensures RunClear(program, pins, reset) && Issued(program, pins, reset) <= |pins|
    ensures CidRecent(cfg, dev, program, Start(), Issued(program, pins, reset), Clocks(program, pins, reset))
    decreases |pins|
  {
    hide Issues, Clock, CidClear, Inv, Follows, CidRecent, CidSpaced, ProgramOk;
    if pins == [] {
      NoCidRecent(cfg, dev, program, reset);
    } else {
      var before, p := pins[..|pins| - 1], pins[|pins| - 1];
      CidSpacedIsClear(cfg, dev, program, before, reset, limit);
      PipelineIsSequential(cfg, dev, program, before, reset);
      CidRecentNext(cfg, dev, program, p, Issued(program, before, reset), limit, Clocks(program, before, reset));
    }
  }

  lemma NoCidRecent(cfg: Config, dev: Device, program: Program, c: Core)
    requires c.s2 == BUBBLE && c.s3 == BUBBLE
    ensures CidRecent(cfg, dev, program, Start(), 0, c)
  {}

  lemma CidRecentNext(cfg: Config, dev: Device, program: Program, p: Pins, n: nat, limit: nat, c: Core)
    requires Inv(program, c) && Follows(cfg, dev, program, n, c) && CidRecent(cfg, dev, program, Start(), n, c)
    requires n <= limit && CidSpaced(cfg, dev, program, Start(), limit)
    ensures CidClear(c) && CidRecent(cfg, dev, program, Start(), if Issues(c, p) then n + 1 else n, Clock(program, p, c))
  {
    hide Issues, Clock, CidClear, Follows, CidRecent, CidSpaced, AluInv, AluAfter, Fetch, Hold, Finished1, BankAfter, HoldsInstr;
    HoldsFollowing(cfg, dev, program, n, c);
    SpacedIsClear(cfg, dev, program, Start(), n, limit, c);
    ClockIsPlain(program, p, c);
    AluKeepsStages(c);
    CidMoves(cfg, dev, program, Start(), n, c, Clock(program, p, c));
  }

  /** Refinement from a condition on the sequential run alone. */
  lemma CidSpacedIsSequential(cfg: Config, dev: Device, program: Program, pins: seq<Pins>, reset: Core)
    requires ProgramOk(program) && reset == Reset(reset.alpha, reset.beta, reset.immediate)
    requires CidSpaced(cfg, dev, program, Start(), |pins|)
    ensures Follows(cfg, dev, program, Issued(program, pins, reset), Clocks(program, pins, reset))
  {
    hide Follows, CidSpaced, ProgramOk, Inv, Clocks, Issued, RunClear, CidRecent;
    CidSpacedIsClear(cfg, dev, program, pins, reset, |pins|);
    PipelineIsSequential(cfg, dev, program, pins, reset);
  }

  predicate Stages(c: Core, pc: nat, s1: Instr, s2: Instr, s3: Instr) {
    c.pc == pc && c.s1 == s1 && c.s2 == s2 && c.s3 == s3
  }

  lemma AlwaysRuns(i: Instr, cf: bool, zf: bool)
    requires i.cond == COND_T
    ensures FlagsAllow(i, cf, zf) && !FlagDependent(i)
  {}

  /** Where everything is after a clock in the subset. */
  lemma StagesNext(program: Program, p: Pins, c: Core)
    requires ProgramOk(program) && Inv(program, c)
    requires !Jumps(c.s1) && (c.s1.op == Nop || c.s1.cond == COND_T)
    ensures var n := Clock(program, p, c);
            && Inv(program, n) && (Issues(c, p) <==> !Meets(Union(Announced(c.s2), Announced(c.s3)), Union(ReadsA(c.s1), ReadsB(c.s1))))
            && (Issues(c, p) ==> Stages(n, NextPc(c.pc), program[NextPc(c.pc)], if c.s1.op == Nop then BUBBLE else c.s1, c.s2))
            && (!Issues(c, p) ==> Stages(n, c.pc, c.s1, BUBBLE, c.s2))
            && (Issues(c, p) && c.s1.op == Mov ==> n.control == 4 && n.beta == Bus(c.regs, c.s1.b))
            && n.regs == BankAfter(c.regs, c.s3, ValueBack(c.s3, c.out, 0))
    requires c.s1.op == Nop ==> c.s1 == BUBBLE
  {
    hide Bus, BankAfter, Meets, Union, ReadsA, ReadsB, FlagsAllow, FlagDependent, AluOut, Clock, Issues, AluInv;
    ClockIsPlain(program, p, c);
    InvKept(program, p, c);
    if c.s1.op == Nop {
      assert c.s1 == BUBBLE;
      NoCondition();
    } else {
      AlwaysRuns(c.s1, c.cf, c.zf);
    }
    NoControlBits(c.ctr);
  }

  lemma NoCondition()
    ensures !FlagDependent(BUBBLE)
  {}

  lemma NothingRead(x: bv8)
    ensures !Meets(x, Union(0, 0))
  {}

  lemma Overlaps()
    ensures Meets(Union(CID_HAZARD, 1), Union(0, 1)) && !Meets(Union(0, CID_HAZARD), Union(0, 1))
  {}

  /** `set $0, 5; cid; mov $1, $0` and whatever follows. */
  predicate EarlyRead(program: Program) {
    && ProgramOk(program) && program[0] == Instr(Set, COND_T, 1, 5) && program[1] == Instr(Cid, COND_T, 0, 0)
    && program[2] == Instr(Mov, COND_T, 2, 1)
  }

  lemma FirstClocks(program: Program, p: Pins, q: Pins, r: Pins, c: Core) returns (n: Core)
    requires EarlyRead(program) && c == Reset(c.alpha, c.beta, c.immediate)
    ensures var d := Clock(program, p, c);
            var e := Clock(program, q, d);
            n == Clock(program, r, e) && Issues(c, p) && Issues(d, q) && Issues(e, r)
    ensures Inv(program, n) && n.regs == [0, 0, 0, 0, 0, 0, 0, 0] && Stages(n, 2, program[2], program[1], program[0])
  {
    hide Clock, Meets, Union, Bus, Issues, Inv;
    InvAtReset(program, c.alpha, c.beta, c.immediate);
    NothingRead(Union(Announced(BUBBLE), Announced(BUBBLE)));
    StagesNext(program, p, c);
    var d := Clock(program, p, c);
    StagesNext(program, q, d);
    var e := Clock(program, q, d);
    NothingRead(Union(Announced(program[0]), Announced(BUBBLE)));
    StagesNext(program, r, e);
    n := Clock(program, r, e);
  }

  lemma LastClocks(program: Program, p: Pins, q: Pins, c: Core) returns (n: Core)
    requires EarlyRead(program) && Inv(program, c)
    requires c.regs == [0, 0, 0, 0, 0, 0, 0, 0] && Stages(c, 2, program[2], program[1], program[0])
    ensures var d := Clock(program, p, c);
            n == Clock(program, q, d) && !Issues(c, p) && Issues(d, q)
    ensures n.s2 == program[2] && n.s3 == BUBBLE && n.control == 4 && n.beta == 5
  {
    hide Clock, Meets, Union, Bus, Issues, Inv;
    Overlaps();
    StagesNext(program, p, c);
    var d := Clock(program, p, c);
    FiveWritten();
    StagesNext(program, q, d);
    n := Clock(program, q, d);
  }

  lemma FiveWritten()
    ensures Bus(WriteSet([0, 0, 0, 0, 0, 0, 0, 0], 1, 5), 1) == 5
  {
    var r := WriteSet([0, 0, 0, 0, 0, 0, 0, 0], 1, 5);
    assert r == [5, 0, 0, 0, 0, 0, 0, 0];
    var x := Picks(r, 1);
    assert x[0] == 5 && x[1] == 0 && x[2] == 0 && x[3] == 0 && x[4] == 0 && x[5] == 0 && x[6] == 0 && x[7] == 0;
  }

  lemma SequentialClears(cfg: Config, dev: Device, program: Program)
    requires EarlyRead(program)
    ensures Sequential(cfg, dev, program).StepN(3, Start()).regs[1] == 0
  {
    hide CheckFlags, ReadSet;
    var m := Sequential(cfg, dev, program);
    var z := Start();
    CheckAlways(z.cf, z.zf);
    var s1 := m.Next(z);
    assert s1 == z.(pc := 1, regs := WriteSet(z.regs, 1, 5));
    var s2 := m.Next(s1);
    assert s2 == s1.(pc := 2, regs := WriteSet(s1.regs, CID_REGISTERS, 0));
    var s3 := m.Next(s2);
    ReadSetOfZeros(s2.regs);
    assert s3.regs[1] == ReadSet(s2.regs, 1);
    assert m.StepN(3, z) == m.StepN(2, s1) == m.StepN(1, s2) == s3;
  }

  lemma CheckAlways(cf: bool, zf: bool)
    ensures CheckFlags(COND_T, cf, zf)
  {}

  lemma ReadSetOfZeros(r: Regs)
    requires r[0] == 0
    ensures ReadSet(r, 1) == 0
  {
    OrTree(Picks(r, 1));
    var x := Picks(r, 1);
    assert x[0] == 0 && x[1] == 0 && x[2] == 0 && x[3] == 0 && x[4] == 0 && x[5] == 0 && x[6] == 0 && x[7] == 0;
  }

  /** The hazard is real: five clocks into that program the hardware has 5 in register 1, where the instruction
      set says 0. */
  lemma CidIsReadTooEarly(cfg: Config, dev: Device, program: Program, pins: seq<Pins>, reset: Core)
    requires EarlyRead(program) && |pins| == 5 && reset == Reset(reset.alpha, reset.beta, reset.immediate)
    ensures Issued(program, pins, reset) == 4 && DrainedRegs(Clocks(program, pins, reset))[1] == 5
    ensures Sequential(cfg, dev, program).StepN(3, Start()).regs[1] == 0
  {
    hide Clock, Issues, Inv, Sequential, Reset, Clocks, Issued, DrainedRegs, EarlyRead, Stages;
    var c3 := FirstClocks(program, pins[0], pins[1], pins[2], reset);
    var c5 := LastClocks(program, pins[3], pins[4], c3);
    ClocksNext(program, pins, 0, reset);
    ClocksNext(program, pins, 1, reset);
    ClocksNext(program, pins, 2, reset);
    ClocksNext(program, pins, 3, reset);
    ClocksNext(program, pins, 4, reset);
    assert pins[..5] == pins && pins[..0] == [];
    NoClocks(program, reset);
    FiveIsPending(program, c5);
    SequentialClears(cfg, dev, program);
  }

  lemma NoClocks(program: Program, c: Core)
    ensures Clocks(program, [], c) == c && Issued(program, [], c) == 0
  {}

  lemma FiveIsPending(program: Program, c: Core)
    requires EarlyRead(program) && c.s2 == program[2] && c.s3 == BUBBLE && c.control == 4 && c.beta == 5
    ensures DrainedRegs(c)[1] == 5
  {}

  lemma ClocksNext(program: Program, pins: seq<Pins>, k: nat, c: Core)
    requires k < |pins|
    ensures Clocks(program, pins[..k + 1], c) == Clock(program, pins[k], Clocks(program, pins[..k], c))
    ensures Issued(program, pins[..k + 1], c) ==
            Issued(program, pins[..k], c) + if Issues(Clocks(program, pins[..k], c), pins[k]) then 1 else 0
  {
    hide Clock, Issues;
    assert pins[..k + 1][..k] == pins[..k];
  }

  // ----- progress

  /** How many more clocks stage 1 can be held. */
  function Patience(c: Core): (n: nat)
    ensures n <= 2
  {
    if c.s2 != BUBBLE then 2 else if c.s3 != BUBBLE then 1 else 0
  }

  lemma EmptyAnnounces(x: bv8)
    ensures !Meets(Union(0, 0), x)
  {}

  /** Every clock that does not issue uses up patience. */
  lemma HoldUsesPatience(program: Program, p: Pins, c: Core)
    requires Inv(program, c) && !Issues(c, p)
    ensures Patience(Clock(program, p, c)) < Patience(c)
  {
    hide Meets, Union, ReadsA, ReadsB, FlagDependent, AluAfter, Fetch, Finished1, BankAfter, AluInv, Clock;
    ClockIsPlain(program, p, c);
    AluKeepsStages(c);
    EmptyAnnounces(Union(ReadsA(c.s1), ReadsB(c.s1)));
    NoControlBits(c.ctr);
  }

  /** Stage 1 is never held for three clocks in a row. */
  lemma HeldAtMostTwice(program: Program, p: Pins, q: Pins, r: Pins, c: Core)
    requires ProgramOk(program) && Inv(program, c) && !Issues(c, p) && !Issues(Clock(program, p, c), q)
    ensures Issues(Clock(program, q, Clock(program, p, c)), r)
  {
    hide Issues, Clock, Inv, Patience;
    InvKept(program, p, c);
    HoldUsesPatience(program, p, c);
    InvKept(program, q, Clock(program, p, c));
    HoldUsesPatience(program, q, Clock(program, p, c));
    var e := Clock(program, q, Clock(program, p, c));
    if !Issues(e, r) {
      HoldUsesPatience(program, r, e);
    }
  }

  lemma {:induction false} ClocksAreUsed(program: Program, pins: seq<Pins>, reset: Core)
    requires ProgramOk(program) && Inv(program, reset) && Patience(reset) == 0
    ensures Inv(program, Clocks(program, pins, reset))
    ensures |pins| + Patience(Clocks(program, pins, reset)) <= 3 * Issued(program, pins, reset)
    decreases |pins|
  {
    hide Issues, Clock, Inv, Patience;
    if pins != [] {
      var before := pins[..|pins| - 1];
      ClocksAreUsed(program, before, reset);
      var c := Clocks(program, before, reset);
      InvKept(program, pins[|pins| - 1], c);
      if !Issues(c, pins[|pins| - 1]) {
        HoldUsesPatience(program, pins[|pins| - 1], c);
      }
    }
  }

  /** Progress. 3n clocks from reset issue at least n instructions. */
  lemma ThreeClocksPerInstruction(program: Program, pins: seq<Pins>, reset: Core, n: nat)
    requires ProgramOk(program) && reset == Reset(reset.alpha, reset.beta, reset.immediate) && |pins| >= 3 * n
    ensures Issued(program, pins, reset) >= n
  {
    hide Inv, Clocks, Issued;
    InvAtReset(program, reset.alpha, reset.beta, reset.immediate);
    ClocksAreUsed(program, pins, reset);
  }

  /** A taken jump costs no bubble: the next clock already holds the target in stage 1, and only an instruction
      that was ahead of the jump can still delay it, by one clock. */
  lemma JumpsCostNothing(cfg: Config, dev: Device, program: Program, p: Pins, q: Pins, r: Pins, c: Core)
    requires ProgramOk(program) && Inv(program, c) && CidClear(c) && Issues(c, p) && Jumps(c.s1)
    requires CheckFlags(c.s1.cond, DrainedCf(c), DrainedZf(c))
    ensures var n := Clock(program, p, c);
            var target := Effect(cfg, dev, c.s1, Drained(c)).pc;
            && n.pc == target && n.s1 == program[n.pc % ADDRESS_SPACE]
            && (c.s2 == BUBBLE ==> Issues(n, q)) && (Issues(n, q) || Issues(Clock(program, q, n), r))
  {
    hide Clock, CheckFlags, Bus, CidClear, Meets, Union, ReadsA, ReadsB, Hold, Fetch, AluAfter, BankAfter;
    hide ReadSet, DrainedRegs, DrainedCf, DrainedZf, Issues, FlagsAllow, AluInv, Wide;
    var n := Clock(program, p, c);
    ClockIsPlain(program, p, c);
    DecisionDrained(c);
    AfterJump(cfg, dev, program, c);
    InvKept(program, p, c);
    if !Issues(n, q) {
      HoldUsesPatience(program, q, n);
      InvKept(program, q, n);
      if !Issues(Clock(program, q, n), r) {
        HoldUsesPatience(program, r, Clock(program, q, n));
      }
    }
  }
}
