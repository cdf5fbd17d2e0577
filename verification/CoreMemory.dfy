/** The pipelined core together with its memory unit, RAM and GPIO block. */
module CoreMemory {
  import opened Isa
  import opened Pipeline
  import M = MemorySystem

  datatype Whole = Whole(core: Core, memory: M.System)

  /** The input port and the interrupt line during one clock. */
  datatype Outside = Outside(pins: bv8, interrupt: bool)

  /** Stage 1 asks for memory. */
  predicate Asks(c: Core) {
    Executes(c) && UsesMemory(c.s1)
  }

  predicate AsksToWrite(c: Core) {
    OpCode(c.s1.op) % 2 == 1
  }

  /** Address and data come from the read buses; a write takes its address from the first, a read from the second. */
  function RequestOf(c: Core, pins: bv8): M.Lines {
    var a, b := Bus(c.regs, c.s1.a), Bus(c.regs, c.s1.b);
    M.Lines(Asks(c), AsksToWrite(c), if AsksToWrite(c) then Num(a) else Num(b), if AsksToWrite(c) then b else a, pins)
  }

  function PinsOf(w: Whole, o: Outside): Pins {
    Pins(M.PreCompleted(w.memory, RequestOf(w.core, o.pins)), w.memory.mmu.outData, o.interrupt)
  }

  function ClockAll(program: Program, o: Outside, w: Whole): Whole {
    Whole(Clock(program, PinsOf(w, o), w.core), M.Clock(w.memory, RequestOf(w.core, o.pins)))
  }

  function ClocksAll(program: Program, outside: seq<Outside>, w: Whole): Whole
    decreases |outside|
  {
    if outside == [] then w
    else ClockAll(program, outside[|outside| - 1], ClocksAll(program, outside[..|outside| - 1], w))
  }

  function IssuedAll(program: Program, outside: seq<Outside>, w: Whole): nat
    decreases |outside|
  {
    if outside == [] then 0
    else
      var before := outside[..|outside| - 1];
      var now := ClocksAll(program, before, w);
      IssuedAll(program, before, w) + if Issues(now.core, PinsOf(now, outside[|outside| - 1])) then 1 else 0
  }

  // ----- the operation under way

  /** The request that the strobes stand for. */
  function Current(m: M.Mmu): M.Lines {
    M.Lines(true, m.write || m.ioWrite, m.address, if m.ioWrite then m.ioData else m.dataIn, 0)
  }

  /** RAM and GPIO have not acted on it yet. */
  predicate Asked(s: M.System) {
    M.Requested(s, Current(s.mmu))
  }

  /** They have, and the memory unit will take the answer on this clock. */
  predicate Answered(s: M.System) {
    && M.StrobesOf(s.mmu, Current(s.mmu)) && M.OperationCompleted(s) && !s.mmu.completed
    && (Current(s.mmu).write ==> M.Contents(s)[s.mmu.address] == Current(s.mmu).data)
    && (!Current(s.mmu).write ==> M.Contents(s)[s.mmu.address] == if M.IsIo(s.mmu.address) then s.gpio.bus else s.ram.out)
  }

  /** It was accepted while the answer to the one before still showed. */
  predicate Rushed(s: M.System) {
    M.Hasty(s, Current(s.mmu))
  }

  predicate MemoryInv(s: M.System) {
    && M.Inv(s)
    && (s.mmu.ongoing ==>
          && !M.IsReturnRegister(s.mmu.address) && s.mmu.address != M.GPIO_INPUT
          && (Asked(s) || Answered(s) || Rushed(s)))
  }

  /** The bytes once the operation under way has been carried out. */
  function PendingCells(s: M.System): M.Cells {
    if s.mmu.ongoing then M.AfterRequest(M.Contents(s), Current(s.mmu)) else M.Contents(s)
  }

  /** What a load under way will deliver, or the last one delivered. */
  function PendingLoad(s: M.System): bv8 {
    if !s.mmu.ongoing then s.mmu.outData
    else if s.mmu.completed then M.Standing(s, s.mmu.address)
    else M.Contents(s)[s.mmu.address]
  }

  /** What a load gets that asks for an address on this clock: while an operation is under way the request is not
      seen and the load takes that operation's answer, and right behind an answer it takes the byte that stands. */
  function LoadedBy(s: M.System, a: M.Address): bv8 {
    if s.mmu.ongoing then M.Standing(s, s.mmu.address)
    else if s.mmu.completed && !M.IsReturnRegister(a) then M.Standing(s, a)
    else M.Contents(s)[a]
  }

  lemma CurrentOf(m: M.Mmu, l: M.Lines)
    requires M.StrobesOf(m, l)
    ensures var c := Current(m);
            c.write == l.write && c.address == l.address && (l.write ==> c.data == l.data) && M.StrobesOf(m, c)
  {}

  lemma SameRequest(c: M.Cells, l: M.Lines, k: M.Lines)
    requires l.write == k.write && l.address == k.address && (l.write ==> l.data == k.data)
    ensures M.AfterRequest(c, l) == M.AfterRequest(c, k)
  {}

  /** A request to quiescent memory is accepted, and from then on counts as carried out. */
  lemma RequestAccepted(s: M.System, l: M.Lines)
    requires MemoryInv(s) && M.Quiescent(s) && l.execute && l.address != M.GPIO_INPUT
    ensures var t := M.Clock(s, l);
            && MemoryInv(t) && (t.mmu.ongoing || t.mmu.completed) && M.Quiescent(s)
            && PendingCells(t) == M.AfterRequest(M.Contents(s), l)
            && (!l.write ==> PendingLoad(t) == M.Contents(s)[l.address])
            && (t.mmu.ongoing ==> Asked(t) && Current(t.mmu).write == l.write)
            && (t.mmu.outData == if M.IsReturnRegister(l.address) && !l.write then M.Contents(s)[l.address] else s.mmu.outData)
  {
    hide M.Clock, M.Contents, M.Inv, M.StrobesOf, M.OperationCompleted, Current, M.Standing;
    M.InvKept(s, l);
    var t := M.Clock(s, l);
    M.AcceptsBy(s, l);
    if M.IsReturnRegister(l.address) {
      M.ReturnRegisterAnswers(s, l);
    } else {
      M.RequestStarts(s, l);
      CurrentOf(t.mmu, l);
      SameRequest(M.Contents(t), l, Current(t.mmu));
      RequestedBy(t, l);
    }
  }

  /** A request right behind an answer is accepted too; a read then takes the byte that stands. */
  lemma RequestRushed(s: M.System, l: M.Lines)
    requires MemoryInv(s) && !s.mmu.ongoing && s.mmu.completed && l.execute && l.address != M.GPIO_INPUT
    ensures var t := M.Clock(s, l);
            && MemoryInv(t) && (t.mmu.ongoing || t.mmu.completed)
            && PendingCells(t) == M.AfterRequest(M.Contents(s), l)
            && (!l.write ==> PendingLoad(t) == LoadedBy(s, l.address))
            && (t.mmu.ongoing ==> Current(t.mmu).write == l.write)
            && (t.mmu.outData == if M.IsReturnRegister(l.address) && !l.write then M.Contents(s)[l.address] else s.mmu.outData)
  {
    hide M.Clock, M.Contents, M.Inv, M.StrobesOf, M.OperationCompleted, Current, M.Standing;
    M.InvKept(s, l);
    var t := M.Clock(s, l);
    if M.IsReturnRegister(l.address) {
      M.ReturnRegisterAnswers(s, l);
    } else {
      M.AcceptedBehindAnswer(s, l);
      RushedBy(t, l);
      SameRequest(M.Contents(t), l, Current(t.mmu));
    }
  }

  lemma RushedBy(s: M.System, l: M.Lines)
    requires M.Hasty(s, l)
    ensures Rushed(s) && s.mmu.ongoing && s.mmu.completed && s.mmu.address == l.address
    ensures Current(s.mmu).write == l.write && Current(s.mmu).address == l.address && (l.write ==> Current(s.mmu).data == l.data)
  {
    CurrentOf(s.mmu, l);
  }

  lemma RequestedBy(s: M.System, l: M.Lines)
    requires M.Requested(s, l)
    ensures Asked(s)
  {
    CurrentOf(s.mmu, l);
  }

  /** RAM and GPIO act; nothing changes that was pending. */
  lemma AskedBecomesAnswered(s: M.System, l: M.Lines)
    requires MemoryInv(s) && s.mmu.ongoing && Asked(s)
    ensures var t := M.Clock(s, l);
            && MemoryInv(t) && t.mmu.ongoing && Answered(t) && Current(t.mmu).write == Current(s.mmu).write
            && PendingCells(t) == PendingCells(s) && (!Current(s.mmu).write ==> PendingLoad(t) == PendingLoad(s))
    ensures !M.PreCompleted(s, l)
  {
    hide M.Clock, M.Contents, M.Inv, M.OperationCompleted, M.StrobesOf, Current;
    var k := Current(s.mmu);
    M.InvKept(s, l);
    CurrentFacts(s);
    M.RequestActs(s, k, l);
    var t := M.Clock(s, l);
    CurrentOf(t.mmu, k);
    CurrentFacts(t);
    AskedIsNotReady(s, l);
    PerformedMeans(t, k, M.ReadFrom(M.Contents(s), k.address, l.pins));
    NotCompleted(s);
  }

  lemma CurrentFacts(s: M.System)
    ensures Current(s.mmu).address == s.mmu.address
    ensures M.StrobesOf(s.mmu, Current(s.mmu)) ==> s.mmu.ongoing
  {}

  lemma NotCompleted(s: M.System)
    ensures Asked(s) || Answered(s) ==> !s.mmu.completed
    ensures Rushed(s) ==> s.mmu.completed
  {}

  lemma AskedIsNotReady(s: M.System, l: M.Lines)
    requires Asked(s)
    ensures !M.PreCompleted(s, l)
  {}

  lemma PerformedMeans(s: M.System, l: M.Lines, value: bv8)
    requires M.Performed(s, l, value)
    ensures M.StrobesOf(s.mmu, l) && M.OperationCompleted(s)
    ensures !l.write ==> value == if M.IsIo(l.address) then s.gpio.bus else s.ram.out
  {}

  /** The memory unit takes the answer, its own or the one that still shows. */
  lemma AnsweredBecomesDone(s: M.System, l: M.Lines)
    requires MemoryInv(s) && s.mmu.ongoing && !Asked(s)
    ensures var t := M.Clock(s, l);
            && MemoryInv(t) && !t.mmu.ongoing && t.mmu.completed
            && PendingCells(t) == PendingCells(s) && t.mmu.outData == LoadedBy(s, s.mmu.address)
            && (!Current(s.mmu).write ==> t.mmu.outData == PendingLoad(s))
    ensures M.PreCompleted(s, l)
  {
    hide M.Clock, M.Contents, M.Inv, M.OperationCompleted, M.StrobesOf, Current, M.Standing;
    var k := Current(s.mmu);
    M.InvKept(s, l);
    CurrentFacts(s);
    NotCompleted(s);
    Finishes(s, l);
    if Rushed(s) {
      M.HastyCompletes(s, k, l);
    } else {
      if !k.write {
        StandingIs(s);
      }
      var value := M.Standing(s, s.mmu.address);
      PerformedIs(s, k, value);
      M.RequestCompletes(s, k, value, l);
      if k.write {
        assert M.AfterRequest(M.Contents(s), k) == M.Contents(s);
      }
    }
  }

  lemma Finishes(s: M.System, l: M.Lines)
    requires s.mmu.ongoing && (Rushed(s) || Answered(s))
    ensures M.Clock(s, l).mmu.outData == M.Standing(s, s.mmu.address) && M.PreCompleted(s, l)
  {
    hide M.RamAfter, M.GpioAfter, M.Contents, M.IoAddress;
  }

  lemma StandingIs(s: M.System)
    requires Answered(s) && !Current(s.mmu).write
    ensures M.Standing(s, s.mmu.address) == M.Contents(s)[s.mmu.address]
  {
    hide M.Contents, M.OperationCompleted;
  }

  lemma PerformedIs(s: M.System, l: M.Lines, value: bv8)
    requires M.StrobesOf(s.mmu, l) && M.OperationCompleted(s) && value == M.Standing(s, l.address)
    ensures M.Performed(s, l, value)
  {}

  /** Without an operation and without a request nothing changes. */
  lemma NothingAsked(s: M.System, l: M.Lines)
    requires MemoryInv(s) && !s.mmu.ongoing && !l.execute
    ensures var t := M.Clock(s, l);
            && MemoryInv(t) && M.Quiescent(t) && PendingCells(t) == PendingCells(s) && t.mmu.outData == s.mmu.outData
    ensures M.PreCompleted(s, l) <==> s.mmu.completed
  {
    hide M.Contents, M.Inv, M.OperationCompleted;
    M.InvKept(s, l);
    NoStrobes(s);
    M.RequestEnds(s, l);
  }

  lemma NoStrobes(s: M.System)
    requires M.Inv(s) && !s.mmu.ongoing
    ensures M.Strobes(s.mmu) == 0
  {}
}
