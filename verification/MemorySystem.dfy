/** The memory unit, the data RAM and the GPIO registers of the core: a request is accepted on one clock and
    answered some clocks later, and to the outside the three together are one byte array. */
module MemorySystem {

  const RAM_CELLS := 256
  const IO_SPACE := 3
  const GPIO_INPUT := 2
  const GPIO_OUTPUT := 3
  const GPIO_DIRECTION := 4

  type Address = a: nat | a < 256
  type Cells = c: seq<bv8> | |c| == RAM_CELLS witness seq(RAM_CELLS, i => 0)

  /** Registers of the memory unit. */
  datatype Mmu = Mmu(
    outData: bv8, completed: bool, ongoing: bool,
    address: Address, dataIn: bv8, read: bool, write: bool,
    ioRead: bool, ioWrite: bool, ioAddress: nat, ioData: bv8,
    return0: bv8, return1: bv8)

  /** The synchronized RAM: a cell array, an output register, and the control signals of the last clock. */
  datatype Ram = Ram(cells: Cells, out: bv8, lastAddress: Address, lastIn: bv8, lastRead: bool, lastWrite: bool)

  datatype Gpio = Gpio(ready: bool, bus: bv8, output: bv8, direction: bv8)

  datatype System = System(mmu: Mmu, ram: Ram, gpio: Gpio)

  /** The request lines and the input pins during one clock. */
  datatype Lines = Lines(execute: bool, write: bool, address: Address, data: bv8, pins: bv8)

  // ----- wires

  predicate IsReturnRegister(a: Address) {
    a < 2
  }

  predicate IsIo(a: Address) {
    a < IO_SPACE + 2
  }

  /** The RAM is ready when its inputs are those of the clock before. */
  predicate RamReady(s: System) {
    && s.ram.lastAddress == s.mmu.address && s.ram.lastIn == s.mmu.dataIn
    && s.ram.lastRead == s.mmu.read && s.ram.lastWrite == s.mmu.write
  }

  predicate IoStrobe(m: Mmu) {
    m.ioRead || m.ioWrite
  }

  predicate OperationCompleted(s: System) {
    ((s.mmu.read || s.mmu.write) && RamReady(s)) || (s.gpio.ready && IoStrobe(s.mmu)) || s.mmu.completed
  }

  predicate Accepts(s: System, l: Lines) {
    l.execute && !s.mmu.ongoing
  }

  /** What stage 2 of the pipeline waits for. */
  predicate PreCompleted(s: System, l: Lines) {
    if s.mmu.ongoing then OperationCompleted(s) else (Accepts(s, l) && IsReturnRegister(l.address)) || s.mmu.completed
  }

  // ----- one clock

  /** The four low address bits less two, in four bits. */
  function IoAddress(a: Address): nat {
    (a % 16 + 14) % 16
  }

  function MmuFinishes(s: System): Mmu {
    if OperationCompleted(s) then
      s.mmu.(outData := if IoStrobe(s.mmu) then s.gpio.bus else s.ram.out, completed := true, ongoing := false,
             read := false, write := false, ioRead := false, ioWrite := false)
    else s.mmu.(completed := false)
  }

  function AcceptsReturn(m: Mmu, l: Lines): Mmu {
    if l.write then
      if l.address == 0 then m.(return0 := l.data, completed := true) else m.(return1 := l.data, completed := true)
    else m.(outData := if l.address == 0 then m.return0 else m.return1, completed := true)
  }

  function AcceptsIo(m: Mmu, l: Lines): Mmu {
    if l.write then m.(ongoing := true, ioWrite := true, ioData := l.data) else m.(ongoing := true, ioRead := true)
  }

  function AcceptsMemory(m: Mmu, l: Lines): Mmu {
    if l.write then m.(ongoing := true, write := true, dataIn := l.data) else m.(ongoing := true, read := true)
  }

  function MmuAccepts(m: Mmu, l: Lines): Mmu {
    var n := m.(address := l.address, ioAddress := IoAddress(l.address));
    if IsReturnRegister(l.address) then AcceptsReturn(n, l)
    else if IsIo(l.address) then AcceptsIo(n, l)
    else AcceptsMemory(n, l)
  }

  function MmuAfter(s: System, l: Lines): Mmu {
    if s.mmu.ongoing then MmuFinishes(s)
    else if l.execute then MmuAccepts(s.mmu, l)
    else s.mmu.(completed := false)
  }

  function RamAfter(s: System): Ram {
    var m := s.mmu;
    Ram(if m.write then s.ram.cells[m.address := m.dataIn] else s.ram.cells,
        if m.read then s.ram.cells[m.address] else s.ram.out,
        m.address, m.dataIn, m.read, m.write)
  }

  function GpioReads(g: Gpio, m: Mmu, pins: bv8): Gpio {
    if m.ioAddress == 0 then g.(bus := pins, ready := true)
    else if m.ioAddress == 1 then g.(bus := g.output, ready := true)
    else if m.ioAddress == 2 then g.(bus := g.direction, ready := true)
    else g
  }

  function GpioWrites(g: Gpio, m: Mmu): Gpio {
    if m.ioAddress == 1 then g.(output := m.ioData, ready := true)
    else if m.ioAddress == 2 then g.(direction := m.ioData, ready := true)
    else g
  }

  function GpioAfter(s: System, pins: bv8): Gpio {
    var g := s.gpio.(ready := false);
    var r := if s.mmu.ioRead then GpioReads(g, s.mmu, pins) else g;
    if s.mmu.ioWrite then GpioWrites(r, s.mmu) else r
  }

  function Clock(s: System, l: Lines): System {
    System(MmuAfter(s, l), RamAfter(s), GpioAfter(s, l.pins))
  }

  function Clocks(s: System, lines: seq<Lines>): System
    decreases |lines|
  {
    if lines == [] then s else Clocks(Clock(s, lines[0]), lines[1..])
  }

  /** Every cell has an address and every address a cell. */
  lemma CellsAreAddresses(k: nat)
    ensures k < RAM_CELLS <==> k < 256
  {}

  /** The RAM is ready on a clock exactly if the clock before left its four inputs as they were. */
  lemma ReadyMeans(s: System, l: Lines)
    ensures var t := Clock(s, l);
            RamReady(t) <==> t.mmu == t.mmu.(address := s.mmu.address, dataIn := s.mmu.dataIn, read := s.mmu.read, write := s.mmu.write)
  {
    hide MmuAfter, GpioAfter;
  }

  // ----- what every clock keeps

  function Strobes(m: Mmu): nat {
    (if m.read then 1 else 0) + (if m.write then 1 else 0) + (if m.ioRead then 1 else 0) + (if m.ioWrite then 1 else 0)
  }

  /** An operation is under way exactly while one strobe is on, and when nothing is under way or just completed
      the RAM has seen its strobes go off. */
  predicate Inv(s: System) {
    && Strobes(s.mmu) == (if s.mmu.ongoing then 1 else 0)
    && (s.mmu.ongoing ==> !IsReturnRegister(s.mmu.address) && s.mmu.ioAddress == IoAddress(s.mmu.address))
    && (s.mmu.ongoing ==> (IoStrobe(s.mmu) <==> IsIo(s.mmu.address)))
    && (!s.mmu.ongoing && !s.mmu.completed ==> !s.ram.lastRead && !s.ram.lastWrite)
  }

  /** As the hardware powers up; what has no initial value is arbitrary. */
  predicate PoweredUp(s: System) {
    && !s.mmu.completed && !s.mmu.ongoing && !s.mmu.read && !s.mmu.write && !s.mmu.ioRead && !s.mmu.ioWrite
    && !s.ram.lastRead && !s.ram.lastWrite && s.gpio.ready && s.gpio.output == 0 && s.gpio.direction == 0
  }

  lemma InvAtPowerUp(s: System)
    requires PoweredUp(s)
    ensures Inv(s) && Quiescent(s)
  {}

  /** Whatever is requested and whenever, the invariant holds. */
  lemma InvKept(s: System, l: Lines)
    requires Inv(s)
    ensures Inv(Clock(s, l))
  {}

  lemma {:induction false} InvAlways(s: System, lines: seq<Lines>)
    requires Inv(s)
    ensures Inv(Clocks(s, lines))
    decreases |lines|
  {
    hide Clock, Inv;
    if lines != [] {
      InvKept(s, lines[0]);
      InvAlways(Clock(s, lines[0]), lines[1..]);
    }
  }

  predicate Quiescent(s: System) {
    !s.mmu.ongoing && !s.mmu.completed
  }

  // ----- the byte array

  /** The byte array that the three parts implement. Address 2 is the input port and stores nothing. */
  function Contents(s: System): Cells {
    seq(RAM_CELLS, a requires 0 <= a < RAM_CELLS =>
      if a == 0 then s.mmu.return0
      else if a == 1 then s.mmu.return1
      else if a == GPIO_INPUT then 0
      else if a == GPIO_OUTPUT then s.gpio.output
      else if a == GPIO_DIRECTION then s.gpio.direction
      else s.ram.cells[a])
  }

  /** Clocks from a request to the next quiescent state. */
  function Duration(a: Address): nat {
    if IsReturnRegister(a) then 2 else 4
  }

  /** One transaction: the request lines of its first clock, then any lines at all while the operation is under
      way, and no request on its last clock. */
  predicate Transaction(lines: seq<Lines>) {
    |lines| > 0 && lines[0].execute && |lines| == Duration(lines[0].address) && !lines[|lines| - 1].execute
  }

  lemma Clocks2(s: System, lines: seq<Lines>)
    requires |lines| == 2
    ensures Clocks(s, lines) == Clock(Clock(s, lines[0]), lines[1])
  {
    hide Clock;
    var c := Clock(s, lines[0]);
    assert Clocks(c, lines[1..]) == Clocks(Clock(c, lines[1]), []);
  }

  lemma Clocks4(s: System, lines: seq<Lines>)
    requires |lines| == 4
    ensures Clocks(s, lines) == Clock(Clock(Clock(Clock(s, lines[0]), lines[1]), lines[2]), lines[3])
  {
    hide Clock;
    var c := Clock(s, lines[0]);
    assert Clocks(c, lines[1..]) == Clocks(Clock(c, lines[1]), lines[2..]);
    Clocks2(Clock(c, lines[1]), lines[2..]);
  }

  /** The byte a read of address a delivers, with the pins as they are one clock after the request. */
  function ReadFrom(c: Cells, a: Address, pins: bv8): bv8 {
    if a == GPIO_INPUT then pins else c[a]
  }

  /** The array after the request. */
  function AfterRequest(c: Cells, l: Lines): Cells {
    if l.write then c[l.address := l.data] else c
  }

  /** Without strobes RAM and GPIO keep what they hold. */
  lemma NothingStrobed(s: System, pins: bv8)
    requires Strobes(s.mmu) == 0
    ensures var r := RamAfter(s); r.cells == s.ram.cells && r.out == s.ram.out
    ensures var g := GpioAfter(s, pins); g.output == s.gpio.output && g.direction == s.gpio.direction && g.bus == s.gpio.bus
  {}

  lemma ReturnAccepts(m: Mmu, l: Lines)
    requires IsReturnRegister(l.address)
    ensures var t := AcceptsReturn(m, l);
            && t == m.(outData := t.outData, completed := true, return0 := t.return0, return1 := t.return1)
            && t.return0 == (if l.write && l.address == 0 then l.data else m.return0)
            && t.return1 == (if l.write && l.address == 1 then l.data else m.return1)
            && t.outData == if l.write then m.outData else if l.address == 0 then m.return0 else m.return1
  {
    if l.write {
      if l.address == 0 {
      } else {
      }
    } else {
    }
  }

  /** Addresses 0 and 1 are answered on the clock of the request. */
  lemma ReturnRegisterAnswers(s: System, l: Lines)
    requires Inv(s) && !s.mmu.ongoing && l.execute && IsReturnRegister(l.address)
    ensures var t := Clock(s, l);
            && !t.mmu.ongoing && t.mmu.completed && Strobes(t.mmu) == 0 && PreCompleted(s, l)
            && Contents(t) == AfterRequest(Contents(s), l)
            && t.mmu.outData == if l.write then s.mmu.outData else Contents(s)[l.address]
  {
    hide RamAfter, GpioAfter, RamReady, AcceptsReturn, IoAddress;
    var n := s.mmu.(address := l.address, ioAddress := IoAddress(l.address));
    NothingStrobed(s, l.pins);
    ReturnAccepts(n, l);
    var t := Clock(s, l);
    assert t.mmu == AcceptsReturn(n, l);
    ReturnContents(s, t, l);
  }

  lemma ReturnContents(s: System, t: System, l: Lines)
    requires IsReturnRegister(l.address)
    requires t.ram.cells == s.ram.cells && t.gpio.output == s.gpio.output && t.gpio.direction == s.gpio.direction
    requires t.mmu.return0 == if l.write && l.address == 0 then l.data else s.mmu.return0
    requires t.mmu.return1 == if l.write && l.address == 1 then l.data else s.mmu.return1
    ensures Contents(t) == AfterRequest(Contents(s), l)
  {
    assert Contents(t) == AfterRequest(Contents(s), l);
  }

  lemma AcceptsBy(s: System, l: Lines)
    requires Quiescent(s) && l.execute
    ensures var t := Clock(s, l);
            && t.mmu.address == l.address
            && (IsReturnRegister(l.address) ==> !t.mmu.ongoing && t.mmu.completed)
            && (!IsReturnRegister(l.address) ==> t.mmu.ongoing && t.mmu.outData == s.mmu.outData)
  {
    hide MmuAccepts, MmuFinishes, RamAfter, GpioAfter;
    UnitAccepts(s.mmu, l);
  }

  lemma UnitAccepts(m: Mmu, l: Lines)
    requires !m.ongoing
    ensures var t := MmuAccepts(m, l);
            && t.address == l.address
            && (IsReturnRegister(l.address) ==> !t.ongoing && t.completed)
            && (!IsReturnRegister(l.address) ==> t.ongoing && t.outData == m.outData)
  {
    hide IoAddress, AcceptsReturn, AcceptsIo, AcceptsMemory, IsIo;
    var n := m.(address := l.address, ioAddress := IoAddress(l.address));
    if IsReturnRegister(l.address) {
      ReturnAccepts(n, l);
    } else {
      IoAccepts(n, l);
      MemoryAccepts(n, l);
    }
  }

  lemma IoAccepts(m: Mmu, l: Lines)
    ensures var t := AcceptsIo(m, l); t.address == m.address && t.ongoing && t.outData == m.outData
  {
    if l.write {}
  }

  lemma MemoryAccepts(m: Mmu, l: Lines)
    ensures var t := AcceptsMemory(m, l); t.address == m.address && t.ongoing && t.outData == m.outData
  {
    if l.write {}
  }

  // ----- the four clocks of an operation behind the strobes

  /** The strobes of the request are on. */
  predicate StrobesOf(m: Mmu, l: Lines) {
    && m.ongoing && m.address == l.address && m.ioAddress == IoAddress(l.address)
    && m.ioWrite == (IsIo(l.address) && l.write) && m.ioRead == (IsIo(l.address) && !l.write)
    && m.write == (!IsIo(l.address) && l.write) && m.read == (!IsIo(l.address) && !l.write)
    && (m.ioWrite ==> m.ioData == l.data) && (m.write ==> m.dataIn == l.data)
  }

  /** Requested, and not yet seen by RAM or GPIO. */
  predicate Requested(s: System, l: Lines) {
    StrobesOf(s.mmu, l) && !s.ram.lastRead && !s.ram.lastWrite && !s.gpio.ready && !s.mmu.completed
  }

  /** RAM or GPIO has done its part and is ready. */
  predicate Performed(s: System, l: Lines, value: bv8) {
    && StrobesOf(s.mmu, l) && OperationCompleted(s)
    && (!l.write ==> value == if IsIo(l.address) then s.gpio.bus else s.ram.out)
  }

  lemma RequestStarts(s: System, l: Lines)
    requires Inv(s) && Quiescent(s) && l.execute && !IsReturnRegister(l.address)
    ensures Requested(Clock(s, l), l) && Contents(Clock(s, l)) == Contents(s)
  {
    assert Contents(Clock(s, l)) == Contents(s);
  }

  lemma RamActs(s: System, l: Lines)
    requires StrobesOf(s.mmu, l) && !IsReturnRegister(l.address)
    ensures var r := RamAfter(s);
            && r.cells == (if l.write && !IsIo(l.address) then s.ram.cells[l.address := l.data] else s.ram.cells)
            && r.out == (if l.write || IsIo(l.address) then s.ram.out else s.ram.cells[l.address])
            && r.lastAddress == s.mmu.address && r.lastIn == s.mmu.dataIn
            && r.lastRead == s.mmu.read && r.lastWrite == s.mmu.write
  {}

  lemma GpioActs(s: System, l: Lines, pins: bv8)
    requires StrobesOf(s.mmu, l) && !IsReturnRegister(l.address)
    ensures var g := GpioAfter(s, pins);
            && g.output == (if l.write && l.address == GPIO_OUTPUT then l.data else s.gpio.output)
            && g.direction == (if l.write && l.address == GPIO_DIRECTION then l.data else s.gpio.direction)
            && g.ready == (IsIo(l.address) && !(l.write && l.address == GPIO_INPUT))
            && g.bus == if l.write || !IsIo(l.address) then s.gpio.bus
                        else if l.address == GPIO_INPUT then pins
                        else if l.address == GPIO_OUTPUT then s.gpio.output else s.gpio.direction
  {
    if IsIo(l.address) {
      if l.write {
      } else {
      }
    } else {
    }
  }

  /** The bytes after RAM and GPIO have acted on the strobes. */
  lemma ActedContents(s: System, t: System, l: Lines)
    requires !IsReturnRegister(l.address) && t.mmu.return0 == s.mmu.return0 && t.mmu.return1 == s.mmu.return1
    requires t.ram.cells == if l.write && !IsIo(l.address) then s.ram.cells[l.address := l.data] else s.ram.cells
    requires t.gpio.output == if l.write && l.address == GPIO_OUTPUT then l.data else s.gpio.output
    requires t.gpio.direction == if l.write && l.address == GPIO_DIRECTION then l.data else s.gpio.direction
    ensures Contents(t) == if l.address == GPIO_INPUT then Contents(s) else AfterRequest(Contents(s), l)
  {
    assert Contents(t) == if l.address == GPIO_INPUT then Contents(s) else AfterRequest(Contents(s), l);
  }

  /** On the next clock RAM and GPIO act, unless the request is a write to the input port. */
  lemma RequestActs(s: System, l: Lines, m: Lines)
    requires Requested(s, l) && !IsReturnRegister(l.address)
    ensures var t := Clock(s, m);
            && StrobesOf(t.mmu, l) && !t.mmu.completed
            && (l.write && l.address == GPIO_INPUT ==> !OperationCompleted(t) && !t.gpio.ready)
            && (!(l.write && l.address == GPIO_INPUT) ==>
                  && Performed(t, l, ReadFrom(Contents(s), l.address, m.pins))
                  && Contents(t) == AfterRequest(Contents(s), l))
  {
    hide RamAfter, GpioAfter, IoAddress;
    var t := Clock(s, m);
    StrobesNotReady(s, l);
    RamActs(s, l);
    GpioActs(s, l, m.pins);
    ActedContents(s, t, l);
  }

  lemma StrobesNotReady(s: System, l: Lines)
    requires Requested(s, l)
    ensures MmuFinishes(s) == s.mmu.(completed := false)
  {}

  /** The memory unit takes the answer and drops the strobes. */
  lemma RequestCompletes(s: System, l: Lines, value: bv8, m: Lines)
    requires Performed(s, l, value) && !IsReturnRegister(l.address)
    requires l.write ==> Contents(s)[l.address] == l.data
    ensures var t := Clock(s, m);
            && !t.mmu.ongoing && t.mmu.completed && Strobes(t.mmu) == 0
            && (!l.write ==> t.mmu.outData == value) && Contents(t) == Contents(s) && PreCompleted(s, m)
  {
    var t := Clock(s, m);
    assert Contents(t) == Contents(s);
  }

  lemma RequestEnds(s: System, m: Lines)
    requires !s.mmu.ongoing && Strobes(s.mmu) == 0 && !m.execute
    ensures var t := Clock(s, m);
            && Quiescent(t) && t.mmu.outData == s.mmu.outData && Contents(t) == Contents(s)
  {
    var t := Clock(s, m);
    assert Contents(t) == Contents(s);
  }

  /** A transaction from any quiescent state, whatever happened before it and whatever is on the request lines
      while it is under way: it ends quiescent in a fixed number of clocks, a write changes exactly its cell,
      and a read changes none and delivers its cell. */
  lemma TransactionRefines(s: System, lines: seq<Lines>)
    requires Inv(s) && Quiescent(s) && Transaction(lines) && !(lines[0].write && lines[0].address == GPIO_INPUT)
    ensures var t := Clocks(s, lines);
            var l := lines[0];
            && Quiescent(t) && Inv(t) && Contents(t) == AfterRequest(Contents(s), l)
            && (!l.write ==> t.mmu.outData == ReadFrom(Contents(s), l.address, lines[1].pins))
  {
    hide Clock, Contents, Inv, PreCompleted, Performed, Requested, OperationCompleted;
    var l := lines[0];
    InvAlways(s, lines);
    if IsReturnRegister(l.address) {
      Clocks2(s, lines);
      ReturnRegisterAnswers(s, l);
      RequestEnds(Clock(s, l), lines[1]);
    } else {
      Clocks4(s, lines);
      var t1 := Clock(s, l);
      RequestStarts(s, l);
      var t2 := Clock(t1, lines[1]);
      RequestActs(t1, l, lines[1]);
      var t3 := Clock(t2, lines[2]);
      RequestCompletes(t2, l, ReadFrom(Contents(s), l.address, lines[1].pins), lines[2]);
      RequestEnds(t3, lines[3]);
    }
  }

  // ----- the port that never answers

  /** A write to the input port is never acknowledged: no later clock completes it, so the unit accepts
      nothing any more. */
  lemma {:induction false} InputPortWriteHangs(s: System, l: Lines, lines: seq<Lines>)
    requires StrobesOf(s.mmu, l) && l.write && l.address == GPIO_INPUT && !s.gpio.ready && !s.mmu.completed
    ensures Clocks(s, lines).mmu.ongoing && !OperationCompleted(Clocks(s, lines))
    decreases |lines|
  {
    if lines != [] {
      InputPortWriteHangs(Clock(s, lines[0]), l, lines[1..]);
    }
  }

  /** A request from a quiescent state is answered exactly if it is not a write to the input port. */
  lemma AnsweredExactly(s: System, lines: seq<Lines>)
    requires Inv(s) && Quiescent(s) && Transaction(lines)
    ensures Quiescent(Clocks(s, lines)) <==> !(lines[0].write && lines[0].address == GPIO_INPUT)
  {
    hide Clock, Inv, Contents, Requested, OperationCompleted, StrobesOf;
    var l := lines[0];
    if l.write && l.address == GPIO_INPUT {
      RequestStarts(s, l);
      RequestedWrite(Clock(s, l), l);
      InputPortWriteHangs(Clock(s, l), l, lines[1..]);
    } else {
      TransactionRefines(s, lines);
    }
  }

  lemma RequestedWrite(s: System, l: Lines)
    requires Requested(s, l)
    ensures StrobesOf(s.mmu, l) && !s.gpio.ready && !s.mmu.completed
  {}

  // ----- histories

  /** What the byte array answers, transaction by transaction. */
  function IdealReads(c: Cells, history: seq<seq<Lines>>): seq<bv8>
    requires forall k :: 0 <= k < |history| ==> Transaction(history[k])
    decreases |history|
  {
    if history == [] then []
    else
      assert Transaction(history[0]);
      var l := history[0][0];
      (if l.write then [] else [ReadFrom(c, l.address, history[0][1].pins)]) + IdealReads(AfterRequest(c, l), history[1..])
  }

  /** What the hardware has in its output register after each read. */
  function HardwareReads(s: System, history: seq<seq<Lines>>): seq<bv8>
    requires forall k :: 0 <= k < |history| ==> Transaction(history[k])
    decreases |history|
  {
    if history == [] then []
    else
      assert Transaction(history[0]);
      var t := Clocks(s, history[0]);
      (if history[0][0].write then [] else [t.mmu.outData]) + HardwareReads(t, history[1..])
  }

  function IdealEnd(c: Cells, history: seq<seq<Lines>>): Cells
    requires forall k :: 0 <= k < |history| ==> Transaction(history[k])
    decreases |history|
  {
    if history == [] then c else assert Transaction(history[0]); IdealEnd(AfterRequest(c, history[0][0]), history[1..])
  }

  function HardwareEnd(s: System, history: seq<seq<Lines>>): System
    decreases |history|
  {
    if history == [] then s else HardwareEnd(Clocks(s, history[0]), history[1..])
  }

  /** Any history of transactions leaves in the hardware the bytes it leaves in the array, and its reads deliver
      what the array delivers. */
  lemma {:induction false} HistoriesRefine(s: System, history: seq<seq<Lines>>)
    requires Inv(s) && Quiescent(s)
    requires forall k :: 0 <= k < |history| ==>
               Transaction(history[k]) && !(history[k][0].write && history[k][0].address == GPIO_INPUT)
    ensures HardwareReads(s, history) == IdealReads(Contents(s), history)
    ensures Contents(HardwareEnd(s, history)) == IdealEnd(Contents(s), history) && Quiescent(HardwareEnd(s, history))
    decreases |history|
  {
    hide Clocks, Inv, Quiescent, Contents;
    if history != [] {
      assert Transaction(history[0]);
      TransactionRefines(s, history[0]);
      HistoriesRefine(Clocks(s, history[0]), history[1..]);
    }
  }

  // ----- requests right behind an answer

  /** The byte in the output register of the block that serves an address. */
  function Standing(s: System, a: Address): bv8 {
    if IsIo(a) then s.gpio.bus else s.ram.out
  }

  /** After two clocks the request has been answered, with the bytes and the byte it should have. */
  predicate AnsweredRightly(s: System, l: Lines, pins: bv8, t: System) {
    && t.mmu.completed && !t.mmu.ongoing && Contents(t) == AfterRequest(Contents(s), l)
    && (!l.write ==> t.mmu.outData == ReadFrom(Contents(s), l.address, pins))
  }

  /** The strobes of the request are on while the answer to the one before still shows. */
  predicate Hasty(s: System, l: Lines) {
    StrobesOf(s.mmu, l) && s.mmu.completed
  }

  lemma AcceptedBehindAnswer(s: System, l: Lines)
    requires Inv(s) && !s.mmu.ongoing && s.mmu.completed && l.execute && !IsReturnRegister(l.address)
    ensures var t := Clock(s, l);
            Hasty(t, l) && Contents(t) == Contents(s) && Standing(t, l.address) == Standing(s, l.address) && t.mmu.outData == s.mmu.outData
  {
    hide RamAfter, GpioAfter, RamReady, IoAddress;
    NothingStrobed(s, l.pins);
    if IsIo(l.address) {
      if l.write {}
    } else if l.write {
    }
    assert Contents(Clock(s, l)) == Contents(s);
  }

  lemma HastyCompletes(s: System, l: Lines, m: Lines)
    requires Hasty(s, l) && !IsReturnRegister(l.address)
    ensures var t := Clock(s, m);
            && !t.mmu.ongoing && t.mmu.completed && t.mmu.outData == Standing(s, l.address)
            && Contents(t) == (if l.address == GPIO_INPUT then Contents(s) else AfterRequest(Contents(s), l))
  {
    hide RamAfter, GpioAfter, IoAddress, RamReady;
    RamActs(s, l);
    GpioActs(s, l, m.pins);
    ActedContents(s, Clock(s, m), l);
  }

  /** What becomes of a request on the clock right after an answer: it is accepted, the old answer is taken for its
      own, and a write to the input port does nothing. */
  lemma RequestBehindAnswer(s: System, second: Lines, last: Lines)
    requires Inv(s) && !s.mmu.ongoing && s.mmu.completed && second.execute && !IsReturnRegister(second.address)
    ensures var t := Clock(Clock(s, second), last);
            && !t.mmu.ongoing && t.mmu.completed
            && Contents(t) == (if second.address == GPIO_INPUT then Contents(s) else AfterRequest(Contents(s), second))
            && (!second.write ==> t.mmu.outData == Standing(s, second.address))
  {
    hide Clock, Contents, Inv, Standing, Hasty;
    AcceptedBehindAnswer(s, second);
    HastyCompletes(Clock(s, second), second, last);
  }

  /** Such a request is answered rightly exactly if it writes a cell, or reads one whose byte already stands in the
      output register. (Addresses 0 and 1 are answered at once, see ReturnRegisterAnswers.) */
  lemma AnsweredRightlyExactly(s: System, second: Lines, last: Lines)
    requires Inv(s) && !s.mmu.ongoing && s.mmu.completed && second.execute && !IsReturnRegister(second.address)
    requires !(second.write && second.address == GPIO_INPUT)
    ensures AnsweredRightly(s, second, last.pins, Clock(Clock(s, second), last)) <==>
            second.write || Standing(s, second.address) == ReadFrom(Contents(s), second.address, last.pins)
  {
    hide Clock, Contents, Inv, Standing;
    RequestBehindAnswer(s, second, last);
  }

  /** An instance: behind the answer to a RAM read, a RAM read gets the cell of the read before. */
  lemma LingeringAnswer(s: System, lines: seq<Lines>, second: Lines, last: Lines)
    requires Inv(s) && Quiescent(s) && |lines| == 3 && lines[0].execute && !lines[0].write && !IsIo(lines[0].address)
    requires second.execute && !second.write && !IsIo(second.address)
    ensures var t := Clock(Clock(Clocks(s, lines), second), last);
            t.mmu.completed && !t.mmu.ongoing && t.mmu.outData == Contents(s)[lines[0].address]
  {
    var l := lines[0];
    var t1 := Clock(s, l);
    RequestStarts(s, l);
    var t2 := Clock(t1, lines[1]);
    RequestActs(t1, l, lines[1]);
    var t3 := Clock(t2, lines[2]);
    Clocks2(t1, lines[1..]);
    assert Clocks(s, lines) == t3;
  }
}
