/** Memory unit, data RAM and GPIO block as clocked objects; together one step of MemorySystem.Clock. */
module MemoryRtl {
  import opened MemorySystem

  class DataMemory {
    const cells: array<bv8>
    var out: bv8
    var lastAddress: Address
    var lastIn: bv8
    var lastRead: bool
    var lastWrite: bool

    ghost predicate Valid() {
      cells.Length == RAM_CELLS
    }

    ghost function Model(): Ram
      requires Valid()
      reads this, cells
    {
      Ram(cells[..], out, lastAddress, lastIn, lastRead, lastWrite)
    }

    constructor (initial: Cells, out: bv8)
      ensures Valid() && fresh(cells) && Model() == Ram(initial, out, 0, 0, false, false)
    {
      cells := new bv8[RAM_CELLS](i requires 0 <= i < RAM_CELLS => initial[i]);
      this.out := out;
      lastAddress, lastIn, lastRead, lastWrite := 0, 0, false, false;
    }

    /** The combinational ready signal: nothing changed since the last clock. */
    method Ready(address: Address, dataIn: bv8, read: bool, write: bool) returns (ready: bool)
      ensures ready <==> lastAddress == address && lastIn == dataIn && lastRead == read && lastWrite == write
    {
      ready := lastAddress == address && lastIn == dataIn && lastRead == read && lastWrite == write;
    }

    method PosEdge(address: Address, dataIn: bv8, read: bool, write: bool)
      requires Valid()
      modifies this, cells
      ensures Model() == Ram(if write then old(Model()).cells[address := dataIn] else old(Model()).cells,
                             if read then old(Model()).cells[address] else old(out), address, dataIn, read, write)
    {
      if read {
        out := cells[address];
      }
      if write {
        cells[address] := dataIn;
      }
      lastAddress, lastIn, lastRead, lastWrite := address, dataIn, read, write;
    }
  }

  class GpioPort {
    var ready: bool
    var bus: bv8
    var output: bv8
    var direction: bv8

    constructor ()
      ensures Model() == Gpio(true, 0, 0, 0)
    {
      ready, bus, output, direction := true, 0, 0, 0;
    }

    function Model(): Gpio
      reads this
    {
      Gpio(ready, bus, output, direction)
    }

    method PosEdge(write: bool, read: bool, address: nat, data: bv8, pins: bv8, ghost s: System)
      requires Model() == s.gpio && write == s.mmu.ioWrite && read == s.mmu.ioRead && address == s.mmu.ioAddress
      requires data == s.mmu.ioData
      modifies this
      ensures Model() == GpioAfter(s, pins)
    {
      var oldOutput, oldDirection := output, direction;
      ready := false;
      if read {
        if address == 0 {
          bus, ready := pins, true;
        }
        if address == 1 {
          bus, ready := oldOutput, true;
        }
        if address == 2 {
          bus, ready := oldDirection, true;
        }
      }
      if write {
        if address == 1 {
          output, ready := data, true;
        }
        if address == 2 {
          direction, ready := data, true;
        }
      }
    }
  }

  class MemoryUnit {
    var outData: bv8
    var completed: bool
    var ongoing: bool
    var address: Address
    var dataIn: bv8
    var read: bool
    var write: bool
    var ioRead: bool
    var ioWrite: bool
    var ioAddress: nat
    var ioData: bv8
    var return0: bv8
    var return1: bv8

    function Model(): Mmu
      reads this
    {
      Mmu(outData, completed, ongoing, address, dataIn, read, write, ioRead, ioWrite, ioAddress, ioData, return0, return1)
    }

    constructor (outData: bv8, ioAddress: nat, ioData: bv8, return0: bv8, return1: bv8)
      ensures Model() == Mmu(outData, false, false, 0, 0, false, false, false, false, ioAddress, ioData, return0, return1)
    {
      this.outData, this.ioAddress, this.ioData, this.return0, this.return1 := outData, ioAddress, ioData, return0, return1;
      completed, ongoing, address, dataIn, read, write, ioRead, ioWrite := false, false, 0, 0, false, false, false, false;
    }

    /** An operation under way: take the answer if there is one. */
    method Finish(operationCompleted: bool, ioBus: bv8, memoryOut: bv8, ghost s: System)
      requires Model() == s.mmu && ongoing && operationCompleted == OperationCompleted(s)
      requires ioBus == s.gpio.bus && memoryOut == s.ram.out
      modifies this
      ensures Model() == MmuFinishes(s)
    {
      if operationCompleted {
        if ioRead || ioWrite {
          outData := ioBus;
        } else {
          outData := memoryOut;
        }
        completed, ongoing := true, false;
        read, write := false, false;
        ioWrite, ioRead := false, false;
      } else {
        completed := false;
      }
    }

    /** A new request. */
    method Accept(l: Lines)
      modifies this
      ensures Model() == MmuAccepts(old(Model()), l)
    {
      hide AcceptsReturn, AcceptsIo, AcceptsMemory;
      address := l.address;
      ioAddress := IoAddress(l.address);
      if l.address < 2 {
        AcceptReturn(l);
      } else if l.address < IO_SPACE + 2 {
        AcceptIo(l);
      } else {
        AcceptMemory(l);
      }
    }

    method AcceptReturn(l: Lines)
      modifies this
      ensures Model() == AcceptsReturn(old(Model()), l)
    {
      completed := true;
      if l.write {
        if l.address == 0 {
          return0 := l.data;
        } else {
          return1 := l.data;
        }
      } else {
        outData := if l.address == 0 then return0 else return1;
      }
    }

    method AcceptIo(l: Lines)
      modifies this
      ensures Model() == AcceptsIo(old(Model()), l)
    {
      ongoing := true;
      if l.write {
        ioWrite, ioData := true, l.data;
      } else {
        ioRead := true;
      }
    }

    method AcceptMemory(l: Lines)
      modifies this
      ensures Model() == AcceptsMemory(old(Model()), l)
    {
      ongoing := true;
      if l.write {
        write, dataIn := true, l.data;
      } else {
        read := true;
      }
    }

    method PosEdge(l: Lines, memoryReady: bool, memoryOut: bv8, ioReady: bool, ioBus: bv8, ghost s: System)
      requires Model() == s.mmu && memoryReady == RamReady(s) && memoryOut == s.ram.out
      requires ioReady == s.gpio.ready && ioBus == s.gpio.bus
      modifies this
      ensures Model() == MmuAfter(s, l)
    {
      var operationCompleted := ((read || write) && memoryReady) || (ioReady && (ioRead || ioWrite)) || completed;
      var accepts := l.execute && !ongoing;
      if ongoing {
        Finish(operationCompleted, ioBus, memoryOut, s);
      } else if accepts {
        Accept(l);
      } else {
        completed := false;
      }
    }
  }

  /** The three blocks on one clock. */
  class MemoryRtl {
    const mmu: MemoryUnit
    const ram: DataMemory
    const gpio: GpioPort

    ghost predicate Valid() {
      ram.Valid()
    }

    ghost function Model(): System
      requires Valid()
      reads mmu, ram, ram.cells, gpio
    {
      System(mmu.Model(), ram.Model(), gpio.Model())
    }

    constructor (initial: Cells, unknown: bv8)
      ensures Valid() && fresh(mmu) && fresh(ram) && fresh(ram.cells) && fresh(gpio) && PoweredUp(Model())
    {
      mmu := new MemoryUnit(unknown, 0, unknown, unknown, unknown);
      ram := new DataMemory(initial, unknown);
      gpio := new GpioPort();
    }

    /** Every block sees the registers of the others as they were before the clock. */
    method PosEdge(l: Lines)
      requires Valid()
      modifies mmu, ram, ram.cells, gpio
      ensures Model() == Clock(old(Model()), l)
    {
      hide GpioAfter, MmuAfter, RamReady;
      ghost var s := Model();
      RamReadyIs(s);
      var memoryReady := ram.Ready(mmu.address, mmu.dataIn, mmu.read, mmu.write);
      var memoryOut, ioReady, ioBus := ram.out, gpio.ready, gpio.bus;
      ram.PosEdge(mmu.address, mmu.dataIn, mmu.read, mmu.write);
      gpio.PosEdge(mmu.ioWrite, mmu.ioRead, mmu.ioAddress, mmu.ioData, l.pins, s);
      mmu.PosEdge(l, memoryReady, memoryOut, ioReady, ioBus, s);
    }
  }

  lemma RamReadyIs(s: System)
    ensures RamReady(s) <==> s.ram.lastAddress == s.mmu.address && s.ram.lastIn == s.mmu.dataIn &&
                             s.ram.lastRead == s.mmu.read && s.ram.lastWrite == s.mmu.write
  {}
}
