/** The emulator's RAM (emulator.py, lines 131-167): a dictionary of word cells
    over a window of 30000 addresses starting at 0xC0000000, whose entry at
    0xC0000010 is a queue instead of a word, and the two driver callables
    `read_data` and `write_data` that stand in for the C library. */
module Registers {

  import opened Wrappers

  const Base: int := 0xC000_0000
  const CellCount: int := 30000

  /** The device register map. */
  const StatusAddr: int := 0xC000_0000
  const ResultIdAddr: int := 0xC000_0004
  const FifoAddr: int := 0xC000_0010
  const TestBlockAddr: int := 0xC000_0040
  const ProgramResultAddr: int := 0xC000_0080
  const HistoryAddr: int := 0xC000_4000

  /** The RAM as a value: the word cells and the contents of the queue that
      sits at FifoAddr, oldest first. */
  datatype RamState = RamState(cells: map<int, int>, fifo: seq<int>)

  /** The queue address never holds a word: nobody assigns a word to it. */
  predicate Wf(st: RamState) {
    FifoAddr !in st.cells
  }

  /** The word every provisioned cell holds when the emulator starts. */
  function InitialWord(a: int): int {
    0
  }

  /** The RAM as the emulator creates it at import time. */
  function InitialState(): (st: RamState)
    ensures Wf(st) && st.fifo == []
    ensures forall a :: a in st.cells <==> Base <= a < Base + CellCount && a != FifoAddr
    ensures forall a :: a in st.cells ==> st.cells[a] == 0
  {
    RamState(map a | Base <= a < Base + CellCount && a != FifoAddr :: InitialWord(a), [])
  }

  /** A driver read (`read_data.__call__`): the queue address reads as 0 and
      leaves the queue alone, any other address reads its cell, and an
      address that is not in the dictionary fails (a KeyError). */
  function Read(st: RamState, a: int): (r: Option<int>)
    ensures a == FifoAddr ==> r == Some(0)
    ensures a != FifoAddr && a in st.cells ==> r == Some(st.cells[a])
    ensures a != FifoAddr && a !in st.cells ==> r == None
  {
    if a == FifoAddr then Some(0)
    else if a in st.cells then Some(st.cells[a])
    else None
  }

  /** A plain assignment `RAM[a] = w` to a word cell, as the device does it. */
  function Store(st: RamState, a: int, w: int): (r: RamState)
    requires a != FifoAddr
    ensures Wf(st) ==> Wf(r)
    ensures r.fifo == st.fifo
    ensures Read(r, a) == Some(w)
    ensures forall b :: b != a ==> Read(r, b) == Read(st, b)
  {
    RamState(st.cells[a := w], st.fifo)
  }

  /** A driver write (`write_data.__call__`): a write to the queue address
      enqueues the value; any other write overwrites the cell, adding it to
      the dictionary if it was not there. */
  function Write(st: RamState, a: int, w: int): (r: RamState)
    ensures Wf(st) ==> Wf(r)
    ensures a == FifoAddr ==> r.cells == st.cells && r.fifo == st.fifo + [w]
    ensures a != FifoAddr ==> r.fifo == st.fifo && Read(r, a) == Some(w)
    ensures forall b :: b != a ==> Read(r, b) == Read(st, b)
  {
    if a == FifoAddr then RamState(st.cells, st.fifo + [w]) else Store(st, a, w)
  }

  /** `queue.get()` on the FIFO, for a queue that holds something. */
  function Dequeue(st: RamState): (r: (int, RamState))
    requires st.fifo != []
    ensures [r.0] + r.1.fifo == st.fifo
    ensures r.1.cells == st.cells
  {
    (st.fifo[0], RamState(st.cells, st.fifo[1..]))
  }

  /** Writes made by other actors (the device thread) while the client
      sleeps: they update word cells and never replace the queue. */
  function Interfere(st: RamState, m: map<int, int>): (r: RamState)
    ensures Wf(st) ==> Wf(r)
    ensures r.fifo == st.fifo
    ensures forall b :: b in m && b != FifoAddr ==> Read(r, b) == Some(m[b])
    ensures forall b :: b !in m ==> Read(r, b) == Read(st, b)
  {
    RamState(st.cells + (m - {FifoAddr}), st.fifo)
  }

  /** The address of word `i` of a block that starts at `a` with stride `s`. */
  function BlockAddr(a: int, i: int, s: int): int {
    a + i * s
  }

  /** The module-level `RAM` dictionary, updated in place by the driver and
      by the device. */
  class Ram {
    var cells: map<int, int>
    var fifo: seq<int>

    function State(): RamState
      reads this
    {
      RamState(cells, fifo)
    }

    /** The queue address is never a word cell; every method keeps this. */
    ghost predicate Valid()
      reads this
    {
      Wf(State())
    }

    constructor ()
      ensures State() == InitialState() && Valid()
    {
      cells := map a | Base <= a < Base + CellCount && a != FifoAddr :: InitialWord(a);
      fifo := [];
    }

    /** `read_data.__call__(addr)`. */
    method ReadData(addr: int) returns (r: Option<int>)
      ensures r == Read(State(), addr)
    {
      if addr == FifoAddr {
        r := Some(0);
      } else if addr in cells {
        r := Some(cells[addr]);
      } else {
        r := None;
      }
    }

    /** `write_data.__call__(addr, data)`. */
    method WriteData(addr: int, data: int)
      modifies this
      ensures State() == Write(old(State()), addr, data)
      ensures old(Valid()) ==> Valid()
    {
      if addr == FifoAddr {
        fifo := fifo + [data];
      } else {
        cells := cells[addr := data];
      }
    }

    /** The writes other actors make while the client sleeps. */
    method Interleave(m: map<int, int>)
      modifies this
      ensures State() == Interfere(old(State()), m)
      ensures old(Valid()) ==> Valid()
    {
      cells := cells + (m - {FifoAddr});
    }

    /** `RAM[addr] = word`, the device's own assignment to a word cell. */
    method Assign(addr: int, word: int)
      requires addr != FifoAddr
      modifies this
      ensures State() == Store(old(State()), addr, word)
      ensures old(Valid()) ==> Valid()
    {
      cells := cells[addr := word];
    }

    /** `RAM[0xC0000010].get()` when the queue is not empty; an empty queue
        is dealt with by the caller, where the device thread would block. */
    method Get() returns (v: int)
      requires fifo != []
      modifies this
      ensures (v, State()) == Dequeue(old(State()))
      ensures old(Valid()) ==> Valid()
    {
      v := fifo[0];
      fifo := fifo[1..];
    }
  }
}
