/** The memory controller of memory_control.py: word and block reads and
    writes through the driver, the polling wait, and the `request`
    dispatcher. The driver is the emulator's RAM (module Registers). */
module Controller {

  import opened Wrappers
  import opened Registers

  /** An element of a request list. The source's requests are Python lists
      whose elements are integers, except the data operand of opcode 4,
      which is a list of integers. */
  datatype Operand = Num(n: int) | Words(ws: seq<int>)

  /** An element of an answer list: a word, a flag, or a message. */
  datatype Val = IntV(i: int) | BoolV(b: bool) | StrV(s: string)

  const NoSuchRequest: seq<Val> := [StrV("there is no such request")]
  const ControllerError: seq<Val> := [StrV("Error in MemoryController")]

  /** The number of iterations of `range(n)`. */
  function Max0(n: int): nat {
    if n < 0 then 0 else n
  }

  function Ints(ws: seq<int>): (r: seq<Val>)
    ensures |r| == |ws| && forall i :: 0 <= i < |ws| ==> r[i] == IntV(ws[i])
  {
    seq(|ws|, i requires 0 <= i < |ws| => IntV(ws[i]))
  }

  // ---------------------------------------------------------------------
  // Block reads and writes

  /** `read_data(a, n, s)`: the list built by appending the words read at
      a, a + s, a + 2s, ... for i in range(n); None when some read fails. */
  function ReadBlock(st: RamState, a: int, n: int, s: int): (r: Option<seq<int>>)
    decreases Max0(n)
    ensures r.Some? <==> forall i :: 0 <= i < n ==> Read(st, BlockAddr(a, i, s)).Some?
    ensures r.Some? ==> |r.value| == Max0(n)
    ensures r.Some? ==> forall i :: 0 <= i < |r.value| ==> Read(st, BlockAddr(a, i, s)) == Some(r.value[i])
  {
    if n <= 0 then Some([])
    else match ReadBlock(st, a, n - 1, s)
      case None => None
      case Some(ws) =>
        match Read(st, BlockAddr(a, n - 1, s))
        case None => None
        case Some(w) => Some(ws + [w])
  }

  /** `write_data(a, ds, s)`: ds[i] written through the driver at a + i*s,
      in increasing i. */
  function WriteBlock(st: RamState, a: int, ds: seq<int>, s: int): RamState
    decreases |ds|
  {
    if ds == [] then st
    else Write(WriteBlock(st, a, ds[..|ds| - 1], s), BlockAddr(a, |ds| - 1, s), ds[|ds| - 1])
  }

  /** The data words of a block write whose address is the queue, in order. */
  function FifoHits(a: int, ds: seq<int>, s: int): seq<int>
    decreases |ds|
  {
    if ds == [] then []
    else FifoHits(a, ds[..|ds| - 1], s)
         + (if BlockAddr(a, |ds| - 1, s) == FifoAddr then [ds[|ds| - 1]] else [])
  }

  lemma {:induction false} WriteBlockWf(st: RamState, a: int, ds: seq<int>, s: int)
    requires Wf(st)
    ensures Wf(WriteBlock(st, a, ds, s))
  {
    if ds != [] {
      WriteBlockWf(st, a, ds[..|ds| - 1], s);
    }
  }

  /** The words of a block write aimed at the queue are enqueued in order;
      nothing is dequeued. */
  lemma {:induction false} WriteBlockFifo(st: RamState, a: int, ds: seq<int>, s: int)
    ensures WriteBlock(st, a, ds, s).fifo == st.fifo + FifoHits(a, ds, s)
  {
    if ds != [] {
      WriteBlockFifo(st, a, ds[..|ds| - 1], s);
    }
  }

  /** An address the block does not hit keeps what it held. */
  lemma {:induction false} WriteBlockUntouched(st: RamState, a: int, ds: seq<int>, s: int, x: int)
    requires forall i :: 0 <= i < |ds| ==> BlockAddr(a, i, s) != x
    ensures Read(WriteBlock(st, a, ds, s), x) == Read(st, x)
  {
    if ds != [] {
      WriteBlockUntouched(st, a, ds[..|ds| - 1], s, x);
    }
  }

  /** When several words of a block land on one word cell (for instance
      with stride 0) the last of them wins. */
  lemma {:induction false} WriteBlockLastWins(st: RamState, a: int, ds: seq<int>, s: int, j: int)
    requires 0 <= j < |ds| && BlockAddr(a, j, s) != FifoAddr
    requires forall i :: j < i < |ds| ==> BlockAddr(a, i, s) != BlockAddr(a, j, s)
    ensures Read(WriteBlock(st, a, ds, s), BlockAddr(a, j, s)) == Some(ds[j])
  {
    var ds' := ds[..|ds| - 1];
    if j < |ds| - 1 {
      WriteBlockLastWins(st, a, ds', s, j);
    }
  }

  /** With a non-zero stride the addresses of a block are distinct. */
  lemma DistinctAddrs(a: int, s: int, i: int, j: int)
    requires s != 0 && i != j
    ensures BlockAddr(a, i, s) != BlockAddr(a, j, s)
  {
    if i < j {
      assert (j - i) * s != 0;
    } else {
      assert (i - j) * s != 0;
    }
  }

  /** Every address a block write touched reads back afterwards. */
  lemma WriteBlockReadable(st: RamState, a: int, ds: seq<int>, s: int)
    ensures ReadBlock(WriteBlock(st, a, ds, s), a, |ds|, s).Some?
  {
    var st' := WriteBlock(st, a, ds, s);
    forall i | 0 <= i < |ds|
      ensures Read(st', BlockAddr(a, i, s)).Some?
    {
      var x := BlockAddr(a, i, s);
      if x != FifoAddr {
        var j := LastHit(a, ds, s, i);
        WriteBlockLastWins(st, a, ds, s, j);
      }
    }
  }

  /** The last index of the block whose address equals that of index i. */
  function LastHit(a: int, ds: seq<int>, s: int, i: int): (j: int)
    requires 0 <= i < |ds|
    decreases |ds| - i
    ensures i <= j < |ds| && BlockAddr(a, j, s) == BlockAddr(a, i, s)
    ensures forall k :: j < k < |ds| ==> BlockAddr(a, k, s) != BlockAddr(a, j, s)
  {
    if forall k :: i < k < |ds| ==> BlockAddr(a, k, s) != BlockAddr(a, i, s) then i
    else
      var k :| i < k < |ds| && BlockAddr(a, k, s) == BlockAddr(a, i, s);
      LastHit(a, ds, s, k)
  }

  /** A block written at distinct word cells reads back as written. */
  lemma WriteBlockReadBack(st: RamState, a: int, ds: seq<int>, s: int)
    requires s != 0 || |ds| <= 1
    requires forall i :: 0 <= i < |ds| ==> BlockAddr(a, i, s) != FifoAddr
    ensures ReadBlock(WriteBlock(st, a, ds, s), a, |ds|, s) == Some(ds)
  {
    var st' := WriteBlock(st, a, ds, s);
    forall i | 0 <= i < |ds|
      ensures Read(st', BlockAddr(a, i, s)) == Some(ds[i])
    {
      forall k | i < k < |ds|
        ensures BlockAddr(a, k, s) != BlockAddr(a, i, s)
      {
        DistinctAddrs(a, s, k, i);
      }
      WriteBlockLastWins(st, a, ds, s, i);
    }
    var r := ReadBlock(st', a, |ds|, s);
    assert r.Some?;
    assert r.value == ds;
  }

  // ---------------------------------------------------------------------
  // Polling

  /** The writes other actors make during the one-second sleep after a poll
      that did not match: the first entry of the environment, if any. */
  function Sleep(st: RamState, env: seq<map<int, int>>): RamState {
    if env == [] then st else Interfere(st, env[0])
  }

  function Drop(env: seq<map<int, int>>, k: nat): seq<map<int, int>> {
    if k <= |env| then env[k..] else []
  }

  /** The RAM after k sleeps. */
  function After(st: RamState, env: seq<map<int, int>>, k: nat): RamState
    decreases k
  {
    if k == 0 then st else After(Sleep(st, env), Drop(env, 1), k - 1)
  }

  /** What poll number k (counting from 0) reads. */
  function Seen(st: RamState, env: seq<map<int, int>>, a: int, k: nat): Option<int> {
    Read(After(st, env, k), a)
  }

  /** `wait_flag(a, v, t)`: read a, stop at the first read equal to v,
      sleep after every other read, at most t reads. The result is the
      answer (None when a read fails), the number of reads made, and the
      RAM at the end. */
  function Poll(st: RamState, a: int, v: int, t: int, env: seq<map<int, int>>): (r: (Option<bool>, nat, RamState))
    decreases Max0(t)
  {
    if t <= 0 then (Some(false), 0, st)
    else match Read(st, a)
      case None => (None, 1, st)
      case Some(w) =>
        if w == v then (Some(true), 1, st)
        else
          var r' := Poll(Sleep(st, env), a, v, t - 1, Drop(env, 1));
          (r'.0, r'.1 + 1, r'.2)
  }

  /** What `wait_flag` observes and answers: it reads at most t times;
      True means the last read matched and the earlier ones did not; False
      means all t reads were made and none matched; a fault means the last
      read failed. The RAM misses no sleep and gains no extra one. */
  lemma {:induction false} PollCharacterized(st: RamState, a: int, v: int, t: int, env: seq<map<int, int>>)
    ensures var (ans, k, st') := Poll(st, a, v, t, env);
      && k <= Max0(t)
      && (forall j :: 0 <= j < k - 1 ==> Seen(st, env, a, j).Some? && Seen(st, env, a, j) != Some(v))
      && (ans == Some(true) ==> 1 <= k && Seen(st, env, a, k - 1) == Some(v) && st' == After(st, env, k - 1))
      && (ans == None ==> 1 <= k && Seen(st, env, a, k - 1).None? && st' == After(st, env, k - 1))
      && (ans == Some(false) ==> k == Max0(t) && st' == After(st, env, k)
                                 && (k > 0 ==> Seen(st, env, a, k - 1).Some? && Seen(st, env, a, k - 1) != Some(v)))
    decreases Max0(t)
  {
    if t > 0 && Read(st, a).Some? && Read(st, a).value != v {
      var st1, env1 := Sleep(st, env), Drop(env, 1);
      PollCharacterized(st1, a, v, t - 1, env1);
      var (ans, k, st') := Poll(st, a, v, t, env);
      forall j | 1 <= j <= k
        ensures Seen(st, env, a, j) == Seen(st1, env1, a, j - 1)
        ensures After(st, env, j) == After(st1, env1, j - 1)
      {
      }
    }
  }

  /** wait_flag answers True exactly when some read within the budget
      matched before any read failed. */
  lemma PollTrueIff(st: RamState, a: int, v: int, t: int, env: seq<map<int, int>>)
    ensures Poll(st, a, v, t, env).0 == Some(true) <==>
      exists k :: 0 <= k < t && Seen(st, env, a, k) == Some(v)
                  && forall j :: 0 <= j < k ==> Seen(st, env, a, j).Some?
  {
    PollCharacterized(st, a, v, t, env);
    var (ans, n, st') := Poll(st, a, v, t, env);
    if ans == Some(true) {
      assert Seen(st, env, a, n - 1) == Some(v);
    } else if ans == None {
      forall k | 0 <= k < t
        ensures Seen(st, env, a, k) == Some(v) ==> exists j :: 0 <= j < k && Seen(st, env, a, j).None?
      {
        if k > n - 1 {
          assert Seen(st, env, a, n - 1).None?;
        }
      }
    } else {
      forall k | 0 <= k < t
        ensures Seen(st, env, a, k) != Some(v)
      {
        assert ans.Some?;
        assert ans.value == false;
        assert k <= n - 1;
        if k < n - 1 {
          assert Seen(st, env, a, k).Some? && Seen(st, env, a, k) != Some(v);
        }
      }
    }
  }

  /** Without other writers the answer depends on the first read only. */
  lemma PollQuiet(st: RamState, a: int, v: int, t: int)
    ensures var (ans, k, st') := Poll(st, a, v, t, []);
      st' == st
      && (t <= 0 ==> ans == Some(false) && k == 0)
      && (t > 0 && Read(st, a).None? ==> ans == None && k == 1)
      && (t > 0 && Read(st, a) == Some(v) ==> ans == Some(true) && k == 1)
      && (t > 0 && Read(st, a).Some? && Read(st, a) != Some(v) ==> ans == Some(false) && k == t)
    decreases Max0(t)
  {
    if t > 1 && Read(st, a).Some? && Read(st, a) != Some(v) {
      PollQuiet(st, a, v, t - 1);
    }
  }

  // ---------------------------------------------------------------------
  // Dispatch

  predicate IsOp(req: seq<Operand>, op: int) {
    |req| > 0 && req[0] == Num(op)
  }

  function NumOr0(x: Operand): int {
    if x.Num? then x.n else 0
  }

  /** `request(req)`: the answer to one request and the RAM afterwards.
      Every fault a Python exception would raise (a missing operand, a
      list where an integer is used, an address not in the dictionary)
      yields the error answer; a request whose first element is not one of
      the opcodes 1 to 5 yields the no-such-request answer. */
  function Dispatch(st: RamState, req: seq<Operand>, env: seq<map<int, int>>): (r: (RamState, seq<Val>))
    ensures |req| == 0 ==> r == (st, ControllerError)
    ensures |req| > 0 && !(exists op :: 1 <= op <= 5 && req[0] == Num(op)) ==> r == (st, NoSuchRequest)
    ensures IsOp(req, 1) || IsOp(req, 3) ==> r.0 == st
    ensures IsOp(req, 1) || IsOp(req, 2) || IsOp(req, 5) ==> |r.1| == 1
    ensures IsOp(req, 3) && |req| > 2 && r.1 != ControllerError ==> |r.1| == Max0(NumOr0(req[2])) && forall i :: 0 <= i < |r.1| ==> r.1[i].IntV?
    ensures IsOp(req, 4) && |req| > 2 && r.1 != ControllerError ==> req[2].Words? && |r.1| == |req[2].ws|
    ensures IsOp(req, 5) && r.1 != ControllerError ==> r.1[0].BoolV?
    ensures IsOp(req, 1) && (|req| < 2 || !req[1].Num?) ==> r == (st, ControllerError)
    ensures IsOp(req, 2) && (|req| < 3 || !req[1].Num? || !req[2].Num?) ==> r == (st, ControllerError)
    ensures IsOp(req, 3) && (|req| < 4 || !req[2].Num? || (req[2].n > 0 && (!req[1].Num? || !req[3].Num?)))
            ==> r == (st, ControllerError)
    ensures IsOp(req, 4) && (|req| < 4 || !req[2].Words? || (req[2].ws != [] && (!req[1].Num? || !req[3].Num?)))
            ==> r == (st, ControllerError)
    ensures IsOp(req, 5) && (|req| < 4 || !req[1].Num? || !req[2].Num? || !req[3].Num?) ==> r == (st, ControllerError)
    ensures Wf(st) ==> Wf(r.0)
  {
    if |req| == 0 then (st, ControllerError)
    else if req[0] == Num(1) then
      if |req| < 2 || !req[1].Num? then (st, ControllerError)
      else match Read(st, req[1].n)
        case None => (st, ControllerError)
        case Some(w) => (st, [IntV(w)])
    else if req[0] == Num(2) then
      if |req| < 3 || !req[1].Num? || !req[2].Num? then (st, ControllerError)
      else
        var a := req[1].n;
        var st' := Write(st, a, req[2].n);
        (st', [IntV(Read(st', a).value)])
    else if req[0] == Num(3) then
      if |req| < 4 || !req[2].Num? then (st, ControllerError)
      else if req[2].n > 0 && (!req[1].Num? || !req[3].Num?) then (st, ControllerError)
      else match ReadBlock(st, NumOr0(req[1]), req[2].n, NumOr0(req[3]))
        case None => (st, ControllerError)
        case Some(ws) => (st, Ints(ws))
    else if req[0] == Num(4) then
      if |req| < 4 || !req[2].Words? then (st, ControllerError)
      else
        var ds := req[2].ws;
        if ds != [] && (!req[1].Num? || !req[3].Num?) then (st, ControllerError)
        else
          var a, s := NumOr0(req[1]), NumOr0(req[3]);
          var st' := WriteBlock(st, a, ds, s);
          WriteBlockReadable(st, a, ds, s);
          if Wf(st) then WriteBlockWf(st, a, ds, s); (st', Ints(ReadBlock(st', a, |ds|, s).value))
          else (st', Ints(ReadBlock(st', a, |ds|, s).value))
    else if req[0] == Num(5) then
      if |req| < 4 || !req[1].Num? || !req[2].Num? || !req[3].Num? then (st, ControllerError)
      else
        var p := Poll(st, req[1].n, req[2].n, req[3].n, env);
        PollWf(st, req[1].n, req[2].n, req[3].n, env);
        match p.0
        case None => (p.2, ControllerError)
        case Some(b) => (p.2, [BoolV(b)])
    else (st, NoSuchRequest)
  }

  lemma {:induction false} PollWf(st: RamState, a: int, v: int, t: int, env: seq<map<int, int>>)
    ensures Wf(st) ==> Wf(Poll(st, a, v, t, env).2)
    decreases Max0(t)
  {
    if t > 0 && Read(st, a).Some? && Read(st, a).value != v {
      PollWf(Sleep(st, env), a, v, t - 1, Drop(env, 1));
    }
  }

  /** Opcode 1 answers the word at the address and changes nothing; an
      address outside the dictionary answers the error message. */
  lemma ReadWordAnswer(st: RamState, a: int, rest: seq<Operand>, env: seq<map<int, int>>)
    ensures Dispatch(st, [Num(1), Num(a)] + rest, env)
         == (st, if Read(st, a).Some? then [IntV(Read(st, a).value)] else ControllerError)
  {
    var req := [Num(1), Num(a)] + rest;
    assert req[0] == Num(1) && req[1] == Num(a);
  }

  /** Opcode 3 changes nothing and answers the block read, or the error
      message when some address of the block is outside the dictionary. */
  lemma ReadBlockAnswer(st: RamState, a: int, n: int, s: int, rest: seq<Operand>, env: seq<map<int, int>>)
    ensures Dispatch(st, [Num(3), Num(a), Num(n), Num(s)] + rest, env)
         == (st, match ReadBlock(st, a, n, s) case None => ControllerError case Some(ws) => Ints(ws))
  {
    var req := [Num(3), Num(a), Num(n), Num(s)] + rest;
    assert req[0] == Num(3) && req[1] == Num(a) && req[2] == Num(n) && req[3] == Num(s);
  }

  /** Opcode 5 answers what the polling loop found: its flag when it ran
      to an answer, the error message when a read failed; the RAM is the
      one the loop leaves after its sleeps. */
  lemma WaitAnswer(st: RamState, a: int, v: int, t: int, rest: seq<Operand>, env: seq<map<int, int>>)
    ensures var p := Poll(st, a, v, t, env);
      Dispatch(st, [Num(5), Num(a), Num(v), Num(t)] + rest, env)
      == (p.2, if p.0.Some? then [BoolV(p.0.value)] else ControllerError)
  {
    var req := [Num(5), Num(a), Num(v), Num(t)] + rest;
    assert req[0] == Num(5) && req[1] == Num(a) && req[2] == Num(v) && req[3] == Num(t);
  }

  /** Opcode 2 on a word cell answers the word it wrote; on the queue it
      enqueues the word and answers 0. */
  lemma WriteWordEcho(st: RamState, a: int, w: int, rest: seq<Operand>, env: seq<map<int, int>>)
    ensures var (st', ans) := Dispatch(st, [Num(2), Num(a), Num(w)] + rest, env);
      st' == Write(st, a, w)
      && (a != FifoAddr ==> ans == [IntV(w)])
      && (a == FifoAddr ==> ans == [IntV(0)] && st'.fifo == st.fifo + [w])
  {
  }

  /** Opcode 4 over distinct word cells answers the data it wrote. */
  lemma WriteBlockEcho(st: RamState, a: int, ds: seq<int>, s: int, rest: seq<Operand>, env: seq<map<int, int>>)
    requires s != 0 || |ds| <= 1
    requires forall i :: 0 <= i < |ds| ==> BlockAddr(a, i, s) != FifoAddr
    ensures Dispatch(st, [Num(4), Num(a), Words(ds), Num(s)] + rest, env) == (WriteBlock(st, a, ds, s), Ints(ds))
  {
    var req := [Num(4), Num(a), Words(ds), Num(s)] + rest;
    assert req[0] == Num(4) && req[1] == Num(a) && req[2] == Words(ds) && req[3] == Num(s);
    WriteBlockReadBack(st, a, ds, s);
  }

  /** Opcode 4 aimed at the queue with stride 0 enqueues every word, in
      order, and answers one 0 per word. */
  lemma PostToFifo(st: RamState, ds: seq<int>, rest: seq<Operand>, env: seq<map<int, int>>)
    ensures var (st', ans) := Dispatch(st, [Num(4), Num(FifoAddr), Words(ds), Num(0)] + rest, env);
      st'.fifo == st.fifo + ds && st'.cells == st.cells
      && ans == seq(|ds|, i => IntV(0))
  {
    var req := [Num(4), Num(FifoAddr), Words(ds), Num(0)] + rest;
    var st' := WriteBlock(st, FifoAddr, ds, 0);
    assert st'.fifo == st.fifo + ds && st'.cells == st.cells by {
      WriteBlockFifo(st, FifoAddr, ds, 0);
      FifoHitsAll(ds);
      WriteBlockCellsAtFifo(st, ds);
    }
    var ws := ReadBlock(st', FifoAddr, |ds|, 0);
    assert ws == Some(seq(|ds|, i => 0)) by {
      WriteBlockReadable(st, FifoAddr, ds, 0);
      assert ws.Some?;
      assert |ws.value| == |ds|;
      forall i | 0 <= i < |ds|
        ensures ws.value[i] == 0
      {
        assert BlockAddr(FifoAddr, i, 0) == FifoAddr;
        assert Read(st', BlockAddr(FifoAddr, i, 0)) == Some(ws.value[i]);
      }
      assert ws.value == seq(|ds|, i => 0);
    }
    assert Ints(ws.value) == seq(|ds|, i => IntV(0));
    assert req[0] == Num(4) && req[1] == Num(FifoAddr) && req[2] == Words(ds) && req[3] == Num(0);
    assert Dispatch(st, req, env).0 == st' && Dispatch(st, req, env).1 == Ints(ws.value);
  }

  lemma {:induction false} FifoHitsAll(ds: seq<int>)
    ensures FifoHits(FifoAddr, ds, 0) == ds
  {
    if ds != [] {
      FifoHitsAll(ds[..|ds| - 1]);
      assert ds == ds[..|ds| - 1] + [ds[|ds| - 1]];
    }
  }

  lemma {:induction false} WriteBlockCellsAtFifo(st: RamState, ds: seq<int>)
    ensures WriteBlock(st, FifoAddr, ds, 0).cells == st.cells
  {
    if ds != [] {
      WriteBlockCellsAtFifo(st, ds[..|ds| - 1]);
    }
  }

  // ---------------------------------------------------------------------
  // The controller object

  /** `MemoryController`, whose driver is the emulator's RAM. */
  class MemoryController {
    const driver: Ram

    constructor (driver: Ram)
      ensures this.driver == driver
    {
      this.driver := driver;
    }

    /** `read_word(address)`. */
    method ReadWord(address: int) returns (word: Option<int>)
      ensures word == Read(driver.State(), address)
    {
      word := driver.ReadData(address);
    }

    /** `write_word(address, word)`. */
    method WriteWord(address: int, word: int)
      modifies driver
      ensures driver.State() == Write(old(driver.State()), address, word)
    {
      driver.WriteData(address, word);
    }

    /** `read_data(address, num_elements, shift)`. */
    method ReadData(address: int, numElements: int, shift: int) returns (data: Option<seq<int>>)
      ensures data == ReadBlock(driver.State(), address, numElements, shift)
      ensures data.Some? ==> |data.value| == Max0(numElements)
    {
      var words := [];
      var i := 0;
      while i < numElements
        invariant 0 <= i <= Max0(numElements)
        invariant ReadBlock(driver.State(), address, i, shift) == Some(words)
      {
        var w := ReadWord(BlockAddr(address, i, shift));
        if w.None? {
          return None;
        }
        words := words + [w.value];
        i := i + 1;
      }
      data := Some(words);
    }

    /** `write_data(address, data, shift)`. */
    method WriteData(address: int, data: seq<int>, shift: int)
      modifies driver
      ensures driver.State() == WriteBlock(old(driver.State()), address, data, shift)
    {
      var i := 0;
      while i < |data|
        invariant 0 <= i <= |data|
        invariant driver.State() == WriteBlock(old(driver.State()), address, data[..i], shift)
      {
        WriteWord(BlockAddr(address, i, shift), data[i]);
        assert data[..i + 1][..i] == data[..i];
        i := i + 1;
      }
      assert data[..i] == data;
    }

    /** `wait_flag(address, value, timing)`; env[i] are the writes other
        actors make during the i-th sleep. */
    method WaitFlag(address: int, value: int, timing: int, env: seq<map<int, int>>)
      returns (ready: Option<bool>, polls: nat)
      modifies driver
      ensures (ready, polls, driver.State()) == Poll(old(driver.State()), address, value, timing, env)
    {
      ghost var goal := Poll(driver.State(), address, value, timing, env);
      ready := Some(false);
      var i := 0;
      while i < timing
        invariant 0 <= i <= Max0(timing)
        invariant var p := Poll(driver.State(), address, value, timing - i, Drop(env, i));
          p.0 == goal.0 && p.1 + i == goal.1 && p.2 == goal.2
      {
        var w := ReadWord(address);
        if w.None? {
          ready, polls := None, i + 1;
          return;
        }
        if w.value == value {
          ready, polls := Some(true), i + 1;
          return;
        }
        if i < |env| {
          driver.Interleave(env[i]);
        }
        assert Drop(Drop(env, i), 1) == Drop(env, i + 1);
        i := i + 1;
      }
      polls := Max0(timing);
    }

    /** `request(request)`. */
    method Request(request: seq<Operand>, env: seq<map<int, int>>) returns (answer: seq<Val>)
      modifies driver
      ensures (driver.State(), answer) == Dispatch(old(driver.State()), request, env)
    {
      if |request| == 0 {
        answer := ControllerError;
      } else if request[0] == Num(1) {
        if |request| < 2 || !request[1].Num? {
          answer := ControllerError;
        } else {
          var w := ReadWord(request[1].n);
          answer := if w.Some? then [IntV(w.value)] else ControllerError;
        }
      } else if request[0] == Num(2) {
        if |request| < 3 || !request[1].Num? || !request[2].Num? {
          answer := ControllerError;
        } else {
          WriteWord(request[1].n, request[2].n);
          var w := ReadWord(request[1].n);
          answer := [IntV(w.value)];
        }
      } else if request[0] == Num(3) {
        if |request| < 4 || !request[2].Num? {
          answer := ControllerError;
        } else if request[2].n > 0 && (!request[1].Num? || !request[3].Num?) {
          answer := ControllerError;
        } else {
          var ws := ReadData(NumOr0(request[1]), request[2].n, NumOr0(request[3]));
          answer := if ws.Some? then Ints(ws.value) else ControllerError;
        }
      } else if request[0] == Num(4) {
        if |request| < 4 || !request[2].Words? {
          answer := ControllerError;
        } else if request[2].ws != [] && (!request[1].Num? || !request[3].Num?) {
          answer := ControllerError;
        } else {
          var a, ds, s := NumOr0(request[1]), request[2].ws, NumOr0(request[3]);
          WriteData(a, ds, s);
          WriteBlockReadable(old(driver.State()), a, ds, s);
          var ws := ReadData(a, |ds|, s);
          answer := Ints(ws.value);
        }
      } else if request[0] == Num(5) {
        if |request| < 4 || !request[1].Num? || !request[2].Num? || !request[3].Num? {
          answer := ControllerError;
        } else {
          var ready, polls := WaitFlag(request[1].n, request[2].n, request[3].n, env);
          answer := if ready.Some? then [BoolV(ready.value)] else ControllerError;
        }
      } else {
        answer := NoSuchRequest;
      }
    }
  }
}
