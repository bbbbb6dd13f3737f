/** The simulated FPGA of emulator.py (class FPGA, lines 8-129): a loop that
    takes device modes from the queue at 0xC0000010, a self-test mode that
    fills 16 result words, and a program mode that takes a command word
    from the queue, decodes it, and writes a resistance ramp. */
module Device {

  import opened Wrappers
  import opened Registers

  const SelfTestMode: int := 0xA1
  const ProgramMode: int := 0xB2
  const StopMode: int := 777

  const NoResult: int := 0
  const SelfTestDone: int := 1
  const ProgramDone: int := 2

  const TestWords: nat := 16
  const RampLength: nat := 461

  /** A value `random.randint(0, 4095)` can return. */
  type Code = x: int | 0 <= x < 4096

  /** Where the device thread is. NotStarted: `run` has not begun.
      AwaitingMode: blocked on the queue in `run`'s loop. AwaitingWord:
      blocked on the queue inside `work(0xB2)`, waiting for the command
      word. Stopped: `run` left its loop after reading 777. */
  datatype Phase = NotStarted | AwaitingMode | AwaitingWord | Stopped

  /** The device and the RAM it owns, as a value. `drawn` counts the
      random numbers drawn so far. */
  datatype Dev = Dev(ram: RamState, phase: Phase, drawn: nat)

  // ---------------------------------------------------------------------
  // The command word

  /** The five fields of a programming command word. */
  datatype Command = Command(target: int, tolerance: int, attempts: int, history: int, element: int)

  /** The masks and shifts of `work(0xB2)`: target bits 0-11, tolerance
      bits 12-23, attempts bits 24-26, history flag bit 27, element bits
      28-31. For every integer (negative ones included), `(w & m) >> k` on
      Python's integers is `(w / 2^k) % 2^width` with floor division. */
  function DecodeCommand(w: int): (c: Command)
    ensures 0 <= c.target < 0x1000 && 0 <= c.tolerance < 0x1000
    ensures 0 <= c.attempts < 8 && 0 <= c.history < 2 && 0 <= c.element < 16
  {
    Command(w % 0x1000,
            (w / 0x1000) % 0x1000,
            (w / 0x100_0000) % 8,
            (w / 0x800_0000) % 2,
            (w / 0x1000_0000) % 16)
  }

  // ---------------------------------------------------------------------
  // The ramp

  /** `step = 4095 / 461`, as an exact rational. */
  const Step: real := 4095.0 / 461.0

  /** `num = int((target_R * 461) / 4095)` for a non-negative target. */
  function StepCount(target: int): int {
    (target * 461) / 4095
  }

  /** `int(resistance)` after k steps of the ramp. */
  function Ramp(k: nat): int {
    ((k as real) * Step).Floor
  }

  /** The history words the ramp writes: word i is the ramp after i + 1
      steps. */
  function RampSeq(n: nat): (r: seq<int>)
    ensures |r| == n && forall i :: 0 <= i < n ==> r[i] == Ramp(i + 1)
  {
    seq(n, (i: int) requires 0 <= i => Ramp(i + 1))
  }

  /** A 12-bit target asks for at most 461 steps, so the history fits its
      461-word buffer. */
  lemma StepCountBound(target: int)
    requires 0 <= target < 0x1000
    ensures 0 <= StepCount(target) <= RampLength
  {
    assert target * 461 <= 4095 * 461;
  }

  /** The ramp never decreases. */
  lemma RampMonotone(i: nat, j: nat)
    requires i <= j
    ensures Ramp(i) <= Ramp(j)
  {
    assert (i as real) * Step <= (j as real) * Step;
  }

  /** Over 461 steps the ramp stays within the 12-bit range and ends at
      4095. */
  lemma RampRange(k: nat)
    requires k <= RampLength
    ensures 0 <= Ramp(k) <= 4095
    ensures k == RampLength ==> Ramp(k) == 4095
  {
    assert (k as real) * Step <= 461.0 * Step;
    assert 461.0 * Step == 4095.0;
  }

  /** The final ramp value undershoots the target by less than ten codes
      and never overshoots it. */
  lemma RampReachesTarget(target: int)
    requires 0 <= target
    ensures target - 9 <= Ramp(StepCount(target)) <= target
  {
    var n := StepCount(target);
    assert n * 4095 <= target * 461 < (n + 1) * 4095;
    var x := (n as real) * Step;
    assert x * 461.0 == (n * 4095) as real;
    assert x <= target as real;
    assert ((n + 1) * 4095) as real > (target * 461) as real;
    assert x + Step > target as real;
    assert Step < 9.0;
  }

  /** A target code of 2000 takes 225 steps and ends the ramp at 1998. */
  lemma RampExample()
    ensures StepCount(2000) == 225 && Ramp(225) == 1998
  {
    assert (225 as real) * Step == 921375.0 / 461.0;
  }

  // ---------------------------------------------------------------------
  // Writes by the device

  /** Words written at base, base + 4, base + 8, ... in order. */
  function StoreSeq(st: RamState, base: int, vals: seq<int>): (r: RamState)
    requires base > FifoAddr
    decreases |vals|
    ensures r.fifo == st.fifo
    ensures Wf(st) ==> Wf(r)
  {
    if vals == [] then st
    else Store(StoreSeq(st, base, vals[..|vals| - 1]), BlockAddr(base, |vals| - 1, 4), vals[|vals| - 1])
  }

  /** One more step of the ramp adds one history word. */
  lemma RampSeqSnoc(st: RamState, i: nat)
    ensures StoreSeq(st, HistoryAddr, RampSeq(i + 1))
         == Store(StoreSeq(st, HistoryAddr, RampSeq(i)), BlockAddr(HistoryAddr, i, 4), Ramp(i + 1))
  {
    assert RampSeq(i + 1)[..i] == RampSeq(i);
  }

  /** Word i of the sequence lands at base + 4i. */
  lemma {:induction false} StoreSeqAt(st: RamState, base: int, vals: seq<int>, i: int)
    requires base > FifoAddr && 0 <= i < |vals|
    ensures Read(StoreSeq(st, base, vals), BlockAddr(base, i, 4)) == Some(vals[i])
  {
    if i < |vals| - 1 {
      assert vals[..|vals| - 1][i] == vals[i];
      StoreSeqAt(st, base, vals[..|vals| - 1], i);
    }
  }

  /** An address outside the aligned range [base, base + 4|vals|) keeps
      what it held. */
  lemma {:induction false} StoreSeqElse(st: RamState, base: int, vals: seq<int>, x: int)
    requires base > FifoAddr
    requires !(base <= x < base + 4 * |vals| && (x - base) % 4 == 0)
    ensures Read(StoreSeq(st, base, vals), x) == Read(st, x)
  {
    if vals != [] {
      StoreSeqElse(st, base, vals[..|vals| - 1], x);
      assert BlockAddr(base, |vals| - 1, 4) != x;
    }
  }

  /** The random numbers the self test draws, starting with draw k. */
  function Draws(rng: nat -> Code, k: nat): (r: seq<int>)
    ensures |r| == TestWords && forall i :: 0 <= i < TestWords ==> 0 <= r[i] < 4096
  {
    seq(TestWords, (i: int) requires 0 <= i => rng(k + i))
  }

  /** `busy()` then `set_result_id(0)`. */
  function Started(st: RamState): RamState {
    Store(Store(st, StatusAddr, 0), ResultIdAddr, NoResult)
  }

  /** `work(0xA1)`: busy, no result, the 16 words, result 1, ready. */
  function SelfTestSpec(st: RamState, vals: seq<int>): RamState
    requires |vals| == TestWords
  {
    Store(Store(StoreSeq(Started(st), TestBlockAddr, vals), ResultIdAddr, SelfTestDone), StatusAddr, 1)
  }

  /** The part of `work(0xB2)` after the command word has been taken from
      the queue: the history (only with the history flag), the final ramp
      value, result 2, ready. */
  function ProgramFinish(st: RamState, word: int): (r: RamState)
    ensures r.fifo == st.fifo
    ensures Wf(st) ==> Wf(r)
  {
    var c := DecodeCommand(word);
    var n := StepCount(c.target);
    var st1 := if c.history == 1 then StoreSeq(st, HistoryAddr, RampSeq(n)) else st;
    Store(Store(Store(st1, ProgramResultAddr, Ramp(n)), ResultIdAddr, ProgramDone), StatusAddr, 1)
  }

  /** The addresses the device writes. */
  predicate DeviceAddr(a: int) {
    || a == StatusAddr || a == ResultIdAddr || a == ProgramResultAddr
    || (TestBlockAddr <= a < TestBlockAddr + 4 * TestWords && (a - TestBlockAddr) % 4 == 0)
    || (HistoryAddr <= a < HistoryAddr + 4 * RampLength && (a - HistoryAddr) % 4 == 0)
  }

  /** After the self test the 16 result words hold the draws, each in
      [0, 4095]; the result id is 1 and the status 1; no cell outside the
      device's registers and not the queue changes (SelfTestFrame gives the
      exact frame). */
  lemma SelfTestEffect(st: RamState, vals: seq<int>)
    requires |vals| == TestWords
    ensures var r := SelfTestSpec(st, vals);
      && r.fifo == st.fifo
      && Read(r, StatusAddr) == Some(1)
      && Read(r, ResultIdAddr) == Some(SelfTestDone)
      && (forall i :: 0 <= i < TestWords ==> Read(r, BlockAddr(TestBlockAddr, i, 4)) == Some(vals[i]))
      && (forall x :: !DeviceAddr(x) ==> Read(r, x) == Read(st, x))
  {
    var r := SelfTestSpec(st, vals);
    forall i | 0 <= i < TestWords
      ensures Read(r, BlockAddr(TestBlockAddr, i, 4)) == Some(vals[i])
    {
      StoreSeqAt(Started(st), TestBlockAddr, vals, i);
    }
    forall x | !DeviceAddr(x)
      ensures Read(r, x) == Read(st, x)
    {
      StoreSeqElse(Started(st), TestBlockAddr, vals, x);
    }
  }

  /** What the program mode leaves behind for command word `word`: with
      num = floor(target * 461 / 4095) steps, the history words at
      0xC0004000 + 4i for i < num hold the ramp when, and only when, bit 27
      is set; 0xC0000080 holds the final ramp value; result id 2, status
      1; no cell outside the device's registers and not the queue changes
      (ProgramFrame gives the exact frame). */
  lemma ProgramEffect(st: RamState, word: int)
    ensures var r := ProgramFinish(st, word);
      var c := DecodeCommand(word);
      var n := StepCount(c.target);
      && 0 <= n <= RampLength
      && r.fifo == st.fifo
      && Read(r, StatusAddr) == Some(1)
      && Read(r, ResultIdAddr) == Some(ProgramDone)
      && Read(r, ProgramResultAddr) == Some(Ramp(n))
      && (c.history == 1 ==> forall i :: 0 <= i < n ==> Read(r, BlockAddr(HistoryAddr, i, 4)) == Some(Ramp(i + 1)))
      && (forall i :: n <= i < RampLength ==> Read(r, BlockAddr(HistoryAddr, i, 4)) == Read(st, BlockAddr(HistoryAddr, i, 4)))
      && (c.history != 1 ==> forall i :: 0 <= i < RampLength ==> Read(r, BlockAddr(HistoryAddr, i, 4)) == Read(st, BlockAddr(HistoryAddr, i, 4)))
      && (forall x :: !DeviceAddr(x) ==> Read(r, x) == Read(st, x))
  {
    var c := DecodeCommand(word);
    var n := StepCount(c.target);
    StepCountBound(c.target);
    var r := ProgramFinish(st, word);
    if c.history == 1 {
      forall i | 0 <= i < n
        ensures Read(r, BlockAddr(HistoryAddr, i, 4)) == Some(Ramp(i + 1))
      {
        StoreSeqAt(st, HistoryAddr, RampSeq(n), i);
      }
      forall x | !DeviceAddr(x)
        ensures Read(r, x) == Read(st, x)
      {
        StoreSeqElse(st, HistoryAddr, RampSeq(n), x);
      }
      forall i | n <= i < RampLength
        ensures Read(r, BlockAddr(HistoryAddr, i, 4)) == Read(st, BlockAddr(HistoryAddr, i, 4))
      {
        StoreSeqElse(st, HistoryAddr, RampSeq(n), BlockAddr(HistoryAddr, i, 4));
      }
    }
  }

  /** The self test writes only the status, the result id and the 16
      result words: every other cell, device registers included, keeps
      what it held. */
  lemma SelfTestFrame(st: RamState, vals: seq<int>)
    requires |vals| == TestWords
    ensures forall x :: x != StatusAddr && x != ResultIdAddr
                        && !(TestBlockAddr <= x < TestBlockAddr + 4 * TestWords && (x - TestBlockAddr) % 4 == 0)
                        ==> Read(SelfTestSpec(st, vals), x) == Read(st, x)
  {
    forall x | x != StatusAddr && x != ResultIdAddr
               && !(TestBlockAddr <= x < TestBlockAddr + 4 * TestWords && (x - TestBlockAddr) % 4 == 0)
      ensures Read(SelfTestSpec(st, vals), x) == Read(st, x)
    {
      StoreSeqElse(Started(st), TestBlockAddr, vals, x);
    }
  }

  /** Program mode writes only the status, the result id, 0xC0000080 and,
      with the history flag, the first num history words: every other
      cell, the self test's result words included, keeps what it held. */
  lemma ProgramFrame(st: RamState, word: int)
    ensures var c := DecodeCommand(word);
      var n := StepCount(c.target);
      forall x :: x != StatusAddr && x != ResultIdAddr && x != ProgramResultAddr
                  && !(c.history == 1 && HistoryAddr <= x < HistoryAddr + 4 * n && (x - HistoryAddr) % 4 == 0)
                  ==> Read(ProgramFinish(st, word), x) == Read(st, x)
  {
    var c := DecodeCommand(word);
    var n := StepCount(c.target);
    forall x | x != StatusAddr && x != ResultIdAddr && x != ProgramResultAddr
               && !(c.history == 1 && HistoryAddr <= x < HistoryAddr + 4 * n && (x - HistoryAddr) % 4 == 0)
      ensures Read(ProgramFinish(st, word), x) == Read(st, x)
    {
      if c.history == 1 {
        StoreSeqElse(st, HistoryAddr, RampSeq(n), x);
      }
    }
  }

  /** Program mode leaves the self test's 16 result words as they were. */
  lemma ProgramKeepsTestBlock(st: RamState, word: int)
    ensures forall i :: 0 <= i < TestWords ==>
              Read(ProgramFinish(st, word), BlockAddr(TestBlockAddr, i, 4)) == Read(st, BlockAddr(TestBlockAddr, i, 4))
  {
    ProgramFrame(st, word);
  }

  // ---------------------------------------------------------------------
  // The device loop

  /** `work(mode)` for a mode `run` has just taken from the queue. */
  function WorkSpec(d: Dev, mode: int, rng: nat -> Code): (r: Dev)
    requires d.phase == AwaitingMode
    ensures |r.ram.fifo| <= |d.ram.fifo|
    ensures mode != SelfTestMode && mode != ProgramMode ==> r == d
    ensures mode == ProgramMode && d.ram.fifo != [] ==> r.phase == AwaitingMode && r.ram.fifo == d.ram.fifo[1..]
    ensures mode == ProgramMode && d.ram.fifo == [] ==> r.phase == AwaitingWord && r.ram == Started(d.ram)
  {
    if mode == SelfTestMode then
      Dev(SelfTestSpec(d.ram, Draws(rng, d.drawn)), AwaitingMode, d.drawn + TestWords)
    else if mode == ProgramMode then
      var st := Started(d.ram);
      if st.fifo == [] then Dev(st, AwaitingWord, d.drawn)
      else
        var (w, st') := Dequeue(st);
        Dev(ProgramFinish(st', w), AwaitingMode, d.drawn)
    else d
  }

  /** What the two modes of `work` do: 0xA1 runs the self test on the next
      16 draws and advances the draw counter by 16; 0xB2 marks the device
      busy and, when the queue holds a value, runs program mode on it. */
  lemma WorkModes(d: Dev, mode: int, rng: nat -> Code)
    requires d.phase == AwaitingMode
    ensures var r := WorkSpec(d, mode, rng);
      && (mode == ProgramMode && d.ram.fifo != [] ==>
            r == Dev(ProgramFinish(Dequeue(Started(d.ram)).1, d.ram.fifo[0]), AwaitingMode, d.drawn))
      && (mode == SelfTestMode ==>
            r == Dev(SelfTestSpec(d.ram, Draws(rng, d.drawn)), AwaitingMode, d.drawn + TestWords))
  {
  }

  /** The device is blocked in a `get()` that has a value to take. */
  predicate Active(d: Dev) {
    d.ram.fifo != [] && (d.phase == AwaitingMode || d.phase == AwaitingWord)
  }

  /** One value taken from the queue: the command word a waiting program
      mode asked for, 777 (which ends the loop), or the next mode. */
  function Next(d: Dev, rng: nat -> Code): (r: Dev)
    requires Active(d)
    ensures |r.ram.fifo| < |d.ram.fifo|
  {
    var (v, st) := Dequeue(d.ram);
    if d.phase == AwaitingWord then Dev(ProgramFinish(st, v), AwaitingMode, d.drawn)
    else if v == StopMode then Dev(st, Stopped, d.drawn)
    else WorkSpec(Dev(st, AwaitingMode, d.drawn), v, rng)
  }

  /** `run`'s loop from where the device is: take values from the queue in
      order until 777 is taken in place of a mode, or until the queue is
      empty (where the thread blocks). */
  function Serve(d: Dev, rng: nat -> Code): Dev
    decreases |d.ram.fifo|
  {
    if Active(d) then Serve(Next(d, rng), rng) else d
  }

  /** `run`: `ready()` when the thread starts, then the loop. */
  function RunSpec(d: Dev, rng: nat -> Code): Dev {
    Serve(if d.phase == NotStarted then Dev(Store(d.ram, StatusAddr, 1), AwaitingMode, d.drawn) else d, rng)
  }

  /** The status protocol: a device waiting for a mode (or stopped) shows
      ready (1); a device waiting for a command word shows busy (0) and no
      result. */
  ghost predicate Handshake(d: Dev) {
    && (d.phase == AwaitingMode || d.phase == Stopped ==> Read(d.ram, StatusAddr) == Some(1))
    && (d.phase == AwaitingWord ==> Read(d.ram, StatusAddr) == Some(0) && Read(d.ram, ResultIdAddr) == Some(NoResult))
  }

  /** `a` is what is left of the queue `b` after values were taken from its
      front. */
  predicate Suffix(a: seq<int>, b: seq<int>) {
    |a| <= |b| && a == b[|b| - |a|..]
  }

  /** One step keeps the status protocol, touches only the device's
      registers, and takes values from the front of the queue only. */
  lemma NextInvariant(d: Dev, rng: nat -> Code)
    requires Active(d) && Handshake(d)
    ensures var r := Next(d, rng);
      && Handshake(r)
      && (forall x :: !DeviceAddr(x) ==> Read(r.ram, x) == Read(d.ram, x))
      && Suffix(r.ram.fifo, d.ram.fifo)
      && r.phase != NotStarted
  {
    NextProtocol(d, rng);
    NextFrame(d, rng);
  }

  /** One step keeps the status protocol and never returns the device to
      before `run`. */
  lemma NextProtocol(d: Dev, rng: nat -> Code)
    requires Active(d) && Handshake(d)
    ensures var r := Next(d, rng);
      && Handshake(r)
      && r.phase != NotStarted
  {
    var (v, st) := Dequeue(d.ram);
    if d.phase == AwaitingWord {
      FinishKeeps(st, v, d.drawn);
    } else if v != StopMode {
      WorkKeeps(Dev(st, AwaitingMode, d.drawn), v, rng);
    }
  }

  /** One step touches only the device's registers and takes values from
      the front of the queue only. */
  lemma NextFrame(d: Dev, rng: nat -> Code)
    requires Active(d) && Handshake(d)
    ensures var r := Next(d, rng);
      && (forall x :: !DeviceAddr(x) ==> Read(r.ram, x) == Read(d.ram, x))
      && Suffix(r.ram.fifo, d.ram.fifo)
  {
    var (v, st) := Dequeue(d.ram);
    var r := Next(d, rng);
    if d.phase == AwaitingWord {
      assert r == Dev(ProgramFinish(st, v), AwaitingMode, d.drawn);
      FinishKeeps(st, v, d.drawn);
    } else if v == StopMode {
      assert r == Dev(st, Stopped, d.drawn);
    } else {
      assert r == WorkSpec(Dev(st, AwaitingMode, d.drawn), v, rng);
      WorkKeeps(Dev(st, AwaitingMode, d.drawn), v, rng);
    }
    DequeueLift(d.ram, st, r.ram);
  }

  /** What holds of the state after the dequeue holds of the state
      before it. */
  lemma DequeueLift(st0: RamState, st: RamState, st': RamState)
    requires st0.fifo != [] && st == Dequeue(st0).1
    requires forall x :: !DeviceAddr(x) ==> Read(st', x) == Read(st, x)
    requires Suffix(st'.fifo, st.fifo)
    ensures forall x :: !DeviceAddr(x) ==> Read(st', x) == Read(st0, x)
    ensures Suffix(st'.fifo, st0.fifo)
  {
    assert Suffix(st.fifo, st0.fifo);
    SuffixTrans(st'.fifo, st.fifo, st0.fifo);
  }

  /** A mode taken while ready: the device shows ready afterwards (or
      busy, waiting for the command word), touches only its registers and
      takes values from the front of the queue only. */
  lemma WorkKeeps(e: Dev, v: int, rng: nat -> Code)
    requires e.phase == AwaitingMode && Read(e.ram, StatusAddr) == Some(1)
    ensures var r := WorkSpec(e, v, rng);
      && Handshake(r)
      && (forall x :: !DeviceAddr(x) ==> Read(r.ram, x) == Read(e.ram, x))
      && Suffix(r.ram.fifo, e.ram.fifo)
      && r.phase != NotStarted
  {
    if v == SelfTestMode {
      SelfTestKeeps(e.ram, Draws(rng, e.drawn), e.drawn + TestWords);
    } else if v == ProgramMode {
      ProgramModeKeeps(e, rng);
    }
  }

  /** Program mode taken while ready: either it blocks busy for the
      command word, or it takes the word and ends ready. */
  lemma ProgramModeKeeps(e: Dev, rng: nat -> Code)
    requires e.phase == AwaitingMode
    ensures var r := WorkSpec(e, ProgramMode, rng);
      && Handshake(r)
      && (forall x :: !DeviceAddr(x) ==> Read(r.ram, x) == Read(e.ram, x))
      && Suffix(r.ram.fifo, e.ram.fifo)
      && r.phase != NotStarted
  {
    var s0 := Started(e.ram);
    assert forall x :: !DeviceAddr(x) ==> Read(s0, x) == Read(e.ram, x);
    if s0.fifo != [] {
      var (w, s1) := Dequeue(s0);
      FinishKeeps(s1, w, e.drawn);
      assert s1.fifo == e.ram.fifo[1..];
    }
  }

  /** After the program mode the device shows ready, has touched only its
      registers, and has left the queue alone. */
  lemma FinishKeeps(st: RamState, w: int, drawn: nat)
    ensures var r := Dev(ProgramFinish(st, w), AwaitingMode, drawn);
      && Handshake(r)
      && (forall x :: !DeviceAddr(x) ==> Read(r.ram, x) == Read(st, x))
      && r.ram.fifo == st.fifo
  {
    ProgramEffect(st, w);
  }

  /** After the self test the device shows ready, has touched only its
      registers, and has left the queue alone. */
  lemma SelfTestKeeps(st: RamState, vals: seq<int>, drawn: nat)
    requires |vals| == TestWords
    ensures var r := Dev(SelfTestSpec(st, vals), AwaitingMode, drawn);
      && Handshake(r)
      && (forall x :: !DeviceAddr(x) ==> Read(r.ram, x) == Read(st, x))
      && r.ram.fifo == st.fifo
  {
    SelfTestEffect(st, vals);
  }

  /** The device loop keeps the status protocol, keeps its hands off every
      cell outside its register map, takes values only from the front of
      the queue, and returns only when it has stopped or the queue is
      empty. */
  lemma ServeInvariant(d: Dev, rng: nat -> Code)
    requires Handshake(d)
    ensures var r := Serve(d, rng);
      && Handshake(r)
      && (forall x :: !DeviceAddr(x) ==> Read(r.ram, x) == Read(d.ram, x))
      && Suffix(r.ram.fifo, d.ram.fifo)
      && !Active(r)
      && (d.phase == Stopped ==> r == d)
  {
    ServeProtocol(d, rng);
    ServeFrame(d, rng);
  }

  /** The loop keeps the status protocol and returns only when it has
      stopped or the queue is empty. */
  lemma {:induction false} ServeProtocol(d: Dev, rng: nat -> Code)
    requires Handshake(d)
    ensures var r := Serve(d, rng);
      && Handshake(r)
      && !Active(r)
      && (d.phase == Stopped ==> r == d)
    decreases |d.ram.fifo|
  {
    if Active(d) {
      NextInvariant(d, rng);
      ServeProtocol(Next(d, rng), rng);
    }
  }

  /** The loop touches only the device's registers and takes values from
      the front of the queue only. */
  lemma {:induction false} ServeFrame(d: Dev, rng: nat -> Code)
    requires Handshake(d)
    ensures var r := Serve(d, rng);
      && (forall x :: !DeviceAddr(x) ==> Read(r.ram, x) == Read(d.ram, x))
      && Suffix(r.ram.fifo, d.ram.fifo)
    decreases |d.ram.fifo|
  {
    if Active(d) {
      var next := Next(d, rng);
      NextInvariant(d, rng);
      ServeFrame(next, rng);
      ServeStep(d, next, Serve(next, rng));
    }
  }

  /** The inductive step of ServeInvariant: what one step keeps, followed
      by what the rest of the loop keeps. */
  lemma ServeStep(d: Dev, next: Dev, r: Dev)
    requires forall x :: !DeviceAddr(x) ==> Read(next.ram, x) == Read(d.ram, x)
    requires forall x :: !DeviceAddr(x) ==> Read(r.ram, x) == Read(next.ram, x)
    requires Suffix(next.ram.fifo, d.ram.fifo) && Suffix(r.ram.fifo, next.ram.fifo)
    ensures forall x :: !DeviceAddr(x) ==> Read(r.ram, x) == Read(d.ram, x)
    ensures Suffix(r.ram.fifo, d.ram.fifo)
  {
    SuffixTrans(r.ram.fifo, next.ram.fifo, d.ram.fifo);
  }

  lemma SuffixTrans(a: seq<int>, b: seq<int>, c: seq<int>)
    requires Suffix(a, b) && Suffix(b, c)
    ensures Suffix(a, c)
  {
    assert b[|b| - |a|..] == c[|c| - |a|..];
  }

  /** `run` shows ready before it takes anything from the queue, and ends
      with the status protocol in force. */
  lemma RunHandshake(d: Dev, rng: nat -> Code)
    requires d.phase == NotStarted || Handshake(d)
    ensures Handshake(RunSpec(d, rng))
  {
    var d0 := if d.phase == NotStarted then Dev(Store(d.ram, StatusAddr, 1), AwaitingMode, d.drawn) else d;
    ServeInvariant(d0, rng);
  }

  /** 777 in place of a mode stops the loop without calling `work`. */
  lemma StopsAt777(d: Dev, rest: seq<int>, rng: nat -> Code)
    requires d.phase == AwaitingMode && d.ram.fifo == [StopMode] + rest
    ensures Serve(d, rng) == Dev(RamState(d.ram.cells, rest), Stopped, d.drawn)
  {
  }

  // ---------------------------------------------------------------------
  // The device object

  /** class FPGA, over the module-level RAM. `rng` is the sequence of
      numbers `random.randint(0, 4095)` returns. */
  class Fpga {
    const ram: Ram
    const rng: nat -> Code
    var phase: Phase
    var drawn: nat

    function State(): Dev
      reads this, ram
    {
      Dev(ram.State(), phase, drawn)
    }

    constructor (ram: Ram, rng: nat -> Code)
      ensures this.ram == ram && this.rng == rng
      ensures phase == NotStarted && drawn == 0
    {
      this.ram := ram;
      this.rng := rng;
      phase := NotStarted;
      drawn := 0;
    }

    /** `ready()`. */
    method Ready()
      modifies ram
      ensures ram.State() == Store(old(ram.State()), StatusAddr, 1)
    {
      ram.Assign(StatusAddr, 1);
    }

    /** `busy()`. */
    method Busy()
      modifies ram
      ensures ram.State() == Store(old(ram.State()), StatusAddr, 0)
    {
      ram.Assign(StatusAddr, 0);
    }

    /** `set_result_id(result_id)`. */
    method SetResultId(resultId: int)
      modifies ram
      ensures ram.State() == Store(old(ram.State()), ResultIdAddr, resultId)
    {
      ram.Assign(ResultIdAddr, resultId);
    }

    /** `write_word(addr, word)`; the device calls it only for the history
        buffer and the final-value cell. */
    method WriteWord(addr: int, word: int)
      requires addr != FifoAddr
      modifies ram
      ensures ram.State() == Store(old(ram.State()), addr, word)
    {
      ram.Assign(addr, word);
    }

    /** The body of `work(0xA1)`. */
    method SelfTest()
      modifies ram, this`drawn
      ensures ram.State() == SelfTestSpec(old(ram.State()), Draws(rng, old(drawn)))
      ensures drawn == old(drawn) + TestWords
    {
      ghost var vals := Draws(rng, drawn);
      Busy();
      SetResultId(NoResult);
      ghost var st0 := ram.State();
      var i := 0;
      while i < TestWords
        invariant 0 <= i <= TestWords
        invariant drawn == old(drawn) + i
        invariant ram.State() == StoreSeq(st0, TestBlockAddr, vals[..i])
      {
        var value := rng(drawn);
        drawn := drawn + 1;
        ram.Assign(BlockAddr(TestBlockAddr, i, 4), value);
        assert vals[..i + 1] == vals[..i] + [value];
        i := i + 1;
      }
      assert vals[..i] == vals;
      SetResultId(SelfTestDone);
      Ready();
    }

    /** The body of `work(0xB2)` after the command word `data` has been
        taken from the queue. */
    method Program(data: int)
      modifies ram
      ensures ram.State() == ProgramFinish(old(ram.State()), data)
    {
      var c := DecodeCommand(data);
      var num := StepCount(c.target);
      var resistance: real := 0.0;
      ghost var st0 := ram.State();
      var i := 0;
      while i < num
        invariant 0 <= i <= num
        invariant resistance == (i as real) * Step
        invariant ram.State() == if c.history == 1 then StoreSeq(st0, HistoryAddr, RampSeq(i)) else st0
      {
        resistance := resistance + Step;
        if c.history == 1 {
          WriteWord(BlockAddr(HistoryAddr, i, 4), resistance.Floor);
          RampSeqSnoc(st0, i);
        }
        i := i + 1;
      }
      assert num > 0 ==> i == num;
      assert resistance.Floor == Ramp(num);
      WriteWord(ProgramResultAddr, resistance.Floor);
      SetResultId(ProgramDone);
      Ready();
    }

    /** `work(mode)`, called by `run` for a mode it has taken from the
        queue. */
    method Work(mode: int)
      requires phase == AwaitingMode
      modifies ram, this`phase, this`drawn
      ensures State() == WorkSpec(old(State()), mode, rng)
    {
      if mode == SelfTestMode {
        SelfTest();
      } else if mode == ProgramMode {
        Busy();
        SetResultId(NoResult);
        if ram.fifo == [] {
          phase := AwaitingWord;
        } else {
          var data := ram.Get();
          Program(data);
        }
      }
    }

    /** `run`: ready once when the thread starts, then one value at a time
        from the queue until 777 or until the queue is empty. */
    method Run()
      modifies ram, this`phase, this`drawn
      ensures State() == RunSpec(old(State()), rng)
    {
      if phase == NotStarted {
        Ready();
        phase := AwaitingMode;
      }
      while Active(State())
        invariant RunSpec(old(State()), rng) == Serve(State(), rng)
        decreases |ram.fifo|
      {
        var v := ram.Get();
        if phase == AwaitingWord {
          Program(v);
          phase := AwaitingMode;
        } else if v == StopMode {
          phase := Stopped;
        } else {
          Work(v);
        }
      }
    }
  }
}
