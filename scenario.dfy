/** The whole simulated bench: MainApp's requests reach the memory
    controller, whose driver is the emulator's RAM, and the device thread
    works on that RAM. The schedule fixed here lets the device run until
    it blocks on the queue after every request, before the next request
    arrives; the waits then see no writes during their sleeps. */
module Scenario {

  import opened Wrappers
  import opened Registers
  import opened Controller
  import opened Device
  import opened Client

  /** One request: the controller answers it, then the device thread runs
      until it blocks. */
  function Step(d: Dev, req: Request, rng: nat -> Code): (Dev, Reply) {
    var (st, answer) := Dispatch(d.ram, req, []);
    (Serve(d.(ram := st), rng), answer)
  }

  /** A sequence of requests, with the replies in order. */
  function Exchange(d: Dev, reqs: seq<Request>, rng: nat -> Code): (r: (Dev, seq<Reply>))
    ensures |r.1| == |reqs|
    decreases |reqs|
  {
    if reqs == [] then (d, [])
    else
      var (d1, answer) := Step(d, reqs[0], rng);
      var (d2, answers) := Exchange(d1, reqs[1..], rng);
      (d2, [answer] + answers)
  }

  /** The device waits for a mode with nothing queued and shows ready. */
  predicate Idle(d: Dev) {
    d.phase == AwaitingMode && d.ram.fifo == [] && Wf(d.ram) && Read(d.ram, StatusAddr) == Some(1)
  }

  lemma ExchangeCons(d: Dev, req: Request, rest: seq<Request>, rng: nat -> Code)
    ensures Exchange(d, [req] + rest, rng)
         == (Exchange(Step(d, req, rng).0, rest, rng).0, [Step(d, req, rng).1] + Exchange(Step(d, req, rng).0, rest, rng).1)
  {
    assert ([req] + rest)[1..] == rest;
  }

  /** Two requests whose answers are known, in front of further ones. */
  lemma TwoSteps(d: Dev, d1: Dev, d2: Dev, r1: Request, r2: Request, rest: seq<Request>, a1: Reply, a2: Reply, rng: nat -> Code)
    requires Step(d, r1, rng) == (d1, a1) && Step(d1, r2, rng) == (d2, a2)
    ensures Exchange(d, [r1, r2] + rest, rng) == (Exchange(d2, rest, rng).0, [a1, a2] + Exchange(d2, rest, rng).1)
  {
    StepThen(d1, r2, rest, d2, a2, rng);
    StepThen(d, r1, [r2] + rest, d1, a1, rng);
    ConsTwo(r1, r2, rest);
    ConsTwo(a1, a2, Exchange(d2, rest, rng).1);
  }

  lemma ConsTwo<T>(a: T, b: T, rest: seq<T>)
    ensures [a] + ([b] + rest) == [a, b] + rest
  {
  }

  /** A wait on a cell that already holds the value answers True at once
      and changes nothing. */
  lemma WaitMatches(d: Dev, a: int, v: int, t: int, rng: nat -> Code)
    requires d.ram.fifo == [] && Read(d.ram, a) == Some(v) && t > 0
    ensures Step(d, [Num(5), Num(a), Num(v), Num(t)], rng) == (d, [BoolV(true)])
  {
    PollQuiet(d.ram, a, v, t);
  }

  /** A block read of provisioned cells answers their words and changes
      nothing. */
  lemma ReadMatches(d: Dev, a: int, n: int, s: int, ws: seq<int>, rng: nat -> Code)
    requires d.ram.fifo == [] && ReadBlock(d.ram, a, n, s) == Some(ws)
    ensures Step(d, [Num(3), Num(a), Num(n), Num(s)], rng) == (d, Ints(ws))
  {
  }

  /** Posting 0xA1 runs the self test to its end before the next request;
      the answer is the 0 the driver reads at the queue address. */
  lemma SelfTestStep(d: Dev, rng: nat -> Code)
    requires Idle(d)
    ensures var d' := Dev(SelfTestSpec(d.ram, Draws(rng, d.drawn)), AwaitingMode, d.drawn + TestWords);
      Step(d, StartSelfTest, rng) == (d', [IntV(0)]) && Idle(d')
  {
    WriteWordEcho(d.ram, FifoAddr, SelfTestMode, [], []);
    assert StartSelfTest == [Num(2), Num(FifoAddr), Num(SelfTestMode)] + [];
    var st := Write(d.ram, FifoAddr, SelfTestMode);
    assert Dispatch(d.ram, StartSelfTest, []) == (st, [IntV(0)]);
    var d1 := d.(ram := st);
    assert Dequeue(st) == (SelfTestMode, d.ram);
    var d' := Dev(SelfTestSpec(d.ram, Draws(rng, d.drawn)), AwaitingMode, d.drawn + TestWords);
    SelfTestEffect(d.ram, Draws(rng, d.drawn));
    assert Next(d1, rng) == d';
    assert !Active(d');
    assert Serve(d1, rng) == d';
  }

  /** Posting 0xB2 and the command word runs the program mode to its end
      before the next request; the answer is one 0 per posted word. */
  lemma ProgramStep(d: Dev, word: int, rng: nat -> Code)
    requires Idle(d)
    ensures var d' := Dev(ProgramFinish(Started(d.ram), word), AwaitingMode, d.drawn);
      Step(d, PostProgram(word), rng) == (d', [IntV(0), IntV(0)]) && d'.ram.fifo == [] && Wf(d'.ram)
  {
    var st := RamState(d.ram.cells, [ProgramMode, word]);
    assert Dispatch(d.ram, PostProgram(word), []) == (st, [IntV(0), IntV(0)]) by {
      PostToFifo(d.ram, [ProgramMode, word], [], []);
      assert PostProgram(word) == [Num(4), Num(FifoAddr), Words([ProgramMode, word]), Num(0)] + [];
      var (st', answer) := Dispatch(d.ram, PostProgram(word), []);
      assert st'.fifo == [ProgramMode, word] && st'.cells == d.ram.cells;
      assert answer == [IntV(0), IntV(0)];
    }
    ProgramRuns(d.ram, word, d.drawn, rng);
  }

  /** The device takes 0xB2 and the word from the queue and runs the
      program mode to its end. */
  lemma ProgramRuns(ram: RamState, word: int, drawn: nat, rng: nat -> Code)
    requires Wf(ram) && ram.fifo == []
    ensures var d' := Dev(ProgramFinish(Started(ram), word), AwaitingMode, drawn);
      && Serve(Dev(RamState(ram.cells, [ProgramMode, word]), AwaitingMode, drawn), rng) == d'
      && d'.ram.fifo == [] && Wf(d'.ram)
  {
    var d1 := Dev(RamState(ram.cells, [ProgramMode, word]), AwaitingMode, drawn);
    var (v, st1) := Dequeue(d1.ram);
    var s0 := Started(st1);
    assert s0.fifo == [word];
    var (w, s1) := Dequeue(s0);
    assert s1 == Started(RamState(ram.cells, []));
    var d' := Dev(ProgramFinish(Started(ram), word), AwaitingMode, drawn);
    assert Next(d1, rng) == d';
    assert !Active(d');
    assert Serve(d1, rng) == d';
  }

  /** The answers `test_matrix` gets from a device that is up and idle:
      ready, the queue echo, result id 1, and the self test's draws. */
  lemma TestMatrixExchange(d: Dev, rng: nat -> Code)
    requires Idle(d)
    ensures var d2 := Dev(SelfTestSpec(d.ram, Draws(rng, d.drawn)), AwaitingMode, d.drawn + TestWords);
      && Exchange(d, TestMatrixRequests(), rng) == (d2, [[BoolV(true)], [IntV(0)], [BoolV(true)], Ints(Draws(rng, d.drawn))])
      && Idle(d2)
  {
    var draws := Draws(rng, d.drawn);
    var d2 := Dev(SelfTestSpec(d.ram, draws), AwaitingMode, d.drawn + TestWords);
    assert Step(d, StartSelfTest, rng) == (d2, [IntV(0)]) && Idle(d2) by {
      SelfTestStep(d, rng);
    }
    assert Exchange(d2, [WaitSelfTest, ReadTestBlock], rng) == (d2, [[BoolV(true)], Ints(draws)]) by {
      SelfTestResults(d.ram, draws);
      WaitThenRead(d2, draws, rng);
    }
    TestMatrixAssemble(d, d2, draws, rng);
  }

  /** The test-matrix exchange put together from what each of its steps
      answers. */
  lemma TestMatrixAssemble(d: Dev, d2: Dev, draws: seq<int>, rng: nat -> Code)
    requires d.ram.fifo == [] && Read(d.ram, StatusAddr) == Some(1)
    requires Step(d, StartSelfTest, rng) == (d2, [IntV(0)])
    requires Exchange(d2, [WaitSelfTest, ReadTestBlock], rng) == (d2, [[BoolV(true)], Ints(draws)])
    ensures Exchange(d, TestMatrixRequests(), rng) == (d2, [[BoolV(true)], [IntV(0)], [BoolV(true)], Ints(draws)])
  {
    assert Step(d, WaitReady, rng) == (d, [BoolV(true)]) by {
      WaitMatches(d, StatusAddr, 1, 10, rng);
    }
    TwoSteps(d, d, d2, WaitReady, StartSelfTest, [WaitSelfTest, ReadTestBlock], [BoolV(true)], [IntV(0)], rng);
    assert [WaitReady, StartSelfTest] + [WaitSelfTest, ReadTestBlock] == TestMatrixRequests();
    assert [[BoolV(true)], [IntV(0)]] + [[BoolV(true)], Ints(draws)] == [[BoolV(true)], [IntV(0)], [BoolV(true)], Ints(draws)];
  }

  /** After the self test, result id 1 shows and the block reads back as
      the draws. */
  lemma SelfTestResults(st: RamState, draws: seq<int>)
    requires |draws| == TestWords
    ensures Read(SelfTestSpec(st, draws), ResultIdAddr) == Some(SelfTestDone)
    ensures ReadBlock(SelfTestSpec(st, draws), TestBlockAddr, 16, 4) == Some(draws)
  {
    SelfTestEffect(st, draws);
    var ws := ReadBlock(SelfTestSpec(st, draws), TestBlockAddr, 16, 4);
    assert ws.Some?;
    assert ws.value == draws;
  }

  /** Waiting for result id 1 and reading the block, once the self test
      is over. */
  lemma WaitThenRead(e: Dev, ws: seq<int>, rng: nat -> Code)
    requires e.ram.fifo == [] && Read(e.ram, ResultIdAddr) == Some(SelfTestDone)
    requires ReadBlock(e.ram, TestBlockAddr, 16, 4) == Some(ws)
    ensures Exchange(e, [WaitSelfTest, ReadTestBlock], rng) == (e, [[BoolV(true)], Ints(ws)])
  {
    assert Step(e, WaitSelfTest, rng) == (e, [BoolV(true)]) by {
      WaitMatches(e, ResultIdAddr, SelfTestDone, 10, rng);
    }
    assert Step(e, ReadTestBlock, rng) == (e, Ints(ws)) by {
      ReadMatches(e, TestBlockAddr, 16, 4, ws, rng);
    }
    TwoSteps(e, e, e, WaitSelfTest, ReadTestBlock, [], [BoolV(true)], Ints(ws), rng);
    assert Exchange(e, [], rng) == (e, []);
    assert [WaitSelfTest, ReadTestBlock] + [] == [WaitSelfTest, ReadTestBlock];
    assert [[BoolV(true)], Ints(ws)] + [] == [[BoolV(true)], Ints(ws)];
  }

  /** `test_matrix` against a device that is up and idle: the checks pass,
      the four requests go out in order, and the 16 values are the self
      test's draws, each through its channel. The device ends idle again,
      16 draws later. */
  lemma TestMatrixEndToEnd(d: Dev, rng: nat -> Code, c: Session, conv: Val -> real, conv2: Val -> real)
    requires Idle(d)
    ensures var (d', replies) := Exchange(d, TestMatrixRequests(), rng);
      var r := TestMatrixSpec(c.(inbox := replies), conv, conv2);
      var draws := Draws(rng, d.drawn);
      && Idle(d') && d'.drawn == d.drawn + TestWords
      && r.0 == Returned
      && r.1.sent == c.sent + TestMatrixRequests()
      && |r.1.testData| == 16
      && (forall i :: 0 <= i < 16 ==> r.1.testData[i] == TestChannel(i, conv, conv2)(IntV(draws[i])))
  {
    TestMatrixExchange(d, rng);
    TestMatrixOfDraws(c, conv, conv2, Draws(rng, d.drawn), Exchange(d, TestMatrixRequests(), rng).1);
  }

  /** `test_matrix` reading the answers of a self-test exchange. */
  lemma TestMatrixOfDraws(c: Session, conv: Val -> real, conv2: Val -> real, draws: seq<int>, replies: seq<Reply>)
    requires |draws| == 16
    requires replies == [[BoolV(true)], [IntV(0)], [BoolV(true)], Ints(draws)]
    ensures var r := TestMatrixSpec(c.(inbox := replies), conv, conv2);
      && r.0 == Returned
      && r.1.sent == c.sent + TestMatrixRequests()
      && |r.1.testData| == 16
      && (forall i :: 0 <= i < 16 ==> r.1.testData[i] == TestChannel(i, conv, conv2)(IntV(draws[i])))
  {
    var c0 := c.(inbox := replies);
    TestMatrixReplies(c0, conv, conv2);
  }

  /** A word read of a provisioned cell answers its word and changes
      nothing. */
  lemma ReadWordMatches(d: Dev, a: int, w: int, rng: nat -> Code)
    requires d.ram.fifo == [] && Read(d.ram, a) == Some(w)
    ensures Step(d, [Num(1), Num(a)], rng) == (d, [IntV(w)])
  {
  }

  /** Waiting for result id 2 and reading the final value, once the
      program mode is over. */
  lemma WaitThenFinal(e: Dev, f: int, rest: seq<Request>, rng: nat -> Code)
    requires e.ram.fifo == [] && Read(e.ram, ResultIdAddr) == Some(ProgramDone) && Read(e.ram, ProgramResultAddr) == Some(f)
    ensures Exchange(e, [WaitProgrammed, ReadFinal] + rest, rng) == (Exchange(e, rest, rng).0, [[BoolV(true)], [IntV(f)]] + Exchange(e, rest, rng).1)
  {
    assert Step(e, WaitProgrammed, rng) == (e, [BoolV(true)]) by {
      WaitMatches(e, ResultIdAddr, ProgramDone, 20, rng);
    }
    assert Step(e, ReadFinal, rng) == (e, [IntV(f)]) by {
      ReadWordMatches(e, ProgramResultAddr, f, rng);
    }
    TwoSteps(e, e, e, WaitProgrammed, ReadFinal, rest, [BoolV(true)], [IntV(f)], rng);
  }

  /** The history read, once the program mode is over. */
  lemma HistoryRead(e: Dev, ws: seq<int>, rng: nat -> Code)
    requires e.ram.fifo == [] && ReadBlock(e.ram, HistoryAddr, 461, 4) == Some(ws)
    ensures Exchange(e, [ReadHistory], rng) == (e, [Ints(ws)])
  {
    ReadMatches(e, HistoryAddr, 461, 4, ws, rng);
    assert Step(e, ReadHistory, rng) == (e, Ints(ws));
    ExchangeCons(e, ReadHistory, [], rng);
    assert Exchange(e, [], rng) == (e, []);
    assert [ReadHistory] + [] == [ReadHistory];
    assert [Ints(ws)] + [] == [Ints(ws)];
  }

  /** What the device leaves after a programming command that started
      while it was idle: it is idle again, shows result id 2 and the final
      ramp value, and, when the history cells were provisioned, the whole
      history reads back with the ramp in its first num words. */
  lemma ProgramOutcome(d: Dev, word: int)
    requires Idle(d)
    requires forall i :: 0 <= i < RampLength ==> BlockAddr(HistoryAddr, i, 4) in d.ram.cells
    ensures var d2 := Dev(ProgramFinish(Started(d.ram), word), AwaitingMode, d.drawn);
      var c := DecodeCommand(word);
      var n := StepCount(c.target);
      var ws := ReadBlock(d2.ram, HistoryAddr, 461, 4);
      && Read(d2.ram, ResultIdAddr) == Some(ProgramDone)
      && Read(d2.ram, ProgramResultAddr) == Some(Ramp(n))
      && Read(d2.ram, StatusAddr) == Some(1)
      && ws.Some? && |ws.value| == 461
      && (c.history == 1 ==> forall i :: 0 <= i < n ==> ws.value[i] == Ramp(i + 1))
  {
    var st0 := Started(d.ram);
    var d2 := Dev(ProgramFinish(st0, word), AwaitingMode, d.drawn);
    var c := DecodeCommand(word);
    var n := StepCount(c.target);
    ProgramEffect(st0, word);
    forall i | 0 <= i < RampLength
      ensures Read(d2.ram, BlockAddr(HistoryAddr, i, 4)).Some?
    {
      if c.history != 1 || i >= n {
        assert Read(st0, BlockAddr(HistoryAddr, i, 4)) == Read(d.ram, BlockAddr(HistoryAddr, i, 4));
      }
    }
  }

  /** A step whose result is known, put in front of an exchange. */
  lemma StepThen(d: Dev, req: Request, rest: seq<Request>, d1: Dev, answer: Reply, rng: nat -> Code)
    requires Step(d, req, rng) == (d1, answer)
    ensures Exchange(d, [req] + rest, rng) == (Exchange(d1, rest, rng).0, [answer] + Exchange(d1, rest, rng).1)
  {
    ExchangeCons(d, req, rest, rng);
  }

  /** After the command is posted: result id 2, the final value, and the
      history when asked for. */
  lemma ProgramTail(d2: Dev, n: nat, ws: seq<int>, history: int, rng: nat -> Code)
    requires d2.ram.fifo == [] && Read(d2.ram, ResultIdAddr) == Some(ProgramDone)
    requires Read(d2.ram, ProgramResultAddr) == Some(Ramp(n))
    requires ReadBlock(d2.ram, HistoryAddr, 461, 4) == Some(ws)
    ensures Exchange(d2, ProgramTailRequests(history), rng)
         == (d2, [[BoolV(true)], [IntV(Ramp(n))]] + (if history == 1 then [Ints(ws)] else []))
  {
    var rest: seq<Request> := if history == 1 then [ReadHistory] else [];
    var restAnswers: seq<Reply> := if history == 1 then [Ints(ws)] else [];
    if history == 1 {
      HistoryRead(d2, ws, rng);
    }
    assert Exchange(d2, rest, rng) == (d2, restAnswers);
    WaitThenFinal(d2, Ramp(n), rest, rng);
  }

  /** The answers `program_element` gets from a device that is up and
      idle: ready, the two queue echoes, result id 2, the final ramp value,
      and (with the flag) the 461 history words. */
  lemma ProgramExchange(d: Dev, rng: nat -> Code, word: int, history: int)
    requires Idle(d)
    requires forall i :: 0 <= i < RampLength ==> BlockAddr(HistoryAddr, i, 4) in d.ram.cells
    ensures var d2 := Dev(ProgramFinish(Started(d.ram), word), AwaitingMode, d.drawn);
      var n := StepCount(DecodeCommand(word).target);
      var ws := ReadBlock(d2.ram, HistoryAddr, 461, 4);
      var first := [[BoolV(true)], [IntV(0), IntV(0)], [BoolV(true)], [IntV(Ramp(n))]];
      && Idle(d2)
      && ws.Some? && |ws.value| == 461
      && (DecodeCommand(word).history == 1 ==> forall i :: 0 <= i < n ==> ws.value[i] == Ramp(i + 1))
      && Exchange(d, ProgramRequests(word, history), rng) == (d2, first + if history == 1 then [Ints(ws.value)] else [])
  {
    var d2 := Dev(ProgramFinish(Started(d.ram), word), AwaitingMode, d.drawn);
    var n := StepCount(DecodeCommand(word).target);
    ProgramOutcome(d, word);
    var ws := ReadBlock(d2.ram, HistoryAddr, 461, 4).value;
    assert Step(d, PostProgram(word), rng) == (d2, [IntV(0), IntV(0)]) && Idle(d2) by {
      ProgramStep(d, word, rng);
    }
    ProgramChain(d, d2, word, ProgramTailRequests(history), rng);
    ProgramAssemble(d, d2, word, history, n, ws, rng);
  }

  /** The requests `program_element` sends once the command is posted. */
  function ProgramTailRequests(history: int): seq<Request> {
    [WaitProgrammed, ReadFinal] + (if history == 1 then [ReadHistory] else [])
  }

  /** The exchange put together from what each of its steps answers. */
  lemma ProgramAssemble(d: Dev, d2: Dev, word: int, history: int, n: nat, ws: seq<int>, rng: nat -> Code)
    requires Exchange(d, [WaitReady, PostProgram(word)] + ProgramTailRequests(history), rng)
          == (Exchange(d2, ProgramTailRequests(history), rng).0,
              [[BoolV(true)], [IntV(0), IntV(0)]] + Exchange(d2, ProgramTailRequests(history), rng).1)
    requires d2.ram.fifo == [] && Read(d2.ram, ResultIdAddr) == Some(ProgramDone)
    requires Read(d2.ram, ProgramResultAddr) == Some(Ramp(n))
    requires ReadBlock(d2.ram, HistoryAddr, 461, 4) == Some(ws)
    ensures Exchange(d, ProgramRequests(word, history), rng)
         == (d2, [[BoolV(true)], [IntV(0), IntV(0)], [BoolV(true)], [IntV(Ramp(n))]] + if history == 1 then [Ints(ws)] else [])
  {
    var restAnswers: seq<Reply> := if history == 1 then [Ints(ws)] else [];
    ProgramTail(d2, n, ws, history, rng);
    assert [WaitReady, PostProgram(word)] + ProgramTailRequests(history) == ProgramRequests(word, history);
    Regroup([BoolV(true)], [IntV(0), IntV(0)], [BoolV(true)], [IntV(Ramp(n))], restAnswers);
  }

  /** Ready, then the posted command, in front of further requests. */
  lemma ProgramChain(d: Dev, d2: Dev, word: int, tail: seq<Request>, rng: nat -> Code)
    requires d.ram.fifo == [] && Read(d.ram, StatusAddr) == Some(1)
    requires Step(d, PostProgram(word), rng) == (d2, [IntV(0), IntV(0)])
    ensures Exchange(d, [WaitReady, PostProgram(word)] + tail, rng)
         == (Exchange(d2, tail, rng).0, [[BoolV(true)], [IntV(0), IntV(0)]] + Exchange(d2, tail, rng).1)
  {
    assert Step(d, WaitReady, rng) == (d, [BoolV(true)]) by {
      WaitMatches(d, StatusAddr, 1, 10, rng);
    }
    TwoSteps(d, d, d2, WaitReady, PostProgram(word), tail, [BoolV(true)], [IntV(0), IntV(0)], rng);
  }

  lemma Regroup<T>(a: T, b: T, c: T, e: T, rest: seq<T>)
    ensures [a, b] + ([c, e] + rest) == [a, b, c, e] + rest
  {
  }

  /** `program_element` against a device that is up and idle, with the
      ADC codes, attempts, flag and element in range: it returns; the
      device programmed the element MainApp asked for, with the target
      code MainApp computed; the final value is the ramp's last value
      through the element's channel, which is at most the target code and
      at least nine below it; with the flag the history holds 461 values,
      the first num being the ramp through that channel. */
  lemma ProgramElementEndToEnd(d: Dev, rng: nat -> Code, c: Session, conv: Val -> real, conv2: Val -> real,
                               toVoltage: real -> int, target: real, tolerance: real,
                               history: int, attempts: int, element: int)
    requires Idle(d)
    requires forall i :: 0 <= i < RampLength ==> BlockAddr(HistoryAddr, i, 4) in d.ram.cells
    requires 0 <= toVoltage(target) < 0x1000
    requires 0 <= toVoltage(target * (1.0 + tolerance / 100.0)) - toVoltage(target) < 0x1000
    requires 0 <= history <= 1 && 0 <= attempts < 8 && 1 <= element <= 16
    ensures var word := CommandWord(toVoltage, target, tolerance, history, attempts, element);
      var (d', replies) := Exchange(d, ProgramRequests(word, history), rng);
      var r := ProgramElementSpec(c.(inbox := replies), conv, conv2, toVoltage, target, tolerance, history, attempts, element);
      var code := toVoltage(target);
      var n := StepCount(code);
      var channel := ElementChannel(element, conv, conv2);
      && DecodeCommand(word).element == element - 1
      && DecodeCommand(word).target == code
      && code - 9 <= Ramp(n) <= code
      && r.0 == Returned
      && r.1.sent == c.sent + ProgramRequests(word, history)
      && r.1.programResult == channel(IntV(Ramp(n)))
      && (history == 1 ==> |r.1.history| == 461 && forall i :: 0 <= i < n ==> r.1.history[i] == channel(IntV(Ramp(i + 1))))
      && Idle(d')
  {
    var code := toVoltage(target);
    var delta := toVoltage(target * (1.0 + tolerance / 100.0)) - code;
    var word := CommandWord(toVoltage, target, tolerance, history, attempts, element);
    var n := StepCount(code);
    assert DecodeCommand(word) == Command(code, delta, attempts, history, element - 1) by {
      PackDecodeRoundTrip(element, history, attempts, delta, code);
    }
    assert code - 9 <= Ramp(n) <= code && n <= RampLength by {
      RampReachesTarget(code);
      StepCountBound(code);
    }
    ProgramExchange(d, rng, word, history);
    var d2 := Dev(ProgramFinish(Started(d.ram), word), AwaitingMode, d.drawn);
    var ws := ReadBlock(d2.ram, HistoryAddr, 461, 4).value;
    ProgramReplies(c, conv, conv2, toVoltage, target, tolerance, history, attempts, element,
                   n, ws, Exchange(d, ProgramRequests(word, history), rng).1);
  }

  /** `program_element` reading the answers a programming exchange
      gives. */
  lemma ProgramReplies(c: Session, conv: Val -> real, conv2: Val -> real,
                       toVoltage: real -> int, target: real, tolerance: real,
                       history: int, attempts: int, element: int,
                       n: nat, ws: seq<int>, replies: seq<Reply>)
    requires |ws| == 461 && n <= 461
    requires history == 1 ==> forall i :: 0 <= i < n ==> ws[i] == Ramp(i + 1)
    requires replies == [[BoolV(true)], [IntV(0), IntV(0)], [BoolV(true)], [IntV(Ramp(n))]] + if history == 1 then [Ints(ws)] else []
    ensures var word := CommandWord(toVoltage, target, tolerance, history, attempts, element);
      var r := ProgramElementSpec(c.(inbox := replies), conv, conv2, toVoltage, target, tolerance, history, attempts, element);
      var channel := ElementChannel(element, conv, conv2);
      && r.0 == Returned
      && r.1.sent == c.sent + ProgramRequests(word, history)
      && r.1.programResult == channel(IntV(Ramp(n)))
      && (history == 1 ==> |r.1.history| == 461 && forall i :: 0 <= i < n ==> r.1.history[i] == channel(IntV(Ramp(i + 1))))
  {
    var c0 := c.(inbox := replies);
    ProgramElementReplies(c0, conv, conv2, toVoltage, target, tolerance, history, attempts, element);
    if history == 1 {
      assert replies[4] == Ints(ws);
      var channel := ElementChannel(element, conv, conv2);
      assert MapConv(channel, Ints(ws)) == ProgramElementSpec(c0, conv, conv2, toVoltage, target, tolerance, history, attempts, element).1.history;
      forall i | 0 <= i < n
        ensures MapConv(channel, Ints(ws))[i] == channel(IntV(Ramp(i + 1)))
      {
        assert Ints(ws)[i] == IntV(ws[i]);
      }
    }
  }
}
