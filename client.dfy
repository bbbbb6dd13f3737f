/** The register protocol as main.py's MainApp drives it: the programming
    command word, and the request sequences of `test_matrix` and
    `program_element` with their fallbacks. The replies of the server are
    inputs: `send` leaves in `data_from_server` whatever the server
    answered, or the empty list when the exchange failed. */
module Client {

  import opened Registers
  import opened Controller
  import opened Device

  type Request = seq<Operand>
  type Reply = seq<Val>

  // ---------------------------------------------------------------------
  // The command word

  /** The reassignment chain of `program_element` (main.py:107-111), with
      each `<< k` written as a multiplication by 2^k, which it is on
      Python's integers. */
  function PackCommand(element: int, history: int, attempts: int, delta: int, target: int): (w: int)
    ensures w == (element - 1) * 0x1000_0000 + history * 0x800_0000 + attempts * 0x100_0000 + delta * 0x1000 + target
  {
    var w := (element - 1) * 0x2;
    var w := (w + history) * 0x8;
    var w := (w + attempts) * 0x1000;
    var w := (w + delta) * 0x1000;
    w + target
  }

  /** The word `program_element` builds from the form's values: the
      target and the tolerance band become ADC codes through
      `tools.conv_to_voltage`. */
  function CommandWord(toVoltage: real -> int, target: real, tolerance: real, history: int, attempts: int, element: int): int {
    var code := toVoltage(target);
    var delta := toVoltage(target * (1.0 + tolerance / 100.0)) - code;
    PackCommand(element, history, attempts, delta, code)
  }

  /** Euclidean division by m is unique. */
  lemma DivModOf(x: int, q: int, r: int, m: int)
    requires m > 0 && 0 <= r < m && x == q * m + r
    ensures x / m == q && x % m == r
  {
    var q' := x / m;
    if q' > q {
      MulAtLeast(q' - q, m);
    } else if q' < q {
      MulAtLeast(q - q', m);
    }
  }

  lemma MulAtLeast(d: int, m: int)
    requires d >= 1 && m > 0
    ensures d * m >= m
  {
  }

  /** The emulator's masks recover every field that the client packed, for
      values in range, and the packed word fits 32 bits. */
  lemma PackDecodeRoundTrip(element: int, history: int, attempts: int, delta: int, target: int)
    requires 1 <= element <= 16 && 0 <= history <= 1 && 0 <= attempts < 8
    requires 0 <= delta < 0x1000 && 0 <= target < 0x1000
    ensures var w := PackCommand(element, history, attempts, delta, target);
      && 0 <= w < 0x1_0000_0000
      && DecodeCommand(w) == Command(target, delta, attempts, history, element - 1)
  {
    var w := PackCommand(element, history, attempts, delta, target);
    var e := element - 1;
    var q28 := e;
    var q27 := history + 2 * q28;
    var q24 := attempts + 8 * q27;
    var q12 := delta + 0x1000 * q24;
    assert w == q12 * 0x1000 + target;
    DivModOf(w, q12, target, 0x1000);
    DivModOf(q12, q24, delta, 0x1000);
    DivModOf(w, q24, delta * 0x1000 + target, 0x100_0000);
    DivModOf(q24, q27, attempts, 8);
    DivModOf(w, q27, attempts * 0x100_0000 + delta * 0x1000 + target, 0x800_0000);
    DivModOf(q27, q28, history, 2);
    DivModOf(w, q28, history * 0x800_0000 + attempts * 0x100_0000 + delta * 0x1000 + target, 0x1000_0000);
    DivModOf(q28, 0, e, 16);
  }

  /** Every 32-bit command word is the packing of the fields the emulator
      decodes from it: the masks lose nothing below bit 32. */
  lemma DecodePackRoundTrip(w: int)
    requires 0 <= w < 0x1_0000_0000
    ensures var c := DecodeCommand(w);
      PackCommand(c.element + 1, c.history, c.attempts, c.tolerance, c.target) == w
  {
    var t, q12 := w % 0x1000, w / 0x1000;
    var d, q24 := q12 % 0x1000, q12 / 0x1000;
    var a, q27 := q24 % 8, q24 / 8;
    var h, q28 := q27 % 2, q27 / 2;
    assert w == q24 * 0x100_0000 + (d * 0x1000 + t);
    DivModOf(w, q24, d * 0x1000 + t, 0x100_0000);
    assert w == q27 * 0x800_0000 + (a * 0x100_0000 + d * 0x1000 + t);
    DivModOf(w, q27, a * 0x100_0000 + d * 0x1000 + t, 0x800_0000);
    assert w == q28 * 0x1000_0000 + (h * 0x800_0000 + a * 0x100_0000 + d * 0x1000 + t);
    DivModOf(w, q28, h * 0x800_0000 + a * 0x100_0000 + d * 0x1000 + t, 0x1000_0000);
    if q28 >= 16 {
      MulAtLeast(q28 - 15, 0x1000_0000);
      assert false;
    }
    DivModOf(q28, 0, q28, 16);
  }

  /** Nothing the client packs above bit 11 disturbs the target field,
      whatever the other values are. */
  lemma TargetSurvives(element: int, history: int, attempts: int, delta: int, target: int)
    requires 0 <= target < 0x1000
    ensures DecodeCommand(PackCommand(element, history, attempts, delta, target)).target == target
  {
    var w := PackCommand(element, history, attempts, delta, target);
    DivModOf(w, (element - 1) * 0x1_0000 + history * 0x8000 + attempts * 0x1000 + delta, target, 0x1000);
  }

  /** The delta is not masked: a delta of -1 (a tolerance band whose upper
      code is below the target's) borrows from every field above it. */
  lemma NegativeDeltaBleeds()
    ensures DecodeCommand(PackCommand(1, 0, 0, -1, 0)) == Command(0, 4095, 7, 1, 15)
  {
    assert PackCommand(1, 0, 0, -1, 0) == -0x1000;
  }

  // ---------------------------------------------------------------------
  // Requests and replies

  const WaitReady: Request := [Num(5), Num(StatusAddr), Num(1), Num(10)]
  const StartSelfTest: Request := [Num(2), Num(FifoAddr), Num(SelfTestMode)]
  const WaitSelfTest: Request := [Num(5), Num(ResultIdAddr), Num(SelfTestDone), Num(10)]
  const ReadTestBlock: Request := [Num(3), Num(TestBlockAddr), Num(16), Num(4)]
  const WaitProgrammed: Request := [Num(5), Num(ResultIdAddr), Num(ProgramDone), Num(20)]
  const ReadFinal: Request := [Num(1), Num(ProgramResultAddr)]
  const ReadHistory: Request := [Num(3), Num(HistoryAddr), Num(461), Num(4)]

  /** Mode and command word posted to the queue with stride 0. */
  function PostProgram(word: int): Request {
    [Num(4), Num(FifoAddr), Words([ProgramMode, word]), Num(0)]
  }

  /** The four requests of `test_matrix`, in order. */
  function TestMatrixRequests(): seq<Request> {
    [WaitReady, StartSelfTest, WaitSelfTest, ReadTestBlock]
  }

  /** The requests of `program_element`, in order; the history is asked
      for only with the history flag. */
  function ProgramRequests(word: int, history: int): seq<Request> {
    [WaitReady, PostProgram(word), WaitProgrammed, ReadFinal] + (if history == 1 then [ReadHistory] else [])
  }

  /** Python truthiness of a reply item, as `assert x` tests it. */
  predicate Truthy(v: Val) {
    match v
    case IntV(n) => n != 0
    case BoolV(b) => b
    case StrV(s) => s != ""
  }

  /** What an exchange leaves behind: the requests sent so far, the
      replies still to come, `data_from_server`, `test_data`,
      `program_result` and `program_result_history`. */
  datatype Session = Session(sent: seq<Request>, inbox: seq<Reply>, reply: Reply,
                             testData: seq<real>, programResult: real, history: seq<real>)

  /** How `test_matrix` and `program_element` returned. AssertionError
      and IndexError are the exceptions they can let escape. */
  datatype Outcome = Returned | RaisedAssertion | RaisedIndex

  /** `fpga_client.send(data)`: the request goes out and the next reply (or
      the empty list, when there is none) becomes `data_from_server`. */
  function SendSpec(c: Session, req: Request): (r: Session)
    ensures r.sent == c.sent + [req]
    ensures c.inbox != [] ==> r.reply == c.inbox[0] && r.inbox == c.inbox[1..]
    ensures c.inbox == [] ==> r.reply == [] && r.inbox == []
    ensures r.testData == c.testData && r.programResult == c.programResult && r.history == c.history
  {
    if c.inbox == [] then c.(sent := c.sent + [req], reply := [])
    else c.(sent := c.sent + [req], inbox := c.inbox[1..], reply := c.inbox[0])
  }

  function Zeros(n: nat): (r: seq<real>)
    ensures |r| == n && forall i :: 0 <= i < n ==> r[i] == 0.0
  {
    seq(n, _ => 0.0)
  }

  /** The conversion for test index i: indices 4..7 are the channel with
      its own correction. */
  function TestChannel(i: int, conv: Val -> real, conv2: Val -> real): Val -> real {
    if 4 <= i < 8 then conv2 else conv
  }

  /** The conversion for element number e (counted from 1). */
  function ElementChannel(e: int, conv: Val -> real, conv2: Val -> real): Val -> real {
    if e in {5, 6, 7, 8} then conv2 else conv
  }

  /** Element e is test index e - 1, and both use the same channel. */
  lemma ChannelsAgree(e: int, conv: Val -> real, conv2: Val -> real)
    requires 1 <= e <= 16
    ensures ElementChannel(e, conv, conv2) == TestChannel(e - 1, conv, conv2)
  {
    if 5 <= e <= 8 {
      assert e in {5, 6, 7, 8};
    }
  }

  /** `list(map(conv, data))`. */
  function MapConv(conv: Val -> real, data: Reply): (r: seq<real>)
    ensures |r| == |data| && forall i :: 0 <= i < |data| ==> r[i] == conv(data[i])
  {
    seq(|data|, (i: int) requires 0 <= i < |data| => conv(data[i]))
  }

  /** The 16 measured values, each through its own channel. */
  function TestConversion(data: Reply, conv: Val -> real, conv2: Val -> real): (r: seq<real>)
    ensures |r| == |data| && forall i :: 0 <= i < |data| ==> r[i] == TestChannel(i, conv, conv2)(data[i])
  {
    seq(|data|, (i: int) requires 0 <= i < |data| => TestChannel(i, conv, conv2)(data[i]))
  }

  // ---------------------------------------------------------------------
  // test_matrix

  /** `test_matrix`. A falsy or wrongly sized answer zero-fills the 16
      values; an empty answer to a wait makes `data_from_server[0]` raise
      IndexError, which no handler catches. */
  function TestMatrixSpec(c: Session, conv: Val -> real, conv2: Val -> real): (r: (Outcome, Session))
  {
    var c1 := SendSpec(c, WaitReady);
    if c1.reply == [] then (RaisedIndex, c1)
    else if !Truthy(c1.reply[0]) then (Returned, c1.(testData := Zeros(16)))
    else
      var c2 := SendSpec(SendSpec(c1, StartSelfTest), WaitSelfTest);
      if c2.reply == [] then (RaisedIndex, c2)
      else if !Truthy(c2.reply[0]) then (Returned, c2.(testData := Zeros(16)))
      else
        var c3 := SendSpec(c2, ReadTestBlock);
        if |c3.reply| == 16 then (Returned, c3.(testData := TestConversion(c3.reply, conv, conv2)))
        else (Returned, c3.(testData := Zeros(16)))
  }

  /** `test_matrix` sends one, three or all four of its requests, never
      raises AssertionError, always returns once it sends all four, and
      leaves 16 values when it returns: the converted block when all four
      replies came and the last holds 16 items, otherwise zeros. An
      IndexError leaves the values alone. */
  lemma TestMatrixShape(c: Session, conv: Val -> real, conv2: Val -> real)
    ensures var r := TestMatrixSpec(c, conv, conv2);
      var k := |r.1.sent| - |c.sent|;
      && (k == 1 || k == 3 || k == 4)
      && r.1.sent == c.sent + TestMatrixRequests()[..k]
      && r.0 != RaisedAssertion
      && (k == 4 ==> r.0 == Returned)
      && (r.0 == Returned ==> |r.1.testData| == 16)
      && (r.0 == RaisedIndex ==> r.1.reply == [] && r.1.testData == c.testData)
      && (r.0 == Returned && k == 4 && |r.1.reply| == 16 ==>
            forall i :: 0 <= i < 16 ==> r.1.testData[i] == TestChannel(i, conv, conv2)(r.1.reply[i]))
      && (r.0 == Returned && (k < 4 || |r.1.reply| != 16) ==> r.1.testData == Zeros(16))
      && r.1.programResult == c.programResult && r.1.history == c.history
  {
  }

  /** The replies `test_matrix` reads are the first ones in the inbox, in
      order, and the ones it did not read stay there. */
  lemma TestMatrixReplies(c: Session, conv: Val -> real, conv2: Val -> real)
    requires |c.inbox| >= 4 && c.inbox[0] != [] && c.inbox[2] != []
    ensures var r := TestMatrixSpec(c, conv, conv2);
      var k := |r.1.sent| - |c.sent|;
      && r.0 == Returned
      && r.1.inbox == c.inbox[k..]
      && r.1.reply == c.inbox[k - 1]
      && (k == 4 <==> Truthy(c.inbox[0][0]) && Truthy(c.inbox[2][0]))
  {
    var r := TestMatrixSpec(c, conv, conv2);
    var c1 := SendSpec(c, WaitReady);
    assert c1.inbox == c.inbox[1..];
    if Truthy(c1.reply[0]) {
      var c2 := SendSpec(SendSpec(c1, StartSelfTest), WaitSelfTest);
      assert c2.inbox == c.inbox[3..];
      assert c2.reply == c.inbox[2];
      if Truthy(c2.reply[0]) {
        assert r.1.inbox == c.inbox[4..];
      }
    }
  }
  // ---------------------------------------------------------------------
  // program_element

  /** `program_element` with the form's values. The waits are not inside
      a `try`: a falsy answer raises AssertionError out of the method. The
      final value goes through the element's channel; the history, asked
      for only with the flag, becomes 461 zeros when it is not 461 long. */
  function ProgramElementSpec(c: Session, conv: Val -> real, conv2: Val -> real, toVoltage: real -> int,
                              target: real, tolerance: real, history: int, attempts: int, element: int): (r: (Outcome, Session))
  {
    var word := CommandWord(toVoltage, target, tolerance, history, attempts, element);
    var c1 := SendSpec(c, WaitReady);
    if c1.reply == [] then (RaisedIndex, c1)
    else if !Truthy(c1.reply[0]) then (RaisedAssertion, c1)
    else ProgramAfterReady(c1, conv, conv2, word, history, element)
  }

  /** `program_element` from the posting of the command word on, once the
      ready wait has answered truthily. */
  function ProgramAfterReady(c1: Session, conv: Val -> real, conv2: Val -> real,
                             word: int, history: int, element: int): (Outcome, Session)
  {
    var c2 := SendSpec(SendSpec(c1, PostProgram(word)), WaitProgrammed);
    if c2.reply == [] then (RaisedIndex, c2)
    else if !Truthy(c2.reply[0]) then (RaisedAssertion, c2)
    else
      var c3 := SendSpec(c2.(programResult := 0.0), ReadFinal);
      if c3.reply == [] then (RaisedIndex, c3)
      else
        var v := c3.reply[0];
        var channel := ElementChannel(element, conv, conv2);
        var c4 := (if history == 1 then SendSpec(c3, ReadHistory) else c3).(programResult := channel(v));
        if history != 1 then (Returned, c4)
        else if |c4.reply| == 461 then (Returned, c4.(history := MapConv(channel, c4.reply)))
        else (Returned, c4.(history := Zeros(461)))
  }

  /** `program_element` sends a prefix of its five requests: all of them
      when it returns, one, three or four when it raises; a raise leaves the
      history alone, and the final value is reset to 0 before its read. */
  lemma ProgramElementPrefix(c: Session, conv: Val -> real, conv2: Val -> real, toVoltage: real -> int,
                             target: real, tolerance: real, history: int, attempts: int, element: int)
    ensures var r := ProgramElementSpec(c, conv, conv2, toVoltage, target, tolerance, history, attempts, element);
      var word := CommandWord(toVoltage, target, tolerance, history, attempts, element);
      var all := ProgramRequests(word, history);
      var k := |r.1.sent| - |c.sent|;
      && 1 <= k <= |all|
      && r.1.sent == c.sent + all[..k]
      && (r.0 == Returned ==> k == |all|)
      && (r.0 != Returned ==> k == 1 || k == 3 || k == 4)
      && r.1.testData == c.testData
      && (r.0 == RaisedIndex ==> r.1.reply == [])
      && (r.0 == RaisedAssertion ==> r.1.reply != [] && !Truthy(r.1.reply[0]))
      && (r.0 != Returned ==> r.1.history == c.history)
      && (r.0 != Returned && k == 4 ==> r.1.programResult == 0.0)
      && (r.0 != Returned && k < 4 ==> r.1.programResult == c.programResult)
      && (history != 1 ==> r.1.history == c.history)
      && (r.0 == Returned && history == 1 ==> |r.1.history| == 461)
  {
  }

  /** With every reply present (the fifth only with the flag) and every
      wait answered truthily,
      `program_element` returns; the final value is the first item of the
      fourth reply through the element's channel, and the history (with
      the flag) is the fifth reply through the same channel when it holds
      461 items. */
  lemma ProgramElementReplies(c: Session, conv: Val -> real, conv2: Val -> real, toVoltage: real -> int,
                              target: real, tolerance: real, history: int, attempts: int, element: int)
    requires |c.inbox| >= (if history == 1 then 5 else 4)
    requires c.inbox[0] != [] && c.inbox[2] != [] && c.inbox[3] != []
    requires Truthy(c.inbox[0][0]) && Truthy(c.inbox[2][0])
    ensures var r := ProgramElementSpec(c, conv, conv2, toVoltage, target, tolerance, history, attempts, element);
      var channel := ElementChannel(element, conv, conv2);
      && r.0 == Returned
      && r.1.programResult == channel(c.inbox[3][0])
      && (history == 1 && |c.inbox[4]| == 461 ==> r.1.history == MapConv(channel, c.inbox[4]))
      && (history == 1 && |c.inbox[4]| != 461 ==> r.1.history == Zeros(461))
      && r.1.inbox == c.inbox[if history == 1 then 5 else 4..]
  {
    var word := CommandWord(toVoltage, target, tolerance, history, attempts, element);
    var c1 := SendSpec(c, WaitReady);
    assert c1.inbox == c.inbox[1..];
    var c2 := SendSpec(SendSpec(c1, PostProgram(word)), WaitProgrammed);
    assert c2.inbox == c.inbox[3..];
    assert c2.reply == c.inbox[2];
    var c3 := SendSpec(c2.(programResult := 0.0), ReadFinal);
    assert c3.reply == c.inbox[3];
    assert c3.inbox == c.inbox[4..];
  }

  // ---------------------------------------------------------------------
  // The application object

  /** MainApp's protocol state. The `tools` conversions are parameters:
      `conv` is `conv_to_resistance`, `conv2` is
      `conv_to_resistance_second`, `toVoltage` is `conv_to_voltage`. */
  class App {
    var sent: seq<Request>
    var inbox: seq<Reply>
    var reply: Reply
    var testData: seq<real>
    var programResult: real
    var programResultHistory: seq<real>
    const conv: Val -> real
    const conv2: Val -> real
    const toVoltage: real -> int

    function State(): Session
      reads this
    {
      Session(sent, inbox, reply, testData, programResult, programResultHistory)
    }

    constructor (inbox: seq<Reply>, conv: Val -> real, conv2: Val -> real, toVoltage: real -> int)
      ensures State() == Session([], inbox, [], [], 0.0, [])
      ensures this.conv == conv && this.conv2 == conv2 && this.toVoltage == toVoltage
    {
      sent := [];
      this.inbox := inbox;
      reply := [];
      testData := [];
      programResult := 0.0;
      programResultHistory := [];
      this.conv := conv;
      this.conv2 := conv2;
      this.toVoltage := toVoltage;
    }

    /** `self.fpga_client.send(data)`. */
    method Send(data: Request)
      modifies this
      ensures State() == SendSpec(old(State()), data)
    {
      sent := sent + [data];
      if inbox == [] {
        reply := [];
      } else {
        reply := inbox[0];
        inbox := inbox[1..];
      }
    }

    /** `test_matrix`. */
    method TestMatrix() returns (outcome: Outcome)
      modifies this
      ensures (outcome, State()) == TestMatrixSpec(old(State()), conv, conv2)
    {
      Send(WaitReady);
      if reply == [] {
        return RaisedIndex;
      }
      if !Truthy(reply[0]) {
        testData := Zeros(16);
        return Returned;
      }
      Send(StartSelfTest);
      Send(WaitSelfTest);
      if reply == [] {
        return RaisedIndex;
      }
      if !Truthy(reply[0]) {
        testData := Zeros(16);
        return Returned;
      }
      Send(ReadTestBlock);
      if |reply| != 16 {
        testData := Zeros(16);
        return Returned;
      }
      testData := MapConv(conv, reply);
      for x := 4 to 8
        modifies this`testData
        invariant |testData| == 16
        invariant forall i :: 0 <= i < 16 ==> testData[i] == if 4 <= i < x then conv2(reply[i]) else conv(reply[i])
      {
        testData := testData[x := conv2(reply[x])];
      }
      assert testData == TestConversion(reply, conv, conv2);
      outcome := Returned;
    }

    /** `program_element(target, tolerance, flag_save_history,
        number_attempts, element_number)`. */
    method ProgramElement(target: real, tolerance: real, history: int, attempts: int, element: int)
      returns (outcome: Outcome)
      modifies this
      ensures (outcome, State()) == ProgramElementSpec(old(State()), conv, conv2, toVoltage,
                                                       target, tolerance, history, attempts, element)
    {
      var word := (element - 1) * 0x2;
      word := (word + history) * 0x8;
      word := (word + attempts) * 0x1000;
      word := (word + (toVoltage(target * (1.0 + tolerance / 100.0)) - toVoltage(target))) * 0x1000;
      word := word + toVoltage(target);
      assert word == CommandWord(toVoltage, target, tolerance, history, attempts, element);

      Send(WaitReady);
      if reply == [] {
        return RaisedIndex;
      }
      if !Truthy(reply[0]) {
        return RaisedAssertion;
      }
      outcome := PostAndCollect(word, history, element);
    }

    /** The rest of `program_element`: post the command, wait for result
        id 2, read the final value (and the history with the flag) and
        convert them. */
    method PostAndCollect(word: int, history: int, element: int) returns (outcome: Outcome)
      modifies this
      ensures (outcome, State()) == ProgramAfterReady(old(State()), conv, conv2, word, history, element)
    {
      Send(PostProgram(word));
      Send(WaitProgrammed);
      if reply == [] {
        return RaisedIndex;
      }
      if !Truthy(reply[0]) {
        return RaisedAssertion;
      }
      programResult := 0.0;
      Send(ReadFinal);
      if reply == [] {
        return RaisedIndex;
      }
      var value := reply[0];
      if history == 1 {
        Send(ReadHistory);
      }
      var channel := ElementChannel(element, conv, conv2);
      programResult := channel(value);
      if history == 1 {
        if |reply| == 461 {
          programResultHistory := MapConv(channel, reply);
        } else {
          programResultHistory := Zeros(461);
        }
      }
      outcome := Returned;
    }
  }
}
