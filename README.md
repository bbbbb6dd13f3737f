# NNWizard register protocol, in Dafny

This project models the simulated register protocol of the NNWizard
memristor-programming bench. Three pieces talk through a word-addressed
RAM:

- **The memory controller** (`memory_control.py`). It offers word
  reads and writes, strided block reads and writes, a bounded polling
  wait, and the `request` dispatcher over opcodes 1 to 5. The dispatcher
  always answers: a fault becomes `['Error in MemoryController']` and an
  unknown opcode becomes `['there is no such request']`.
- **The device emulator** (`emulator.py`). The emulator owns the RAM:
  30000 word cells from `0xC0000000`, all 0, except that `0xC0000010` is
  a queue. The driver callables read the queue address as 0 and write to
  it by enqueueing. The FPGA loop takes modes from the queue, stops at
  777, and runs two modes:
  - the self test (`0xA1`) fills 16 words at `0xC0000040 + 4i`;
  - program mode (`0xB2`) takes a command word from the queue, decodes
    five bit fields, and writes a resistance ramp. The ramp's history goes
    to `0xC0004000 + 4i` (only with the history flag) and its final value
    to `0xC0000080`. Then the result id is set and the status goes back
    to ready.
- **The client logic of MainApp** (`main.py`). It packs the 32-bit
  command word and issues the exact request sequences of `test_matrix`
  and `program_element`, with their zero-filled fallbacks. It also keeps
  the most-recently-used host list in `ip_list.conf`.

Modules, one file each:

| file | module | models |
|---|---|---|
| wrappers.dfy | Wrappers | `Option` |
| registers.dfy | Registers | the `RAM` dictionary with its queue, the driver's `read_data`/`write_data` |
| controller.dfy | Controller | `MemoryController` |
| device.dfy | Device | class `FPGA`: the command-word decoder and the ramp |
| client.dfy | Client | command-word packing, `test_matrix`, `program_element` |
| hosts.dfy | HostHistory | the host-history file functions of `MainApp` |
| scenario.dfy | Scenario | the whole bench, client to device and back |

State that the source changes in place becomes a Dafny class:
- `Registers.Ram` (the `RAM` dictionary);
- `Controller.MemoryController`;
- `Device.Fpga`;
- `Client.App` (the protocol fields of `MainApp`);
- `HostHistory.HostSettings` (the settings file and the client's host).

Each method is proved equal to a function on values, and the properties
are lemmas about those functions.

How the source's dynamic features are represented:
- Python's dynamically typed request lists become `Operand = Num | Words`.
- An answer item is `Val = IntV | BoolV | StrV`.
- Every place where Python raises inside `request` (a missing operand, a
  list used as an integer, an address missing from the dictionary)
  answers the error message.
- `(w & mask) >> k` on Python's unbounded integers is floor division and
  modulo by powers of two, which is what Dafny's `/` and `%` are for a
  positive divisor. Negative command words are therefore decoded exactly
  as Python decodes them.

The whole bench is in `Scenario`:
- after each request reaches the controller, the device runs until it
  blocks on the empty queue;
- from a device that is up and idle, `test_matrix` receives the self
  test's 16 draws;
- `program_element` gets back the ramp value that the command word it
  packed asks for. That value is at most the target code and less than
  ten below it.

Exceptions in the client methods:
- The two waits of `program_element` are outside any `try`, so a falsy
  answer raises AssertionError out of the method.
- An empty reply makes `data_from_server[0]` raise IndexError, which
  neither method catches.

`Client.TestMatrixSpec` and `Client.ProgramElementSpec` return these
outcomes.

## Model

| member | source | states |
|---|---|---|
| Registers.InitialState | emulator.py:166-167 | the RAM starts with exactly the addresses 0xC0000000 .. 0xC0000000+29999 other than the queue address, each holding 0, and an empty queue |
| Registers.Read | emulator.py:135-143 | the queue address reads as 0; a provisioned address reads its word; any other address fails |
| Registers.Store | emulator.py:49-54 | a device assignment sets that cell and no other, and leaves the queue alone |
| Registers.Write | emulator.py:149-153 | a driver write to the queue address enqueues the value, leaving the cells alone; any other write sets the cell, adding it when missing; nothing else changes |
| Registers.Dequeue | emulator.py:36 | `get()` returns the oldest queued value and leaves the rest of the queue and every cell |
| Registers.Interfere | memory_control.py:88 | writes made by other actors during a sleep set the cells they name, never the queue, and leave every other cell |
| Registers.Ram.constructor | emulator.py:166-167 | the module-level RAM starts in the initial state |
| Registers.Ram.ReadData | emulator.py:135-143 | the driver read answers what `Read` gives for the current RAM |
| Registers.Ram.WriteData | emulator.py:149-153 | the driver write leaves the RAM in the state `Write` gives, and the queue address stays out of the word cells |
| Registers.Ram.Interleave | memory_control.py:88 | the RAM after other actors' writes is the state `Interfere` gives, and the queue address stays out of the word cells |
| Registers.Ram.Assign | emulator.py:53 | the device's `RAM[addr] = word` leaves the state `Store` gives, and the queue address stays out of the word cells |
| Registers.Ram.Get | emulator.py:36 | `get()` on a non-empty queue returns its head and drops it, as `Dequeue` says, and the queue address stays out of the word cells |
| Controller.ReadBlock | memory_control.py:56-59 | a block read succeeds exactly when every read a + i*s for i < n succeeds; it then has max(n, 0) words and word i is the read at a + i*s |
| Controller.WriteBlockWf | memory_control.py:69-70 | a block write never replaces the queue by a word cell |
| Controller.WriteBlockFifo | memory_control.py:69-70 | a block write enqueues, in order, exactly the words it aims at the queue address |
| Controller.WriteBlockUntouched | memory_control.py:69-70 | an address the block does not hit keeps what it held |
| Controller.WriteBlockLastWins | memory_control.py:69-70 | when several words of the block land on one word cell (stride 0, say), the last of them is what the cell holds |
| Controller.DistinctAddrs | memory_control.py:58 | with a non-zero stride the block addresses are pairwise distinct |
| Controller.WriteBlockReadable | memory_control.py:125-126 | the read-back after a block write never fails |
| Controller.WriteBlockReadBack | memory_control.py:69-70 | a block written at distinct word cells reads back as the data written |
| Controller.PollCharacterized | memory_control.py:83-90 | `wait_flag` reads at most t times; True means the last read matched and the earlier ones did not; False means all t reads were made and none matched; a fault means the last read failed; the RAM has seen exactly the sleeps made |
| Controller.PollTrueIff | memory_control.py:83-90 | `wait_flag` answers True if and only if some read within the budget matched before any read failed |
| Controller.PollQuiet | memory_control.py:83-90 | with no other writer: t <= 0 answers False with no read; a first read equal to the value answers True after one read; otherwise False after t reads; the RAM is unchanged |
| Controller.Dispatch | memory_control.py:100-140 | an empty request answers the error message; a first element other than 1..5 answers "there is no such request"; for each opcode, a missing operand or one of the wrong kind (a list where an integer is used, an integer where the data list is used) answers the error message and changes nothing; opcodes 1 and 3 change nothing; opcodes 1, 2, 5 answer one item; opcode 3 answers max(n, 0) words; opcode 4 answers one item per data word; opcode 5 answers a flag; the queue is never replaced by a cell |
| Controller.ReadWordAnswer | memory_control.py:101-103 | opcode 1 answers the one word at the address and changes nothing, or the error message for an address outside the dictionary |
| Controller.ReadBlockAnswer | memory_control.py:117-120 | opcode 3 changes nothing and answers the block read, or the error message when an address of the block is not in the dictionary |
| Controller.WaitAnswer | memory_control.py:132-135 | opcode 5 answers the polling loop's flag, or the error message when one of its reads failed, and leaves the RAM as the loop's sleeps left it |
| Controller.WriteWordEcho | memory_control.py:108-111 | opcode 2 performs the driver write; on a word cell it answers the word written; on the queue address it enqueues the word and answers 0 |
| Controller.WriteBlockEcho | memory_control.py:121-126 | opcode 4 over distinct word cells performs the block write and answers exactly the data |
| Controller.PostToFifo | memory_control.py:121-126 | opcode 4 at the queue address with stride 0 enqueues every data word in order, changes no cell, and answers one 0 per word |
| Controller.MemoryController.constructor | memory_control.py:11-17 | the controller's driver is the given RAM |
| Controller.MemoryController.ReadWord | memory_control.py:24-34 | `read_word` answers the driver read of the current RAM |
| Controller.MemoryController.WriteWord | memory_control.py:36-44 | `write_word` leaves the RAM as the driver write says |
| Controller.MemoryController.ReadData | memory_control.py:46-59 | the loop's list is the block read of the current RAM, of max(n, 0) words |
| Controller.MemoryController.WriteData | memory_control.py:61-70 | the loop leaves the RAM as the block write, in increasing i, says |
| Controller.MemoryController.WaitFlag | memory_control.py:72-90 | the loop's answer, number of reads and final RAM are those of the polling function, whose properties are the Poll lemmas |
| Controller.MemoryController.Request | memory_control.py:92-140 | the answer and the new RAM are those of `Dispatch` |
| Device.DecodeCommand | emulator.py:98-116 | the five fields are in range: target and tolerance below 4096, attempts below 8, the history flag 0 or 1, the element below 16 |
| Device.RampSeq | emulator.py:122-125 | the history holds num words, word i being the ramp after i + 1 steps |
| Device.StepCountBound | emulator.py:119-120 | a 12-bit target asks for between 0 and 461 steps |
| Device.RampMonotone | emulator.py:122-123 | the ramp never decreases |
| Device.RampRange | emulator.py:119-123 | within 461 steps the ramp stays in [0, 4095] and reaches 4095 at step 461 |
| Device.RampReachesTarget | emulator.py:119-127 | the final ramp value is at most the target code and at least the target code minus 9 |
| Device.RampExample | emulator.py:119-127 | a target code of 2000 takes 225 steps and ends at 1998 |
| Device.StoreSeq | emulator.py:122-125 | the device's run of assignments never touches the queue nor replaces it |
| Device.StoreSeqAt | emulator.py:68-72 | word i of the run lands at base + 4i |
| Device.StoreSeqElse | emulator.py:68-72 | an address outside the aligned range of the run keeps what it held |
| Device.Draws | emulator.py:70 | the self test draws 16 values, each in [0, 4095] |
| Device.ProgramFinish | emulator.py:119-129 | the program mode after the command word leaves the queue alone and never replaces it by a cell |
| Device.SelfTestEffect | emulator.py:60-74 | after the self test the 16 words at 0xC0000040 + 4i are the draws; result id 1 and status 1; no cell outside the device's registers and not the queue changes |
| Device.SelfTestFrame | emulator.py:60-74 | the self test writes only the status, the result id and the 16 result words; every other cell, the program result and the history words included, keeps what it held |
| Device.ProgramEffect | emulator.py:76-129 | with num = floor(target * 461 / 4095) <= 461: the history words 0xC0004000 + 4i for i < num hold the ramp when bit 27 is set, and the history is untouched otherwise and beyond num; 0xC0000080 holds the final ramp value; result id 2, status 1; no cell outside the device's registers and not the queue changes |
| Device.ProgramFrame | emulator.py:76-129 | program mode writes only the status, the result id, 0xC0000080 and, with the history flag, the first num history words; every other cell keeps what it held |
| Device.ProgramKeepsTestBlock | emulator.py:76-129 | program mode leaves the self test's 16 result words as they were |
| Device.WorkSpec | emulator.py:56-129 | `work` takes at most one value from the queue; a mode other than 0xA1 and 0xB2 changes nothing; 0xB2 with a value in the queue ends waiting for the next mode with that value gone from the front of the queue, and with an empty queue blocks busy after `busy()` and `set_result_id(0)` |
| Device.WorkModes | emulator.py:60-129 | 0xA1 leaves the self test's RAM for the next 16 draws and advances the draw counter by 16; 0xB2 marks the device busy, then takes exactly the next value as its command word and runs program mode on it |
| Device.Next | emulator.py:35-39 | every pass of the loop takes at least one value from the queue |
| Device.NextInvariant | emulator.py:30-39 | one pass keeps the status protocol (ready while waiting for a mode, busy with no result while waiting for the command word), touches only the device's registers, and takes values from the front of the queue only |
| Device.NextProtocol | emulator.py:30-39 | one pass keeps the status protocol and never leaves the device as before `run` |
| Device.NextFrame | emulator.py:30-39 | one pass touches only the device's registers and takes values from the front of the queue only |
| Device.WorkKeeps | emulator.py:56-129 | a mode taken while ready leaves the status protocol in force, touches only the device's registers, and takes values from the front of the queue only |
| Device.ProgramModeKeeps | emulator.py:76-129 | program mode taken while ready leaves the status protocol in force (busy with no result while it waits for the command word, ready otherwise), touches only the device's registers, and takes values from the front of the queue only |
| Device.FinishKeeps | emulator.py:119-129 | after program mode the device shows ready, has touched only its registers, and has left the queue as it was |
| Device.SelfTestKeeps | emulator.py:60-74 | after the self test the device shows ready, has touched only its registers, and has left the queue as it was |
| Device.ServeInvariant | emulator.py:30-39 | the whole loop keeps the status protocol, touches only the device's registers, consumes the queue from its front, stops only when stopped or blocked, and once stopped does nothing |
| Device.ServeProtocol | emulator.py:30-39 | the loop keeps the status protocol, returns only when stopped or blocked on an empty queue, and once stopped does nothing |
| Device.ServeFrame | emulator.py:30-39 | the loop touches only the device's registers and takes values from the front of the queue only |
| Device.RunHandshake | emulator.py:30-39 | `run` shows ready before it takes anything, and the status protocol holds when it stops or blocks |
| Device.StopsAt777 | emulator.py:36-38 | 777 taken in place of a mode stops the loop without `work` and without touching any cell |
| Device.Fpga.constructor | emulator.py:13-14 | a new device has not started and has drawn nothing |
| Device.Fpga.Ready | emulator.py:16-21 | `ready()` sets the status cell to 1 and nothing else |
| Device.Fpga.Busy | emulator.py:23-28 | `busy()` sets the status cell to 0 and nothing else |
| Device.Fpga.SetResultId | emulator.py:42-47 | `set_result_id` sets the result-id cell and nothing else |
| Device.Fpga.WriteWord | emulator.py:49-54 | `write_word` sets that cell and nothing else |
| Device.Fpga.SelfTest | emulator.py:60-74 | the self-test loop leaves the RAM its specification gives for the next 16 draws and advances the draw counter by 16 |
| Device.Fpga.Program | emulator.py:76-129 | the ramp loop, accumulating `resistance` step by step, leaves the RAM `ProgramFinish` gives |
| Device.Fpga.Work | emulator.py:56-129 | `work(mode)` leaves the device as `WorkSpec` says |
| Device.Fpga.Run | emulator.py:30-40 | `run` leaves the device as its loop function says, whose properties are the loop lemmas |
| Client.PackCommand | main.py:107-111 | the shift chain equals (e-1)*2^28 + h*2^27 + a*2^24 + d*2^12 + t |
| Client.PackDecodeRoundTrip | main.py:107-111 | for fields in range the word fits 32 bits and the emulator's masks recover target, delta, attempts, history and element - 1 |
| Client.DecodePackRoundTrip | emulator.py:98-116 | every 32-bit word is the packing of the fields the emulator's masks decode from it, with the element field plus one as `program_element`'s element |
| Client.TargetSurvives | main.py:107-111 | whatever the other values, the emulator recovers a 12-bit target unchanged |
| Client.NegativeDeltaBleeds | main.py:110 | the delta is not masked: a delta of -1 corrupts every field above it (tolerance 4095, attempts 7, flag 1, element 15) |
| Client.SendSpec | main.py:53-54 | `send` records the request and makes the next reply, or [] when none comes, the `data_from_server` |
| Client.Zeros | main.py:82 | the fallback is n zeros |
| Client.ChannelsAgree | main.py:150 | element e uses the channel that test index e - 1 uses |
| Client.MapConv | main.py:75 | `list(map(conv, data))` converts item by item |
| Client.TestConversion | main.py:75-78 | test value i goes through the second conversion for 4 <= i < 8 and the first otherwise |
| Client.TestMatrixShape | main.py:44-87 | `test_matrix` sends 1, 3 or 4 requests, a prefix of the four in order; it never lets AssertionError escape; when it returns it has 16 values, the converted block when all four were sent and 16 came back, zeros otherwise; IndexError on an empty wait reply leaves `test_data` alone |
| Client.TestMatrixReplies | main.py:44-87 | `test_matrix` consumes exactly the replies it sends for, in order, and sends all four exactly when both waits were truthy |
| Client.ProgramElementPrefix | main.py:89-165 | `program_element` sends a prefix of its request list (1, 3 or 4 of them when it raises, all when it returns); a raise leaves the history alone; the final value is reset to 0 before its read; with the flag and a return the history has 461 values |
| Client.ProgramElementReplies | main.py:116-165 | with every reply present and both waits truthy, `program_element` returns; the final value is the first item of the fourth reply through the element's channel; with the flag the history is the fifth reply through that channel when it has 461 items, 461 zeros otherwise |
| Client.App.constructor | main.py:168-175 | the protocol state starts empty with the given replies and conversions |
| Client.App.Send | main.py:53-54 | `send` leaves the state `SendSpec` gives |
| Client.App.TestMatrix | main.py:44-87 | the method, its overwrite loop over indices 4..7 included, returns and leaves what `TestMatrixSpec` gives |
| Client.App.ProgramElement | main.py:89-165 | the method, packing the word by the shift chain, returns and leaves what `ProgramElementSpec` gives |
| Client.App.PostAndCollect | main.py:123-165 | the method's part from the posting of the command word on returns and leaves what `ProgramAfterReady` gives |
| HostHistory.LineLength | main.py:302 | a line ends at its first newline, or at the end of the text |
| HostHistory.Lines | main.py:301-303 | iterating over the file yields no empty line |
| HostHistory.Others | main.py:324-328 | the other hosts never contain ip |
| HostHistory.RemoveFirstEffect | main.py:324-326 | `remove(ip)` cuts out the earliest position holding ip and nothing else, so exactly one ip goes, the other hosts keep their order, and the list is one shorter |
| HostHistory.RemoveFirstPosition | main.py:324-326 | the list `remove(ip)` leaves is the old list with the element at the first position holding ip cut out |
| HostHistory.FirstPosition | main.py:324-326 | returns the first position holding ip; `remove(ip)` leaves the list with that element cut out |
| HostHistory.RemoveFirstCounts | main.py:324-326 | `remove(ip)` takes exactly one ip out, keeps the other hosts in order, and shortens the list by one |
| HostHistory.MoveToFrontEffect | main.py:319-330 | after `add_host_to_history(ip)` the list is ip followed by the old list with its first ip cut out, or by the whole old list when ip was not in it; so every other host keeps its order, and ip occurs once more than before, or as often when it was there |
| HostHistory.LinesOfHostFile | main.py:302-316 | the lines of a written list of newline-free hosts are the hosts, each with its newline |
| HostHistory.HostFileRoundTrip | main.py:293-316 | writing a non-empty list of newline-free hosts and reading it back gives the list |
| HostHistory.EmptyListReadsBlank | main.py:316 | writing the empty list leaves one newline, which reads back as `[""]` |
| HostHistory.LinesNoNewLine | main.py:302-303 | a host read from the file never holds a newline |
| HostHistory.HostListNoNewLine | main.py:293-308 | no host in the list read from the file holds a newline |
| HostHistory.HostSettings.constructor | main.py:34-36 | the settings hold the given file, host and address check |
| HostHistory.HostSettings.ReadHostListFromFile | main.py:293-308 | the loop returns every line with its last character cut off, or [] without the file |
| HostHistory.HostSettings.WriteHostListToFile | main.py:310-317 | the file becomes the hosts joined by newlines, plus a newline |
| HostHistory.HostSettings.AddHostToHistory | main.py:319-330 | the file becomes the list with ip moved (or added) to the front |
| HostHistory.HostSettings.SetHostFromFile | main.py:332-339 | the host becomes the first listed host when there is one and the address check accepts it, and stays as it was otherwise |
| HostHistory.AddThenSet | main.py:319-339 | adding a valid, newline-free ip and then setting the host from the file makes ip the host, whatever the file held |
| Scenario.Exchange | memory_control.py:92-140 | a run of requests gets one reply per request |
| Scenario.WaitMatches | memory_control.py:83-87 | a wait on a cell that already holds the value answers True and changes nothing |
| Scenario.ReadMatches | memory_control.py:117-120 | a block read of provisioned cells answers their words and changes nothing |
| Scenario.ReadWordMatches | memory_control.py:101-103 | a word read of a provisioned cell answers its word and changes nothing |
| Scenario.SelfTestStep | emulator.py:60-74 | posting 0xA1 to an idle device runs the whole self test before the next request, answers 0, and leaves the device idle |
| Scenario.ProgramStep | emulator.py:76-129 | posting 0xB2 and a word to an idle device runs the whole program mode on that word before the next request and answers two 0s |
| Scenario.ProgramRuns | emulator.py:76-129 | with 0xB2 and a word queued, the device takes both and runs program mode on that word to its end, leaving the queue empty |
| Scenario.SelfTestResults | emulator.py:60-74 | after the self test the result id is 1 and the 16-word block reads back as the draws |
| Scenario.WaitThenRead | main.py:62-70 | once the self test is over, the wait answers True and the block read answers the draws |
| Scenario.TestMatrixExchange | main.py:51-70 | from an idle device the four requests of `test_matrix` are answered ready, 0, result id 1, and the 16 draws; the device ends idle |
| Scenario.TestMatrixOfDraws | main.py:44-87 | given the answers ready, 0, result id 1 and 16 draws, `test_matrix` returns, sends its four requests, and value i is draw i through the channel of index i |
| Scenario.TestMatrixEndToEnd | main.py:44-87 | against an idle device `test_matrix` returns, sends its four requests, and its 16 values are the self test's draws each through its channel; the device ends idle, 16 draws later |
| Scenario.WaitThenFinal | main.py:129-140 | once program mode is over, the wait for result id 2 answers True and the final read answers the final value |
| Scenario.HistoryRead | main.py:143-146 | once program mode is over, the history request answers the 461 history words |
| Scenario.ProgramOutcome | emulator.py:119-129 | after program mode on an idle device with its history provisioned: result id 2, status 1, the final ramp value, and 461 readable history words starting with the ramp when the flag is set |
| Scenario.ProgramTail | main.py:129-146 | after the command is posted the remaining requests are answered True, the final value, and (with the flag) the history |
| Scenario.ProgramExchange | main.py:116-146 | from an idle device the requests of `program_element` are answered ready, two 0s, True, the final ramp value, and (with the flag) the 461 history words headed by the ramp; the device ends idle |
| Scenario.ProgramElementEndToEnd | main.py:89-165 | against an idle device, with every field in range, `program_element` returns and sends its requests; the device programs element - 1 with the target code the client computed; the final value is the last ramp value through the element's channel, at most the target code and at least nine below it; with the flag the history has 461 values whose first num are the ramp through that channel; the device ends idle |
| Scenario.ProgramReplies | main.py:136-165 | given the answers of a programming exchange, `program_element` returns with the final ramp value and (with the flag) the converted ramp history |

## Left out

- The sockets, the pickle framing and the connect/retry thread of `fpga_client.py` are not modelled. The replies that reach MainApp are an input sequence, and a missing reply is the empty list.
- The GUI modules (`gui.py`, `gui_main.py`, `gui_data_manager.py`), logging, `print`, `print(bin(word))`, matplotlib, argparse and the OS plumbing of `main.py` (server launch, log clean-up, settings directory) are left out as I/O.
- `MemoryController.__init__` loads a C library through ctypes. The model's driver is always the emulator's RAM.
- `time.sleep` is not modelled as time. Each sleep is the point where other actors may write. Those writes are an input sequence of maps (`env`), one per sleep.
- The emulator's thread and `queue.Queue` blocking are not modelled as concurrency. The device's phase records where its `get()` would block, and `Scenario` fixes one schedule: after each request the device runs until it blocks. Other interleavings are not explored. Intermediate busy states cannot be seen in that schedule, since a wait only runs while the device is blocked.
- `random.randint(0, 4095)` is replaced by a function from draw number to a value in [0, 4095].
- Device.Ramp: the ramp is exact rational arithmetic, `floor(k * 4095 / 461)`, rather than the binary64 accumulation of `resistance + step`. Rounding drift in the float sum (for example a last step landing just below an integer) is not captured.
- `tools.conv_to_voltage`, `conv_to_resistance`, `conv_to_resistance_second` and `check_ip_adress` are not part of this model. They are parameters: arbitrary functions.
- Controller.Dispatch: opcode 2 with a list in the word position is answered with the error message before anything is written. The emulator's driver first acts on the list and only then fails on `hex()`. On a word cell it stores the list in the cell. On the queue address it enqueues the list, and the device thread then fails on `hex(mode)` when it takes it. Opcode 4 data that holds a nested list is not modelled either: `Operand` has no such value. The model's cells and queue hold only integers.
- The fixed schedule hides a race. A real device thread might not yet have taken 0xA1 when `test_matrix` starts its second wait. If a self test has run before, result id 1 is still set, so that wait could succeed at once and the block read could return the previous draws. The model does not capture this outcome.
- HostHistory.HostListOf: the file's text is taken after Python's universal-newline translation. Encodings and `\r\n` are not modelled, and neither are I/O errors other than a missing file.
- The server process that forwards requests to `MemoryController.request` is not part of this model. Requests reach `Dispatch` directly.
