# openBuildNet bridge for EnergyPlus, modelled in Dafny

This project models `third_party/BCVTB/openbuildnet.cpp`. That file couples
EnergyPlus, the building simulation engine, to an openBuildNet node. The node
is an MQTT client that runs in its own thread. The two threads talk through
two signal slots:

- EnergyPlus to node: NONE, DONE, TERM, EXIT.
- Node to EnergyPlus: NONE, START, UPDATE_Y, UPDATE_X, TERM, QUIT, TIMEOUT.

Each EnergyPlus step runs a two-phase exchange:

1. Wait for UPDATE_Y, publish the outputs and acknowledge with DONE.
2. Wait for UPDATE_X, take the inputs and the node's simulation time, and acknowledge with DONE.

Any other signal ends the step through `processOBNSignal`. The node is
configured from a text file: a transport line, a node line, and option lines
(`quitifobnstops`, `timeout N`).

The project has three modules:

- `Signals` (`signals.dfy`) holds the two signal alphabets, the translation
  `ProcessOBNSignal`, the diagnostic names and the choice of the effective
  timeout.
- `Config` (`config.dfy`) holds line splitting (`find_first_of` and
  `find_first_not_of` on `" \t"`), option parsing, and the effect of the
  option lines on the two settings.
- `Bridge` (`bridge.dfy`) holds two classes:
  - `NodeThread` is the node thread together with its node: the output and
    input vectors, the running and error marks, and the server address.
  - `Link` is the process-wide state: both slots, `quitIfOBNTerminates`,
    `default_obn_timeout`, and the node thread once it is created.

  The slot operations, the node callbacks, the exchange, `initOBNNode` and
  `stopOBNNode` are methods of `Link`. They update these fields in place.

A blocking wait receives what ends it as a parameter: for EnergyPlus a posted
signal or an elapsed timeout (`Arrival`), for the node the signal EnergyPlus
replies with. The other thread's post is then carried out as the same call it
is in the source (`SignalEPlus` or `SignalOBN`), so its side effects are kept.
A ghost `trace` records the observable actions of both threads in order:

- slot posts (the resets are not recorded)
- handler events queued on the node
- outputs written
- inputs read
- the node's simulation stopped

The contracts state the order of these actions. The exchanged doubles and the
simulation time are a type parameter `V`, because only copying and order
matter.

Behaviour of the code worth noting:

- The wait uses the configured default timeout whenever its argument is not
  positive. It does not distinguish an omitted argument from an explicit one.
- Reading the inputs has no caller-side maximum. All values are copied when
  there are at most NDBLMAX of them.
- A QUIT from the node is translated to return 0 with flag -1 (an abnormal
  stop), not to an error code.
- The option lines take effect even when `initOBNNode` fails afterwards.
- A node thread that was created but failed to start is kept, so a later call
  returns true.
- `signalOBN` queues the handler for every signal other than DONE and NONE.
  This is not limited to termination signals, although with the values the
  file names it amounts to TERM and EXIT.

## Model

| member | source | states |
|---|---|---|
| Signals.ProcessOBNSignal | third_party/BCVTB/openbuildnet.cpp:508-527 | TERM and QUIT return 0 and set the flag to 1 and -1 respectively. TIMEOUT returns -21. Every other signal returns -22. Every non-zero return is negative and leaves the flag as it was. |
| Signals.ProcessedDeterminesVerdict | third_party/BCVTB/openbuildnet.cpp:508-527 | With the flag starting at 0, two signals give the same (return, flag) pair exactly when they give the same verdict: normal stop, abnormal stop, timeout or unexpected. |
| Signals.OBNSignalName | third_party/BCVTB/openbuildnet.cpp:70-96 | Every signal has a non-empty name other than "INVALID". |
| Signals.OBNSignalNameInjective | third_party/BCVTB/openbuildnet.cpp:70-96 | Distinct signals have distinct names. |
| Signals.EffectiveTimeout | third_party/BCVTB/openbuildnet.cpp:117-120 | A positive argument is used as given; otherwise the default is used. The result is positive (a bounded wait) exactly when the argument or the default is positive. |
| Config.FindBlank | third_party/BCVTB/openbuildnet.cpp:313 | The result is the first position at or after `from` holding a space or tab, or the length when there is none. |
| Config.FindNonBlank | third_party/BCVTB/openbuildnet.cpp:319 | The result is the first position at or after `from` holding neither a space nor a tab, or the length when there is none. |
| Config.SplitWord | third_party/BCVTB/openbuildnet.cpp:313-323 | The head is a blank-free prefix ending at the first blank or at the end of the line. The tail is a suffix that is empty or starts with a non-blank. Only blanks lie between the two. |
| Config.SplitWordJoin | third_party/BCVTB/openbuildnet.cpp:329-339 | Splitting `word + blanks + rest` gives back `word` and `rest` (round trip). |
| Config.ReadHeader | third_party/BCVTB/openbuildnet.cpp:313-393 | The address and the node name have no space at either end. The workspace is a suffix of the node line and starts with a non-blank when there is one. |
| Config.ReadHeaderJoin | third_party/BCVTB/openbuildnet.cpp:313-339 | Lines written as `transport blanks address` and `name blanks workspace` read back as the transport trimmed and lower-cased, the address and the name trimmed, and the workspace as written (round trip). |
| Config.SplitOption | third_party/BCVTB/openbuildnet.cpp:348-357 | The argument has no space at either end. A line without a blank has no argument. |
| Config.SplitOptionJoin | third_party/BCVTB/openbuildnet.cpp:348-357 | For a word, one blank and a remainder: the option name is the word trimmed and lower-cased. The argument is the trimmed remainder, or none when nothing follows the blank. |
| Config.SplitOptionWord | third_party/BCVTB/openbuildnet.cpp:348-357 | A line without a blank is all option name, trimmed and lower-cased, with no argument. |
| Config.AtoiDecimal | third_party/BCVTB/openbuildnet.cpp:367 | `atoi` reads back the decimal notation of any natural number, and of its negation with a leading '-'. |
| Config.DigitsValueDecimal | third_party/BCVTB/openbuildnet.cpp:367 | The value of the digits of the decimal notation of n is n. |
| Config.ParseOption | third_party/BCVTB/openbuildnet.cpp:347-371 | Classifies an option line by its trimmed, lower-cased first word. `quitifobnstops` is the quit option. `timeout` with a non-empty trimmed rest carries `atoi` of the rest. `timeout` without a rest is bare. Anything else is unknown. |
| Config.ParseOptions | third_party/BCVTB/openbuildnet.cpp:343-374 | Every option line is classified, in order, with one classification per line. |
| Config.ApplyOption | third_party/BCVTB/openbuildnet.cpp:359-371 | The quit flag becomes set on `quitifobnstops` and otherwise keeps its value. The timeout changes only on a `timeout` line that carries an argument. |
| Config.ApplyOptionsAppend | third_party/BCVTB/openbuildnet.cpp:343-374 | Applying two blocks of option lines one after the other equals applying their concatenation. |
| Config.ApplyOptionsStep | third_party/BCVTB/openbuildnet.cpp:343-374 | Line i takes effect on the settings produced by lines 0..i-1. |
| Config.QuitAfterOptions | third_party/BCVTB/openbuildnet.cpp:360-362 | After the option lines, the quit flag is set exactly when it was set before or some line is `quitifobnstops`. |
| Config.TimeoutAfterOptions | third_party/BCVTB/openbuildnet.cpp:363-368 | Without a `timeout` line that carries an argument, the timeout is unchanged. Otherwise it is the value of the last such line. |
| Config.IneffectiveOptionIgnored | third_party/BCVTB/openbuildnet.cpp:363-371 | An unknown option line or a bare `timeout` line can be removed from anywhere without changing the result. |
| Config.TimeoutLine | third_party/BCVTB/openbuildnet.cpp:347-368 | `timeout N` sets the timeout to N. `timeout` alone is a bare timeout line. |
| Config.SplitTimeoutLine | third_party/BCVTB/openbuildnet.cpp:348-356 | `timeout` followed by a blank and a number splits into the option name and the number. |
| Bridge.NodeThread.constructor | third_party/BCVTB/openbuildnet.cpp:256-258 | A new node thread has the given name and workspace. It is not running and not in error, its vectors are empty and its server address is unset. |
| Bridge.NodeThread.StartThread | third_party/BCVTB/openbuildnet.cpp:266-280 | Succeeds exactly when the thread was not running and the node initialised. The thread then runs; it keeps running if it already was. |
| Bridge.NodeThread.SetOutputValues | third_party/BCVTB/openbuildnet.cpp:165-172 | The output vector becomes exactly `dblVals[0..nDbl)`, in order, and the result is `nDbl`. |
| Bridge.NodeThread.GetInputValues | third_party/BCVTB/openbuildnet.cpp:178-191 | With more than NDBLMAX inputs: -1, count 0, and the array untouched. Otherwise: 0, the count, the array prefix equal to the inputs in order, and the remaining cells untouched. |
| Bridge.Link.constructor | third_party/BCVTB/openbuildnet.cpp:28-35 | Initial state: quit flag false, default timeout -1, both slots empty, no node thread. |
| Bridge.Link.SignalEPlus | third_party/BCVTB/openbuildnet.cpp:40-46 | The node-to-EnergyPlus slot holds the new signal, replacing any pending one. |
| Bridge.Link.SignalOBN | third_party/BCVTB/openbuildnet.cpp:415-425 | The EnergyPlus-to-node slot holds the new signal. The node's handler is queued only for a signal other than DONE and NONE, and only when a node thread exists. |
| Bridge.Link.SignalOBNTerm | third_party/BCVTB/openbuildnet.cpp:103-105 | Posts TERM, with the same handler rule. |
| Bridge.Link.SignalOBNExit | third_party/BCVTB/openbuildnet.cpp:107-109 | Posts EXIT, with the same handler rule. |
| Bridge.Link.WaitForEPlusSignal | third_party/BCVTB/openbuildnet.cpp:49-57 | A pending command is returned at once and stays pending. Otherwise EnergyPlus's reply is posted and returned. |
| Bridge.Link.ResetEPlusSignal | third_party/BCVTB/openbuildnet.cpp:60-63 | The EnergyPlus-to-node slot becomes empty. |
| Bridge.Link.GetOBNSignal | third_party/BCVTB/openbuildnet.cpp:65-68 | Returns the node-to-EnergyPlus slot without clearing it. |
| Bridge.Link.ResetOBNSignal | third_party/BCVTB/openbuildnet.cpp:98-101 | The node-to-EnergyPlus slot becomes empty. |
| Bridge.Link.WaitForOBNSignal | third_party/BCVTB/openbuildnet.cpp:111-133 | A pending signal is returned at once and stays pending, whatever the timeout. Otherwise the posted signal is returned. Time can run out only under a positive effective timeout; TIMEOUT is then returned and the slot stays empty. |
| Bridge.Link.SetOBNTimeout | third_party/BCVTB/openbuildnet.cpp:135-137 | The default timeout becomes the argument. |
| Bridge.Link.AwaitAcknowledgement | third_party/BCVTB/openbuildnet.cpp:449-476 | The request is posted for EnergyPlus. The answer is a pending command if there is one, otherwise the reply. The EnergyPlus-to-node slot is cleared only when the answer is DONE; any other answer stays pending. |
| Bridge.Link.OnUpdateY | third_party/BCVTB/openbuildnet.cpp:449-456 | Acknowledged(UPDATE_Y, reply): UPDATE_Y is posted, and the slot is cleared only on DONE. |
| Bridge.Link.OnUpdateX | third_party/BCVTB/openbuildnet.cpp:459-466 | Acknowledged(UPDATE_X, reply), as above. |
| Bridge.Link.OnInitialization | third_party/BCVTB/openbuildnet.cpp:469-476 | Acknowledged(START, reply), as above. |
| Bridge.Link.OnTermination | third_party/BCVTB/openbuildnet.cpp:479-481 | TERM is posted for EnergyPlus, with no wait. |
| Bridge.Link.HandleEPlusSignal | third_party/BCVTB/openbuildnet.cpp:484-501 | The EnergyPlus-to-node slot is always cleared. The node's simulation is stopped exactly for TERM and EXIT. |
| Bridge.Link.AskEnergyPlusToQuit | third_party/BCVTB/openbuildnet.cpp:147-151 | The EnergyPlus-to-node slot is cleared and QUIT is posted, so EnergyPlus's acknowledgement is what arrives, and it stays pending. |
| Bridge.Link.ReportNodeError | third_party/BCVTB/openbuildnet.cpp:206-236 | The node is marked as in error and EnergyPlus is asked to quit. |
| Bridge.Link.OnRawMessageError | third_party/BCVTB/openbuildnet.cpp:206-211 | The node is marked as in error and EnergyPlus is asked to quit. |
| Bridge.Link.OnReadValueError | third_party/BCVTB/openbuildnet.cpp:214-219 | The node is marked as in error and EnergyPlus is asked to quit. |
| Bridge.Link.OnSendMessageError | third_party/BCVTB/openbuildnet.cpp:222-227 | The node is marked as in error and EnergyPlus is asked to quit. |
| Bridge.Link.OnOBNError | third_party/BCVTB/openbuildnet.cpp:232-236 | The node is marked as in error and EnergyPlus is asked to quit. |
| Bridge.Link.StopThread | third_party/BCVTB/openbuildnet.cpp:283-289 | Afterwards the thread is not running. If it was running, EXIT was posted, which queues the handler. Otherwise nothing happened. |
| Bridge.Link.StopOBNNode | third_party/BCVTB/openbuildnet.cpp:409-413 | As written: the stop is reached, through a null pointer, exactly when there is no node thread. A live thread is left alone. |
| Bridge.Link.StopOBNNodeFixed | third_party/BCVTB/openbuildnet.cpp:409-413 | With the guard corrected, an existing node thread is stopped and its vectors, error mark and address are unchanged. If the thread was running, EXIT was posted and the handler queued; otherwise nothing was posted. Without a thread, nothing happens. |
| Bridge.StopOBNNodeLeavesThreadRunning | third_party/BCVTB/openbuildnet.cpp:409-413 | On a running thread, the as-written stop dereferences nothing and leaves the thread running (`stillRunning`); the corrected one then stops it. |
| Bridge.LastSignalWins | third_party/BCVTB/openbuildnet.cpp:40-46 | Two posts without a reset in between: the wait sees the later one. The slot is not a queue. |
| Bridge.Link.AwaitInputs | third_party/BCVTB/openbuildnet.cpp:570-589 | Waits for UPDATE_X and clears the slot. Any other signal is translated and nothing is read. On UPDATE_X the inputs are read as by `getInputValues`, the node's time is taken, and DONE is sent even when the read failed. |
| Bridge.Link.Exchange | third_party/BCVTB/openbuildnet.cpp:543-590 | No thread: returns -1 and changes nothing. A first signal other than UPDATE_Y is translated with no output and no DONE. Otherwise the trace is, in order: outputs published, DONE, then the second signal's translation, or the inputs read and DONE. The node-to-EnergyPlus slot ends empty. |
| Bridge.Link.ApplyConfigOptions | third_party/BCVTB/openbuildnet.cpp:343-374 | Applying the classified option lines one by one leaves the two settings equal to `ApplyOptions` of those lines. |
| Bridge.Link.InitOBNNode | third_party/BCVTB/openbuildnet.cpp:295-407 | No file: false. An existing thread: true, with nothing changed. An unreadable file or one with fewer than two lines: false. Otherwise the options are applied, and a thread is created exactly when the transport is `mqtt` and the node name is valid. The call succeeds exactly when, in addition, the node initialises. |
| Bridge.Link.StartNode | third_party/BCVTB/openbuildnet.cpp:381-403 | Only `mqtt` with a valid name creates a fresh thread. The thread gets the trimmed name, the workspace and the trimmed address, and it is started. |

## Left out

- Threads, mutexes, condition variables and real timing are not modelled. Each wait receives what ends it as a parameter, so races and notifications are outside the model.
- The openBuildNet node library is not part of this model. `openSMNPort`, `addInput` and `addOutput` become the `initializes` flag of `StartThread`. `postCallbackEvent` and `stopSimulation` are trace events. `currentSimulationTime` is the `clock` parameter, and `setServerAddress` sets the `server` field. `run` and `threadMain` are left out: they are the node's event loop.
- The helper library's `trim`, `toLower` and `isValidNodeName` are not part of this model. `Trim` and `ToLower` are given ASCII definitions, and `isValidNodeName` is a parameter.
- Reading the configuration file with `std::ifstream` is not modelled. The file is a sequence of lines, or a missing or unreadable document.
- Floating-point values are not modelled; the doubles and the simulation time are an opaque type.
- The header `openbuildnet.h` is not part of this model. The signal values are the ones this file names. The default argument of `waitforOBNSignal` is taken as -1, and any non-positive value behaves the same.
- The "INVALID" branch of `getOBNSignalName` is not modelled: an out-of-range enumeration value cannot be represented.
- `onOBNWarning` is not modelled: its body is empty.
- The destructor of the node thread is not modelled. It only calls `stopThread`, which is modelled.
- The flag `flaWri` of the exchange is not modelled: the code never reads it.
- Config.Atoi: a value that overflows `int` (undefined in C) is not modelled.
- Bridge.Link.Exchange: requires `0 <= nDblWri`, because a negative count would turn into a huge `size_t` in `setOutputValues`.

## Findings

| source | as written | input that shows it | evidently intended | confidence | as-written member | corrected member |
|---|---|---|---|---|---|---|
| third_party/BCVTB/openbuildnet.cpp:409-413 | `if (!obn_thread) obn_thread->stopThread();` stops only when there is no thread, dereferencing a null pointer, and never stops a live thread | A node thread that is running when `stopOBNNode` is called | `if (obn_thread) obn_thread->stopThread();` | not executed | Bridge.Link.StopOBNNode (exhibited by Bridge.StopOBNNodeLeavesThreadRunning) | Bridge.Link.StopOBNNodeFixed |
