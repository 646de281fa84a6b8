/** The bridge between EnergyPlus and its openBuildNet node: the two signal
    slots and the settings shared by the EnergyPlus thread and the node thread,
    the node's output and input vectors, the node callbacks, the two-phase
    exchange EnergyPlus runs every step, and the start and stop of the node.

    Blocking waits are made explicit: a wait on an empty slot receives what
    the other thread does meanwhile as a parameter (an `Arrival`, or the signal
    EnergyPlus replies with), and that other thread's action is carried out as
    the call it is in the source. */
module Bridge {
  import opened Signals
  import opened Config

  /** What ends a wait of EnergyPlus on the empty node-to-EnergyPlus slot: the
      node posts a signal, or the time limit runs out. */
  datatype Arrival = Posted(sig: OBNSignal) | Elapsed

  /** An arrival the wait can see: a posted signal is not the empty one, and
      the time can only run out when the wait has a positive limit. */
  predicate CanArrive(a: Arrival, timeout: int) {
    match a
    case Posted(sig) => sig != Silent
    case Elapsed => timeout > 0
  }

  /** The signal a wait on the node-to-EnergyPlus slot returns: a pending
      signal at once, otherwise the posted one or `Timeout`. */
  function Observed(pending: OBNSignal, a: Arrival): OBNSignal {
    if pending != Silent then pending
    else match a
      case Posted(sig) => sig
      case Elapsed => Timeout
  }

  /** Observable actions of both threads, in the order they happen. */
  datatype Action<V> =
    | SentToOBN(e: EPlusSignal)      // the EnergyPlus-to-node slot was written
    | HandlerPosted                  // a `handleEPlusSignal` event was queued on the node
    | SentToEPlus(o: OBNSignal)      // the node-to-EnergyPlus slot was written
    | SimulationStopped              // the node was told to stop its simulation
    | OutputsWritten(values: seq<V>) // the node's output vector was filled
    | InputsRead                     // EnergyPlus took the node's input vector

  /** Whether `signalOBN` also queues the handler on the node: only for a real
      command (neither DONE nor NONE) and only when the node thread exists. */
  predicate PostsHandler(sig: EPlusSignal, threadExists: bool) {
    sig != Done && threadExists && sig != Quiet
  }

  function SignalOBNActions<V>(sig: EPlusSignal, threadExists: bool): seq<Action<V>> {
    [SentToOBN(sig)] + if PostsHandler(sig, threadExists) then [HandlerPosted] else []
  }

  function ArrivalActions<V>(pending: OBNSignal, a: Arrival): seq<Action<V>> {
    if pending == Silent && a.Posted? then [SentToEPlus(a.sig)] else []
  }

  /** The default argument of the engine's wait, declared in the header of
      the source file (not part of this model); any non-positive value gives
      the same behaviour, the configured default timeout. */
  const WaitArgument: int := -1

  /** The configuration file handed to `initOBNNode`. */
  datatype ConfigFile = NoDocument | Unreadable | Lines(lines: seq<string>)

  /** The node thread together with the node it runs (`EPlusOBNThread` and its
      `MQTTNodeEPlus`). The library behind the node is not modelled: its ports
      are the two vectors, its state only the error mark. */
  class NodeThread<V(0)> {
    var running: bool      // the thread is joinable
    var inError: bool      // the node's state is NODE_ERROR
    var output: seq<V>     // the values of the output port
    var input: seq<V>      // the values of the input port, filled by the transport
    var server: string     // the server address set from the configuration ("" = library default)
    const name: string
    const workspace: string

    constructor (name: string, workspace: string)
      ensures this.name == name && this.workspace == workspace
      ensures !running && !inError && output == [] && input == [] && server == ""
    {
      this.name, this.workspace := name, workspace;
      running, inError := false, false;
      output, input, server := [], [], "";
    }

    /** Starts the thread, unless it already runs or the node could not be
        initialised (its ports opened and registered). */
    method StartThread(initialized: bool) returns (ok: bool)
      modifies this`running
      ensures ok <==> !old(running) && initialized
      ensures running == (old(running) || ok)
    {
      if running {
        return false;
      }
      if !initialized {
        return false;
      }
      running := true;
      return true;
    }

    /** Fills the output port with the first `nDbl` values of `dblVals`, in
        order, and returns their number. */
    method SetOutputValues(nDbl: int, dblVals: array<V>) returns (r: int)
      requires 0 <= nDbl <= dblVals.Length
      modifies this`output
      ensures output == dblVals[..nDbl]
      ensures r == nDbl
    {
      // resize: keep what fits, pad with fresh elements (overwritten below)
      var filler: V := *;
      output := if nDbl <= |output| then output[..nDbl] else output + seq(nDbl - |output|, _ => filler);
      for i := 0 to nDbl
        invariant |output| == nDbl
        invariant output[..i] == dblVals[..i]
      {
        output := output[i := dblVals[i]];
      }
      return nDbl;
    }

    /** Copies the input port into `dblValRea` (allocated by EnergyPlus with
        room for NDBLMAX values). More than NDBLMAX values is an error that
        delivers nothing: -1, count 0, the array untouched. Otherwise 0, the
        count, the values in order, and the rest of the array untouched. */
    method GetInputValues(dblValRea: array<V>) returns (ret: int, nDblRea: int)
      requires dblValRea.Length >= NDBLMAX
      modifies dblValRea
      ensures |input| > NDBLMAX ==> ret == -1 && nDblRea == 0 && dblValRea[..] == old(dblValRea[..])
      ensures |input| <= NDBLMAX ==> ret == 0 && nDblRea == |input|
      ensures |input| <= NDBLMAX ==> dblValRea[..|input|] == input
      ensures |input| <= NDBLMAX ==> dblValRea[|input|..] == old(dblValRea[|input|..])
    {
      nDblRea := 0;
      var sz := |input|;
      if sz > NDBLMAX {
        return -1, nDblRea;
      }
      nDblRea := sz;
      for i := 0 to sz
        invariant dblValRea[..i] == input[..i]
        invariant dblValRea[i..] == old(dblValRea[i..])
      {
        dblValRea[i] := input[i];
      }
      return 0, nDblRea;
    }
  }

  /** The state shared by the EnergyPlus thread and the node thread. */
  class Link<V(0)> {
    var quitIfOBNTerminates: bool
    var defaultTimeout: int
    var toOBN: EPlusSignal          // the slot from EnergyPlus to the node
    var toEPlus: OBNSignal          // the slot from the node to EnergyPlus
    var thread: NodeThread?<V>      // the node thread, once created
    ghost var trace: seq<Action<V>>

    constructor ()
      ensures !quitIfOBNTerminates && defaultTimeout == -1
      ensures toOBN == Quiet && toEPlus == Silent && thread == null && trace == []
    {
      quitIfOBNTerminates, defaultTimeout := false, -1;
      toOBN, toEPlus, thread := Quiet, Silent, null;
      trace := [];
    }

    /** The node posts a signal for EnergyPlus, replacing any pending one. */
    method SignalEPlus(sig: OBNSignal)
      modifies this`toEPlus, this`trace
      ensures toEPlus == sig && trace == old(trace) + [SentToEPlus(sig)]
    {
      toEPlus := sig;
      trace := trace + [SentToEPlus(sig)];
    }

    /** EnergyPlus posts a signal for the node, replacing any pending one, and
        queues the node's handler for a real command. */
    method SignalOBN(sig: EPlusSignal)
      modifies this`toOBN, this`trace
      ensures toOBN == sig
      ensures trace == old(trace) + SignalOBNActions(sig, thread != null)
    {
      toOBN := sig;
      trace := trace + [SentToOBN(sig)];
      if sig != Done && thread != null && sig != Quiet {
        trace := trace + [HandlerPosted];
      }
    }

    method SignalOBNTerm()
      modifies this`toOBN, this`trace
      ensures toOBN == Terminate
      ensures trace == old(trace) + SignalOBNActions(Terminate, thread != null)
    {
      SignalOBN(Terminate);
    }

    method SignalOBNExit()
      modifies this`toOBN, this`trace
      ensures toOBN == Exit
      ensures trace == old(trace) + SignalOBNActions(Exit, thread != null)
    {
      SignalOBN(Exit);
    }

    /** The node waits for EnergyPlus. A pending signal is returned at once
        and stays pending; otherwise EnergyPlus's `reply` is what arrives. */
    method WaitForEPlusSignal(reply: EPlusSignal) returns (sig: EPlusSignal)
      requires toOBN != Quiet || reply != Quiet
      modifies this`toOBN, this`trace
      ensures old(toOBN) != Quiet ==> sig == old(toOBN) && toOBN == old(toOBN) && trace == old(trace)
      ensures old(toOBN) == Quiet ==>
                sig == reply && toOBN == reply && trace == old(trace) + SignalOBNActions(reply, thread != null)
    {
      if toOBN != Quiet {
        return toOBN;
      }
      SignalOBN(reply);
      return toOBN;
    }

    method ResetEPlusSignal()
      modifies this`toOBN
      ensures toOBN == Quiet
    {
      toOBN := Quiet;
    }

    /** Reads the node-to-EnergyPlus slot without clearing it. */
    method GetOBNSignal() returns (sig: OBNSignal)
      ensures sig == toEPlus
    {
      sig := toEPlus;
    }

    method ResetOBNSignal()
      modifies this`toEPlus
      ensures toEPlus == Silent
    {
      toEPlus := Silent;
    }

    /** EnergyPlus waits for the node. A pending signal is returned at once
        and stays pending, whatever the timeout; otherwise the posted signal
        arrives, or, when the effective timeout is positive, the time runs
        out: `Timeout` is returned and the slot stays empty. */
    method WaitForOBNSignal(timeout: int, arrival: Arrival) returns (sig: OBNSignal)
      requires toEPlus == Silent ==> CanArrive(arrival, EffectiveTimeout(timeout, defaultTimeout))
      modifies this`toEPlus, this`trace
      ensures sig == Observed(old(toEPlus), arrival)
      ensures old(toEPlus) != Silent ==> toEPlus == old(toEPlus) && trace == old(trace)
      ensures old(toEPlus) == Silent && arrival.Posted? ==>
                toEPlus == arrival.sig && trace == old(trace) + [SentToEPlus(arrival.sig)]
      ensures old(toEPlus) == Silent && arrival.Elapsed? ==> toEPlus == Silent && trace == old(trace)
    {
      if toEPlus != Silent {
        return toEPlus;
      }
      var t := timeout;
      if t <= 0 {
        t := defaultTimeout;
      }
      assert t == EffectiveTimeout(timeout, defaultTimeout);
      match arrival
      case Posted(s) =>
        SignalEPlus(s);
        return toEPlus;
      case Elapsed =>
        // only a bounded wait can run out of time
        assert t > 0;
        return Timeout;
    }

    method SetOBNTimeout(timeout: int)
      modifies this`defaultTimeout
      ensures defaultTimeout == timeout
    {
      defaultTimeout := timeout;
    }

    /** What a node callback that asks EnergyPlus for `request` leaves behind:
        the request is posted; the answer is a pending command, or else the
        reply; the slot is cleared only when that answer is DONE. */
    twostate predicate Acknowledged(request: OBNSignal, reply: EPlusSignal)
      reads this
    {
      var answer := if old(toOBN) != Quiet then old(toOBN) else reply;
      && toEPlus == request
      && toOBN == (if answer == Done then Quiet else answer)
      && trace == old(trace) + [SentToEPlus(request)] +
                  (if old(toOBN) == Quiet then SignalOBNActions(reply, thread != null) else [])
    }

    method AwaitAcknowledgement(request: OBNSignal, reply: EPlusSignal)
      requires toOBN != Quiet || reply != Quiet
      modifies this`toEPlus, this`toOBN, this`trace
      ensures Acknowledged(request, reply)
    {
      SignalEPlus(request);
      var sig := WaitForEPlusSignal(reply);
      if sig == Done {
        ResetEPlusSignal();
      }
    }

    /** The node asks EnergyPlus for its outputs. */
    method OnUpdateY(reply: EPlusSignal)
      requires toOBN != Quiet || reply != Quiet
      modifies this`toEPlus, this`toOBN, this`trace
      ensures Acknowledged(UpdateY, reply)
    {
      AwaitAcknowledgement(UpdateY, reply);
    }

    /** The node tells EnergyPlus its inputs are ready. */
    method OnUpdateX(reply: EPlusSignal)
      requires toOBN != Quiet || reply != Quiet
      modifies this`toEPlus, this`toOBN, this`trace
      ensures Acknowledged(UpdateX, reply)
    {
      AwaitAcknowledgement(UpdateX, reply);
    }

    /** The node announces the start of a simulation. */
    method OnInitialization(reply: EPlusSignal)
      requires toOBN != Quiet || reply != Quiet
      modifies this`toEPlus, this`toOBN, this`trace
      ensures Acknowledged(Start, reply)
    {
      AwaitAcknowledgement(Start, reply);
    }

    /** The node's simulation ends: EnergyPlus is told, nobody waits. */
    method OnTermination()
      modifies this`toEPlus, this`trace
      ensures toEPlus == Term && trace == old(trace) + [SentToEPlus(Term)]
    {
      SignalEPlus(Term);
    }

    /** The node's handler for a command of EnergyPlus: the slot is always
        cleared, and the node's simulation is stopped for TERM and EXIT. */
    method HandleEPlusSignal()
      modifies this`toOBN, this`trace
      ensures toOBN == Quiet
      ensures trace == old(trace) +
                (if old(toOBN) == Terminate || old(toOBN) == Exit then [SimulationStopped] else [])
    {
      var sig := toOBN;
      toOBN := Quiet;
      match sig
      case Terminate =>
        trace := trace + [SimulationStopped];
      case Exit =>
        trace := trace + [SimulationStopped];
      case _ =>
    }

    /** What asking EnergyPlus to quit leaves behind: the slot from
        EnergyPlus was cleared first, so the reply always arrives and stays
        pending; QUIT is posted for EnergyPlus. */
    twostate predicate AskedToQuit(reply: EPlusSignal)
      reads this
    {
      && toEPlus == Quit
      && toOBN == reply
      && trace == old(trace) + [SentToEPlus(Quit)] + SignalOBNActions(reply, thread != null)
    }

    method AskEnergyPlusToQuit(reply: EPlusSignal)
      requires reply != Quiet
      modifies this`toEPlus, this`toOBN, this`trace
      ensures AskedToQuit(reply)
    {
      ResetEPlusSignal();
      SignalEPlus(Quit);
      var _ := WaitForEPlusSignal(reply);
    }

    /** A communication error on the node: the node is marked as failed and
        EnergyPlus is asked to quit. */
    method ReportNodeError(reply: EPlusSignal)
      requires thread != null && reply != Quiet
      modifies thread`inError, this`toEPlus, this`toOBN, this`trace
      ensures thread.inError && AskedToQuit(reply)
    {
      thread.inError := true;
      AskEnergyPlusToQuit(reply);
    }

    method OnRawMessageError(reply: EPlusSignal)
      requires thread != null && reply != Quiet
      modifies thread`inError, this`toEPlus, this`toOBN, this`trace
      ensures thread.inError && AskedToQuit(reply)
    {
      ReportNodeError(reply);
    }

    method OnReadValueError(reply: EPlusSignal)
      requires thread != null && reply != Quiet
      modifies thread`inError, this`toEPlus, this`toOBN, this`trace
      ensures thread.inError && AskedToQuit(reply)
    {
      ReportNodeError(reply);
    }

    method OnSendMessageError(reply: EPlusSignal)
      requires thread != null && reply != Quiet
      modifies thread`inError, this`toEPlus, this`toOBN, this`trace
      ensures thread.inError && AskedToQuit(reply)
    {
      ReportNodeError(reply);
    }

    method OnOBNError(reply: EPlusSignal)
      requires thread != null && reply != Quiet
      modifies thread`inError, this`toEPlus, this`toOBN, this`trace
      ensures thread.inError && AskedToQuit(reply)
    {
      ReportNodeError(reply);
    }

    /** Stops the node thread if it runs: EXIT is posted (which queues the
        handler that stops the node's simulation) and the thread is joined. */
    method StopThread()
      requires thread != null
      modifies this`toOBN, this`trace, thread`running
      ensures !thread.running
      ensures old(thread.running) ==> toOBN == Exit && trace == old(trace) + SignalOBNActions(Exit, true)
      ensures !old(thread.running) ==> toOBN == old(toOBN) && trace == old(trace)
    {
      if thread.running {
        SignalOBN(Exit);
        thread.running := false;
      }
    }

    /** `stopOBNNode` as written: its guard is inverted, so it calls the
        thread's stop only when there is no thread, which dereferences a null
        pointer (reported here), and never stops a live thread. */
    method StopOBNNode() returns (nullDereference: bool)
      ensures nullDereference <==> thread == null
    {
      nullDereference := thread == null;
    }

    /** `stopOBNNode` with the guard the comment intends. */
    method StopOBNNodeFixed()
      modifies this`toOBN, this`trace, thread
      ensures thread != null ==> !thread.running
      ensures thread != null ==> unchanged(thread`output, thread`input, thread`inError, thread`server)
      ensures thread != null && old(thread.running) ==>
                toOBN == Exit && trace == old(trace) + SignalOBNActions(Exit, true)
      ensures thread != null && !old(thread.running) ==> toOBN == old(toOBN) && trace == old(trace)
      ensures thread == null ==> toOBN == old(toOBN) && trace == old(trace)
    {
      if thread != null {
        StopThread();
      }
    }

    /** The second half of a step of EnergyPlus, once the outputs are
        published and acknowledged: wait for UPDATE_X and clear the slot; any
        other signal is translated and nothing is read; on UPDATE_X the inputs
        and the node's time are taken and DONE is sent, whatever the read
        returned, which becomes the result. */
    method AwaitInputs(dblValRea: array<V>, nDblRea0: int, simTim0: V, clock: V, second: Arrival)
      returns (ret: int, flaRea: int, nDblRea: int, simTim: V)
      requires thread != null && toEPlus == Silent
      requires dblValRea.Length >= NDBLMAX
      requires CanArrive(second, EffectiveTimeout(WaitArgument, defaultTimeout))
      modifies this`toEPlus, this`toOBN, this`trace, dblValRea
      ensures toEPlus == Silent
      ensures Observed(Silent, second) != UpdateX ==>
                Processed(ret, flaRea) == ProcessOBNSignal(Observed(Silent, second), 0) &&
                nDblRea == nDblRea0 && simTim == simTim0 && toOBN == old(toOBN) &&
                dblValRea[..] == old(dblValRea[..]) &&
                trace == old(trace) + ArrivalActions(Silent, second)
      ensures Observed(Silent, second) == UpdateX ==>
                flaRea == 0 && simTim == clock && toOBN == Done &&
                trace == old(trace) + ArrivalActions(Silent, second) + [InputsRead, SentToOBN(Done)] &&
                (|thread.input| > NDBLMAX ==>
                   ret == -1 && nDblRea == 0 && dblValRea[..] == old(dblValRea[..])) &&
                (|thread.input| <= NDBLMAX ==>
                   ret == 0 && nDblRea == |thread.input| &&
                   dblValRea[..|thread.input|] == thread.input &&
                   dblValRea[|thread.input|..] == old(dblValRea[|thread.input|..]))
    {
      flaRea, nDblRea, simTim := 0, nDblRea0, simTim0;
      var sig := WaitForOBNSignal(WaitArgument, second);
      ResetOBNSignal();
      if sig != UpdateX {
        var p := ProcessOBNSignal(sig, flaRea);
        return p.ret, p.flaRea, nDblRea, simTim;
      }
      ret, nDblRea := thread.GetInputValues(dblValRea);
      trace := trace + [InputsRead];
      simTim := clock;
      SignalOBN(Done);
    }

    /** One step of EnergyPlus: wait for UPDATE_Y, publish the outputs and
        acknowledge, wait for UPDATE_X, take the inputs and the node's time
        and acknowledge. Any other signal ends the step through
        `ProcessOBNSignal`; the slot from the node is cleared after each read.
        `first` and `second` are what ends each wait, `clock` the node's
        simulation time, `nDblRea0` and `simTim0` the caller's old values of
        the two out-parameters. */
    method Exchange(nDblWri: int, dblValWri: array<V>, dblValRea: array<V>,
                    nDblRea0: int, simTim0: V, clock: V, first: Arrival, second: Arrival)
      returns (ret: int, flaRea: int, nDblRea: int, simTim: V)
      requires 0 <= nDblWri <= dblValWri.Length
      requires dblValRea.Length >= NDBLMAX
      requires toEPlus == Silent ==> CanArrive(first, EffectiveTimeout(WaitArgument, defaultTimeout))
      requires Observed(toEPlus, first) == UpdateY ==>
                 CanArrive(second, EffectiveTimeout(WaitArgument, defaultTimeout))
      modifies this`toEPlus, this`toOBN, this`trace, thread, dblValRea
      ensures thread != null ==> unchanged(thread`input, thread`running, thread`inError, thread`server)
      // no node thread: -1, nothing else happens
      ensures thread == null ==>
                ret == -1 && flaRea == 0 && nDblRea == nDblRea0 && simTim == simTim0 &&
                unchanged(this) && dblValRea[..] == old(dblValRea[..])
      // with a node thread, the slot from the node ends empty
      ensures thread != null ==> toEPlus == Silent
      // the first signal is not UPDATE_Y: translated, no output, no DONE
      ensures thread != null && Observed(old(toEPlus), first) != UpdateY ==>
                Processed(ret, flaRea) == ProcessOBNSignal(Observed(old(toEPlus), first), 0) &&
                nDblRea == nDblRea0 && simTim == simTim0 &&
                thread.output == old(thread.output) && toOBN == old(toOBN) &&
                dblValRea[..] == old(dblValRea[..]) &&
                trace == old(trace) + ArrivalActions(old(toEPlus), first)
      // UPDATE_Y: the outputs are published and acknowledged
      ensures thread != null && Observed(old(toEPlus), first) == UpdateY ==>
                thread.output == old(dblValWri[..nDblWri]) && toOBN == Done
      // then a signal other than UPDATE_X: translated, no input read
      ensures thread != null && Observed(old(toEPlus), first) == UpdateY &&
              Observed(Silent, second) != UpdateX ==>
                Processed(ret, flaRea) == ProcessOBNSignal(Observed(Silent, second), 0) &&
                nDblRea == nDblRea0 && simTim == simTim0 &&
                dblValRea[..] == old(dblValRea[..]) &&
                trace == old(trace) + ArrivalActions(old(toEPlus), first) +
                         [OutputsWritten(old(dblValWri[..nDblWri])), SentToOBN(Done)] +
                         ArrivalActions(Silent, second)
      // UPDATE_X: the inputs are read, the time taken, and DONE sent in any case
      ensures thread != null && Observed(old(toEPlus), first) == UpdateY &&
              Observed(Silent, second) == UpdateX ==>
                flaRea == 0 && simTim == clock &&
                trace == old(trace) + ArrivalActions(old(toEPlus), first) +
                         [OutputsWritten(old(dblValWri[..nDblWri])), SentToOBN(Done)] +
                         ArrivalActions(Silent, second) + [InputsRead, SentToOBN(Done)] &&
                (|thread.input| > NDBLMAX ==>
                   ret == -1 && nDblRea == 0 && dblValRea[..] == old(dblValRea[..])) &&
                (|thread.input| <= NDBLMAX ==>
                   ret == 0 && nDblRea == |thread.input| &&
                   dblValRea[..|thread.input|] == thread.input &&
                   dblValRea[|thread.input|..] == old(dblValRea[|thread.input|..]))
    {
      flaRea := 0;
      nDblRea, simTim := nDblRea0, simTim0;
      if thread == null {
        return -1, flaRea, nDblRea, simTim;
      }
      var node := thread;
      var retVal := 0;

      var sig := WaitForOBNSignal(WaitArgument, first);
      ResetOBNSignal();
      ghost var afterY := old(trace) + ArrivalActions(old(toEPlus), first);
      assert trace == afterY;
      if sig != UpdateY {
        var p := ProcessOBNSignal(sig, flaRea);
        return p.ret, p.flaRea, nDblRea, simTim;
      }

      ghost var values := dblValWri[..nDblWri];
      retVal := node.SetOutputValues(nDblWri, dblValWri);
      trace := trace + [OutputsWritten(values)];
      SignalOBN(Done);
      ghost var published := afterY + [OutputsWritten(values), SentToOBN(Done)];
      assert trace == published;

      if retVal >= 0 {
        ret, flaRea, nDblRea, simTim := AwaitInputs(dblValRea, nDblRea0, simTim0, clock, second);
        return;
      }
      return retVal, flaRea, nDblRea, simTim;
    }

    /** The loop of `initOBNNode` over the option lines, each line already
        classified (classification is pure): the settings are updated line
        by line, in order. */
    method ApplyConfigOptions(opts: seq<OptionLine>)
      modifies this`quitIfOBNTerminates, this`defaultTimeout
      ensures Settings(quitIfOBNTerminates, defaultTimeout) ==
              ApplyOptions(opts, Settings(old(quitIfOBNTerminates), old(defaultTimeout)))
    {
      ghost var start := Settings(quitIfOBNTerminates, defaultTimeout);
      var i := 0;
      while i < |opts|
        invariant 0 <= i <= |opts|
        invariant Settings(quitIfOBNTerminates, defaultTimeout) == ApplyOptions(opts[..i], start)
      {
        var o := opts[i];
        ghost var before := Settings(quitIfOBNTerminates, defaultTimeout);
        match o {
          case QuitIfOBNStops =>
            quitIfOBNTerminates := true;
          case TimeoutSeconds(t) =>
            SetOBNTimeout(t);
          case _ =>
        }
        assert Settings(quitIfOBNTerminates, defaultTimeout) == ApplyOption(o, before);
        ApplyOptionsStep(opts, i, start);
        i := i + 1;
      }
      assert opts[..i] == opts;
    }

    /** `initOBNNode` on a configuration file read into lines. Line 1 gives
        the transport and its configuration, line 2 the node name and its
        workspace, the other lines are options applied to the settings in
        order. Only the `mqtt` transport (after trimming and lower-casing)
        with a valid node name creates the node thread, which is then
        started. The options take effect even when the call fails later, and
        a thread once created is kept, so a later call returns true. */
    method InitOBNNode(doc: ConfigFile, isValidNodeName: string -> bool, initializes: bool)
      returns (ok: bool)
      modifies this`thread, this`quitIfOBNTerminates, this`defaultTimeout
      ensures doc == NoDocument ==> !ok && unchanged(this)
      ensures doc != NoDocument && old(thread) != null ==> ok && unchanged(this)
      ensures doc != NoDocument && old(thread) == null && (doc == Unreadable || |doc.lines| < 2) ==>
                !ok && unchanged(this)
      ensures doc.Lines? && |doc.lines| >= 2 && old(thread) == null ==>
                Settings(quitIfOBNTerminates, defaultTimeout) ==
                ApplyOptions(ParseOptions(doc.lines[2..]),
                             Settings(old(quitIfOBNTerminates), old(defaultTimeout)))
      ensures doc.Lines? && |doc.lines| >= 2 && old(thread) == null ==>
                var h := ReadHeader(doc.lines[0], doc.lines[1]);
                && (thread != null <==> h.transport == "mqtt" && isValidNodeName(h.name))
                && (ok <==> h.transport == "mqtt" && isValidNodeName(h.name) && initializes)
      ensures doc.Lines? && |doc.lines| >= 2 && old(thread) == null && thread != null ==>
                var h := ReadHeader(doc.lines[0], doc.lines[1]);
                && fresh(thread) && thread.name == h.name && thread.workspace == h.workspace
                && thread.server == h.address && thread.running == ok
                && !thread.inError && thread.output == [] && thread.input == []
    {
      if doc == NoDocument {
        return false;
      }
      if thread != null {
        return true;
      }
      if doc == Unreadable || |doc.lines| < 2 {
        return false;
      }
      ApplyConfigOptions(ParseOptions(doc.lines[2..]));
      ok := StartNode(ReadHeader(doc.lines[0], doc.lines[1]), isValidNodeName, initializes);
    }

    /** The end of `initOBNNode`: only the `mqtt` transport with a valid node
        name creates the node thread, configures its server address when one
        is given, and starts it. */
    method StartNode(h: Header, isValidNodeName: string -> bool, initializes: bool) returns (ok: bool)
      requires thread == null
      modifies this`thread
      ensures thread != null <==> h.transport == "mqtt" && isValidNodeName(h.name)
      ensures ok <==> h.transport == "mqtt" && isValidNodeName(h.name) && initializes
      ensures thread != null ==>
                && fresh(thread) && thread.name == h.name && thread.workspace == h.workspace
                && thread.server == h.address && thread.running == ok
                && !thread.inError && thread.output == [] && thread.input == []
    {
      if h.transport == "mqtt" {
        if !isValidNodeName(h.name) {
          return false;
        }
        var t := new NodeThread(h.name, h.workspace);
        thread := t;
        if h.address != "" {
          t.server := h.address;
        }
        ok := t.StartThread(initializes);
        return ok;
      } else {
        return false;
      }
    }
  }

  /** A slot holds one signal, not a queue: after two posts without a reset
      in between, the wait sees the later one, whatever else arrives. */
  method LastSignalWins<V(0)>(link: Link<V>, first: OBNSignal, second: OBNSignal, arrival: Arrival)
    returns (sig: OBNSignal)
    requires second != Silent
    modifies link`toEPlus, link`trace
    ensures sig == second && link.toEPlus == second
  {
    link.SignalEPlus(first);
    link.SignalEPlus(second);
    sig := link.WaitForOBNSignal(WaitArgument, arrival);
  }

  /** The inverted guard of `stopOBNNode` leaves a running node thread
      running, while the corrected version stops it. */
  method StopOBNNodeLeavesThreadRunning<V(0)>(link: Link<V>) returns (crashed: bool, ghost stillRunning: bool)
    requires link.thread != null && link.thread.running
    modifies link`toOBN, link`trace, link.thread
    ensures !crashed && stillRunning
    ensures !link.thread.running
  {
    crashed := link.StopOBNNode();
    stillRunning := link.thread.running;
    link.StopOBNNodeFixed();
  }
}
