/** The two signal alphabets exchanged between EnergyPlus (the engine) and the
    openBuildNet node, the translation of a node signal into the return code and
    the flag handed back to EnergyPlus, and the diagnostic names of node signals. */
module Signals {

  /** The largest number of values EnergyPlus accepts from one exchange. */
  const NDBLMAX: nat := 1024

  /** Signals from EnergyPlus to the node (OBNSIG_NONE, OBNSIG_DONE,
      OBNSIG_TERM, OBNSIG_EXIT). `Quiet` is the empty slot. */
  datatype EPlusSignal = Quiet | Done | Terminate | Exit

  /** Signals from the node to EnergyPlus (EPSIG_NONE, EPSIG_START, EPSIG_Y,
      EPSIG_X, EPSIG_TERM, EPSIG_QUIT, EPSIG_TIMEOUT). `Silent` is the empty slot. */
  datatype OBNSignal = Silent | Start | UpdateY | UpdateX | Term | Quit | Timeout

  /** What `processOBNSignal` hands back: its return value and the value of
      the flag `flaRea` afterwards. */
  datatype Processed = Processed(ret: int, flaRea: int)

  /** A signal that ends the co-simulation step instead of continuing it. */
  predicate Ends(sig: OBNSignal) {
    sig == Term || sig == Quit
  }

  /** Translation of a signal that is not the one the exchange expected.
      Termination is a success (return 0) whose flag tells a normal stop (+1)
      from an abnormal one (-1); anything else is an error (negative return)
      and leaves the flag as it was. */
  function ProcessOBNSignal(sig: OBNSignal, flaRea: int): (r: Processed)
    ensures r.ret == 0 <==> Ends(sig)
    ensures r.ret != 0 ==> r.ret < 0 && r.flaRea == flaRea
    ensures Ends(sig) ==> (r.flaRea == 1 <==> sig == Term) && (r.flaRea == -1 <==> sig == Quit)
    ensures r.ret == -21 <==> sig == Timeout
    ensures r.ret == -22 <==> !Ends(sig) && sig != Timeout
  {
    match sig
    case Term => Processed(0, 1)
    case Quit => Processed(0, -1)
    case Timeout => Processed(-21, flaRea)
    case _ => Processed(-22, flaRea)
  }

  /** The status EnergyPlus can read off a processed signal when the flag
      started at 0, as the exchange leaves it: the reference the translation
      is checked against. */
  datatype Verdict = NormalStop | AbnormalStop | TimedOut | Unexpected

  function Classify(sig: OBNSignal): Verdict {
    if sig == Term then NormalStop
    else if sig == Quit then AbnormalStop
    else if sig == Timeout then TimedOut
    else Unexpected
  }

  /** From the pair (return value, flag) alone the verdict can be recovered:
      two signals give the same pair exactly when they have the same verdict. */
  lemma ProcessedDeterminesVerdict(a: OBNSignal, b: OBNSignal)
    ensures ProcessOBNSignal(a, 0) == ProcessOBNSignal(b, 0) <==> Classify(a) == Classify(b)
  {
    var pa, pb := ProcessOBNSignal(a, 0), ProcessOBNSignal(b, 0);
    if Classify(a) == Classify(b) {
      assert pa == pb;
    }
  }

  /** Diagnostic name of a node signal. */
  function OBNSignalName(sig: OBNSignal): (name: string)
    ensures |name| > 0 && name != "INVALID"
  {
    match sig
    case Silent => "NONE"
    case Start => "START"
    case UpdateY => "UPDATE_Y"
    case UpdateX => "UPDATE_X"
    case Term => "TERMINATE"
    case Quit => "QUIT"
    case Timeout => "TIMEOUT"
  }

  /** Distinct signals have distinct names, so a diagnostic names its signal. */
  lemma OBNSignalNameInjective(a: OBNSignal, b: OBNSignal)
    ensures OBNSignalName(a) == OBNSignalName(b) ==> a == b
  {
    if a != b {
      var na, nb := OBNSignalName(a), OBNSignalName(b);
      assert na[0] != nb[0] || |na| != |nb| || na[|na| - 1] != nb[|nb| - 1];
    }
  }

  /** The timeout a wait actually uses: the argument when it is positive,
      otherwise the configured default; a non-positive result means "wait
      without a time limit". */
  function EffectiveTimeout(timeout: int, default: int): (t: int)
    ensures timeout > 0 ==> t == timeout
    ensures timeout <= 0 ==> t == default
    ensures t > 0 <==> timeout > 0 || default > 0
  {
    if timeout <= 0 then default else timeout
  }
}
