/** Experimental "quantum" features gated by the `quantum_mode` flag: a
    simulated experiment, an optimisation record, and a processor object that
    records the flag when it is built. */
module Quantum {
  import opened FlagState

  const QuantumFlag := "quantum_mode"
  const NotEnabledError := "Quantum mode is not enabled"
  const QuantumStates: seq<string> := ["spin_up", "spin_down", "entangled", "superposition"]

  // ---------------------------------------------------------------------
  // The simulated experiment, with its randomness supplied by the caller
  // ---------------------------------------------------------------------

  /** What the random source can produce: an index into the four states,
      a probability in [0, 1), and a coherence time of 1 to 100 ms. */
  type StateIndex = i: int | 0 <= i < 4
  type UnitInterval = p: real | 0.0 <= p < 1.0
  type CoherenceMs = t: int | 1 <= t <= 100 witness 1

  datatype Draws = Draws(stateIndex: StateIndex, probability: UnitInterval, coherenceTimeMs: CoherenceMs)

  datatype ExperimentResult =
    | ExperimentError(error: string)
    | Collapsed(state: string, probability: real, coherenceTimeMs: int)

  /** A collapse always lands in one of the four named states, drawn by the
      state index. The probability and the coherence time are the draws
      themselves, so their ranges are those of the draw types. */
  function SimulateQuantumState(draws: Draws): (result: ExperimentResult)
    ensures result.Collapsed?
    ensures result.state in QuantumStates && result.state == QuantumStates[draws.stateIndex]
    ensures result.probability == draws.probability && result.coherenceTimeMs == draws.coherenceTimeMs
    ensures 0.0 <= result.probability < 1.0
    ensures 1 <= result.coherenceTimeMs <= 100
  {
    Collapsed(QuantumStates[draws.stateIndex], draws.probability, draws.coherenceTimeMs)
  }

  /** Every state and every coherence time the source allows can come out of
      the simulation. */
  lemma SimulationCoversAllOutcomes(state: string, coherenceTimeMs: int)
    requires state in QuantumStates && 1 <= coherenceTimeMs <= 100
    ensures exists draws: Draws ::
              SimulateQuantumState(draws).state == state &&
              SimulateQuantumState(draws).coherenceTimeMs == coherenceTimeMs
  {
    var i :| 0 <= i < |QuantumStates| && QuantumStates[i] == state;
    var draws := Draws(i, 0.0, coherenceTimeMs);
    assert SimulateQuantumState(draws).state == state;
  }

  /** With the flag off the experiment reports exactly the "not enabled"
      error; with it on it always collapses to a valid state. */
  function RunQuantumExperiment(flags: Flags, draws: Draws): (result: ExperimentResult)
    ensures !flags.IsFeatureEnabled(QuantumFlag) <==> result == ExperimentError(NotEnabledError)
    ensures flags.IsFeatureEnabled(QuantumFlag) ==>
              result.Collapsed? && result.state in QuantumStates && 1 <= result.coherenceTimeMs <= 100
  {
    if !flags.IsFeatureEnabled(QuantumFlag) then
      ExperimentError(NotEnabledError)
    else
      SimulateQuantumState(draws)
  }

  /** Availability is the `quantum_mode` flag. */
  function CheckQuantumAvailability(flags: Flags): (available: bool)
    ensures available <==> flags.IsFeatureEnabled(QuantumFlag)
  {
    flags.IsFeatureEnabled(QuantumFlag)
  }

  // ---------------------------------------------------------------------
  // Optimisation
  // ---------------------------------------------------------------------

  datatype OptimizationResult = OptimizationResult(algorithm: string, iterations: int, solutionQuality: real)

  /** Quantum annealing with 100 iterations per unit of problem size when
      the flag is on; simulated annealing with 1000 per unit otherwise. The
      problem size is not checked, so a negative size gives a negative count. */
  function RunQuantumOptimization(flags: Flags, problemSize: int): (result: OptimizationResult)
    ensures result.algorithm == "quantum_annealing" <==> flags.IsFeatureEnabled(QuantumFlag)
    ensures result.algorithm == "simulated_annealing" <==> !flags.IsFeatureEnabled(QuantumFlag)
    ensures result.iterations == problemSize * (if flags.IsFeatureEnabled(QuantumFlag) then 100 else 1000)
    ensures result.solutionQuality == if flags.IsFeatureEnabled(QuantumFlag) then 0.95 else 0.80
  {
    if flags.IsFeatureEnabled(QuantumFlag) then
      OptimizationResult("quantum_annealing", problemSize * 100, 0.95)
    else
      OptimizationResult("simulated_annealing", problemSize * 1000, 0.80)
  }

  /** For the same problem, the classical run takes ten times as many
      iterations as the quantum one. */
  lemma ClassicalRunsTenTimesLonger(on: Flags, off: Flags, problemSize: int)
    requires on.IsFeatureEnabled(QuantumFlag) && !off.IsFeatureEnabled(QuantumFlag)
    ensures RunQuantumOptimization(off, problemSize).iterations
            == 10 * RunQuantumOptimization(on, problemSize).iterations
  {
  }

  /** The three flag-gated entry points agree with each other: the feature is
      available exactly when the experiment runs and exactly when the
      optimisation uses quantum annealing. */
  lemma AvailabilityAgreesWithDispatch(flags: Flags, draws: Draws, problemSize: int)
    ensures CheckQuantumAvailability(flags) <==> RunQuantumExperiment(flags, draws).Collapsed?
    ensures CheckQuantumAvailability(flags)
            <==> RunQuantumOptimization(flags, problemSize).algorithm == "quantum_annealing"
  {
  }

  // ---------------------------------------------------------------------
  // The processor object
  // ---------------------------------------------------------------------

  /** Keeps a reference to the live provider and the value `quantum_mode`
      had when the processor was built. Processing follows that recorded
      value; the reported mode reads the provider again. */
  class QuantumProcessor {
    const flags: FlagProvider
    const isQuantumEnabled: bool

    constructor (flags: FlagProvider)
      ensures this.flags == flags
      ensures isQuantumEnabled == flags.IsFeatureEnabled(QuantumFlag)
    {
      this.flags := flags;
      isQuantumEnabled := flags.IsFeatureEnabled(QuantumFlag);
    }

    static function QuantumProcess(data: seq<int>): seq<int> {
      seq(|data|, i requires 0 <= i < |data| => data[i] * 2)
    }

    static function ClassicalProcess(data: seq<int>): seq<int> {
      seq(|data|, i requires 0 <= i < |data| => data[i] + 1)
    }

    /** Keeps the length; each element is doubled when the recorded flag was
        on and incremented otherwise. The live provider is not consulted. */
    function Process(data: seq<int>): (processed: seq<int>)
      ensures |processed| == |data|
      ensures forall i :: 0 <= i < |data| ==>
                processed[i] == if isQuantumEnabled then 2 * data[i] else data[i] + 1
    {
      if isQuantumEnabled then QuantumProcess(data) else ClassicalProcess(data)
    }

    /** Processing works element by element, so a list may be processed in
        pieces. */
    lemma ProcessConcat(front: seq<int>, back: seq<int>)
      ensures Process(front + back) == Process(front) + Process(back)
    {
    }

    /** "quantum" exactly when the provider has the flag on now. */
    function GetProcessingMode(): (mode: string)
      reads flags
      ensures mode == "quantum" <==> flags.IsFeatureEnabled(QuantumFlag)
      ensures mode == "classical" <==> !flags.IsFeatureEnabled(QuantumFlag)
    {
      if flags.IsFeatureEnabled(QuantumFlag) then "quantum" else "classical"
    }
  }

  /** The processor's recorded flag and the live one can disagree: a
      processor built while `quantum_mode` is off keeps processing
      classically after the flag is switched on, while it reports the
      quantum mode. */
  method ModeDriftsAfterConstruction(data: seq<int>) returns (processed: seq<int>, mode: string)
    ensures |processed| == |data|
    ensures forall i :: 0 <= i < |data| ==> processed[i] == data[i] + 1
    ensures mode == "quantum"
  {
    var provider := new FlagProvider(Flags(map[QuantumFlag := false], map[]));
    var processor := new QuantumProcessor(provider);
    provider.current := Flags(map[QuantumFlag := true], map[]);
    processed := processor.Process(data);
    mode := processor.GetProcessingMode();
  }
}
