/**
  The state machine of a tempo run: phases, budgets, and the two operations that
  begin and finish a step.
*/
module RunState {
  import opened Numbers
  import opened Wrappers

  datatype Phase =
    | Prepare | Baseline | StartAttempt | Profile | Analyze | Research | Implement
    | Test | Repair | Measure | Review | Keep | Discard | Finish | Done

  datatype ProfileEvent = Ctimer | Wall | Alloc | Jfr

  datatype OutputReference = OutputReference(name: string, version: int)

  datatype Limits = Limits(maxAttempts: int, maxRepairsPerAttempt: int, maxPiCalls: int, maxDurationMs: int)

  datatype Reason = Duration | Attempts | Repairs | PiCalls

  datatype StopReason =
    | TargetMet
    | LimitReached(reasons: seq<Reason>)
    | InvalidMeasurement
    | InconclusiveMeasurement
    | AnalysisStopped(reason: Option<string>)
    | StepFailed(message: string)

  datatype State = State(
    runId: string,
    phase: Phase,
    initialRevision: string,
    bestRevision: string,
    workingRevision: string,
    attemptsStarted: int,
    repairsThisAttempt: int,
    piCallsStarted: int,
    elapsedMs: int,
    sequence: int,
    activeStep: Option<int>,
    targetMet: bool,
    stopReason: Option<StopReason>,
    requestedProfile: ProfileEvent,
    outputs: map<Phase, OutputReference>)

  datatype Action = Change | LookUp | Stop(reason: Option<string>) | Reprofile(event: ProfileEvent)

  datatype Outcome =
    | Prepared
    | Measured(revision: string, valid: bool, inconclusive: bool, targetMet: bool, improved: bool)
    | AttemptStarted
    | Profiled
    | Analysis(action: Action)
    | Researched
    | Edited(revision: string)
    | Tested(revision: string, passed: bool)
    | Reviewed(revision: string, passed: bool)
    | Kept(revision: string)
    | Discarded(revision: string)
    | Finished
    | Failed(message: string)

  datatype Error =
    | InvalidIdentity
    | AlreadyFinished
    | StepIsActive
    | TimeMovedBackwards
    | NotAnInteger
    | NotTheActiveStep
    | NoSavedOutput
    | UnexpectedResult
    | DifferentRevision
    | NotACommit
    | BestNotRestored
    | CannotComplete

  // -------------------------------------------------------------- identity

  predicate IsRunId(s: string) {
    s != [] && forall c :: c in s ==> 'a' <= c <= 'z' || 'A' <= c <= 'Z' || '0' <= c <= '9' || c == '_' || c == '-'
  }

  predicate IsRevision(s: string) {
    |s| == 40 && forall c :: c in s ==> '0' <= c <= '9' || 'a' <= c <= 'f'
  }

  function NewRun(runId: string, revision: string): Result<State, Error> {
    if !IsRunId(runId) || !IsRevision(revision) then Err(InvalidIdentity)
    else Ok(State(runId, Prepare, revision, revision, revision, 0, 0, 0, 0, 0, None, false, None, Ctimer, map[]))
  }

  // --------------------------------------------------------------- budgets

  datatype NextStep = Attempt | RepairEdit | Pi | Command | CleanUp

  datatype Progress = Progress(attemptsStarted: int, repairsThisAttempt: int, piCallsStarted: int, elapsedMs: int,
                               activeStep: bool)

  datatype LimitCheck = Wait | Continue | WrapUp(reasons: seq<Reason>)

  predicate SafeFrom(value: int, minimum: int) {
    minimum <= value <= MAX_SAFE_INTEGER
  }

  predicate ValidLimits(limits: Limits) {
    && SafeFrom(limits.maxAttempts, 1) && SafeFrom(limits.maxRepairsPerAttempt, 0)
    && SafeFrom(limits.maxPiCalls, 1) && SafeFrom(limits.maxDurationMs, 1)
  }

  predicate ValidProgress(progress: Progress) {
    && SafeFrom(progress.attemptsStarted, 0) && SafeFrom(progress.repairsThisAttempt, 0)
    && SafeFrom(progress.piCallsStarted, 0) && SafeFrom(progress.elapsedMs, 0)
  }

  /** Why the next step does not fit its budgets. */
  predicate Exceeded(reason: Reason, limits: Limits, progress: Progress, next: NextStep) {
    match reason
    case Duration => progress.elapsedMs >= limits.maxDurationMs
    case Attempts => next.Attempt? && progress.attemptsStarted >= limits.maxAttempts
    case Repairs => next.RepairEdit? && progress.repairsThisAttempt >= limits.maxRepairsPerAttempt
    case PiCalls => (next.Attempt? || next.RepairEdit? || next.Pi?) && progress.piCallsStarted >= limits.maxPiCalls
  }

  function One(reason: Reason, limits: Limits, progress: Progress, next: NextStep): seq<Reason> {
    if Exceeded(reason, limits, progress, next) then [reason] else []
  }

  /** All budgets in the way of the next step, in the order in which they are reported. */
  function InTheWay(limits: Limits, progress: Progress, next: NextStep): (r: seq<Reason>)
    ensures forall reason :: reason in r <==> Exceeded(reason, limits, progress, next)
  {
    One(Duration, limits, progress, next) + One(Attempts, limits, progress, next)
    + One(Repairs, limits, progress, next) + One(PiCalls, limits, progress, next)
  }

  /** Cleaning up is always allowed; any other step only while no budget is used up. */
  function LimitsAllow(limits: Limits, progress: Progress, next: NextStep): LimitCheck {
    if progress.activeStep then Wait
    else if next.CleanUp? || InTheWay(limits, progress, next) == [] then Continue
    else WrapUp(InTheWay(limits, progress, next))
  }

  method CheckLimits(limits: Limits, progress: Progress, next: NextStep) returns (r: Result<LimitCheck, Error>)
    ensures r.Ok? <==> ValidLimits(limits) && ValidProgress(progress)
    ensures r.Ok? ==> r.value == LimitsAllow(limits, progress, next)
    ensures r.Err? ==> r.error == NotAnInteger
  {
    if !SafeFrom(limits.maxAttempts, 1) || !SafeFrom(limits.maxRepairsPerAttempt, 0)
       || !SafeFrom(limits.maxPiCalls, 1) || !SafeFrom(limits.maxDurationMs, 1) {
      return Err(NotAnInteger);
    }
    if !SafeFrom(progress.attemptsStarted, 0) || !SafeFrom(progress.repairsThisAttempt, 0)
       || !SafeFrom(progress.piCallsStarted, 0) || !SafeFrom(progress.elapsedMs, 0) {
      return Err(NotAnInteger);
    }
    if progress.activeStep {
      return Ok(Wait);
    }
    if next.CleanUp? {
      return Ok(Continue);
    }
    var reasons: seq<Reason> := [];
    if progress.elapsedMs >= limits.maxDurationMs {
      reasons := reasons + [Duration];
    }
    assert reasons == One(Duration, limits, progress, next);
    if next.Attempt? && progress.attemptsStarted >= limits.maxAttempts {
      reasons := reasons + [Attempts];
    }
    assert reasons == One(Duration, limits, progress, next) + One(Attempts, limits, progress, next);
    if next.RepairEdit? && progress.repairsThisAttempt >= limits.maxRepairsPerAttempt {
      reasons := reasons + [Repairs];
    }
    if (next.Attempt? || next.RepairEdit? || next.Pi?) && progress.piCallsStarted >= limits.maxPiCalls {
      reasons := reasons + [PiCalls];
    }
    assert reasons == InTheWay(limits, progress, next);
    return Ok(if reasons != [] then WrapUp(reasons) else Continue);
  }

  // ---------------------------------------------------------- begin a step

  predicate UsesPi(phase: Phase) {
    phase in {Analyze, Research, Implement, Repair, Review}
  }

  function StepKind(phase: Phase): NextStep {
    match phase
    case StartAttempt => Attempt
    case Repair => RepairEdit
    case Finish => CleanUp
    case Discard => CleanUp
    case Keep => CleanUp
    case _ => if UsesPi(phase) then Pi else Command
  }

  function ProgressAt(state: State, elapsedMs: int): Progress {
    Progress(state.attemptsStarted, state.repairsThisAttempt, state.piCallsStarted, elapsedMs, false)
  }

  /** Reserves the next step, or moves to the phase that winds the attempt or the run down. */
  function BeginStep(state: State, limits: Limits, elapsedMs: int): Result<State, Error> {
    if state.phase.Done? then Err(AlreadyFinished)
    else if state.activeStep.Some? then Err(StepIsActive)
    else if elapsedMs < state.elapsedMs then Err(TimeMovedBackwards)
    else if !ValidLimits(limits) || !ValidProgress(ProgressAt(state, elapsedMs)) then Err(NotAnInteger)
    else
      var check := LimitsAllow(limits, ProgressAt(state, elapsedMs), StepKind(state.phase));
      if check.WrapUp? then Ok(WoundDown(state, elapsedMs, check.reasons)) else Ok(Reserved(state, elapsedMs))
  }

  function WoundDown(state: State, elapsedMs: int, reasons: seq<Reason>): State {
    if reasons == [Repairs] then state.(elapsedMs := elapsedMs, phase := Discard, activeStep := None)
    else state.(elapsedMs := elapsedMs, phase := Finish, stopReason := Some(LimitReached(reasons)), activeStep := None)
  }

  function Reserved(state: State, elapsedMs: int): State {
    state.(
      elapsedMs := elapsedMs,
      sequence := state.sequence + 1,
      activeStep := Some(state.sequence + 1),
      attemptsStarted := state.attemptsStarted + (if state.phase.StartAttempt? then 1 else 0),
      repairsThisAttempt := if state.phase.StartAttempt? then 0
                            else state.repairsThisAttempt + (if state.phase.Repair? then 1 else 0),
      piCallsStarted := state.piCallsStarted + (if UsesPi(state.phase) then 1 else 0))
  }

  // --------------------------------------------------------- finish a step

  /** The outcome is one that a step in this phase can have. */
  predicate Expected(phase: Phase, outcome: Outcome) {
    match phase
    case Prepare => outcome.Prepared?
    case Baseline => outcome.Measured?
    case StartAttempt => outcome.AttemptStarted?
    case Profile => outcome.Profiled?
    case Analyze => outcome.Analysis?
    case Research => outcome.Researched?
    case Implement => outcome.Edited?
    case Test => outcome.Tested?
    case Repair => outcome.Edited?
    case Measure => outcome.Measured?
    case Review => outcome.Reviewed?
    case Keep => outcome.Kept?
    case Discard => outcome.Discarded?
    case Finish => outcome.Finished?
    case Done => false
  }

  /** What is wrong with the revision that an expected outcome names, if anything. */
  function RevisionFault(state: State, outcome: Outcome): Option<Error> {
    match outcome
    case Edited(revision) => if IsRevision(revision) then None else Some(NotACommit)
    case Discarded(revision) => if revision == state.bestRevision then None else Some(BestNotRestored)
    case Measured(revision, _, _, _, _) => if revision == state.workingRevision then None else Some(DifferentRevision)
    case Tested(revision, _) => if revision == state.workingRevision then None else Some(DifferentRevision)
    case Reviewed(revision, _) => if revision == state.workingRevision then None else Some(DifferentRevision)
    case Kept(revision) => if revision == state.workingRevision then None else Some(DifferentRevision)
    case _ => None
  }

  function NextPhase(state: State, outcome: Outcome): Phase {
    match outcome
    case Failed(_) => Finish
    case Prepared => Baseline
    case Measured(_, valid, inconclusive, targetMet, improved) =>
      if state.phase.Baseline? then if valid && !targetMet then StartAttempt else Finish
      else if valid then if improved || targetMet then Review else Discard
      else if inconclusive then Discard
      else Finish
    case AttemptStarted => Profile
    case Profiled => Analyze
    case Analysis(action) =>
      (match action
       case Change => Implement
       case LookUp => Research
       case Stop(_) => Finish
       case Reprofile(_) => Profile)
    case Researched => Analyze
    case Edited(_) => Test
    case Tested(_, passed) => if passed then Measure else Repair
    case Reviewed(_, passed) => if passed then Keep else Repair
    case Kept(_) => if state.targetMet then Finish else StartAttempt
    case Discarded(_) => StartAttempt
    case Finished => Done
  }

  function NextStopReason(state: State, outcome: Outcome): Option<StopReason> {
    match outcome
    case Failed(message) => Some(StepFailed(message))
    case Measured(_, valid, inconclusive, targetMet, _) =>
      if valid then
        if state.phase.Baseline? then if targetMet then Some(TargetMet) else None
        else state.stopReason
      else if state.phase.Measure? && inconclusive then state.stopReason
      else Some(if inconclusive then InconclusiveMeasurement else InvalidMeasurement)
    case Analysis(action) => if action.Stop? then Some(AnalysisStopped(action.reason)) else state.stopReason
    case Kept(_) => if state.targetMet then Some(TargetMet) else None
    case _ => state.stopReason
  }

  function NextTargetMet(state: State, outcome: Outcome): bool {
    match outcome
    case Failed(_) => false
    case Measured(_, valid, _, targetMet, _) => valid && targetMet
    case AttemptStarted => false
    case Edited(_) => false
    case Discarded(_) => false
    case Finished => state.stopReason == Some(TargetMet)
    case _ => state.targetMet
  }

  /** The state after an accepted outcome. */
  function Advanced(state: State, outcome: Outcome, output: OutputReference): State {
    state.(
      activeStep := None,
      outputs := state.outputs[state.phase := output],
      phase := NextPhase(state, outcome),
      stopReason := NextStopReason(state, outcome),
      targetMet := NextTargetMet(state, outcome),
      workingRevision := if outcome.Edited? || outcome.Discarded? then outcome.revision else state.workingRevision,
      bestRevision := if outcome.Kept? then outcome.revision else state.bestRevision,
      requestedProfile := if outcome.AttemptStarted? then Ctimer
                          else if outcome.Analysis? && outcome.action.Reprofile? then outcome.action.event
                          else state.requestedProfile)
  }

  function Finishing(state: State, step: int, outcome: Outcome, output: OutputReference): Result<State, Error> {
    if state.activeStep != Some(step) || step != state.sequence then Err(NotTheActiveStep)
    else if output.name == "" || !SafeFrom(output.version, 1) then Err(NoSavedOutput)
    else if outcome.Failed? then Ok(Advanced(state, outcome, output))
    else if state.phase.Done? then Err(CannotComplete)
    else if !Expected(state.phase, outcome) then Err(UnexpectedResult)
    else if RevisionFault(state, outcome).Some? then Err(RevisionFault(state, outcome).value)
    else Ok(Advanced(state, outcome, output))
  }

  /** The switch over phases, assigning the fields of the result one after the other. */
  method FinishStep(state: State, step: int, outcome: Outcome, output: OutputReference)
    returns (r: Result<State, Error>)
    ensures r == Finishing(state, step, outcome, output)
  {
    if state.activeStep != Some(step) || step != state.sequence {
      return Err(NotTheActiveStep);
    }
    if output.name == "" || !SafeFrom(output.version, 1) {
      return Err(NoSavedOutput);
    }
    var result := state.(activeStep := None, outputs := state.outputs[state.phase := output]);
    if outcome.Failed? {
      return Ok(result.(phase := Finish, stopReason := Some(StepFailed(outcome.message)), targetMet := false));
    }
    if state.phase.Done? {
      return Err(CannotComplete);
    }
    if !Expected(state.phase, outcome) {
      return Err(UnexpectedResult);
    }
    if outcome.Measured? || outcome.Tested? || outcome.Reviewed? || outcome.Kept? {
      if outcome.revision != state.workingRevision {
        return Err(DifferentRevision);
      }
    }
    match state.phase {
      case Prepare =>
        result := result.(phase := Baseline);
      case Baseline =>
        if !outcome.valid {
          return Ok(result.(
            phase := Finish,
            stopReason := Some(if outcome.inconclusive then InconclusiveMeasurement else InvalidMeasurement),
            targetMet := false));
        }
        result := result.(targetMet := outcome.targetMet);
        result := result.(phase := if outcome.targetMet then Finish else StartAttempt);
        result := result.(stopReason := if outcome.targetMet then Some(TargetMet) else None);
      case Measure =>
        if !outcome.valid {
          if outcome.inconclusive {
            return Ok(result.(phase := Discard, targetMet := false));
          }
          return Ok(result.(phase := Finish, stopReason := Some(InvalidMeasurement), targetMet := false));
        }
        result := result.(targetMet := outcome.targetMet);
        result := result.(phase := if outcome.improved || outcome.targetMet then Review else Discard);
      case StartAttempt =>
        result := result.(phase := Profile, requestedProfile := Ctimer, targetMet := false);
      case Profile =>
        result := result.(phase := Analyze);
      case Analyze =>
        match outcome.action {
          case Stop(reason) =>
            result := result.(phase := Finish, stopReason := Some(AnalysisStopped(reason)));
          case Reprofile(event) =>
            result := result.(phase := Profile, requestedProfile := event);
          case Change =>
            result := result.(phase := Implement);
          case LookUp =>
            result := result.(phase := Research);
        }
      case Research =>
        result := result.(phase := Analyze);
      case Implement =>
        if !IsRevision(outcome.revision) {
          return Err(NotACommit);
        }
        result := result.(workingRevision := outcome.revision, targetMet := false, phase := Test);
      case Repair =>
        if !IsRevision(outcome.revision) {
          return Err(NotACommit);
        }
        result := result.(workingRevision := outcome.revision, targetMet := false, phase := Test);
      case Test =>
        result := result.(phase := if outcome.passed then Measure else Repair);
      case Review =>
        result := result.(phase := if outcome.passed then Keep else Repair);
      case Keep =>
        result := result.(bestRevision := outcome.revision);
        result := result.(phase := if state.targetMet then Finish else StartAttempt);
        result := result.(stopReason := if state.targetMet then Some(TargetMet) else None);
      case Discard =>
        if outcome.revision != state.bestRevision {
          return Err(BestNotRestored);
        }
        result := result.(workingRevision := outcome.revision, targetMet := false, phase := StartAttempt);
      case Finish =>
        result := result.(phase := Done, targetMet := state.stopReason == Some(TargetMet));
    }
    return Ok(result);
  }

  // ---------------------------------------------------- beginning for sure

  /** The driver begins a step and, when that only moved the run to another phase, begins again. */
  function Begin(state: State, limits: Limits, elapsedMs: int): Result<State, Error> {
    var first := BeginStep(state, limits, elapsedMs);
    if first.Ok? && first.value.activeStep.None? then BeginStep(first.value, limits, elapsedMs) else first
  }

  predicate MayBegin(state: State, limits: Limits, elapsedMs: int) {
    && !state.phase.Done? && state.activeStep.None? && elapsedMs >= state.elapsedMs
    && ValidLimits(limits) && ValidProgress(ProgressAt(state, elapsedMs))
  }

  /** The state whose step is begun: the budgets may wind the attempt or the run down first. */
  function Settled(state: State, limits: Limits, elapsedMs: int): State {
    var check := LimitsAllow(limits, ProgressAt(state, elapsedMs), StepKind(state.phase));
    if check.WrapUp? then WoundDown(state, elapsedMs, check.reasons) else state
  }

  /** Beginning twice always reserves a step, unless the run is over, busy, or the caller's numbers are off. */
  lemma TwoBeginsReserve(state: State, limits: Limits, elapsedMs: int)
    ensures Begin(state, limits, elapsedMs).Ok? <==> MayBegin(state, limits, elapsedMs)
    ensures MayBegin(state, limits, elapsedMs) ==>
      Begin(state, limits, elapsedMs) == Ok(Reserved(Settled(state, limits, elapsedMs), elapsedMs))
  {
    hide InTheWay;
    var settled := Settled(state, limits, elapsedMs);
    if MayBegin(state, limits, elapsedMs) && settled != state {
      assert StepKind(settled.phase).CleanUp?;
      assert BeginStep(settled, limits, elapsedMs) == Ok(Reserved(settled, elapsedMs));
    }
  }
}
