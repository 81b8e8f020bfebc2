/**
  The laws of a run, told from its records and from plain numbers: which step
  follows which outcome, when a budget steps in and how, what code each step
  works on, and why a run stops.
*/
module RunLaws {
  import opened Numbers
  import opened Wrappers
  import opened RunState
  import opened RunHistory

  // -------------------------------------------------------- beginning a step

  /** The numbers that decide about the next step, and the phase it is to be in. */
  datatype Account = Account(attempts: int, repairs: int, piCalls: int, elapsedMs: int, phase: Phase)

  function AccountOf(s: State, elapsedMs: int): Account {
    Account(s.attemptsStarted, s.repairsThisAttempt, s.piCallsStarted, elapsedMs, s.phase)
  }

  predicate CallsPi(phase: Phase) {
    phase.Analyze? || phase.Research? || phase.Implement? || phase.Repair? || phase.Review?
  }

  /** A budget that the step needs is used up. */
  predicate UsedUp(reason: Reason, limits: Limits, a: Account) {
    match reason
    case Duration => a.elapsedMs >= limits.maxDurationMs
    case Attempts => a.phase.StartAttempt? && a.attempts >= limits.maxAttempts
    case Repairs => a.phase.Repair? && a.repairs >= limits.maxRepairsPerAttempt
    case PiCalls => (a.phase.StartAttempt? || CallsPi(a.phase)) && a.piCalls >= limits.maxPiCalls
  }

  predicate TidiesUp(phase: Phase) {
    phase.Keep? || phase.Discard? || phase.Finish?
  }

  /** Time, attempts or Pi calls stand in the way of a step that does not tidy up. */
  predicate EndsTheRun(limits: Limits, a: Account) {
    !TidiesUp(a.phase) && (UsedUp(Duration, limits, a) || UsedUp(Attempts, limits, a) || UsedUp(PiCalls, limits, a))
  }

  /** The repair budget is used up and nothing else stands in the way. */
  predicate EndsTheAttempt(limits: Limits, a: Account) {
    UsedUp(Repairs, limits, a) && !EndsTheRun(limits, a)
  }

  /** The phase in which the step is begun. */
  function BegunPhase(limits: Limits, a: Account): Phase {
    if EndsTheRun(limits, a) then Finish else if EndsTheAttempt(limits, a) then Discard else a.phase
  }

  function Place(reason: Reason): nat {
    match reason
    case Duration => 0
    case Attempts => 1
    case Repairs => 2
    case PiCalls => 3
  }

  /** Exactly the used-up budgets, in their fixed order. */
  ghost predicate NamesUsedUp(reasons: seq<Reason>, limits: Limits, a: Account) {
    && (forall r :: r in reasons <==> UsedUp(r, limits, a))
    && (forall i, j :: 0 <= i < j < |reasons| ==> Place(reasons[i]) < Place(reasons[j]))
  }

  lemma ReasonsAre(s: State, limits: Limits, elapsedMs: int)
    ensures NamesUsedUp(InTheWay(limits, ProgressAt(s, elapsedMs), StepKind(s.phase)), limits, AccountOf(s, elapsedMs))
  {
    hide UsedUp, InTheWay;
    var progress, kind := ProgressAt(s, elapsedMs), StepKind(s.phase);
    forall r: Reason ensures Exceeded(r, limits, progress, kind) <==> UsedUp(r, limits, AccountOf(s, elapsedMs)) {
      ExceededIs(s, limits, elapsedMs, r);
    }
    InOrder(limits, progress, kind);
  }

  lemma ExceededIs(s: State, limits: Limits, elapsedMs: int, r: Reason)
    ensures Exceeded(r, limits, ProgressAt(s, elapsedMs), StepKind(s.phase))
       <==> UsedUp(r, limits, AccountOf(s, elapsedMs))
  {
  }

  lemma InOrder(limits: Limits, progress: Progress, kind: NextStep)
    ensures var reasons := InTheWay(limits, progress, kind);
            forall i, j :: 0 <= i < j < |reasons| ==> Place(reasons[i]) < Place(reasons[j])
  {
    hide Exceeded;
  }

  /**
    A step begins exactly when the run is neither over nor in a step, time has
    not gone back, and all numbers are in range.
  */
  lemma BeginsExactly(s: State, limits: Limits, elapsedMs: int)
    ensures Begin(s, limits, elapsedMs).Ok? <==>
      && !s.phase.Done? && s.activeStep.None? && s.elapsedMs <= elapsedMs
      && 1 <= limits.maxAttempts <= MAX_SAFE_INTEGER && 0 <= limits.maxRepairsPerAttempt <= MAX_SAFE_INTEGER
      && 1 <= limits.maxPiCalls <= MAX_SAFE_INTEGER && 1 <= limits.maxDurationMs <= MAX_SAFE_INTEGER
      && 0 <= s.attemptsStarted <= MAX_SAFE_INTEGER && 0 <= s.repairsThisAttempt <= MAX_SAFE_INTEGER
      && 0 <= s.piCallsStarted <= MAX_SAFE_INTEGER && 0 <= elapsedMs <= MAX_SAFE_INTEGER
    ensures Begin(s, limits, elapsedMs).Err? ==>
      match Begin(s, limits, elapsedMs).error
      case AlreadyFinished => s.phase.Done?
      case StepIsActive => !s.phase.Done? && s.activeStep.Some?
      case TimeMovedBackwards => !s.phase.Done? && s.activeStep.None? && elapsedMs < s.elapsedMs
      case e => e == NotAnInteger && !s.phase.Done? && s.activeStep.None? && elapsedMs >= s.elapsedMs
  {
    hide LimitsAllow, WoundDown;
    TwoBeginsReserve(s, limits, elapsedMs);
    FirstBegin(s, limits, elapsedMs);
  }

  lemma FirstBegin(s: State, limits: Limits, elapsedMs: int)
    ensures BeginStep(s, limits, elapsedMs).Err? <==> Begin(s, limits, elapsedMs).Err?
    ensures Begin(s, limits, elapsedMs).Err? ==> Begin(s, limits, elapsedMs) == BeginStep(s, limits, elapsedMs)
  {
    hide LimitsAllow;
    TwoBeginsReserve(s, limits, elapsedMs);
  }

  /**
    A begun step is in the finish phase for want of a budget exactly when time,
    attempts or Pi calls stand in its way, with exactly those reasons; it is a
    discard instead of a repair exactly when the repair budget alone does, and
    the stop reason stays; otherwise it is in the state's phase.  Nothing else
    changes but the number, the time and the counters of what was begun.
  */
  lemma BegunExactly(s: State, limits: Limits, elapsedMs: int)
    requires Begin(s, limits, elapsedMs).Ok?
    ensures var a, begun := AccountOf(s, elapsedMs), Begin(s, limits, elapsedMs).value;
            && begun.phase == BegunPhase(limits, a)
            && (if EndsTheRun(limits, a) then
                  && begun.stopReason.Some? && begun.stopReason.value.LimitReached?
                  && NamesUsedUp(begun.stopReason.value.reasons, limits, a)
                else begun.stopReason == s.stopReason)
            && begun == s.(phase := begun.phase, stopReason := begun.stopReason, elapsedMs := elapsedMs,
                           sequence := s.sequence + 1, activeStep := Some(s.sequence + 1),
                           attemptsStarted := s.attemptsStarted + if begun.phase.StartAttempt? then 1 else 0,
                           repairsThisAttempt := if begun.phase.StartAttempt? then 0
                                                 else s.repairsThisAttempt + if begun.phase.Repair? then 1 else 0,
                           piCallsStarted := s.piCallsStarted + if CallsPi(begun.phase) then 1 else 0)
  {
    hide InTheWay, EndsTheRun, EndsTheAttempt, NamesUsedUp;
    TwoBeginsReserve(s, limits, elapsedMs);
    SettledExactly(s, limits, elapsedMs);
  }

  lemma SettledExactly(s: State, limits: Limits, elapsedMs: int)
    requires MayBegin(s, limits, elapsedMs)
    ensures var a, settled := AccountOf(s, elapsedMs), Settled(s, limits, elapsedMs);
            && settled.phase == BegunPhase(limits, a)
            && (if EndsTheRun(limits, a) then
                  && settled.stopReason.Some? && settled.stopReason.value.LimitReached?
                  && NamesUsedUp(settled.stopReason.value.reasons, limits, a)
                else settled.stopReason == s.stopReason)
            && settled == s.(phase := settled.phase, stopReason := settled.stopReason, elapsedMs := settled.elapsedMs)
  {
    hide InTheWay, NamesUsedUp;
    var a, kind := AccountOf(s, elapsedMs), StepKind(s.phase);
    var reasons := InTheWay(limits, ProgressAt(s, elapsedMs), kind);
    ReasonsAre(s, limits, elapsedMs);
    OnlyRepairs(reasons, limits, a);
  }

  lemma OnlyRepairs(reasons: seq<Reason>, limits: Limits, a: Account)
    requires NamesUsedUp(reasons, limits, a)
    ensures forall r :: r in reasons <==> UsedUp(r, limits, a)
    ensures reasons == [Repairs] <==>
      && UsedUp(Repairs, limits, a)
      && !UsedUp(Duration, limits, a) && !UsedUp(Attempts, limits, a) && !UsedUp(PiCalls, limits, a)
    ensures reasons == [] <==> forall r :: !UsedUp(r, limits, a)
  {
    hide UsedUp;
    assert |reasons| > 1 ==> Place(reasons[0]) < Place(reasons[1]);
    if UsedUp(Repairs, limits, a)
       && !UsedUp(Duration, limits, a) && !UsedUp(Attempts, limits, a) && !UsedUp(PiCalls, limits, a) {
      forall i | 0 <= i < |reasons| ensures reasons[i] == Repairs {
        assert reasons[i] in reasons;
      }
      assert Repairs in reasons;
    }
    if reasons != [] {
      assert reasons[0] in reasons;
    }
  }

  // -------------------------------------------------------- finishing a step

  /** The kind of outcome belongs to the phase; any step may fail. */
  predicate Fits(phase: Phase, outcome: Outcome) {
    match outcome
    case Prepared => phase.Prepare?
    case Measured(_, _, _, _, _) => phase.Baseline? || phase.Measure?
    case AttemptStarted => phase.StartAttempt?
    case Profiled => phase.Profile?
    case Analysis(_) => phase.Analyze?
    case Researched => phase.Research?
    case Edited(_) => phase.Implement? || phase.Repair?
    case Tested(_, _) => phase.Test?
    case Reviewed(_, _) => phase.Review?
    case Kept(_) => phase.Keep?
    case Discarded(_) => phase.Discard?
    case Finished => phase.Finish?
    case Failed(_) => true
  }

  predicate IsHex(c: char) {
    c in "0123456789abcdef"
  }

  /** The outcome speaks of the code that the step worked on, or of the best, or of a new commit. */
  predicate NamesItsCode(outcome: Outcome, working: string, best: string) {
    match outcome
    case Measured(revision, _, _, _, _) => revision == working
    case Tested(revision, _) => revision == working
    case Reviewed(revision, _) => revision == working
    case Kept(revision) => revision == working
    case Discarded(revision) => revision == best
    case Edited(revision) => |revision| == 40 && forall i :: 0 <= i < 40 ==> IsHex(revision[i])
    case _ => true
  }

  /** A step finishes exactly with its own number, a named output, and an outcome that fits and names its code. */
  lemma FinishesExactly(s: State, step: int, outcome: Outcome, output: OutputReference)
    ensures Finishing(s, step, outcome, output).Ok? <==>
      && s.activeStep == Some(step) && step == s.sequence
      && output.name != "" && 1 <= output.version <= MAX_SAFE_INTEGER
      && Fits(s.phase, outcome) && NamesItsCode(outcome, s.workingRevision, s.bestRevision)
    ensures Finishing(s, step, outcome, output).Err? ==>
      HasCause(s, step, outcome, output, Finishing(s, step, outcome, output).error)
  {
    hide IsHex, Expected, RevisionFault, Fits, NamesItsCode, HasCause, Advanced;
    FitsAndNames(s, outcome);
    FailuresHaveCauses(s, step, outcome, output);
  }

  /** Why a step cannot finish so. */
  predicate HasCause(s: State, step: int, outcome: Outcome, output: OutputReference, e: Error) {
    match e
    case NotTheActiveStep => s.activeStep != Some(step) || step != s.sequence
    case NoSavedOutput => output.name == "" || !(1 <= output.version <= MAX_SAFE_INTEGER)
    case CannotComplete => s.phase.Done? && !outcome.Failed?
    case UnexpectedResult => !Fits(s.phase, outcome)
    case DifferentRevision =>
      (outcome.Measured? || outcome.Tested? || outcome.Reviewed? || outcome.Kept?)
        && outcome.revision != s.workingRevision
    case NotACommit => outcome.Edited? && !NamesItsCode(outcome, s.workingRevision, s.bestRevision)
    case BestNotRestored => outcome.Discarded? && outcome.revision != s.bestRevision
    case _ => false
  }

  lemma FailuresHaveCauses(s: State, step: int, outcome: Outcome, output: OutputReference)
    ensures Finishing(s, step, outcome, output).Err? ==>
      HasCause(s, step, outcome, output, Finishing(s, step, outcome, output).error)
  {
    hide IsHex, IsRevision;
    if outcome.Edited? {
      RevisionIsHex(outcome.revision);
    }
  }

  lemma RevisionIsHex(revision: string)
    ensures IsRevision(revision) <==> |revision| == 40 && forall i :: 0 <= i < 40 ==> IsHex(revision[i])
  {
    forall c ensures IsHex(c) <==> '0' <= c <= '9' || 'a' <= c <= 'f' {
      HexIs(c);
    }
    if IsRevision(revision) {
      forall i | 0 <= i < 40 ensures IsHex(revision[i]) {
        assert revision[i] in revision;
      }
    }
  }

  lemma HexIs(c: char)
    ensures IsHex(c) <==> '0' <= c <= '9' || 'a' <= c <= 'f'
  {
    var digits := "0123456789abcdef";
    if '0' <= c <= '9' {
      assert digits[(c - '0') as int] == c;
    }
    if 'a' <= c <= 'f' {
      assert digits[10 + (c - 'a') as int] == c;
    }
  }

  // ------------------------------------------------- what leads to a phase

  /** The outcome of the step before step k leads to this phase. */
  predicate Leads(records: seq<Record>, k: nat, phase: Phase)
    requires k <= |records|
  {
    if k == 0 then phase.Prepare?
    else
      var last := records[k - 1];
      match phase
      case Prepare => false
      case Baseline => last.outcome.Prepared?
      case StartAttempt =>
        || (last.phase.Baseline? && last.outcome.Measured? && last.outcome.valid && !last.outcome.targetMet)
        || (last.outcome.Kept? && !KeptTheTarget(records, k - 1))
        || last.outcome.Discarded?
      case Profile => last.outcome.AttemptStarted? || (last.outcome.Analysis? && last.outcome.action.Reprofile?)
      case Analyze => last.outcome.Profiled? || last.outcome.Researched?
      case Research => last.outcome.Analysis? && last.outcome.action.LookUp?
      case Implement => last.outcome.Analysis? && last.outcome.action.Change?
      case Test => last.outcome.Edited?
      case Measure => last.outcome.Tested? && last.outcome.passed
      case Repair => (last.outcome.Tested? || last.outcome.Reviewed?) && !last.outcome.passed
      case Review =>
        && last.phase.Measure? && last.outcome.Measured? && last.outcome.valid
        && (last.outcome.improved || last.outcome.targetMet)
      case Keep => last.outcome.Reviewed? && last.outcome.passed
      case Discard =>
        && last.phase.Measure? && last.outcome.Measured?
        && if last.outcome.valid then !last.outcome.improved && !last.outcome.targetMet else last.outcome.inconclusive
      case Finish => EndReason(records, k - 1).Some?
      case Done => last.outcome.Finished?
  }

  /** The keep step k kept a measurement that met the target; it was made two steps before. */
  predicate KeptTheTarget(records: seq<Record>, k: nat)
    requires k < |records|
  {
    k >= 2 && records[k - 2].outcome.Measured? && records[k - 2].outcome.targetMet
  }

  /** Why step k ends the run, if it does. */
  function EndReason(records: seq<Record>, k: nat): Option<StopReason>
    requires k < |records|
  {
    var last := records[k];
    match last.outcome
    case Failed(message) => Some(StepFailed(message))
    case Analysis(Stop(reason)) => Some(AnalysisStopped(reason))
    case Kept(_) => if KeptTheTarget(records, k) then Some(TargetMet) else None
    case Measured(_, valid, inconclusive, targetMet, _) =>
      if last.phase.Baseline? then
        if !valid then Some(if inconclusive then InconclusiveMeasurement else InvalidMeasurement)
        else if targetMet then Some(TargetMet) else None
      else if !valid && !inconclusive then Some(InvalidMeasurement) else None
    case _ => None
  }

  /** The account before step k, counted from the records. */
  function AccountAt(start: State, records: seq<Record>, k: nat, elapsedMs: int, phase: Phase): Account
    requires k <= |records|
  {
    Account(start.attemptsStarted + CountIn(records[..k], {StartAttempt}), RepairsSince(records[..k]),
            start.piCallsStarted + CountIn(records[..k], PI_PHASES), elapsedMs, phase)
  }

  /** Step k is in the phase that the step before leads to, or in the one that the budgets put in its place. */
  ghost predicate Follows(start: State, limits: Limits, records: seq<Record>, k: nat, elapsedMs: int)
    requires k < |records|
  {
    exists phase :: Leads(records, k, phase)
                    && records[k].phase == BegunPhase(limits, AccountAt(start, records, k, elapsedMs, phase))
  }

  /** The code after the first k steps: the last edit's or the one that was restored, or what the run started with. */
  function CodeAt(first: string, records: seq<Record>, k: nat): string
    requires k <= |records|
  {
    if k == 0 then first
    else if records[k - 1].outcome.Edited? || records[k - 1].outcome.Discarded? then records[k - 1].outcome.revision
    else CodeAt(first, records, k - 1)
  }

  /** Step k worked on the code it says, ended as its phase can, and named the right code. */
  predicate WorksOnItsCode(start: State, records: seq<Record>, k: nat)
    requires k < |records|
  {
    && records[k].revision == CodeAt(start.workingRevision, records, k)
    && Fits(records[k].phase, records[k].outcome) && !records[k].phase.Done?
    && NamesItsCode(records[k].outcome, records[k].revision, LastKept(records[..k], start.bestRevision))
  }

  /** Step j met the target, and no step since has put that in question. */
  predicate MetLast(records: seq<Record>, j: nat) {
    && j < |records| && records[j].outcome.Measured? && records[j].outcome.valid && records[j].outcome.targetMet
    && forall i :: j < i < |records| ==> !ClearsTarget(records[i].outcome)
  }

  predicate ClearsTarget(outcome: Outcome) {
    outcome.Failed? || outcome.Measured? || outcome.AttemptStarted? || outcome.Edited? || outcome.Discarded?
  }

  /** The target flag says that the last measurement met it, until the run is done. */
  ghost predicate FlagIsRight(h: History) {
    !h.state.phase.Done? ==> (h.state.targetMet <==> exists j :: MetLast(h.records, j))
  }

  /** Step k was to be in this phase, and the budgets that are named put the finish in its place. */
  ghost predicate BudgetEnds(start: State, limits: Limits, records: seq<Record>, k: nat, elapsedMs: int, phase: Phase,
                             reason: StopReason)
    requires k <= |records|
  {
    var a := AccountAt(start, records, k, elapsedMs, phase);
    Leads(records, k, phase) && EndsTheRun(limits, a) && reason.LimitReached? && NamesUsedUp(reason.reasons, limits, a)
  }

  ghost predicate ABudgetEnds(start: State, limits: Limits, records: seq<Record>, k: nat, elapsedMs: int,
                              reason: StopReason)
    requires k <= |records|
  {
    exists phase :: BudgetEnds(start, limits, records, k, elapsedMs, phase, reason)
  }

  /**
    A run in its finish has the reason of its last step; one that is done has
    that of the step before, or a budget's.
  */
  ghost predicate StopsForAReason(start: State, limits: Limits, h: History) {
    var n := |h.records|;
    match h.state.phase
    case Finish => n > 0 && h.state.stopReason == EndReason(h.records, n - 1)
    case Done =>
      && n > 0 && h.state.stopReason.Some?
      && if Leads(h.records, n - 1, Finish) then h.state.stopReason == EndReason(h.records, n - 2)
         else ABudgetEnds(start, limits, h.records, n - 1, h.state.elapsedMs, h.state.stopReason.value)
    case _ => h.state.stopReason.None?
  }

  /** A profile step records what was asked for: the default in a new attempt, or what the analysis wants. */
  predicate ProfilesAsAsked(h: History) {
    var n := |h.records|;
    h.state.phase.Profile? && n > 0 ==>
      if h.records[n - 1].outcome.Analysis? && h.records[n - 1].outcome.action.Reprofile?
      then h.state.requestedProfile == h.records[n - 1].outcome.action.event
      else h.state.requestedProfile == Ctimer
  }

  /** What the state of a history says, told from its records. */
  ghost predicate Tells(start: State, h: History) {
    && Leads(h.records, |h.records|, h.state.phase)
    && h.state.workingRevision == CodeAt(start.workingRevision, h.records, |h.records|)
    && FlagIsRight(h) && ProfilesAsAsked(h)
  }

  // ------------------------------------------------------- every step keeps them

  lemma LeadsStep(limits: Limits, h: History, move: Move, h': History)
    requires Supported(h) && Steps(h, limits, move, h')
    ensures Leads(h'.records, |h'.records|, h'.state.phase)
  {
    hide LimitsAllow, NextStopReason, NextTargetMet, RevisionFault, Settled;
    SettledPhase(h.state, limits, move.elapsedMs);
  }

  /** What leads to a phase, the code and the counts depend on the steps before only. */
  lemma SamePrefix(start: State, records: seq<Record>, last: Record, k: nat, elapsedMs: int, phase: Phase)
    requires k <= |records|
    ensures Leads(records + [last], k, phase) == Leads(records, k, phase)
    ensures AccountAt(start, records + [last], k, elapsedMs, phase) == AccountAt(start, records, k, elapsedMs, phase)
    ensures (records + [last])[..k] == records[..k]
  {
    assert (records + [last])[..k] == records[..k];
  }

  lemma {:induction false} SameCode(first: string, records: seq<Record>, last: Record, k: nat)
    requires k <= |records|
    ensures CodeAt(first, records + [last], k) == CodeAt(first, records, k)
  {
    if k > 0 {
      SameCode(first, records, last, k - 1);
    }
  }

  lemma CodeStep(start: State, limits: Limits, h: History, move: Move, h': History)
    requires h.state.workingRevision == CodeAt(start.workingRevision, h.records, |h.records|)
             && Steps(h, limits, move, h')
    ensures h'.state.workingRevision == CodeAt(start.workingRevision, h'.records, |h'.records|)
  {
    hide LimitsAllow, NextPhase, NextStopReason, NextTargetMet, RevisionFault, Expected, Settled;
    SettledPhase(h.state, limits, move.elapsedMs);
    SameCode(start.workingRevision, h.records, h'.records[|h.records|], |h.records|);
  }

  lemma FlagStep(limits: Limits, h: History, move: Move, h': History)
    requires FlagIsRight(h) && Steps(h, limits, move, h')
    ensures FlagIsRight(h')
  {
    hide LimitsAllow, NextStopReason, RevisionFault, Settled;
    SettledPhase(h.state, limits, move.elapsedMs);
    var n := |h.records|;
    forall j: nat ensures MetLast(h'.records, j) <==>
      if j == n then move.outcome.Measured? && move.outcome.valid && move.outcome.targetMet
      else MetLast(h.records, j) && !ClearsTarget(move.outcome)
    {
      MetStep(h.records, h'.records[n], j);
    }
    assert MetLast(h'.records, n) <==> move.outcome.Measured? && move.outcome.valid && move.outcome.targetMet;
    if h.state.targetMet {
      var j :| MetLast(h.records, j);
      assert MetLast(h'.records, j) <==> !ClearsTarget(move.outcome);
    }
  }

  lemma MetStep(records: seq<Record>, last: Record, j: nat)
    ensures MetLast(records + [last], j) <==>
      if j == |records| then last.outcome.Measured? && last.outcome.valid && last.outcome.targetMet
      else MetLast(records, j) && !ClearsTarget(last.outcome)
  {
    var all := records + [last];
    if j < |records| {
      assert all[|records|] == last;
      assert forall i :: 0 <= i < |records| ==> all[i] == records[i];
    }
  }

  lemma ProfileStep(limits: Limits, h: History, move: Move, h': History)
    requires Steps(h, limits, move, h')
    ensures ProfilesAsAsked(h')
  {
    hide LimitsAllow, NextStopReason, NextTargetMet, RevisionFault, Settled;
    SettledPhase(h.state, limits, move.elapsedMs);
  }

  lemma FollowStep(start: State, limits: Limits, h: History, move: Move, h': History)
    requires Leads(h.records, |h.records|, h.state.phase) && Budgeted(start, limits, h) && Steps(h, limits, move, h')
    ensures Follows(start, limits, h'.records, |h.records|, move.elapsedMs)
  {
    hide LimitsAllow, Leads, Advanced, Settled, MayBegin, BegunPhase, CountIn, RepairsSince, Expected, RevisionFault;
    var n := |h.records|;
    SettledExactly(h.state, limits, move.elapsedMs);
    assert h.records[..n] == h.records;
    SamePrefix(start, h.records, h'.records[n], n, move.elapsedMs, h.state.phase);
  }

  lemma WorksStep(start: State, limits: Limits, h: History, move: Move, h': History)
    requires h.state.workingRevision == CodeAt(start.workingRevision, h.records, |h.records|)
    requires BestIsLastKept(start, h) && Steps(h, limits, move, h')
    ensures WorksOnItsCode(start, h'.records, |h.records|)
  {
    hide LimitsAllow, NextPhase, NextStopReason, NextTargetMet, Settled, LastKept, Fits, NamesItsCode, Expected,
      RevisionFault, CodeAt;
    var settled := Settled(h.state, limits, move.elapsedMs);
    SettledPhase(h.state, limits, move.elapsedMs);
    SameCode(start.workingRevision, h.records, h'.records[|h.records|], |h.records|);
    assert h'.records[..|h.records|] == h.records;
    FitsAndNames(settled, move.outcome);
  }

  /** What the engine takes for a result is what fits the phase and names the right code. */
  lemma FitsAndNames(s: State, outcome: Outcome)
    ensures outcome.Failed? || (!s.phase.Done? && Expected(s.phase, outcome) && RevisionFault(s, outcome).None?) <==>
      Fits(s.phase, outcome) && NamesItsCode(outcome, s.workingRevision, s.bestRevision)
  {
    hide IsHex, IsRevision;
    if outcome.Edited? {
      RevisionIsHex(outcome.revision);
    }
  }

  lemma StopStep(start: State, limits: Limits, h: History, move: Move, h': History)
    requires StopsForAReason(start, limits, h) && StopsRightly(h.state) && Supported(h) && Budgeted(start, limits, h)
    requires Leads(h.records, |h.records|, h.state.phase) && Steps(h, limits, move, h')
    ensures StopsForAReason(start, limits, h')
  {
    hide Steps, Leads, EndReason, ABudgetEnds, BudgetEnds, Supported, Budgeted;
    StopsStep(limits, h, move, h');
    if h'.state.phase.Finish? {
      FinishReason(limits, h, move, h');
    }
    if h'.state.phase.Done? {
      DoneReason(start, limits, h, move, h');
      StepAppends(limits, h, move, h');
      if h.state.phase.Finish? {
        assert |h.records| > 0 && h.state.stopReason == EndReason(h.records, |h.records| - 1);
        SameReason(h.records, h'.records[|h.records|], |h.records| - 1);
      }
    }
  }

  /** A step that leads to the finish gives its own reason. */
  lemma FinishReason(limits: Limits, h: History, move: Move, h': History)
    requires StopsRightly(h.state) && Supported(h) && Steps(h, limits, move, h') && h'.state.phase.Finish?
    ensures |h'.records| == |h.records| + 1 && h'.state.stopReason == EndReason(h'.records, |h.records|)
  {
    hide MayBegin, NextTargetMet, RevisionFault, Settled;
    SettledPhase(h.state, limits, move.elapsedMs);
  }

  /** The finish keeps the reason it was begun with. */
  lemma DoneReason(start: State, limits: Limits, h: History, move: Move, h': History)
    requires Budgeted(start, limits, h) && Leads(h.records, |h.records|, h.state.phase) && Steps(h, limits, move, h')
    requires h'.state.phase.Done?
    ensures |h'.records| == |h.records| + 1 && h'.state.elapsedMs == move.elapsedMs
    ensures if h.state.phase.Finish? then
              Leads(h'.records, |h.records|, Finish) && h'.state.stopReason == h.state.stopReason
            else
              && !Leads(h'.records, |h.records|, Finish) && h'.state.stopReason.Some?
              && ABudgetEnds(start, limits, h'.records, |h.records|, move.elapsedMs, h'.state.stopReason.value)
  {
    hide MayBegin, NextTargetMet, RevisionFault, Settled, Leads, EndReason, CountIn, RepairsSince, NamesUsedUp;
    var n := |h.records|;
    SettledExactly(h.state, limits, move.elapsedMs);
    assert h.records[..n] == h.records;
    SamePrefix(start, h.records, h'.records[n], n, move.elapsedMs, h.state.phase);
    SamePrefix(start, h.records, h'.records[n], n, move.elapsedMs, Finish);
    if !h.state.phase.Finish? {
      OnlyFinish(h.records, n, h.state.phase);
      assert BudgetEnds(start, limits, h'.records, n, move.elapsedMs, h.state.phase, h'.state.stopReason.value);
    }
  }

  /** Where the step before leads on, it gives no reason to stop. */
  lemma OnlyFinish(records: seq<Record>, k: nat, phase: Phase)
    requires k <= |records| && Leads(records, k, phase) && !phase.Finish?
    ensures !Leads(records, k, Finish)
  {
    hide KeptTheTarget;
  }

  lemma SameReason(records: seq<Record>, last: Record, k: nat)
    requires k < |records|
    ensures EndReason(records + [last], k) == EndReason(records, k)
  {
  }

  // -------------------------------------------------------- every history

  lemma StartTells(start: State, limits: Limits)
    requires IsStart(start)
    ensures Tells(start, History(start, [])) && StopsForAReason(start, limits, History(start, []))
  {
  }

  lemma TellsStep(start: State, limits: Limits, h: History, move: Move, h': History)
    requires Tells(start, h) && Supported(h) && BestIsLastKept(start, h) && Steps(h, limits, move, h')
    ensures Tells(start, h')
  {
    hide Steps, FlagIsRight, ProfilesAsAsked, Leads, CodeAt, Supported, BestIsLastKept;
    LeadsStep(limits, h, move, h');
    CodeStep(start, limits, h, move, h');
    FlagStep(limits, h, move, h');
    ProfileStep(limits, h, move, h');
  }

  /** The state of every history: its phase, code, target flag and stop reason, told from the records. */
  lemma {:induction false} EveryStateTells(start: State, limits: Limits, moves: seq<Move>)
    requires IsStart(start) && Played(start, limits, moves).Ok?
    ensures Tells(start, Played(start, limits, moves).value)
    ensures StopsForAReason(start, limits, Played(start, limits, moves).value)
  {
    hide IsStart, Extended, Steps, Tells, StopsForAReason, Supported, BestIsLastKept, Budgeted, StopsRightly,
      KeepsJustified, TargetProven, PaidFor, Numbered;
    if moves == [] {
      StartTells(start, limits);
    } else {
      var before, move := moves[..|moves| - 1], moves[|moves| - 1];
      EveryStateTells(start, limits, before);
      EveryHistoryIsSound(start, limits, before);
      var h, h' := Played(start, limits, before).value, Played(start, limits, moves).value;
      ExtendedSteps(h, limits, move);
      TellsStep(start, limits, h, move, h');
      PhaseIsLed(start, h);
      StopStep(start, limits, h, move, h');
    }
  }

  lemma PhaseIsLed(start: State, h: History)
    requires Tells(start, h)
    ensures Leads(h.records, |h.records|, h.state.phase)
    ensures h.state.workingRevision == CodeAt(start.workingRevision, h.records, |h.records|)
  {
  }

  /**
    Every step of every history is in the phase that the step before leads to, or
    in the one that a used-up budget puts in its place; it works on the code that
    was last edited or restored; and it ends as its phase can, naming that code.
  */
  lemma {:induction false} EveryStepFollows(start: State, limits: Limits, moves: seq<Move>, k: nat)
    requires IsStart(start) && Played(start, limits, moves).Ok? && k < |moves|
    ensures |Played(start, limits, moves).value.records| == |moves|
    ensures Follows(start, limits, Played(start, limits, moves).value.records, k, moves[k].elapsedMs)
    ensures WorksOnItsCode(start, Played(start, limits, moves).value.records, k)
  {
    hide IsStart, Extended, Steps, Tells, Supported, BestIsLastKept, Budgeted, StopsRightly, KeepsJustified,
      TargetProven, PaidFor, Numbered, Follows, WorksOnItsCode;
    var before, move := moves[..|moves| - 1], moves[|moves| - 1];
    OneRecordEach(start, limits, moves);
    OneRecordEach(start, limits, before);
    EveryStateTells(start, limits, before);
    EveryHistoryIsSound(start, limits, before);
    var h, h' := Played(start, limits, before).value, Played(start, limits, moves).value;
    ExtendedSteps(h, limits, move);
    PhaseIsLed(start, h);
    if k < |before| {
      EveryStepFollows(start, limits, before, k);
      StepAppends(limits, h, move, h');
      StillFollows(start, limits, h.records, h'.records[|h.records|], k, moves[k].elapsedMs);
    } else {
      FollowStep(start, limits, h, move, h');
      WorksStep(start, limits, h, move, h');
    }
  }

  lemma StepAppends(limits: Limits, h: History, move: Move, h': History)
    requires Steps(h, limits, move, h')
    ensures |h'.records| == |h.records| + 1 && h'.records == h.records + [h'.records[|h.records|]]
  {
    hide Settled, MayBegin, Advanced, Expected, RevisionFault;
  }

  lemma StillFollows(start: State, limits: Limits, records: seq<Record>, last: Record, k: nat, elapsedMs: int)
    requires k < |records| && Follows(start, limits, records, k, elapsedMs) && WorksOnItsCode(start, records, k)
    ensures Follows(start, limits, records + [last], k, elapsedMs) && WorksOnItsCode(start, records + [last], k)
  {
    hide Leads, AccountAt, BegunPhase, CodeAt, Fits, NamesItsCode, LastKept;
    var phase :| Leads(records, k, phase)
                 && records[k].phase == BegunPhase(limits, AccountAt(start, records, k, elapsedMs, phase));
    SamePrefix(start, records, last, k, elapsedMs, phase);
    SameCode(start.workingRevision, records, last, k);
  }

  // ------------------------------------------------------------- in short

  /** What an outcome leads to is one phase only. */
  lemma LeadsToOne(records: seq<Record>, k: nat, p: Phase, q: Phase)
    requires k <= |records| && Leads(records, k, p) && Leads(records, k, q)
    requires k > 0 ==> Fits(records[k - 1].phase, records[k - 1].outcome)
    ensures p == q
  {
  }

  /** What stands right before a step, phase by phase. */
  ghost predicate ComesAfter(limits: Limits, records: seq<Record>, k: nat, repairs: int)
    requires 0 < k < |records|
  {
    var last := records[k - 1];
    match records[k].phase
    case Implement => last.outcome == Analysis(Change)
    case Research => last.outcome == Analysis(LookUp)
    case Profile => last.outcome.AttemptStarted? || (last.outcome.Analysis? && last.outcome.action.Reprofile?)
    case Analyze => last.outcome.Profiled? || last.outcome.Researched?
    case Test => last.outcome.Edited?
    case Measure => last.outcome.Tested? && last.outcome.passed
    case Repair => last.outcome == Tested(last.revision, false) || last.outcome == Reviewed(last.revision, false)
    case Review => last.outcome.Measured? && last.outcome.valid && (last.outcome.improved || last.outcome.targetMet)
    case Keep => last.outcome == Reviewed(last.revision, true)
    case Discard =>
      || (last.outcome.Measured? && last.outcome.valid && !last.outcome.improved && !last.outcome.targetMet)
      || (last.outcome.Measured? && !last.outcome.valid && last.outcome.inconclusive)
      || (repairs >= limits.maxRepairsPerAttempt
          && (last.outcome == Tested(last.revision, false) || last.outcome == Reviewed(last.revision, false)))
    case Baseline => last.outcome.Prepared?
    case StartAttempt => last.outcome.Measured? || last.outcome.Kept? || last.outcome.Discarded?
    case Finish => true
    case _ => false
  }

  /** In every history each step comes right after the outcome that calls for it. */
  lemma StepsComeInOrder(start: State, limits: Limits, moves: seq<Move>, k: nat)
    requires IsStart(start) && Played(start, limits, moves).Ok? && 0 < k < |moves|
    ensures |Played(start, limits, moves).value.records| == |moves|
    ensures var records := Played(start, limits, moves).value.records;
            ComesAfter(limits, records, k, RepairsSince(records[..k]))
  {
    hide IsStart, Played, CountIn, RepairsSince, CodeAt, LastKept;
    EveryStepFollows(start, limits, moves, k);
    EveryStepFollows(start, limits, moves, k - 1);
  }
}
