/**
  Whole histories of a run: what every state that the engine can reach keeps,
  why each kept revision was kept, and why every run ends.
*/
module RunHistory {
  import opened Wrappers
  import opened RunState

  /** One finished step as it is saved. */
  datatype Record = Record(step: int, phase: Phase, revision: string, outcome: Outcome)

  datatype History = History(state: State, records: seq<Record>)

  /** What the outside decides about a step: when it begins and how it ends. */
  datatype Move = Move(elapsedMs: int, outcome: Outcome)

  function Decimal(n: nat): string {
    var digit := ['0' + (n % 10) as char];
    if n < 10 then digit else Decimal(n / 10) + digit
  }

  /** The name under which the result of step `n` is saved, and its only version. */
  function StepOutput(runId: string, n: int): OutputReference {
    OutputReference(runId + "-step-" + Decimal(if n < 0 then 0 else n), 1)
  }

  /** The next step: reserve it, perform it, finish it. */
  function Extended(h: History, limits: Limits, move: Move): Result<History, Error> {
    var active := Begin(h.state, limits, move.elapsedMs);
    if active.Err? then Err(active.error)
    else
      var step := active.value.sequence;
      var finished := Finishing(active.value, step, move.outcome, StepOutput(h.state.runId, step));
      if finished.Err? then Err(finished.error)
      else Ok(History(finished.value,
                      h.records + [Record(step, active.value.phase, active.value.workingRevision, move.outcome)]))
  }

  function Played(start: State, limits: Limits, moves: seq<Move>): Result<History, Error> {
    if moves == [] then Ok(History(start, []))
    else
      var before := Played(start, limits, moves[..|moves| - 1]);
      if before.Err? then before else Extended(before.value, limits, moves[|moves| - 1])
  }

  /** The first saved state of a run, fresh or a restart that takes over a parent's best revision and budgets. */
  predicate IsStart(s: State) {
    && s.phase.Prepare? && s.sequence == 0 && s.activeStep.None? && !s.targetMet && s.stopReason.None?
    && s.outputs == map[]
    && s.repairsThisAttempt == 0 && s.attemptsStarted >= 0 && s.piCallsStarted >= 0
    && s.workingRevision == s.bestRevision && IsRevision(s.bestRevision)
  }

  lemma NewRunStarts(runId: string, revision: string)
    ensures NewRun(runId, revision).Ok? ==> IsStart(NewRun(runId, revision).value)
  {
  }

  /** What a step comes down to: settle, reserve, advance. */
  ghost predicate Steps(h: History, limits: Limits, move: Move, h': History) {
    var settled := Settled(h.state, limits, move.elapsedMs);
    var active := Reserved(settled, move.elapsedMs);
    && MayBegin(h.state, limits, move.elapsedMs)
    && (move.outcome.Failed? || (Expected(settled.phase, move.outcome) && RevisionFault(settled, move.outcome).None?))
    && h' == History(
         Advanced(active, move.outcome, StepOutput(h.state.runId, active.sequence)),
         h.records + [Record(active.sequence, active.phase, active.workingRevision, move.outcome)])
  }

  lemma ExtendedSteps(h: History, limits: Limits, move: Move)
    requires Extended(h, limits, move).Ok?
    ensures Steps(h, limits, move, Extended(h, limits, move).value)
  {
    hide LimitsAllow, Advanced, Expected;
    TwoBeginsReserve(h.state, limits, move.elapsedMs);
  }

  /** The budgets only ever turn a repair into a discard, or a step that is no clean-up into the finish. */
  lemma SettledPhase(state: State, limits: Limits, elapsedMs: int)
    ensures var settled := Settled(state, limits, elapsedMs);
            || settled == state
            || (settled == state.(elapsedMs := elapsedMs, phase := Discard, activeStep := None) && state.phase.Repair?)
            || (!StepKind(state.phase).CleanUp? && settled.stopReason.Some? && settled.stopReason.value.LimitReached?
                && settled == state.(elapsedMs := elapsedMs, phase := Finish, stopReason := settled.stopReason,
                                     activeStep := None))
  {
    var reasons := InTheWay(limits, ProgressAt(state, elapsedMs), StepKind(state.phase));
    if reasons == [Repairs] {
      assert Repairs in reasons;
    }
  }

  // ------------------------------------------------------------- the shape

  /** Steps are numbered from one, and every phase's output is its last step's. */
  ghost predicate Numbered(start: State, h: History) {
    && h.state.activeStep.None? && h.state.runId == start.runId && h.state.initialRevision == start.initialRevision
    && h.state.sequence == |h.records|
    && (forall i :: 0 <= i < |h.records| ==> h.records[i].step == i + 1)
  }

  lemma NumberedStep(start: State, limits: Limits, h: History, move: Move, h': History)
    requires Numbered(start, h) && Steps(h, limits, move, h')
    ensures Numbered(start, h')
  {
    hide LimitsAllow, Expected, RevisionFault, NextPhase, NextStopReason, NextTargetMet;
  }

  // --------------------------------------------------------- stop reasons

  /** A run has a reason to stop exactly when it is stopping, and met its target exactly when that was the reason. */
  ghost predicate StopsRightly(s: State) {
    && (s.stopReason.None? <==> !s.phase.Finish? && !s.phase.Done?)
    && (s.phase.Done? ==> (s.targetMet <==> s.stopReason == Some(TargetMet)))
  }

  lemma StopsStep(limits: Limits, h: History, move: Move, h': History)
    requires StopsRightly(h.state) && Steps(h, limits, move, h')
    ensures StopsRightly(h'.state)
    ensures StopsRightly(Settled(h.state, limits, move.elapsedMs))
  {
    hide LimitsAllow, RevisionFault;
    SettledPhase(h.state, limits, move.elapsedMs);
  }

  // --------------------------------------------------------------- evidence

  predicate PassedTest(r: Record, revision: string) {
    r.phase.Test? && r.outcome == Tested(revision, true)
  }

  predicate Accepted(r: Record, revision: string) {
    r.phase.Measure? && r.outcome.Measured? && r.outcome.revision == revision && r.outcome.valid
    && (r.outcome.improved || r.outcome.targetMet)
  }

  predicate PassedReview(r: Record, revision: string) {
    r.phase.Review? && r.outcome == Reviewed(revision, true)
  }

  /** Step k kept a revision right after a passing test, an accepted measurement and a passing review of it. */
  predicate Justified(records: seq<Record>, k: int) {
    && 3 <= k < |records| && records[k].phase.Keep? && records[k].outcome.Kept?
    && var revision := records[k].outcome.revision;
       && PassedTest(records[k - 3], revision) && Accepted(records[k - 2], revision)
       && PassedReview(records[k - 1], revision)
  }

  ghost predicate KeepsJustified(records: seq<Record>) {
    forall k :: 0 <= k < |records| && records[k].outcome.Kept? ==> Justified(records, k)
  }

  /** What the last steps say about the code that the run is working on. */
  ghost predicate Supported(h: History) {
    var n, working := |h.records|, h.state.workingRevision;
    match h.state.phase
    case Measure => n >= 1 && PassedTest(h.records[n - 1], working)
    case Review =>
      n >= 2 && PassedTest(h.records[n - 2], working) && Accepted(h.records[n - 1], working)
      && h.state.targetMet == h.records[n - 1].outcome.targetMet
    case Keep =>
      n >= 3 && PassedTest(h.records[n - 3], working) && Accepted(h.records[n - 2], working)
      && PassedReview(h.records[n - 1], working) && h.state.targetMet == h.records[n - 2].outcome.targetMet
    case _ => true
  }

  lemma SupportedStep(limits: Limits, h: History, move: Move, h': History)
    requires Supported(h) && Steps(h, limits, move, h')
    ensures Supported(h')
  {
    hide LimitsAllow, NextStopReason;
  }

  lemma JustifiedStep(limits: Limits, h: History, move: Move, h': History)
    requires Supported(h) && KeepsJustified(h.records) && Steps(h, limits, move, h')
    ensures KeepsJustified(h'.records)
  {
    hide LimitsAllow, NextPhase, NextStopReason, NextTargetMet;
    var n := |h.records|;
    forall k | 0 <= k < n + 1 && h'.records[k].outcome.Kept? ensures Justified(h'.records, k) {
      assert k < n ==> Justified(h.records, k);
    }
  }

  /** The revision that the last keep step kept, or the one the run started from. */
  function LastKept(records: seq<Record>, first: string): string {
    if records == [] then first
    else
      var last := records[|records| - 1];
      if last.outcome.Kept? then last.outcome.revision else LastKept(records[..|records| - 1], first)
  }

  /** Until an attempt edits the code, it works on the best revision. */
  predicate Unedited(phase: Phase) {
    phase in {Prepare, Baseline, StartAttempt, Profile, Analyze, Research, Implement}
  }

  ghost predicate BestIsLastKept(start: State, h: History) {
    && h.state.bestRevision == LastKept(h.records, start.bestRevision)
    && (Unedited(h.state.phase) ==> h.state.workingRevision == h.state.bestRevision)
  }

  lemma BestStep(start: State, limits: Limits, h: History, move: Move, h': History)
    requires BestIsLastKept(start, h) && Steps(h, limits, move, h')
    ensures BestIsLastKept(start, h')
  {
    hide LimitsAllow, NextStopReason, NextTargetMet, Settled;
    SettledPhase(h.state, limits, move.elapsedMs);
    assert h'.records[..|h.records|] == h.records;
  }

  /** Step j is a valid measurement of this revision that met the target; a candidate's was kept two steps on. */
  predicate MetTarget(records: seq<Record>, j: int, revision: string) {
    && 0 <= j < |records| && records[j].outcome.Measured? && records[j].outcome.revision == revision
    && records[j].outcome.valid && records[j].outcome.targetMet
    && (records[j].phase.Baseline?
        || (records[j].phase.Measure? && j + 2 < |records| && records[j + 2].outcome == Kept(revision)))
  }

  /** A run that stops because the target is met has measured its best revision to meet it. */
  ghost predicate TargetProven(h: History) {
    h.state.stopReason == Some(TargetMet) ==>
      h.state.workingRevision == h.state.bestRevision && exists j :: MetTarget(h.records, j, h.state.bestRevision)
  }

  lemma TargetStep(start: State, limits: Limits, h: History, move: Move, h': History)
    requires Supported(h) && BestIsLastKept(start, h) && TargetProven(h) && StopsRightly(h.state)
             && Steps(h, limits, move, h')
    ensures TargetProven(h')
  {
    hide LimitsAllow, NextTargetMet, LastKept, Settled;
    SettledPhase(h.state, limits, move.elapsedMs);
    var n := |h.records|;
    if h'.state.stopReason == Some(TargetMet) {
      if move.outcome.Measured? {
        assert MetTarget(h'.records, n, h'.state.bestRevision);
      } else if move.outcome.Kept? {
        assert MetTarget(h'.records, n - 2, h'.state.bestRevision);
      } else {
        var j :| MetTarget(h.records, j, h.state.bestRevision);
        assert MetTarget(h'.records, j, h'.state.bestRevision);
      }
    }
  }

  // ---------------------------------------------------------------- budgets

  function CountIn(records: seq<Record>, phases: set<Phase>): nat {
    if records == [] then 0
    else CountIn(records[..|records| - 1], phases) + (if records[|records| - 1].phase in phases then 1 else 0)
  }

  const PI_PHASES: set<Phase> := {Analyze, Research, Implement, Repair, Review}

  /** Repair steps since the attempt started. */
  function RepairsSince(records: seq<Record>): nat {
    if records == [] then 0
    else
      var last := records[|records| - 1];
      if last.phase.StartAttempt? then 0
      else RepairsSince(records[..|records| - 1]) + (if last.phase.Repair? then 1 else 0)
  }

  /** The budgets count exactly the steps that were taken, and no budget is overdrawn. */
  ghost predicate Budgeted(start: State, limits: Limits, h: History) {
    && h.state.attemptsStarted == start.attemptsStarted + CountIn(h.records, {StartAttempt})
    && h.state.piCallsStarted == start.piCallsStarted + CountIn(h.records, PI_PHASES)
    && h.state.repairsThisAttempt == RepairsSince(h.records)
    && (h.records != [] ==> h.state.repairsThisAttempt <= limits.maxRepairsPerAttempt)
    && (CountIn(h.records, {StartAttempt}) > 0 ==> h.state.attemptsStarted <= limits.maxAttempts)
    && (CountIn(h.records, PI_PHASES) > 0 ==> h.state.piCallsStarted <= limits.maxPiCalls)
  }

  lemma BudgetStep(start: State, limits: Limits, h: History, move: Move, h': History)
    requires Budgeted(start, limits, h) && Steps(h, limits, move, h')
    requires start.attemptsStarted >= 0 && start.piCallsStarted >= 0
    ensures Budgeted(start, limits, h')
  {
    hide NextPhase, NextStopReason, NextTargetMet, Expected, RevisionFault, Settled, MayBegin, CountIn, RepairsSince;
    var settled := Settled(h.state, limits, move.elapsedMs);
    BudgetLeft(h.state, limits, move.elapsedMs);
    CountsStep(h.records, h'.records[|h.records|]);
    assert h'.records == h.records + [h'.records[|h.records|]];
  }

  /** The step that is begun has its budget, and settling leaves the counters alone. */
  lemma BudgetLeft(state: State, limits: Limits, elapsedMs: int)
    requires MayBegin(state, limits, elapsedMs)
    ensures var settled := Settled(state, limits, elapsedMs);
            && settled.attemptsStarted == state.attemptsStarted && settled.piCallsStarted == state.piCallsStarted
            && settled.repairsThisAttempt == state.repairsThisAttempt && limits.maxRepairsPerAttempt >= 0
            && (settled.phase.StartAttempt? ==> state.attemptsStarted < limits.maxAttempts)
            && (UsesPi(settled.phase) ==> state.piCallsStarted < limits.maxPiCalls)
            && (settled.phase.Repair? ==> state.repairsThisAttempt < limits.maxRepairsPerAttempt)
  {
    var next := StepKind(state.phase);
    var reasons := InTheWay(limits, ProgressAt(state, elapsedMs), next);
    if reasons == [] && !next.CleanUp? {
      assert Attempts !in reasons && Repairs !in reasons && PiCalls !in reasons;
    }
  }

  lemma CountsStep(records: seq<Record>, last: Record)
    ensures RepairsSince([]) == 0
    ensures forall phases ::
      CountIn(records + [last], phases) == CountIn(records, phases) + if last.phase in phases then 1 else 0
    ensures RepairsSince(records + [last]) ==
      if last.phase.StartAttempt? then 0 else RepairsSince(records) + if last.phase.Repair? then 1 else 0
  {
    var all := records + [last];
    assert all[..|all| - 1] == records && all[|all| - 1] == last;
  }

  // ------------------------------------------------------------ termination

  function FailedFinishes(records: seq<Record>): nat {
    if records == [] then 0
    else
      var last := records[|records| - 1];
      FailedFinishes(records[..|records| - 1]) + (if last.phase.Finish? && last.outcome.Failed? then 1 else 0)
  }

  /** How many steps a phase can still take before it draws on a budget again. */
  function Slack(phase: Phase): nat {
    match phase
    case Done => 0
    case Finish | StartAttempt => 1
    case Baseline | Analyze | Research | Implement | Repair | Review | Keep | Discard => 2
    case Prepare | Profile | Measure => 3
    case Test => 4
  }

  /**
    Every step is paid for: three a started attempt, three a Pi call, three to
    begin and end with, and failed clean-ups.
  */
  ghost predicate PaidFor(start: State, h: History) {
    h.state.sequence + Slack(h.state.phase) <=
      3 * (h.state.attemptsStarted - start.attemptsStarted + h.state.piCallsStarted - start.piCallsStarted)
      + 3 + FailedFinishes(h.records)
  }

  lemma PaidStep(start: State, limits: Limits, h: History, move: Move, h': History)
    requires PaidFor(start, h) && Steps(h, limits, move, h')
    ensures PaidFor(start, h')
  {
    hide LimitsAllow, NextStopReason, NextTargetMet, RevisionFault, Settled;
    SettledPhase(h.state, limits, move.elapsedMs);
    assert h'.records[..|h.records|] == h.records;
  }

  // -------------------------------------------------------- every history

  ghost predicate Sound(start: State, limits: Limits, h: History) {
    && Numbered(start, h) && StopsRightly(h.state) && Supported(h) && KeepsJustified(h.records)
    && BestIsLastKept(start, h) && TargetProven(h) && Budgeted(start, limits, h) && PaidFor(start, h)
  }

  /** Every history that the engine can produce from a start state is sound. */
  lemma {:induction false} EveryHistoryIsSound(start: State, limits: Limits, moves: seq<Move>)
    requires IsStart(start) && Played(start, limits, moves).Ok?
    ensures Sound(start, limits, Played(start, limits, moves).value)
  {
    hide Extended, Steps, Numbered, StopsRightly, Supported, KeepsJustified, BestIsLastKept, TargetProven, Budgeted,
      PaidFor;
    var h' := Played(start, limits, moves).value;
    if moves == [] {
      StartIsSound(start, limits);
    } else {
      var before, move := moves[..|moves| - 1], moves[|moves| - 1];
      EveryHistoryIsSound(start, limits, before);
      var h := Played(start, limits, before).value;
      ExtendedSteps(h, limits, move);
      NumberedStep(start, limits, h, move, h');
      StopsStep(limits, h, move, h');
      SupportedStep(limits, h, move, h');
      JustifiedStep(limits, h, move, h');
      BestStep(start, limits, h, move, h');
      TargetStep(start, limits, h, move, h');
      BudgetStep(start, limits, h, move, h');
      PaidStep(start, limits, h, move, h');
    }
  }

  lemma StartIsSound(start: State, limits: Limits)
    requires IsStart(start)
    ensures Sound(start, limits, History(start, []))
  {
  }

  // ------------------------------------------------------------- in short

  lemma {:induction false} LastKeptIsKept(records: seq<Record>, first: string)
    ensures LastKept(records, first) == first
         || exists k :: 0 <= k < |records| && records[k].outcome.Kept?
                        && records[k].outcome.revision == LastKept(records, first)
  {
    if records != [] {
      var last := |records| - 1;
      if !records[last].outcome.Kept? {
        LastKeptIsKept(records[..last], first);
        if LastKept(records, first) != first {
          var k :| 0 <= k < last && records[..last][k].outcome.Kept?
            && records[..last][k].outcome.revision == LastKept(records, first);
          assert records[k].outcome.Kept?;
        }
      }
    }
  }

  /** The best revision is the starting one, or was kept right after passing its test, measurement and review. */
  lemma BestIsJustified(start: State, limits: Limits, moves: seq<Move>)
    requires IsStart(start) && Played(start, limits, moves).Ok?
    ensures var h := Played(start, limits, moves).value;
            || h.state.bestRevision == start.bestRevision
            || exists k :: Justified(h.records, k) && h.records[k].outcome.revision == h.state.bestRevision
  {
    EveryHistoryIsSound(start, limits, moves);
    var h := Played(start, limits, moves).value;
    LastKeptIsKept(h.records, start.bestRevision);
    if h.state.bestRevision != start.bestRevision {
      var k :| 0 <= k < |h.records| && h.records[k].outcome.Kept?
        && h.records[k].outcome.revision == h.state.bestRevision;
      assert Justified(h.records, k);
    }
  }

  /**
    A finished run says that it met its target exactly when that is why it
    stopped; its code is then its best revision, and a valid measurement of that
    very revision met the target.
  */
  lemma DoneTargetMet(start: State, limits: Limits, moves: seq<Move>)
    requires IsStart(start) && Played(start, limits, moves).Ok?
    requires Played(start, limits, moves).value.state.phase.Done?
    ensures var h := Played(start, limits, moves).value;
            && h.state.stopReason.Some?
            && (h.state.targetMet <==> h.state.stopReason == Some(TargetMet))
            && (h.state.targetMet ==> h.state.workingRevision == h.state.bestRevision
                                      && exists j :: MetTarget(h.records, j, h.state.bestRevision))
  {
    EveryHistoryIsSound(start, limits, moves);
  }

  /**
    No run takes more steps than its budgets pay for, so a run whose clean-up
    does not fail ends; each failed clean-up can add one step.  Attempts, Pi calls
    and the repairs of each attempt stay within their budgets.
  */
  lemma StepsAreBounded(start: State, limits: Limits, moves: seq<Move>)
    requires IsStart(start) && Played(start, limits, moves).Ok?
    requires start.attemptsStarted <= limits.maxAttempts && start.piCallsStarted <= limits.maxPiCalls
    ensures var h := Played(start, limits, moves).value;
            && |moves| == h.state.sequence == |h.records|
            && h.state.attemptsStarted <= limits.maxAttempts && h.state.piCallsStarted <= limits.maxPiCalls
            && (moves != [] ==> RepairsSince(h.records) == h.state.repairsThisAttempt <= limits.maxRepairsPerAttempt)
            && |moves| + Slack(h.state.phase)
               <= 3 * (limits.maxAttempts + limits.maxPiCalls) + 3 + FailedFinishes(h.records)
  {
    EveryHistoryIsSound(start, limits, moves);
    OneRecordEach(start, limits, moves);
  }

  lemma {:induction false} OneRecordEach(start: State, limits: Limits, moves: seq<Move>)
    requires Played(start, limits, moves).Ok?
    ensures |Played(start, limits, moves).value.records| == |moves|
  {
    if moves != [] {
      OneRecordEach(start, limits, moves[..|moves| - 1]);
    }
  }

  /** While a step is in progress the run has a reason to stop exactly when it is cleaning up. */
  lemma ActiveStopsRightly(start: State, limits: Limits, moves: seq<Move>, elapsedMs: int)
    requires IsStart(start) && Played(start, limits, moves).Ok?
    requires Begin(Played(start, limits, moves).value.state, limits, elapsedMs).Ok?
    ensures StopsRightly(Begin(Played(start, limits, moves).value.state, limits, elapsedMs).value)
  {
    var state := Played(start, limits, moves).value.state;
    EveryHistoryIsSound(start, limits, moves);
    TwoBeginsReserve(state, limits, elapsedMs);
    SettledPhase(state, limits, elapsedMs);
  }

  // ----------------------------------------------------------- saved outputs

  /** The number of the last step of a phase, or zero. */
  function LastOf(records: seq<Record>, phase: Phase): nat {
    if records == [] then 0
    else if records[|records| - 1].phase == phase then |records|
    else LastOf(records[..|records| - 1], phase)
  }

  /** The output of every phase is the saved result of the last step in it. */
  ghost predicate OutputsAreLast(h: History) {
    forall phase :: (phase in h.state.outputs <==> LastOf(h.records, phase) > 0)
      && (phase in h.state.outputs ==> h.state.outputs[phase] == StepOutput(h.state.runId, LastOf(h.records, phase)))
  }

  lemma {:induction false} OutputsFollowSteps(start: State, limits: Limits, moves: seq<Move>)
    requires IsStart(start) && Played(start, limits, moves).Ok?
    ensures OutputsAreLast(Played(start, limits, moves).value)
  {
    hide Steps, StepOutput, Numbered;
    if moves != [] {
      var before, move := moves[..|moves| - 1], moves[|moves| - 1];
      OutputsFollowSteps(start, limits, before);
      var h, h' := Played(start, limits, before).value, Played(start, limits, moves).value;
      ExtendedSteps(h, limits, move);
      EveryHistoryIsSound(start, limits, before);
      OutputsStep(start, limits, h, move, h');
    }
  }

  lemma OutputsStep(start: State, limits: Limits, h: History, move: Move, h': History)
    requires Numbered(start, h) && OutputsAreLast(h) && Steps(h, limits, move, h')
    ensures OutputsAreLast(h')
  {
    hide LimitsAllow, Expected, RevisionFault, NextPhase, NextStopReason, NextTargetMet, StepOutput;
    assert h'.records[..|h.records|] == h.records;
    SettledPhase(h.state, limits, move.elapsedMs);
    var phase := h'.records[|h.records|].phase;
    assert h'.state.outputs == h.state.outputs[phase := StepOutput(h.state.runId, h.state.sequence + 1)];
  }

  /** Different steps are saved under different names. */
  lemma NamesDiffer(runId: string, m: nat, n: nat)
    requires StepOutput(runId, m) == StepOutput(runId, n)
    ensures m == n
  {
    var prefix := runId + "-step-";
    assert (prefix + Decimal(m))[|prefix|..] == Decimal(m);
    assert (prefix + Decimal(n))[|prefix|..] == Decimal(n);
    DecimalsDiffer(m, n);
  }

  lemma {:induction false} DecimalsDiffer(m: nat, n: nat)
    requires Decimal(m) == Decimal(n)
    ensures m == n
  {
    var a, b := Decimal(m), Decimal(n);
    assert a[|a| - 1] == b[|b| - 1];
    assert m % 10 == n % 10;
    if m >= 10 && n >= 10 {
      assert a[..|a| - 1] == Decimal(m / 10) && b[..|b| - 1] == Decimal(n / 10);
      DecimalsDiffer(m / 10, n / 10);
    }
  }
}
