/**
  The verifier that certifies a parent run from its saved steps: it counts
  reservations, replays every step, and looks for what justified each kept
  revision.
*/
module Campaign {
  import opened Numbers
  import opened Wrappers
  import opened RunState
  import opened RunHistory
  import Driver

  /** The state that a run starts from; a restart takes over revisions and budgets from its parent. */
  function StartState(runId: string, revision: string, initialRevision: string, attempts: int, piCalls: int,
                      elapsedMs: int): Result<State, Error> {
    var plain := NewRun(runId, revision);
    if plain.Err? then plain
    else Ok(plain.value.(initialRevision := initialRevision, attemptsStarted := attempts, piCallsStarted := piCalls,
                         elapsedMs := elapsedMs))
  }

  lemma RestartStarts(runId: string, revision: string, initialRevision: string, attempts: int, piCalls: int,
                      elapsedMs: int)
    requires StartState(runId, revision, initialRevision, attempts, piCalls, elapsedMs).Ok? && attempts >= 0
             && piCalls >= 0
    ensures var start := StartState(runId, revision, initialRevision, attempts, piCalls, elapsedMs).value;
            && IsStart(start)
            && StartState(runId, revision, initialRevision, attempts, piCalls, 0) == Ok(start.(elapsedMs := 0))
  {
  }

  // ---------------------------------------------------------------- replay

  /** One saved step, replayed; it must be the step that the replay would take. */
  function ReplayStep(replay: State, limits: Limits, step: Record, elapsedMs: int): Result<State, Error> {
    var active := Begin(replay, limits, elapsedMs);
    if active.Err? then active
    else if step.step != active.value.sequence || step.phase != active.value.phase
            || step.revision != active.value.workingRevision
    then Err(UnexpectedResult)
    else Finishing(active.value, step.step, step.outcome, StepOutput(replay.runId, step.step))
  }

  /** The replay of the first k steps; only the last of all steps is given the final time. */
  function Replay(first: State, limits: Limits, steps: seq<Record>, finalElapsedMs: int, k: nat): Result<State, Error>
    requires k <= |steps|
  {
    if k == 0 then Ok(first)
    else
      var before := Replay(first, limits, steps, finalElapsedMs, k - 1);
      if before.Err? then before
      else
        var elapsedMs := if k == |steps| then finalElapsedMs else before.value.elapsedMs;
        ReplayStep(before.value, limits, steps[k - 1], elapsedMs)
  }

  predicate CountsAgree(first: State, limits: Limits, steps: seq<Record>, state: State) {
    var attempts := first.attemptsStarted + CountIn(steps, {StartAttempt})
                    + (if state.activeStep.Some? && state.phase.StartAttempt? then 1 else 0);
    var piCalls := CountIn(steps, PI_PHASES) + first.piCallsStarted
                   + (if state.activeStep.Some? && UsesPi(state.phase) then 1 else 0);
    && attempts == state.attemptsStarted && piCalls == state.piCallsStarted
    && attempts <= limits.maxAttempts && piCalls <= limits.maxPiCalls
  }

  predicate InitialTestsPassed(steps: seq<Record>, state: State) {
    if steps == [] then
      state.activeStep == Some(1) && state.phase.Prepare? && state.bestRevision == state.initialRevision
    else steps[0].phase.Prepare? && steps[0].outcome.Prepared?
  }

  predicate EndsAs(replay: State, steps: seq<Record>, state: State) {
    && state.sequence == |steps| + (if state.activeStep.Some? then 1 else 0)
    && state.phase == replay.phase && state.workingRevision == replay.workingRevision
    && state.bestRevision == replay.bestRevision && state.targetMet == replay.targetMet
    && !(state.activeStep.Some? && replay.phase.Done?)
  }

  /** The verifier's answer about the saved steps of a run whose last saved state is `state`. */
  predicate Certifies(first: State, limits: Limits, steps: seq<Record>, state: State) {
    && (state.activeStep.Some? || state.phase.Done?)
    && CountsAgree(first, limits, steps, state) && InitialTestsPassed(steps, state)
    && var replay := Replay(first, limits, steps, state.elapsedMs, |steps|);
       replay.Ok? && EndsAs(replay.value, steps, state)
  }

  method CountSteps(steps: seq<Record>, phases: set<Phase>) returns (n: nat)
    ensures n == CountIn(steps, phases)
  {
    n := 0;
    for i := 0 to |steps|
      invariant n == CountIn(steps[..i], phases)
    {
      assert steps[..i + 1][..i] == steps[..i];
      if steps[i].phase in phases {
        n := n + 1;
      }
    }
    assert steps[..|steps|] == steps;
  }

  /** Counting, then replaying step by step, then comparing. */
  method Certify(first: State, limits: Limits, steps: seq<Record>, state: State) returns (certified: bool)
    ensures certified == Certifies(first, limits, steps, state)
  {
    hide Begin, Finishing, StepOutput;
    if state.activeStep.None? && !state.phase.Done? {
      return false;
    }
    var attempts := CountSteps(steps, {StartAttempt});
    attempts := first.attemptsStarted + attempts
                + (if state.activeStep.Some? && state.phase.StartAttempt? then 1 else 0);
    var piCalls := CountSteps(steps, PI_PHASES);
    piCalls := piCalls + first.piCallsStarted + (if state.activeStep.Some? && UsesPi(state.phase) then 1 else 0);
    if attempts != state.attemptsStarted || piCalls != state.piCallsStarted
       || attempts > limits.maxAttempts || piCalls > limits.maxPiCalls {
      return false;
    }
    if !InitialTestsPassed(steps, state) {
      return false;
    }
    var replay := first;
    var k := 0;
    while k < |steps|
      invariant 0 <= k <= |steps|
      invariant Replay(first, limits, steps, state.elapsedMs, k) == Ok(replay)
    {
      var elapsedMs := if k + 1 == |steps| then state.elapsedMs else replay.elapsedMs;
      var next := ReplayStep(replay, limits, steps[k], elapsedMs);
      if next.Err? {
        ReplayStops(first, limits, steps, state.elapsedMs, k + 1, |steps|);
        return false;
      }
      replay := next.value;
      k := k + 1;
    }
    return EndsAs(replay, steps, state);
  }

  lemma {:induction false} ReplayStops(first: State, limits: Limits, steps: seq<Record>, finalElapsedMs: int, i: nat,
                                       k: nat)
    requires i <= k <= |steps| && Replay(first, limits, steps, finalElapsedMs, i).Err?
    ensures Replay(first, limits, steps, finalElapsedMs, k).Err?
  {
    hide ReplayStep;
    if i < k {
      ReplayStops(first, limits, steps, finalElapsedMs, i, k - 1);
    }
  }

  // --------------------------------------------- what the replay can miss

  /** The phase of the step that would begin at this time. */
  function PhaseAt(state: State, limits: Limits, elapsedMs: int): Phase {
    Settled(state, limits, elapsedMs).phase
  }

  /** The run goes into its finish at this time for no other reason than time. */
  predicate EndsByTime(state: State, limits: Limits, elapsedMs: int) {
    PhaseAt(state, limits, elapsedMs).Finish? && !PhaseAt(state, limits, 0).Finish?
  }

  /** Without the clock every step is in the phase it was really in, except a finish that only time brought on. */
  lemma OnlyTimeDiffers(state: State, limits: Limits, elapsedMs: int)
    requires ValidLimits(limits)
    ensures PhaseAt(state, limits, 0) == PhaseAt(state, limits, elapsedMs) <==> !EndsByTime(state, limits, elapsedMs)
  {
    hide InTheWay;
    ReasonsByTime(state, limits, elapsedMs);
  }

  /** Without the clock the same budgets are in the way, but for the time. */
  lemma ReasonsByTime(state: State, limits: Limits, elapsedMs: int)
    requires ValidLimits(limits)
    ensures var later := InTheWay(limits, ProgressAt(state, elapsedMs), StepKind(state.phase));
            var atStart := InTheWay(limits, ProgressAt(state, 0), StepKind(state.phase));
            && (forall r :: r in atStart ==> r in later) && Duration !in atStart
            && (Duration !in later ==> later == atStart)
  {
  }

  /** Two settled states of one state, in the same phase, differ in time and at most in why the run is finishing. */
  lemma SettledAlike(state: State, limits: Limits, replay: State, elapsedMs: int, elapsedMs': int)
    requires replay == state.(elapsedMs := replay.elapsedMs) && state.activeStep.None?
    requires PhaseAt(state, limits, elapsedMs) == PhaseAt(state, limits, elapsedMs')
    ensures var a, b := Settled(replay, limits, elapsedMs), Settled(state, limits, elapsedMs');
            && a == b.(elapsedMs := a.elapsedMs, stopReason := a.stopReason)
            && (a.stopReason == b.stopReason || (b.phase.Finish? && elapsedMs != elapsedMs'))
  {
    hide LimitsAllow;
    assert ProgressAt(replay, elapsedMs) == ProgressAt(state, elapsedMs);
    SettledPhase(replay, limits, elapsedMs);
    SettledPhase(state, limits, elapsedMs');
  }

  lemma AdvancedAlike(a: State, b: State, outcome: Outcome, output: OutputReference)
    requires a == b.(elapsedMs := a.elapsedMs, stopReason := a.stopReason)
    requires a.stopReason == b.stopReason || outcome.Failed?
    ensures Advanced(a, outcome, output) == Advanced(b, outcome, output).(elapsedMs := a.elapsedMs)
  {
  }

  lemma FaultsAlike(a: State, b: State, outcome: Outcome)
    requires a.workingRevision == b.workingRevision && a.bestRevision == b.bestRevision
    ensures RevisionFault(a, outcome) == RevisionFault(b, outcome)
  {
  }

  /** An outcome that fits the active step is accepted under the step's own output. */
  lemma FinishingAdvances(active: State, outcome: Outcome)
    requires active.activeStep == Some(active.sequence)
    requires outcome.Failed? || (Expected(active.phase, outcome) && RevisionFault(active, outcome).None?)
    ensures var output := StepOutput(active.runId, active.sequence);
            Finishing(active, active.sequence, outcome, output) == Ok(Advanced(active, outcome, output))
  {
  }

  /** A replayed step succeeds exactly when its phase agrees, and then it is the real one but for the time. */
  lemma ReplayAgrees(h: History, limits: Limits, move: Move, h': History, replay: State, elapsedMs: int)
    requires Steps(h, limits, move, h') && h.state.activeStep.None? && h.state.sequence == |h.records|
    requires replay == h.state.(elapsedMs := replay.elapsedMs) && MayBegin(replay, limits, elapsedMs)
    requires PhaseAt(h.state, limits, move.elapsedMs).Finish? && elapsedMs != move.elapsedMs ==> move.outcome.Failed?
    ensures var again := ReplayStep(replay, limits, h'.records[|h.records|], elapsedMs);
            if PhaseAt(h.state, limits, elapsedMs) == PhaseAt(h.state, limits, move.elapsedMs)
            then again == Ok(h'.state.(elapsedMs := elapsedMs)) else again.Err?
  {
    hide LimitsAllow, Expected, RevisionFault, Settled, StepOutput, Advanced, Finishing, Begin, MayBegin;
    TwoBeginsReserve(replay, limits, elapsedMs);
    SettledTime(replay, h.state, limits, elapsedMs);
    SettledTime(h.state, h.state, limits, move.elapsedMs);
    if PhaseAt(h.state, limits, elapsedMs) == PhaseAt(h.state, limits, move.elapsedMs) {
      SettledAlike(h.state, limits, replay, elapsedMs, move.elapsedMs);
      var a := Reserved(Settled(replay, limits, elapsedMs), elapsedMs);
      var b := Reserved(Settled(h.state, limits, move.elapsedMs), move.elapsedMs);
      FaultsAlike(b, Settled(h.state, limits, move.elapsedMs), move.outcome);
      AdvancedAlike(a, b, move.outcome, StepOutput(a.runId, a.sequence));
      FaultsAlike(a, b, move.outcome);
      FinishingAdvances(a, move.outcome);
    }
  }

  /** The saved time of a state does not decide what its next step is, nor its number and revision. */
  lemma SettledTime(replay: State, state: State, limits: Limits, elapsedMs: int)
    requires replay == state.(elapsedMs := replay.elapsedMs)
    ensures Settled(replay, limits, elapsedMs).phase == PhaseAt(state, limits, elapsedMs)
    ensures Settled(replay, limits, elapsedMs).sequence == state.sequence
            && Settled(replay, limits, elapsedMs).runId == state.runId
  {
    assert ProgressAt(replay, elapsedMs) == ProgressAt(state, elapsedMs);
  }

  // ------------------------------------------------------ whole histories

  /** The history after the first k moves. */
  ghost function At(start: State, limits: Limits, moves: seq<Move>, k: nat): History
    requires k <= |moves|
  {
    var h := Played(start, limits, moves[..k]);
    if h.Ok? then h.value else History(start, [])
  }

  lemma {:induction false} PrefixPlays(start: State, limits: Limits, moves: seq<Move>, k: nat)
    requires k <= |moves| && Played(start, limits, moves).Ok?
    ensures Played(start, limits, moves[..k]).Ok?
    ensures |Played(start, limits, moves).value.records| == |moves|
    ensures At(start, limits, moves, k).records == Played(start, limits, moves).value.records[..k]
    decreases |moves| - k
  {
    hide Extended;
    OneRecordEach(start, limits, moves);
    if k < |moves| {
      PrefixPlays(start, limits, moves, k + 1);
      assert moves[..k + 1][..k] == moves[..k];
      OneRecordEach(start, limits, moves[..k]);
      ExtendsBy(At(start, limits, moves, k), limits, moves[k]);
    } else {
      assert moves[..k] == moves;
    }
  }

  lemma ExtendsBy(h: History, limits: Limits, move: Move)
    requires Extended(h, limits, move).Ok?
    ensures Extended(h, limits, move).value.records[..|h.records|] == h.records
  {
    hide Begin, Finishing, StepOutput;
  }

  /** The k-th move takes the k-th history to the next, and its record is the last there. */
  lemma StepAt(start: State, limits: Limits, moves: seq<Move>, k: nat)
    requires IsStart(start) && k < |moves| && Played(start, limits, moves).Ok?
    ensures Played(start, limits, moves[..k]).Ok?
    ensures |Played(start, limits, moves).value.records| == |moves|
    ensures var h, h' := At(start, limits, moves, k), At(start, limits, moves, k + 1);
            && |h.records| == k && |h'.records| == k + 1 && h.state.activeStep.None? && h.state.sequence == k
            && h'.records[k] == Played(start, limits, moves).value.records[k]
    ensures Steps(At(start, limits, moves, k), limits, moves[k], At(start, limits, moves, k + 1))
  {
    hide Extended, Steps;
    PrefixPlays(start, limits, moves, k);
    PrefixPlays(start, limits, moves, k + 1);
    assert moves[..k + 1][..k] == moves[..k];
    var h := At(start, limits, moves, k);
    ExtendedSteps(h, limits, moves[k]);
    OneRecordEach(start, limits, moves[..k]);
    EveryHistoryIsSound(start, limits, moves[..k]);
  }

  /** A step in the finish phase that another step follows has failed. */
  lemma OnlyLastFinishes(limits: Limits, h: History, move: Move, h': History)
    requires Steps(h, limits, move, h') && !h'.state.phase.Done?
    ensures PhaseAt(h.state, limits, move.elapsedMs).Finish? ==> move.outcome.Failed?
  {
    hide LimitsAllow;
  }

  /** Before the last step the replay goes on exactly as long as no step was finished for want of time alone. */
  ghost predicate InTime(start: State, limits: Limits, moves: seq<Move>, k: nat)
    requires k <= |moves|
  {
    forall i :: 0 <= i < k ==> !EndsByTime(At(start, limits, moves, i).state, limits, moves[i].elapsedMs)
  }

  lemma {:induction false} ReplayFollows(start: State, limits: Limits, moves: seq<Move>, finalElapsedMs: int, k: nat)
    requires IsStart(start) && k < |moves| && Played(start, limits, moves).Ok?
    ensures |Played(start, limits, moves).value.records| == |moves|
    ensures var replay := Replay(start.(elapsedMs := 0), limits, Played(start, limits, moves).value.records,
                                 finalElapsedMs, k);
            if InTime(start, limits, moves, k) then replay == Ok(At(start, limits, moves, k).state.(elapsedMs := 0))
            else replay.Err?
  {
    hide ReplayStep, EndsByTime, At, IsStart, Played;
    OneRecordEach(start, limits, moves);
    if k == 0 {
      AtStart(start, limits, moves);
    } else {
      ReplayFollows(start, limits, moves, finalElapsedMs, k - 1);
      ReplayNext(start, limits, moves, k - 1);
    }
  }

  /** One step of that replay: it goes on unless the real step was a finish that time alone brought on. */
  lemma ReplayNext(start: State, limits: Limits, moves: seq<Move>, k: nat)
    requires IsStart(start) && k + 1 < |moves| && Played(start, limits, moves).Ok?
    ensures |Played(start, limits, moves).value.records| == |moves|
    ensures var h := At(start, limits, moves, k);
            var again := ReplayStep(h.state.(elapsedMs := 0), limits, Played(start, limits, moves).value.records[k], 0);
            if EndsByTime(h.state, limits, moves[k].elapsedMs) then again.Err?
            else again == Ok(At(start, limits, moves, k + 1).state.(elapsedMs := 0))
  {
    hide ReplayStep, EndsByTime, Steps, MayBegin, PhaseAt, At, IsStart, Played;
    StepAt(start, limits, moves, k);
    StepAt(start, limits, moves, k + 1);
    var h, h' := At(start, limits, moves, k), At(start, limits, moves, k + 1);
    StepMayBegin(h, limits, moves[k], h', 0);
    StepMayBegin(h', limits, moves[k + 1], At(start, limits, moves, k + 2), 0);
    OnlyLastFinishes(limits, h, moves[k], h');
    ReplayAgrees(h, limits, moves[k], h', h.state.(elapsedMs := 0), 0);
    OnlyTimeDiffers(h.state, limits, moves[k].elapsedMs);
  }

  lemma AtStart(start: State, limits: Limits, moves: seq<Move>)
    ensures At(start, limits, moves, 0) == History(start, [])
  {
  }

  /** Where a real step began, its replay without a clock may begin too. */
  lemma StepMayBegin(h: History, limits: Limits, move: Move, h': History, elapsedMs: int)
    requires Steps(h, limits, move, h') && 0 <= elapsedMs <= MAX_SAFE_INTEGER
    ensures MayBegin(h.state.(elapsedMs := 0), limits, elapsedMs) && ValidLimits(limits) && !h.state.phase.Done?
  {
    hide LimitsAllow, Expected, RevisionFault;
  }

  /** The whole replay: everything up to the last step in time, and the last step in its phase at the final time. */
  lemma ReplayAll(start: State, limits: Limits, moves: seq<Move>, finalElapsedMs: int)
    requires IsStart(start) && moves != [] && Played(start, limits, moves).Ok?
             && 0 <= finalElapsedMs <= MAX_SAFE_INTEGER
    requires var last := |moves| - 1;
             PhaseAt(At(start, limits, moves, last).state, limits, moves[last].elapsedMs).Finish?
               && finalElapsedMs != moves[last].elapsedMs
             ==> moves[last].outcome.Failed?
    ensures var h := Played(start, limits, moves).value;
            var last := |moves| - 1;
            var before := At(start, limits, moves, last).state;
            var replay := Replay(start.(elapsedMs := 0), limits, h.records, finalElapsedMs, |h.records|);
            if InTime(start, limits, moves, last)
              && PhaseAt(before, limits, finalElapsedMs) == PhaseAt(before, limits, moves[last].elapsedMs)
            then replay == Ok(h.state.(elapsedMs := finalElapsedMs)) else replay.Err?
  {
    hide ReplayStep, EndsByTime, Steps, MayBegin, PhaseAt, IsStart, InTime;
    var last := |moves| - 1;
    ReplayFollows(start, limits, moves, finalElapsedMs, last);
    StepAt(start, limits, moves, last);
    assert moves[..last + 1] == moves;
    var h, h' := At(start, limits, moves, last), At(start, limits, moves, last + 1);
    StepMayBegin(h, limits, moves[last], h', finalElapsedMs);
    ReplayAgrees(h, limits, moves[last], h', h.state.(elapsedMs := 0), finalElapsedMs);
  }

  // ------------------------------------------------------------- verdicts

  predicate WithinBudgets(start: State, limits: Limits) {
    start.attemptsStarted <= limits.maxAttempts && start.piCallsStarted <= limits.maxPiCalls
  }

  /** The counts of reservations always come out right. */
  lemma CountsComeOut(start: State, limits: Limits, moves: seq<Move>)
    requires IsStart(start) && Played(start, limits, moves).Ok? && WithinBudgets(start, limits)
    ensures var h := Played(start, limits, moves).value;
            CountsAgree(start.(elapsedMs := 0), limits, h.records, h.state)
  {
    hide Played;
    EveryHistoryIsSound(start, limits, moves);
  }

  lemma LastMove(start: State, limits: Limits, moves: seq<Move>)
    requires IsStart(start) && Played(start, limits, moves).Ok? && moves != []
    ensures var last := |moves| - 1;
            var h, h' := At(start, limits, moves, last), Played(start, limits, moves).value;
            && h'.state.elapsedMs == moves[last].elapsedMs && 0 <= moves[last].elapsedMs <= MAX_SAFE_INTEGER
            && |h'.records| == |moves| && h'.records[last].phase == PhaseAt(h.state, limits, moves[last].elapsedMs)
            && h'.records[last].outcome == moves[last].outcome
            && (!h'.state.phase.Done? && h'.records[last].phase.Finish? ==> moves[last].outcome.Failed?)
  {
    hide LimitsAllow, At, Played;
    var last := |moves| - 1;
    StepAt(start, limits, moves, last);
    assert moves[..last + 1] == moves;
    AtAll(start, limits, moves);
    if !Played(start, limits, moves).value.state.phase.Done? {
      OnlyLastFinishes(limits, At(start, limits, moves, last), moves[last], Played(start, limits, moves).value);
    }
  }

  lemma AtAll(start: State, limits: Limits, moves: seq<Move>)
    requires Played(start, limits, moves).Ok?
    ensures At(start, limits, moves, |moves|) == Played(start, limits, moves).value
  {
    assert moves[..|moves|] == moves;
  }

  /**
    The verifier certifies a finished run exactly when its first step prepared it
    and no step but the last was a finish that time alone had brought on; the
    replay then reproduces the whole saved state.
  */
  lemma DoneCertified(start: State, limits: Limits, moves: seq<Move>)
    requires IsStart(start) && Played(start, limits, moves).Ok? && WithinBudgets(start, limits)
    requires Played(start, limits, moves).value.state.phase.Done?
    ensures moves != []
    ensures var h := Played(start, limits, moves).value;
            var first := start.(elapsedMs := 0);
            && (Certifies(first, limits, h.records, h.state) <==>
                 InitialTestsPassed(h.records, h.state) && InTime(start, limits, moves, |moves| - 1))
            && (Certifies(first, limits, h.records, h.state) ==>
                 Replay(first, limits, h.records, h.state.elapsedMs, |h.records|) == Ok(h.state))
  {
    hide PhaseAt, InTime, CountsAgree, IsStart;
    assert moves != [] by { NotDoneAtStart(start, limits); }
    var h := Played(start, limits, moves).value;
    CountsComeOut(start, limits, moves);
    LastMove(start, limits, moves);
    ReplayAll(start, limits, moves, h.state.elapsedMs);
    SequenceCounts(start, limits, moves);
  }

  lemma NotDoneAtStart(start: State, limits: Limits)
    requires IsStart(start)
    ensures Played(start, limits, []) == Ok(History(start, [])) && start.phase.Prepare?
  {
  }

  lemma SequenceCounts(start: State, limits: Limits, moves: seq<Move>)
    requires IsStart(start) && Played(start, limits, moves).Ok?
    ensures var h := Played(start, limits, moves).value;
            h.state.sequence == |h.records| == |moves| && h.state.activeStep.None?
  {
    hide Played;
    EveryHistoryIsSound(start, limits, moves);
    OneRecordEach(start, limits, moves);
  }

  /** In particular every prepared run that is done after a single finish step is certified. */
  lemma SingleFinishCertified(start: State, limits: Limits, moves: seq<Move>)
    requires IsStart(start) && Played(start, limits, moves).Ok? && WithinBudgets(start, limits)
    requires Played(start, limits, moves).value.state.phase.Done?
    requires CountIn(Played(start, limits, moves).value.records, {Finish}) == 1
    requires InitialTestsPassed(Played(start, limits, moves).value.records, Played(start, limits, moves).value.state)
    ensures var h := Played(start, limits, moves).value;
            && Certifies(start.(elapsedMs := 0), limits, h.records, h.state)
            && Replay(start.(elapsedMs := 0), limits, h.records, h.state.elapsedMs, |h.records|) == Ok(h.state)
  {
    hide Certifies, Replay, EndsByTime, IsStart, At;
    DoneCertified(start, limits, moves);
    var h := Played(start, limits, moves).value;
    var last := |moves| - 1;
    LastMove(start, limits, moves);
    forall i | 0 <= i < last ensures !EndsByTime(At(start, limits, moves, i).state, limits, moves[i].elapsedMs) {
      LastMove(start, limits, moves);
      EarlierPhase(start, limits, moves, i);
    }
  }

  /** With a single finish step and the run done, no earlier step was in the finish phase. */
  lemma EarlierPhase(start: State, limits: Limits, moves: seq<Move>, i: nat)
    requires IsStart(start) && Played(start, limits, moves).Ok? && i < |moves| - 1
    requires Played(start, limits, moves).value.state.phase.Done?
    requires CountIn(Played(start, limits, moves).value.records, {Finish}) == 1
    ensures !EndsByTime(At(start, limits, moves, i).state, limits, moves[i].elapsedMs)
  {
    hide Played, At, IsStart, Steps, PhaseAt, CountIn;
    var records, last := Played(start, limits, moves).value.records, |moves| - 1;
    StepAt(start, limits, moves, i);
    StepAt(start, limits, moves, last);
    AtAll(start, limits, moves);
    RecordsPhase(limits, At(start, limits, moves, i), moves[i], At(start, limits, moves, i + 1));
    RecordsPhase(limits, At(start, limits, moves, last), moves[last], At(start, limits, moves, last + 1));
    if records[i].phase.Finish? {
      CountTwo(records, i, last);
    }
  }

  lemma RecordsPhase(limits: Limits, h: History, move: Move, h': History)
    requires Steps(h, limits, move, h')
    ensures |h'.records| == |h.records| + 1
    ensures h'.records[|h.records|].phase == PhaseAt(h.state, limits, move.elapsedMs)
    ensures h'.state.phase.Done? ==> h'.records[|h.records|].phase.Finish?
  {
    hide Settled;
  }

  lemma {:induction false} CountOne(records: seq<Record>, i: nat, phases: set<Phase>)
    requires i < |records| && records[i].phase in phases
    ensures CountIn(records, phases) >= 1
  {
    if i < |records| - 1 {
      CountOne(records[..|records| - 1], i, phases);
    }
  }

  lemma CountTwo(records: seq<Record>, i: nat, j: nat)
    requires i < j == |records| - 1 && records[i].phase.Finish? && records[j].phase.Finish?
    ensures CountIn(records, {Finish}) >= 2
  {
    CountOne(records[..j], i, {Finish});
  }

  /** The saved results of a store, step by step. */
  ghost function SavedSteps(d: Driver.Disk, n: nat): seq<Record>
    requires forall i :: 1 <= i <= n ==> i in d.steps && d.steps[i] != []
  {
    seq(n, i requires 0 <= i < n => d.steps[i + 1][0])
  }

  /**
    Whatever was called and whatever failed on the way: when the store says that
    a prepared run is done after one finish step, the verifier certifies it from
    the saved steps.
  */
  lemma SavedRunCertified(start: State, limits: Limits, calls: seq<Driver.Call>)
    requires IsStart(start) && Driver.StateSchema(start) && WithinBudgets(start, limits)
    requires var state := Driver.Current(Driver.AfterCalls(Driver.Disk([start], map[], []), limits, calls));
             state.phase.Done? && state.activeStep.None?
    ensures var d := Driver.AfterCalls(Driver.Disk([start], map[], []), limits, calls);
            var state := Driver.Current(d);
            && state.sequence >= 0 && (forall i :: 1 <= i <= state.sequence ==> i in d.steps && d.steps[i] != [])
            && var steps := SavedSteps(d, state.sequence);
               CountIn(steps, {Finish}) == 1 && InitialTestsPassed(steps, state) ==>
                 Certifies(start.(elapsedMs := 0), limits, steps, state)
  {
    hide IsStart, Certifies, CountIn, InitialTestsPassed, Played;
    var moves, h, e := Driver.StoreShowsHistory(start, limits, calls);
    var d := Driver.AfterCalls(Driver.Disk([start], map[], []), limits, calls);
    ShownSteps(limits, d, h, e);
    if CountIn(h.records, {Finish}) == 1 && InitialTestsPassed(h.records, h.state) {
      SingleFinishCertified(start, limits, moves);
    }
  }

  lemma ShownSteps(limits: Limits, d: Driver.Disk, h: History, elapsedMs: int)
    requires Driver.Shows(limits, d, h, elapsedMs) && Driver.Current(d).activeStep.None?
    ensures Driver.Current(d) == h.state && h.state.sequence == |h.records|
    ensures forall i :: 1 <= i <= |h.records| ==> i in d.steps && d.steps[i] != []
    ensures SavedSteps(d, |h.records|) == h.records
  {
  }

  /**
    A run that was abandoned in a step is certified exactly when, besides, the
    abandoned step had not been wound down by a budget, and the last finished
    step would have begun in its phase even at the abandoned step's time.
  */
  lemma AbandonedCertified(start: State, limits: Limits, moves: seq<Move>, elapsedMs: int)
    requires IsStart(start) && Played(start, limits, moves).Ok? && WithinBudgets(start, limits)
    requires Begin(Played(start, limits, moves).value.state, limits, elapsedMs).Ok?
    ensures var h := Played(start, limits, moves).value;
            var last := |moves| - 1;
            Certifies(start.(elapsedMs := 0), limits, h.records, Begin(h.state, limits, elapsedMs).value) <==>
              && PhaseAt(h.state, limits, elapsedMs) == h.state.phase
              && if moves == [] then start.bestRevision == start.initialRevision
                 else
                   && |h.records| == |moves| && h.records[0].phase.Prepare? && h.records[0].outcome.Prepared?
                   && InTime(start, limits, moves, last)
                   && PhaseAt(At(start, limits, moves, last).state, limits, elapsedMs) == h.records[last].phase
  {
    hide PhaseAt, InTime, CountsAgree, IsStart, Begin, At, Replay, Played;
    var h := Played(start, limits, moves).value;
    var state := Begin(h.state, limits, elapsedMs).value;
    SequenceCounts(start, limits, moves);
    AbandonedState(start, limits, moves, elapsedMs);
    if moves == [] {
      NotDoneAtStart(start, limits);
      ReplayNone(start.(elapsedMs := 0), limits, elapsedMs);
    } else {
      LastMove(start, limits, moves);
      ReplayAll(start, limits, moves, elapsedMs);
    }
  }

  lemma ReplayNone(first: State, limits: Limits, elapsedMs: int)
    ensures Replay(first, limits, [], elapsedMs, 0) == Ok(first)
  {
  }

  /** What the state of an abandoned step says, next to the state before it. */
  lemma AbandonedState(start: State, limits: Limits, moves: seq<Move>, elapsedMs: int)
    requires IsStart(start) && Played(start, limits, moves).Ok? && WithinBudgets(start, limits)
    requires Begin(Played(start, limits, moves).value.state, limits, elapsedMs).Ok?
    ensures var h := Played(start, limits, moves).value;
            var state := Begin(h.state, limits, elapsedMs).value;
            && BegunFrom(h.state, limits, elapsedMs, state) && state.initialRevision == start.initialRevision
            && CountsAgree(start.(elapsedMs := 0), limits, h.records, state)
  {
    hide Played, CountsAgree, Begin;
    var h := Played(start, limits, moves).value;
    EveryHistoryIsSound(start, limits, moves);
    BegunState(h.state, limits, elapsedMs);
    BegunCounts(start, limits, h, elapsedMs);
  }

  ghost predicate BegunFrom(s: State, limits: Limits, elapsedMs: int, state: State) {
    && !s.phase.Done? && 0 <= elapsedMs <= MAX_SAFE_INTEGER
    && state.elapsedMs == elapsedMs && state.sequence == s.sequence + 1 && state.activeStep == Some(s.sequence + 1)
    && state.phase == PhaseAt(s, limits, elapsedMs) && state.workingRevision == s.workingRevision
    && state.bestRevision == s.bestRevision && state.initialRevision == s.initialRevision
    && state.targetMet == s.targetMet
  }

  lemma BegunState(s: State, limits: Limits, elapsedMs: int)
    requires Begin(s, limits, elapsedMs).Ok?
    ensures BegunFrom(s, limits, elapsedMs, Begin(s, limits, elapsedMs).value)
  {
    hide LimitsAllow;
    TwoBeginsReserve(s, limits, elapsedMs);
  }

  lemma BegunCounts(start: State, limits: Limits, h: History, elapsedMs: int)
    requires Budgeted(start, limits, h) && WithinBudgets(start, limits) && Begin(h.state, limits, elapsedMs).Ok?
    ensures CountsAgree(start.(elapsedMs := 0), limits, h.records, Begin(h.state, limits, elapsedMs).value)
  {
    hide Begin, CountIn, InTheWay;
    TwoBeginsReserve(h.state, limits, elapsedMs);
    var settled := Settled(h.state, limits, elapsedMs);
    if settled == h.state && !StepKind(h.state.phase).CleanUp? {
      assert InTheWay(limits, ProgressAt(h.state, elapsedMs), StepKind(h.state.phase)) == [];
      assert !Exceeded(Attempts, limits, ProgressAt(h.state, elapsedMs), StepKind(h.state.phase));
      assert !Exceeded(PiCalls, limits, ProgressAt(h.state, elapsedMs), StepKind(h.state.phase));
    }
  }

  // ---------------------------------------- two genuine runs that it rejects

  const SHORT: Limits := Limits(1, 0, 1, 10)

  lemma PlayOne(start: State, limits: Limits, moves: seq<Move>)
    requires |moves| == 1
    ensures Played(start, limits, moves) == Extended(History(start, []), limits, moves[0])
  {
    assert moves[..0] == [];
  }

  /** Time runs out after the preparation, and the clean-up has to be tried twice. */
  lemma RetriedFinishRejected(start: State)
    requires IsStart(start) && start.elapsedMs == 0 && WithinBudgets(start, SHORT)
    ensures var moves := [Move(0, Prepared), Move(20, Failed("no worktree")), Move(20, Finished)];
            && Played(start, SHORT, moves).Ok?
            && var h := Played(start, SHORT, moves).value;
               h.state.phase.Done? && !Certifies(start.(elapsedMs := 0), SHORT, h.records, h.state)
  {
    hide Extended, WithinBudgets, IsStart, Played, ProgressAt, ValidProgress, Certifies, Replay, EndsByTime;
    var moves := [Move(0, Prepared), Move(20, Failed("no worktree")), Move(20, Finished)];
    assert moves[..1] == [moves[0]];
    var h1 := PrepareStep(start);
    var h2 := LateStep(start, h1);
    var h3 := CleanUpStep(h2);
    PlayThree(start, SHORT, moves, h1, h2, h3);
    DoneCertified(start, SHORT, moves);
    assert EndsByTime(At(start, SHORT, moves, 1).state, SHORT, moves[1].elapsedMs) by {
      assert At(start, SHORT, moves, 1) == h1;
    }
  }

  lemma PrepareStep(start: State) returns (h: History)
    requires IsStart(start) && start.elapsedMs == 0 && WithinBudgets(start, SHORT)
    ensures Played(start, SHORT, [Move(0, Prepared)]) == Ok(h)
    ensures h.state.phase.Baseline? && h.state.activeStep.None? && h.state.elapsedMs == 0
            && h.state.attemptsStarted >= 0
      && h.state.piCallsStarted >= 0 && h.state.repairsThisAttempt == 0
      && ValidProgress(ProgressAt(h.state, 20))
    ensures h.records == [Record(1, Prepare, start.workingRevision, Prepared)]
  {
    PlayOne(start, SHORT, [Move(0, Prepared)]);
    TwoBeginsReserve(start, SHORT, 0);
    FinishingAdvances(Reserved(start, 0), Prepared);
    h := Extended(History(start, []), SHORT, Move(0, Prepared)).value;
  }

  lemma LateReasons(state: State)
    requires state.phase.Baseline?
    ensures InTheWay(SHORT, ProgressAt(state, 20), StepKind(state.phase)) == [Duration]
    ensures EndsByTime(state, SHORT, 20)
  {
    assert InTheWay(SHORT, ProgressAt(state, 0), StepKind(state.phase)) == [];
    assert InTheWay(SHORT, ProgressAt(state, 20), StepKind(state.phase)) == [Duration];
  }

  lemma LateStep(start: State, h1: History) returns (h: History)
    requires h1.state.phase.Baseline? && h1.state.activeStep.None? && h1.state.elapsedMs == 0
             && ValidProgress(ProgressAt(h1.state, 20))
    ensures Extended(h1, SHORT, Move(20, Failed("no worktree"))) == Ok(h)
    ensures h.state.phase.Finish? && h.state.activeStep.None? && h.state.elapsedMs == 20
            && ValidProgress(ProgressAt(h.state, 20))
    ensures EndsByTime(h1.state, SHORT, 20)
  {
    hide EndsByTime, InTheWay;
    LateReasons(h1.state);
    TwoBeginsReserve(h1.state, SHORT, 20);
    FinishingAdvances(Reserved(Settled(h1.state, SHORT, 20), 20), Failed("no worktree"));
    h := Extended(h1, SHORT, Move(20, Failed("no worktree"))).value;
  }

  lemma CleanUpStep(h2: History) returns (h: History)
    requires h2.state.phase.Finish? && h2.state.activeStep.None? && h2.state.elapsedMs <= 20
             && ValidProgress(ProgressAt(h2.state, 20))
    ensures Extended(h2, SHORT, Move(20, Finished)) == Ok(h) && h.state.phase.Done?
    ensures h.records == h2.records + [Record(h2.state.sequence + 1, Finish, h2.state.workingRevision, Finished)]
  {
    TwoBeginsReserve(h2.state, SHORT, 20);
    FinishingAdvances(Reserved(h2.state, 20), Finished);
    h := Extended(h2, SHORT, Move(20, Finished)).value;
  }

  /** A run whose baseline fails in time, cleaned up once, is certified. */
  lemma FailedBaselineCertified(start: State)
    requires IsStart(start) && start.elapsedMs == 0 && WithinBudgets(start, SHORT)
    ensures var moves := [Move(0, Prepared), Move(0, Failed("no benchmark")), Move(20, Finished)];
            && Played(start, SHORT, moves).Ok?
            && var h := Played(start, SHORT, moves).value;
               h.state.phase.Done? && Certifies(start.(elapsedMs := 0), SHORT, h.records, h.state)
  {
    hide Certifies, CountIn, Played;
    var h := FailedBaselineHistory(start);
    SingleFinishCertified(start, SHORT, [Move(0, Prepared), Move(0, Failed("no benchmark")), Move(20, Finished)]);
  }

  lemma FailedBaselineHistory(start: State) returns (h: History)
    requires IsStart(start) && start.elapsedMs == 0 && WithinBudgets(start, SHORT)
    ensures Played(start, SHORT, [Move(0, Prepared), Move(0, Failed("no benchmark")), Move(20, Finished)]) == Ok(h)
    ensures h.state.phase.Done? && CountIn(h.records, {Finish}) == 1 && InitialTestsPassed(h.records, h.state)
    ensures |h.records| == 3 && forall r :: r in h.records ==> !r.outcome.Measured?
  {
    hide Extended, WithinBudgets, IsStart, Played, ProgressAt, ValidProgress, CountIn;
    var moves := [Move(0, Prepared), Move(0, Failed("no benchmark")), Move(20, Finished)];
    assert moves[..1] == [moves[0]];
    var h1 := PrepareStep(start);
    var h2 := FailingStep(h1);
    h := CleanUpStep(h2);
    PlayThree(start, SHORT, moves, h1, h2, h);
    OneFinish(h.records);
  }

  lemma PlayThree(start: State, limits: Limits, moves: seq<Move>, h1: History, h2: History, h3: History)
    requires |moves| == 3 && Played(start, limits, moves[..1]) == Ok(h1)
    requires Extended(h1, limits, moves[1]) == Ok(h2) && Extended(h2, limits, moves[2]) == Ok(h3)
    ensures Played(start, limits, moves) == Ok(h3)
  {
    hide Extended;
    assert moves[..2][..1] == moves[..1];
    assert Played(start, limits, moves[..2]) == Ok(h2);
  }

  lemma OneFinish(records: seq<Record>)
    requires |records| == 3 && records[2].phase.Finish? && !records[0].phase.Finish? && !records[1].phase.Finish?
    ensures CountIn(records, {Finish}) == 1
  {
    assert records[..2][..1] == records[..1] && records[..1][..0] == [];
    assert CountIn(records[..1], {Finish}) == 0;
    assert CountIn(records[..2], {Finish}) == 0;
  }

  lemma FailingStep(h1: History) returns (h: History)
    requires h1.state.phase.Baseline? && h1.state.activeStep.None? && h1.state.elapsedMs == 0
             && ValidProgress(ProgressAt(h1.state, 20))
    ensures Extended(h1, SHORT, Move(0, Failed("no benchmark"))) == Ok(h)
    ensures h.state.phase.Finish? && h.state.activeStep.None? && h.state.elapsedMs == 0
            && ValidProgress(ProgressAt(h.state, 20))
    ensures h.records == h1.records + [Record(h1.state.sequence + 1, Baseline, h1.state.workingRevision,
                                              Failed("no benchmark"))]
  {
    var reasons := InTheWay(SHORT, ProgressAt(h1.state, 0), StepKind(h1.state.phase));
    assert reasons == [];
    TwoBeginsReserve(h1.state, SHORT, 0);
    FinishingAdvances(Reserved(h1.state, 0), Failed("no benchmark"));
    h := Extended(h1, SHORT, Move(0, Failed("no benchmark"))).value;
  }

  /** Time runs out after the preparation, and the run is abandoned in its clean-up. */
  lemma AbandonedLateRejected(start: State)
    requires IsStart(start) && start.elapsedMs == 0 && WithinBudgets(start, SHORT)
    ensures var moves := [Move(0, Prepared)];
            && Played(start, SHORT, moves).Ok?
            && var h := Played(start, SHORT, moves).value;
               && Begin(h.state, SHORT, 20).Ok?
               && !Certifies(start.(elapsedMs := 0), SHORT, h.records, Begin(h.state, SHORT, 20).value)
  {
    var h1 := PrepareStep(start);
    var _ := LateStep(start, h1);
    TwoBeginsReserve(h1.state, SHORT, 20);
    AbandonedCertified(start, SHORT, [Move(0, Prepared)], 20);
  }

  // ----------------------------------------------- what justified the keeps

  /** The evidence that the verifier looks for: a passing test, a valid measurement, a passing review. */
  datatype Evidence = TestPassed | MeasuredValid | ReviewPassed

  predicate Shows(r: Record, kind: Evidence, revision: string) {
    match kind
    case TestPassed => r.phase.Test? && r.outcome == Tested(revision, true)
    case MeasuredValid => r.phase.Measure? && r.outcome.Measured? && r.outcome.valid && r.outcome.revision == revision
    case ReviewPassed => r.phase.Review? && r.outcome == Reviewed(revision, true)
  }

  /** The last step strictly between two steps that shows it, or else the earlier of the two. */
  function LastShowing(steps: seq<Record>, after: int, before: int, kind: Evidence, revision: string): (i: int)
    requires -1 <= after < before <= |steps|
    ensures after <= i < before
    ensures i > after ==> Shows(steps[i], kind, revision)
    ensures forall j :: i < j < before ==> !Shows(steps[j], kind, revision)
    decreases before
  {
    if before - 1 == after then after
    else if Shows(steps[before - 1], kind, revision) then before - 1
    else LastShowing(steps, after, before - 1, kind, revision)
  }

  method FindLast(steps: seq<Record>, after: int, before: int, kind: Evidence, revision: string) returns (i: int)
    requires -1 <= after < before <= |steps|
    ensures i == LastShowing(steps, after, before, kind, revision)
  {
    i := before - 1;
    while i > after && !Shows(steps[i], kind, revision)
      invariant after <= i < before
      invariant LastShowing(steps, after, i + 1, kind, revision) == LastShowing(steps, after, before, kind, revision)
    {
      i := i - 1;
    }
  }

  predicate IsKeep(r: Record) {
    r.phase.Keep? && r.outcome.Kept?
  }

  /** The last keep step before step k, or -1. */
  function PreviousKeep(steps: seq<Record>, k: nat): (i: int)
    requires k <= |steps|
    ensures -1 <= i < k && (i >= 0 ==> IsKeep(steps[i]))
    ensures forall j :: i < j < k ==> !IsKeep(steps[j])
  {
    if k == 0 then -1 else if IsKeep(steps[k - 1]) then k - 1 else PreviousKeep(steps, k - 1)
  }

  /** A passing test, a valid measurement and a passing review, found in this order. */
  datatype Grounds = Grounds(tested: int, measured: int, reviewed: int)

  /** What the backward search finds for the keep step k. */
  function GroundsOf(steps: seq<Record>, k: nat): Option<Grounds>
    requires k < |steps| && IsKeep(steps[k])
  {
    var previous, revision := PreviousKeep(steps, k), steps[k].outcome.revision;
    var tested := LastShowing(steps, previous, k, TestPassed, revision);
    var measured := LastShowing(steps, previous, k, MeasuredValid, revision);
    var reviewed := LastShowing(steps, previous, k, ReviewPassed, revision);
    if previous < tested < measured < reviewed then Some(Grounds(tested, measured, reviewed)) else None
  }

  /** The keep steps among the first n. */
  function KeepSteps(steps: seq<Record>, n: nat): (keeps: seq<nat>)
    requires n <= |steps|
    ensures |keeps| <= n
    ensures forall i :: 0 <= i < |keeps| ==> keeps[i] < n && IsKeep(steps[keeps[i]])
    ensures forall k :: 0 <= k < n && IsKeep(steps[k]) ==> k in keeps
  {
    if n == 0 then [] else KeepSteps(steps, n - 1) + if IsKeep(steps[n - 1]) then [n - 1] else []
  }

  /** Looks backwards from a keep step, down to the keep before. */
  method FindGrounds(steps: seq<Record>, previousKeep: int, k: nat) returns (grounds: Option<Grounds>)
    requires k < |steps| && IsKeep(steps[k]) && previousKeep == PreviousKeep(steps, k)
    ensures grounds == GroundsOf(steps, k)
  {
    hide Shows, LastShowing;
    var revision := steps[k].outcome.revision;
    var tested := FindLast(steps, previousKeep, k, TestPassed, revision);
    var measured := FindLast(steps, previousKeep, k, MeasuredValid, revision);
    var reviewed := FindLast(steps, previousKeep, k, ReviewPassed, revision);
    grounds := if previousKeep < tested < measured < reviewed then Some(Grounds(tested, measured, reviewed)) else None;
  }

  /** Walks the keep steps in order and finds the grounds of each. */
  method VerifyKeeps(steps: seq<Record>) returns (r: Result<seq<Grounds>, ()>)
    ensures r.Ok? <==> forall k :: 0 <= k < |steps| && IsKeep(steps[k]) ==> GroundsOf(steps, k).Some?
    ensures r.Ok? ==>
      && |r.value| == |KeepSteps(steps, |steps|)|
      && forall i :: 0 <= i < |r.value| ==> GroundsOf(steps, KeepSteps(steps, |steps|)[i]) == Some(r.value[i])
  {
    hide GroundsOf, IsKeep;
    var found := [];
    var previousKeep := -1;
    var k := 0;
    while k < |steps|
      invariant 0 <= k <= |steps|
      invariant previousKeep == PreviousKeep(steps, k)
      invariant forall j :: 0 <= j < k && IsKeep(steps[j]) ==> GroundsOf(steps, j).Some?
      invariant |found| == |KeepSteps(steps, k)|
      invariant forall i :: 0 <= i < |found| ==> GroundsOf(steps, KeepSteps(steps, k)[i]) == Some(found[i])
    {
      if IsKeep(steps[k]) {
        var grounds := FindGrounds(steps, previousKeep, k);
        if grounds.None? {
          return Err(());
        }
        found := found + [grounds.value];
        previousKeep := k;
      }
      k := k + 1;
    }
    return Ok(found);
  }

  /** A valid measurement of a revision, whether it improves on anything or not. */
  predicate ValidlyMeasured(r: Record, revision: string) {
    r.phase.Measure? && r.outcome.Measured? && r.outcome.revision == revision && r.outcome.valid
  }

  /** Grounds are a test, a measurement and a review of the kept revision, in this order, after the keep before. */
  lemma GroundsHold(steps: seq<Record>, k: nat)
    requires k < |steps| && IsKeep(steps[k]) && GroundsOf(steps, k).Some?
    ensures var g, revision := GroundsOf(steps, k).value, steps[k].outcome.revision;
            && 0 <= g.tested < g.measured < g.reviewed < k
            && (forall j :: 0 <= j < k && IsKeep(steps[j]) ==> j < g.tested)
            && PassedTest(steps[g.tested], revision)
            && ValidlyMeasured(steps[g.measured], revision)
            && PassedReview(steps[g.reviewed], revision)
  {
  }

  /** Step i shows it, it comes after all earlier keeps, and no step from there to step k shows it again. */
  ghost predicate LastBefore(steps: seq<Record>, k: nat, i: int, shows: Record -> bool)
    requires k <= |steps|
  {
    && 0 <= i < k && shows(steps[i])
    && (forall j :: i < j < k ==> !shows(steps[j]))
    && (forall j :: i <= j < k ==> !(steps[j].phase.Keep? && steps[j].outcome.Kept?))
  }

  /** A keep has its grounds exactly when these are the last such steps since the keep before, in this order. */
  lemma GroundsExactly(steps: seq<Record>, k: nat, g: Grounds)
    requires k < |steps| && IsKeep(steps[k])
    ensures GroundsOf(steps, k) == Some(g) <==>
      && g.tested < g.measured < g.reviewed
      && LastBefore(steps, k, g.tested, r => PassedTest(r, steps[k].outcome.revision))
      && LastBefore(steps, k, g.measured, r => ValidlyMeasured(r, steps[k].outcome.revision))
      && LastBefore(steps, k, g.reviewed, r => PassedReview(r, steps[k].outcome.revision))
  {
    var previous, revision := PreviousKeep(steps, k), steps[k].outcome.revision;
    LastIs(steps, k, TestPassed, revision, g.tested, r => PassedTest(r, revision));
    LastIs(steps, k, MeasuredValid, revision, g.measured, r => ValidlyMeasured(r, revision));
    LastIs(steps, k, ReviewPassed, revision, g.reviewed, r => PassedReview(r, revision));
  }

  lemma LastIs(steps: seq<Record>, k: nat, kind: Evidence, revision: string, i: int, shows: Record -> bool)
    requires k < |steps| && forall r :: shows(r) <==> Shows(r, kind, revision)
    ensures var previous := PreviousKeep(steps, k);
            LastBefore(steps, k, i, shows) <==>
              i > previous && i == LastShowing(steps, previous, k, kind, revision)
  {
    hide Shows;
    var previous := PreviousKeep(steps, k);
    var last := LastShowing(steps, previous, k, kind, revision);
    assert previous >= 0 ==> IsKeep(steps[previous]);
    assert last > previous ==> Shows(steps[last], kind, revision);
  }

  /** On a history that the engine can produce every keep has its grounds: the three steps right before it. */
  lemma GroundsOfGenuine(steps: seq<Record>, k: nat)
    requires KeepsJustified(steps) && k < |steps| && IsKeep(steps[k])
    ensures k >= 3 && GroundsOf(steps, k) == Some(Grounds(k - 3, k - 2, k - 1))
  {
    hide Shows;
    KeepWindow(steps, PreviousKeep(steps, k), k);
  }

  /** The three steps before a justified keep lie after the keep before, and show what they should and nothing else. */
  lemma KeepWindow(steps: seq<Record>, previousKeep: int, k: int)
    requires KeepsJustified(steps) && -1 <= previousKeep < k < |steps| && steps[k].outcome.Kept?
    requires previousKeep >= 0 ==> steps[previousKeep].phase.Keep?
    ensures previousKeep < k - 3
    ensures var revision := steps[k].outcome.revision;
            && (forall i :: k - 3 <= i < k ==> (Shows(steps[i], TestPassed, revision) <==> i == k - 3))
            && (forall i :: k - 3 <= i < k ==> (Shows(steps[i], MeasuredValid, revision) <==> i == k - 2))
            && (forall i :: k - 3 <= i < k ==> (Shows(steps[i], ReviewPassed, revision) <==> i == k - 1))
  {
    assert Justified(steps, k);
  }
}
