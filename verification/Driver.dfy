/**
  The crash-safe driver of a run: reserve a step, perform it, save its result,
  advance.  Every write to the store may be lost, or take effect without the
  caller learning it, and the caller may die while it performs a step.
*/
module Driver {
  import opened Numbers
  import opened Wrappers
  import opened RunState
  import opened RunHistory

  datatype Fault = NoFault | Lost | Unacknowledged

  /** What becomes of the three writes of one call. */
  datatype Faults = Faults(started: Fault, result: Fault, completed: Fault)

  /** How performing a step can end; dying leaves nothing behind but the step's effects. */
  datatype Performance = Returned(outcome: Outcome) | Threw(message: string) | Died

  datatype Failure =
    | SchemaViolated
    | Rejected(error: Error)
    | OutputExists
    | WriteFailed
    | CallerDied
    | NothingToRecover
    | NoSavedResult
    | ResultMismatch
    | CleanUpFailed
    | SupportChanged
    | ClientChanged
    | RunAbandoned

  /** The versions of the run's state, the versions of each step's result, and the steps whose effects were started. */
  datatype Disk = Disk(states: seq<State>, steps: map<int, seq<Record>>, performed: seq<int>)

  // ---------------------------------------------------------------- schemas

  /** What the schema asks of a state, but for the greatest number a step can have. */
  predicate SchemaShape(s: State) {
    && IsRunId(s.runId) && IsRevision(s.initialRevision) && IsRevision(s.bestRevision) && IsRevision(s.workingRevision)
    && SafeFrom(s.attemptsStarted, 0) && SafeFrom(s.repairsThisAttempt, 0) && SafeFrom(s.piCallsStarted, 0)
    && SafeFrom(s.elapsedMs, 0) && s.sequence >= 0
    && (s.activeStep.Some? ==> s.activeStep.value == s.sequence > 0)
    && (forall p :: p in s.outputs ==> s.outputs[p].name != "" && SafeFrom(s.outputs[p].version, 1))
  }

  /** A state that can be loaded: counts are safe integers, and the active step is the last one. */
  predicate StateSchema(s: State) {
    SchemaShape(s) && s.sequence <= MAX_SAFE_INTEGER
  }

  predicate OutcomeSchema(o: Outcome) {
    match o
    case Measured(revision, _, _, _, _) => IsRevision(revision)
    case Edited(revision) => IsRevision(revision)
    case Tested(revision, _) => IsRevision(revision)
    case Reviewed(revision, _) => IsRevision(revision)
    case Kept(revision) => IsRevision(revision)
    case Discarded(revision) => IsRevision(revision)
    case Failed(message) => message != ""
    case _ => true
  }

  /** A result that can be saved and read back. */
  predicate RecordSchema(r: Record) {
    SafeFrom(r.step, 1) && IsRevision(r.revision) && OutcomeSchema(r.outcome)
  }

  /** A state with a reserved step can be loaded again exactly when the step's number is a safe integer. */
  lemma BeginKeepsSchema(s: State, limits: Limits, elapsedMs: int)
    requires SchemaShape(s) && Begin(s, limits, elapsedMs).Ok?
    ensures SchemaShape(Begin(s, limits, elapsedMs).value)
    ensures StateSchema(Begin(s, limits, elapsedMs).value) <==> s.sequence < MAX_SAFE_INTEGER
  {
    hide InTheWay, IsRevision, IsRunId;
    TwoBeginsReserve(s, limits, elapsedMs);
    var next, progress := StepKind(s.phase), ProgressAt(s, elapsedMs);
    if Settled(s, limits, elapsedMs) == s && !next.CleanUp? {
      assert InTheWay(limits, progress, next) == [];
      assert !Exceeded(Attempts, limits, progress, next) && !Exceeded(Repairs, limits, progress, next);
      assert !Exceeded(PiCalls, limits, progress, next);
    }
  }

  /** Finishing a step keeps a state that can be loaded. */
  lemma FinishKeepsSchema(s: State, outcome: Outcome, output: OutputReference)
    requires SchemaShape(s) && OutcomeSchema(outcome) && Finishing(s, s.sequence, outcome, output).Ok?
    ensures SchemaShape(Finishing(s, s.sequence, outcome, output).value)
    ensures StateSchema(Finishing(s, s.sequence, outcome, output).value) <==> StateSchema(s)
  {
    hide IsRevision, IsRunId, NextPhase, NextStopReason, NextTargetMet;
  }

  // ------------------------------------------------------- the calls, as values

  function Current(d: Disk): State
    requires d.states != []
  {
    d.states[|d.states| - 1]
  }

  function PutState(d: Disk, s: State, fault: Fault): Disk {
    if fault.Lost? then d else d.(states := d.states + [s])
  }

  function Versions(d: Disk, step: int): seq<Record> {
    if step in d.steps then d.steps[step] else []
  }

  function PutStep(d: Disk, r: Record, fault: Fault): Disk {
    if fault.Lost? then d else d.(steps := d.steps[r.step := Versions(d, r.step) + [r]])
  }

  /** The outcome that is saved: what was returned if it can be recorded and finished, else an error. */
  function RecordedOutcome(active: State, performance: Performance): Outcome
    requires !performance.Died?
  {
    match performance
    case Threw(message) => Failed(message)
    case Returned(outcome) =>
      if OutcomeSchema(outcome)
        && Finishing(active, active.sequence, outcome, StepOutput(active.runId, active.sequence)).Ok?
      then outcome else Failed("Error: not a result of this step")
  }

  function RecordOf(active: State, outcome: Outcome): Record {
    Record(active.sequence, active.phase, active.workingRevision, outcome)
  }

  /** The end of a run call, once the step's effects have been started. */
  function AfterPerforming(d: Disk, active: State, performance: Performance, faults: Faults)
    : (Disk, Result<State, Failure>)
  {
    if performance.Died? then (d, Err(CallerDied))
    else
      var outcome := RecordedOutcome(active, performance);
      if !RecordSchema(RecordOf(active, outcome)) then (d, Err(SchemaViolated))
      else
        var saved := PutStep(d, RecordOf(active, outcome), faults.result);
        if !faults.result.NoFault? then (saved, Err(WriteFailed))
        else
          var output := StepOutput(active.runId, active.sequence).(version := |Versions(saved, active.sequence)|);
          var finished := Finishing(active, active.sequence, outcome, output);
          if finished.Err? then (saved, Err(Rejected(finished.error)))
          else (PutState(saved, finished.value, faults.completed),
                if faults.completed.NoFault? then Ok(finished.value) else Err(WriteFailed))
  }

  function AfterRun(d: Disk, limits: Limits, elapsedMs: int, perform: State -> Performance,
                    faults: Faults): (r: (Disk, Result<State, Failure>))
    requires d.states != []
    ensures r.0.states != []
  {
    if !StateSchema(Current(d)) then (d, Err(SchemaViolated))
    else
      var begun := Begin(Current(d), limits, elapsedMs);
      if begun.Err? then (d, Err(Rejected(begun.error)))
      else
        var active := begun.value;
        if active.sequence in d.steps then (d, Err(OutputExists))
        else
          var started := PutState(d, active, faults.started);
          if !faults.started.NoFault? then (started, Err(WriteFailed))
          else AfterPerforming(started.(performed := started.performed + [active.sequence]), active, perform(active),
                               faults)
  }

  function AfterRecover(d: Disk, fault: Fault): (Disk, Result<State, Failure>)
    requires d.states != []
  {
    var active := Current(d);
    if !StateSchema(active) then (d, Err(SchemaViolated))
    else if active.activeStep.None? then (d, Err(NothingToRecover))
    else if Versions(d, active.sequence) == [] then (d, Err(NoSavedResult))
    else
      var record := d.steps[active.sequence][0];
      if !RecordSchema(record) then (d, Err(SchemaViolated))
      else if record != RecordOf(active, record.outcome) then (d, Err(ResultMismatch))
      else
        var finished := Finishing(active, active.sequence, record.outcome, StepOutput(active.runId, active.sequence));
        if finished.Err? then (d, Err(Rejected(finished.error)))
        else (PutState(d, finished.value, fault), if fault.NoFault? then Ok(finished.value) else Err(WriteFailed))
  }

  // ------------------------------------------------------------- the driver

  class Store {
    var states: seq<State>
    var steps: map<int, seq<Record>>
    ghost var performed: seq<int>

    ghost function OnDisk(): Disk
      reads this
    {
      Disk(states, steps, performed)
    }

    constructor (start: State)
      ensures OnDisk() == Disk([start], map[], [])
    {
      states, steps, performed := [start], map[], [];
    }

    method WriteState(s: State, fault: Fault) returns (acknowledged: bool)
      modifies this`states
      ensures OnDisk() == PutState(old(OnDisk()), s, fault) && (acknowledged <==> fault.NoFault?)
    {
      if !fault.Lost? {
        states := states + [s];
      }
      acknowledged := fault.NoFault?;
    }

    /** The version that the write became, if the caller learns it. */
    method WriteStep(r: Record, fault: Fault) returns (version: Option<int>)
      modifies this`steps
      ensures OnDisk() == PutStep(old(OnDisk()), r, fault)
      ensures version == if fault.NoFault? then Some(|Versions(OnDisk(), r.step)|) else None
    {
      if fault.Lost? {
        return None;
      }
      var versions := if r.step in steps then steps[r.step] else [];
      steps := steps[r.step := versions + [r]];
      version := if fault.NoFault? then Some(|versions| + 1) else None;
    }

    method RunSavedStep(limits: Limits, elapsedMs: int, perform: State -> Performance, faults: Faults)
      returns (r: Result<State, Failure>)
      requires states != []
      modifies this
      ensures (OnDisk(), r) == AfterRun(old(OnDisk()), limits, elapsedMs, perform, faults)
    {
      hide StateSchema, SchemaShape, OutcomeSchema, Finishing, StepOutput, BeginStep;
      var loaded := states[|states| - 1];
      if !StateSchema(loaded) {
        return Err(SchemaViolated);
      }
      var begun := BeginStep(loaded, limits, elapsedMs);
      if begun.Ok? && begun.value.activeStep.None? {
        begun := BeginStep(begun.value, limits, elapsedMs);
      }
      if begun.Err? {
        return Err(Rejected(begun.error));
      }
      var active := begun.value;
      if active.sequence in steps {
        return Err(OutputExists);
      }
      var started := WriteState(active, faults.started);
      if !started {
        return Err(WriteFailed);
      }
      performed := performed + [active.sequence];
      r := SaveAndAdvance(active, perform(active), faults);
    }

    /** What follows once the step has been performed. */
    method SaveAndAdvance(active: State, performance: Performance, faults: Faults) returns (r: Result<State, Failure>)
      modifies this`states, this`steps
      ensures (OnDisk(), r) == AfterPerforming(old(OnDisk()), active, performance, faults)
    {
      hide OutcomeSchema, Finishing, StepOutput;
      if performance.Died? {
        return Err(CallerDied);
      }
      var effect;
      if performance.Threw? {
        effect := Failed(performance.message);
      } else {
        effect := performance.outcome;
        if OutcomeSchema(effect) {
          var trial := FinishStep(active, active.sequence, effect, StepOutput(active.runId, active.sequence));
          if trial.Err? {
            effect := Failed("Error: not a result of this step");
          }
        } else {
          effect := Failed("Error: not a result of this step");
        }
      }
      if !RecordSchema(RecordOf(active, effect)) {
        return Err(SchemaViolated);
      }
      var output := WriteStep(RecordOf(active, effect), faults.result);
      if output.None? {
        return Err(WriteFailed);
      }
      var finished := FinishStep(active, active.sequence, effect,
                                 StepOutput(active.runId, active.sequence).(version := output.value));
      if finished.Err? {
        return Err(Rejected(finished.error));
      }
      var completed := WriteState(finished.value, faults.completed);
      return if completed then Ok(finished.value) else Err(WriteFailed);
    }

    method RecoverSavedStep(fault: Fault) returns (r: Result<State, Failure>)
      requires states != []
      modifies this`states
      ensures (OnDisk(), r) == AfterRecover(old(OnDisk()), fault)
    {
      hide StateSchema, SchemaShape, OutcomeSchema, Finishing, StepOutput;
      var active := states[|states| - 1];
      if !StateSchema(active) {
        return Err(SchemaViolated);
      }
      if active.activeStep.None? {
        return Err(NothingToRecover);
      }
      if active.sequence !in steps || steps[active.sequence] == [] {
        return Err(NoSavedResult);
      }
      var record := steps[active.sequence][0];
      if !RecordSchema(record) {
        return Err(SchemaViolated);
      }
      if record.step != active.sequence || record.phase != active.phase || record.revision != active.workingRevision {
        return Err(ResultMismatch);
      }
      var finished := FinishStep(active, active.sequence, record.outcome, StepOutput(active.runId, active.sequence));
      if finished.Err? {
        return Err(Rejected(finished.error));
      }
      var completed := WriteState(finished.value, fault);
      return if completed then Ok(finished.value) else Err(WriteFailed);
    }
  }

  // -------------------------------------------------- any calls, any faults

  datatype Call =
    | Run(elapsedMs: int, perform: State -> Performance, faults: Faults)
    | Recover(fault: Fault)

  function AfterCall(d: Disk, limits: Limits, call: Call): Disk
    requires d.states != []
  {
    match call
    case Run(elapsedMs, perform, faults) => AfterRun(d, limits, elapsedMs, perform, faults).0
    case Recover(fault) => AfterRecover(d, fault).0
  }

  function AfterCalls(d: Disk, limits: Limits, calls: seq<Call>): (r: Disk)
    requires d.states != []
    ensures r.states != []
  {
    if calls == [] then d else AfterCall(AfterCalls(d, limits, calls[..|calls| - 1]), limits, calls[|calls| - 1])
  }

  ghost predicate NoRepeats(s: seq<int>) {
    forall i, j :: 0 <= i < j < |s| ==> s[i] != s[j]
  }

  /** The saved results are those of the history, each with one version. */
  ghost predicate SavedAs(d: Disk, records: seq<Record>) {
    forall n :: 1 <= n <= |records| ==> n in d.steps && d.steps[n] == [records[n - 1]]
  }

  /** Nothing was performed or saved beyond step `top`, and nothing was performed twice. */
  ghost predicate UpTo(d: Disk, top: int) {
    && NoRepeats(d.performed)
    && (forall n :: n in d.performed ==> 1 <= n <= top)
    && (forall n :: n in d.steps ==> 1 <= n <= top)
  }

  /** A result that is saved for the active step matches it and can be finished. */
  ghost predicate Recoverable(d: Disk, active: State) {
    active.sequence in d.steps ==>
      && |d.steps[active.sequence]| == 1 && active.sequence in d.performed
      && var record := d.steps[active.sequence][0];
         && record == RecordOf(active, record.outcome) && RecordSchema(record)
         && Finishing(active, active.sequence, record.outcome, StepOutput(active.runId, active.sequence)).Ok?
  }

  /** The store shows a history of the run: between two steps, or in the step that began at `elapsedMs`. */
  ghost predicate Shows(limits: Limits, d: Disk, h: History, elapsedMs: int) {
    && d.states != [] && SchemaShape(Current(d)) && SavedAs(d, h.records)
    && |h.records| == h.state.sequence && h.state.activeStep.None?
    && if Current(d).activeStep.None? then Current(d) == h.state && UpTo(d, h.state.sequence)
       else
         && Begin(h.state, limits, elapsedMs) == Ok(Current(d)) && UpTo(d, h.state.sequence + 1)
         && Recoverable(d, Current(d))
  }

  lemma RecordedFinishes(active: State, performance: Performance)
    requires active.activeStep == Some(active.sequence) && !performance.Died?
    requires OutcomeSchema(RecordedOutcome(active, performance))
    ensures Finishing(active, active.sequence, RecordedOutcome(active, performance),
                      StepOutput(active.runId, active.sequence)).Ok?
  {
  }

  /** Beginning a step reserves the next number for it. */
  lemma BegunIsNext(s: State, limits: Limits, elapsedMs: int)
    requires Begin(s, limits, elapsedMs).Ok?
    ensures var active := Begin(s, limits, elapsedMs).value;
            active.activeStep == Some(s.sequence + 1) && active.sequence == s.sequence + 1 && active.runId == s.runId
            && active.elapsedMs == elapsedMs
    ensures s.activeStep.None?
  {
    hide LimitsAllow;
    TwoBeginsReserve(s, limits, elapsedMs);
  }

  lemma BeginShows(limits: Limits, d: Disk, h: History, e: int, elapsedMs: int, fault: Fault)
    requires Shows(limits, d, h, e) && Begin(Current(d), limits, elapsedMs).Ok?
    ensures var active := Begin(Current(d), limits, elapsedMs).value;
            && Current(d) == h.state && active.sequence == h.state.sequence + 1
            && Shows(limits, PutState(d, active, fault), h, if fault.Lost? then e else elapsedMs)
  {
    hide Begin, StateSchema, SchemaShape;
    BegunIsNext(Current(d), limits, elapsedMs);
    BeginKeepsSchema(Current(d), limits, elapsedMs);
  }

  /** Saving a result that can be finished. */
  lemma SaveShows(limits: Limits, d: Disk, h: History, e: int, outcome: Outcome, fault: Fault)
    requires Shows(limits, d, h, e) && Current(d).activeStep.Some? && Current(d).sequence !in d.steps
    requires Current(d).sequence in d.performed && RecordSchema(RecordOf(Current(d), outcome))
    requires var active := Current(d);
             Finishing(active, active.sequence, outcome, StepOutput(active.runId, active.sequence)).Ok?
    ensures Shows(limits, PutStep(d, RecordOf(Current(d), outcome), fault), h, e)
  {
    hide Begin, StateSchema, SchemaShape, OutcomeSchema, Finishing, StepOutput;
    BegunIsNext(h.state, limits, e);
  }

  /** Finishing the active step from its saved result, in either call: the history grows by that step. */
  lemma FinishShows(limits: Limits, d: Disk, h: History, e: int, fault: Fault)
    requires Shows(limits, d, h, e) && Current(d).activeStep.Some? && Current(d).sequence in d.steps
    ensures var active := Current(d);
            var outcome := d.steps[active.sequence][0].outcome;
            var next := Extended(h, limits, Move(e, outcome));
            var output := StepOutput(active.runId, active.sequence);
            var d' := PutState(d, Finishing(active, active.sequence, outcome, output).value, fault);
            next.Ok? && Shows(limits, d', if fault.Lost? then h else next.value, e)
  {
    hide Begin, StateSchema, SchemaShape, OutcomeSchema, StepOutput, Expected, RevisionFault, NextPhase, NextStopReason,
      NextTargetMet;
    BegunIsNext(h.state, limits, e);
    var active := Current(d);
    FinishKeepsSchema(active, d.steps[active.sequence][0].outcome, StepOutput(active.runId, active.sequence));
  }

  /** The number of the move that a call adds to the history, if it completes a step on disk. */
  lemma CallShows(limits: Limits, d: Disk, h: History, e: int, call: Call)
    returns (h': History, e': int, move: Option<Move>)
    requires Shows(limits, d, h, e)
    ensures Shows(limits, AfterCall(d, limits, call), h', e')
    ensures if move.None? then h' == h else Extended(h, limits, move.value) == Ok(h')
  {
    h', e', move := h, e, None;
    match call {
      case Run(elapsedMs, perform, faults) =>
        if StateSchema(Current(d)) && Begin(Current(d), limits, elapsedMs).Ok? {
          h', e', move := RunShows(limits, d, h, e, elapsedMs, perform, faults);
        }
      case Recover(fault) =>
        if AfterCall(d, limits, call) != d {
          FinishShows(limits, d, h, e, fault);
          if !fault.Lost? {
            var outcome := d.steps[Current(d).sequence][0].outcome;
            move := Some(Move(e, outcome));
            h' := Extended(h, limits, Move(e, outcome)).value;
          }
        }
    }
  }

  lemma PerformedOnce(performed: seq<int>, step: int)
    requires NoRepeats(performed) && forall n :: n in performed ==> n < step
    ensures NoRepeats(performed + [step])
  {
    forall i, j | 0 <= i < j < |performed| + 1 ensures (performed + [step])[i] != (performed + [step])[j] {
      assert performed[i] in performed;
    }
  }

  lemma RunShows(limits: Limits, d: Disk, h: History, e: int, elapsedMs: int, perform: State -> Performance,
                 faults: Faults)
    returns (h': History, e': int, move: Option<Move>)
    requires Shows(limits, d, h, e) && StateSchema(Current(d)) && Begin(Current(d), limits, elapsedMs).Ok?
    ensures Shows(limits, AfterRun(d, limits, elapsedMs, perform, faults).0, h', e')
    ensures if move.None? then h' == h else Extended(h, limits, move.value) == Ok(h')
  {
    hide Begin, StateSchema, SchemaShape, OutcomeSchema, Finishing, StepOutput, Extended;
    h', e', move := h, e, None;
    var active := Begin(Current(d), limits, elapsedMs).value;
    BeginShows(limits, d, h, e, elapsedMs, faults.started);
    if active.sequence in d.steps {
      return;
    }
    BegunIsNext(Current(d), limits, elapsedMs);
    e' := if faults.started.Lost? then e else elapsedMs;
    if faults.started.NoFault? {
      var started := PutState(d, active, NoFault);
      var performed := started.(performed := d.performed + [active.sequence]);
      PerformedOnce(d.performed, active.sequence);
      h', move := PerformedShows(limits, performed, h, elapsedMs, perform(active), faults);
    }
  }

  lemma PerformedShows(limits: Limits, d: Disk, h: History, e: int, performance: Performance, faults: Faults)
    returns (h': History, move: Option<Move>)
    requires Shows(limits, d, h, e) && Current(d).activeStep.Some? && Current(d).sequence !in d.steps
    requires Current(d).sequence in d.performed
    ensures Shows(limits, AfterPerforming(d, Current(d), performance, faults).0, h', e)
    ensures if move.None? then h' == h else Extended(h, limits, move.value) == Ok(h')
  {
    hide Begin, StateSchema, SchemaShape, OutcomeSchema, Finishing, StepOutput, Extended;
    h', move := h, None;
    var active := Current(d);
    if performance.Died? || !RecordSchema(RecordOf(active, RecordedOutcome(active, performance))) {
      return;
    }
    BegunIsNext(h.state, limits, e);
    RecordedFinishes(active, performance);
    var outcome := RecordedOutcome(active, performance);
    SaveShows(limits, d, h, e, outcome, faults.result);
    if faults.result.NoFault? {
      var saved := PutStep(d, RecordOf(active, outcome), NoFault);
      SavedOnce(active);
      FinishShows(limits, saved, h, e, faults.completed);
      if !faults.completed.Lost? {
        move := Some(Move(e, outcome));
        h' := Extended(h, limits, Move(e, outcome)).value;
      }
    }
  }

  /** The first version of a step's result is the one that a recovery refers to. */
  lemma SavedOnce(active: State)
    ensures StepOutput(active.runId, active.sequence).(version := 1) == StepOutput(active.runId, active.sequence)
  {
  }

  lemma StartShows(start: State, limits: Limits)
    requires IsStart(start) && StateSchema(start)
    ensures Shows(limits, Disk([start], map[], []), History(start, []), 0)
  {
  }

  /** Whatever is called and whatever fails, the store shows a history that the engine can produce without faults. */
  lemma {:induction false} StoreShowsHistory(start: State, limits: Limits, calls: seq<Call>)
    returns (moves: seq<Move>, h: History, e: int)
    requires IsStart(start) && StateSchema(start)
    ensures Played(start, limits, moves) == Ok(h)
    ensures Shows(limits, AfterCalls(Disk([start], map[], []), limits, calls), h, e)
  {
    hide SchemaShape, Extended, Shows, AfterCall, IsStart;
    var first := Disk([start], map[], []);
    if calls == [] {
      moves, h, e := [], History(start, []), 0;
      StartShows(start, limits);
    } else {
      var before, call := calls[..|calls| - 1], calls[|calls| - 1];
      var move;
      var h0;
      moves, h0, e := StoreShowsHistory(start, limits, before);
      h, e, move := CallShows(limits, AfterCalls(first, limits, before), h0, e, call);
      if move.Some? {
        assert (moves + [move.value])[..|moves|] == moves;
        moves := moves + [move.value];
      }
    }
  }

  /** The effects of each step are started at most once, over any calls with any faults. */
  lemma AtMostOnce(start: State, limits: Limits, calls: seq<Call>)
    requires IsStart(start) && StateSchema(start)
    ensures NoRepeats(AfterCalls(Disk([start], map[], []), limits, calls).performed)
  {
    var _, _, _ := StoreShowsHistory(start, limits, calls);
  }

  /** What is saved for an interrupted step is always accepted, and so is the recovered state. */
  lemma RecoveryNeverRejects(start: State, limits: Limits, calls: seq<Call>)
    requires IsStart(start) && StateSchema(start)
    ensures var d := AfterCalls(Disk([start], map[], []), limits, calls);
            AfterRecover(d, NoFault).1.Ok? <==> Current(d).activeStep.Some? && Current(d).sequence in d.steps
  {
    var _, _, _ := StoreShowsHistory(start, limits, calls);
  }

  /** The effects were performed, and their result reached the disk. */
  predicate ResultSaved(faults: Faults) {
    faults.started.NoFault? && !faults.result.Lost?
  }

  /**
    A run call that would succeed undisturbed succeeds or fails for a write; and
    recovering afterwards leaves exactly the store of the undisturbed call if the
    result is on disk, and another one if it is not.
  */
  lemma RecoveryIsTransparent(start: State, limits: Limits, calls: seq<Call>, elapsedMs: int,
                              perform: State -> Performance, faults: Faults)
    requires IsStart(start) && StateSchema(start)
    ensures var d := AfterCalls(Disk([start], map[], []), limits, calls);
            var undisturbed := AfterRun(d, limits, elapsedMs, perform, UNDISTURBED);
            var (disturbed, r) := AfterRun(d, limits, elapsedMs, perform, faults);
            undisturbed.1.Ok? ==>
              && r == (if faults == UNDISTURBED then undisturbed.1 else Err(WriteFailed))
              && (AfterRecover(disturbed, NoFault).0 == undisturbed.0 <==>
                    faults.started.NoFault? && !faults.result.Lost?)
  {
    var moves, h, e := StoreShowsHistory(start, limits, calls);
    var d := AfterCalls(Disk([start], map[], []), limits, calls);
    if AfterRun(d, limits, elapsedMs, perform, UNDISTURBED).1.Ok? {
      if ResultSaved(faults) {
        CutOffRecovers(limits, d, h, e, elapsedMs, perform, faults);
      } else {
        UnsavedIsLost(limits, d, h, e, elapsedMs, perform, faults);
      }
    }
  }

  const UNDISTURBED: Faults := Faults(NoFault, NoFault, NoFault)

  lemma CutOffRecovers(limits: Limits, d: Disk, h: History, e: int, elapsedMs: int, perform: State -> Performance,
                       faults: Faults)
    requires Shows(limits, d, h, e) && ResultSaved(faults)
    requires AfterRun(d, limits, elapsedMs, perform, UNDISTURBED).1.Ok?
    ensures AfterRun(d, limits, elapsedMs, perform, faults).1
         == if faults == UNDISTURBED then AfterRun(d, limits, elapsedMs, perform, UNDISTURBED).1 else Err(WriteFailed)
    ensures AfterRecover(AfterRun(d, limits, elapsedMs, perform, faults).0, NoFault).0
         == AfterRun(d, limits, elapsedMs, perform, UNDISTURBED).0
  {
    hide Begin, StateSchema, SchemaShape, OutcomeSchema, Finishing, StepOutput;
    var active := Begin(Current(d), limits, elapsedMs).value;
    BegunIsNext(Current(d), limits, elapsedMs);
    BeginKeepsSchema(Current(d), limits, elapsedMs);
    var started := PutState(d, active, NoFault);
    var performed := started.(performed := d.performed + [active.sequence]);
    var outcome := RecordedOutcome(active, perform(active));
    RecordedFinishes(active, perform(active));
    SavedOnce(active);
    FinishedIsIdle(active, outcome);
    var saved := PutStep(performed, RecordOf(active, outcome), NoFault);
    assert saved.steps[active.sequence] == [RecordOf(active, outcome)];
  }

  /** Without a saved result recovery cannot make up for the lost call. */
  lemma UnsavedIsLost(limits: Limits, d: Disk, h: History, e: int, elapsedMs: int, perform: State -> Performance,
                      faults: Faults)
    requires Shows(limits, d, h, e) && !ResultSaved(faults)
    requires AfterRun(d, limits, elapsedMs, perform, UNDISTURBED).1.Ok?
    ensures AfterRun(d, limits, elapsedMs, perform, faults).1 == Err(WriteFailed)
    ensures AfterRecover(AfterRun(d, limits, elapsedMs, perform, faults).0, NoFault).0
         != AfterRun(d, limits, elapsedMs, perform, UNDISTURBED).0
  {
    hide Begin, StateSchema, SchemaShape, OutcomeSchema, Finishing, StepOutput;
    var active := Begin(Current(d), limits, elapsedMs).value;
    BegunIsNext(Current(d), limits, elapsedMs);
    var disturbed := AfterRun(d, limits, elapsedMs, perform, faults).0;
    assert active.sequence !in disturbed.steps;
    assert active.sequence in AfterRun(d, limits, elapsedMs, perform, UNDISTURBED).0.steps;
    assert AfterRecover(disturbed, NoFault).0.steps == disturbed.steps;
  }

  lemma FinishedIsIdle(active: State, outcome: Outcome)
    requires Finishing(active, active.sequence, outcome, StepOutput(active.runId, active.sequence)).Ok?
    ensures Finishing(active, active.sequence, outcome,
                      StepOutput(active.runId, active.sequence)).value.activeStep.None?
  {
  }

  // ------------------------------------------------------------ a whole run

  /** Performing never dies, and an exception has a text. */
  ghost predicate Responds(perform: State -> Performance) {
    forall s: State :: !perform(s).Died? && perform(s) != Threw("")
  }

  ghost predicate CleansUp(perform: State -> Performance) {
    forall s: State :: s.phase.Finish? ==> perform(s) == Returned(Finished)
  }

  lemma ShapeFacts(s: State)
    requires SchemaShape(s)
    ensures IsRevision(s.workingRevision) && s.sequence >= 0
  {
  }

  lemma UndisturbedSucceeds(limits: Limits, d: Disk, h: History, e: int, elapsedMs: int, perform: State -> Performance)
    requires Shows(limits, d, h, e) && MayBegin(Current(d), limits, elapsedMs) && Responds(perform)
    requires Current(d).sequence < MAX_SAFE_INTEGER
    ensures AfterRun(d, limits, elapsedMs, perform, UNDISTURBED).1.Ok?
  {
    hide Begin, MayBegin, SchemaShape, Finishing, StepOutput;
    TwoBeginsReserve(Current(d), limits, elapsedMs);
    BegunIsNext(Current(d), limits, elapsedMs);
    BeginKeepsSchema(Current(d), limits, elapsedMs);
    ShapeFacts(Current(d));
    ShapeFacts(Begin(Current(d), limits, elapsedMs).value);
    var active := Begin(Current(d), limits, elapsedMs).value;
    var outcome := RecordedOutcome(active, perform(active));
    assert OutcomeSchema(outcome);
    RecordedFinishes(active, perform(active));
    SavedOnce(active);
  }

  /** A call that succeeds has advanced the saved state by one step, whose result is saved with it. */
  lemma SuccessAdvances(limits: Limits, d: Disk, h: History, e: int, elapsedMs: int, perform: State -> Performance,
                        faults: Faults)
    returns (h': History, e': int, move: Move)
    requires Shows(limits, d, h, e) && AfterRun(d, limits, elapsedMs, perform, faults).1.Ok?
    ensures var (d', r) := AfterRun(d, limits, elapsedMs, perform, faults);
            && Extended(h, limits, move) == Ok(h') && Shows(limits, d', h', e')
            && r.value == Current(d') == h'.state && h'.state.sequence == h.state.sequence + 1
            && Versions(d', h'.state.sequence) == [h'.records[|h.records|]]
  {
    hide Begin, StateSchema, SchemaShape, OutcomeSchema, Finishing, StepOutput, Extended;
    var moved;
    h', e', moved := RunShows(limits, d, h, e, elapsedMs, perform, faults);
    BegunIsNext(Current(d), limits, elapsedMs);
    SuccessIsIdle(d, limits, elapsedMs, perform, faults);
    move := moved.value;
    ExtendedRecords(h, limits, move);
  }

  lemma SuccessIsIdle(d: Disk, limits: Limits, elapsedMs: int, perform: State -> Performance, faults: Faults)
    requires d.states != [] && AfterRun(d, limits, elapsedMs, perform, faults).1.Ok?
    ensures var (d', r) := AfterRun(d, limits, elapsedMs, perform, faults);
            && Current(d') == r.value && r.value.activeStep.None? && r.value.sequence == Current(d).sequence + 1
            && r.value.elapsedMs == elapsedMs
  {
    hide StateSchema, SchemaShape, OutcomeSchema, StepOutput, Begin, Expected, RevisionFault, NextPhase, NextStopReason,
      NextTargetMet;
    BegunIsNext(Current(d), limits, elapsedMs);
  }

  lemma ExtendedRecords(h: History, limits: Limits, move: Move)
    requires Extended(h, limits, move).Ok?
    ensures |Extended(h, limits, move).value.records| == |h.records| + 1
    ensures var h' := Extended(h, limits, move).value;
            h'.records[..|h.records|] == h.records
            && (h'.records[|h.records|].phase.Finish? ==>
                (h'.state.phase.Done? <==> !h'.records[|h.records|].outcome.Failed?))
  {
    hide LimitsAllow, NextStopReason, NextTargetMet, StepOutput;
    TwoBeginsReserve(h.state, limits, move.elapsedMs);
  }

  /** What a successful call saves: the step it began and how performing it was recorded. */
  lemma SuccessSaves(d: Disk, limits: Limits, elapsedMs: int, perform: State -> Performance, faults: Faults)
    requires d.states != [] && AfterRun(d, limits, elapsedMs, perform, faults).1.Ok?
    ensures var active := Begin(Current(d), limits, elapsedMs).value;
            var (d', r) := AfterRun(d, limits, elapsedMs, perform, faults);
            && !perform(active).Died?
            && r.value.sequence == active.sequence
            && Versions(d', r.value.sequence) == [RecordOf(active, RecordedOutcome(active, perform(active)))]
  {
    hide StateSchema, SchemaShape, OutcomeSchema, StepOutput, Begin, Expected, RevisionFault, NextPhase, NextStopReason,
      NextTargetMet;
    BegunIsNext(Current(d), limits, elapsedMs);
  }

  /** When performing the clean-up answers that it is finished, that is what is saved. */
  lemma CleanUpFinishes(active: State, perform: State -> Performance)
    requires CleansUp(perform) && active.phase.Finish? && active.activeStep == Some(active.sequence)
    ensures !perform(active).Died? && RecordedOutcome(active, perform(active)) == Finished
  {
  }
}
