/**
  What can be loaded, saved and recovered, told from the fields themselves.
*/
module DriverLaws {
  import opened Numbers
  import opened Wrappers
  import opened RunState
  import opened RunHistory
  import opened RunLaws
  import opened Campaign
  import opened Driver

  predicate IsCommit(revision: string) {
    |revision| == 40 && forall i :: 0 <= i < 40 ==> IsHex(revision[i])
  }

  /** The state that a run starts from can be loaded exactly when what it takes over is in order. */
  lemma StartLoads(runId: string, revision: string, initialRevision: string, attempts: int, piCalls: int,
                   elapsedMs: int)
    ensures var start := StartState(runId, revision, initialRevision, attempts, piCalls, elapsedMs);
            start.Ok? ==>
              (StateSchema(start.value) <==>
                 && IsCommit(initialRevision) && 0 <= attempts <= MAX_SAFE_INTEGER
                 && 0 <= piCalls <= MAX_SAFE_INTEGER && 0 <= elapsedMs <= MAX_SAFE_INTEGER)
    ensures NewRun(runId, revision).Ok? ==> StateSchema(NewRun(runId, revision).value)
  {
    RevisionIsHex(initialRevision);
  }

  /** A loaded state names a run that can be started again from its codes, as a replay of it does. */
  lemma LoadedCanBeReplayed(s: State)
    requires StateSchema(s)
    ensures var start := StartState(s.runId, s.bestRevision, s.initialRevision, s.attemptsStarted, s.piCallsStarted, 0);
            start.Ok? && IsStart(start.value) && StateSchema(start.value)
  {
    hide IsRevision, IsRunId;
  }

  /** From a loaded state a step begins unless the run is over or in a step or time has gone back. */
  lemma LoadedStateBegins(s: State, limits: Limits, elapsedMs: int)
    requires StateSchema(s)
    requires 1 <= limits.maxAttempts <= MAX_SAFE_INTEGER && 0 <= limits.maxRepairsPerAttempt <= MAX_SAFE_INTEGER
    requires 1 <= limits.maxPiCalls <= MAX_SAFE_INTEGER && 1 <= limits.maxDurationMs <= MAX_SAFE_INTEGER
    ensures Begin(s, limits, elapsedMs).Ok? <==>
      !s.phase.Done? && s.activeStep.None? && s.elapsedMs <= elapsedMs <= MAX_SAFE_INTEGER
  {
    hide IsRevision, IsRunId, Begin;
    BeginsExactly(s, limits, elapsedMs);
  }

  /**
    Whatever a loaded active step may finish with can be saved and read back,
    but for an error without a text; and every output that the state refers to
    is one that a finish takes.
  */
  lemma AcceptedIsSaved(s: State, outcome: Outcome, output: OutputReference)
    requires StateSchema(s)
    ensures Finishing(s, s.sequence, outcome, output).Ok? ==>
      (RecordSchema(RecordOf(s, outcome)) <==> outcome != Failed(""))
    ensures forall p :: p in s.outputs ==> Finishing(s, s.sequence, outcome, s.outputs[p]) != Err(NoSavedOutput)
  {
    hide IsRevision, IsRunId, NextPhase, NextStopReason, NextTargetMet;
    forall p | p in s.outputs ensures Finishing(s, s.sequence, outcome, s.outputs[p]) != Err(NoSavedOutput) {
      FinishesExactly(s, s.sequence, outcome, s.outputs[p]);
    }
  }

  predicate HasRevision(o: Outcome) {
    o.Measured? || o.Edited? || o.Tested? || o.Reviewed? || o.Kept? || o.Discarded?
  }

  /** A saved result reads back: its number is in range, it names commits, and an error has a text. */
  predicate ReadsBack(r: Record) {
    && 1 <= r.step <= MAX_SAFE_INTEGER && IsCommit(r.revision)
    && (HasRevision(r.outcome) ==> IsCommit(r.outcome.revision))
    && (r.outcome.Failed? ==> r.outcome.message != "")
  }

  lemma RecordReadsBack(r: Record)
    ensures RecordSchema(r) <==> ReadsBack(r)
  {
    hide IsRevision, IsHex;
    RevisionIsHex(r.revision);
    if HasRevision(r.outcome) {
      RevisionIsHex(r.outcome.revision);
    }
  }

  /**
    On any store whatever, recovery succeeds exactly when the last state loads
    and has an active step, and the first version of that step's result reads
    back, is of this step, phase and code, and is one that the step can end with;
    each failure has its own cause.
  */
  lemma RecoversExactly(d: Disk, fault: Fault)
    requires d.states != []
    ensures var s, versions, r := Current(d), Versions(d, Current(d).sequence), AfterRecover(d, fault).1;
            if !StateSchema(s) then r == Err(SchemaViolated)
            else if s.activeStep.None? then r == Err(NothingToRecover)
            else if versions == [] then r == Err(NoSavedResult)
            else if !ReadsBack(versions[0]) then r == Err(SchemaViolated)
            else if !(versions[0].step == s.sequence && versions[0].phase == s.phase
                      && versions[0].revision == s.workingRevision) then r == Err(ResultMismatch)
            else if !(Fits(s.phase, versions[0].outcome)
                      && NamesItsCode(versions[0].outcome, s.workingRevision, s.bestRevision))
            then r.Err? && r.error.Rejected?
            else if fault.NoFault? then r.Ok? else r == Err(WriteFailed)
    ensures var (d', r) := AfterRecover(d, fault);
            && (r.Ok? ==> d' == d.(states := d.states + [r.value]))
            && (r.Err? && (r.error != WriteFailed || fault.Lost?) ==> d' == d)
  {
    hide RecordSchema, ReadsBack, Fits, NamesItsCode, Finishing, IsRevision, IsRunId;
    var s, versions := Current(d), Versions(d, Current(d).sequence);
    if StateSchema(s) && s.activeStep.Some? && versions != [] {
      RecordReadsBack(versions[0]);
      OutputIsNamed(s.runId, s.sequence);
      FinishesExactly(s, s.sequence, versions[0].outcome, StepOutput(s.runId, s.sequence));
    }
  }

  lemma OutputIsNamed(runId: string, step: int)
    ensures StepOutput(runId, step).name != "" && StepOutput(runId, step).version == 1
  {
  }
}
