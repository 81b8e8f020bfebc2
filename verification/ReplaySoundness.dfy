/**
  What the verifier's replay is worth on evidence that may be anything: whatever
  it certifies is what the engine itself does.
*/
module ReplaySoundness {
  import opened Wrappers
  import opened RunState
  import opened RunHistory
  import opened Campaign

  /**
    The moves that the replay of the first k steps makes: all at the first time,
    but the last of all at the final one.
  */
  function ReplayMoves(first: State, steps: seq<Record>, finalElapsedMs: int, k: nat): (moves: seq<Move>)
    requires k <= |steps|
    ensures |moves| == k
  {
    if k == 0 then []
    else
      ReplayMoves(first, steps, finalElapsedMs, k - 1)
      + [Move(if k == |steps| then finalElapsedMs else first.elapsedMs, steps[k - 1].outcome)]
  }

  /** A replayed step is the engine's own next step, with just this record. */
  lemma ReplayExtends(h: History, limits: Limits, step: Record, elapsedMs: int)
    ensures ReplayStep(h.state, limits, step, elapsedMs).Ok? <==>
      && Extended(h, limits, Move(elapsedMs, step.outcome)).Ok?
      && Extended(h, limits, Move(elapsedMs, step.outcome)).value.records == h.records + [step]
    ensures ReplayStep(h.state, limits, step, elapsedMs).Ok? ==>
      && Extended(h, limits, Move(elapsedMs, step.outcome)).value.state
          == ReplayStep(h.state, limits, step, elapsedMs).value
      && Extended(h, limits, Move(elapsedMs, step.outcome)).value.state.elapsedMs == elapsedMs
  {
    hide LimitsAllow, Expected, RevisionFault, NextPhase, NextStopReason, NextTargetMet, StepOutput, Settled;
    var extended := Extended(h, limits, Move(elapsedMs, step.outcome));
    TwoBeginsReserve(h.state, limits, elapsedMs);
    if extended.Ok? {
      assert extended.value.records[|h.records|] == (h.records + [step])[|h.records|] <==>
        extended.value.records == h.records + [step];
    }
  }

  lemma {:induction false} ReplayPlays(first: State, limits: Limits, steps: seq<Record>, finalElapsedMs: int, k: nat)
    requires k <= |steps|
    ensures var played := Played(first, limits, ReplayMoves(first, steps, finalElapsedMs, k));
            var replay := Replay(first, limits, steps, finalElapsedMs, k);
            && (replay.Ok? <==> played.Ok? && played.value.records == steps[..k])
            && (replay.Ok? ==> played.value.state == replay.value)
            && (replay.Ok? && k < |steps| ==> replay.value.elapsedMs == first.elapsedMs)
  {
    hide ReplayStep, Extended;
    if k > 0 {
      ReplayPlays(first, limits, steps, finalElapsedMs, k - 1);
      var moves := ReplayMoves(first, steps, finalElapsedMs, k);
      assert moves[..k - 1] == ReplayMoves(first, steps, finalElapsedMs, k - 1);
      assert steps[..k] == steps[..k - 1] + [steps[k - 1]];
      var before := Played(first, limits, moves[..k - 1]);
      if before.Ok? {
        OneRecordEach(first, limits, moves[..k - 1]);
        PlayedGrows(before.value, limits, moves[k - 1], steps[..k - 1], steps[k - 1]);
        ReplayExtends(before.value, limits, steps[k - 1], moves[k - 1].elapsedMs);
      }
    }
  }

  /** A longer history has the longer records exactly when the shorter has the shorter and the last is this. */
  lemma PlayedGrows(h: History, limits: Limits, move: Move, steps: seq<Record>, last: Record)
    requires |h.records| == |steps|
    ensures Extended(h, limits, move).Ok? ==>
      (Extended(h, limits, move).value.records == steps + [last] <==>
         h.records == steps && Extended(h, limits, move).value.records == h.records + [last])
  {
    hide Begin, Finishing, StepOutput;
    if Extended(h, limits, move).Ok? {
      ExtendsBy(h, limits, move);
      var records := Extended(h, limits, move).value.records;
      assert (steps + [last])[..|steps|] == steps;
      assert records[..|h.records|] == h.records;
    }
  }

  /** The saved state says of a run what its history says; a run abandoned in a step has that step begun besides. */
  ghost predicate StateAgrees(h: History, state: State) {
    && state.sequence == |h.records| + (if state.activeStep.Some? then 1 else 0)
    && state.phase == h.state.phase
    && state.workingRevision == h.state.workingRevision && state.bestRevision == h.state.bestRevision
    && state.targetMet == h.state.targetMet
    && (state.activeStep.None? <==> state.phase.Done?)
  }

  /**
    The reservations that the saved state counts are those of the history and of
    the step in progress, within budget.
  */
  ghost predicate CountersAgree(h: History, limits: Limits, state: State) {
    var inStep := state.activeStep.Some?;
    && state.attemptsStarted == h.state.attemptsStarted + (if inStep && state.phase.StartAttempt? then 1 else 0)
    && state.piCallsStarted == h.state.piCallsStarted + (if inStep && state.phase in PI_PHASES then 1 else 0)
    && state.attemptsStarted <= limits.maxAttempts && state.piCallsStarted <= limits.maxPiCalls
  }

  /**
    Before any step only the very first one may be in progress; after that the
    first one must have prepared the run.
  */
  ghost predicate WasPrepared(h: History, state: State) {
    if h.records == [] then
      state.activeStep == Some(1) && state.phase.Prepare? && state.bestRevision == state.initialRevision
    else h.records[0].phase.Prepare? && h.records[0].outcome.Prepared?
  }

  /**
    On any evidence whatever the replay certifies exactly what the engine does:
    played from the same start with the same outcomes, it makes just these steps,
    field by field, and ends in what the saved state says.
  */
  lemma CertifiesExactly(first: State, limits: Limits, steps: seq<Record>, state: State)
    requires IsStart(first)
    ensures var played := Played(first, limits, ReplayMoves(first, steps, state.elapsedMs, |steps|));
            Certifies(first, limits, steps, state) <==>
              && played.Ok? && played.value.records == steps
              && StateAgrees(played.value, state) && CountersAgree(played.value, limits, state)
              && WasPrepared(played.value, state)
  {
    hide Replay, Played, IsStart, CountIn;
    ReplayPlays(first, limits, steps, state.elapsedMs, |steps|);
    assert steps[..|steps|] == steps;
    var moves := ReplayMoves(first, steps, state.elapsedMs, |steps|);
    if Played(first, limits, moves).Ok? {
      EveryHistoryIsSound(first, limits, moves);
      StartDone(first, limits, moves);
    }
  }

  lemma StartDone(first: State, limits: Limits, moves: seq<Move>)
    requires IsStart(first) && Played(first, limits, moves).Ok?
    ensures Played(first, limits, moves).value.records == [] ==> !Played(first, limits, moves).value.state.phase.Done?
  {
    hide Extended;
    OneRecordEach(first, limits, moves);
  }

  /** These moves lead from the start through just these steps to what the saved state says. */
  ghost predicate PlaysTo(first: State, limits: Limits, moves: seq<Move>, steps: seq<Record>, state: State) {
    var played := Played(first, limits, moves);
    && played.Ok? && played.value.records == steps
    && StateAgrees(played.value, state) && CountersAgree(played.value, limits, state)
  }

  /** So for whatever is certified there are moves with which the engine does it. */
  lemma CertifiedWasPlayed(first: State, limits: Limits, steps: seq<Record>, state: State)
    requires IsStart(first) && Certifies(first, limits, steps, state)
    ensures exists moves :: PlaysTo(first, limits, moves, steps, state)
  {
    hide Certifies, Played, StateAgrees, CountersAgree, WasPrepared, IsStart;
    CertifiesExactly(first, limits, steps, state);
    assert PlaysTo(first, limits, ReplayMoves(first, steps, state.elapsedMs, |steps|), steps, state);
  }
}
