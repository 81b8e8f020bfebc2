/**
  The loop that drives a run to its end, one saved step after the other.
*/
module Execution {
  import opened Numbers
  import opened Wrappers
  import opened RunState
  import opened RunHistory
  import opened Driver

  function Max(a: int, b: int): int {
    if a < b then b else a
  }

  /**
    What the loop meets outside the store: the performer, the fate of its
    writes, the clock, and the checks of its surroundings.
  */
  datatype Surroundings = Surroundings(
    perform: State -> Performance, faults: nat -> Faults, elapsed: nat -> int,
    supported: nat -> bool, sameClient: bool, abandoned: bool)

  /** Nothing fails around the steps: no write is disturbed, performing answers and cleans up, time fits an integer. */
  ghost predicate Calm(limits: Limits, w: Surroundings) {
    && ValidLimits(limits) && Responds(w.perform) && CleansUp(w.perform)
    && (forall i :: w.faults(i) == UNDISTURBED) && (forall i :: w.elapsed(i) <= MAX_SAFE_INTEGER)
    && (forall i :: w.supported(i)) && w.sameClient && !w.abandoned
  }

  /** The steps that the budgets still pay for. */
  ghost function StepsLeft(limits: Limits, h: History): int {
    3 * (limits.maxAttempts + limits.maxPiCalls) + 3 + FailedFinishes(h.records) - |h.records|
  }

  lemma StepsLeftIsNat(start: State, limits: Limits, moves: seq<Move>, h: History)
    requires IsStart(start) && start.attemptsStarted <= limits.maxAttempts && start.piCallsStarted <= limits.maxPiCalls
    requires Played(start, limits, moves) == Ok(h)
    ensures StepsLeft(limits, h) >= Slack(h.state.phase)
    ensures |h.records| == h.state.sequence
  {
    StepsAreBounded(start, limits, moves);
  }

  lemma PlayedOn(start: State, limits: Limits, moves: seq<Move>, h: History, move: Move, h': History)
    requires Played(start, limits, moves) == Ok(h) && Extended(h, limits, move) == Ok(h')
    ensures Played(start, limits, moves + [move]) == Ok(h')
  {
    hide Extended;
    assert (moves + [move])[..|moves|] == moves;
  }

  /** However a call ends, the store shows a history that goes on from the one before. */
  lemma CallGoesOn(start: State, limits: Limits, moves: seq<Move>, h: History, d: Disk, e: int, elapsedMs: int,
                   perform: State -> Performance, faults: Faults)
    returns (moves': seq<Move>, h': History, e': int)
    requires Played(start, limits, moves) == Ok(h) && Shows(limits, d, h, e)
    ensures Played(start, limits, moves') == Ok(h')
            && Shows(limits, AfterRun(d, limits, elapsedMs, perform, faults).0, h', e')
  {
    hide Extended, Shows, AfterRun;
    var move;
    h', e', move := CallShows(limits, d, h, e, Run(elapsedMs, perform, faults));
    moves' := moves;
    if move.Some? {
      PlayedOn(start, limits, moves, h, move.value, h');
      moves' := moves + [move.value];
    }
  }

  /** Between two steps of a run in progress the engine's numbers are in order, so the next step can begin. */
  lemma MayGoOn(start: State, limits: Limits, moves: seq<Move>, h: History, elapsedMs: int)
    requires IsStart(start) && start.attemptsStarted <= limits.maxAttempts && start.piCallsStarted <= limits.maxPiCalls
    requires Played(start, limits, moves) == Ok(h) && !h.state.phase.Done? && ValidLimits(limits)
    requires 0 <= h.state.elapsedMs <= elapsedMs <= MAX_SAFE_INTEGER
    ensures MayBegin(h.state, limits, elapsedMs)
  {
    hide Played;
    EveryHistoryIsSound(start, limits, moves);
  }

  /** A successful step uses up one of the steps left, unless it is a clean-up that failed. */
  lemma SuccessCosts(limits: Limits, h: History, move: Move)
    requires Extended(h, limits, move).Ok?
    ensures var h' := Extended(h, limits, move).value;
            && |h'.records| == |h.records| + 1
            && ((h'.records[|h.records|].phase.Finish? ==> h'.state.phase.Done?) ==>
                StepsLeft(limits, h') == StepsLeft(limits, h) - 1)
  {
    ExtendedRecords(h, limits, move);
  }

  /**
    Runs saved steps until the run is done.  `elapsed(i)` is the time since the
    campaign started when the i-th step begins, `faults(i)` what happens to the
    step's writes, `supported(i)` whether the i-th check of the support snapshot
    passes.  The loop always ends, and it ends with a finished run unless
    something outside failed.
  */
  method ExecuteRun(store: Store, limits: Limits, w: Surroundings, ghost start: State, ghost before: seq<Move>,
                    ghost h0: History, ghost e0: int)
    returns (r: Result<State, Failure>, ghost moves: seq<Move>, ghost h: History)
    requires IsStart(start) && start.attemptsStarted <= limits.maxAttempts && start.piCallsStarted <= limits.maxPiCalls
    requires Played(start, limits, before) == Ok(h0) && Shows(limits, store.OnDisk(), h0, e0)
    modifies store
    ensures Played(start, limits, moves) == Ok(h) && exists e :: Shows(limits, store.OnDisk(), h, e)
    ensures r.Ok? ==> r.value.phase.Done? && r.value == h.state == Current(store.OnDisk())
    ensures (&& Calm(limits, w) && old(Current(store.OnDisk()).activeStep.None?)
             && old(StateSchema(Current(store.OnDisk()))) && StepsLeft(limits, h0) + |h0.records| <= MAX_SAFE_INTEGER)
            ==> r.Ok?
  {
    hide StateSchema, SchemaShape, Begin, Extended, Played, Shows, AfterRun, Calm, StepsLeft;
    moves, h := before, h0;
    ghost var e := e0;
    ShowsCurrent(limits, store.OnDisk(), h, e);
    var state := store.states[|store.states| - 1];
    ghost var calm := Calm(limits, w) && StateSchema(state) && StepsLeft(limits, h0) + |h0.records| <= MAX_SAFE_INTEGER;
    if calm {
      CalmSurroundings(limits, w, 0);
    }
    if !StateSchema(state) {
      return Err(SchemaViolated), moves, h;
    }
    if !w.supported(0) {
      return Err(SupportChanged), moves, h;
    }
    if !w.sameClient {
      return Err(ClientChanged), moves, h;
    }
    if w.abandoned {
      return Err(RunAbandoned), moves, h;
    }
    if state.activeStep.Some? {
      return Err(Rejected(StepIsActive)), moves, h;
    }
    var round: nat := 0;
    while !state.phase.Done?
      invariant Played(start, limits, moves) == Ok(h) && Shows(limits, store.OnDisk(), h, e)
      invariant store.states != [] && state == Current(store.OnDisk()) == h.state
      invariant StepsLeft(limits, h) + |h.records| == StepsLeft(limits, h0) + |h0.records|
      invariant calm ==> StateSchema(state)
      decreases StepsLeft(limits, h)
    {
      ghost var d := store.OnDisk();
      var elapsedMs := Max(state.elapsedMs, w.elapsed(round));
      StepsLeftIsNat(start, limits, moves, h);
      if calm {
        CalmSurroundings(limits, w, round + 1);
      }
      if !w.supported(round + 1) {
        return Err(SupportChanged), moves, h;
      }
      var saved := store.RunSavedStep(limits, elapsedMs, w.perform, w.faults(round));
      if calm {
        CalmSucceeds(start, limits, moves, h, d, e, w, round);
      }
      if saved.Err? {
        moves, h, e := CallGoesOn(start, limits, moves, h, d, e, elapsedMs, w.perform, w.faults(round));
        return Err(saved.error), moves, h;
      }
      ghost var h', e', move := SuccessAdvances(limits, d, h, e, elapsedMs, w.perform, w.faults(round));
      PlayedOn(start, limits, moves, h, move, h');
      SuccessCosts(limits, h, move);
      ShowsCurrent(limits, store.OnDisk(), h', e');
      moves, h, e := moves + [move], h', e';
      state := saved.value;
      var result := store.steps[state.sequence][0];
      if result.phase.Finish? && !state.phase.Done? {
        return Err(CleanUpFailed), moves, h;
      }
      round := round + 1;
    }
    if calm {
      CalmSurroundings(limits, w, round + 1);
    }
    if !w.supported(round + 1) {
      return Err(SupportChanged), moves, h;
    }
    return Ok(state), moves, h;
  }

  lemma CalmSurroundings(limits: Limits, w: Surroundings, i: nat)
    requires Calm(limits, w)
    ensures w.supported(i) && w.sameClient && !w.abandoned
  {
  }

  lemma ShowsCurrent(limits: Limits, d: Disk, h: History, e: int)
    requires Shows(limits, d, h, e)
    ensures d.states != [] && SchemaShape(Current(d)) && (Current(d).activeStep.None? ==> Current(d) == h.state)
  {
  }

  /** In calm conditions a step succeeds, and a clean-up ends the run. */
  lemma CalmSucceeds(start: State, limits: Limits, moves: seq<Move>, h: History, d: Disk, e: int, w: Surroundings,
                     round: nat)
    requires IsStart(start) && start.attemptsStarted <= limits.maxAttempts && start.piCallsStarted <= limits.maxPiCalls
    requires Played(start, limits, moves) == Ok(h) && Shows(limits, d, h, e) && Current(d) == h.state
    requires Calm(limits, w) && !h.state.phase.Done? && StateSchema(h.state)
    requires StepsLeft(limits, h) + |h.records| <= MAX_SAFE_INTEGER
    ensures var elapsedMs := Max(h.state.elapsedMs, w.elapsed(round));
            var (d', r) := AfterRun(d, limits, elapsedMs, w.perform, w.faults(round));
            && r.Ok? && StateSchema(r.value)
            && |Versions(d', r.value.sequence)| == 1
            && (Versions(d', r.value.sequence)[0].phase.Finish? ==> r.value.phase.Done?)
  {
    hide Begin, Extended, Played, Shows, AfterRun, IsStart, IsRunId, IsRevision;
    var elapsedMs := Max(h.state.elapsedMs, w.elapsed(round));
    ShowsCurrent(limits, d, h, e);
    StepsLeftIsNat(start, limits, moves, h);
    MayGoOn(start, limits, moves, h, elapsedMs);
    UndisturbedSucceeds(limits, d, h, e, elapsedMs, w.perform);
    SuccessSaves(d, limits, elapsedMs, w.perform, w.faults(round));
    var h', e', move := SuccessAdvances(limits, d, h, e, elapsedMs, w.perform, w.faults(round));
    ShowsCurrent(limits, AfterRun(d, limits, elapsedMs, w.perform, w.faults(round)).0, h', e');
    ExtendedRecords(h, limits, move);
    assert Begin(h.state, limits, elapsedMs).Ok? by {
      TwoBeginsReserve(h.state, limits, elapsedMs);
    }
    BegunIsNext(h.state, limits, elapsedMs);
    var active := Begin(h.state, limits, elapsedMs).value;
    if active.phase.Finish? {
      CleanUpFinishes(active, w.perform);
    }
  }
}
