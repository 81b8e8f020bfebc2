/**
  What the verifier's acceptance is worth on evidence that may be anything: the
  run was played, and every change it kept was measured to improve on the one
  before.
*/
module VerdictSoundness {
  import opened Wrappers
  import opened Control
  import opened ScoreGrowth
  import opened RunState
  import opened RunHistory
  import opened Campaign
  import opened ScoredRuns
  import opened ReplaySoundness

  /**
    The i-th kept change is that of the i-th keep step: measured two steps
    before, of the kept code, and found valid.
  */
  ghost predicate ItemIsBacked(steps: seq<Record>, readings: seq<Option<Reading>>, k: nat, item: Kept) {
    && 3 <= k < |steps| == |readings| && IsKeep(steps[k])
    && PassedTest(steps[k - 3], steps[k].outcome.revision) && PassedReview(steps[k - 1], steps[k].outcome.revision)
    && steps[k - 2].phase.Measure? && steps[k - 2].outcome.Measured?
    && readings[k - 2].Some? && readings[k - 2].value.measurement == item.measurement
    && item.measurement.revision == steps[k].outcome.revision == steps[k - 2].outcome.revision
    && readings[k - 2].value.comparison == Some(item.saved) && IsValid(item.saved)
    && item.valid == steps[k - 2].outcome.valid && item.improved == steps[k - 2].outcome.improved
    && item.targetMet == steps[k - 2].outcome.targetMet
  }

  lemma ItemBacked(steps: seq<Record>, readings: seq<Option<Reading>>, k: nat)
    requires |steps| == |readings| && KeepsJustified(steps) && k < |steps| && IsKeep(steps[k])
    requires KeptItem(steps, readings, k).Some?
    ensures ItemIsBacked(steps, readings, k, KeptItem(steps, readings, k).value)
  {
    hide KeepsJustified, GroundsOf;
    GroundsOfGenuine(steps, k);
    assert Justified(steps, k) by { KeepIsJustified(steps, k); }
  }

  lemma KeepIsJustified(steps: seq<Record>, k: nat)
    requires KeepsJustified(steps) && k < |steps| && IsKeep(steps[k])
    ensures Justified(steps, k)
  {
  }

  ghost predicate AllBacked(steps: seq<Record>, readings: seq<Option<Reading>>, keeps: seq<nat>, items: seq<Kept>) {
    |items| == |keeps| && forall i :: 0 <= i < |keeps| ==> ItemIsBacked(steps, readings, keeps[i], items[i])
  }

  lemma {:induction false} ItemsBacked(steps: seq<Record>, readings: seq<Option<Reading>>, n: nat)
    requires n <= |steps| == |readings| && KeepsJustified(steps) && KeptItems(steps, readings, n).Some?
    ensures AllBacked(steps, readings, KeepSteps(steps, n), KeptItems(steps, readings, n).value)
  {
    hide KeptItem, ItemIsBacked, KeepsJustified;
    if n > 0 {
      ItemsBacked(steps, readings, n - 1);
      if IsKeep(steps[n - 1]) {
        ItemBacked(steps, readings, n - 1);
      }
    }
  }

  /** The baseline, if there is one, was measured of the code of its step, and its comparison found valid. */
  ghost predicate BaselineIsBacked(steps: seq<Record>, readings: seq<Option<Reading>>, baseline: Option<Measurement>) {
    if GoodBaseline(steps) then
      && |readings| == |steps| && readings[1].Some? && baseline == Some(readings[1].value.measurement)
      && readings[1].value.measurement.revision == steps[1].revision
      && readings[1].value.comparison.Some? && IsValid(readings[1].value.comparison.value)
    else baseline.None?
  }

  lemma BaselineBacked(steps: seq<Record>, readings: seq<Option<Reading>>)
    requires |steps| == |readings| && OpensRightly(steps) && VerifiedBaseline(steps, readings).Ok?
    ensures BaselineIsBacked(steps, readings, VerifiedBaseline(steps, readings).value)
  {
    FindBaselineIs(steps, 0);
  }

  /** All that acceptance stands for. */
  ghost predicate StandsFor(policy: Policy, parent: Option<Parent>, steps: seq<Record>, readings: seq<Option<Reading>>,
                            state: State, baseline: Option<Measurement>, first: Option<Measurement>, items: seq<Kept>,
                            passed: Parent) {
    && BaselineIsBacked(steps, readings, baseline)
    && AllBacked(steps, readings, KeepSteps(steps, |steps|), items)
    && passed.initial == InitialOf(parent, baseline) && passed.bestRevision == state.bestRevision
    && passed.best == (if items == [] then first else Some(items[|items| - 1].measurement))
    && (items != [] ==>
          && passed.initial.Some? && first.Some?
          && Chain(policy, passed.initial.value, first.value, Measurements(items)))
  }

  /**
    Whatever evidence the verifier accepts, the run in it was played by the
    engine; its baseline and every kept change are backed by a valid measurement
    of their code; and the kept measurements form a chain from what the run
    started with, so each workload of the goal has grown by the required factor
    with every one of them.
  */
  lemma VerdictIsSound(first: State, limits: Limits, policy: Policy, parent: Option<Parent>, steps: seq<Record>,
                       readings: seq<Option<Reading>>, state: State)
    requires IsStart(first) && |steps| == |readings|
    requires Verdict(first, limits, policy, parent, steps, readings, state).Ok?
    ensures exists moves :: PlaysTo(first, limits, moves, steps, state)
    ensures VerifiedBaseline(steps, readings).Ok? && KeptItems(steps, readings, |steps|).Some?
    ensures var baseline, items := VerifiedBaseline(steps, readings).value, KeptItems(steps, readings, |steps|).value;
            var best := FirstBest(policy, parent, baseline, EndingOf(state));
            && best.Ok?
            && StandsFor(policy, parent, steps, readings, state, baseline, best.value, items,
                         Verdict(first, limits, policy, parent, steps, readings, state).value)
  {
    hide IsStart, Certifies, VerifiedBaseline, KeptItems, FirstBest, PlaysTo, AcceptedComparison, Chain,
      BaselineIsBacked, AllBacked, Genuine, KeepSteps;
    CertifiedWasPlayed(first, limits, steps, state);
    var moves :| PlaysTo(first, limits, moves, steps, state);
    PlayedIsGenuine(first, limits, moves, steps, state);
    GenuineParts(steps);
    BaselineBacked(steps, readings);
    ItemsBacked(steps, readings, |steps|);
    var baseline, items := VerifiedBaseline(steps, readings).value, KeptItems(steps, readings, |steps|).value;
    var best := FirstBest(policy, parent, baseline, EndingOf(state)).value;
    if items != [] {
      assert KeptAt(policy, InitialOf(parent, baseline), best, items, 0);
      VerifiedIsChain(policy, InitialOf(parent, baseline).value, best.value, items);
    }
  }

  lemma PlayedIsGenuine(first: State, limits: Limits, moves: seq<Move>, steps: seq<Record>, state: State)
    requires IsStart(first) && PlaysTo(first, limits, moves, steps, state)
    ensures Genuine(steps)
  {
    hide IsStart, Played, StateAgrees, CountersAgree;
    EveryHistoryIsGenuine(first, limits, moves);
    IsGenuine(Played(first, limits, moves).value);
  }

  lemma GenuineParts(steps: seq<Record>)
    requires Genuine(steps)
    ensures OpensRightly(steps) && KeepsJustified(steps)
  {
  }
}
