/**
  Runs together with their measurements: every valid measurement step has the
  outcome that comparing its scores gives.  The changes that any such run keeps
  grow step by step, and the verifier accepts the run exactly when its replay
  comes out and, on a restart, the parent's best was measured again closely enough.
*/
module ScoredRuns {
  import opened Wrappers
  import opened Control
  import opened ScoreGrowth
  import opened RunState
  import opened RunHistory
  import opened Campaign
  import Restarts
  import Driver

  /** What a measurement step saved: the measurement, and its comparison if there is one. */
  datatype Reading = Reading(measurement: Measurement, comparison: Option<Assessment>)

  function MeasurementOf(reading: Option<Reading>): Option<Measurement> {
    if reading.Some? then Some(reading.value.measurement) else None
  }

  // ------------------------------------------------------- the live engine

  lemma {:induction false} LastOfBound(records: seq<Record>, phase: Phase)
    ensures LastOf(records, phase) <= |records|
    ensures LastOf(records, phase) > 0 ==> records[LastOf(records, phase) - 1].phase == phase
  {
    if records != [] && records[|records| - 1].phase != phase {
      LastOfBound(records[..|records| - 1], phase);
    }
  }

  /** The reading behind the output of a phase, after the first n steps. */
  function OutputReading(records: seq<Record>, readings: seq<Option<Reading>>, phase: Phase, n: nat): Option<Reading>
    requires n <= |records| == |readings|
  {
    LastOfBound(records[..n], phase);
    var last := LastOf(records[..n], phase);
    if last == 0 then None else readings[last - 1]
  }

  /** The measurement that the last keep step noted, which was the last one then. */
  function KeptReading(records: seq<Record>, readings: seq<Option<Reading>>, n: nat): Option<Reading>
    requires n <= |records| == |readings|
  {
    LastOfBound(records[..n], Keep);
    var last := LastOf(records[..n], Keep);
    if last == 0 then None else OutputReading(records, readings, Measure, last - 1)
  }

  /** The best measurement that a candidate is compared with, before step n. */
  function LiveBest(parent: Option<Parent>, records: seq<Record>, readings: seq<Option<Reading>>,
                    n: nat): Option<Measurement>
    requires n <= |records| == |readings|
  {
    var baseline := MeasurementOf(OutputReading(records, readings, Baseline, n));
    if baseline.None? then None
    else if LastOf(records[..n], Keep) > 0 then MeasurementOf(KeptReading(records, readings, n))
    else RunBest(parent, baseline.value, None)
  }

  /** Where the run's own best takes over, the parent is passed on without its. */
  function ComparisonParent(parent: Option<Parent>, records: seq<Record>, readings: seq<Option<Reading>>,
                            n: nat): Option<Parent>
    requires n <= |records| == |readings|
  {
    var baseline := MeasurementOf(OutputReading(records, readings, Baseline, n));
    if parent.Some? && (LastOf(records[..n], Keep) > 0
                        || (baseline.Some? && parent.value.best.Some?
                            && FasterH1(baseline.value, parent.value.best.value)))
    then Some(parent.value.(best := None)) else parent
  }

  /** The comparison that the live run saves for a measurement in step k. */
  function LiveComparison(policy: Policy, parent: Option<Parent>, records: seq<Record>, readings: seq<Option<Reading>>,
                          k: nat, current: Measurement): Option<Assessment>
    requires k < |records| == |readings|
  {
    if records[k].phase.Baseline? then
      var initial := InitialOf(parent, Some(current));
      Comparing(true, policy, initial, OrElse(ParentBest(parent), initial), Some(current), parent)
    else
      var baseline := MeasurementOf(OutputReading(records, readings, Baseline, k));
      Comparing(false, policy, InitialOf(parent, baseline), LiveBest(parent, records, readings, k), Some(current),
                ComparisonParent(parent, records, readings, k))
  }

  /** Step k measured the code it worked on, saved the comparison of its scores, and ended as that says. */
  predicate Scored(policy: Policy, parent: Option<Parent>, records: seq<Record>, readings: seq<Option<Reading>>, k: nat)
    requires k < |records| == |readings|
  {
    && readings[k].Some?
    && var reading := readings[k].value;
       && reading.measurement.revision == records[k].revision
       && reading.comparison == LiveComparison(policy, parent, records, readings, k, reading.measurement)
       && records[k].outcome == Judgement(records[k].phase.Baseline?, records[k].revision, parent, reading.comparison)
  }

  predicate IsValidMeasurement(r: Record) {
    r.outcome.Measured? && r.outcome.valid
  }

  /** Every valid measurement of a history is scored. */
  predicate AllScored(policy: Policy, parent: Option<Parent>, records: seq<Record>, readings: seq<Option<Reading>>)
    requires |records| == |readings|
  {
    forall k :: 0 <= k < |records| && IsValidMeasurement(records[k]) ==> Scored(policy, parent, records, readings, k)
  }

  // ---------------------------------------------- how histories are ordered

  /** Each step ends as its phase can, and only clean-ups follow a failure. */
  ghost predicate FailsInOrder(records: seq<Record>) {
    && (forall k :: 0 <= k < |records| ==> records[k].outcome.Failed? || Expected(records[k].phase, records[k].outcome))
    && (forall j, k :: 0 <= j < k < |records| && records[j].outcome.Failed? ==> records[k].phase.Finish?)
  }

  ghost predicate Failing(h: History) {
    && FailsInOrder(h.records)
    && forall j :: 0 <= j < |h.records| && h.records[j].outcome.Failed? ==> h.state.phase.Finish? || h.state.phase.Done?
  }

  lemma FailingStep(limits: Limits, h: History, move: Move, h': History)
    requires Failing(h) && Steps(h, limits, move, h')
    ensures Failing(h')
  {
    hide LimitsAllow, NextStopReason, NextTargetMet, RevisionFault;
    SettledPhase(h.state, limits, move.elapsedMs);
  }

  /** The second step is a baseline with a valid measurement. */
  predicate GoodBaseline(records: seq<Record>) {
    |records| > 1 && records[1].phase.Baseline? && IsValidMeasurement(records[1])
  }

  /** A phase that comes after a valid baseline only. */
  predicate IsWork(phase: Phase) {
    !phase.Prepare? && !phase.Baseline? && !phase.Finish? && !phase.Done?
  }

  ghost predicate OpensRightly(records: seq<Record>) {
    && (forall k :: 0 <= k < |records| && records[k].phase.Baseline? ==> k == 1)
    && (forall k :: 0 <= k < |records| && IsWork(records[k].phase) ==> k > 1 && GoodBaseline(records))
  }

  ghost predicate Opening(h: History) {
    && OpensRightly(h.records)
    && (h.state.phase.Prepare? ==> |h.records| == 0)
    && (h.state.phase.Baseline? ==> |h.records| == 1)
    && (IsWork(h.state.phase) ==> GoodBaseline(h.records))
  }

  lemma OpeningStep(limits: Limits, h: History, move: Move, h': History)
    requires Opening(h) && Steps(h, limits, move, h')
    ensures Opening(h')
  {
    hide LimitsAllow, NextStopReason, NextTargetMet, RevisionFault;
    SettledPhase(h.state, limits, move.elapsedMs);
  }

  /** The baseline measures the revision that the run started from. */
  ghost predicate MeasuresStart(start: State, h: History) {
    && (h.state.phase.Prepare? || h.state.phase.Baseline? ==> h.state.workingRevision == start.bestRevision)
    && forall k :: 0 <= k < |h.records| && h.records[k].phase.Baseline? ==> h.records[k].revision == start.bestRevision
  }

  lemma MeasuresStartStep(start: State, limits: Limits, h: History, move: Move, h': History)
    requires MeasuresStart(start, h) && Steps(h, limits, move, h')
    ensures MeasuresStart(start, h')
  {
    hide LimitsAllow, NextStopReason, NextTargetMet, RevisionFault;
    SettledPhase(h.state, limits, move.elapsedMs);
  }

  /** What the records of every history are like. */
  ghost predicate Genuine(records: seq<Record>) {
    FailsInOrder(records) && OpensRightly(records) && KeepsJustified(records)
  }

  lemma {:induction false} EveryHistoryIsGenuine(start: State, limits: Limits, moves: seq<Move>)
    requires IsStart(start) && Played(start, limits, moves).Ok?
    ensures var h := Played(start, limits, moves).value;
            Failing(h) && Opening(h) && KeepsJustified(h.records) && MeasuresStart(start, h)
  {
    hide Extended, Steps, Failing, Opening, KeepsJustified, MeasuresStart;
    if moves == [] {
      StartIsGenuine(start);
    } else {
      var before := moves[..|moves| - 1];
      EveryHistoryIsGenuine(start, limits, before);
      var h := Played(start, limits, before).value;
      ExtendedSteps(h, limits, moves[|moves| - 1]);
      FailingStep(limits, h, moves[|moves| - 1], Played(start, limits, moves).value);
      OpeningStep(limits, h, moves[|moves| - 1], Played(start, limits, moves).value);
      MeasuresStartStep(start, limits, h, moves[|moves| - 1], Played(start, limits, moves).value);
      EveryHistoryIsSound(start, limits, moves);
    }
  }

  lemma StartIsGenuine(start: State)
    requires IsStart(start)
    ensures Failing(History(start, [])) && Opening(History(start, [])) && KeepsJustified([])
    ensures MeasuresStart(start, History(start, []))
  {
  }

  // ------------------------------------- what the live run compares with

  lemma {:induction false} LastOfIs(records: seq<Record>, phase: Phase, n: int)
    requires -1 <= n < |records|
    requires n >= 0 ==> records[n].phase == phase
    requires forall j :: n < j < |records| ==> records[j].phase != phase
    ensures LastOf(records, phase) == n + 1
  {
    if n < |records| - 1 {
      LastOfIs(records[..|records| - 1], phase, n);
    }
  }

  /** After the second step the output of the baseline phase is the second step's. */
  lemma BaselineOutput(records: seq<Record>, readings: seq<Option<Reading>>, n: nat)
    requires OpensRightly(records) && GoodBaseline(records) && 1 < n <= |records| == |readings|
    ensures OutputReading(records, readings, Baseline, n) == readings[1]
  {
    LastOfIs(records[..n], Baseline, 1);
  }

  /** Before a step that is no clean-up, the last keep step is the last that kept something. */
  lemma LastKeepStep(records: seq<Record>, n: nat)
    requires Genuine(records) && n < |records| && !records[n].phase.Finish?
    ensures LastOf(records[..n], Keep) == PreviousKeep(records, n) + 1
  {
    hide KeepsJustified, OpensRightly;
    forall j | PreviousKeep(records, n) < j < n ensures records[j].phase != Keep {
      assert !records[j].outcome.Failed?;
      assert !IsKeep(records[j]);
    }
    LastOfIs(records[..n], Keep, PreviousKeep(records, n));
  }

  /** The reading that a keep step notes is the one two steps before it. */
  lemma NotedReading(records: seq<Record>, readings: seq<Option<Reading>>, k: nat)
    requires KeepsJustified(records) && k < |records| == |readings| && IsKeep(records[k])
    ensures k >= 3 && OutputReading(records, readings, Measure, k) == readings[k - 2]
  {
    assert Justified(records, k);
    LastOfIs(records[..k], Measure, k - 2);
  }

  /** The measurement of the last kept change among the first n steps. */
  function LastKeptMeasurement(records: seq<Record>, readings: seq<Option<Reading>>, n: nat): Option<Measurement>
    requires n <= |records| == |readings|
  {
    var k := PreviousKeep(records, n);
    if k < 2 then None else MeasurementOf(readings[k - 2])
  }

  /** A change is compared with the last kept one, or with what the run started from. */
  lemma LiveBestIs(parent: Option<Parent>, records: seq<Record>, readings: seq<Option<Reading>>, n: nat)
    requires Genuine(records) && |readings| == |records| && n < |records| && records[n].phase.Measure?
    requires readings[1].Some?
    requires forall k :: 0 <= k < |records| && IsKeep(records[k]) ==> k >= 2 && readings[k - 2].Some?
    ensures n > 1 && OutputReading(records, readings, Baseline, n) == readings[1]
    ensures LiveBest(parent, records, readings, n)
         == RunBest(parent, readings[1].value.measurement, LastKeptMeasurement(records, readings, n))
    ensures LastOf(records[..n], Keep) > 0 <==> LastKeptMeasurement(records, readings, n).Some?
  {
    hide KeepsJustified, FasterH1, FailsInOrder, LastOf, OutputReading;
    BaselineOutput(records, readings, n);
    LastKeepStep(records, n);
    var k := PreviousKeep(records, n);
    if k >= 0 {
      NotedReading(records, readings, k);
    }
  }

  /** The comparison of a candidate is with the initial measurement and with that best one. */
  lemma CandidateComparison(policy: Policy, parent: Option<Parent>, records: seq<Record>,
                            readings: seq<Option<Reading>>, n: nat, current: Measurement)
    requires Genuine(records) && |readings| == |records| && n < |records| && records[n].phase.Measure?
    requires readings[1].Some?
    requires forall k :: 0 <= k < |records| && IsKeep(records[k]) ==> k >= 2 && readings[k - 2].Some?
    ensures var baseline := readings[1].value.measurement;
            var initial := InitialOf(parent, Some(baseline)).value;
            var best := RunBest(parent, baseline, LastKeptMeasurement(records, readings, n));
            && best.Some?
            && LiveComparison(policy, parent, records, readings, n, current)
               == Some(Judged(policy, initial, best.value, current))
  {
    hide Genuine, Judged, LastOf, OutputReading, LastKeptMeasurement, LiveBest, FasterH1;
    LiveBestIs(parent, records, readings, n);
  }

  // ---------------------------------------------------------- the verifier

  /** The first valid baseline from step i on. */
  function FindBaseline(steps: seq<Record>, i: nat): Option<nat>
    requires i <= |steps|
    decreases |steps| - i
  {
    if i == |steps| then None
    else if steps[i].phase.Baseline? && IsValidMeasurement(steps[i]) then Some(i)
    else FindBaseline(steps, i + 1)
  }

  /** The reading of a step that the verifier can use: it is of the right code, and its comparison is a valid one. */
  function UsableReading(readings: seq<Option<Reading>>, k: nat, revision: string): Option<Reading>
    requires k < |readings|
  {
    if readings[k].Some? && readings[k].value.measurement.revision == revision
       && readings[k].value.comparison.Some? && IsValid(readings[k].value.comparison.value)
    then readings[k] else None
  }

  /** A kept change with the comparison and the outcome of the measurement that it rests on. */
  function ItemOn(steps: seq<Record>, readings: seq<Option<Reading>>, measured: nat, revision: string): Option<Kept>
    requires measured < |steps| == |readings| && steps[measured].outcome.Measured?
  {
    var reading, outcome := UsableReading(readings, measured, revision), steps[measured].outcome;
    if reading.None? then None
    else Some(Kept.Kept(reading.value.measurement, reading.value.comparison.value,
                        outcome.valid, outcome.targetMet, outcome.improved))
  }

  /** The kept change of step k. */
  function KeptItem(steps: seq<Record>, readings: seq<Option<Reading>>, k: nat): Option<Kept>
    requires k < |steps| == |readings| && IsKeep(steps[k])
  {
    var grounds := GroundsOf(steps, k);
    if grounds.None? then None
    else
      GroundsHold(steps, k);
      ItemOn(steps, readings, grounds.value.measured, steps[k].outcome.revision)
  }

  /** The kept changes among the first n steps, if each has all it needs. */
  function KeptItems(steps: seq<Record>, readings: seq<Option<Reading>>, n: nat): Option<seq<Kept>>
    requires n <= |steps| == |readings|
  {
    if n == 0 then Some([])
    else
      var before := KeptItems(steps, readings, n - 1);
      if !IsKeep(steps[n - 1]) || before.None? then before
      else
        var item := KeptItem(steps, readings, n - 1);
        if item.None? then None else Some(before.value + [item.value])
  }

  /** The baseline that the verifier reads, or nothing; an error when there is one that it cannot use. */
  function VerifiedBaseline(steps: seq<Record>, readings: seq<Option<Reading>>): Result<Option<Measurement>, ()>
    requires |steps| == |readings|
  {
    var found := FindBaseline(steps, 0);
    if found.None? then Ok(None)
    else
      FindBaselineBound(steps, 0);
      var reading := UsableReading(readings, found.value, steps[found.value].revision);
      if reading.None? then Err(()) else Ok(Some(reading.value.measurement))
  }

  lemma {:induction false} FindBaselineBound(steps: seq<Record>, i: nat)
    requires i <= |steps|
    ensures FindBaseline(steps, i).Some? ==> FindBaseline(steps, i).value < |steps|
    decreases |steps| - i
  {
    if i < |steps| {
      FindBaselineBound(steps, i + 1);
    }
  }

  function KeptRevision(parent: Option<Parent>, steps: seq<Record>, state: State): string {
    var k := PreviousKeep(steps, |steps|);
    if k >= 0 then steps[k].outcome.revision
    else if parent.Some? then parent.value.bestRevision
    else state.initialRevision
  }

  function EndingOf(state: State): Ending {
    Ending(state.activeStep.Some?, state.bestRevision != state.initialRevision)
  }

  /** The verifier's answer about a parent run, and what it passes on. */
  function Verdict(first: State, limits: Limits, policy: Policy, parent: Option<Parent>, steps: seq<Record>,
                   readings: seq<Option<Reading>>, state: State): Result<Parent, ()>
    requires |steps| == |readings|
  {
    var baseline := VerifiedBaseline(steps, readings);
    var items := KeptItems(steps, readings, |steps|);
    if !Certifies(first, limits, steps, state) || baseline.Err? || items.None?
      || state.bestRevision != KeptRevision(parent, steps, state)
    then Err(())
    else
      var best := FirstBest(policy, parent, baseline.value, EndingOf(state));
      var initial := InitialOf(parent, baseline.value);
      if best.Err? || !KeptInOrder(policy, initial, best.value, items.value, |items.value|) then Err(())
      else Ok(Parent(initial, BestAfter(best.value, items.value, |items.value|), state.bestRevision))
  }

  lemma {:induction false} KeepStepsPrefix(steps: seq<Record>, k: nat, n: nat)
    requires k <= n <= |steps|
    ensures |KeepSteps(steps, k)| <= |KeepSteps(steps, n)|
    ensures KeepSteps(steps, n)[..|KeepSteps(steps, k)|] == KeepSteps(steps, k)
  {
    if k < n {
      KeepStepsPrefix(steps, k, n - 1);
    }
  }

  /** Where a keep step stands among all of them. */
  lemma KeepCount(steps: seq<Record>, k: nat)
    requires k < |steps|
    ensures |KeepSteps(steps, k + 1)| == |KeepSteps(steps, k)| + if IsKeep(steps[k]) then 1 else 0
    ensures |KeepSteps(steps, k + 1)| <= |KeepSteps(steps, |steps|)|
    ensures IsKeep(steps[k]) ==> KeepSteps(steps, |steps|)[|KeepSteps(steps, k)|] == k
  {
    hide IsKeep;
    KeepStepsPrefix(steps, k + 1, |steps|);
    var all, upTo := KeepSteps(steps, |steps|), KeepSteps(steps, k + 1);
    if IsKeep(steps[k]) {
      assert upTo[|upTo| - 1] == k;
      assert all[..|upTo|][|upTo| - 1] == all[|upTo| - 1];
    }
  }

  lemma {:induction false} KeptItemsStop(steps: seq<Record>, readings: seq<Option<Reading>>, k: nat, n: nat)
    requires k <= n <= |steps| == |readings| && KeptItems(steps, readings, k).None?
    ensures KeptItems(steps, readings, n).None?
  {
    hide KeptItem;
    if k < n {
      KeptItemsStop(steps, readings, k, n - 1);
    }
  }

  lemma NoItem(steps: seq<Record>, readings: seq<Option<Reading>>, k: nat)
    requires k < |steps| == |readings| && IsKeep(steps[k]) && GroundsOf(steps, k).None?
    ensures KeptItem(steps, readings, k).None?
  {
  }

  method ReadItem(steps: seq<Record>, readings: seq<Option<Reading>>, k: nat, grounds: Grounds)
    returns (item: Option<Kept>)
    requires k < |steps| == |readings| && IsKeep(steps[k]) && GroundsOf(steps, k) == Some(grounds)
    ensures item == KeptItem(steps, readings, k)
  {
    hide GroundsOf, ItemOn;
    GroundsHold(steps, k);
    item := ItemOn(steps, readings, grounds.measured, steps[k].outcome.revision);
  }

  /** Reads the measurement of every kept change, having found the grounds of each. */
  method CollectKept(steps: seq<Record>, readings: seq<Option<Reading>>) returns (r: Option<seq<Kept>>)
    requires |steps| == |readings|
    ensures r == KeptItems(steps, readings, |steps|)
  {
    hide GroundsOf, IsKeep, KeptItem, KeepSteps;
    var found := VerifyKeeps(steps);
    if found.Err? {
      ghost var k :| 0 <= k < |steps| && IsKeep(steps[k]) && GroundsOf(steps, k).None?;
      NoItem(steps, readings, k);
      KeptItemsStop(steps, readings, k + 1, |steps|);
      return None;
    }
    var items, i := [], 0;
    for k := 0 to |steps|
      invariant i == |KeepSteps(steps, k)|
      invariant KeptItems(steps, readings, k) == Some(items)
    {
      KeepCount(steps, k);
      if IsKeep(steps[k]) {
        var item := ReadItem(steps, readings, k, found.value[i]);
        if item.None? {
          KeptItemsStop(steps, readings, k + 1, |steps|);
          return None;
        }
        items := items + [item.value];
        i := i + 1;
      }
    }
    return Some(items);
  }

  /** The verifier: replay, baseline, kept changes, scores. */
  method VerifyRun(first: State, limits: Limits, policy: Policy, parent: Option<Parent>, steps: seq<Record>,
                   readings: seq<Option<Reading>>, state: State) returns (r: Result<Parent, ()>)
    requires |steps| == |readings|
    ensures r == Verdict(first, limits, policy, parent, steps, readings, state)
  {
    hide Certifies, VerifiedBaseline, KeptItems, KeptRevision, FirstBest, AcceptedComparison;
    var certified := Certify(first, limits, steps, state);
    if !certified {
      return Err(());
    }
    var baseline := VerifiedBaseline(steps, readings);
    if baseline.Err? || state.bestRevision != KeptRevision(parent, steps, state) {
      return Err(());
    }
    var items := CollectKept(steps, readings);
    if items.None? {
      return Err(());
    }
    var best := VerifyScores(policy, parent, baseline.value, EndingOf(state), items.value);
    if best.Err? {
      return Err(());
    }
    return Ok(Parent(InitialOf(parent, baseline.value), best.value, state.bestRevision));
  }

  // ------------------------------------------------ kept changes of a run

  /**
    Every keep step of a scored history has a usable reading two steps before
    it, and the run has a scored baseline.
  */
  lemma KeepsHaveReadings(policy: Policy, parent: Option<Parent>, records: seq<Record>, readings: seq<Option<Reading>>,
                          k: nat)
    requires |records| == |readings| && Genuine(records) && AllScored(policy, parent, records, readings)
             && k < |records| && IsKeep(records[k])
    ensures k >= 3 && records[k - 2].phase.Measure? && IsValidMeasurement(records[k - 2])
    ensures GoodBaseline(records) && readings[1].Some? && readings[k - 2].Some?
    ensures Scored(policy, parent, records, readings, 1) && Scored(policy, parent, records, readings, k - 2)
    ensures records[k - 2].outcome.improved || records[k - 2].outcome.targetMet
    ensures records[k - 2].outcome.revision == records[k].outcome.revision
  {
    hide LiveComparison, Judgement, FailsInOrder;
    assert Justified(records, k);
    assert IsWork(records[k].phase);
  }

  predicate Accepts(policy: Policy, initial: Measurement, best: Measurement, item: Kept) {
    AcceptedComparison(policy, initial, best, item.measurement, item.saved, item.valid, item.targetMet, item.improved)
  }

  /** A kept change of a scored history was accepted against the one kept before it. */
  lemma KeptItemAccepted(policy: Policy, parent: Option<Parent>, records: seq<Record>, readings: seq<Option<Reading>>,
                         k: nat)
    requires |records| == |readings| && Genuine(records) && AllScored(policy, parent, records, readings)
             && k < |records| && IsKeep(records[k])
    ensures k >= 3 && readings[1].Some? && readings[k - 2].Some?
    ensures var baseline := readings[1].value.measurement;
            var best := RunBest(parent, baseline, LastKeptMeasurement(records, readings, k));
            var item := KeptItem(records, readings, k);
            && item.Some? && item.value.measurement == readings[k - 2].value.measurement && best.Some?
            && item.value.measurement.revision == records[k].outcome.revision
            && Accepts(policy, InitialOf(parent, Some(baseline)).value, best.value, item.value)
  {
    hide Scored, Genuine, Judged, RunBest, PreviousKeep, GroundsOf, LiveComparison;
    KeepsHaveReadings(policy, parent, records, readings, k);
    forall j | 0 <= j < |records| && IsKeep(records[j]) ensures j >= 2 && readings[j - 2].Some? {
      KeepsHaveReadings(policy, parent, records, readings, j);
    }
    SamePrevious(records, k);
    assert LastKeptMeasurement(records, readings, k - 2) == LastKeptMeasurement(records, readings, k);
    var current := readings[k - 2].value.measurement;
    CandidateComparison(policy, parent, records, readings, k - 2, current);
    var baseline := readings[1].value.measurement;
    var best := RunBest(parent, baseline, LastKeptMeasurement(records, readings, k)).value;
    ScoredOutcome(policy, parent, records, readings, k - 2, InitialOf(parent, Some(baseline)).value, best);
    AcceptedMeasurementsVerify(policy, InitialOf(parent, Some(baseline)).value, best, current,
                               records[k - 2].outcome.valid,
                               records[k - 2].outcome.targetMet, records[k - 2].outcome.improved);
    ItemOf(records, readings, k);
  }

  lemma SamePrevious(records: seq<Record>, k: nat)
    requires Genuine(records) && k < |records| && IsKeep(records[k])
    ensures k >= 3 && PreviousKeep(records, k - 2) == PreviousKeep(records, k)
  {
    hide FailsInOrder, OpensRightly;
    KeepWindow(records, PreviousKeep(records, k), k);
  }

  /** What a scored candidate step says, given what it was compared with. */
  lemma ScoredOutcome(policy: Policy, parent: Option<Parent>, records: seq<Record>, readings: seq<Option<Reading>>,
                      m: nat, initial: Measurement, best: Measurement)
    requires m < |records| == |readings| && Scored(policy, parent, records, readings, m) && records[m].phase.Measure?
    requires LiveComparison(policy, parent, records, readings, m, readings[m].value.measurement)
          == Some(Judged(policy, initial, best, readings[m].value.measurement))
    ensures var a, outcome := Judged(policy, initial, best, readings[m].value.measurement), records[m].outcome;
            && readings[m].value.comparison == Some(a) && readings[m].value.measurement.revision == records[m].revision
            && outcome.Measured? && outcome.valid == IsValid(a) && outcome.revision == records[m].revision
            && outcome.targetMet == (a.targetMet == Some(true)) && outcome.improved == (a.improved == Some(true))
  {
    hide Judged, LiveComparison, IsValid;
  }

  lemma ItemOf(records: seq<Record>, readings: seq<Option<Reading>>, k: nat)
    requires Genuine(records) && k < |records| == |readings| && IsKeep(records[k])
    ensures k >= 3
    ensures var reading := readings[k - 2];
            (reading.Some? && reading.value.measurement.revision == records[k].outcome.revision
             && reading.value.comparison.Some? && IsValid(reading.value.comparison.value)
             && records[k - 2].outcome.Measured?) ==>
              KeptItem(records, readings, k) ==
                Some(Kept.Kept(reading.value.measurement, reading.value.comparison.value, records[k - 2].outcome.valid,
                               records[k - 2].outcome.targetMet, records[k - 2].outcome.improved))
  {
    hide FailsInOrder, OpensRightly, KeepsJustified, GroundsOf;
    GroundsOfGenuine(records, k);
  }

  function FirstOf(parent: Option<Parent>, baseline: Option<Measurement>): Option<Measurement> {
    if baseline.Some? then RunBest(parent, baseline.value, None) else None
  }

  function BaselineOf(records: seq<Record>, readings: seq<Option<Reading>>): Option<Measurement>
    requires |records| == |readings|
  {
    if GoodBaseline(records) then MeasurementOf(readings[1]) else None
  }

  /** What holds of the kept changes among the first n steps. */
  ghost predicate KeptSoFar(policy: Policy, parent: Option<Parent>, records: seq<Record>,
                            readings: seq<Option<Reading>>, n: nat, items: seq<Kept>)
    requires n <= |records| == |readings|
  {
    var baseline := BaselineOf(records, readings);
    && (items == [] <==> PreviousKeep(records, n) < 0)
    && (items != [] ==>
          && baseline.Some? && Some(items[|items| - 1].measurement) == LastKeptMeasurement(records, readings, n)
          && items[|items| - 1].measurement.revision == records[PreviousKeep(records, n)].outcome.revision)
    && KeptInOrder(policy, InitialOf(parent, baseline), FirstOf(parent, baseline), items, |items|)
  }

  /** The kept changes of a scored history all have what they need, and each was accepted against the one before. */
  lemma {:induction false} KeptChangesInOrder(policy: Policy, parent: Option<Parent>, records: seq<Record>,
                                              readings: seq<Option<Reading>>, n: nat)
    requires |records| == |readings| && Genuine(records) && AllScored(policy, parent, records, readings)
             && n <= |records|
    ensures KeptItems(records, readings, n).Some?
    ensures KeptSoFar(policy, parent, records, readings, n, KeptItems(records, readings, n).value)
  {
    hide Genuine, AllScored, KeptItem, KeptSoFar, RunBest, LastKeptMeasurement, Accepts, PreviousKeep, IsKeep;
    if n == 0 {
      NoneKept(policy, parent, records, readings);
    } else {
      KeptChangesInOrder(policy, parent, records, readings, n - 1);
      var before := KeptItems(records, readings, n - 1).value;
      if IsKeep(records[n - 1]) {
        KeptItemAccepted(policy, parent, records, readings, n - 1);
        KeptOneMore(policy, parent, records, readings, n - 1, before);
      } else {
        NoMoreKept(policy, parent, records, readings, n - 1, before);
      }
    }
  }

  lemma NoneKept(policy: Policy, parent: Option<Parent>, records: seq<Record>, readings: seq<Option<Reading>>)
    requires |records| == |readings|
    ensures KeptSoFar(policy, parent, records, readings, 0, [])
  {
  }

  lemma NoMoreKept(policy: Policy, parent: Option<Parent>, records: seq<Record>, readings: seq<Option<Reading>>, n: nat,
                   items: seq<Kept>)
    requires n < |records| == |readings| && !IsKeep(records[n])
             && KeptSoFar(policy, parent, records, readings, n, items)
    ensures KeptSoFar(policy, parent, records, readings, n + 1, items)
  {
    hide KeptInOrder;
  }

  lemma KeptOneMore(policy: Policy, parent: Option<Parent>, records: seq<Record>, readings: seq<Option<Reading>>,
                    n: nat, before: seq<Kept>)
    requires |records| == |readings| && Genuine(records) && AllScored(policy, parent, records, readings)
    requires n < |records| && IsKeep(records[n]) && KeptSoFar(policy, parent, records, readings, n, before)
    ensures KeptItem(records, readings, n).Some?
    ensures KeptSoFar(policy, parent, records, readings, n + 1, before + [KeptItem(records, readings, n).value])
  {
    hide Genuine, AllScored, KeptItem, AcceptedComparison, KeptInOrder, RunBest, LastKeptMeasurement, KeptSoFar;
    KeptItemAccepted(policy, parent, records, readings, n);
    KeepsHaveReadings(policy, parent, records, readings, n);
    AppendKept(policy, parent, records, readings, n, before, KeptItem(records, readings, n).value);
  }

  lemma AppendKept(policy: Policy, parent: Option<Parent>, records: seq<Record>, readings: seq<Option<Reading>>, n: nat,
                   before: seq<Kept>, item: Kept)
    requires 3 <= n < |records| == |readings| && IsKeep(records[n])
    requires KeptSoFar(policy, parent, records, readings, n, before)
    requires BaselineOf(records, readings).Some? && readings[n - 2].Some?
    requires item.measurement == readings[n - 2].value.measurement
             && item.measurement.revision == records[n].outcome.revision
    requires var baseline := BaselineOf(records, readings);
             var best := RunBest(parent, baseline.value, LastKeptMeasurement(records, readings, n));
             best.Some? && Accepts(policy, InitialOf(parent, baseline).value, best.value, item)
    ensures KeptSoFar(policy, parent, records, readings, n + 1, before + [item])
  {
    hide Accepts, KeptInOrder, RunBest, BaselineOf, FirstOf;
    var baseline := BaselineOf(records, readings);
    BestSoFar(parent, records, readings, n, before, baseline.value);
    OneMoreKept(policy, InitialOf(parent, baseline), FirstOf(parent, baseline), before, item);
  }

  lemma BestSoFar(parent: Option<Parent>, records: seq<Record>, readings: seq<Option<Reading>>, n: nat,
                  before: seq<Kept>, baseline: Measurement)
    requires n <= |records| == |readings|
    requires before == [] <==> PreviousKeep(records, n) < 0
    requires before != [] ==> Some(before[|before| - 1].measurement) == LastKeptMeasurement(records, readings, n)
    ensures BestAfter(FirstOf(parent, Some(baseline)), before, |before|)
         == RunBest(parent, baseline, LastKeptMeasurement(records, readings, n))
  {
  }

  lemma OneMoreKept(policy: Policy, initial: Option<Measurement>, first: Option<Measurement>, before: seq<Kept>,
                    item: Kept)
    requires KeptInOrder(policy, initial, first, before, |before|)
    requires initial.Some? && BestAfter(first, before, |before|).Some?
    requires Accepts(policy, initial.value, BestAfter(first, before, |before|).value, item)
    ensures KeptInOrder(policy, initial, first, before + [item], |before| + 1)
  {
    hide AcceptedComparison;
    var all := before + [item];
    forall k | 0 <= k <= |before|
      ensures KeptAt(policy, initial, first, all, k)
    {
      assert k < |before| ==> KeptAt(policy, initial, first, before, k);
      assert BestAfter(first, all, k) == BestAfter(first, before, k);
    }
  }

  // ----------------------------------------------------------------- growth

  /** The kept changes are, one for one, those of the keep steps. */
  lemma {:induction false} OneItemEachKeep(policy: Policy, parent: Option<Parent>, records: seq<Record>,
                                           readings: seq<Option<Reading>>, n: nat)
    requires |records| == |readings| && Genuine(records) && AllScored(policy, parent, records, readings)
             && n <= |records|
    ensures KeptItems(records, readings, n).Some?
    ensures ItemsOfKeeps(records, readings, KeepSteps(records, n), KeptItems(records, readings, n).value)
  {
    hide Genuine, AllScored, KeptItem, IsKeep, ItemsOfKeeps, RunBest, LastKeptMeasurement, Accepts, InitialOf,
      PreviousKeep;
    if n == 0 {
      NoItems(records, readings);
    } else {
      OneItemEachKeep(policy, parent, records, readings, n - 1);
      if IsKeep(records[n - 1]) {
        KeptItemAccepted(policy, parent, records, readings, n - 1);
        ItemsAppend(records, readings, KeepSteps(records, n - 1), KeptItems(records, readings, n - 1).value, n - 1,
                    KeptItem(records, readings, n - 1).value);
      } else {
        assert KeepSteps(records, n) == KeepSteps(records, n - 1);
      }
    }
  }

  lemma NoItems(records: seq<Record>, readings: seq<Option<Reading>>)
    requires |records| == |readings|
    ensures ItemsOfKeeps(records, readings, [], [])
  {
  }

  lemma ItemsAppend(records: seq<Record>, readings: seq<Option<Reading>>, keeps: seq<nat>, items: seq<Kept>, k: nat,
                    item: Kept)
    requires ItemsOfKeeps(records, readings, keeps, items) && 2 <= k < |records|
    requires MeasurementOf(readings[k - 2]) == Some(item.measurement)
    ensures ItemsOfKeeps(records, readings, keeps + [k], items + [item])
  {
  }

  ghost predicate ItemsOfKeeps(records: seq<Record>, readings: seq<Option<Reading>>, keeps: seq<nat>,
                               items: seq<Kept>) {
    && |items| == |keeps| && |records| == |readings|
    && forall i :: 0 <= i < |keeps| ==>
         2 <= keeps[i] < |records| && MeasurementOf(readings[keeps[i] - 2]) == Some(items[i].measurement)
  }

  /** What a chain started from has a rate for every workload of the goal. */
  lemma ChainStart(policy: Policy, initial: Measurement, first: Measurement, kept: seq<Measurement>)
    requires Chain(policy, initial, first, kept) && kept != []
    ensures forall w :: w in Workloads(policy.goal) ==> Rate(first, w, OWN).Some?
  {
    hide Rate, GoalFaults;
    assert Improves(policy, initial, Last(first, kept[..0]), kept[0]);
    FaultlessGoal(policy.goal, initial, first);
  }

  /** The measurements that the best revision of a scored run went through. */
  function KeptMeasurements(records: seq<Record>, readings: seq<Option<Reading>>): seq<Measurement>
    requires |records| == |readings|
  {
    var items := KeptItems(records, readings, |records|);
    if items.Some? then Measurements(items.value) else []
  }

  /** The kept measurements of every scored history are those that its keep steps rest on. */
  lemma KeptMeasurementsAre(start: State, limits: Limits, moves: seq<Move>, policy: Policy, parent: Option<Parent>,
                            readings: seq<Option<Reading>>)
    requires IsStart(start) && Played(start, limits, moves).Ok?
    requires |Played(start, limits, moves).value.records| == |readings|
    requires AllScored(policy, parent, Played(start, limits, moves).value.records, readings)
    ensures var h := Played(start, limits, moves).value;
            var kept, keeps := KeptMeasurements(h.records, readings), KeepSteps(h.records, |h.records|);
            && |kept| == |keeps|
            && forall i :: 0 <= i < |keeps| ==> keeps[i] >= 2 && MeasurementOf(readings[keeps[i] - 2]) == Some(kept[i])
  {
    hide IsStart, Played, KeptItems, Genuine, AllScored;
    EveryHistoryIsGenuine(start, limits, moves);
    var h := Played(start, limits, moves).value;
    IsGenuine(h);
    OneItemEachKeep(policy, parent, h.records, readings, |h.records|);
  }

  /**
    The kept measurements of every scored history form a chain from what the run
    started with, and the last one is of the run's best revision.
  */
  lemma KeptMeasurementsChain(start: State, limits: Limits, moves: seq<Move>, policy: Policy, parent: Option<Parent>,
                              readings: seq<Option<Reading>>)
    requires IsStart(start) && Played(start, limits, moves).Ok?
    requires |Played(start, limits, moves).value.records| == |readings|
    requires AllScored(policy, parent, Played(start, limits, moves).value.records, readings)
    ensures var h := Played(start, limits, moves).value;
            var kept, baseline := KeptMeasurements(h.records, readings), BaselineOf(h.records, readings);
            if kept == [] then h.state.bestRevision == start.bestRevision
            else
              && baseline.Some? && RunBest(parent, baseline.value, None).Some?
              && Chain(policy, InitialOf(parent, baseline).value, RunBest(parent, baseline.value, None).value, kept)
              && kept[|kept| - 1].revision == h.state.bestRevision
  {
    hide IsStart, Played, KeptItems, KeptInOrder, Chain, Genuine, AllScored, BestAfter, FasterH1, LastKeptMeasurement;
    EveryHistoryIsGenuine(start, limits, moves);
    EveryHistoryIsSound(start, limits, moves);
    var h := Played(start, limits, moves).value;
    IsGenuine(h);
    KeptChangesInOrder(policy, parent, h.records, readings, |h.records|);
    LastKeptIs(h.records, start.bestRevision);
    var items, baseline := KeptItems(h.records, readings, |h.records|).value, BaselineOf(h.records, readings);
    if items != [] {
      VerifiedIsChain(policy, InitialOf(parent, baseline).value, FirstOf(parent, baseline).value, items);
    }
  }

  lemma IsGenuine(h: History)
    requires Failing(h) && Opening(h) && KeepsJustified(h.records)
    ensures Genuine(h.records)
  {
  }

  lemma {:induction false} LastKeptIs(records: seq<Record>, first: string)
    requires KeepsJustified(records)
    ensures var k := PreviousKeep(records, |records|);
            LastKept(records, first) == if k < 0 then first else records[k].outcome.revision
  {
    LastKeptUpTo(records, first, |records|);
    assert records[..|records|] == records;
  }

  lemma {:induction false} LastKeptUpTo(records: seq<Record>, first: string, n: nat)
    requires KeepsJustified(records) && n <= |records|
    ensures var k := PreviousKeep(records, n);
            LastKept(records[..n], first) == if k < 0 then first else records[k].outcome.revision
  {
    if n > 0 {
      LastKeptUpTo(records, first, n - 1);
      assert records[..n][..n - 1] == records[..n - 1];
      assert records[n - 1].outcome.Kept? ==> Justified(records, n - 1);
    }
  }

  /**
    In every state of every scored run: after n kept changes each workload of the
    goal is faster than what the run started with by more than (1 + fraction)^n,
    and no kept change took a protected workload below its allowance of the
    initial rate.
  */
  lemma EveryRunGrows(start: State, limits: Limits, moves: seq<Move>, policy: Policy, parent: Option<Parent>,
                      readings: seq<Option<Reading>>)
    requires IsStart(start) && Played(start, limits, moves).Ok?
    requires |Played(start, limits, moves).value.records| == |readings|
    requires AllScored(policy, parent, Played(start, limits, moves).value.records, readings)
    requires KeptMeasurements(Played(start, limits, moves).value.records, readings) != []
    ensures var h := Played(start, limits, moves).value;
            var kept, baseline := KeptMeasurements(h.records, readings), BaselineOf(h.records, readings);
            && baseline.Some? && RunBest(parent, baseline.value, None).Some?
            && var initial, first := InitialOf(parent, baseline).value, RunBest(parent, baseline.value, None).value;
               && (forall w :: w in Workloads(policy.goal) ==> Grows(policy, first, kept, w))
               && (forall k, p :: 0 <= k < |kept| && p in policy.protections ==> Protected(initial, kept[k], p))
  {
    hide IsStart, Played, KeptMeasurements, BaselineOf, Chain, AllScored, RunBest, Grows, Protected, Rate;
    KeptMeasurementsChain(start, limits, moves, policy, parent, readings);
    var h := Played(start, limits, moves).value;
    var kept, baseline := KeptMeasurements(h.records, readings), BaselineOf(h.records, readings);
    var initial, first := InitialOf(parent, baseline).value, RunBest(parent, baseline.value, None).value;
    ChainStart(policy, initial, first, kept);
    forall w | w in Workloads(policy.goal) ensures Grows(policy, first, kept, w) {
      ChainGrows(policy, initial, first, kept, w);
    }
    forall k, p | 0 <= k < |kept| && p in policy.protections ensures Protected(initial, kept[k], p) {
      ChainProtects(policy, initial, first, kept, k, p);
    }
  }

  ghost predicate Grows(policy: Policy, first: Measurement, kept: seq<Measurement>, w: string) {
    var before, now := Rate(first, w, OWN), Rate(Last(first, kept), w, OWN);
    before.Some? && now.Some? && now.value > before.value * Power(1.0 + policy.fraction, |kept|)
  }

  predicate Protected(initial: Measurement, m: Measurement, p: Protection) {
    var before, now := Rate(initial, p.workload, OWN), Rate(m, p.workload, OWN);
    before.Some? && now.Some? && now.value >= before.value * (1.0 - p.maxDecreaseFraction)
  }

  lemma ChainGrows(policy: Policy, initial: Measurement, first: Measurement, kept: seq<Measurement>, w: string)
    requires Chain(policy, initial, first, kept) && kept != [] && w in Workloads(policy.goal)
             && Rate(first, w, OWN).Some?
    ensures Grows(policy, first, kept, w)
  {
    hide Rate, Chain;
    GrowthCompounds(policy, initial, first, kept, w);
  }

  lemma ChainProtects(policy: Policy, initial: Measurement, first: Measurement, kept: seq<Measurement>, k: nat,
                      p: Protection)
    requires Chain(policy, initial, first, kept) && k < |kept| && p in policy.protections
    ensures Protected(initial, kept[k], p)
  {
    hide Rate, Chain;
    ProtectionDoesNotCompound(policy, initial, first, kept, k, p);
  }

  // ---------------------------------------------------- the whole verdict

  /** A parent run as the verifier passes it on. */
  predicate SoundParent(parent: Parent) {
    Restarts.Sane(parent) && (parent.best.Some? ==> parent.best.value.revision == parent.bestRevision)
  }

  /** A run starts from a given revision, or from its parent's best one. */
  predicate StartsFrom(start: State, parent: Option<Parent>) {
    && (parent.Some? ==> SoundParent(parent.value) && start.bestRevision == parent.value.bestRevision)
    && start.initialRevision == if ParentInitial(parent).Some? then ParentInitial(parent).value.revision
      else start.bestRevision
  }

  /**
    On a restart from measurements: the baseline has repeated the parent's h1
    rate, or the run was abandoned before it.
  */
  predicate Requalifies(parent: Option<Parent>, baseline: Option<Measurement>, interrupted: bool) {
    ParentInitial(parent).Some? && ParentBest(parent).Some? ==>
      if baseline.None? then interrupted
      else
        var before, again := H1(ParentBest(parent).value), H1(baseline.value);
        before.Some? && again.Some? && Repeats(again.value, before.value)
  }

  lemma {:induction false} FindBaselineIs(records: seq<Record>, i: nat)
    requires OpensRightly(records) && i <= |records|
    ensures FindBaseline(records, i) == if i <= 1 && GoodBaseline(records) then Some(1) else None
    decreases |records| - i
  {
    if i < |records| {
      FindBaselineIs(records, i + 1);
    }
  }

  /** The verifier reads the baseline of a scored history as the run did. */
  lemma BaselineIsRead(policy: Policy, parent: Option<Parent>, records: seq<Record>, readings: seq<Option<Reading>>)
    requires |records| == |readings| && Genuine(records) && AllScored(policy, parent, records, readings)
    ensures VerifiedBaseline(records, readings) == Ok(BaselineOf(records, readings))
    ensures GoodBaseline(records) ==> BaselineOf(records, readings).Some?
  {
    hide LiveComparison, KeepsJustified, FailsInOrder, IsValid;
    FindBaselineIs(records, 0);
    if GoodBaseline(records) {
      assert Scored(policy, parent, records, readings, 1);
    }
  }

  /** A valid baseline of a restart is of the parent's build and within the original allowances. */
  lemma BaselineIsRequalified(policy: Policy, parent: Parent, records: seq<Record>, readings: seq<Option<Reading>>)
    requires |records| == |readings| && AllScored(policy, Some(parent), records, readings) && GoodBaseline(records)
    requires SoundParent(parent) && parent.initial.Some?
    ensures readings[1].Some?
    ensures var baseline := readings[1].value.measurement;
            && SameBuild(baseline, parent.best.value) && baseline.revision == parent.bestRevision
            && baseline.protocolId == parent.initial.value.protocolId
            && (Requalified(policy, parent.initial.value, parent.best.value, baseline) <==>
                  Requalifies(Some(parent), Some(baseline), false))
  {
    hide Judged, H1, Repeats;
    assert Scored(policy, Some(parent), records, readings, 1);
    var baseline := readings[1].value.measurement;
    assert readings[1].value.comparison == Some(Judged(policy, parent.initial.value, parent.best.value, baseline));
    ComparableWhenValid(policy, parent.initial.value, parent.best.value, baseline);
  }

  lemma ComparableWhenValid(policy: Policy, initial: Measurement, best: Measurement, current: Measurement)
    requires IsValid(Judged(policy, initial, best, current))
    ensures initial.protocolId == current.protocolId
  {
    hide GoalFaults;
    FaultlessGoal(policy.goal, initial, current);
  }

  /** What the verifier starts the kept changes from, on a scored history. */
  lemma FirstBestIs(policy: Policy, parent: Option<Parent>, records: seq<Record>, readings: seq<Option<Reading>>,
                    ending: Ending)
    requires |records| == |readings| && Genuine(records) && AllScored(policy, parent, records, readings)
    requires parent.Some? ==> SoundParent(parent.value)
    requires ParentInitial(parent).None? && !GoodBaseline(records) ==> !ending.moved
    ensures var baseline := BaselineOf(records, readings);
            var first := FirstBest(policy, parent, baseline, ending);
            && (first.Ok? <==> Requalifies(parent, baseline, ending.interrupted))
            && (first.Ok? ==> first.value == if baseline.Some? then FirstOf(parent, baseline) else ParentBest(parent))
  {
    hide Requalified, FasterH1, Repeats, H1, Genuine, AllScored;
    BaselineIsRead(policy, parent, records, readings);
    if ParentInitial(parent).Some? && GoodBaseline(records) {
      BaselineIsRequalified(policy, parent.value, records, readings);
    }
  }

  lemma KeepsFollowBaseline(records: seq<Record>)
    requires OpensRightly(records) && PreviousKeep(records, |records|) >= 0
    ensures GoodBaseline(records)
  {
    assert IsWork(records[PreviousKeep(records, |records|)].phase);
  }

  /** What is passed on: the first of all measurements, the run's best revision, and what was measured last of it. */
  function PassedOn(parent: Option<Parent>, h: History, readings: seq<Option<Reading>>): Parent
    requires |h.records| == |readings|
  {
    var baseline, kept := BaselineOf(h.records, readings), KeptMeasurements(h.records, readings);
    var best := if kept != [] then Some(kept[|kept| - 1])
                else if baseline.Some? then RunBest(parent, baseline.value, None)
                else ParentBest(parent);
    Parent(InitialOf(parent, baseline), best, h.state.bestRevision)
  }

  lemma VerdictOnItems(first: State, limits: Limits, policy: Policy, parent: Option<Parent>, records: seq<Record>,
                       readings: seq<Option<Reading>>, state: State, items: seq<Kept>)
    requires |records| == |readings| && VerifiedBaseline(records, readings) == Ok(BaselineOf(records, readings))
    requires KeptItems(records, readings, |records|) == Some(items)
    requires KeptSoFar(policy, parent, records, readings, |records|, items)
    requires state.bestRevision == KeptRevision(parent, records, state)
    requires var baseline := BaselineOf(records, readings);
             var best := FirstBest(policy, parent, baseline, EndingOf(state));
             best.Ok? ==> best.value == if baseline.Some? then FirstOf(parent, baseline) else ParentBest(parent)
    ensures var baseline := BaselineOf(records, readings);
            var best := FirstBest(policy, parent, baseline, EndingOf(state));
            Verdict(first, limits, policy, parent, records, readings, state) ==
              if !Certifies(first, limits, records, state) || best.Err? then Err(())
              else Ok(Parent(InitialOf(parent, baseline), BestAfter(best.value, items, |items|), state.bestRevision))
  {
    hide Certifies, KeptItems, FirstBest, FirstOf, KeptRevision, VerifiedBaseline, AcceptedComparison,
      LastKeptMeasurement;
  }

  /**
    The verifier accepts a scored run exactly when the replay comes out and, on a
    restart, the parent's best was requalified; whatever the run kept, its scores
    pass.
  */
  lemma VerdictIsReplayAndBaseline(start: State, limits: Limits, moves: seq<Move>, policy: Policy,
                                   parent: Option<Parent>, readings: seq<Option<Reading>>, state: State)
    requires IsStart(start) && Played(start, limits, moves).Ok? && StartsFrom(start, parent)
    requires |Played(start, limits, moves).value.records| == |readings|
    requires AllScored(policy, parent, Played(start, limits, moves).value.records, readings)
    requires var h := Played(start, limits, moves).value;
             state.bestRevision == h.state.bestRevision && state.initialRevision == h.state.initialRevision
    ensures var h := Played(start, limits, moves).value;
            var baseline, first := BaselineOf(h.records, readings), start.(elapsedMs := 0);
            Verdict(first, limits, policy, parent, h.records, readings, state) ==
              if Certifies(first, limits, h.records, state) && Requalifies(parent, baseline, state.activeStep.Some?)
              then Ok(PassedOn(parent, h, readings)) else Err(())
  {
    hide IsStart, Played, KeptItems, KeptSoFar, KeptInOrder, Genuine, AllScored, FasterH1, Certifies, FirstBest,
      Requalifies,
      BaselineOf, Verdict, RunBest, PreviousKeep;
    EveryHistoryIsGenuine(start, limits, moves);
    EveryHistoryIsSound(start, limits, moves);
    var h := Played(start, limits, moves).value;
    IsGenuine(h);
    KeptChangesInOrder(policy, parent, h.records, readings, |h.records|);
    var items := KeptItems(h.records, readings, |h.records|).value;
    LastKeptIs(h.records, start.bestRevision);
    BaselineIsRead(policy, parent, h.records, readings);
    NotMovedEarly(start, h);
    FirstBestIs(policy, parent, h.records, readings, EndingOf(state));
    VerdictOnItems(start.(elapsedMs := 0), limits, policy, parent, h.records, readings, state, items);
    PassedOnIs(policy, parent, h, readings, items);
  }

  lemma NotMovedEarly(start: State, h: History)
    requires Opening(h) && KeepsJustified(h.records) && BestIsLastKept(start, h)
    ensures GoodBaseline(h.records) || h.state.bestRevision == start.bestRevision
  {
    hide KeepsJustified;
    LastKeptIs(h.records, start.bestRevision);
    if PreviousKeep(h.records, |h.records|) >= 0 {
      KeepsFollowBaseline(h.records);
    }
  }

  lemma PassedOnIs(policy: Policy, parent: Option<Parent>, h: History, readings: seq<Option<Reading>>, items: seq<Kept>)
    requires |h.records| == |readings| && KeptItems(h.records, readings, |h.records|) == Some(items)
    requires KeptSoFar(policy, parent, h.records, readings, |h.records|, items)
    ensures var baseline := BaselineOf(h.records, readings);
            var best := if baseline.Some? then FirstOf(parent, baseline) else ParentBest(parent);
            PassedOn(parent, h, readings) == Parent(InitialOf(parent, baseline), BestAfter(best, items, |items|),
                                                    h.state.bestRevision)
  {
    hide KeptItems, KeptInOrder, RunBest, PreviousKeep, BaselineOf;
  }

  /** What the verifier passes on of a scored run is a sound parent again. */
  lemma PassedOnIsSound(start: State, limits: Limits, moves: seq<Move>, policy: Policy, parent: Option<Parent>,
                        readings: seq<Option<Reading>>)
    requires IsStart(start) && Played(start, limits, moves).Ok? && StartsFrom(start, parent)
    requires |Played(start, limits, moves).value.records| == |readings|
    requires AllScored(policy, parent, Played(start, limits, moves).value.records, readings)
    ensures SoundParent(PassedOn(parent, Played(start, limits, moves).value, readings))
  {
    hide IsStart, Played, KeptMeasurements, Genuine, AllScored, FasterH1, Chain;
    EveryHistoryIsGenuine(start, limits, moves);
    var h := Played(start, limits, moves).value;
    IsGenuine(h);
    KeptMeasurementsChain(start, limits, moves, policy, parent, readings);
    if GoodBaseline(h.records) {
      BaselineRevision(policy, parent, start, h, readings);
    }
  }

  lemma BaselineRevision(policy: Policy, parent: Option<Parent>, start: State, h: History,
                         readings: seq<Option<Reading>>)
    requires |h.records| == |readings| && AllScored(policy, parent, h.records, readings)
    requires MeasuresStart(start, h) && GoodBaseline(h.records)
    ensures readings[1].Some? && readings[1].value.measurement.revision == start.bestRevision
  {
    hide LiveComparison;
    assert Scored(policy, parent, h.records, readings, 1);
  }

  /**
    A finished scored run is accepted exactly when its first step prepared it, no
    step but the last was a finish that time alone brought on, and, on a restart
    from measurements, a valid baseline repeated the parent's h1 rate.
  */
  lemma DoneAccepted(start: State, limits: Limits, moves: seq<Move>, policy: Policy, parent: Option<Parent>,
                     readings: seq<Option<Reading>>)
    requires IsStart(start) && Played(start, limits, moves).Ok? && WithinBudgets(start, limits)
             && StartsFrom(start, parent)
    requires |Played(start, limits, moves).value.records| == |readings|
    requires AllScored(policy, parent, Played(start, limits, moves).value.records, readings)
    requires Played(start, limits, moves).value.state.phase.Done?
    ensures moves != []
    ensures var h := Played(start, limits, moves).value;
            Verdict(start.(elapsedMs := 0), limits, policy, parent, h.records, readings, h.state) ==
              if InitialTestsPassed(h.records, h.state) && InTime(start, limits, moves, |moves| - 1)
                 && Requalifies(parent, BaselineOf(h.records, readings), false)
              then Ok(PassedOn(parent, h, readings)) else Err(())
  {
    hide IsStart, Played, AllScored, StartsFrom, Certifies, Verdict, PassedOn, Requalifies, InTime, Replay;
    DoneCertified(start, limits, moves);
    SequenceCounts(start, limits, moves);
    VerdictIsReplayAndBaseline(start, limits, moves, policy, parent, readings,
                               Played(start, limits, moves).value.state);
  }

  /**
    A run abandoned in a step is accepted exactly when its replay comes out and
    its baseline, if it has one, requalifies.
  */
  lemma AbandonedAccepted(start: State, limits: Limits, moves: seq<Move>, elapsedMs: int, policy: Policy,
                          parent: Option<Parent>, readings: seq<Option<Reading>>)
    requires IsStart(start) && Played(start, limits, moves).Ok? && WithinBudgets(start, limits)
             && StartsFrom(start, parent)
    requires |Played(start, limits, moves).value.records| == |readings|
    requires AllScored(policy, parent, Played(start, limits, moves).value.records, readings)
    requires Begin(Played(start, limits, moves).value.state, limits, elapsedMs).Ok?
    ensures var h := Played(start, limits, moves).value;
            var state, last := Begin(h.state, limits, elapsedMs).value, |moves| - 1;
            Verdict(start.(elapsedMs := 0), limits, policy, parent, h.records, readings, state) ==
              if && PhaseAt(h.state, limits, elapsedMs) == h.state.phase
                 && (if moves == [] then start.bestRevision == start.initialRevision
                     else
                       && |h.records| == |moves| && h.records[0].phase.Prepare? && h.records[0].outcome.Prepared?
                       && InTime(start, limits, moves, last)
                       && PhaseAt(At(start, limits, moves, last).state, limits, elapsedMs) == h.records[last].phase)
                 && Requalifies(parent, BaselineOf(h.records, readings), true)
              then Ok(PassedOn(parent, h, readings)) else Err(())
  {
    hide IsStart, Played, AllScored, StartsFrom, Certifies, Verdict, PassedOn, Requalifies, InTime, PhaseAt, Begin, At;
    AbandonedCertified(start, limits, moves, elapsedMs);
    BegunState(Played(start, limits, moves).value.state, limits, elapsedMs);
    VerdictIsReplayAndBaseline(start, limits, moves, policy, parent, readings,
                               Begin(Played(start, limits, moves).value.state, limits, elapsedMs).value);
  }

  /**
    Whatever was called and whatever failed on the way: when the store says that
    a prepared, scored run is done after one finish step, the verifier accepts it
    from the saved steps, unless it is a restart that did not requalify.
  */
  lemma SavedRunAccepted(start: State, limits: Limits, calls: seq<Driver.Call>, policy: Policy, parent: Option<Parent>,
                         readings: seq<Option<Reading>>)
    requires IsStart(start) && Driver.StateSchema(start) && WithinBudgets(start, limits) && StartsFrom(start, parent)
    requires var state := Driver.Current(Driver.AfterCalls(Driver.Disk([start], map[], []), limits, calls));
             state.phase.Done? && state.activeStep.None?
    ensures var d := Driver.AfterCalls(Driver.Disk([start], map[], []), limits, calls);
            var state := Driver.Current(d);
            && state.sequence >= 0 && (forall i :: 1 <= i <= state.sequence ==> i in d.steps && d.steps[i] != [])
            && var steps := SavedSteps(d, state.sequence);
               |steps| == |readings| && AllScored(policy, parent, steps, readings)
               && CountIn(steps, {Finish}) == 1 && InitialTestsPassed(steps, state) ==>
                 (Verdict(start.(elapsedMs := 0), limits, policy, parent, steps, readings, state).Ok? <==>
                    Requalifies(parent, BaselineOf(steps, readings), false))
  {
    hide IsStart, Certifies, CountIn, InitialTestsPassed, Played, AllScored, Verdict, Requalifies, StartsFrom, PassedOn;
    var moves, h, e := Driver.StoreShowsHistory(start, limits, calls);
    var d := Driver.AfterCalls(Driver.Disk([start], map[], []), limits, calls);
    ShownSteps(limits, d, h, e);
    if |h.records| == |readings| && AllScored(policy, parent, h.records, readings)
       && CountIn(h.records, {Finish}) == 1 && InitialTestsPassed(h.records, h.state) {
      SingleFinishCertified(start, limits, moves);
      VerdictIsReplayAndBaseline(start, limits, moves, policy, parent, readings, h.state);
    }
  }

  // ------------------------------------- the same run, fresh and as a restart

  const BASELINE_FAILS: seq<Move> := [Move(0, Prepared), Move(0, Failed("no benchmark")), Move(20, Finished)]

  lemma NothingToScore(policy: Policy, parent: Option<Parent>, records: seq<Record>, readings: seq<Option<Reading>>)
    requires |records| == |readings| && forall r :: r in records ==> !r.outcome.Measured?
    ensures AllScored(policy, parent, records, readings) && !GoodBaseline(records)
  {
    hide Scored;
  }

  lemma WithoutBaseline(start: State, parent: Option<Parent>, records: seq<Record>, readings: seq<Option<Reading>>)
    requires StartsFrom(start, parent) && |records| == |readings| && !GoodBaseline(records)
    ensures Requalifies(parent, BaselineOf(records, readings), false) <==> ParentInitial(parent).None?
  {
  }

  /** A run whose baseline fails is accepted when it is fresh, and refused when it restarts from measurements. */
  lemma FailedBaselineVerdict(start: State, policy: Policy, parent: Option<Parent>)
    requires IsStart(start) && start.elapsedMs == 0 && WithinBudgets(start, SHORT) && StartsFrom(start, parent)
    ensures Played(start, SHORT, BASELINE_FAILS).Ok?
    ensures var h := Played(start, SHORT, BASELINE_FAILS).value;
            && h.state.phase.Done? && |h.records| == 3
            && AllScored(policy, parent, h.records, [None, None, None])
            && Certifies(start.(elapsedMs := 0), SHORT, h.records, h.state)
            && (Verdict(start.(elapsedMs := 0), SHORT, policy, parent, h.records, [None, None, None], h.state).Ok? <==>
                  ParentInitial(parent).None?)
  {
    hide IsStart, Played, Certifies, Verdict, AllScored, PassedOn, CountIn, InitialTestsPassed, WithinBudgets,
      Requalifies,
      StartsFrom, BaselineOf, GoodBaseline, Replay;
    var h := FailedBaselineHistory(start);
    NothingToScore(policy, parent, h.records, [None, None, None]);
    WithoutBaseline(start, parent, h.records, [None, None, None]);
    SingleFinishCertified(start, SHORT, BASELINE_FAILS);
    SequenceCounts(start, SHORT, BASELINE_FAILS);
    VerdictIsReplayAndBaseline(start, SHORT, BASELINE_FAILS, policy, parent, [None, None, None], h.state);
  }

  /** A restart that measured well, but h1 half as fast again as before. */
  function DriftMoves(revision: string): seq<Move> {
    [Move(0, Prepared), Move(0, Measured(revision, true, false, false, false)), Move(20, Finished)]
  }

  function DriftParent(revision: string): Parent {
    var before := Restarts.Pair(revision, 100.0, 100.0);
    Parent(Some(before), Some(before), revision)
  }

  function DriftReading(revision: string): Reading {
    var before, again := Restarts.Pair(revision, 100.0, 100.0), Restarts.Pair(revision, 150.0, 100.0);
    Reading(again, Some(Judged(Restarts.TLS_ONLY, before, before, again)))
  }

  /** A genuine restart, prepared, measured and finished once, that the verifier refuses though its replay comes out. */
  lemma DriftedRestartRefused(start: State)
    requires IsStart(start) && start.elapsedMs == 0 && WithinBudgets(start, SHORT)
    requires start.bestRevision == start.initialRevision
    ensures Played(start, SHORT, DriftMoves(start.bestRevision)).Ok?
    ensures var h := Played(start, SHORT, DriftMoves(start.bestRevision)).value;
            var parent, readings := Some(DriftParent(start.bestRevision)),
              [None, Some(DriftReading(start.bestRevision)), None];
            && h.state.phase.Done? && |h.records| == 3 && StartsFrom(start, parent)
            && AllScored(Restarts.TLS_ONLY, parent, h.records, readings)
            && Certifies(start.(elapsedMs := 0), SHORT, h.records, h.state)
            && Verdict(start.(elapsedMs := 0), SHORT, Restarts.TLS_ONLY, parent, h.records, readings, h.state).Err?
  {
    hide IsStart, Played, Certifies, Verdict, AllScored, PassedOn, CountIn, InitialTestsPassed, WithinBudgets,
      Requalifies,
      StartsFrom, BaselineOf, Replay, DriftReading, DriftParent;
    var revision := start.bestRevision;
    var h := DriftHistory(start);
    assert revision != "" by { StartHasRevision(start); }
    DriftScored(revision, h.records);
    DriftDoesNotRequalify(start, h.records);
    SingleFinishCertified(start, SHORT, DriftMoves(revision));
    SequenceCounts(start, SHORT, DriftMoves(revision));
    VerdictIsReplayAndBaseline(start, SHORT, DriftMoves(revision), Restarts.TLS_ONLY, Some(DriftParent(revision)),
                               [None, Some(DriftReading(revision)), None], h.state);
  }

  lemma StartHasRevision(start: State)
    requires IsStart(start)
    ensures start.bestRevision != ""
  {
  }

  lemma DriftHistory(start: State) returns (h: History)
    requires IsStart(start) && start.elapsedMs == 0 && WithinBudgets(start, SHORT)
    ensures Played(start, SHORT, DriftMoves(start.bestRevision)) == Ok(h)
    ensures h.state.phase.Done? && CountIn(h.records, {Phase.Finish}) == 1 && InitialTestsPassed(h.records, h.state)
    ensures |h.records| == 3
            && h.records[1] == Record(2, Baseline, start.bestRevision, DriftMoves(start.bestRevision)[1].outcome)
    ensures !h.records[0].outcome.Measured? && !h.records[2].outcome.Measured?
  {
    hide Extended, WithinBudgets, IsStart, Played, ProgressAt, ValidProgress, CountIn;
    var moves := DriftMoves(start.bestRevision);
    assert moves[..1] == [moves[0]];
    var h1 := PrepareStep(start);
    WorkingAfterPrepare(start, h1);
    var h2 := MeasureStep(h1);
    h := EndStep(h2);
    PlayThree(start, SHORT, moves, h1, h2, h);
    OneFinish(h.records);
  }

  lemma WorkingAfterPrepare(start: State, h: History)
    requires IsStart(start) && Played(start, SHORT, [Move(0, Prepared)]) == Ok(h) && h.state.phase.Baseline?
    ensures h.state.workingRevision == start.bestRevision && h.state.sequence == 1
  {
    hide Played, Sound;
    EveryHistoryIsGenuine(start, SHORT, [Move(0, Prepared)]);
    SequenceCounts(start, SHORT, [Move(0, Prepared)]);
  }

  lemma MeasureStep(h1: History) returns (h: History)
    requires h1.state.phase.Baseline? && h1.state.activeStep.None? && h1.state.elapsedMs == 0 && h1.state.sequence == 1
    requires ValidProgress(ProgressAt(h1.state, 20))
    ensures var outcome := Measured(h1.state.workingRevision, true, false, false, false);
            && Extended(h1, SHORT, Move(0, outcome)) == Ok(h)
            && h.records == h1.records + [Record(2, Baseline, h1.state.workingRevision, outcome)]
    ensures h.state.phase.StartAttempt? && h.state.activeStep.None? && h.state.elapsedMs == 0
    ensures ValidProgress(ProgressAt(h.state, 20))
  {
    var outcome := Measured(h1.state.workingRevision, true, false, false, false);
    var reasons := InTheWay(SHORT, ProgressAt(h1.state, 0), StepKind(h1.state.phase));
    assert reasons == [];
    TwoBeginsReserve(h1.state, SHORT, 0);
    FinishingAdvances(Reserved(h1.state, 0), outcome);
    h := Extended(h1, SHORT, Move(0, outcome)).value;
  }

  lemma EndStep(h2: History) returns (h: History)
    requires h2.state.phase.StartAttempt? && h2.state.activeStep.None? && h2.state.elapsedMs == 0
    requires ValidProgress(ProgressAt(h2.state, 20))
    ensures Extended(h2, SHORT, Move(20, Finished)) == Ok(h) && h.state.phase.Done?
    ensures h.records == h2.records + [Record(h2.state.sequence + 1, Phase.Finish, h2.state.workingRevision, Finished)]
  {
    var reasons := InTheWay(SHORT, ProgressAt(h2.state, 20), StepKind(h2.state.phase));
    assert Duration in reasons && reasons[0] == Duration;
    TwoBeginsReserve(h2.state, SHORT, 20);
    FinishingAdvances(Reserved(Settled(h2.state, SHORT, 20), 20), Finished);
    h := Extended(h2, SHORT, Move(20, Finished)).value;
  }

  lemma DriftScored(revision: string, records: seq<Record>)
    requires revision != "" && |records| == 3
    requires records[1] == Record(2, Baseline, revision, DriftMoves(revision)[1].outcome)
    requires !records[0].outcome.Measured? && !records[2].outcome.Measured?
    ensures AllScored(Restarts.TLS_ONLY, Some(DriftParent(revision)), records,
                      [None, Some(DriftReading(revision)), None])
  {
    hide Judged, IsValid;
    Restarts.PairJudged(revision, 150.0, 100.0);
  }

  lemma DriftDoesNotRequalify(start: State, records: seq<Record>)
    requires IsStart(start) && start.bestRevision == start.initialRevision && |records| == 3
    requires GoodBaseline(records)
    ensures var parent, readings := Some(DriftParent(start.bestRevision)),
            [None, Some(DriftReading(start.bestRevision)), None];
            StartsFrom(start, parent) && !Requalifies(parent, BaselineOf(records, readings), false)
  {
    hide Judged, H1;
    Restarts.PairRates(start.bestRevision, 100.0, 100.0);
    Restarts.PairRates(start.bestRevision, 150.0, 100.0);
  }

  // ------------------------------------------------- campaigns of restarts

  lemma {:induction false} ItemsEnd(steps: seq<Record>, readings: seq<Option<Reading>>, n: nat)
    requires n <= |steps| == |readings| && KeptItems(steps, readings, n).Some?
    ensures var items, k := KeptItems(steps, readings, n).value, PreviousKeep(steps, n);
            && (items == [] <==> k < 0)
            && (items != [] ==> items[|items| - 1].measurement.revision == steps[k].outcome.revision)
  {
    hide GroundsOf;
    if n > 0 && KeptItems(steps, readings, n - 1).Some? {
      ItemsEnd(steps, readings, n - 1);
    }
  }

  /** A run that the verifier accepts is one of the restarts over which the best h1 rate is followed. */
  lemma AcceptedIsLeg(first: State, limits: Limits, policy: Policy, parent: Parent, steps: seq<Record>,
                      readings: seq<Option<Reading>>, state: State)
    requires |steps| == |readings| && Verdict(first, limits, policy, Some(parent), steps, readings, state).Ok?
    ensures VerifiedBaseline(steps, readings).Ok? && KeptItems(steps, readings, |steps|).Some?
    ensures var leg := Restarts.Leg(VerifiedBaseline(steps, readings).value, EndingOf(state),
                                    KeptItems(steps, readings, |steps|).value);
            Restarts.AfterLeg(policy, parent, leg) == Verdict(first, limits, policy, Some(parent), steps, readings,
                                                              state)
  {
    hide Certifies, VerifiedBaseline, KeptItems, FirstBest, AcceptedComparison;
    ItemsEnd(steps, readings, |steps|);
  }

  /** Whatever the verifier accepts of a restart with h1 in its goal, the best that it passes on is no slower on h1. */
  lemma AcceptedRestartKeepsH1(first: State, limits: Limits, policy: Policy, parent: Parent, steps: seq<Record>,
                               readings: seq<Option<Reading>>, state: State)
    requires |steps| == |readings| && Verdict(first, limits, policy, Some(parent), steps, readings, state).Ok?
    requires "h1" in Workloads(policy.goal) && Restarts.Sane(parent)
    ensures Restarts.NotSlower(parent.best,
                               Verdict(first, limits, policy, Some(parent), steps, readings, state).value.best)
  {
    hide Verdict, VerifiedBaseline, KeptItems;
    AcceptedIsLeg(first, limits, policy, parent, steps, readings, state);
    Restarts.H1NeverFalls(policy, parent,
      Restarts.Leg(VerifiedBaseline(steps, readings).value, EndingOf(state),
                   KeptItems(steps, readings, |steps|).value));
  }
}
