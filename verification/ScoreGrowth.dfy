/**
  Scores over whole runs and restarts: how an assessment becomes a step's
  outcome, which measurement counts as the best one, and how fast the best one
  has to grow.
*/
module ScoreGrowth {
  import opened Wrappers
  import opened Control
  import RunState

  datatype Policy = Policy(goal: Goal, protections: seq<Protection>, fraction: real)

  /** What a certified parent run passes on. */
  datatype Parent = Parent(initial: Option<Measurement>, best: Option<Measurement>, bestRevision: string)

  function Judged(policy: Policy, initial: Measurement, best: Measurement, current: Measurement): Assessment {
    Assessed(policy.goal, policy.protections, initial, best, current, policy.fraction)
  }

  predicate IsValid(a: Assessment) {
    a.faults == []
  }

  // ----------------------------------------------- from assessment to outcome

  function ParentInitial(parent: Option<Parent>): Option<Measurement> {
    if parent.Some? then parent.value.initial else None
  }

  function ParentBest(parent: Option<Parent>): Option<Measurement> {
    if parent.Some? then parent.value.best else None
  }

  function OrElse<T>(a: Option<T>, b: Option<T>): Option<T> {
    if a.Some? then a else b
  }

  /** On a restart the baseline measures the parent's best revision again: same code, same library, same settings. */
  predicate SameBuild(current: Measurement, best: Measurement) {
    current.revision == best.revision && current.nativeSha256 != "" && current.nativeSha256 == best.nativeSha256
    && current.protocolId == best.protocolId
  }

  /** The comparison that is saved, unless a measurement is missing or a requalification is of another build. */
  function Comparing(isBaseline: bool, policy: Policy, savedInitial: Option<Measurement>,
                     savedBest: Option<Measurement>, current: Option<Measurement>,
                     parent: Option<Parent>): Option<Assessment> {
    var initial, best := OrElse(ParentInitial(parent), savedInitial), OrElse(ParentBest(parent), savedBest);
    if initial.Some? && best.Some? && current.Some?
       && (isBaseline && ParentBest(parent).Some? ==> SameBuild(current.value, best.value))
    then Some(Judged(policy, initial.value, best.value, current.value)) else None
  }

  const REQUALIFICATION_FAILED: string := "Best requalification failed original H2 floor or comparability"

  /** The outcome of a measurement step whose comparison came out so. */
  function Judgement(isBaseline: bool, revision: string, parent: Option<Parent>,
                     result: Option<Assessment>): RunState.Outcome {
    if isBaseline && ParentInitial(parent).Some?
      && !(result.Some? && result.value.protectedPerformance == Some(true)) then
      RunState.Failed(REQUALIFICATION_FAILED)
    else
      RunState.Measured(revision, result.Some? && IsValid(result.value), false,
                        result.Some? && result.value.targetMet == Some(true),
                        result.Some? && result.value.improved == Some(true))
  }

  /**
    Compares a measurement with the initial and the best one.  A measurement is
    absent when its saved outputs could not be read.  `savedInitial` and
    `savedBest` are used only where the parent has none.
  */
  method CompareSaved(isBaseline: bool, revision: string, policy: Policy, savedInitial: Option<Measurement>,
                      savedBest: Option<Measurement>, current: Option<Measurement>, parent: Option<Parent>)
    returns (outcome: RunState.Outcome, result: Option<Assessment>)
    ensures result == Comparing(isBaseline, policy, savedInitial, savedBest, current, parent)
    ensures outcome == Judgement(isBaseline, revision, parent, result)
    ensures var initial := if ParentInitial(parent).Some? then ParentInitial(parent) else savedInitial;
            var best := if ParentBest(parent).Some? then ParentBest(parent) else savedBest;
            && (result.Some? <==>
                  && initial.Some? && best.Some? && current.Some?
                  && (isBaseline && ParentBest(parent).Some? ==>
                        && current.value.revision == best.value.revision && current.value.nativeSha256 != ""
                        && current.value.nativeSha256 == best.value.nativeSha256
                        && current.value.protocolId == best.value.protocolId))
            && (result.Some? ==> result.value == Judged(policy, initial.value, best.value, current.value))
    ensures if isBaseline && ParentInitial(parent).Some?
            && (result.None? || result.value.protectedPerformance != Some(true))
            then outcome.Failed?
            else
              && outcome.Measured? && outcome.revision == revision && !outcome.inconclusive
              && (outcome.valid <==> result.Some? && result.value.faults == [])
              && (outcome.targetMet <==> result.Some? && result.value.targetMet == Some(true))
              && (outcome.improved <==> result.Some? && result.value.improved == Some(true))
  {
    hide Assessed, CandidateFaults;
    result := None;
    var initial, best := OrElse(ParentInitial(parent), savedInitial), OrElse(ParentBest(parent), savedBest);
    if initial.Some? && best.Some? && current.Some? {
      if !(isBaseline && ParentBest(parent).Some? && !SameBuild(current.value, ParentBest(parent).value)) {
        var assessed := AssessCandidate(policy.goal, policy.protections, initial.value, best.value, current.value,
                                        policy.fraction);
        result := Some(assessed);
      }
    }
    if isBaseline && ParentInitial(parent).Some? && !(result.Some? && result.value.protectedPerformance == Some(true)) {
      return RunState.Failed(REQUALIFICATION_FAILED), result;
    }
    outcome := RunState.Measured(revision, result.Some? && IsValid(result.value), false,
                                 result.Some? && result.value.targetMet == Some(true),
                                 result.Some? && result.value.improved == Some(true));
  }

  /** The baseline of a fresh run, compared with itself, starts attempts and never ends the run as met. */
  lemma FreshBaselineGoesOn(policy: Policy, baseline: Measurement)
    requires IsValid(Judged(policy, baseline, baseline, baseline))
    ensures Judged(policy, baseline, baseline, baseline).targetMet == Some(false)
    ensures Judged(policy, baseline, baseline, baseline).improved == Some(false)
  {
    BaselineNeverImproves(policy.goal, policy.protections, baseline, policy.fraction);
  }

  // ------------------------------------------------------ the verifier's check

  /** Whether the saved comparison and outcome of an accepted measurement are what the scores give. */
  predicate AcceptedComparison(policy: Policy, initial: Measurement, best: Measurement, current: Measurement,
                               saved: Assessment, valid: bool, targetMet: bool, improved: bool) {
    var assessed := Judged(policy, initial, best, current);
    && IsValid(assessed) && assessed.improved == Some(true) && saved == assessed
    && valid && improved && (targetMet <==> assessed.targetMet == Some(true))
  }

  /** Every measurement that the run accepted passes the verifier, and the verifier passes no other outcome of it. */
  lemma AcceptedMeasurementsVerify(policy: Policy, initial: Measurement, best: Measurement, current: Measurement,
                                   valid: bool, targetMet: bool, improved: bool)
    requires var a := Judged(policy, initial, best, current);
             valid == IsValid(a) && targetMet == (a.targetMet == Some(true)) && improved == (a.improved == Some(true))
    ensures AcceptedComparison(policy, initial, best, current, Judged(policy, initial, best, current), valid, targetMet,
                               improved)
       <==> valid && (improved || targetMet)
  {
    hide CandidateFaults, AllMet;
  }

  // --------------------------------------------------------- which is the best

  /** The first rate of the own h1 server, as the restart compares it. */
  function H1(m: Measurement): Option<real> {
    var cells := Cells(m.scores, "h1", OWN);
    if cells == [] then None else Some(cells[0].requestsPerSecond)
  }

  predicate FasterH1(a: Measurement, b: Measurement) {
    H1(a).Some? && H1(b).Some? && H1(a).value > H1(b).value
  }

  /** The initial measurement: the parent's, or this run's baseline. */
  function InitialOf(parent: Option<Parent>, baseline: Option<Measurement>): Option<Measurement> {
    OrElse(ParentInitial(parent), baseline)
  }

  /** What a live run compares a candidate with: the last kept measurement, or what it started with. */
  function RunBest(parent: Option<Parent>, baseline: Measurement, lastKept: Option<Measurement>): Option<Measurement> {
    if lastKept.Some? then lastKept
    else if ParentBest(parent).Some? && FasterH1(baseline, ParentBest(parent).value) then Some(baseline)
    else if ParentBest(parent).Some? then ParentBest(parent)
    else InitialOf(parent, Some(baseline))
  }

  /** A measurement that a run kept, with its saved comparison and outcome. */
  datatype Kept = Kept(measurement: Measurement, saved: Assessment, valid: bool, targetMet: bool, improved: bool)

  predicate Repeats(again: real, before: real) {
    (if again < before then before - again else again - before) <= 0.05 * before
  }

  /** A restart's baseline is close enough to the parent's best, and within the original allowances. */
  predicate Requalified(policy: Policy, initial: Measurement, best: Measurement, baseline: Measurement) {
    var assessed := Judged(policy, initial, best, baseline);
    && best.nativeSha256 == baseline.nativeSha256
    && IsValid(assessed) && assessed.protectedPerformance == Some(true)
    && H1(best).Some? && H1(baseline).Some? && Repeats(H1(baseline).value, H1(best).value)
  }

  /** How the run ended: in the middle of a step, and with its best revision moved from the initial one. */
  datatype Ending = Ending(interrupted: bool, moved: bool)

  /** The measurement that the verifier starts the kept changes from, if the run is in order so far. */
  function FirstBest(policy: Policy, parent: Option<Parent>, baseline: Option<Measurement>,
                     ending: Ending): Result<Option<Measurement>, ()> {
    var initial := ParentInitial(parent);
    if initial.Some? && baseline.Some?
       && (baseline.value.protocolId != initial.value.protocolId
           || baseline.value.revision != parent.value.bestRevision)
    then Err(())
    else if initial.Some? && baseline.None? && !ending.interrupted then Err(())
    else if InitialOf(parent, baseline).None? && ending.moved then Err(())
    else if initial.Some? && ParentBest(parent).Some? && baseline.Some? then
      if !Requalified(policy, initial.value, ParentBest(parent).value, baseline.value) then Err(())
      else Ok(if FasterH1(baseline.value, ParentBest(parent).value) then baseline else ParentBest(parent))
    else Ok(OrElse(ParentBest(parent), InitialOf(parent, baseline)))
  }

  function BestAfter(first: Option<Measurement>, kept: seq<Kept>, n: nat): Option<Measurement>
    requires n <= |kept|
  {
    if n == 0 then first else Some(kept[n - 1].measurement)
  }

  predicate KeptInOrder(policy: Policy, initial: Option<Measurement>, first: Option<Measurement>, kept: seq<Kept>,
                        n: nat)
    requires n <= |kept|
  {
    forall k :: 0 <= k < n ==> KeptAt(policy, initial, first, kept, k)
  }

  /** The k-th kept change was accepted against the one before it. */
  predicate KeptAt(policy: Policy, initial: Option<Measurement>, first: Option<Measurement>, kept: seq<Kept>, k: nat)
    requires k < |kept|
  {
    && initial.Some? && BestAfter(first, kept, k).Some?
    && AcceptedComparison(policy, initial.value, BestAfter(first, kept, k).value, kept[k].measurement, kept[k].saved,
                          kept[k].valid, kept[k].targetMet, kept[k].improved)
  }

  /** The verifier's walk over the kept changes; it returns the best measurement, or fails. */
  method VerifyScores(policy: Policy, parent: Option<Parent>, baseline: Option<Measurement>, ending: Ending,
                      kept: seq<Kept>)
    returns (r: Result<Option<Measurement>, ()>)
    ensures r.Ok? <==>
      && FirstBest(policy, parent, baseline, ending).Ok?
      && KeptInOrder(policy, InitialOf(parent, baseline), FirstBest(policy, parent, baseline, ending).value, kept,
                     |kept|)
    ensures r.Ok? ==> r.value == BestAfter(FirstBest(policy, parent, baseline, ending).value, kept, |kept|)
  {
    hide AcceptedComparison, FirstBest;
    var initial := InitialOf(parent, baseline);
    var first := FirstBest(policy, parent, baseline, ending);
    if first.Err? {
      return Err(());
    }
    var best := first.value;
    for k := 0 to |kept|
      invariant best == BestAfter(first.value, kept, k)
      invariant KeptInOrder(policy, initial, first.value, kept, k)
    {
      var item := kept[k];
      if initial.None? || best.None?
         || !AcceptedComparison(policy, initial.value, best.value, item.measurement, item.saved,
                                item.valid, item.targetMet, item.improved) {
        assert !KeptAt(policy, initial, first.value, kept, k);
        return Err(());
      }
      best := Some(item.measurement);
    }
    return Ok(best);
  }

  /** The verifier compares each kept change with the same measurement as the live run did. */
  lemma BestsAgree(policy: Policy, parent: Option<Parent>, baseline: Measurement, ending: Ending, kept: seq<Kept>,
                   k: nat)
    requires FirstBest(policy, parent, Some(baseline), ending).Ok? && k <= |kept|
    requires ParentBest(parent).Some? ==> ParentInitial(parent).Some?
    ensures BestAfter(FirstBest(policy, parent, Some(baseline), ending).value, kept, k)
         == RunBest(parent, baseline, if k == 0 then None else Some(kept[k - 1].measurement))
  {
    hide Requalified;
  }

  // ---------------------------------------------------------------- growth

  function Power(base: real, n: nat): real {
    if n == 0 then 1.0 else Power(base, n - 1) * base
  }

  /** Every kept measurement was accepted against the one before it. */
  ghost predicate Chain(policy: Policy, initial: Measurement, first: Measurement, kept: seq<Measurement>) {
    forall k :: 0 <= k < |kept| ==> Improves(policy, initial, Last(first, kept[..k]), kept[k])
  }

  predicate Improves(policy: Policy, initial: Measurement, best: Measurement, current: Measurement) {
    var a := Judged(policy, initial, best, current);
    IsValid(a) && a.improved == Some(true)
  }

  function Last(first: Measurement, kept: seq<Measurement>): Measurement {
    if kept == [] then first else kept[|kept| - 1]
  }

  lemma LinkGrows(policy: Policy, initial: Measurement, best: Measurement, current: Measurement)
    requires Improves(policy, initial, best, current)
    ensures BeatsBest(policy.goal, best, current, policy.fraction) && Protects(policy.protections, initial, current)
    ensures 0.03 <= policy.fraction <= 0.05
  {
    hide Assessed, BeatsBest, Protects;
    AssessmentIsExact(policy.goal, policy.protections, initial, best, current, policy.fraction);
  }

  /** One more factor: the rate now exceeds the rate before times the base. */
  lemma OneMoreFactor(first: real, before: real, now: real, base: real, n: nat)
    requires before >= first * Power(base, n) && base > 0.0 && now > before * base
    ensures now > first * Power(base, n + 1)
  {
    var power := Power(base, n);
    assert (before - first * power) * base >= 0.0;
    assert (before - first * power) * base == before * base - first * (power * base);
  }

  lemma ChainEnds(policy: Policy, initial: Measurement, first: Measurement, kept: seq<Measurement>)
    requires Chain(policy, initial, first, kept) && kept != []
    ensures var before := kept[..|kept| - 1];
            Chain(policy, initial, first, before) && Improves(policy, initial, Last(first, before), Last(first, kept))
  {
    hide Improves;
    var before := kept[..|kept| - 1];
    assert forall k :: 0 <= k < |before| ==> before[..k] == kept[..k];
  }

  /** After n kept changes the best rate of every goal workload exceeds the first one times (1 + fraction)^n. */
  lemma {:induction false} GrowthCompounds(policy: Policy, initial: Measurement, first: Measurement,
                                           kept: seq<Measurement>, w: string)
    requires Chain(policy, initial, first, kept) && w in Workloads(policy.goal) && Rate(first, w, OWN).Some?
    ensures Rate(Last(first, kept), w, OWN).Some?
    ensures var grown := Rate(first, w, OWN).value * Power(1.0 + policy.fraction, |kept|);
            if kept == [] then Rate(Last(first, kept), w, OWN).value == grown
            else Rate(Last(first, kept), w, OWN).value > grown
  {
    hide Rate, Improves, Chain, Last, Power;
    if kept == [] {
      NothingKept(policy, first);
    } else {
      var before := kept[..|kept| - 1];
      ChainEnds(policy, initial, first, kept);
      GrowthCompounds(policy, initial, first, before, w);
      LinkGrows(policy, initial, Last(first, before), Last(first, kept));
      assert MeetsFloor(Rate(Last(first, before), w, OWN), Rate(Last(first, kept), w, OWN), policy.fraction);
      OneMoreFactor(Rate(first, w, OWN).value, Rate(Last(first, before), w, OWN).value,
                    Rate(Last(first, kept), w, OWN).value,
                    1.0 + policy.fraction, |before|);
    }
  }

  lemma NothingKept(policy: Policy, first: Measurement)
    ensures Last(first, []) == first && Power(1.0 + policy.fraction, 0) == 1.0
  {
  }

  /**
    However many changes are kept, no protected workload falls below its
    allowance against the first of all measurements.
  */
  lemma ProtectionDoesNotCompound(policy: Policy, initial: Measurement, first: Measurement, kept: seq<Measurement>,
                                  k: nat, p: Protection)
    requires Chain(policy, initial, first, kept) && k < |kept| && p in policy.protections
    ensures Rate(initial, p.workload, OWN).Some? && Rate(kept[k], p.workload, OWN).Some?
    ensures Rate(kept[k], p.workload, OWN).value >= Rate(initial, p.workload, OWN).value * (1.0 - p.maxDecreaseFraction)
  {
    hide Rate, Improves;
    LinkGrows(policy, initial, Last(first, kept[..k]), kept[k]);
  }

  // -------------------------------------------------------------- restarts

  lemma H1IsRate(m: Measurement)
    requires Rate(m, "h1", OWN).Some?
    ensures H1(m) == Rate(m, "h1", OWN)
  {
  }

  function Measurements(kept: seq<Kept>): seq<Measurement> {
    seq(|kept|, i requires 0 <= i < |kept| => kept[i].measurement)
  }

  lemma AcceptedImproves(policy: Policy, initial: Measurement, best: Measurement, item: Kept)
    requires AcceptedComparison(policy, initial, best, item.measurement, item.saved, item.valid, item.targetMet,
                                item.improved)
    ensures Improves(policy, initial, best, item.measurement)
  {
    hide Judged;
  }

  /** What the verifier accepts is a chain from its first best measurement. */
  lemma VerifiedIsChain(policy: Policy, initial: Measurement, first: Measurement, kept: seq<Kept>)
    requires KeptInOrder(policy, Some(initial), Some(first), kept, |kept|)
    ensures Chain(policy, initial, first, Measurements(kept))
  {
    hide Improves, AcceptedComparison;
    var all := Measurements(kept);
    forall k | 0 <= k < |kept| ensures Improves(policy, initial, Last(first, all[..k]), all[k]) {
      assert BestAfter(Some(first), kept, k) == Some(Last(first, all[..k]));
      assert KeptAt(policy, Some(initial), Some(first), kept, k);
      AcceptedImproves(policy, initial, Last(first, all[..k]), kept[k]);
    }
  }
}
