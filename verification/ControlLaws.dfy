/**
  What an assessment says, told from the rates: which faults there are and why,
  when a goal is met, and what each line of the report compares; and what the
  verifier asks of a saved comparison and of a requalified baseline.
*/
module ControlLaws {
  import opened Wrappers
  import opened Control
  import opened ScoreGrowth

  // ----------------------------------------------------------------- faults

  /** Competitors to be compared with: some, all different, each with a name that is not the own server's. */
  ghost predicate WellChosen(adapters: seq<string>) {
    && |adapters| > 0
    && (forall i, j :: 0 <= i < j < |adapters| ==> adapters[i] != adapters[j])
    && (forall i :: 0 <= i < |adapters| ==> adapters[i] != "" && adapters[i] != "busker")
  }

  ghost predicate WellNamed(workloads: seq<string>) {
    && |workloads| > 0
    && (forall i, j :: 0 <= i < j < |workloads| ==> workloads[i] != workloads[j])
    && (forall i :: 0 <= i < |workloads| ==> workloads[i] != "")
  }

  /** The measurement has no rate for this workload and server. */
  predicate Lacks(m: Measurement, id: string, workload: string, adapter: string) {
    m.id == id && Rate(m, workload, adapter).None?
  }

  /** What gives rise to a fault when two measurements are compared for a goal. */
  ghost predicate GoalCause(goal: Goal, initial: Measurement, current: Measurement, f: Fault) {
    match f
    case NotABenchmark => !initial.benchmark || !current.benchmark
    case MissingIdentity => initial.id == "" || current.id == "" || initial.revision == "" || current.revision == ""
    case ProtocolsDiffer => initial.protocolId == "" || initial.protocolId != current.protocolId
    case BadWorkloads => !WellNamed(Workloads(goal))
    case BadMultiplier => goal.ImproveBaseline? && goal.multiplier <= 1.0
    case BadScore(id, workload, adapter) =>
      || (workload in Workloads(goal) && adapter == "busker"
          && (Lacks(initial, id, workload, adapter) || Lacks(current, id, workload, adapter)))
      || (goal.BeatAll? && Lacks(initial, id, workload, adapter)
          && exists c :: c in goal.competitors && c.workload == workload && WellChosen(c.adapters)
              && adapter in c.adapters)
    case BadCompetitors(workload) =>
      goal.BeatAll? && exists c :: c in goal.competitors && c.workload == workload && !WellChosen(c.adapters)
    case _ => false
  }

  lemma ChosenIs(adapters: seq<string>)
    ensures ValidCompetitors(adapters) <==> WellChosen(adapters)
  {
    if WellChosen(adapters) {
      forall a | a in adapters ensures a != "" && a != OWN {
        var i :| 0 <= i < |adapters| && adapters[i] == a;
      }
    }
    if ValidCompetitors(adapters) {
      forall i | 0 <= i < |adapters| ensures adapters[i] != "" && adapters[i] != "busker" {
        assert adapters[i] in adapters;
      }
    }
  }

  lemma NamedIs(workloads: seq<string>)
    ensures ValidWorkloads(workloads) <==> WellNamed(workloads)
  {
    if WellNamed(workloads) {
      forall w | w in workloads ensures w != "" {
        var i :| 0 <= i < |workloads| && workloads[i] == w;
      }
    }
    if ValidWorkloads(workloads) {
      forall i | 0 <= i < |workloads| ensures workloads[i] != "" {
        assert workloads[i] in workloads;
      }
    }
  }

  lemma HeaderCauses(goal: Goal, initial: Measurement, current: Measurement, f: Fault)
    ensures f in HeaderFaults(goal, initial, current) <==>
      !f.BadScore? && !f.BadCompetitors? && GoalCause(goal, initial, current, f)
  {
    hide ValidWorkloads, WellNamed, Rate;
    NamedIs(Workloads(goal));
  }

  lemma {:induction false} RateCauses(m: Measurement, workload: string, adapters: seq<string>, f: Fault)
    ensures f in AllRateFaults(m, workload, adapters) <==>
      f.BadScore? && f.workload == workload && f.adapter in adapters && Lacks(m, f.measurement, workload, f.adapter)
  {
    hide Rate;
    if adapters != [] {
      RateCauses(m, workload, adapters[..|adapters| - 1], f);
      assert adapters == adapters[..|adapters| - 1] + [adapters[|adapters| - 1]];
    }
  }

  /** What gives rise to a fault about workload i. */
  ghost predicate WorkloadCause(goal: Goal, initial: Measurement, current: Measurement, i: nat, f: Fault)
    requires i < |Workloads(goal)|
  {
    var workload := Workloads(goal)[i];
    match f
    case BadScore(id, w, adapter) =>
      && w == workload
      && ((adapter == "busker" && (Lacks(initial, id, w, adapter) || Lacks(current, id, w, adapter)))
          || (goal.BeatAll? && WellChosen(goal.competitors[i].adapters) && adapter in goal.competitors[i].adapters
              && Lacks(initial, id, w, adapter)))
    case BadCompetitors(w) => w == workload && goal.BeatAll? && !WellChosen(goal.competitors[i].adapters)
    case _ => false
  }

  lemma ComparedCauses(goal: Goal, initial: Measurement, current: Measurement, i: nat, f: Fault)
    requires i < |Workloads(goal)|
    ensures f in ComparedFaults(goal, initial, current, i) <==> WorkloadCause(goal, initial, current, i, f)
  {
    hide Rate, ValidCompetitors, WellChosen;
    if goal.BeatAll? {
      ChosenIs(goal.competitors[i].adapters);
      RateCauses(initial, Workloads(goal)[i], goal.competitors[i].adapters, f);
    }
  }

  lemma {:induction false} UpToCauses(goal: Goal, initial: Measurement, current: Measurement, n: nat, f: Fault)
    requires n <= |Workloads(goal)|
    ensures f in FaultsUpTo(goal, initial, current, n) <==>
      || f in HeaderFaults(goal, initial, current)
      || exists i :: 0 <= i < n && WorkloadCause(goal, initial, current, i, f)
  {
    hide ComparedFaults, HeaderFaults, WorkloadCause, Workloads;
    if n > 0 {
      UpToCauses(goal, initial, current, n - 1, f);
      ComparedCauses(goal, initial, current, n - 1, f);
    }
  }

  /** The faults of comparing two measurements for a goal are exactly those with a cause. */
  lemma GoalFaultsHaveCauses(goal: Goal, initial: Measurement, current: Measurement, f: Fault)
    ensures f in GoalFaults(goal, initial, current) <==> GoalCause(goal, initial, current, f)
  {
    hide Rate, WellChosen, FaultsUpTo, HeaderFaults, WellNamed;
    var n := |Workloads(goal)|;
    UpToCauses(goal, initial, current, n, f);
    HeaderCauses(goal, initial, current, f);
    if exists i :: 0 <= i < n && WorkloadCause(goal, initial, current, i, f) {
      var i :| 0 <= i < n && WorkloadCause(goal, initial, current, i, f);
      assert Workloads(goal)[i] in Workloads(goal);
      if goal.BeatAll? {
        assert goal.competitors[i] in goal.competitors;
      }
    }
    if f.BadScore? && GoalCause(goal, initial, current, f) {
      ScoreCauseHasIndex(goal, initial, current, f);
    }
    if f.BadCompetitors? && GoalCause(goal, initial, current, f) {
      var c :| c in goal.competitors && c.workload == f.workload && !WellChosen(c.adapters);
      var i :| 0 <= i < |goal.competitors| && goal.competitors[i] == c;
      assert WorkloadCause(goal, initial, current, i, f);
    }
  }

  lemma ScoreCauseHasIndex(goal: Goal, initial: Measurement, current: Measurement, f: Fault)
    requires f.BadScore? && GoalCause(goal, initial, current, f)
    ensures exists i :: 0 <= i < |Workloads(goal)| && WorkloadCause(goal, initial, current, i, f)
  {
    hide Rate, WellChosen;
    if f.workload in Workloads(goal) && f.adapter == "busker"
       && (Lacks(initial, f.measurement, f.workload, f.adapter)
           || Lacks(current, f.measurement, f.workload, f.adapter)) {
      var i :| 0 <= i < |Workloads(goal)| && Workloads(goal)[i] == f.workload;
      assert WorkloadCause(goal, initial, current, i, f);
    } else {
      var c :| c in goal.competitors && c.workload == f.workload && WellChosen(c.adapters) && f.adapter in c.adapters;
      var i :| 0 <= i < |goal.competitors| && goal.competitors[i] == c;
      assert WorkloadCause(goal, initial, current, i, f);
    }
  }

  ghost predicate AllowanceCause(protections: seq<Protection>, initial: Measurement, current: Measurement, f: Fault) {
    match f
    case BadAllowance =>
      exists p :: p in protections && (p.workload == "" || p.maxDecreaseFraction < 0.0 || p.maxDecreaseFraction >= 1.0)
    case BadProtectedScore(id, workload) =>
      && (exists p :: p in protections && p.workload == workload)
      && (Lacks(initial, id, workload, "busker") || Lacks(current, id, workload, "busker"))
    case _ => false
  }

  lemma CheckCauses(p: Protection, initial: Measurement, current: Measurement, f: Fault)
    ensures f in CheckFaults(p, initial, current) <==> AllowanceCause([p], initial, current, f)
  {
    hide Rate;
    assert p in [p];
  }

  lemma CausesJoin(protections: seq<Protection>, p: Protection, initial: Measurement, current: Measurement, f: Fault)
    ensures AllowanceCause(protections + [p], initial, current, f) <==>
      AllowanceCause(protections, initial, current, f) || AllowanceCause([p], initial, current, f)
  {
    hide Rate, Lacks;
    assert forall q :: q in protections + [p] <==> q in protections || q in [p];
  }

  lemma {:induction false} ChecksCauses(protections: seq<Protection>, initial: Measurement, current: Measurement,
                                        f: Fault)
    ensures f in ChecksFaults(protections, initial, current) <==> AllowanceCause(protections, initial, current, f)
  {
    hide CheckFaults, AllowanceCause;
    if protections == [] {
      NoProtections(initial, current, f);
    } else {
      var before, p := protections[..|protections| - 1], protections[|protections| - 1];
      ChecksCauses(before, initial, current, f);
      CheckCauses(p, initial, current, f);
      CausesJoin(before, p, initial, current, f);
      assert protections == before + [p];
    }
  }

  lemma NoProtections(initial: Measurement, current: Measurement, f: Fault)
    ensures !AllowanceCause([], initial, current, f)
  {
  }

  /** The faults of assessing a candidate are exactly those with a cause. */
  lemma CandidateFaultsHaveCauses(goal: Goal, protections: seq<Protection>, initial: Measurement, best: Measurement,
                                  current: Measurement, fraction: real, f: Fault)
    ensures f in CandidateFaults(goal, protections, initial, best, current, fraction) <==>
      || GoalCause(goal, initial, current, f)
      || GoalCause(goal, initial, best, f)
      || (f == BadFraction && !(0.03 <= fraction <= 0.05))
      || (f == DuplicateProtections
          && exists i, j :: 0 <= i < j < |protections| && protections[i].workload == protections[j].workload)
      || AllowanceCause(protections, initial, current, f)
  {
    hide GoalFaults, GoalCause, ChecksFaults, AllowanceCause;
    GoalFaultsHaveCauses(goal, initial, current, f);
    GoalFaultsHaveCauses(goal, initial, best, f);
    ChecksCauses(protections, initial, current, f);
  }

  // -------------------------------------------------------------- the goal

  /** The goal is met: each workload is faster by the multiplier, or faster than every competitor. */
  ghost predicate GoalIsMet(goal: Goal, initial: Measurement, current: Measurement) {
    if goal.ImproveBaseline? then
      forall w :: w in goal.workloads ==> IsAtLeast(Rate(current, w, OWN), Rate(initial, w, OWN), goal.multiplier)
    else
      forall c, a :: c in goal.competitors && a in c.adapters ==>
        Beats(Rate(current, c.workload, OWN), Rate(initial, c.workload, a))
  }

  predicate IsAtLeast(now: Option<real>, before: Option<real>, factor: real) {
    now.Some? && before.Some? && now.value >= before.value * factor
  }

  predicate Beats(now: Option<real>, rival: Option<real>) {
    now.Some? && rival.Some? && now.value > rival.value
  }

  ghost predicate WorkloadIsMet(goal: Goal, initial: Measurement, current: Measurement, i: nat)
    requires i < |Workloads(goal)|
  {
    var workload := Workloads(goal)[i];
    if goal.ImproveBaseline? then
      IsAtLeast(Rate(current, workload, OWN), Rate(initial, workload, OWN), goal.multiplier)
    else
      forall a :: a in goal.competitors[i].adapters ==> Beats(Rate(current, workload, OWN), Rate(initial, workload, a))
  }

  lemma MetIs(goal: Goal, initial: Measurement, current: Measurement, i: nat)
    requires i < |Workloads(goal)| && GoalFaults(goal, initial, current) == []
    ensures Compared(goal, initial, current, i).met <==> WorkloadIsMet(goal, initial, current, i)
  {
    hide Rate, ValidWorkloads;
    FaultsGrow(goal, initial, current, |Workloads(goal)|);
    assert HasRates(goal, initial, current, i);
    if goal.BeatAll? {
      HasBest(initial, Workloads(goal)[i], goal.competitors[i].adapters);
      BestOfIsGreatest(initial, Workloads(goal)[i], goal.competitors[i].adapters);
    }
  }

  lemma {:induction false} HasBest(m: Measurement, workload: string, adapters: seq<string>)
    ensures BestOf(m, workload, adapters).Some? <==>
      adapters != [] && forall a :: a in adapters ==> Rate(m, workload, a).Some?
  {
    hide Rate;
    if |adapters| > 0 {
      var last := |adapters| - 1;
      HasBest(m, workload, adapters[..last]);
      assert adapters == adapters[..last] + [adapters[last]];
      assert |adapters| == 1 ==> adapters == [adapters[0]];
    }
  }

  /** Of faultless measurements the assessment says exactly whether the goal is met. */
  lemma GoalMetExactly(goal: Goal, initial: Measurement, current: Measurement)
    requires GoalFaults(goal, initial, current) == []
    ensures AllMet(Comparisons(goal, initial, current)) <==> GoalIsMet(goal, initial, current)
  {
    hide Rate, Compared, GoalFaults, Beats, IsAtLeast;
    var all := Comparisons(goal, initial, current);
    forall i | 0 <= i < |Workloads(goal)|
      ensures all[i].met <==> WorkloadIsMet(goal, initial, current, i)
    {
      MetIs(goal, initial, current, i);
    }
    if AllMet(all) {
      forall i | 0 <= i < |all| ensures all[i].met {
        assert all[i] in all;
      }
      AllMetMeans(goal, initial, current);
    }
  }

  lemma AllMetMeans(goal: Goal, initial: Measurement, current: Measurement)
    requires forall i :: 0 <= i < |Workloads(goal)| ==> WorkloadIsMet(goal, initial, current, i)
    ensures GoalIsMet(goal, initial, current)
  {
    hide Rate, Beats, IsAtLeast;
    if goal.ImproveBaseline? {
      forall w | w in goal.workloads ensures IsAtLeast(Rate(current, w, OWN), Rate(initial, w, OWN), goal.multiplier) {
        var i :| 0 <= i < |goal.workloads| && goal.workloads[i] == w;
        assert WorkloadIsMet(goal, initial, current, i);
      }
    } else {
      forall c, a | c in goal.competitors && a in c.adapters
        ensures Beats(Rate(current, c.workload, OWN), Rate(initial, c.workload, a))
      {
        var i :| 0 <= i < |goal.competitors| && goal.competitors[i] == c;
        assert WorkloadIsMet(goal, initial, current, i);
      }
    }
  }

  // ------------------------------------------------------------- the report

  /** The target is the greatest rate of well-chosen competitors that all have one. */
  ghost predicate RivalsTold(initial: Measurement, workload: string, rivals: seq<string>, target: Option<real>) {
    && (target.Some? <==> WellChosen(rivals) && forall a :: a in rivals ==> Rate(initial, workload, a).Some?)
    && (target.Some? ==>
          && (exists a :: a in rivals && Rate(initial, workload, a) == target)
          && forall a :: a in rivals ==> Rate(initial, workload, a).value <= target.value)
  }

  /** A line that compares one workload with its target. */
  ghost predicate ComparisonTold(goal: Goal, initial: Measurement, current: Measurement, i: nat, c: Comparison)
    requires i < |Workloads(goal)|
  {
    var workload := Workloads(goal)[i];
    && c.workload == workload && c.initial == Rate(initial, workload, OWN) && c.measured == Rate(current, workload, OWN)
    && (if goal.ImproveBaseline? then
          (c.target.Some? <==> c.initial.Some?)
            && (c.target.Some? ==> c.target.value == c.initial.value * goal.multiplier)
        else
          RivalsTold(initial, workload, goal.competitors[i].adapters, c.target))
  }

  lemma ComparisonsAreTold(goal: Goal, initial: Measurement, current: Measurement, i: nat)
    requires i < |Workloads(goal)|
    ensures |Comparisons(goal, initial, current)| == |Workloads(goal)|
    ensures ComparisonTold(goal, initial, current, i, Comparisons(goal, initial, current)[i])
  {
    hide Rate, Target, WellChosen, RivalsTold;
    TargetIsTold(goal, initial, i);
    var c := Compared(goal, initial, current, i);
    assert Comparisons(goal, initial, current)[i] == c;
    assert c.target == Target(goal, initial, i) && c.initial == Rate(initial, Workloads(goal)[i], OWN);
  }

  lemma MultipliedTarget(goal: Goal, initial: Measurement, i: nat)
    requires goal.ImproveBaseline? && i < |Workloads(goal)|
    ensures Target(goal, initial, i) == Scaled(Rate(initial, Workloads(goal)[i], OWN), goal.multiplier)
  {
    hide Rate, Scaled;
  }

  lemma TargetIsTold(goal: Goal, initial: Measurement, i: nat)
    requires i < |Workloads(goal)|
    ensures var workload, target := Workloads(goal)[i], Target(goal, initial, i);
            if goal.ImproveBaseline? then
              && (target.Some? <==> Rate(initial, workload, OWN).Some?)
              && (target.Some? ==> target.value == Rate(initial, workload, OWN).value * goal.multiplier)
            else RivalsTold(initial, workload, goal.competitors[i].adapters, target)
  {
    hide Rate, ValidCompetitors, WellChosen, BestOf;
    if goal.ImproveBaseline? {
      MultipliedTarget(goal, initial, i);
    } else {
      var rivals := goal.competitors[i].adapters;
      ChosenIs(rivals);
      HasBest(initial, Workloads(goal)[i], rivals);
      SomeChosen(rivals);
      if BestOf(initial, Workloads(goal)[i], rivals).Some? {
        BestOfIsGreatest(initial, Workloads(goal)[i], rivals);
      }
    }
  }

  lemma SomeChosen(adapters: seq<string>)
    ensures WellChosen(adapters) ==> adapters != []
  {
  }

  /** A line that checks one protected workload against the lowest rate it may have. */
  ghost predicate CheckTold(p: Protection, initial: Measurement, current: Measurement, c: Check) {
    var before, now := Rate(initial, p.workload, OWN), Rate(current, p.workload, OWN);
    && c.workload == p.workload && c.initial == before && c.measured == now
    && (c.minimum.Some? <==> before.Some? && 0.0 <= p.maxDecreaseFraction < 1.0)
    && (c.minimum.Some? ==> c.minimum.value == before.value * (1.0 - p.maxDecreaseFraction))
    && (c.passed <==> c.minimum.Some? && now.Some? && now.value >= c.minimum.value)
  }

  /** A line that says how one workload compares with the best measurement. */
  ghost predicate ImprovementTold(best: Measurement, current: Measurement, fraction: real, w: string,
                                  item: Improvement) {
    var before, now := Rate(best, w, OWN), Rate(current, w, OWN);
    && item.workload == w && item.best == before && item.measured == now
    && (item.nondecreasing <==> before.Some? && now.Some? && now.value >= before.value)
    && (item.increased <==> before.Some? && now.Some? && now.value > before.value)
    && (item.meetsFloor <==> before.Some? && now.Some? && now.value > before.value * (1.0 + fraction))
  }

  lemma ImprovedIsTold(best: Measurement, current: Measurement, fraction: real, w: string, before: seq<Comparison>,
                       now: seq<Comparison>)
    requires FindMeasured(before, w) == Rate(best, w, OWN) && FindMeasured(now, w) == Rate(current, w, OWN)
    ensures ImprovementTold(best, current, fraction, w, Improved(w, before, now, fraction))
  {
    hide Rate, FindMeasured;
  }

  lemma ImprovementsAreTold(goal: Goal, initial: Measurement, best: Measurement, current: Measurement, fraction: real,
                            i: nat)
    requires i < |Workloads(goal)|
    ensures ImprovementTold(best, current, fraction, Workloads(goal)[i],
                            Improvements(goal, initial, best, current, fraction)[i])
  {
    hide Rate, Target, Improved, ImprovementTold, FindMeasured;
    var w := Workloads(goal)[i];
    assert Comparisons(goal, initial, best)[i].workload == w == Comparisons(goal, initial, current)[i].workload;
    FoundIsRate(goal, initial, best, Comparisons(goal, initial, best), w);
    FoundIsRate(goal, initial, current, Comparisons(goal, initial, current), w);
    ImprovedIsTold(best, current, fraction, w, Comparisons(goal, initial, best), Comparisons(goal, initial, current));
  }

  /**
    Every line of an assessment compares what it says; the flags are there
    exactly when there is no fault; then they say whether each goal workload
    beats the best one by the fraction, whether every protection holds, and
    whether the goal is met besides.
  */
  lemma AssessmentIsTold(goal: Goal, protections: seq<Protection>, initial: Measurement, best: Measurement,
                         current: Measurement, fraction: real)
    ensures var r := Assessed(goal, protections, initial, best, current, fraction);
            && |r.comparisons| == |r.improvements| == |Workloads(goal)| && |r.checks| == |protections|
            && (forall i :: 0 <= i < |r.comparisons| ==> ComparisonTold(goal, initial, current, i, r.comparisons[i]))
            && (forall i :: 0 <= i < |r.checks| ==> CheckTold(protections[i], initial, current, r.checks[i]))
            && (forall i :: 0 <= i < |r.improvements| ==>
                  ImprovementTold(best, current, fraction, Workloads(goal)[i], r.improvements[i]))
            && if r.faults != [] then r.targetMet.None? && r.improved.None? && r.protectedPerformance.None?
               else
                 && r.protectedPerformance == Some(Protects(protections, initial, current))
                 && r.improved == Some(BeatsBest(goal, best, current, fraction)
                                       && Protects(protections, initial, current))
                 && r.targetMet == Some(r.improved.value && GoalIsMet(goal, initial, current))
  {
    hide Assessed, ComparisonTold, ImprovementTold, CheckTold, GoalIsMet, BeatsBest, Protects;
    LinesAreTold(goal, protections, initial, best, current, fraction);
    FlagsAreTold(goal, protections, initial, best, current, fraction);
  }

  lemma LinesAreTold(goal: Goal, protections: seq<Protection>, initial: Measurement, best: Measurement,
                     current: Measurement, fraction: real)
    ensures var r := Assessed(goal, protections, initial, best, current, fraction);
            && |r.comparisons| == |r.improvements| == |Workloads(goal)| && |r.checks| == |protections|
            && (forall i :: 0 <= i < |r.comparisons| ==> ComparisonTold(goal, initial, current, i, r.comparisons[i]))
            && (forall i :: 0 <= i < |r.checks| ==> CheckTold(protections[i], initial, current, r.checks[i]))
            && (forall i :: 0 <= i < |r.improvements| ==>
                  ImprovementTold(best, current, fraction, Workloads(goal)[i], r.improvements[i]))
  {
    hide Rate, Compared, CandidateFaults, ComparisonTold, ImprovementTold, AllMet;
    var r := Assessed(goal, protections, initial, best, current, fraction);
    forall i | 0 <= i < |Workloads(goal)|
      ensures ComparisonTold(goal, initial, current, i, r.comparisons[i])
      ensures ImprovementTold(best, current, fraction, Workloads(goal)[i], r.improvements[i])
    {
      ComparisonsAreTold(goal, initial, current, i);
      ImprovementsAreTold(goal, initial, best, current, fraction, i);
    }
  }

  lemma FlagsAreTold(goal: Goal, protections: seq<Protection>, initial: Measurement, best: Measurement,
                     current: Measurement, fraction: real)
    ensures var r := Assessed(goal, protections, initial, best, current, fraction);
            if r.faults != [] then r.targetMet.None? && r.improved.None? && r.protectedPerformance.None?
            else
              && r.protectedPerformance == Some(Protects(protections, initial, current))
              && r.improved == Some(BeatsBest(goal, best, current, fraction)
                                    && Protects(protections, initial, current))
              && r.targetMet == Some(r.improved.value && GoalIsMet(goal, initial, current))
  {
    hide Rate, Compared, GoalFaults, GoalIsMet, BeatsBest, Protects, AllMet, ChecksFaults, Comparisons, Checks,
      Improvements;
    var r := Assessed(goal, protections, initial, best, current, fraction);
    if r.faults == [] {
      AssessmentIsExact(goal, protections, initial, best, current, fraction);
      GoalMetExactly(goal, initial, current);
    }
  }

  // ------------------------------------------------ what the verifier asks

  /**
    An accepted comparison is exactly the one that the scores give, without a
    fault, of a measurement that beats the best one and keeps every protection,
    and its outcome says so and whether the goal is met.
  */
  lemma AcceptedExactly(policy: Policy, initial: Measurement, best: Measurement, current: Measurement,
                        saved: Assessment, valid: bool, targetMet: bool, improved: bool)
    ensures AcceptedComparison(policy, initial, best, current, saved, valid, targetMet, improved) <==>
      && saved == Assessed(policy.goal, policy.protections, initial, best, current, policy.fraction)
      && saved.faults == []
      && BeatsBest(policy.goal, best, current, policy.fraction) && Protects(policy.protections, initial, current)
      && valid && improved && (targetMet <==> GoalIsMet(policy.goal, initial, current))
  {
    hide Assessed, BeatsBest, Protects, GoalIsMet;
    AssessmentIsTold(policy.goal, policy.protections, initial, best, current, policy.fraction);
  }

  /** The first score of the own server for h1. */
  ghost predicate IsFirstH1(m: Measurement, i: nat) {
    && i < |m.scores| && m.scores[i].workload == "h1" && m.scores[i].adapter == "busker"
    && forall j :: 0 <= j < i ==> !(m.scores[j].workload == "h1" && m.scores[j].adapter == "busker")
  }

  lemma {:induction false} FirstCell(scores: seq<Score>, workload: string, adapter: string)
    ensures var cells := Cells(scores, workload, adapter);
            if cells == [] then forall j :: 0 <= j < |scores| ==> !Matches(scores[j], workload, adapter)
            else exists i :: 0 <= i < |scores| && Matches(scores[i], workload, adapter) && cells[0] == scores[i]
                             && forall j :: 0 <= j < i ==> !Matches(scores[j], workload, adapter)
  {
    if scores != [] {
      FirstCell(scores[1..], workload, adapter);
      assert forall j :: 0 < j < |scores| ==> scores[j] == scores[1..][j - 1];
      if Matches(scores[0], workload, adapter) {
        assert Cells(scores, workload, adapter)[0] == scores[0];
      } else if Cells(scores, workload, adapter) != [] {
        var i :| 0 <= i < |scores[1..]| && Matches(scores[1..][i], workload, adapter)
                 && Cells(scores, workload, adapter)[0] == scores[1..][i]
                 && forall j :: 0 <= j < i ==> !Matches(scores[1..][j], workload, adapter);
        assert Matches(scores[i + 1], workload, adapter);
      }
    }
  }

  /** The h1 rate that a restart repeats is that of the first such score. */
  lemma H1IsFirst(m: Measurement)
    ensures H1(m).Some? <==> exists i: nat :: IsFirstH1(m, i)
    ensures forall i: nat :: IsFirstH1(m, i) ==> H1(m) == Some(m.scores[i].requestsPerSecond)
  {
    hide Cells;
    FirstCell(m.scores, "h1", OWN);
    if H1(m).Some? {
      var i :| 0 <= i < |m.scores| && Matches(m.scores[i], "h1", OWN) && Cells(m.scores, "h1", OWN)[0] == m.scores[i]
               && forall j :: 0 <= j < i ==> !Matches(m.scores[j], "h1", OWN);
      assert IsFirstH1(m, i);
      forall k: nat | IsFirstH1(m, k) ensures k == i {
        assert Matches(m.scores[k], "h1", OWN);
      }
    } else {
      forall i: nat ensures !IsFirstH1(m, i) {
        assert i < |m.scores| ==> !Matches(m.scores[i], "h1", OWN);
      }
    }
  }

  /**
    A baseline repeats the parent's best: same library, without a fault, every
    protection kept, h1 within five per cent.
  */
  lemma RequalifiedExactly(policy: Policy, initial: Measurement, best: Measurement, baseline: Measurement)
    ensures Requalified(policy, initial, best, baseline) <==>
      && best.nativeSha256 == baseline.nativeSha256
      && Assessed(policy.goal, policy.protections, initial, best, baseline, policy.fraction).faults == []
      && Protects(policy.protections, initial, baseline)
      && H1(best).Some? && H1(baseline).Some?
      && H1(baseline).value - H1(best).value <= 0.05 * H1(best).value
      && H1(best).value - H1(baseline).value <= 0.05 * H1(best).value
  {
    hide Assessed, BeatsBest, Protects, GoalIsMet, H1;
    AssessmentIsTold(policy.goal, policy.protections, initial, best, baseline, policy.fraction);
    if H1(best).Some? && H1(baseline).Some? {
      WithinFivePerCent(H1(baseline).value, H1(best).value);
    }
  }

  lemma WithinFivePerCent(again: real, before: real)
    ensures Repeats(again, before) <==> again - before <= 0.05 * before && before - again <= 0.05 * before
  {
  }

  /** Where the verifier starts the kept changes from, and when it refuses to. */
  lemma FirstBestExactly(policy: Policy, parent: Option<Parent>, baseline: Option<Measurement>, ending: Ending)
    ensures var initial, best := ParentInitial(parent), ParentBest(parent);
            var first := FirstBest(policy, parent, baseline, ending);
            && (first.Ok? <==>
                  && (initial.Some? && baseline.Some? ==>
                        && baseline.value.protocolId == initial.value.protocolId
                        && baseline.value.revision == parent.value.bestRevision
                        && (best.Some? ==> Requalified(policy, initial.value, best.value, baseline.value)))
                  && (initial.Some? && baseline.None? ==> ending.interrupted)
                  && (initial.None? && baseline.None? ==> !ending.moved))
            && (first.Ok? ==>
                  if initial.Some? && best.Some? && baseline.Some?
                  then first.value == if H1(baseline.value).value > H1(best.value).value then baseline else best
                  else if best.Some? then first.value == best
                  else if initial.Some? then first.value == initial else first.value == baseline)
  {
    hide Judged, H1, Repeats;
  }
}
