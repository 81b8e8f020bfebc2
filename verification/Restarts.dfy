/**
  Restarts: what the verifier passes on from one run to the next, and whether the
  best h1 rate can fall on the way.  It cannot when h1 is a workload of the goal,
  and it can when h1 is only protected.
*/
module Restarts {
  import opened Wrappers
  import opened Control
  import opened ScoreGrowth

  /** One restart: its baseline unless it never got that far, how it ended, and what it kept. */
  datatype Leg = Leg(baseline: Option<Measurement>, ending: Ending, kept: seq<Kept>)

  /** What the verifier passes on after a restart, if it accepts it. */
  function AfterLeg(policy: Policy, parent: Parent, leg: Leg): Result<Parent, ()> {
    var initial := InitialOf(Some(parent), leg.baseline);
    var first := FirstBest(policy, Some(parent), leg.baseline, leg.ending);
    if first.Err? || !KeptInOrder(policy, initial, first.value, leg.kept, |leg.kept|) then Err(())
    else Ok(Parent(initial, BestAfter(first.value, leg.kept, |leg.kept|),
                   if leg.kept == [] then parent.bestRevision else leg.kept[|leg.kept| - 1].measurement.revision))
  }

  function AfterLegs(policy: Policy, parent: Parent, legs: seq<Leg>): Result<Parent, ()> {
    if legs == [] then Ok(parent)
    else
      var before := AfterLegs(policy, parent, legs[..|legs| - 1]);
      if before.Err? then before else AfterLeg(policy, before.value, legs[|legs| - 1])
  }

  /** A run that has an initial measurement has a best one, and the other way round. */
  predicate Sane(parent: Parent) {
    parent.initial.Some? <==> parent.best.Some?
  }

  lemma LegStaysSane(policy: Policy, parent: Parent, leg: Leg)
    requires Sane(parent) && AfterLeg(policy, parent, leg).Ok?
    ensures Sane(AfterLeg(policy, parent, leg).value)
    ensures parent.initial.Some? ==> AfterLeg(policy, parent, leg).value.initial == parent.initial
  {
    hide Requalified, AcceptedComparison;
    if leg.kept != [] {
      assert KeptAt(policy, InitialOf(Some(parent), leg.baseline),
                    FirstBest(policy, Some(parent), leg.baseline, leg.ending).value,
                    leg.kept, 0);
    }
  }

  // ---------------------------------------------------- h1 in the goal

  /** A requalified baseline and the best it repeats have a rate for every workload of the goal. */
  lemma RequalifiedRates(policy: Policy, initial: Measurement, best: Measurement, baseline: Measurement)
    requires Requalified(policy, initial, best, baseline)
    ensures forall w :: w in Workloads(policy.goal) ==> Rate(best, w, OWN).Some? && Rate(baseline, w, OWN).Some?
  {
    hide Rate, GoalFaults, AllMet;
    FaultlessGoal(policy.goal, initial, best);
    FaultlessGoal(policy.goal, initial, baseline);
  }

  /** The rate of h1 is there, and is not below the one before. */
  predicate NotSlower(before: Option<Measurement>, now: Option<Measurement>) {
    before.Some? && Rate(before.value, "h1", OWN).Some? ==>
      && now.Some? && Rate(now.value, "h1", OWN).Some?
      && Rate(now.value, "h1", OWN).value >= Rate(before.value, "h1", OWN).value
  }

  lemma FirstIsNotSlower(policy: Policy, parent: Parent, baseline: Option<Measurement>, ending: Ending)
    requires "h1" in Workloads(policy.goal) && parent.initial.Some? && parent.best.Some?
    requires FirstBest(policy, Some(parent), baseline, ending).Ok?
    ensures FirstBest(policy, Some(parent), baseline, ending).value.Some?
    ensures NotSlower(parent.best, FirstBest(policy, Some(parent), baseline, ending).value)
  {
    hide Requalified, Rate;
    if baseline.Some? {
      RequalifiedRates(policy, parent.initial.value, parent.best.value, baseline.value);
      H1IsRate(parent.best.value);
      H1IsRate(baseline.value);
    }
  }

  /**
    With h1 in the goal, an accepted restart ends with no slower h1 than its
    parent's best, and a faster one once it keeps a change.
  */
  lemma H1NeverFalls(policy: Policy, parent: Parent, leg: Leg)
    requires "h1" in Workloads(policy.goal) && Sane(parent)
    requires AfterLeg(policy, parent, leg).Ok?
    ensures var best := AfterLeg(policy, parent, leg).value.best;
            && NotSlower(parent.best, best)
            && (leg.kept != [] && parent.best.Some? && Rate(parent.best.value, "h1", OWN).Some? ==>
                  Rate(best.value, "h1", OWN).value > Rate(parent.best.value, "h1", OWN).value)
  {
    hide FirstBest, KeptInOrder, Chain, Rate, BestAfter, Last;
    if parent.best.Some? && Rate(parent.best.value, "h1", OWN).Some? {
      FirstIsNotSlower(policy, parent, leg.baseline, leg.ending);
      var first := FirstBest(policy, Some(parent), leg.baseline, leg.ending).value.value;
      VerifiedIsChain(policy, parent.initial.value, first, leg.kept);
      LastIsBest(first, leg.kept);
      ChainSpeedsUp(policy, parent.initial.value, first, leg.kept);
    }
  }

  lemma ChainSpeedsUp(policy: Policy, initial: Measurement, first: Measurement, kept: seq<Kept>)
    requires Chain(policy, initial, first, Measurements(kept))
    requires "h1" in Workloads(policy.goal) && Rate(first, "h1", OWN).Some?
    ensures var before, now := Rate(first, "h1", OWN), Rate(Last(first, Measurements(kept)), "h1", OWN);
            now.Some? && if kept == [] then now.value == before.value else now.value > before.value
  {
    hide Chain, Rate, Last, Power;
    var all := Measurements(kept);
    assert |all| == |kept|;
    if kept == [] {
      NothingKept(policy, first);
    } else {
      GrowthCompounds(policy, initial, first, all, "h1");
      PowerGrows(policy, initial, first, kept);
      AtLeast(Rate(first, "h1", OWN).value, Power(1.0 + policy.fraction, |kept|));
    }
  }

  lemma LastIsBest(first: Measurement, kept: seq<Kept>)
    ensures BestAfter(Some(first), kept, |kept|) == Some(Last(first, Measurements(kept)))
  {
  }

  lemma PowerGrows(policy: Policy, initial: Measurement, first: Measurement, kept: seq<Kept>)
    requires Chain(policy, initial, first, Measurements(kept)) && kept != []
    ensures Power(1.0 + policy.fraction, |kept|) >= 1.0
  {
    hide Improves;
    var all := Measurements(kept);
    assert Last(first, all[..0]) == first;
    LinkGrows(policy, initial, first, all[0]);
    PowerAtLeastOne(1.0 + policy.fraction, |kept|);
  }

  lemma {:induction false} PowerAtLeastOne(base: real, n: nat)
    requires base >= 1.0
    ensures Power(base, n) >= 1.0
  {
    if n > 0 {
      PowerAtLeastOne(base, n - 1);
      AtLeast(Power(base, n - 1), base);
    }
  }

  lemma AtLeast(a: real, g: real)
    requires a > 0.0 && g >= 1.0
    ensures a * g >= a
  {
    assert a * (g - 1.0) >= 0.0;
  }

  /** With h1 in the goal the best h1 rate never falls, through any number of accepted restarts. */
  lemma {:induction false} H1NeverFallsAcrossRestarts(policy: Policy, parent: Parent, legs: seq<Leg>)
    requires "h1" in Workloads(policy.goal) && Sane(parent)
    requires AfterLegs(policy, parent, legs).Ok?
    ensures Sane(AfterLegs(policy, parent, legs).value)
    ensures NotSlower(parent.best, AfterLegs(policy, parent, legs).value.best)
  {
    hide AfterLeg, Rate;
    if legs != [] {
      var before := legs[..|legs| - 1];
      H1NeverFallsAcrossRestarts(policy, parent, before);
      H1NeverFalls(policy, AfterLegs(policy, parent, before).value, legs[|legs| - 1]);
      LegStaysSane(policy, AfterLegs(policy, parent, before).value, legs[|legs| - 1]);
    }
  }

  // ------------------------------------------------ policies as they are

  /** The policy protects h1 without making it a workload of the goal. */
  predicate OnlyProtectsH1(policy: Policy) {
    "h1" !in Workloads(policy.goal) && exists p :: p in policy.protections && p.workload == "h1"
  }

  /** No measurement is at fault for the policy's sake alone. */
  predicate ValidPolicy(policy: Policy) {
    && ValidWorkloads(Workloads(policy.goal))
    && (match policy.goal
        case ImproveBaseline(multiplier, _) => multiplier > 1.0
        case BeatAll(competitors) => forall c :: c in competitors ==> ValidCompetitors(c.adapters))
    && (forall p :: p in policy.protections ==> ValidAllowance(p))
    && WorkloadsDiffer(policy.protections) && 0.03 <= policy.fraction <= 0.05
  }

  lemma FaultlessPolicy(policy: Policy, initial: Measurement, best: Measurement, current: Measurement)
    requires IsValid(Judged(policy, initial, best, current))
    ensures ValidPolicy(policy)
  {
    hide Rate, ValidCompetitors, ValidAllowance;
    FaultsGrow(policy.goal, initial, current, |Workloads(policy.goal)|);
    ChecksAreValid(policy.protections, initial, current);
    if policy.goal.BeatAll? {
      forall c | c in policy.goal.competitors ensures ValidCompetitors(c.adapters) {
        var i :| 0 <= i < |policy.goal.competitors| && policy.goal.competitors[i] == c;
        assert HasRates(policy.goal, initial, current, i);
      }
    }
  }

  /** The run measures the goal's workloads and the protected ones. */
  predicate IsMeasured(policy: Policy, workload: string) {
    workload in Workloads(policy.goal) || exists p :: p in policy.protections && p.workload == workload
  }

  predicate Measured(policy: Policy, m: Measurement) {
    forall s :: s in m.scores ==> IsMeasured(policy, s.workload)
  }

  predicate ParentMeasured(policy: Policy, parent: Parent) {
    && (parent.initial.Some? ==> Measured(policy, parent.initial.value))
    && (parent.best.Some? ==> Measured(policy, parent.best.value))
  }

  predicate LegMeasured(policy: Policy, leg: Leg) {
    && (leg.baseline.Some? ==> Measured(policy, leg.baseline.value))
    && forall item :: item in leg.kept ==> Measured(policy, item.measurement)
  }

  /** From any parent, through any accepted restarts: the best h1 rate does not fall. */
  ghost predicate NeverFalls(policy: Policy) {
    forall parent: Parent, legs: seq<Leg> ::
      && Sane(parent) && ParentMeasured(policy, parent) && (forall leg :: leg in legs ==> LegMeasured(policy, leg))
      && AfterLegs(policy, parent, legs).Ok?
      ==> NotSlower(parent.best, AfterLegs(policy, parent, legs).value.best)
  }

  /** What is not measured has no rate. */
  lemma UnmeasuredHasNoRate(policy: Policy, m: Measurement, workload: string)
    requires Measured(policy, m) && !IsMeasured(policy, workload)
    ensures Rate(m, workload, OWN).None?
  {
    CellsAppear(m.scores, workload, OWN);
  }

  /** Under a policy that no measurement satisfies nothing is requalified and nothing kept. */
  lemma InvalidPolicyKeeps(policy: Policy, parent: Parent, leg: Leg)
    requires !ValidPolicy(policy) && Sane(parent) && parent.best.Some? && AfterLeg(policy, parent, leg).Ok?
    ensures AfterLeg(policy, parent, leg).value == parent
  {
    hide Judged, ValidPolicy;
    if leg.baseline.Some? {
      FaultlessPolicy(policy, parent.initial.value, parent.best.value, leg.baseline.value);
    } else if leg.kept != [] {
      assert KeptAt(policy, parent.initial, parent.best, leg.kept, 0);
      FaultlessPolicy(policy, parent.initial.value, parent.best.value, leg.kept[0].measurement);
    }
  }

  lemma {:induction false} InvalidPolicyKeepsAll(policy: Policy, parent: Parent, legs: seq<Leg>)
    requires !ValidPolicy(policy) && Sane(parent) && parent.best.Some? && AfterLegs(policy, parent, legs).Ok?
    ensures AfterLegs(policy, parent, legs).value == parent
  {
    hide AfterLeg, ValidPolicy;
    if legs != [] {
      InvalidPolicyKeepsAll(policy, parent, legs[..|legs| - 1]);
      InvalidPolicyKeeps(policy, parent, legs[|legs| - 1]);
    }
  }

  // -------------------------------------------- h1 protected and no more

  function OwnScores(policy: Policy, workloads: seq<string>, goalRate: real, h1Rate: real): seq<Score> {
    if workloads == [] then []
    else [Score(workloads[0], OWN, OwnRate(policy, workloads[0], goalRate, h1Rate), true)]
         + OwnScores(policy, workloads[1..], goalRate, h1Rate)
  }

  function OwnRate(policy: Policy, workload: string, goalRate: real, h1Rate: real): real {
    if workload in Workloads(policy.goal) then goalRate else if workload == "h1" then h1Rate else 100.0
  }

  /** The protected workloads that are not in the goal. */
  function ProtectedOnly(goal: Goal, protections: seq<Protection>): seq<string> {
    if protections == [] then []
    else
      (if protections[0].workload in Workloads(goal) then [] else [protections[0].workload])
      + ProtectedOnly(goal, protections[1..])
  }

  function RivalScores(workload: string, adapters: seq<string>): seq<Score> {
    if adapters == [] then [] else [Score(workload, adapters[0], 1.0, true)] + RivalScores(workload, adapters[1..])
  }

  function AllRivals(competitors: seq<Competition>): seq<Score> {
    if competitors == [] then []
    else RivalScores(competitors[0].workload, competitors[0].adapters) + AllRivals(competitors[1..])
  }

  /**
    A measurement under the policy: every goal workload at one rate, h1 at
    another, the other protected ones at 100, every competitor at 1.
  */
  function Sample(policy: Policy, goalRate: real, h1Rate: real): Measurement {
    Measurement(true, "m", "r", "p", "n",
      OwnScores(policy, Workloads(policy.goal), goalRate, h1Rate)
      + OwnScores(policy, ProtectedOnly(policy.goal, policy.protections), goalRate, h1Rate)
      + (if policy.goal.BeatAll? then AllRivals(policy.goal.competitors) else []))
  }

  function Head(s: Score, workload: string, adapter: string): seq<Score> {
    if Matches(s, workload, adapter) then [s] else []
  }

  lemma HeadIs(s: Score, workload: string, adapter: string)
    ensures Head(s, workload, adapter) == if s.workload == workload && s.adapter == adapter then [s] else []
  {
  }

  lemma CellsHead(scores: seq<Score>, workload: string, adapter: string)
    ensures Cells([], workload, adapter) == []
    ensures scores != [] ==>
      Cells(scores, workload, adapter) == Head(scores[0], workload, adapter) + Cells(scores[1..], workload, adapter)
  {
  }

  lemma {:induction false} CellsConcat(a: seq<Score>, b: seq<Score>, workload: string, adapter: string)
    ensures Cells(a + b, workload, adapter) == Cells(a, workload, adapter) + Cells(b, workload, adapter)
  {
    hide Cells, Head;
    CellsHead(a, workload, adapter);
    if a == [] {
      assert a + b == b;
    } else {
      CellsConcat(a[1..], b, workload, adapter);
      CellsHead(a + b, workload, adapter);
      assert (a + b)[1..] == a[1..] + b;
    }
  }

  lemma {:induction false} OwnCells(policy: Policy, workloads: seq<string>, goalRate: real, h1Rate: real, w: string,
                                    adapter: string)
    requires Distinct(workloads)
    ensures Cells(OwnScores(policy, workloads, goalRate, h1Rate), w, adapter) ==
      if adapter == OWN && w in workloads then [Score(w, OWN, OwnRate(policy, w, goalRate, h1Rate), true)] else []
  {
    hide OwnRate, Cells, Head;
    CellsHead(OwnScores(policy, workloads, goalRate, h1Rate), w, adapter);
    if workloads != [] {
      OwnCells(policy, workloads[1..], goalRate, h1Rate, w, adapter);
      assert workloads == [workloads[0]] + workloads[1..];
      var all := OwnScores(policy, workloads, goalRate, h1Rate);
      assert all[1..] == OwnScores(policy, workloads[1..], goalRate, h1Rate);
      HeadIs(all[0], w, adapter);
    }
  }

  lemma {:induction false} ProtectedOnlyHas(goal: Goal, protections: seq<Protection>)
    requires WorkloadsDiffer(protections)
    ensures Distinct(ProtectedOnly(goal, protections))
    ensures forall w :: w in ProtectedOnly(goal, protections) <==>
              w !in Workloads(goal) && exists p :: p in protections && p.workload == w
  {
    hide Workloads;
    if protections != [] {
      ProtectedOnlyHas(goal, protections[1..]);
      assert protections == [protections[0]] + protections[1..];
      assert forall p :: p in protections[1..] ==> p.workload != protections[0].workload;
    }
  }

  lemma {:induction false} RivalCells(workload: string, adapters: seq<string>, w: string, adapter: string)
    requires Distinct(adapters)
    ensures Cells(RivalScores(workload, adapters), w, adapter) ==
      if w == workload && adapter in adapters then [Score(w, adapter, 1.0, true)] else []
  {
    hide Cells, Head;
    CellsHead(RivalScores(workload, adapters), w, adapter);
    if adapters != [] {
      RivalCells(workload, adapters[1..], w, adapter);
      assert adapters == [adapters[0]] + adapters[1..];
      var all := RivalScores(workload, adapters);
      assert all[1..] == RivalScores(workload, adapters[1..]);
      HeadIs(all[0], w, adapter);
    }
  }

  /** No two entries of the goal are about the same workload. */
  predicate CompetitionsDiffer(competitors: seq<Competition>) {
    forall i, j :: 0 <= i < j < |competitors| ==> competitors[i].workload != competitors[j].workload
  }

  lemma {:induction false} NoRivals(competitors: seq<Competition>, w: string, adapter: string)
    requires forall c :: c in competitors ==> ValidCompetitors(c.adapters)
    requires adapter == OWN || forall c :: c in competitors ==> c.workload != w
    ensures Cells(AllRivals(competitors), w, adapter) == []
  {
    if competitors != [] {
      NoRivals(competitors[1..], w, adapter);
      RivalCells(competitors[0].workload, competitors[0].adapters, w, adapter);
      CellsConcat(RivalScores(competitors[0].workload, competitors[0].adapters), AllRivals(competitors[1..]), w,
                  adapter);
    }
  }

  lemma {:induction false} AllRivalCells(competitors: seq<Competition>, i: nat, adapter: string)
    requires forall c :: c in competitors ==> ValidCompetitors(c.adapters)
    requires CompetitionsDiffer(competitors) && i < |competitors| && adapter in competitors[i].adapters
    ensures Cells(AllRivals(competitors), competitors[i].workload, adapter)
         == [Score(competitors[i].workload, adapter, 1.0, true)]
  {
    var w := competitors[i].workload;
    RivalCells(competitors[0].workload, competitors[0].adapters, w, adapter);
    CellsConcat(RivalScores(competitors[0].workload, competitors[0].adapters), AllRivals(competitors[1..]), w, adapter);
    if i == 0 {
      NoRivals(competitors[1..], w, adapter);
    } else {
      AllRivalCells(competitors[1..], i - 1, adapter);
    }
  }

  /** The sample's rate of every measured workload. */
  lemma SampleRate(policy: Policy, goalRate: real, h1Rate: real, w: string)
    requires ValidPolicy(policy) && IsMeasured(policy, w) && goalRate > 0.0 && h1Rate > 0.0
    ensures Rate(Sample(policy, goalRate, h1Rate), w, OWN) == Some(OwnRate(policy, w, goalRate, h1Rate))
  {
    hide ValidAllowance, ValidCompetitors, Cells, OwnScores, AllRivals;
    var names, more := Workloads(policy.goal), ProtectedOnly(policy.goal, policy.protections);
    var own, others := OwnScores(policy, names, goalRate, h1Rate), OwnScores(policy, more, goalRate, h1Rate);
    var rivals := if policy.goal.BeatAll? then AllRivals(policy.goal.competitors) else [];
    ProtectedOnlyHas(policy.goal, policy.protections);
    OwnCells(policy, names, goalRate, h1Rate, w, OWN);
    OwnCells(policy, more, goalRate, h1Rate, w, OWN);
    if policy.goal.BeatAll? {
      NoRivals(policy.goal.competitors, w, OWN);
    } else {
      CellsHead([], w, OWN);
    }
    CellsConcat(own, others, w, OWN);
    CellsConcat(own + others, rivals, w, OWN);
  }

  /** Its rate of a competitor is that of the competitor's only score. */
  lemma SampleRival(policy: Policy, goalRate: real, h1Rate: real, i: nat, adapter: string)
    requires ValidPolicy(policy) && policy.goal.BeatAll? && i < |policy.goal.competitors|
    requires adapter in policy.goal.competitors[i].adapters
    ensures Rate(Sample(policy, goalRate, h1Rate), policy.goal.competitors[i].workload, adapter) == Some(1.0)
  {
    hide ValidAllowance, Cells, OwnScores, AllRivals;
    var w := policy.goal.competitors[i].workload;
    var names, more := Workloads(policy.goal), ProtectedOnly(policy.goal, policy.protections);
    var own, others := OwnScores(policy, names, goalRate, h1Rate), OwnScores(policy, more, goalRate, h1Rate);
    ProtectedOnlyHas(policy.goal, policy.protections);
    assert adapter != OWN by { assert ValidCompetitors(policy.goal.competitors[i].adapters); }
    OwnCells(policy, names, goalRate, h1Rate, w, adapter);
    OwnCells(policy, more, goalRate, h1Rate, w, adapter);
    assert CompetitionsDiffer(policy.goal.competitors) by {
      assert forall j :: 0 <= j < |names| ==> names[j] == policy.goal.competitors[j].workload;
    }
    AllRivalCells(policy.goal.competitors, i, adapter);
    CellsConcat(own, others, w, adapter);
    CellsConcat(own + others, AllRivals(policy.goal.competitors), w, adapter);
  }

  lemma SamplesCompare(policy: Policy, g: real, h: real, g': real, h': real)
    requires ValidPolicy(policy) && g > 0.0 && h > 0.0 && g' > 0.0 && h' > 0.0
    ensures GoalFaults(policy.goal, Sample(policy, g, h), Sample(policy, g', h')) == []
  {
    hide Rate, OwnRate, ValidAllowance, WorkloadsDiffer, FaultsUpTo, OwnScores, AllRivals, ProtectedOnly;
    var goal, a, b := policy.goal, Sample(policy, g, h), Sample(policy, g', h');
    forall i | 0 <= i < |Workloads(goal)| ensures HasRates(goal, a, b, i) {
      SampleRate(policy, g, h, Workloads(goal)[i]);
      SampleRate(policy, g', h', Workloads(goal)[i]);
      if goal.BeatAll? {
        forall r | r in goal.competitors[i].adapters ensures Rate(a, goal.competitors[i].workload, r).Some? {
          SampleRival(policy, g, h, i, r);
        }
      }
    }
    FaultsGrow(goal, a, b, |Workloads(goal)|);
  }

  lemma SamplesAreValid(policy: Policy, gi: real, hi: real, gb: real, hb: real, gc: real, hc: real)
    requires ValidPolicy(policy) && gi > 0.0 && hi > 0.0 && gb > 0.0 && hb > 0.0 && gc > 0.0 && hc > 0.0
    ensures IsValid(Judged(policy, Sample(policy, gi, hi), Sample(policy, gb, hb), Sample(policy, gc, hc)))
  {
    hide Rate, OwnRate, GoalFaults, Sample, Comparisons, ChecksFaults, WorkloadsDiffer;
    SamplesCompare(policy, gi, hi, gc, hc);
    SamplesCompare(policy, gi, hi, gb, hb);
    forall k | 0 <= k < |policy.protections|
      ensures CheckValid(policy.protections[k], Sample(policy, gi, hi), Sample(policy, gc, hc))
    {
      assert IsMeasured(policy, policy.protections[k].workload);
      SampleRate(policy, gi, hi, policy.protections[k].workload);
      SampleRate(policy, gc, hc, policy.protections[k].workload);
    }
    ChecksAreValid(policy.protections, Sample(policy, gi, hi), Sample(policy, gc, hc));
  }

  /** Rates no lower than 100, compared with an initial 100, are protected whatever the allowances. */
  lemma SamplesProtected(policy: Policy, g: real, h: real)
    requires ValidPolicy(policy) && g >= 100.0 && h >= 100.0
    ensures Protects(policy.protections, Sample(policy, 100.0, 100.0), Sample(policy, g, h))
  {
    hide Rate, Sample, WorkloadsDiffer;
    forall p | p in policy.protections
      ensures Rate(Sample(policy, 100.0, 100.0), p.workload, OWN) == Some(100.0)
      ensures Rate(Sample(policy, g, h), p.workload, OWN).Some?
      ensures Rate(Sample(policy, g, h), p.workload, OWN).value >= 100.0 * (1.0 - p.maxDecreaseFraction)
    {
      assert IsMeasured(policy, p.workload);
      SampleRate(policy, 100.0, 100.0, p.workload);
      SampleRate(policy, g, h, p.workload);
    }
  }

  lemma SamplesBeat(policy: Policy, h: real, h': real)
    requires ValidPolicy(policy) && h > 0.0 && h' > 0.0
    ensures BeatsBest(policy.goal, Sample(policy, 100.0, h), Sample(policy, 200.0, h'), policy.fraction)
  {
    hide Rate, Sample, WorkloadsDiffer, ValidAllowance;
    forall w | w in Workloads(policy.goal)
      ensures MeetsFloor(Rate(Sample(policy, 100.0, h), w, OWN), Rate(Sample(policy, 200.0, h'), w, OWN),
                         policy.fraction)
    {
      SampleRate(policy, 100.0, h, w);
      SampleRate(policy, 200.0, h', w);
    }
  }

  lemma {:induction false} OwnMeasured(policy: Policy, workloads: seq<string>, goalRate: real, h1Rate: real)
    requires forall w :: w in workloads ==> IsMeasured(policy, w)
    ensures forall s :: s in OwnScores(policy, workloads, goalRate, h1Rate) ==> IsMeasured(policy, s.workload)
  {
    hide IsMeasured, OwnRate;
    if workloads != [] {
      OwnMeasured(policy, workloads[1..], goalRate, h1Rate);
    }
  }

  lemma {:induction false} RivalsMeasured(policy: Policy, workload: string, adapters: seq<string>)
    requires IsMeasured(policy, workload)
    ensures forall s :: s in RivalScores(workload, adapters) ==> IsMeasured(policy, s.workload)
  {
    hide IsMeasured;
    if adapters != [] {
      RivalsMeasured(policy, workload, adapters[1..]);
    }
  }

  lemma {:induction false} AllRivalsMeasured(policy: Policy, competitors: seq<Competition>)
    requires forall c :: c in competitors ==> IsMeasured(policy, c.workload)
    ensures forall s :: s in AllRivals(competitors) ==> IsMeasured(policy, s.workload)
  {
    hide IsMeasured;
    if competitors != [] {
      AllRivalsMeasured(policy, competitors[1..]);
      RivalsMeasured(policy, competitors[0].workload, competitors[0].adapters);
    }
  }

  lemma SampleMeasured(policy: Policy, goalRate: real, h1Rate: real)
    requires ValidPolicy(policy)
    ensures Measured(policy, Sample(policy, goalRate, h1Rate))
  {
    hide ValidAllowance, ValidCompetitors, OwnScores, AllRivals;
    ProtectedOnlyHas(policy.goal, policy.protections);
    OwnMeasured(policy, Workloads(policy.goal), goalRate, h1Rate);
    OwnMeasured(policy, ProtectedOnly(policy.goal, policy.protections), goalRate, h1Rate);
    if policy.goal.BeatAll? {
      forall c | c in policy.goal.competitors ensures IsMeasured(policy, c.workload) {
        var i :| 0 <= i < |policy.goal.competitors| && policy.goal.competitors[i] == c;
        assert Workloads(policy.goal)[i] == c.workload;
      }
      AllRivalsMeasured(policy, policy.goal.competitors);
    }
  }

  /** The restart in which h1 falls: requalified at 110, it keeps a change with h1 at 105, above the initial 100. */
  function FallingLeg(policy: Policy): Leg {
    var initial, best, kept := Sample(policy, 100.0, 100.0), Sample(policy, 100.0, 110.0), Sample(policy, 200.0, 105.0);
    var saved := Judged(policy, initial, best, kept);
    Leg(Some(best), Ending(false, true), [Kept(kept, saved, true, saved.targetMet == Some(true), true)])
  }

  function HighParent(policy: Policy): Parent {
    Parent(Some(Sample(policy, 100.0, 100.0)), Some(Sample(policy, 100.0, 110.0)), "r")
  }

  lemma HighIsRequalified(policy: Policy)
    requires ValidPolicy(policy) && OnlyProtectsH1(policy)
    ensures var best := Sample(policy, 100.0, 110.0);
            && Requalified(policy, Sample(policy, 100.0, 100.0), best, best)
            && Rate(best, "h1", OWN) == Some(110.0) && H1(best) == Some(110.0)
  {
    hide Rate, Sample, ValidPolicy, BeatsBest, Protects, AllMet, Assessed;
    var initial, best := Sample(policy, 100.0, 100.0), Sample(policy, 100.0, 110.0);
    SamplesAreValid(policy, 100.0, 100.0, 100.0, 110.0, 100.0, 110.0);
    SamplesProtected(policy, 100.0, 110.0);
    AssessmentIsExact(policy.goal, policy.protections, initial, best, best, policy.fraction);
    SampleRate(policy, 100.0, 110.0, "h1");
    H1IsRate(best);
  }

  lemma FirstIsHigh(policy: Policy)
    requires Requalified(policy, Sample(policy, 100.0, 100.0), Sample(policy, 100.0, 110.0),
                         Sample(policy, 100.0, 110.0))
    ensures FirstBest(policy, Some(HighParent(policy)), FallingLeg(policy).baseline, FallingLeg(policy).ending)
         == Ok(HighParent(policy).best)
  {
    hide Requalified;
  }

  lemma LowIsKept(policy: Policy)
    requires ValidPolicy(policy) && OnlyProtectsH1(policy)
    ensures KeptInOrder(policy, HighParent(policy).initial, HighParent(policy).best, FallingLeg(policy).kept, 1)
    ensures Rate(Sample(policy, 200.0, 105.0), "h1", OWN) == Some(105.0)
  {
    hide Rate, Sample, ValidPolicy, BeatsBest, Protects, AllMet, Assessed;
    var initial, best, kept := Sample(policy, 100.0, 100.0), Sample(policy, 100.0, 110.0), Sample(policy, 200.0, 105.0);
    SamplesAreValid(policy, 100.0, 100.0, 100.0, 110.0, 200.0, 105.0);
    SamplesProtected(policy, 200.0, 105.0);
    SamplesBeat(policy, 110.0, 105.0);
    AssessmentIsExact(policy.goal, policy.protections, initial, best, kept, policy.fraction);
    SampleRate(policy, 200.0, 105.0, "h1");
  }

  /** Under every valid policy that only protects h1, an accepted restart can take its rate from 110 to 105. */
  lemma ProtectedH1CanFall(policy: Policy)
    requires ValidPolicy(policy) && OnlyProtectsH1(policy)
    ensures var parent, leg := HighParent(policy), FallingLeg(policy);
            && Sane(parent) && ParentMeasured(policy, parent) && LegMeasured(policy, leg)
            && AfterLegs(policy, parent, [leg]).Ok?
            && !NotSlower(parent.best, AfterLegs(policy, parent, [leg]).value.best)
  {
    hide Rate, Sample, ValidPolicy, Judged, Requalified, KeptInOrder, Measured;
    HighIsRequalified(policy);
    LowIsKept(policy);
    SampleMeasured(policy, 100.0, 100.0);
    SampleMeasured(policy, 100.0, 110.0);
    SampleMeasured(policy, 200.0, 105.0);
    var parent, leg := HighParent(policy), FallingLeg(policy);
    assert [leg][..0] == [];
    assert AfterLegs(policy, parent, []) == Ok(parent);
    assert AfterLegs(policy, parent, [leg]) == AfterLeg(policy, parent, leg);
    FirstIsHigh(policy);
  }

  /**
    When the best h1 rate cannot fall, over all parents and all accepted restarts
    whose measurements are of the policy's workloads: exactly unless the policy is
    a valid one that protects h1 without making it a workload of the goal.
  */
  lemma H1NeverFallsExactly(policy: Policy)
    ensures NeverFalls(policy) <==> !(ValidPolicy(policy) && OnlyProtectsH1(policy))
  {
    hide Rate, ValidPolicy, Measured, AfterLegs, IsMeasured;
    if ValidPolicy(policy) && OnlyProtectsH1(policy) {
      ProtectedH1CanFall(policy);
    } else {
      forall parent: Parent, legs: seq<Leg> |
        Sane(parent) && ParentMeasured(policy, parent) && AfterLegs(policy, parent, legs).Ok?
        ensures NotSlower(parent.best, AfterLegs(policy, parent, legs).value.best)
      {
        H1StaysUp(policy, parent, legs);
      }
    }
  }

  lemma H1StaysUp(policy: Policy, parent: Parent, legs: seq<Leg>)
    requires !(ValidPolicy(policy) && OnlyProtectsH1(policy))
    requires Sane(parent) && ParentMeasured(policy, parent) && AfterLegs(policy, parent, legs).Ok?
    ensures NotSlower(parent.best, AfterLegs(policy, parent, legs).value.best)
  {
    hide Rate, ValidPolicy, Measured, AfterLegs;
    if parent.best.Some? {
      if "h1" in Workloads(policy.goal) {
        H1NeverFallsAcrossRestarts(policy, parent, legs);
      } else if ValidPolicy(policy) {
        UnmeasuredHasNoRate(policy, parent.best.value, "h1");
      } else {
        InvalidPolicyKeepsAll(policy, parent, legs);
      }
    }
  }

  // ------------------------------------------------------- one such policy

  const TLS_ONLY: Policy := Policy(ImproveBaseline(2.0, ["tls-h1"]), [Protection("h1", 0.05)], 0.05)

  function Pair(revision: string, h1: real, tlsH1: real): Measurement {
    Measurement(true, "m", revision, "p", "n", [Score("h1", OWN, h1, true), Score("tls-h1", OWN, tlsH1, true)])
  }

  lemma PairRates(revision: string, h1: real, tlsH1: real)
    requires h1 > 0.0 && tlsH1 > 0.0
    ensures Rate(Pair(revision, h1, tlsH1), "h1", OWN) == Some(h1) == H1(Pair(revision, h1, tlsH1))
    ensures Rate(Pair(revision, h1, tlsH1), "tls-h1", OWN) == Some(tlsH1)
  {
    var scores, second := Pair(revision, h1, tlsH1).scores, [Score("tls-h1", OWN, tlsH1, true)];
    assert "h1"[0] != "tls-h1"[0];
    assert scores[1..] == second && second[1..] == [];
    assert Cells(second, "h1", OWN) == [] && Cells(second, "tls-h1", OWN) == second;
    assert Cells(scores, "h1", OWN) == [scores[0]];
    assert Cells(scores, "tls-h1", OWN) == second;
  }

  /** One more instance: parent and baseline at h1 100, and an accepted change that takes h1 to 96. */
  lemma TlsChangeSlowsH1(revision: string)
    requires revision != ""
    ensures var start, slower := Pair(revision, 100.0, 100.0), Pair(revision, 96.0, 110.0);
            var saved := Judged(TLS_ONLY, start, start, slower);
            var parent := Parent(Some(start), Some(start), revision);
            var leg := Leg(Some(start), Ending(false, true), [Kept(slower, saved, true, false, true)]);
            && AfterLeg(TLS_ONLY, parent, leg) == Ok(Parent(Some(start), Some(slower), revision))
            && Rate(start, "h1", OWN) == Some(100.0) && Rate(slower, "h1", OWN) == Some(96.0)
  {
    hide Rate, Judged, H1;
    var start, slower := Pair(revision, 100.0, 100.0), Pair(revision, 96.0, 110.0);
    PairRates(revision, 100.0, 100.0);
    PairRates(revision, 96.0, 110.0);
    PairJudged(revision, 100.0, 100.0);
    PairJudged(revision, 96.0, 110.0);
  }

  lemma PairJudged(revision: string, h1: real, tlsH1: real)
    requires revision != "" && h1 >= 95.0 && tlsH1 >= 100.0 && tlsH1 < 200.0
    ensures var a := Judged(TLS_ONLY, Pair(revision, 100.0, 100.0), Pair(revision, 100.0, 100.0),
                            Pair(revision, h1, tlsH1));
            && IsValid(a) && a.protectedPerformance == Some(true) && a.targetMet == Some(false)
            && a.improved == Some(tlsH1 > 105.0)
  {
    hide Rate, GoalFaults, ChecksFaults;
    var start, current := Pair(revision, 100.0, 100.0), Pair(revision, h1, tlsH1);
    PairRates(revision, 100.0, 100.0);
    PairRates(revision, h1, tlsH1);
    PairFaultless(revision, h1, tlsH1);
    PairFaultless(revision, 100.0, 100.0);
    assert CheckValid(TLS_ONLY.protections[0], start, current);
    ChecksAreValid(TLS_ONLY.protections, start, current);
    assert IsValid(Judged(TLS_ONLY, start, start, current));
    AssessmentIsExact(TLS_ONLY.goal, TLS_ONLY.protections, start, start, current, TLS_ONLY.fraction);
    assert Comparisons(TLS_ONLY.goal, start, current)
        == [Comparison("tls-h1", Some(100.0), Some(tlsH1), Some(200.0), false)];
    assert !AllMet(Comparisons(TLS_ONLY.goal, start, current)) by {
      assert Comparisons(TLS_ONLY.goal, start, current)[0] in Comparisons(TLS_ONLY.goal, start, current);
    }
  }

  lemma PairFaultless(revision: string, h1: real, tlsH1: real)
    requires revision != "" && h1 > 0.0 && tlsH1 > 0.0
    ensures GoalFaults(TLS_ONLY.goal, Pair(revision, 100.0, 100.0), Pair(revision, h1, tlsH1)) == []
  {
    hide Rate;
    PairRates(revision, 100.0, 100.0);
    PairRates(revision, h1, tlsH1);
    FaultsGrow(TLS_ONLY.goal, Pair(revision, 100.0, 100.0), Pair(revision, h1, tlsH1), 1);
  }
}
