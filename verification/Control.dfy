/**
  The acceptance rule: what a candidate's scores must show against the initial
  and the best measurement.  Rates are real numbers.
*/
module Control {
  import opened Wrappers

  datatype Score = Score(workload: string, adapter: string, requestsPerSecond: real, valid: bool)

  datatype Measurement = Measurement(
    benchmark: bool, id: string, revision: string, protocolId: string, nativeSha256: string, scores: seq<Score>)

  datatype Competition = Competition(workload: string, adapters: seq<string>)

  datatype Goal =
    | ImproveBaseline(multiplier: real, workloads: seq<string>)
    | BeatAll(competitors: seq<Competition>)

  datatype Protection = Protection(workload: string, maxDecreaseFraction: real)

  datatype Fault =
    | NotABenchmark
    | MissingIdentity
    | ProtocolsDiffer
    | BadWorkloads
    | BadMultiplier
    | BadScore(measurement: string, workload: string, adapter: string)
    | BadCompetitors(workload: string)
    | BadFraction
    | DuplicateProtections
    | BadAllowance
    | BadProtectedScore(measurement: string, workload: string)

  const OWN: string := "busker"

  // ----------------------------------------------------------------- cells

  function Cells(scores: seq<Score>, workload: string, adapter: string): seq<Score> {
    if scores == [] then []
    else
      (if scores[0].workload == workload && scores[0].adapter == adapter then [scores[0]] else [])
      + Cells(scores[1..], workload, adapter)
  }

  /** The one valid positive rate of this workload and adapter, if there is exactly one entry and it is one. */
  function Rate(m: Measurement, workload: string, adapter: string): (rate: Option<real>)
    ensures rate.Some? ==> rate.value > 0.0
  {
    var cells := Cells(m.scores, workload, adapter);
    if |cells| != 1 || !cells[0].valid || cells[0].requestsPerSecond <= 0.0 then None
    else Some(cells[0].requestsPerSecond)
  }

  predicate Matches(s: Score, workload: string, adapter: string) {
    s.workload == workload && s.adapter == adapter
  }

  lemma {:induction false} CellsAppear(scores: seq<Score>, workload: string, adapter: string)
    ensures forall s :: s in Cells(scores, workload, adapter) <==> s in scores && Matches(s, workload, adapter)
    ensures Cells(scores, workload, adapter) == [] <==>
      forall i :: 0 <= i < |scores| ==> !Matches(scores[i], workload, adapter)
  {
    if scores != [] {
      CellsAppear(scores[1..], workload, adapter);
      assert scores == [scores[0]] + scores[1..];
    }
  }

  /** Exactly one entry matches, and it is this one. */
  ghost predicate OnlyMatch(scores: seq<Score>, workload: string, adapter: string, i: int) {
    && 0 <= i < |scores| && Matches(scores[i], workload, adapter)
    && forall j :: 0 <= j < |scores| && Matches(scores[j], workload, adapter) ==> j == i
  }

  lemma {:induction false} OneCell(scores: seq<Score>, workload: string, adapter: string)
    ensures |Cells(scores, workload, adapter)| == 1 <==>
      exists i :: OnlyMatch(scores, workload, adapter, i) && Cells(scores, workload, adapter) == [scores[i]]
    ensures forall i :: OnlyMatch(scores, workload, adapter, i) ==> Cells(scores, workload, adapter) == [scores[i]]
  {
    if scores != [] {
      var rest := scores[1..];
      OneCell(rest, workload, adapter);
      CellsAppear(rest, workload, adapter);
      if Matches(scores[0], workload, adapter) {
        if Cells(rest, workload, adapter) == [] {
          assert forall j :: 0 < j < |scores| ==> scores[j] == rest[j - 1];
          assert OnlyMatch(scores, workload, adapter, 0);
        } else {
          assert forall j :: 0 <= j < |rest| ==> rest[j] == scores[j + 1];
        }
      } else {
        assert forall j :: 0 < j < |scores| ==> scores[j] == rest[j - 1];
        forall i | OnlyMatch(scores, workload, adapter, i) ensures Cells(scores, workload, adapter) == [scores[i]] {
          assert OnlyMatch(rest, workload, adapter, i - 1);
        }
        if |Cells(scores, workload, adapter)| == 1 {
          var i :| OnlyMatch(rest, workload, adapter, i) && Cells(rest, workload, adapter) == [rest[i]];
          assert OnlyMatch(scores, workload, adapter, i + 1);
        }
      }
    }
  }

  /** The rate is what a reader of the score list would say: one entry, valid, positive. */
  lemma RateIs(m: Measurement, workload: string, adapter: string, rate: real)
    ensures Rate(m, workload, adapter) == Some(rate) <==>
      exists i :: OnlyMatch(m.scores, workload, adapter, i) && m.scores[i].valid
        && m.scores[i].requestsPerSecond == rate > 0.0
  {
    OneCell(m.scores, workload, adapter);
  }

  // ------------------------------------------------------------------ goal

  datatype Comparison = Comparison(workload: string, initial: Option<real>, measured: Option<real>,
                                   target: Option<real>, met: bool)

  datatype GoalResult = GoalResult(faults: seq<Fault>, comparisons: seq<Comparison>, targetMet: Option<bool>)

  function Workloads(goal: Goal): seq<string> {
    match goal
    case ImproveBaseline(_, workloads) => workloads
    case BeatAll(competitors) => seq(|competitors|, i requires 0 <= i < |competitors| => competitors[i].workload)
  }

  predicate Distinct<T(==)>(s: seq<T>) {
    forall i, j :: 0 <= i < j < |s| ==> s[i] != s[j]
  }

  predicate ValidCompetitors(adapters: seq<string>) {
    adapters != [] && Distinct(adapters) && forall a :: a in adapters ==> a != "" && a != OWN
  }

  predicate ValidWorkloads(workloads: seq<string>) {
    workloads != [] && Distinct(workloads) && "" !in workloads
  }

  function RateFaults(m: Measurement, workload: string, adapter: string): seq<Fault> {
    if Rate(m, workload, adapter).None? then [BadScore(m.id, workload, adapter)] else []
  }

  function AllRateFaults(m: Measurement, workload: string, adapters: seq<string>): seq<Fault> {
    if adapters == [] then []
    else AllRateFaults(m, workload, adapters[..|adapters| - 1]) + RateFaults(m, workload, adapters[|adapters| - 1])
  }

  /** The greatest rate of the competitors, if they all have one. */
  function BestOf(m: Measurement, workload: string, adapters: seq<string>): Option<real> {
    if adapters == [] then None
    else
      var last := Rate(m, workload, adapters[|adapters| - 1]);
      if |adapters| == 1 then last
      else
        var before := BestOf(m, workload, adapters[..|adapters| - 1]);
        if before.None? || last.None? then None
        else Some(if before.value < last.value then last.value else before.value)
  }

  function Scaled(rate: Option<real>, factor: real): Option<real> {
    if rate.Some? then Some(rate.value * factor) else None
  }

  function Target(goal: Goal, initial: Measurement, i: nat): Option<real>
    requires i < |Workloads(goal)|
  {
    match goal
    case ImproveBaseline(multiplier, workloads) =>
      Scaled(Rate(initial, workloads[i], OWN), multiplier)
    case BeatAll(competitors) =>
      if ValidCompetitors(competitors[i].adapters)
      then BestOf(initial, competitors[i].workload, competitors[i].adapters) else None
  }

  function Compared(goal: Goal, initial: Measurement, current: Measurement, i: nat): Comparison
    requires i < |Workloads(goal)|
  {
    var workload := Workloads(goal)[i];
    var measured := Rate(current, workload, OWN);
    var target := Target(goal, initial, i);
    Comparison(workload, Rate(initial, workload, OWN), measured, target,
               measured.Some? && target.Some?
                 && (if goal.BeatAll? then measured.value > target.value else measured.value >= target.value))
  }

  function ComparedFaults(goal: Goal, initial: Measurement, current: Measurement, i: nat): seq<Fault>
    requires i < |Workloads(goal)|
  {
    var workload := Workloads(goal)[i];
    RateFaults(initial, workload, OWN) + RateFaults(current, workload, OWN) +
    (if goal.ImproveBaseline? then []
     else if ValidCompetitors(goal.competitors[i].adapters)
     then AllRateFaults(initial, workload, goal.competitors[i].adapters)
     else [BadCompetitors(workload)])
  }

  function FaultsUpTo(goal: Goal, initial: Measurement, current: Measurement, n: nat): seq<Fault>
    requires n <= |Workloads(goal)|
  {
    if n == 0 then HeaderFaults(goal, initial, current)
    else FaultsUpTo(goal, initial, current, n - 1) + ComparedFaults(goal, initial, current, n - 1)
  }

  function HeaderFaults(goal: Goal, initial: Measurement, current: Measurement): seq<Fault> {
    (if !initial.benchmark || !current.benchmark then [NotABenchmark] else []) +
    (if initial.id == "" || current.id == "" || initial.revision == "" || current.revision == ""
     then [MissingIdentity] else []) +
    (if initial.protocolId == "" || initial.protocolId != current.protocolId then [ProtocolsDiffer] else []) +
    (if !ValidWorkloads(Workloads(goal)) then [BadWorkloads] else []) +
    (if goal.ImproveBaseline? && goal.multiplier <= 1.0 then [BadMultiplier] else [])
  }

  function GoalFaults(goal: Goal, initial: Measurement, current: Measurement): seq<Fault> {
    FaultsUpTo(goal, initial, current, |Workloads(goal)|)
  }

  function Comparisons(goal: Goal, initial: Measurement, current: Measurement): seq<Comparison> {
    seq(|Workloads(goal)|, i requires 0 <= i < |Workloads(goal)| => Compared(goal, initial, current, i))
  }

  predicate AllMet(comparisons: seq<Comparison>) {
    forall c :: c in comparisons ==> c.met
  }

  /** Looks up one rate and notes a fault when there is none. */
  method Look(m: Measurement, workload: string, adapter: string, faults: seq<Fault>)
    returns (rate: Option<real>, noted: seq<Fault>)
    ensures rate == Rate(m, workload, adapter) && noted == faults + RateFaults(m, workload, adapter)
  {
    var cells := Cells(m.scores, workload, adapter);
    if |cells| != 1 || !cells[0].valid || cells[0].requestsPerSecond <= 0.0 {
      return None, faults + [BadScore(m.id, workload, adapter)];
    }
    return Some(cells[0].requestsPerSecond), faults;
  }

  lemma NoCompetitors(m: Measurement, workload: string)
    ensures BestOf(m, workload, []) == None && AllRateFaults(m, workload, []) == []
  {
  }

  lemma OneMoreCompetitor(m: Measurement, workload: string, adapters: seq<string>, j: nat)
    requires j < |adapters|
    ensures AllRateFaults(m, workload, adapters[..j + 1]) ==
      AllRateFaults(m, workload, adapters[..j]) + RateFaults(m, workload, adapters[j])
    ensures var before, last := BestOf(m, workload, adapters[..j]), Rate(m, workload, adapters[j]);
            BestOf(m, workload, adapters[..j + 1]) ==
              if j == 0 then last
              else if before.None? || last.None? then None
              else Some(if before.value < last.value then last.value else before.value)
  {
    hide Rate, RateFaults;
    assert adapters[..j + 1][..j] == adapters[..j];
  }

  /** The fastest competitor, if all of them have a rate. */
  method Fastest(initial: Measurement, workload: string, adapters: seq<string>, faults: seq<Fault>)
    returns (target: Option<real>, noted: seq<Fault>)
    ensures target == BestOf(initial, workload, adapters)
            && noted == faults + AllRateFaults(initial, workload, adapters)
  {
    hide BestOf, AllRateFaults, Rate;
    NoCompetitors(initial, workload);
    target, noted := None, faults;
    var j := 0;
    while j < |adapters|
      invariant 0 <= j <= |adapters|
      invariant target == BestOf(initial, workload, adapters[..j])
      invariant noted == faults + AllRateFaults(initial, workload, adapters[..j])
    {
      var value;
      value, noted := Look(initial, workload, adapters[j], noted);
      OneMoreCompetitor(initial, workload, adapters, j);
      if j == 0 {
        target := value;
      } else if target.None? || value.None? {
        target := None;
      } else if target.value < value.value {
        target := value;
      }
      j := j + 1;
    }
    assert adapters[..j] == adapters;
  }

  /** One workload: both rates, its target, and whether the target is met. */
  method CompareOne(goal: Goal, initial: Measurement, current: Measurement, i: nat, faults: seq<Fault>)
    returns (c: Comparison, noted: seq<Fault>)
    requires i < |Workloads(goal)|
    ensures c == Compared(goal, initial, current, i) && noted == faults + ComparedFaults(goal, initial, current, i)
  {
    hide Rate, RateFaults, AllRateFaults, BestOf;
    var workload := Workloads(goal)[i];
    var baseline, measured;
    var target := None;
    baseline, noted := Look(initial, workload, OWN, faults);
    measured, noted := Look(current, workload, OWN, noted);
    if goal.ImproveBaseline? {
      target := Scaled(baseline, goal.multiplier);
    } else if ValidCompetitors(goal.competitors[i].adapters) {
      target, noted := Fastest(initial, workload, goal.competitors[i].adapters, noted);
    } else {
      noted := noted + [BadCompetitors(workload)];
    }
    var met := measured.Some? && target.Some? &&
      (if goal.BeatAll? then measured.value > target.value else measured.value >= target.value);
    c := Comparison(workload, baseline, measured, target, met);
  }

  method AssessGoal(goal: Goal, initial: Measurement, current: Measurement) returns (r: GoalResult)
    ensures r.faults == GoalFaults(goal, initial, current) && r.comparisons == Comparisons(goal, initial, current)
    ensures r.targetMet == if r.faults == [] then Some(AllMet(r.comparisons)) else None
  {
    hide Compared, ComparedFaults, HeaderFaults;
    var faults := HeaderFaults(goal, initial, current);
    var comparisons := [];
    var i := 0;
    while i < |Workloads(goal)|
      invariant 0 <= i <= |Workloads(goal)|
      invariant faults == FaultsUpTo(goal, initial, current, i)
      invariant comparisons == Comparisons(goal, initial, current)[..i]
    {
      var comparison;
      comparison, faults := CompareOne(goal, initial, current, i, faults);
      comparisons := comparisons + [comparison];
      i := i + 1;
    }
    r := GoalResult(faults, comparisons, if faults == [] then Some(AllMet(comparisons)) else None);
  }

  // ------------------------------------------------------------- candidate

  datatype Check = Check(workload: string, initial: Option<real>, measured: Option<real>, minimum: Option<real>,
                         passed: bool)

  datatype Improvement = Improvement(
    workload: string, best: Option<real>, measured: Option<real>, nondecreasing: bool, increased: bool,
    meetsFloor: bool)

  datatype Assessment = Assessment(
    faults: seq<Fault>,
    comparisons: seq<Comparison>,
    targetMet: Option<bool>,
    improved: Option<bool>,
    protectedPerformance: Option<bool>,
    checks: seq<Check>,
    improvements: seq<Improvement>)

  predicate ValidAllowance(p: Protection) {
    p.workload != "" && 0.0 <= p.maxDecreaseFraction < 1.0
  }

  function Checked(p: Protection, initial: Measurement, current: Measurement): Check {
    var baseline, measured := Rate(initial, p.workload, OWN), Rate(current, p.workload, OWN);
    var minimum := if 0.0 <= p.maxDecreaseFraction < 1.0 then Scaled(baseline, 1.0 - p.maxDecreaseFraction) else None;
    Check(p.workload, baseline, measured, minimum, minimum.Some? && measured.Some? && measured.value >= minimum.value)
  }

  function ProtectedFaults(m: Measurement, workload: string): seq<Fault> {
    if Rate(m, workload, OWN).None? then [BadProtectedScore(m.id, workload)] else []
  }

  function CheckFaults(p: Protection, initial: Measurement, current: Measurement): seq<Fault> {
    (if ValidAllowance(p) then [] else [BadAllowance])
    + ProtectedFaults(initial, p.workload) + ProtectedFaults(current, p.workload)
  }

  function ChecksFaults(protections: seq<Protection>, initial: Measurement, current: Measurement): seq<Fault> {
    if protections == [] then []
    else ChecksFaults(protections[..|protections| - 1], initial, current)
         + CheckFaults(protections[|protections| - 1], initial, current)
  }

  /** The measured rate of the first comparison of a workload. */
  function FindMeasured(comparisons: seq<Comparison>, workload: string): Option<real> {
    if comparisons == [] then None
    else if comparisons[0].workload == workload then comparisons[0].measured
    else FindMeasured(comparisons[1..], workload)
  }

  predicate MeetsFloor(prior: Option<real>, measured: Option<real>, fraction: real) {
    prior.Some? && measured.Some? && measured.value > prior.value * (1.0 + fraction)
  }

  function Improved(workload: string, best: seq<Comparison>, current: seq<Comparison>, fraction: real): Improvement {
    var prior, measured := FindMeasured(best, workload), FindMeasured(current, workload);
    Improvement(workload, prior, measured,
                prior.Some? && measured.Some? && measured.value >= prior.value,
                prior.Some? && measured.Some? && measured.value > prior.value,
                MeetsFloor(prior, measured, fraction))
  }

  predicate WorkloadsDiffer(protections: seq<Protection>) {
    forall i, j :: 0 <= i < j < |protections| ==> protections[i].workload != protections[j].workload
  }

  function CandidateFaults(goal: Goal, protections: seq<Protection>, initial: Measurement, best: Measurement,
                           current: Measurement, fraction: real): seq<Fault> {
    GoalFaults(goal, initial, current) + GoalFaults(goal, initial, best)
    + (if 0.03 <= fraction <= 0.05 then [] else [BadFraction])
    + (if WorkloadsDiffer(protections) then [] else [DuplicateProtections])
    + ChecksFaults(protections, initial, current)
  }

  function Improvements(goal: Goal, initial: Measurement, best: Measurement, current: Measurement,
                        fraction: real): seq<Improvement> {
    AllImproved(Workloads(goal), Comparisons(goal, initial, best), Comparisons(goal, initial, current), fraction)
  }

  function Checks(protections: seq<Protection>, initial: Measurement, current: Measurement): seq<Check> {
    seq(|protections|, i requires 0 <= i < |protections| => Checked(protections[i], initial, current))
  }

  function Assessed(goal: Goal, protections: seq<Protection>, initial: Measurement, best: Measurement,
                    current: Measurement, fraction: real): Assessment {
    var faults := CandidateFaults(goal, protections, initial, best, current, fraction);
    var comparisons := Comparisons(goal, initial, current);
    var checks := Checks(protections, initial, current);
    var improvements := Improvements(goal, initial, best, current, fraction);
    var protectedPerformance := forall c :: c in checks ==> c.passed;
    var meetsFloor := forall item :: item in improvements ==> item.meetsFloor;
    if faults != [] then Assessment(faults, comparisons, None, None, None, checks, improvements)
    else Assessment(faults, comparisons, Some(AllMet(comparisons) && protectedPerformance && meetsFloor),
                    Some(protectedPerformance && meetsFloor), Some(protectedPerformance), checks, improvements)
  }

  /** Checks one protected workload and notes what is wrong with it. */
  method CheckOne(p: Protection, initial: Measurement, current: Measurement, faults: seq<Fault>)
    returns (c: Check, noted: seq<Fault>)
    ensures c == Checked(p, initial, current) && noted == faults + CheckFaults(p, initial, current)
  {
    noted := faults;
    if p.workload == "" || p.maxDecreaseFraction < 0.0 || p.maxDecreaseFraction >= 1.0 {
      noted := noted + [BadAllowance];
    }
    var baseline := Rate(initial, p.workload, OWN);
    if baseline.None? {
      noted := noted + [BadProtectedScore(initial.id, p.workload)];
    }
    var measured := Rate(current, p.workload, OWN);
    if measured.None? {
      noted := noted + [BadProtectedScore(current.id, p.workload)];
    }
    var minimum := if 0.0 <= p.maxDecreaseFraction < 1.0 then Scaled(baseline, 1.0 - p.maxDecreaseFraction) else None;
    c := Check(p.workload, baseline, measured, minimum,
               minimum.Some? && measured.Some? && measured.value >= minimum.value);
    assert noted == faults + CheckFaults(p, initial, current);
  }

  method CheckAll(protections: seq<Protection>, initial: Measurement, current: Measurement, faults: seq<Fault>)
    returns (checks: seq<Check>, noted: seq<Fault>)
    ensures checks == Checks(protections, initial, current)
            && noted == faults + ChecksFaults(protections, initial, current)
  {
    hide Checked, CheckFaults;
    checks, noted := [], faults;
    var i := 0;
    while i < |protections|
      invariant 0 <= i <= |protections|
      invariant checks == Checks(protections, initial, current)[..i]
      invariant noted == faults + ChecksFaults(protections[..i], initial, current)
    {
      var check;
      check, noted := CheckOne(protections[i], initial, current, noted);
      checks := checks + [check];
      assert protections[..i + 1][..i] == protections[..i];
      i := i + 1;
    }
    assert protections[..i] == protections;
  }

  function AllImproved(workloads: seq<string>, best: seq<Comparison>, current: seq<Comparison>,
                       fraction: real): seq<Improvement> {
    seq(|workloads|, i requires 0 <= i < |workloads| => Improved(workloads[i], best, current, fraction))
  }

  method ImproveAll(workloads: seq<string>, best: seq<Comparison>, current: seq<Comparison>, fraction: real)
    returns (improvements: seq<Improvement>)
    ensures improvements == AllImproved(workloads, best, current, fraction)
  {
    hide Improved;
    improvements := [];
    for i := 0 to |workloads|
      invariant improvements == AllImproved(workloads, best, current, fraction)[..i]
    {
      improvements := improvements + [Improved(workloads[i], best, current, fraction)];
    }
  }

  method AssessCandidate(goal: Goal, protections: seq<Protection>, initial: Measurement, best: Measurement,
                         current: Measurement, fraction: real) returns (r: Assessment)
    ensures r == Assessed(goal, protections, initial, best, current, fraction)
  {
    hide GoalFaults, Comparisons, AllMet, AllImproved, Checks, ChecksFaults, WorkloadsDiffer;
    var goalResult := AssessGoal(goal, initial, current);
    var bestResult := AssessGoal(goal, initial, best);
    var faults := goalResult.faults + bestResult.faults;
    if fraction < 0.03 || fraction > 0.05 {
      faults := faults + [BadFraction];
    }
    if !WorkloadsDiffer(protections) {
      faults := faults + [DuplicateProtections];
    }
    var checks;
    checks, faults := CheckAll(protections, initial, current, faults);
    assert faults == CandidateFaults(goal, protections, initial, best, current, fraction);
    var improvements := ImproveAll(Workloads(goal), bestResult.comparisons, goalResult.comparisons, fraction);
    var protectedPerformance := forall c :: c in checks ==> c.passed;
    var meetsFloor := forall item :: item in improvements ==> item.meetsFloor;
    if faults != [] {
      r := Assessment(faults, goalResult.comparisons, None, None, None, checks, improvements);
    } else {
      assert goalResult.faults == [];
      r := Assessment(faults, goalResult.comparisons,
                      Some(goalResult.targetMet == Some(true) && protectedPerformance && meetsFloor),
                      Some(protectedPerformance && meetsFloor), Some(protectedPerformance), checks, improvements);
    }
  }

  // ------------------------------------------------------ what it all means

  /** Every workload of the goal is faster than the best one by more than the fraction. */
  ghost predicate BeatsBest(goal: Goal, best: Measurement, current: Measurement, fraction: real) {
    forall w :: w in Workloads(goal) ==> MeetsFloor(Rate(best, w, OWN), Rate(current, w, OWN), fraction)
  }

  /** No protected workload is slower than the initial one by more than it may be. */
  ghost predicate Protects(protections: seq<Protection>, initial: Measurement, current: Measurement) {
    forall p :: p in protections ==>
      var baseline, measured := Rate(initial, p.workload, OWN), Rate(current, p.workload, OWN);
      baseline.Some? && measured.Some? && measured.value >= baseline.value * (1.0 - p.maxDecreaseFraction)
  }

  lemma {:induction false} FoundIsRate(goal: Goal, initial: Measurement, m: Measurement, comparisons: seq<Comparison>,
                                       workload: string)
    requires forall c :: c in comparisons ==> c.measured == Rate(m, c.workload, OWN)
    requires exists c :: c in comparisons && c.workload == workload
    ensures FindMeasured(comparisons, workload) == Rate(m, workload, OWN)
  {
    if comparisons[0].workload != workload {
      assert forall c :: c in comparisons ==> c == comparisons[0] || c in comparisons[1..];
      FoundIsRate(goal, initial, m, comparisons[1..], workload);
    }
  }

  /** What each item of the assessment compares, workload by workload. */
  lemma ImprovementIs(goal: Goal, initial: Measurement, best: Measurement, current: Measurement, fraction: real, i: nat)
    requires i < |Workloads(goal)|
    ensures var w := Workloads(goal)[i];
            Improvements(goal, initial, best, current, fraction)[i].meetsFloor <==>
              MeetsFloor(Rate(best, w, OWN), Rate(current, w, OWN), fraction)
  {
    hide Rate, Target;
    var w := Workloads(goal)[i];
    assert Comparisons(goal, initial, best)[i].workload == w == Comparisons(goal, initial, current)[i].workload;
    FoundIsRate(goal, initial, best, Comparisons(goal, initial, best), w);
    FoundIsRate(goal, initial, current, Comparisons(goal, initial, current), w);
  }

  ghost predicate CheckValid(p: Protection, initial: Measurement, current: Measurement) {
    ValidAllowance(p) && Rate(initial, p.workload, OWN).Some? && Rate(current, p.workload, OWN).Some?
  }

  lemma {:induction false} ChecksAreValid(protections: seq<Protection>, initial: Measurement, current: Measurement)
    ensures ChecksFaults(protections, initial, current) == [] <==>
      forall i :: 0 <= i < |protections| ==> CheckValid(protections[i], initial, current)
  {
    hide Rate, ValidAllowance, CheckValid, CheckFaults;
    if protections != [] {
      ChecksAreValid(protections[..|protections| - 1], initial, current);
      CheckWithoutFault(protections[|protections| - 1], initial, current);
    }
  }

  lemma CheckWithoutFault(p: Protection, initial: Measurement, current: Measurement)
    ensures CheckFaults(p, initial, current) == [] <==> CheckValid(p, initial, current)
  {
    hide Rate, ValidAllowance;
  }

  /**
    A valid assessment says "improved" exactly when the rates say so, and
    "target met" exactly when the goal is met besides.
  */
  lemma AssessmentIsExact(goal: Goal, protections: seq<Protection>, initial: Measurement, best: Measurement,
                          current: Measurement, fraction: real)
    requires Assessed(goal, protections, initial, best, current, fraction).faults == []
    ensures var r := Assessed(goal, protections, initial, best, current, fraction);
            && r.improved == Some(BeatsBest(goal, best, current, fraction) && Protects(protections, initial, current))
            && r.protectedPerformance == Some(Protects(protections, initial, current))
            && r.targetMet == Some(r.improved.value && AllMet(Comparisons(goal, initial, current)))
            && 0.03 <= fraction <= 0.05 && Workloads(goal) != []
  {
    hide Rate, GoalFaults, Comparisons, AllMet, MeetsFloor;
    var r := Assessed(goal, protections, initial, best, current, fraction);
    ChecksAreValid(protections, initial, current);
    FloorsAgree(goal, initial, best, current, fraction);
    ChecksAgree(protections, initial, current);
    FaultlessGoal(goal, initial, current);
  }

  lemma FloorsAgree(goal: Goal, initial: Measurement, best: Measurement, current: Measurement, fraction: real)
    ensures (forall item :: item in Improvements(goal, initial, best, current, fraction) ==> item.meetsFloor)
        <==> BeatsBest(goal, best, current, fraction)
  {
    hide Rate, MeetsFloor, Improved;
    var items := Improvements(goal, initial, best, current, fraction);
    forall i | 0 <= i < |items|
      ensures items[i].meetsFloor <==>
        MeetsFloor(Rate(best, Workloads(goal)[i], OWN), Rate(current, Workloads(goal)[i], OWN), fraction)
    {
      ImprovementIs(goal, initial, best, current, fraction, i);
    }
    if forall item :: item in items ==> item.meetsFloor {
      forall w | w in Workloads(goal) ensures MeetsFloor(Rate(best, w, OWN), Rate(current, w, OWN), fraction) {
        var i :| 0 <= i < |Workloads(goal)| && Workloads(goal)[i] == w;
        assert items[i] in items;
      }
    }
  }

  lemma ChecksAgree(protections: seq<Protection>, initial: Measurement, current: Measurement)
    requires forall p :: p in protections ==> ValidAllowance(p)
    ensures (forall c :: c in Checks(protections, initial, current) ==> c.passed) <==>
      Protects(protections, initial, current)
  {
    hide Rate;
    var checks := Checks(protections, initial, current);
    if forall c :: c in checks ==> c.passed {
      forall p | p in protections
        ensures Rate(initial, p.workload, OWN).Some? && Rate(current, p.workload, OWN).Some?
        ensures Rate(current, p.workload, OWN).value
             >= Rate(initial, p.workload, OWN).value * (1.0 - p.maxDecreaseFraction)
      {
        var i :| 0 <= i < |protections| && protections[i] == p;
        assert checks[i] in checks;
      }
    }
  }

  /** Workload i of the goal has its rates, and all its competitors have theirs. */
  ghost predicate HasRates(goal: Goal, initial: Measurement, current: Measurement, i: nat)
    requires i < |Workloads(goal)|
  {
    var workload := Workloads(goal)[i];
    && Rate(initial, workload, OWN).Some? && Rate(current, workload, OWN).Some?
    && (goal.BeatAll? ==>
          && ValidCompetitors(goal.competitors[i].adapters)
          && forall a :: a in goal.competitors[i].adapters ==> Rate(initial, workload, a).Some?)
  }

  lemma {:induction false} RatesWithoutFault(m: Measurement, workload: string, adapters: seq<string>)
    ensures AllRateFaults(m, workload, adapters) == [] <==> forall a :: a in adapters ==> Rate(m, workload, a).Some?
  {
    hide Rate;
    if adapters != [] {
      RatesWithoutFault(m, workload, adapters[..|adapters| - 1]);
      assert adapters == adapters[..|adapters| - 1] + [adapters[|adapters| - 1]];
    }
  }

  lemma ComparedWithoutFault(goal: Goal, initial: Measurement, current: Measurement, i: nat)
    requires i < |Workloads(goal)|
    ensures ComparedFaults(goal, initial, current, i) == [] <==> HasRates(goal, initial, current, i)
  {
    hide Rate, ValidCompetitors;
    if goal.BeatAll? {
      RatesWithoutFault(initial, Workloads(goal)[i], goal.competitors[i].adapters);
    }
  }

  lemma {:induction false} FaultsGrow(goal: Goal, initial: Measurement, current: Measurement, n: nat)
    requires n <= |Workloads(goal)|
    ensures FaultsUpTo(goal, initial, current, n) == [] <==>
      HeaderFaults(goal, initial, current) == [] && forall i :: 0 <= i < n ==> HasRates(goal, initial, current, i)
  {
    hide HasRates, ComparedFaults, HeaderFaults, Workloads;
    if n > 0 {
      FaultsGrow(goal, initial, current, n - 1);
      ComparedWithoutFault(goal, initial, current, n - 1);
    }
  }

  /** Without faults the measurements are comparable and every workload of the goal has both its rates. */
  lemma FaultlessGoal(goal: Goal, initial: Measurement, current: Measurement)
    requires GoalFaults(goal, initial, current) == []
    ensures ValidWorkloads(Workloads(goal)) && initial.protocolId == current.protocolId
    ensures forall w :: w in Workloads(goal) ==> Rate(initial, w, OWN).Some? && Rate(current, w, OWN).Some?
  {
    hide Rate, ValidCompetitors;
    FaultsGrow(goal, initial, current, |Workloads(goal)|);
    forall w | w in Workloads(goal) ensures Rate(initial, w, OWN).Some? && Rate(current, w, OWN).Some? {
      var i :| 0 <= i < |Workloads(goal)| && Workloads(goal)[i] == w;
      assert HasRates(goal, initial, current, i);
    }
  }

  /** The target of a beat-all goal is a rate of one competitor that no other exceeds. */
  lemma {:induction false} BestOfIsGreatest(m: Measurement, workload: string, adapters: seq<string>)
    requires BestOf(m, workload, adapters).Some?
    ensures var best := BestOf(m, workload, adapters).value;
            && (exists a :: a in adapters && Rate(m, workload, a) == Some(best))
            && (forall a :: a in adapters ==> Rate(m, workload, a).Some? && Rate(m, workload, a).value <= best)
  {
    hide Rate;
    var last := |adapters| - 1;
    assert adapters == adapters[..last] + [adapters[last]];
    if |adapters| > 1 {
      BestOfIsGreatest(m, workload, adapters[..last]);
    }
    assert adapters[last] in adapters;
  }

  /** Compared with itself nothing improves: a fresh baseline never meets the floor nor the target. */
  lemma BaselineNeverImproves(goal: Goal, protections: seq<Protection>, m: Measurement, fraction: real)
    requires Assessed(goal, protections, m, m, m, fraction).faults == []
    ensures var r := Assessed(goal, protections, m, m, m, fraction);
            r.improved == Some(false) && r.targetMet == Some(false)
  {
    hide Assessed, Protects, AllMet;
    AssessmentIsExact(goal, protections, m, m, m, fraction);
    var rate := Rate(m, Workloads(goal)[0], OWN);
    if rate.Some? {
      NotAboveItself(rate.value, fraction);
    }
    assert !MeetsFloor(rate, rate, fraction);
  }

  lemma NotAboveItself(rate: real, fraction: real)
    requires rate > 0.0 && fraction > 0.0
    ensures rate < rate * (1.0 + fraction)
  {
    assert rate * (1.0 + fraction) == rate + rate * fraction;
  }
}
